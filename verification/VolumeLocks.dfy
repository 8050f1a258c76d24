/** VolumeLocks of pkg/common/idlocker.go: a set of IDs with an operation in flight. */
module VolumeLocks {
  import opened Bytes

  class VolumeLocks {
    var locks: set<Str>

    constructor ()
      ensures locks == {}
    {
      locks := {};
    }

    method TryAcquire(volumeID: Str) returns (acquired: bool)
      modifies this
      ensures acquired <==> volumeID !in old(locks)
      ensures locks == old(locks) + {volumeID}
    {
      if volumeID in locks { return false; }
      locks := locks + {volumeID};
      return true;
    }

    method Release(volumeID: Str)
      modifies this
      ensures locks == old(locks) - {volumeID}
    {
      locks := locks - {volumeID};
    }
  }
}
