/** The handlers of nodeServer, each shown to do what its thread does when it runs by itself. */
module NodeServer {
  import opened Wrappers
  import opened VolumeOptions
  import opened Node
  import opened NodeAlone
  import VolumeLocks

  class NodeServer {
    const volumeLocks: VolumeLocks.VolumeLocks
    var table: Table

    constructor (table: Table)
      ensures View() == Shared({}, table) && fresh(volumeLocks)
    {
      volumeLocks := new VolumeLocks.VolumeLocks();
      this.table := table;
    }

    function View(): Shared
      reads this, volumeLocks
    {
      Shared(volumeLocks.locks, table)
    }

    /** The deferred release, if the lock was taken, and the reply. */
    method Reply(req: Request, resp: Response, locked: bool, ghost outside: seq<Choice>)
      requires |outside| >= 2
      modifies this, volumeLocks
      ensures Own(old(View()), Thread(req, Return(resp), locked), outside)
           == (View(), Thread(req, Finished(resp), false))
    {
      hide Own;
      assert outside[0..] == outside;
      OwnStep(View(), Thread(req, Return(resp), locked), outside, 0);
      if locked {
        volumeLocks.Release(req.vol);
        OwnStep(View(), Thread(req, Return(resp), false), outside, 1);
        OwnFinished(View(), Thread(req, Finished(resp), false), outside[2..]);
      } else {
        OwnFinished(View(), Thread(req, Finished(resp), false), outside[1..]);
      }
    }

    /**
     * ensureMountPoint: mounted or an error, and how many of the outside choices it used up. A successful unmount of
     * an invalid mount still reports the error of the directory read.
     */
    method EnsureMountPoint(req: Request, outside: seq<Choice>) returns (mounted: bool, failed: bool, used: nat)
      requires (req.Stage? || req.Publish?) && |outside| >= 4
      modifies this
      ensures used <= 4
      ensures Own(old(View()), Thread(req, Probe, true), outside)
           == Own(View(), Thread(req, if failed then Return(Failed(Internal)) else if mounted then Return(Succeeded)
                                      else if req.Stage? then MakeOptions else BindMount, true), outside[used..])
    {
      hide Own;
      var target := req.path;
      assert outside[0..] == outside;
      OwnStep(View(), Thread(req, Probe, true), outside, 0);
      used := 1;
      var seen := Look(table, target, outside[0]);
      var notMnt := seen == Missing || seen == NotMounted;
      if seen == StatFailed {
        OwnStep(View(), Thread(req, ProbeCorrupted, true), outside, 1);
        used := 2;
        if !IsCorruptedDir(table, target, outside[1]) { return !notMnt, true, used; }
        notMnt := false;
      }
      if !notMnt {
        OwnStep(View(), Thread(req, ReadDir, true), outside, used);
        if CanRead(table, target, outside[used]) { return !notMnt, false, used + 1; }
        OwnStep(View(), Thread(req, UnmountInvalid, true), outside, used + 1);
        var unmounted := Unmounted(table, target, outside[used + 1]);
        used := used + 2;
        if unmounted.None? { return !notMnt, true, used; }
        table := unmounted.value;
        notMnt := true;
        return !notMnt, true, used;
      }
      OwnStep(View(), Thread(req, MakeDirectory, true), outside, used);
      var made := WithDirectory(table, target, outside[used]);
      used := used + 1;
      if made.None? { return !notMnt, true, used; }
      table := made.value;
      return !notMnt, false, used;
    }

    method NodeStageVolume(req: Request, outside: seq<Choice>) returns (resp: Response)
      requires req.Stage? && |outside| == 10
      modifies this, volumeLocks
      ensures Own(old(View()), Start(req), outside) == (View(), Thread(req, Finished(resp), false))
    {
      hide Own, StageOptions, EnsureStep, UnmountStep;
      assert outside[0..] == outside;
      OwnStep(View(), Start(req), outside, 0);
      if !req.valid || req.path !in table {
        Reply(req, Failed(InvalidArgument), false, outside[1..]);
        return Failed(InvalidArgument);
      }
      OwnStep(View(), Thread(req, TryLock, false), outside, 1);
      var acquired := volumeLocks.TryAcquire(req.vol);
      if !acquired {
        assert View() == old(View());
        Reply(req, Failed(Aborted), false, outside[2..]);
        return Failed(Aborted);
      }
      var mnt, failed, used := EnsureMountPoint(req, outside[2..]);
      var rest := outside[2..][used..];
      if failed || mnt {
        resp := if failed then Failed(Internal) else Succeeded;
        Reply(req, resp, true, rest);
        return;
      }
      resp := StageUnmounted(req, rest);
    }

    method StageUnmounted(req: Request, outside: seq<Choice>) returns (resp: Response)
      requires req.Stage? && |outside| >= 4
      modifies this, volumeLocks
      ensures Own(old(View()), Thread(req, MakeOptions, true), outside) == (View(), Thread(req, Finished(resp), false))
    {
      hide Own, EnsureStep, UnmountStep;
      assert outside[0..] == outside;
      OwnStep(View(), Thread(req, MakeOptions, true), outside, 0);
      var volOptions := NewVolOptionsFromVolID(req.vol, None);
      if volOptions.Panic? {
        Reply(req, Panicked, true, outside[1..]);
        return Panicked;
      }
      if volOptions.Malformed? {
        var fallback := NewVolOptionsFromStatic(req.vol, req.context);
        if fallback.Err? {
          Reply(req, Failed(Internal), true, outside[1..]);
          return Failed(Internal);
        }
      }
      OwnStep(View(), Thread(req, FuseMount, true), outside, 1);
      var (mounted, ok) := WithMount(table, req.path, Volume(req.vol, Answering), outside[1]);
      table := mounted;
      resp := if ok then Succeeded else Failed(Internal);
      Reply(req, resp, true, outside[2..]);
    }

    method NodePublishVolume(req: Request, outside: seq<Choice>) returns (resp: Response)
      requires req.Publish? && |outside| == 10
      modifies this, volumeLocks
      ensures Own(old(View()), Start(req), outside) == (View(), Thread(req, Finished(resp), false))
    {
      hide Own, EnsureStep, UnmountStep;
      assert outside[0..] == outside;
      OwnStep(View(), Start(req), outside, 0);
      if !req.valid {
        Reply(req, Failed(InvalidArgument), false, outside[1..]);
        return Failed(InvalidArgument);
      }
      OwnStep(View(), Thread(req, TryLock, false), outside, 1);
      var acquired := volumeLocks.TryAcquire(req.vol);
      if !acquired {
        assert View() == old(View());
        Reply(req, Failed(Aborted), false, outside[2..]);
        return Failed(Aborted);
      }
      var mnt, failed, used := EnsureMountPoint(req, outside[2..]);
      var rest := outside[2..][used..];
      if failed || mnt {
        resp := if failed then Failed(Internal) else Succeeded;
        Reply(req, resp, true, rest);
        return;
      }
      resp := PublishUnmounted(req, rest);
    }

    method PublishUnmounted(req: Request, outside: seq<Choice>) returns (resp: Response)
      requires req.Publish? && |outside| >= 4
      modifies this, volumeLocks
      ensures Own(old(View()), Thread(req, BindMount, true), outside) == (View(), Thread(req, Finished(resp), false))
    {
      hide Own, EnsureStep, UnmountStep;
      assert outside[0..] == outside;
      OwnStep(View(), Thread(req, BindMount, true), outside, 0);
      var source, ok := Source(table, req.staging, outside[0]), false;
      if source.Some? {
        var (mounted, done) := WithMount(table, req.path, source.value, outside[0]);
        table, ok := mounted, done;
      }
      if !ok {
        OwnStep(View(), Thread(req, RemoveUnbound, true), outside, 1);
        var removed := Removed(table, req.path, outside[1]);
        if removed.Some? { table := removed.value; }
        Reply(req, Failed(Internal), true, outside[2..]);
        return Failed(Internal);
      }
      Reply(req, Succeeded, true, outside[1..]);
      return Succeeded;
    }

    method NodeUnstageVolume(req: Request, outside: seq<Choice>) returns (resp: Response)
      requires req.Unstage? && |outside| == 10
      modifies this, volumeLocks
      ensures Own(old(View()), Start(req), outside) == (View(), Thread(req, Finished(resp), false))
    {
      hide Own, EnsureStep, MountStep;
      assert outside[0..] == outside;
      OwnStep(View(), Start(req), outside, 0);
      if !req.valid {
        Reply(req, Failed(InvalidArgument), false, outside[1..]);
        return Failed(InvalidArgument);
      }
      OwnStep(View(), Thread(req, TryLock, false), outside, 1);
      var acquired := volumeLocks.TryAcquire(req.vol);
      if !acquired {
        assert View() == old(View());
        Reply(req, Failed(Aborted), false, outside[2..]);
        return Failed(Aborted);
      }
      OwnStep(View(), Thread(req, CheckMounted, true), outside, 2);
      var seen := Look(table, req.path, outside[2]);
      if seen != Mounted {
        resp := if seen == Missing then Failed(NotFound) else if seen == StatFailed then Failed(Internal) else Succeeded;
        Reply(req, resp, true, outside[3..]);
        return;
      }
      resp := CleanupMountPoint(req, outside[3..]);
    }

    method CleanupMountPoint(req: Request, outside: seq<Choice>) returns (resp: Response)
      requires req.Unstage? && |outside| >= 7
      modifies this, volumeLocks
      ensures Own(old(View()), Thread(req, CleanupExists, true), outside) == (View(), Thread(req, Finished(resp), false))
    {
      hide Own, EnsureStep, MountStep;
      assert outside[0..] == outside;
      OwnStep(View(), Thread(req, CleanupExists, true), outside, 0);
      if outside[0].ioError || req.path !in table {
        resp := if outside[0].ioError then Failed(Internal) else Succeeded;
        Reply(req, resp, true, outside[1..]);
        return;
      }
      if !IsCorruptedDir(table, req.path, outside[0]) {
        OwnStep(View(), Thread(req, CleanupProbe, true), outside, 1);
        var seen := Look(table, req.path, outside[1]);
        if seen == NotMounted {
          resp := RemoveMountPoint(req, outside[2..]);
          return;
        }
        if seen != Mounted {
          Reply(req, Failed(Internal), true, outside[2..]);
          return Failed(Internal);
        }
        resp := UnmountAndRemove(req, outside[2..]);
      } else {
        resp := UnmountAndRemove(req, outside[1..]);
      }
    }

    method UnmountAndRemove(req: Request, outside: seq<Choice>) returns (resp: Response)
      requires req.Unstage? && |outside| >= 5
      modifies this, volumeLocks
      ensures Own(old(View()), Thread(req, CleanupUnmount, true), outside) == (View(), Thread(req, Finished(resp), false))
    {
      hide Own, EnsureStep, MountStep;
      assert outside[0..] == outside;
      OwnStep(View(), Thread(req, CleanupUnmount, true), outside, 0);
      var unmounted := Unmounted(table, req.path, outside[0]);
      if unmounted.None? {
        Reply(req, Failed(Internal), true, outside[1..]);
        return Failed(Internal);
      }
      table := unmounted.value;
      OwnStep(View(), Thread(req, CleanupRecheck, true), outside, 1);
      if Look(table, req.path, outside[1]) != NotMounted {
        Reply(req, Failed(Internal), true, outside[2..]);
        return Failed(Internal);
      }
      resp := RemoveMountPoint(req, outside[2..]);
    }

    method RemoveMountPoint(req: Request, outside: seq<Choice>) returns (resp: Response)
      requires req.Unstage? && |outside| >= 3
      modifies this, volumeLocks
      ensures Own(old(View()), Thread(req, CleanupRemove, true), outside) == (View(), Thread(req, Finished(resp), false))
    {
      hide Own, EnsureStep, MountStep;
      assert outside[0..] == outside;
      OwnStep(View(), Thread(req, CleanupRemove, true), outside, 0);
      var removed := Removed(table, req.path, outside[0]);
      resp := if removed.Some? then Succeeded else Failed(Internal);
      if removed.Some? { table := removed.value; }
      Reply(req, resp, true, outside[1..]);
    }

    method NodeUnpublishVolume(req: Request, outside: seq<Choice>) returns (resp: Response)
      requires req.Unpublish? && |outside| == 10
      modifies this, volumeLocks
      ensures Own(old(View()), Start(req), outside) == (View(), Thread(req, Finished(resp), false))
    {
      hide Own, EnsureStep, MountStep;
      assert outside[0..] == outside;
      OwnStep(View(), Start(req), outside, 0);
      if !req.valid {
        Reply(req, Failed(InvalidArgument), false, outside[1..]);
        return Failed(InvalidArgument);
      }
      OwnStep(View(), Thread(req, TryLock, false), outside, 1);
      var acquired := volumeLocks.TryAcquire(req.vol);
      if !acquired {
        assert View() == old(View());
        Reply(req, Failed(Aborted), false, outside[2..]);
        return Failed(Aborted);
      }
      OwnStep(View(), Thread(req, Umount, true), outside, 2);
      var unmounted := Unmounted(table, req.path, outside[2]);
      if unmounted.None? {
        Reply(req, Failed(Internal), true, outside[3..]);
        return Failed(Internal);
      }
      table := unmounted.value;
      OwnStep(View(), Thread(req, RemoveUnmounted, true), outside, 3);
      var removed := Removed(table, req.path, outside[3]);
      resp := if removed.Some? || req.path !in table then Succeeded else Failed(Internal);
      if removed.Some? { table := removed.value; }
      Reply(req, resp, true, outside[4..]);
    }
  }
}
