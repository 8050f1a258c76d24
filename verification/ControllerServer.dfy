/** The handlers of controllerServer, each shown to do what its thread does when it runs by itself. */
module ControllerServer {
  import opened Wrappers
  import opened VolumeSize
  import opened Credentials
  import opened VolumeOptions
  import opened Controller
  import opened ControllerAlone
  import VolumeLocks

  class ControllerServer {
    const volumeLocks: VolumeLocks.VolumeLocks
    const keyFiles: KeyFiles
    var pools: map<Pool, int>

    constructor (pools: map<Pool, int>)
      ensures View() == Shared({}, pools, {})
      ensures fresh(volumeLocks) && fresh(keyFiles)
    {
      volumeLocks := new VolumeLocks.VolumeLocks();
      keyFiles := new KeyFiles();
      this.pools := pools;
    }

    function View(): Shared
      reads this, volumeLocks, keyFiles
    {
      Shared(volumeLocks.locks, pools, keyFiles.files.Keys)
    }

    /** The deferred calls, last first. */
    method RunDeferred(defers: seq<Deferred>, resp: Response, ghost req: Request, ghost outside: seq<Choice>)
      requires ThreadState(req, Return(resp), defers).Matches()
      requires |outside| > |defers|
      modifies this, volumeLocks, keyFiles
      ensures Own(old(View()), ThreadState(req, Return(resp), defers), outside)
           == (View(), ThreadState(req, Finished(resp), []))
    {
      hide Own;
      var i := |defers|;
      assert defers[..i] == defers && outside[0..] == outside;
      while i > 0
        invariant 0 <= i <= |defers|
        invariant Own(old(View()), ThreadState(req, Return(resp), defers), outside)
               == Own(View(), ThreadState(req, Return(resp), defers[..i]), outside[|defers| - i..])
      {
        OwnStep(View(), ThreadState(req, Return(resp), defers[..i]), outside, |defers| - i);
        i := i - 1;
        assert defers[..i + 1][..i] == defers[..i];
        match defers[i]
        case ReleaseLock(id) => volumeLocks.Release(id);
        case DeleteKey(file) => keyFiles.DeleteCredentials(Credentials([], file));
      }
      OwnStep(View(), ThreadState(req, Return(resp), []), outside, |defers|);
      OwnFinished(View(), ThreadState(req, Finished(resp), []), outside[|defers| + 1..]);
    }

    // Each handler is cut where it has taken its lock or its credentials; every part answers for the rest.

    method CreateVolume(req: Request, outside: seq<Choice>) returns (resp: Response)
      requires req.CreateVolume? && |outside| == 10
      modifies this, volumeLocks, keyFiles
      ensures Own(old(View()), Start(req), outside) == (View(), ThreadState(req, Finished(resp), []))
    {
      hide Own, ReadSecret, DeleteStep, ExpandStep;
      var defers: seq<Deferred> := [];
      assert outside[0..] == outside;
      OwnStep(View(), Start(req), outside, 0);
      if !req.capable {
        RunDeferred(defers, Failed(InvalidArgument), req, outside[1..]);
        return Failed(InvalidArgument);
      }
      OwnStep(View(), ThreadState(req, CreateCredentials, []), outside, 1);
      var made := keyFiles.NewAdminCredentials(req.secrets, outside[1].file, outside[1].storeFault);
      if made.Err? {
        RunDeferred(defers, Failed(InvalidArgument), req, outside[2..]);
        return Failed(InvalidArgument);
      }
      resp := CreateNamed(req, made.value, defers + [DeleteKey(made.value.keyFile)], outside[2..]);
    }

    method CreateNamed(req: Request, cr: Credentials, defers: seq<Deferred>, outside: seq<Choice>) returns (resp: Response)
      requires req.CreateVolume? && |outside| == 8 && |defers| == 1
      modifies this, volumeLocks, keyFiles
      ensures Own(old(View()), ThreadState(req, CreateCheckArguments(cr), defers), outside)
           == (View(), ThreadState(req, Finished(resp), []))
    {
      hide Own;
      assert outside[0..] == outside;
      OwnStep(View(), ThreadState(req, CreateCheckArguments(cr), defers), outside, 0);
      if req.name == [] || req.blockCaps == [] || true in req.blockCaps {
        RunDeferred(defers, Failed(InvalidArgument), req, outside[1..]);
        return Failed(InvalidArgument);
      }
      OwnStep(View(), ThreadState(req, CreateLock(cr), defers), outside, 1);
      var acquired := volumeLocks.TryAcquire(req.name);
      if !acquired {
        assert View() == old(View());
        RunDeferred(defers, Failed(Aborted), req, outside[2..]);
        return Failed(Aborted);
      }
      resp := CreateLocked(req, cr, defers + [ReleaseLock(req.name)], outside[2..]);
    }

    method CreateLocked(req: Request, cr: Credentials, defers: seq<Deferred>, outside: seq<Choice>) returns (resp: Response)
      requires req.CreateVolume? && |outside| == 6 && |defers| == 2
      modifies this, volumeLocks, keyFiles
      ensures Own(old(View()), ThreadState(req, CreateOptions(cr), defers), outside)
           == (View(), ThreadState(req, Finished(resp), []))
    {
      hide Own, NewVolumeOptions, RoundOffBytes, RoundUpGiB, DeleteStep, ExpandStep;
      assert outside[0..] == outside;
      OwnStep(View(), ThreadState(req, CreateOptions(cr), defers), outside, 0);
      var options := NewVolumeOptions(req.parameters, req.name, cr.userName, req.required);
      if options.Err? {
        RunDeferred(defers, Failed(InvalidArgument), req, outside[1..]);
        return Failed(InvalidArgument);
      }
      var vol := options.value;
      OwnStep(View(), ThreadState(req, CreateExists(cr, vol), defers), outside, 1);
      if outside[1].commandFails {
        RunDeferred(defers, Failed(Internal), req, outside[2..]);
        return Failed(Internal);
      }
      resp := Created(vol.volID, CreateReported(req.required));
      if PoolOf(cr, vol) in pools {
        RunDeferred(defers, resp, req, outside[2..]);
        return;
      }
      OwnStep(View(), ThreadState(req, CreateCommand(cr, vol), defers), outside, 2);
      var (after, ok) := CreatePool(View(), PoolOf(cr, vol), RoundUpGiB(vol.capacityBytes), outside[2]);
      pools := after.pools;
      if !ok {
        resp := Failed(Internal);
      }
      RunDeferred(defers, resp, req, outside[3..]);
    }

    method DeleteVolume(req: Request, outside: seq<Choice>) returns (resp: Response)
      requires req.DeleteVolume? && |outside| == 10
      modifies this, volumeLocks, keyFiles
      ensures Own(old(View()), Start(req), outside) == (View(), ThreadState(req, Finished(resp), []))
    {
      hide Own;
      var defers: seq<Deferred> := [];
      assert outside[0..] == outside;
      OwnStep(View(), Start(req), outside, 0);
      if req.volumeId == [] {
        RunDeferred(defers, Failed(InvalidArgument), req, outside[1..]);
        return Failed(InvalidArgument);
      }
      OwnStep(View(), ThreadState(req, DeleteCheckCapability, []), outside, 1);
      if !req.capable {
        RunDeferred(defers, Failed(InvalidArgument), req, outside[2..]);
        return Failed(InvalidArgument);
      }
      OwnStep(View(), ThreadState(req, DeleteLock, []), outside, 2);
      var acquired := volumeLocks.TryAcquire(req.volumeId);
      if !acquired {
        assert View() == old(View());
        RunDeferred(defers, Failed(Aborted), req, outside[3..]);
        return Failed(Aborted);
      }
      resp := DeleteLocked(req, defers + [ReleaseLock(req.volumeId)], outside[3..]);
    }

    method DeleteLocked(req: Request, defers: seq<Deferred>, outside: seq<Choice>) returns (resp: Response)
      requires req.DeleteVolume? && |outside| == 7 && |defers| == 1
      modifies this, volumeLocks, keyFiles
      ensures Own(old(View()), ThreadState(req, DeleteDecode, defers), outside)
           == (View(), ThreadState(req, Finished(resp), []))
    {
      hide Own, NewVolOptionsFromVolID, ReadSecret, CreateStep, ExpandStep;
      assert outside[0..] == outside;
      OwnStep(View(), ThreadState(req, DeleteDecode, defers), outside, 0);
      var decoded := NewVolOptionsFromVolID(req.volumeId, None);
      if !decoded.Read? {
        resp := if decoded.Panic? then Panicked else Failed(Internal);
        RunDeferred(defers, resp, req, outside[1..]);
        return;
      }
      var vol := decoded.value;
      OwnStep(View(), ThreadState(req, Pc.DeleteCredentials(vol), defers), outside, 1);
      var made := keyFiles.NewAdminCredentials(req.secrets, outside[1].file, outside[1].storeFault);
      if made.Err? {
        RunDeferred(defers, Failed(InvalidArgument), req, outside[2..]);
        return Failed(InvalidArgument);
      }
      resp := DeleteWithCredentials(req, made.value, vol, defers + [DeleteKey(made.value.keyFile)], outside[2..]);
    }

    method DeleteWithCredentials(req: Request, cr: Credentials, vol: VolumeOptions, defers: seq<Deferred>,
                                 outside: seq<Choice>)
      returns (resp: Response)
      requires req.DeleteVolume? && |outside| == 5 && |defers| == 2
      modifies this, volumeLocks, keyFiles
      ensures Own(old(View()), ThreadState(req, DeleteCommand(cr, vol), defers), outside)
           == (View(), ThreadState(req, Finished(resp), []))
    {
      hide Own, CreateStep, ExpandStep;
      assert outside[0..] == outside;
      OwnStep(View(), ThreadState(req, DeleteCommand(cr, vol), defers), outside, 0);
      var (after, ok) := DeletePool(View(), PoolOf(cr, vol), outside[0]);
      pools := after.pools;
      resp := if ok then Deleted else Failed(Internal);
      RunDeferred(defers, resp, req, outside[1..]);
    }

    method ControllerExpandVolume(req: Request, outside: seq<Choice>) returns (resp: Response)
      requires req.ExpandVolume? && |outside| == 10
      modifies this, volumeLocks, keyFiles
      ensures Own(old(View()), Start(req), outside) == (View(), ThreadState(req, Finished(resp), []))
    {
      hide Own, ReadSecret;
      var defers: seq<Deferred> := [];
      assert outside[0..] == outside;
      OwnStep(View(), Start(req), outside, 0);
      if req.volumeId == [] {
        RunDeferred(defers, Failed(InvalidArgument), req, outside[1..]);
        return Failed(InvalidArgument);
      }
      OwnStep(View(), ThreadState(req, ExpandLock, []), outside, 1);
      var acquired := volumeLocks.TryAcquire(req.volumeId);
      if !acquired {
        assert View() == old(View());
        RunDeferred(defers, Failed(Aborted), req, outside[2..]);
        return Failed(Aborted);
      }
      resp := ExpandLocked(req, defers + [ReleaseLock(req.volumeId)], outside[2..]);
    }

    method ExpandLocked(req: Request, defers: seq<Deferred>, outside: seq<Choice>) returns (resp: Response)
      requires req.ExpandVolume? && |outside| == 8 && |defers| == 1
      modifies this, volumeLocks, keyFiles
      ensures Own(old(View()), ThreadState(req, ExpandCredentials, defers), outside)
           == (View(), ThreadState(req, Finished(resp), []))
    {
      hide Own, NewVolOptionsFromVolID, ReadSecret, RoundOffBytes, RoundUpGiB, CreateStep, DeleteStep;
      assert outside[0..] == outside;
      OwnStep(View(), ThreadState(req, ExpandCredentials, defers), outside, 0);
      var made := keyFiles.NewAdminCredentials(req.secrets, outside[0].file, outside[0].storeFault);
      if made.Err? {
        RunDeferred(defers, Failed(InvalidArgument), req, outside[1..]);
        return Failed(InvalidArgument);
      }
      resp := ExpandWithCredentials(req, made.value, defers + [DeleteKey(made.value.keyFile)], outside[1..]);
    }

    method ExpandWithCredentials(req: Request, cr: Credentials, defers: seq<Deferred>, outside: seq<Choice>)
      returns (resp: Response)
      requires req.ExpandVolume? && |outside| == 7 && |defers| == 2
      modifies this, volumeLocks, keyFiles
      ensures Own(old(View()), ThreadState(req, ExpandDecode(cr), defers), outside)
           == (View(), ThreadState(req, Finished(resp), []))
    {
      hide Own, NewVolOptionsFromVolID, RoundOffBytes, RoundUpGiB, CreateStep, DeleteStep;
      assert outside[0..] == outside;
      OwnStep(View(), ThreadState(req, ExpandDecode(cr), defers), outside, 0);
      var decoded := NewVolOptionsFromVolID(req.volumeId, req.range);
      if !decoded.Read? {
        resp := if decoded.Panic? then Panicked else Failed(Internal);
        RunDeferred(defers, resp, req, outside[1..]);
        return;
      }
      var vol := decoded.value;
      OwnStep(View(), ThreadState(req, ExpandCommand(cr, vol), defers), outside, 1);
      var (after, ok) := SetQuota(View(), PoolOf(cr, vol), ResizeQuotaGiB(vol.capacityBytes), outside[1]);
      pools := after.pools;
      resp := if ok then Expanded(ResizeReported(vol.capacityBytes)) else Failed(Internal);
      RunDeferred(defers, resp, req, outside[2..]);
    }
  }
}
