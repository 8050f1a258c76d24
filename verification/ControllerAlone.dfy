/** One controller request by itself, and how that fits among the interleavings. */
module ControllerAlone {
  import opened Bytes
  import opened Wrappers
  import opened Credentials
  import opened VolumeOptions
  import opened Controller
  import opened ControllerInvariants
  import ControllerTheorems
  import VolumeId

  /** A request's own steps, each with its outside choice. */
  function Own(sh: Shared, t: Thread, outside: seq<Choice>): (Shared, Thread)
    decreases |outside|
  {
    if outside == [] then (sh, t)
    else Own(Step(sh, t, outside[0]).0, Step(sh, t, outside[0]).1, outside[1..])
  }

  lemma OwnStep(sh: Shared, t: Thread, outside: seq<Choice>, k: nat)
    requires k < |outside|
    ensures Own(sh, t, outside[k..]) == Own(Step(sh, t, outside[k]).0, Step(sh, t, outside[k]).1, outside[k + 1..])
  {
    assert outside[k..][1..] == outside[k + 1..];
  }

  lemma {:induction false} OwnFinished(sh: Shared, t: Thread, outside: seq<Choice>)
    requires t.pc.Finished?
    ensures Own(sh, t, outside) == (sh, t)
    decreases |outside|
  {
    if outside != [] { OwnFinished(sh, t, outside[1..]); }
  }

  /** Unwinding keeps the reply and the pools, however much is deferred. */
  lemma {:induction false} OwnReturns(sh: Shared, t: Thread, outside: seq<Choice>)
    requires t.pc.Return? && |outside| > |t.defers|
    ensures Own(sh, t, outside).1.pc == Finished(t.pc.resp) && Own(sh, t, outside).0.pools == sh.pools
    decreases |t.defers|
  {
    hide CreateStep, DeleteStep, ExpandStep;
    var (sh1, t1) := Step(sh, t, outside[0]);
    if t.defers == [] {
      OwnFinished(sh1, t1, outside[1..]);
    } else {
      OwnReturns(sh1, t1, outside[1..]);
    }
  }

  // ---------- what running by itself amounts to ----------

  function Advances(id: RequestId, outside: seq<Choice>): seq<Action> {
    if outside == [] then [] else [Advance(id, outside[0])] + Advances(id, outside[1..])
  }

  /** Running by itself is the interleaving in which only this request takes turns. */
  lemma {:induction false} OwnIsARun(s: State, id: RequestId, outside: seq<Choice>)
    requires !s.crashed && id in s.threads && s.threads[id].pc != Finished(Panicked)
    ensures var s', own := Run(s, Advances(id, outside)), Own(s.shared, s.threads[id], outside);
            && s'.shared == own.0 && s'.threads == s.threads[id := own.1]
            && (s'.crashed <==> own.1.pc == Finished(Panicked))
    decreases |outside|
  {
    hide Step;
    if outside == [] {
      assert s.threads == s.threads[id := s.threads[id]];
    } else {
      var (sh, t) := Step(s.shared, s.threads[id], outside[0]);
      var s1 := Exec(s, Advance(id, outside[0]));
      assert Advances(id, outside)[1..] == Advances(id, outside[1..]);
      if s1.crashed {
        ControllerTheorems.CrashedStays(s1, Advances(id, outside[1..]));
        OwnFinished(sh, t, outside[1..]);
      } else {
        OwnIsARun(s1, id, outside[1..]);
      }
    }
  }

  function HeldLocks(t: Thread): set<Str> {
    if LockOf(t).Some? then {LockOf(t).value} else {}
  }

  function HeldKeys(t: Thread): set<FileName> {
    if KeyOf(t).Some? then {KeyOf(t).value} else {}
  }

  /** What a thread needs to hold what it will give back. */
  ghost predicate Settled(sh: Shared, t: Thread) {
    && InShape(t) && (t.pc.CreateCommand? ==> PoolOf(t.pc.cr, t.pc.vol) !in sh.pools)
    && HeldLocks(t) <= sh.locks && HeldKeys(t) <= sh.keys
  }

  /** A step changes locks and key files by what its thread holds, and by nothing else. */
  lemma StepKeepsOthers(sh: Shared, t: Thread, c: Choice)
    requires Settled(sh, t)
    ensures var (sh', t') := Step(sh, t, c);
            && Settled(sh', t')
            && sh'.locks - HeldLocks(t') == sh.locks - HeldLocks(t) && sh'.keys - HeldKeys(t') == sh.keys - HeldKeys(t)
  {
    hide Step, InShape, LockOf, KeyOf;
    StepHasEffect(sh, t, c);
  }

  lemma {:induction false} OwnGivesBack(sh: Shared, t: Thread, outside: seq<Choice>)
    requires Settled(sh, t) && |outside| >= Rank(t)
    ensures var own := Own(sh, t, outside);
            own.1.pc.Finished? && own.0.locks == sh.locks - HeldLocks(t) && own.0.keys == sh.keys - HeldKeys(t)
    decreases |outside|
  {
    if t.pc.Finished? {
      OwnFinished(sh, t, outside);
      FinishedHoldsNothing(sh, t);
    } else {
      hide Step, Rank, Settled, HeldLocks, HeldKeys;
      ControllerTheorems.FinishedHasNoRank();
      ControllerTheorems.StepsTowardsReply(sh, t, outside[0]);
      StepKeepsOthers(sh, t, outside[0]);
      OwnGivesBack(Step(sh, t, outside[0]).0, Step(sh, t, outside[0]).1, outside[1..]);
    }
  }

  lemma FinishedHoldsNothing(sh: Shared, t: Thread)
    requires InShape(t) && t.pc.Finished?
    ensures HeldLocks(t) == {} && HeldKeys(t) == {}
  {
  }

  /**
   * On every return path, panics included, a handler that is not interrupted leaves locks and key files as it
   * found them.
   */
  lemma HandlerGivesBack(sh: Shared, req: Request, outside: seq<Choice>)
    requires |outside| == 10
    ensures var own := Own(sh, Start(req), outside);
            own.1.pc.Finished? && own.0.locks == sh.locks && own.0.keys == sh.keys
  {
    OwnGivesBack(sh, Start(req), outside);
  }

  // ---------- a delete that meets no fault ----------

  /** From its command on, a delete that meets no fault removes its pool. */
  lemma DeleteToTheEnd(sh: Shared, t: Thread, outside: seq<Choice>)
    requires t.pc.DeleteCommand? && |t.defers| == 2 && |outside| >= 4 && !outside[0].commandFails
    ensures var own := Own(sh, t, outside);
            own.1.pc == Finished(Deleted) && own.0.pools == sh.pools - {PoolOf(t.pc.cr, t.pc.vol)}
  {
    hide Own, CreateStep, ExpandStep;
    assert outside[0..] == outside;
    OwnStep(sh, t, outside, 0);
    var sh1, t1 := Step(sh, t, outside[0]).0, t.Goto(Return(Deleted));
    OwnStep(sh1, t1, outside, 1);
    var sh2, t2 := Step(sh1, t1, outside[1]).0, t1.(defers := t1.defers[..1]);
    OwnStep(sh2, t2, outside, 2);
    var sh3, t3 := Step(sh2, t2, outside[2]).0, t2.(defers := t2.defers[..0]);
    OwnStep(sh3, t3, outside, 3);
    OwnFinished(sh3, t3.Goto(Finished(Deleted)), outside[4..]);
  }

  /** Arguments, capability and lock take a delete three steps. */
  lemma DeleteGetsLock(sh: Shared, req: Request, outside: seq<Choice>)
    requires req.DeleteVolume? && req.capable && req.volumeId != [] && req.volumeId !in sh.locks && |outside| >= 3
    ensures Own(sh, Start(req), outside)
         == Own(sh.(locks := sh.locks + {req.volumeId}), ThreadState(req, DeleteDecode, [ReleaseLock(req.volumeId)]),
                outside[3..])
  {
    hide Own, CreateStep, ExpandStep, NewVolOptionsFromVolID, Admin;
    var lock := ReleaseLock(req.volumeId);
    assert outside[0..] == outside && [] + [lock] == [lock];
    OwnStep(sh, Start(req), outside, 0);
    OwnStep(sh, ThreadState(req, DeleteCheckCapability, []), outside, 1);
    OwnStep(sh, ThreadState(req, DeleteLock, []), outside, 2);
  }

  /** A delete that meets no fault removes its pool. */
  lemma DeleteByItself(sh: Shared, req: Request, cr: Credentials, vol: VolumeOptions, c: Choice, outside: seq<Choice>)
    requires req.DeleteVolume? && req.capable && req.volumeId != [] && req.volumeId !in sh.locks
    requires NewVolOptionsFromVolID(req.volumeId, None) == VolumeId.Read(vol)
    requires c.storeFault == NoFault && c.file !in sh.keys && !c.commandFails
    requires Admin(req.secrets, c.file, true) == Ok(cr)
    requires |outside| == 10 && forall i :: 0 <= i < 10 ==> outside[i] == c
    ensures var own := Own(sh, Start(req), outside);
            own.1.pc == Finished(Deleted) && own.0.pools == sh.pools - {PoolOf(cr, vol)}
  {
    hide Own, NewVolOptionsFromVolID, Admin;
    DeleteGetsLock(sh, req, outside);
    DeleteOnceLocked(sh.(locks := sh.locks + {req.volumeId}), req, cr, vol, c, outside[3..]);
  }

  lemma DeleteOnceLocked(sh: Shared, req: Request, cr: Credentials, vol: VolumeOptions, c: Choice, outside: seq<Choice>)
    requires req.DeleteVolume? && NewVolOptionsFromVolID(req.volumeId, None) == VolumeId.Read(vol)
    requires c.storeFault == NoFault && c.file !in sh.keys && !c.commandFails
    requires Admin(req.secrets, c.file, true) == Ok(cr)
    requires |outside| == 7 && forall i :: 0 <= i < 7 ==> outside[i] == c
    ensures var own := Own(sh, ThreadState(req, DeleteDecode, [ReleaseLock(req.volumeId)]), outside);
            own.1.pc == Finished(Deleted) && own.0.pools == sh.pools - {PoolOf(cr, vol)}
  {
    hide Own, NewVolOptionsFromVolID, Admin, CreateStep, ExpandStep;
    var lock := ReleaseLock(req.volumeId);
    assert outside[0..] == outside;
    OwnStep(sh, ThreadState(req, DeleteDecode, [lock]), outside, 0);
    OwnStep(sh, ThreadState(req, Pc.DeleteCredentials(vol), [lock]), outside, 1);
    var sh1 := sh.(keys := sh.keys + {cr.keyFile});
    DeleteToTheEnd(sh1, ThreadState(req, DeleteCommand(cr, vol), [lock] + [DeleteKey(cr.keyFile)]), outside[2..]);
  }
}
