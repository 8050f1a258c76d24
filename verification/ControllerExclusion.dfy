/** Which deletes and expands keep each other away from a pool: the locks are on volume IDs, and a pool has many. */
module ControllerExclusion {
  import opened Bytes
  import opened Wrappers
  import opened Credentials
  import opened VolumeOptions
  import opened Controller
  import opened ControllerTheorems
  import opened ControllerHistory
  import opened ControllerAlone
  import opened ControllerCalls
  import opened ControllerPromise
  import VolumeId

  /** A delete or expand that is not rejected and leads to a pool. */
  ghost predicate WorksOn(req: Request, pool: Pool) {
    || AsksToDelete(req, pool)
    || (req.ExpandVolume? && Admin(req.secrets, 0, true).Ok? && NewVolOptionsFromVolID(req.volumeId, req.range).Read?
        && Names(req, NewVolOptionsFromVolID(req.volumeId, req.range).value, pool))
  }

  /** A request about to give its command for a pool. */
  ghost predicate AtCommand(s: State, id: RequestId, req: Request, pool: Pool) {
    && id in s.threads && s.threads[id].req == req
    && (s.threads[id].pc.DeleteCommand? || s.threads[id].pc.ExpandCommand?)
    && PoolOf(s.threads[id].pc.cr, s.threads[id].pc.vol) == pool
  }

  ghost predicate Together(s: State, a: Request, b: Request, pool: Pool) {
    exists i, j :: i != j && AtCommand(s, i, a, pool) && AtCommand(s, j, b, pool)
  }

  /** How many steps bring a request to its command. */
  function Steps(req: Request): nat {
    if req.DeleteVolume? then 5 else 4
  }

  lemma HasId(req: Request, pool: Pool)
    requires WorksOn(req, pool)
    ensures !req.CreateVolume? && req.volumeId != []
  {
    VolumeId.PanicIff([]);
  }

  lemma OwnReachesCommand(sh: Shared, req: Request, pool: Pool, file: FileName) returns (t: Thread)
    requires WorksOn(req, pool) && req.volumeId !in sh.locks && file !in sh.keys
    ensures Own(sh, Start(req), seq(Steps(req), _ => Calm(file)))
         == (sh.(locks := sh.locks + {req.volumeId}, keys := sh.keys + {file}), t)
    ensures t.req == req && (t.pc.DeleteCommand? || t.pc.ExpandCommand?) && PoolOf(t.pc.cr, t.pc.vol) == pool
  {
    HasId(req, pool);
    AdminForAny(req.secrets, 0, file);
    if req.DeleteVolume? {
      t := DeleteReachesCommand(sh, req, pool, file);
    } else {
      t := ExpandReachesCommand(sh, req, pool, file);
    }
  }

  lemma DeleteReachesCommand(sh: Shared, req: Request, pool: Pool, file: FileName) returns (t: Thread)
    requires AsksToDelete(req, pool) && req.volumeId != [] && req.volumeId !in sh.locks && file !in sh.keys
    requires Admin(req.secrets, file, true) == Ok(Credentials(req.secrets[ADMIN_NAME], file))
    ensures Own(sh, Start(req), seq(5, _ => Calm(file)))
         == (sh.(locks := sh.locks + {req.volumeId}, keys := sh.keys + {file}), t)
    ensures t.req == req && t.pc.DeleteCommand? && PoolOf(t.pc.cr, t.pc.vol) == pool
  {
    hide Own, Step, NewVolOptionsFromVolID, Admin;
    DeleteGetsLock(sh, req, seq(5, _ => Calm(file)));
    assert seq(5, _ => Calm(file))[3..] == [Calm(file), Calm(file)];
    t := LockedDeleteReachesCommand(sh.(locks := sh.locks + {req.volumeId}), req, pool, file);
  }

  lemma LockedDeleteReachesCommand(sh: Shared, req: Request, pool: Pool, file: FileName) returns (t: Thread)
    requires AsksToDelete(req, pool) && file !in sh.keys
    requires Admin(req.secrets, file, true) == Ok(Credentials(req.secrets[ADMIN_NAME], file))
    ensures Own(sh, ThreadState(req, DeleteDecode, [ReleaseLock(req.volumeId)]), [Calm(file), Calm(file)])
         == (sh.(keys := sh.keys + {file}), t)
    ensures t.req == req && t.pc.DeleteCommand? && PoolOf(t.pc.cr, t.pc.vol) == pool
  {
    hide Own, NewVolOptionsFromVolID, Admin, CreateStep, ExpandStep;
    var outside, lock := [Calm(file), Calm(file)], ReleaseLock(req.volumeId);
    var cr, vol := Credentials(req.secrets[ADMIN_NAME], file), NewVolOptionsFromVolID(req.volumeId, None).value;
    assert outside[0..] == outside && outside[2..] == [];
    OwnStep(sh, ThreadState(req, DeleteDecode, [lock]), outside, 0);
    OwnStep(sh, ThreadState(req, Pc.DeleteCredentials(vol), [lock]), outside, 1);
    t := ThreadState(req, DeleteCommand(cr, vol), [lock] + [DeleteKey(file)]);
    OwnNothing(sh.(keys := sh.keys + {file}), t);
  }

  lemma ExpandReachesCommand(sh: Shared, req: Request, pool: Pool, file: FileName) returns (t: Thread)
    requires WorksOn(req, pool) && req.ExpandVolume? && req.volumeId != [] && req.volumeId !in sh.locks && file !in sh.keys
    requires ADMIN_NAME in req.secrets && Admin(req.secrets, file, true) == Ok(Credentials(req.secrets[ADMIN_NAME], file))
    ensures Own(sh, Start(req), seq(4, _ => Calm(file)))
         == (sh.(locks := sh.locks + {req.volumeId}, keys := sh.keys + {file}), t)
    ensures t.req == req && t.pc.ExpandCommand? && PoolOf(t.pc.cr, t.pc.vol) == pool
  {
    hide Own, NewVolOptionsFromVolID, Admin, CreateStep, DeleteStep;
    var outside, lock := seq(4, _ => Calm(file)), ReleaseLock(req.volumeId);
    var cr, vol := Credentials(req.secrets[ADMIN_NAME], file), NewVolOptionsFromVolID(req.volumeId, req.range).value;
    assert outside[0..] == outside && outside[4..] == [] && [] + [lock] == [lock];
    OwnStep(sh, Start(req), outside, 0);
    OwnStep(sh, ThreadState(req, ExpandLock, []), outside, 1);
    var sh1 := sh.(locks := sh.locks + {req.volumeId});
    OwnStep(sh1, ThreadState(req, ExpandCredentials, [lock]), outside, 2);
    var sh2, all := sh1.(keys := sh.keys + {file}), [lock] + [DeleteKey(file)];
    OwnStep(sh2, ThreadState(req, ExpandDecode(cr), all), outside, 3);
    t := ThreadState(req, ExpandCommand(cr, vol), all);
    OwnNothing(sh2, t);
  }

  /** Whenever its ID is free a request can get to its command beside any others. */
  lemma ReachesCommand(s: State, id: RequestId, req: Request, pool: Pool, file: FileName) returns (more: seq<Action>)
    requires !s.crashed && id !in s.threads && WorksOn(req, pool)
    requires req.volumeId !in s.shared.locks && file !in s.shared.keys
    ensures var s' := Run(s, more);
            && !s'.crashed && AtCommand(s', id, req, pool) && s'.threads == s.threads[id := s'.threads[id]]
            && s'.shared.locks == s.shared.locks + {req.volumeId} && s'.shared.keys == s.shared.keys + {file}
  {
    hide Own, Step, WorksOn, Steps;
    var outside, s1 := seq(Steps(req), _ => Calm(file)), s.(threads := s.threads[id := Start(req)]);
    var t := OwnReachesCommand(s.shared, req, pool, file);
    more := [Arrive(id, req)] + Advances(id, outside);
    assert more[1..] == Advances(id, outside);
    assert Run(s, more) == Run(s1, Advances(id, outside));
    OwnIsARun(s1, id, outside);
    assert s1.threads[id := t] == s.threads[id := t];
  }

  /** Two deletes or expands of one pool can be at their commands together exactly when their volume IDs differ. */
  lemma OverlapIff(a: Request, b: Request, pool: Pool)
    requires WorksOn(a, pool) && WorksOn(b, pool)
    ensures (exists pools, actions :: Together(Run(Fresh(pools), actions), a, b, pool)) <==> a.volumeId != b.volumeId
  {
    HasId(a, pool);
    HasId(b, pool);
    hide Run, WorksOn;
    if a.volumeId != b.volumeId {
      var s := Fresh(map[]);
      var first := ReachesCommand(s, 0, a, pool, 0);
      var second := ReachesCommand(Run(s, first), 1, b, pool, 1);
      RunConcat(s, first, second);
      assert AtCommand(Run(s, first + second), 0, a, pool) && AtCommand(Run(s, first + second), 1, b, pool);
      assert Together(Run(s, first + second), a, b, pool);
    } else {
      forall pools, actions ensures !Together(Run(Fresh(pools), actions), a, b, pool) {
        SameIdExcludes(Run(Fresh(pools), actions), a, b, pool);
      }
    }
  }

  lemma SameIdExcludes(s: State, a: Request, b: Request, pool: Pool)
    requires Reachable(s) && !a.CreateVolume? && !b.CreateVolume? && a.volumeId == b.volumeId
    ensures !Together(s, a, b, pool)
  {
    hide Reachable;
    if Together(s, a, b, pool) {
      var i, j :| i != j && AtCommand(s, i, a, pool) && AtCommand(s, j, b, pool);
      LockedPhasesExclude(s, i, j);
    }
  }

  /** Every created pool has a second ID: the parser ignores what follows the first. */
  lemma AnotherIdOfThePool(create: Request, delete: Request, more: Str)
    requires Accepted(create) && Admin(create.secrets, 0, true).Ok?
    requires delete == DeleteVolume(true, Wanted(create).volID + more, create.secrets)
    ensures AsksToDelete(delete, PoolFor(create, Wanted(create)))
  {
    hide VolumeId.Decode, VolumeId.Compose, VolumeId.Frame, Fits;
    var c := VolumeId.Identifier(Wanted(create).baseConfigURL, User(create), Wanted(create).volName);
    VolumeId.ComposeIsFrame(c);
    VolumeId.DecodeOfFrame(c, more);
  }

  /**
   * So for every create that can be accepted there are two deletes that some run has at their commands for its
   * pool together.
   */
  lemma TwoDeletesMeet(create: Request) returns (a: Request, b: Request)
    requires Accepted(create) && Admin(create.secrets, 0, true).Ok?
    ensures a.DeleteVolume? && b.DeleteVolume?
    ensures exists pools, actions :: Together(Run(Fresh(pools), actions), a, b, PoolFor(create, Wanted(create)))
  {
    a := DeleteVolume(true, Wanted(create).volID, create.secrets);
    b := DeleteVolume(true, Wanted(create).volID + [DASH], create.secrets);
    hide AsksToDelete, Together, Fits, NewVolumeOptions;
    AnswersId(create, a);
    AnotherIdOfThePool(create, b, [DASH]);
    OverlapIff(a, b, PoolFor(create, Wanted(create)));
  }

  lemma AnswersId(create: Request, delete: Request)
    requires Accepted(create) && Admin(create.secrets, 0, true).Ok?
    requires delete == DeleteVolume(true, Wanted(create).volID, create.secrets)
    ensures WorksOn(delete, PoolFor(create, Wanted(create)))
  {
    hide AsksToDelete, Fits, NewVolumeOptions;
    AnsweredIdAsksToDelete(create, delete);
  }
}
