/** The guarantees of the controller service, over every interleaving of any number of requests. */
module ControllerTheorems {
  import opened Wrappers
  import opened VolumeSize
  import opened Credentials
  import opened VolumeOptions
  import opened Controller
  import opened ControllerInvariants
  import VolumeId

  /** A state that some run of a freshly started server reaches. */
  ghost predicate Reachable(s: State) {
    exists pools, actions :: s == Run(Fresh(pools), actions)
  }

  lemma ReachableInv(s: State)
    requires Reachable(s)
    ensures Inv(s)
  {
    var pools, actions :| s == Run(Fresh(pools), actions);
    RunKeepsInv(Fresh(pools), actions);
  }

  // ---------- creation ----------

  /** A create command is only ever issued for a pool that is absent. */
  lemma CreateOnlyWhenAbsent(s: State, id: RequestId)
    requires Reachable(s) && id in s.threads && s.threads[id].pc.CreateCommand?
    ensures PoolOf(s.threads[id].pc.cr, s.threads[id].pc.vol) !in s.shared.pools
  {
    ReachableInv(s);
  }

  /** A reply of Created leads a later request, with the same secret, to the pool that the create was for. */
  lemma CreatedLeadsToItsPool(s: State, id: RequestId, range: Option<int64>)
    requires Reachable(s) && id in s.threads && s.threads[id].pc.Finished? && s.threads[id].pc.resp.Created?
    ensures s.threads[id].req.CreateVolume?
    ensures var req, resp := s.threads[id].req, s.threads[id].pc.resp;
            match NewVolOptionsFromVolID(resp.volumeId, range)
            case Read(vol) =>
              && vol.volName == CSI_VOL_NAMING_PREFIX + req.name
              && vol.baseConfigURL == Lookup(req.parameters, CONFIG_BASE_PATH)
              && resp.capacity == CreateReported(req.required)
            case _ => false
  {
    hide VolumeId.Compose, VolumeId.Decode, RoundOffBytes;
    ReachableInv(s);
    var req := s.threads[id].req;
    assert InShape(s.threads[id]);
    AcceptedIff(req.parameters, req.name, req.secrets[ADMIN_NAME], req.required);
    CreatedIdLeadsBack(req.parameters, req.name, req.secrets[ADMIN_NAME], req.required, range);
  }

  /**
   * A create that settles on answering Created has its pool there, and one that made it has the capacity
   * answered as quota.
   */
  lemma CreatedPoolIsThere(s: State, id: RequestId, c: Choice)
    requires Reachable(s) && !s.crashed && id in s.threads && s.threads[id].pc.OfCreate()
    ensures var t, s' := s.threads[id], Exec(s, Advance(id, c));
            id in s'.threads &&
            match s'.threads[id].pc
            case Return(Created(volumeId, capacity)) =>
              && (t.pc.CreateExists? || t.pc.CreateCommand?) && volumeId == t.pc.vol.volID
              && PoolOf(t.pc.cr, t.pc.vol) in s'.shared.pools
              && (t.pc.CreateCommand? ==>
                    PoolOf(t.pc.cr, t.pc.vol) !in s.shared.pools
                    && s'.shared.pools[PoolOf(t.pc.cr, t.pc.vol)] * GiB == capacity)
            case _ => true
  {
    hide RoundOffBytes, RoundUpGiB, VolumeId.Compose, Admin;
    ReachableInv(s);
    assert InShape(s.threads[id]);
    CreateQuotaIsReported(s.threads[id].req.required);
  }

  /**
   * An expand that succeeds found its pool, and stored the quota it reports exactly on the sizes that do not
   * round down.
   */
  lemma ExpandedQuota(s: State, id: RequestId, c: Choice)
    requires !s.crashed && id in s.threads && s.threads[id].pc.ExpandCommand?
    ensures var t, s' := s.threads[id], Exec(s, Advance(id, c));
            var pool, size := PoolOf(t.pc.cr, t.pc.vol), t.pc.vol.capacityBytes;
            id in s'.threads &&
            match s'.threads[id].pc
            case Return(Expanded(capacity)) =>
              && pool in s.shared.pools && s'.shared.pools.Keys == s.shared.pools.Keys
              && (s'.shared.pools[pool] * GiB == capacity <==> 1 <= size <= MAX_SIZE && !RoundsDown(size))
            case _ => true
  {
    hide RoundOffBytes, RoundUpGiB, RoundsDown;
    ResizeQuotaIsReportedIff(s.threads[id].pc.vol.capacityBytes);
  }

  /** The delete command of an unfinished delete, aimed at a pool. */
  ghost predicate DeletesPool(s: State, a: Action, pool: Pool) {
    && a.Advance? && a.id in s.threads && s.threads[a.id].pc.DeleteCommand?
    && PoolOf(s.threads[a.id].pc.cr, s.threads[a.id].pc.vol) == pool
    && (!a.choice.commandFails || a.choice.commandApplied)
  }

  /** A pool goes away by a delete command for it and by nothing else. */
  lemma PoolGoesOnlyByDelete(s: State, a: Action, pool: Pool)
    requires pool in s.shared.pools && !s.crashed
    ensures pool !in Exec(s, a).shared.pools <==> DeletesPool(s, a, pool)
  {
    hide NewVolumeOptions, NewVolOptionsFromVolID, RoundOffBytes, RoundUpGiB, Admin;
  }

  // ---------- locks ----------

  /**
   * The lock set is the set of locks of the requests between TryAcquire and their return, no two of which share
   * one.
   */
  lemma LocksAreTheRequestsInFlight(s: State)
    requires Reachable(s)
    ensures s.shared.locks == set id | id in s.threads && LockOf(s.threads[id]).Some? :: s.threads[id].req.LockId()
    ensures forall a, b ::
              a in s.threads && b in s.threads && LockOf(s.threads[a]).Some? && LockOf(s.threads[a]) == LockOf(s.threads[b])
              ==> a == b
  {
    ReachableInv(s);
    forall id | id in s.threads && LockOf(s.threads[id]).Some?
      ensures Holds(s, id, s.threads[id].req.LockId())
    {
      assert InShape(s.threads[id]);
    }
    forall a, b | a in s.threads && b in s.threads && LockOf(s.threads[a]).Some?
                  && LockOf(s.threads[a]) == LockOf(s.threads[b])
      ensures a == b
    {
      assert Holds(s, a, LockOf(s.threads[a]).value) && Holds(s, b, LockOf(s.threads[a]).value);
    }
    forall lock | lock in s.shared.locks
      ensures exists id :: id in s.threads && LockOf(s.threads[id]).Some? && s.threads[id].req.LockId() == lock
    {
      var id :| Holds(s, id, lock);
      assert InShape(s.threads[id]);
    }
  }

  /** From its options, decoding or commands on a request holds its lock, so no two are there for one ID. */
  lemma LockedPhasesExclude(s: State, a: RequestId, b: RequestId)
    requires Reachable(s) && a in s.threads && b in s.threads
    requires s.threads[a].req.LockId() == s.threads[b].req.LockId()
    requires Locked(s.threads[a].pc) && Locked(s.threads[b].pc)
    ensures a == b
  {
    ReachableInv(s);
    hide InShape, LockOf, Locked;
    var lock := s.threads[a].req.LockId();
    LockedHasLock(s.threads[a]);
    LockedHasLock(s.threads[b]);
    assert Holds(s, a, lock) && Holds(s, b, lock);
  }

  lemma LockedHasLock(t: Thread)
    requires InShape(t) && Locked(t.pc)
    ensures LockOf(t) == Some(t.req.LockId())
  {
    hide NewVolumeOptions, NewVolOptionsFromVolID, ReplyOf, OptionsOf, CredentialsOf;
  }

  predicate Locked(pc: Pc) {
    || pc.CreateOptions? || pc.CreateExists? || pc.CreateCommand?
    || pc.DeleteDecode? || pc.DeleteCredentials? || pc.DeleteCommand?
    || pc.ExpandCredentials? || pc.ExpandDecode? || pc.ExpandCommand?
  }

  lemma HoldsOwnLock(t: Thread)
    requires InShape(t) && LockOf(t).Some?
    ensures LockOf(t) == Some(t.req.LockId())
  {
    hide NewVolumeOptions, NewVolOptionsFromVolID, ReplyOf, OptionsOf, CredentialsOf;
  }

  /** No step of one request frees the lock of another; in particular a rejected one frees nothing. */
  lemma OthersKeepTheirLocks(s: State, a: Action, id: RequestId)
    requires Reachable(s) && id in s.threads && LockOf(s.threads[id]).Some? && a.id != id
    ensures s.threads[id].req.LockId() in Exec(s, a).shared.locks
  {
    ReachableInv(s);
    ExecKeepsInv(s, a);
    HoldsOwnLock(s.threads[id]);
    hide Step, InShape, LockOf;
    assert Holds(Exec(s, a), id, s.threads[id].req.LockId());
  }

  // ---------- key files ----------

  /** The key files are those of the requests between making and deleting their credentials. */
  lemma KeysAreTheRequestsInFlight(s: State)
    requires Reachable(s)
    ensures s.shared.keys == set id | id in s.threads && KeyOf(s.threads[id]).Some? :: KeyOf(s.threads[id]).value
    ensures forall a, b ::
              a in s.threads && b in s.threads && KeyOf(s.threads[a]).Some? && KeyOf(s.threads[a]) == KeyOf(s.threads[b])
              ==> a == b
  {
    ReachableInv(s);
    forall id | id in s.threads && KeyOf(s.threads[id]).Some?
      ensures HasKey(s, id, KeyOf(s.threads[id]).value)
    {
    }
    forall a, b | a in s.threads && b in s.threads && KeyOf(s.threads[a]).Some?
                  && KeyOf(s.threads[a]) == KeyOf(s.threads[b])
      ensures a == b
    {
      assert HasKey(s, a, KeyOf(s.threads[a]).value) && HasKey(s, b, KeyOf(s.threads[a]).value);
    }
    forall file: FileName | file in s.shared.keys
      ensures exists id :: id in s.threads && KeyOf(s.threads[id]).Some? && KeyOf(s.threads[id]).value == file
    {
      var id :| HasKey(s, id, file);
    }
  }

  /** When every request has finished no lock is held and no key file is left. */
  lemma NothingLeftBehind(s: State)
    requires Reachable(s) && forall id :: id in s.threads ==> s.threads[id].pc.Finished?
    ensures s.shared.locks == {} && s.shared.keys == {}
  {
    ReachableInv(s);
    forall id | id in s.threads
      ensures LockOf(s.threads[id]) == None && KeyOf(s.threads[id]) == None
    {
      assert InShape(s.threads[id]);
    }
    assert forall id, lock :: !Holds(s, id, lock);
    assert forall id, file: FileName :: !HasKey(s, id, file);
  }

  // ---------- progress ----------

  /** Whatever the others do, each step of a request brings it nearer to its reply; none waits for another. */
  lemma StepsTowardsReply(sh: Shared, t: Thread, c: Choice)
    requires !t.pc.Finished?
    ensures Rank(Step(sh, t, c).1) < Rank(t)
  {
    hide NewVolumeOptions, NewVolOptionsFromVolID, RoundOffBytes, RoundUpGiB, Admin;
  }

  /** How many steps of a run are the request's own. */
  function Turns(actions: seq<Action>, id: RequestId): nat {
    if actions == [] then 0
    else (if actions[0].Advance? && actions[0].id == id then 1 else 0) + Turns(actions[1..], id)
  }

  lemma {:induction false} TurnsUseUpRank(s: State, actions: seq<Action>, id: RequestId)
    requires id in s.threads && !Run(s, actions).crashed
    ensures id in Run(s, actions).threads
    ensures var t := Run(s, actions).threads[id];
            t.pc.Finished? || Rank(t) + Turns(actions, id) <= Rank(s.threads[id])
    decreases |actions|
  {
    hide Step, Rank;
    if actions != [] {
      var a := actions[0];
      if s.crashed { CrashedStays(s, actions); }
      if a.Advance? && a.id == id && !s.threads[id].pc.Finished? {
        StepsTowardsReply(s.shared, s.threads[id], a.choice);
      }
      if s.threads[id].pc.Finished? {
        FinishedStays(s, a, id);
      }
      TurnsUseUpRank(Exec(s, a), actions[1..], id);
      FinishedHasNoRank();
    }
  }

  lemma FinishedHasNoRank()
    ensures forall t: Thread :: t.pc.Finished? ==> Rank(t) == 0
    ensures forall t: Thread :: !t.pc.Finished? ==> Rank(t) > 0
  {
  }

  lemma FinishedStays(s: State, a: Action, id: RequestId)
    requires id in s.threads && s.threads[id].pc.Finished?
    ensures id in Exec(s, a).threads && Exec(s, a).threads[id] == s.threads[id]
  {
  }

  lemma {:induction false} CrashedStays(s: State, actions: seq<Action>)
    requires s.crashed
    ensures Run(s, actions) == s
    decreases |actions|
  {
    if actions != [] {
      CrashedStays(s, actions[1..]);
    }
  }

  /** Ten turns of its own finish a request in every interleaving, unless the process panics. */
  lemma TenTurnsFinish(s: State, id: RequestId, req: Request, actions: seq<Action>)
    requires Reachable(s) && id !in s.threads && !s.crashed
    requires Turns(actions, id) >= 10 && !Run(s, [Arrive(id, req)] + actions).crashed
    ensures var s' := Run(s, [Arrive(id, req)] + actions);
            id in s'.threads && s'.threads[id].pc.Finished?
  {
    assert ([Arrive(id, req)] + actions)[1..] == actions;
    TurnsUseUpRank(Exec(s, Arrive(id, req)), actions, id);
    FinishedHasNoRank();
  }
}
