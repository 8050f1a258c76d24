/** What the backend holds after any run, told by the requests that arrived in it. */
module ControllerHistory {
  import opened Wrappers
  import opened VolumeSize
  import opened Credentials
  import opened VolumeOptions
  import opened Controller
  import opened ControllerInvariants
  import opened ControllerTheorems
  import VolumeId

  /** The pool that some options name for the user of a request. */
  ghost predicate Names(req: Request, vol: VolumeOptions, pool: Pool) {
    ADMIN_NAME in req.secrets && pool == Pool(vol.baseConfigURL, req.secrets[ADMIN_NAME], vol.volName)
  }

  /** An accepted create or a readable expand asks for a quota on a pool. */
  ghost predicate AsksFor(req: Request, pool: Pool, quota: int) {
    match req
    case CreateVolume(_, name, _, parameters, secrets, required) =>
      && ADMIN_NAME in secrets && NewVolumeOptions(parameters, name, secrets[ADMIN_NAME], required).Ok?
      && Names(req, NewVolumeOptions(parameters, name, secrets[ADMIN_NAME], required).value, pool)
      && quota == CreateQuotaGiB(required)
    case DeleteVolume(_, _, _) => false
    case ExpandVolume(volumeId, _, range) =>
      && NewVolOptionsFromVolID(volumeId, range).Read?
      && Names(req, NewVolOptionsFromVolID(volumeId, range).value, pool)
      && quota == ResizeQuotaGiB(NewVolOptionsFromVolID(volumeId, range).value.capacityBytes)
  }

  /** A delete that is not rejected and whose ID and user lead to a pool. */
  ghost predicate AsksToDelete(req: Request, pool: Pool) {
    && req.DeleteVolume? && req.capable && Admin(req.secrets, 0, true).Ok?
    && NewVolOptionsFromVolID(req.volumeId, None).Read?
    && Names(req, NewVolOptionsFromVolID(req.volumeId, None).value, pool)
  }

  ghost predicate SomeoneAsked(s: State, pool: Pool, quota: int) {
    exists id :: id in s.threads && AsksFor(s.threads[id].req, pool, quota)
  }

  ghost predicate SomeoneDeletes(s: State, pool: Pool) {
    exists id :: id in s.threads && AsksToDelete(s.threads[id].req, pool)
  }

  /** Requests stay on record. */
  ghost predicate Remembers(s: State, s': State) {
    forall id :: id in s.threads ==> id in s'.threads && s'.threads[id].req == s.threads[id].req
  }

  lemma ExecRemembers(s: State, a: Action)
    ensures Remembers(s, Exec(s, a))
  {
    hide CreateStep, DeleteStep, ExpandStep, Unwind;
  }

  lemma {:induction false} RunRemembers(s: State, actions: seq<Action>)
    ensures Remembers(s, Run(s, actions))
    decreases |actions|
  {
    if actions != [] {
      ExecRemembers(s, actions[0]);
      RunRemembers(Exec(s, actions[0]), actions[1..]);
    }
  }

  // ---------- one step ----------

  /** A step leaves a pool as it was, gives it the quota its request asks for, or takes it away as its request asks. */
  ghost predicate HistoryEffect(sh: Shared, req: Request, sh': Shared) {
    forall pool ::
      && (pool in sh'.pools && !(pool in sh.pools && sh.pools[pool] == sh'.pools[pool]) ==>
            AsksFor(req, pool, sh'.pools[pool]))
      && (pool in sh.pools && pool !in sh'.pools ==> AsksToDelete(req, pool))
  }

  lemma StepTellsHistory(sh: Shared, t: Thread, c: Choice)
    requires InShape(t)
    ensures HistoryEffect(sh, t.req, Step(sh, t, c).0)
  {
    hide RoundUpGiB, RoundOffBytes, NewVolOptionsFromVolID, VolumeId.Compose;
    if t.pc.CreateCommand? {
      CreateTellsHistory(sh, t, c);
    } else if t.pc.DeleteCommand? {
      assert NewVolOptionsFromVolID(t.req.volumeId, None) == VolumeId.Read(t.pc.vol);
    } else if t.pc.ExpandCommand? {
      assert NewVolOptionsFromVolID(t.req.volumeId, t.req.range) == VolumeId.Read(t.pc.vol);
    } else {
      QuietStep(sh, t, c);
    }
  }

  lemma CreateTellsHistory(sh: Shared, t: Thread, c: Choice)
    requires InShape(t) && t.pc.CreateCommand?
    ensures HistoryEffect(sh, t.req, Step(sh, t, c).0)
  {
    hide RoundUpGiB, RoundOffBytes, VolumeId.Compose;
  }

  lemma QuietStep(sh: Shared, t: Thread, c: Choice)
    requires !t.pc.CreateCommand? && !t.pc.DeleteCommand? && !t.pc.ExpandCommand?
    ensures Step(sh, t, c).0.pools == sh.pools
  {
    hide NewVolumeOptions, NewVolOptionsFromVolID, RoundOffBytes, Admin;
  }

  // ---------- whole runs ----------

  /** Every pool has a quota it started with or that some request asked for. */
  ghost predicate QuotasAccountedFor(s: State, before: map<Pool, int>) {
    forall pool :: pool in s.shared.pools ==>
      || (pool in before && before[pool] == s.shared.pools[pool])
      || SomeoneAsked(s, pool, s.shared.pools[pool])
  }

  lemma ExecKeepsQuotas(s: State, a: Action, before: map<Pool, int>)
    requires Inv(s) && QuotasAccountedFor(s, before)
    ensures QuotasAccountedFor(Exec(s, a), before)
  {
    var s' := Exec(s, a);
    ExecRemembers(s, a);
    if a.Advance? && a.id in s.threads {
      StepTellsHistory(s.shared, s.threads[a.id], a.choice);
    }
    hide Step, AsksFor;
    forall pool | pool in s'.shared.pools && !(pool in before && before[pool] == s'.shared.pools[pool])
      ensures SomeoneAsked(s', pool, s'.shared.pools[pool])
    {
      var quota := s'.shared.pools[pool];
      if pool in s.shared.pools && s.shared.pools[pool] == quota {
        var id :| id in s.threads && AsksFor(s.threads[id].req, pool, quota);
        assert AsksFor(s'.threads[id].req, pool, quota);
      } else {
        assert AsksFor(s'.threads[a.id].req, pool, quota);
      }
    }
  }

  lemma {:induction false} RunKeepsQuotas(s: State, actions: seq<Action>, before: map<Pool, int>)
    requires Inv(s) && QuotasAccountedFor(s, before)
    ensures QuotasAccountedFor(Run(s, actions), before)
    decreases |actions|
  {
    if actions != [] {
      ExecKeepsInv(s, actions[0]);
      ExecKeepsQuotas(s, actions[0], before);
      hide Exec, Inv, QuotasAccountedFor;
      RunKeepsQuotas(Exec(s, actions[0]), actions[1..], before);
    }
  }

  /**
   * After every run each pool was there before, with its quota, or has a quota that a request of that run asked
   * for.
   */
  lemma EveryQuotaWasAskedFor(pools: map<Pool, int>, actions: seq<Action>, pool: Pool)
    requires pool in Run(Fresh(pools), actions).shared.pools
    ensures var s := Run(Fresh(pools), actions);
            || (pool in pools && pools[pool] == s.shared.pools[pool])
            || SomeoneAsked(s, pool, s.shared.pools[pool])
  {
    RunKeepsQuotas(Fresh(pools), actions, pools);
  }

  lemma {:induction false} SurvivesUnlessDeleted(s: State, actions: seq<Action>, pool: Pool)
    requires Inv(s) && pool in s.shared.pools
    ensures pool in Run(s, actions).shared.pools || SomeoneDeletes(Run(s, actions), pool)
    decreases |actions|
  {
    if actions != [] {
      var a, s1, end := actions[0], Exec(s, actions[0]), Run(s, actions);
      ExecKeepsInv(s, a);
      if pool in s1.shared.pools {
        hide Exec, Inv, SomeoneDeletes;
        SurvivesUnlessDeleted(s1, actions[1..], pool);
      } else {
        StepTellsHistory(s.shared, s.threads[a.id], a.choice);
        RunRemembers(s, actions);
        hide Step, AsksToDelete, Run;
        assert AsksToDelete(end.threads[a.id].req, pool);
      }
    }
  }

  /** In every interleaving a pool outlives everything but a delete request whose ID and user lead to it. */
  lemma PoolSurvives(s: State, actions: seq<Action>, pool: Pool)
    requires Reachable(s) && pool in s.shared.pools && !SomeoneDeletes(Run(s, actions), pool)
    ensures pool in Run(s, actions).shared.pools
  {
    ReachableInv(s);
    SurvivesUnlessDeleted(s, actions, pool);
  }
}
