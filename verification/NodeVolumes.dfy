/** What a caller has to see to, request by request, and what each mount then shows. */
module NodeVolumes {
  import opened Bytes
  import opened VolumeOptions
  import opened Node
  import opened NodeInvariants
  import opened NodeTheorems
  import opened NodeHealth

  /** Each path, be it staging or target, belongs to one volume, and a publish has two of them. */
  ghost predicate Proper(req: Request, owner: Str -> Str) {
    owner(req.path) == req.vol && (req.Publish? ==> owner(req.staging) == req.vol && req.staging != req.path)
  }

  ghost predicate AllProper(actions: seq<Action>, owner: Str -> Str) {
    forall i :: 0 <= i < |actions| && actions[i].Arrive? ==> Proper(actions[i].req, owner)
  }

  ghost predicate ThreadsProper(s: State, owner: Str -> Str) {
    forall id :: id in s.threads ==> Proper(s.threads[id].req, owner)
  }

  lemma ExecKeepsProper(s: State, owner: Str -> Str, a: Action)
    requires ThreadsProper(s, owner) && (a.Arrive? ==> Proper(a.req, owner))
    ensures ThreadsProper(Exec(s, a), owner)
  {
    hide Step, Proper;
  }

  // ---------- every mount shows the volume that owns its path ----------

  ghost predicate ShowsOwners(table: Table, owner: Str -> Str) {
    forall p, i :: p in table && 0 <= i < |table[p]| && table[p][i].Volume? ==> table[p][i].vol == owner(p)
  }

  lemma StepKeepsOwners(sh: Shared, t: Thread, c: Choice, owner: Str -> Str)
    requires ShowsOwners(sh.table, owner) && Proper(t.req, owner) && RightPc(t)
    ensures ShowsOwners(Step(sh, t, c).0.table, owner)
  {
    hide StageOptions, Look, IsCorruptedDir, CanRead;
  }

  lemma ExecKeepsOwners(s: State, owner: Str -> Str, a: Action)
    requires ShowsOwners(s.shared.table, owner) && ThreadsProper(s, owner) && Inv(s, owner)
    ensures ShowsOwners(Exec(s, a).shared.table, owner)
  {
    if a.Advance? && a.id in s.threads { StepKeepsOwners(s.shared, s.threads[a.id], a.choice, owner); }
    hide Step, Inv;
  }

  // ---------- publishing from what is mounted ----------

  /** A publish takes its lock while its staging path is there and shows no mount. */
  ghost predicate EntersBare(s: State, a: Action) {
    && !s.crashed && a.Advance? && a.id in s.threads && s.threads[a.id].pc.TryLock? && s.threads[a.id].req.Publish?
    && s.threads[a.id].req.vol !in s.shared.locks && BareDirectory(s.shared.table, s.threads[a.id].req.staging)
  }

  predicate BareDirectory(table: Table, path: Str) {
    path in table && Bare(table[path])
  }

  /** Whenever a publish takes its lock its staging path shows a mount or is not there. */
  ghost predicate EntersMounted(s: State, actions: seq<Action>)
    decreases |actions|
  {
    actions == [] || (!EntersBare(s, actions[0]) && EntersMounted(Exec(s, actions[0]), actions[1..]))
  }

  /** Up to its bind a publish can go by what was there when it took its lock. */
  ghost predicate StagingKnown(t: Thread, table: Table) {
    t.locked && t.req.Publish? && (t.pc.OfEnsure() || t.pc.BindMount?) ==> !BareDirectory(table, t.req.staging)
  }

  ghost predicate AllStagingKnown(s: State) {
    forall id :: id in s.threads ==> StagingKnown(s.threads[id], s.shared.table)
  }

  /** The lock of a volume keeps its staging path as it is. */
  lemma AdvanceKeepsStaging(s: State, owner: Str -> Str, a: Action, x: RequestId)
    requires Inv(s, owner) && ThreadsProper(s, owner) && AllStagingKnown(s)
    requires !s.crashed && a.Advance? && a.id in s.threads && a.id != x && x in s.threads
    ensures StagingKnown(s.threads[x], Exec(s, a).shared.table)
  {
    var t, u := s.threads[a.id], s.threads[x];
    StepHasEffect(s.shared, t, a.choice);
    hide Step;
    assert StagingKnown(u, s.shared.table);
    if t.locked && u.locked { OtherVolume(s, a.id, x); }
  }

  lemma OtherVolume(s: State, a: RequestId, b: RequestId)
    requires LocksAreHeld(s) && a in s.threads && b in s.threads && a != b && s.threads[a].locked && s.threads[b].locked
    ensures s.threads[a].req.vol != s.threads[b].req.vol
  {
    assert Holds(s, a, s.threads[a].req.vol) && Holds(s, b, s.threads[b].req.vol);
  }

  lemma OwnStepKeepsStaging(sh: Shared, t: Thread, c: Choice)
    requires Prepared(sh, t) && StagingKnown(t, sh.table) && (t.req.Publish? ==> t.req.staging != t.req.path)
    requires t.pc.TryLock? && t.req.Publish? && t.req.vol !in sh.locks ==> !BareDirectory(sh.table, t.req.staging)
    ensures StagingKnown(Step(sh, t, c).1, Step(sh, t, c).0.table)
  {
    StepHasEffect(sh, t, c);
    hide MountStep, UnmountStep, Look, IsCorruptedDir, CanRead;
  }

  lemma ExecKeepsStaging(s: State, owner: Str -> Str, a: Action)
    requires Inv(s, owner) && ThreadsProper(s, owner) && AllStagingKnown(s) && !EntersBare(s, a)
    ensures AllStagingKnown(Exec(s, a))
  {
    if !s.crashed {
      match a
      case Arrive(id, req) =>
      case Advance(id, c) =>
        if id in s.threads {
          OwnStepKeepsStaging(s.shared, s.threads[id], c);
          hide Step, StagingKnown;
          forall x | x in s.threads && x != id ensures StagingKnown(s.threads[x], Exec(s, a).shared.table) {
            AdvanceKeepsStaging(s, owner, a, x);
          }
        }
      case Corrupt(path, condition) =>
        forall id | id in s.threads ensures StagingKnown(s.threads[id], Exec(s, a).shared.table) {
          assert StagingKnown(s.threads[id], s.shared.table);
        }
    }
  }

  /** Nothing but volumes is mounted. */
  ghost predicate OnlyVolumes(table: Table) {
    forall p, i :: p in table && 0 <= i < |table[p]| ==> table[p][i].Volume?
  }

  lemma StepKeepsVolumes(sh: Shared, t: Thread, c: Choice)
    requires OnlyVolumes(sh.table) && (t.pc.BindMount? ==> !BareDirectory(sh.table, Staging(t.req)))
    ensures OnlyVolumes(Step(sh, t, c).0.table)
  {
    hide StageOptions, Look, IsCorruptedDir, CanRead;
  }

  /** What a caller who keeps to all this can count on. */
  ghost predicate Kept(s: State, owner: Str -> Str) {
    Inv(s, owner) && ThreadsProper(s, owner) && AllStagingKnown(s)
  }

  lemma BindsNothingBare(s: State, owner: Str -> Str, id: RequestId)
    requires Kept(s, owner) && id in s.threads && s.threads[id].pc.BindMount?
    ensures !BareDirectory(s.shared.table, Staging(s.threads[id].req))
  {
    assert PhaseOk(s.threads[id]) && RightPc(s.threads[id]) && StagingKnown(s.threads[id], s.shared.table);
  }

  lemma ExecKeepsAll(s: State, owner: Str -> Str, a: Action)
    requires Kept(s, owner) && (a.Arrive? ==> Proper(a.req, owner)) && !EntersBare(s, a)
    ensures Kept(Exec(s, a), owner) && !MakesLocal(s, a)
    ensures OnlyVolumes(s.shared.table) ==> OnlyVolumes(Exec(s, a).shared.table)
    ensures ShowsOwners(s.shared.table, owner) ==> ShowsOwners(Exec(s, a).shared.table, owner)
  {
    ExecKeepsInv(s, owner, a);
    ExecKeepsProper(s, owner, a);
    ExecKeepsStaging(s, owner, a);
    if ShowsOwners(s.shared.table, owner) { ExecKeepsOwners(s, owner, a); }
    if a.Advance? && a.id in s.threads {
      if s.threads[a.id].pc.BindMount? { BindsNothingBare(s, owner, a.id); }
      if OnlyVolumes(s.shared.table) { StepKeepsVolumes(s.shared, s.threads[a.id], a.choice); }
    }
    hide Step, Inv, ThreadsProper, AllStagingKnown;
  }

  lemma {:induction false} RunKeepsAll(s: State, owner: Str -> Str, actions: seq<Action>)
    requires Kept(s, owner) && AllProper(actions, owner) && EntersMounted(s, actions)
    ensures Kept(Run(s, actions), owner) && NoLocalMade(s, actions)
    ensures OnlyVolumes(s.shared.table) ==> OnlyVolumes(Run(s, actions).shared.table)
    ensures ShowsOwners(s.shared.table, owner) ==> ShowsOwners(Run(s, actions).shared.table, owner)
    decreases |actions|
  {
    if actions != [] {
      ExecKeepsAll(s, owner, actions[0]);
      hide Exec, Kept, OnlyVolumes, ShowsOwners, MakesLocal, Proper;
      RunKeepsAll(Exec(s, actions[0]), owner, actions[1..]);
    }
  }

  lemma FreshIsKept(table: Table, owner: Str -> Str)
    ensures Kept(Fresh(table), owner)
  {
    FreshInv(table, owner);
  }

  lemma ProperRespectsOwner(actions: seq<Action>, owner: Str -> Str)
    requires AllProper(actions, owner)
    ensures RespectOwner(actions, owner)
  {
  }

  /**
   * If each staging and target path belongs to one volume, and whenever a publish takes its lock its staging path shows
   * a mount or is not there, then no path ever has more than one mount, whatever breaks meanwhile.
   */
  lemma PublishFromMounted(table: Table, owner: Str -> Str, actions: seq<Action>, path: Str)
    requires Flat(table) && AllProper(actions, owner) && EntersMounted(Fresh(table), actions)
    ensures NoLocalMade(Fresh(table), actions) && Flat(Run(Fresh(table), actions).shared.table)
    ensures Depth(Run(Fresh(table), actions).shared.table, path) <= 1
  {
    hide Run;
    FreshIsKept(table, owner);
    RunKeepsAll(Fresh(table), owner, actions);
    FreshInv(table, owner);
    ProperRespectsOwner(actions, owner);
    FlatRun(Fresh(table), owner, actions);
  }

  /**
   * With the same owners, and whatever is published from where, every volume that is mounted anywhere is the
   * owner of its path.
   */
  lemma {:induction false} MountsShowTheirOwners(s: State, owner: Str -> Str, actions: seq<Action>)
    requires Inv(s, owner) && ThreadsProper(s, owner) && ShowsOwners(s.shared.table, owner) && AllProper(actions, owner)
    ensures ShowsOwners(Run(s, actions).shared.table, owner)
    decreases |actions|
  {
    if actions != [] {
      ExecKeepsInv(s, owner, actions[0]);
      ExecKeepsProper(s, owner, actions[0]);
      ExecKeepsOwners(s, owner, actions[0]);
      hide Exec, Inv, ThreadsProper, ShowsOwners;
      MountsShowTheirOwners(Exec(s, actions[0]), owner, actions[1..]);
    }
  }

  /** A node that has just started, with nothing on any path but its owner's volume. */
  ghost predicate WellMounted(table: Table, owner: Str -> Str) {
    Flat(table) && OnlyVolumes(table) && ShowsOwners(table, owner)
  }

  /** A path that shows one volume and nothing else, in some condition. */
  predicate ShowsAlone(table: Table, path: Str, vol: Str) {
    path in table && |table[path]| == 1 && table[path][0].Volume? && table[path][0].vol == vol
  }

  /** Then a successful stage or publish is answered with its own volume alone on its path. */
  lemma SuccessShowsItsVolume(table: Table, owner: Str -> Str, actions: seq<Action>, id: RequestId)
    requires WellMounted(table, owner) && AllProper(actions, owner) && EntersMounted(Fresh(table), actions)
    requires var end := Run(Fresh(table), actions);
             && id in end.threads && end.threads[id].locked && end.threads[id].pc == Return(Succeeded)
             && (end.threads[id].req.Stage? || end.threads[id].req.Publish?)
    ensures var end := Run(Fresh(table), actions);
            ShowsAlone(end.shared.table, end.threads[id].req.path, end.threads[id].req.vol)
  {
    hide Run;
    FreshIsKept(table, owner);
    RunKeepsAll(Fresh(table), owner, actions);
    PublishFromMounted(table, owner, actions, []);
    ProperRespectsOwner(actions, owner);
    SuccessReachesItsGoal(table, owner, actions, id);
  }

  /** One that shows its volume and answers. */
  predicate Serves(table: Table, path: Str, vol: Str) {
    path in table && table[path] == [Volume(vol, Answering)]
  }

  /**
   * And, unless that breaks under the request itself, it answers: always after a stage, and after a publish exactly if
   * the publish did not settle by binding a staging path with something else than its volume, answering, on top.
   */
  lemma SuccessServesItsVolumeIff(table: Table, owner: Str -> Str, actions: seq<Action>, id: RequestId) returns (k: nat)
    requires WellMounted(table, owner) && AllProper(actions, owner) && EntersMounted(Fresh(table), actions)
    requires Undisturbed(Fresh(table), actions, id)
    requires var end := Run(Fresh(table), actions);
             && id in end.threads && end.threads[id].locked && end.threads[id].pc == Return(Succeeded)
             && (end.threads[id].req.Stage? || end.threads[id].req.Publish?)
    ensures k < |actions| && actions[k].Advance? && actions[k].id == id
    ensures Settles(Run(Fresh(table), actions[..k]), actions[k])
    ensures var end, at := Run(Fresh(table), actions), Run(Fresh(table), actions[..k]);
            var req := end.threads[id].req;
            && at.threads[id].req == req
            && (req.Stage? ==> Serves(end.shared.table, req.path, req.vol))
            && (Serves(end.shared.table, req.path, req.vol)
                <==> (at.threads[id].pc.BindMount? ==> Serves(at.shared.table, Staging(req), req.vol)))
  {
    hide Run, Undisturbed, Settles;
    ProperRespectsOwner(actions, owner);
    k := SuccessIsHealthyIff(table, owner, actions, id);
    SuccessShowsItsVolume(table, owner, actions, id);
    ProperPrefix(Fresh(table), owner, actions, k);
    BeforeSettling(table, owner, actions, id, k);
    ServesIsHealthy(table, owner, actions, id);
  }

  lemma ServesIsHealthy(table: Table, owner: Str -> Str, actions: seq<Action>, id: RequestId)
    requires id in Run(Fresh(table), actions).threads
    requires var end := Run(Fresh(table), actions);
             ShowsAlone(end.shared.table, end.threads[id].req.path, end.threads[id].req.vol)
    ensures var end := Run(Fresh(table), actions);
            var req := end.threads[id].req;
            TopHealthy(end.shared.table, req.path) <==> Serves(end.shared.table, req.path, req.vol)
  {
    hide Run;
  }

  lemma {:induction false} ProperPrefix(s: State, owner: Str -> Str, actions: seq<Action>, k: nat)
    requires k <= |actions| && AllProper(actions, owner) && EntersMounted(s, actions)
    ensures AllProper(actions[..k], owner) && EntersMounted(s, actions[..k])
    decreases k
  {
    if k > 0 {
      ProperPrefix(Exec(s, actions[0]), owner, actions[1..], k - 1);
      assert actions[..k][1..] == actions[1..][..k - 1];
      hide Exec, EntersBare;
    }
  }

  /** What the settling step found, on such a node. */
  lemma BeforeSettling(table: Table, owner: Str -> Str, actions: seq<Action>, id: RequestId, k: nat)
    requires k < |actions| && actions[k].Advance? && actions[k].id == id
    requires Settles(Run(Fresh(table), actions[..k]), actions[k])
    requires WellMounted(table, owner) && AllProper(actions[..k], owner) && EntersMounted(Fresh(table), actions[..k])
    requires var req := Run(Fresh(table), actions[..k]).threads[id].req; req.Stage? || req.Publish?
    ensures var at := Run(Fresh(table), actions[..k]);
            var req := at.threads[id].req;
            && (at.threads[id].pc.BindMount? ==> req.Publish?)
            && (OnHealthy(at, actions[k])
                <==> (at.threads[id].pc.BindMount? ==> Serves(at.shared.table, Staging(req), req.vol)))
  {
    hide Run;
    FreshIsKept(table, owner);
    RunKeepsAll(Fresh(table), owner, actions[..k]);
    PublishFromMounted(table, owner, actions[..k], []);
    SettledOnVolumes(Run(Fresh(table), actions[..k]), owner, actions[k]);
  }

  lemma SettledOnVolumes(at: State, owner: Str -> Str, a: Action)
    requires Kept(at, owner) && Flat(at.shared.table) && OnlyVolumes(at.shared.table) && ShowsOwners(at.shared.table, owner)
    requires Settles(at, a) && (at.threads[a.id].req.Stage? || at.threads[a.id].req.Publish?)
    ensures var req := at.threads[a.id].req;
            && (at.threads[a.id].pc.BindMount? ==> req.Publish?)
            && (OnHealthy(at, a) <==> (at.threads[a.id].pc.BindMount? ==> Serves(at.shared.table, Staging(req), req.vol)))
  {
    SettlesHealthyIff(at, owner, a);
    var t := at.threads[a.id];
    assert RightPc(t) && Knows(t, at.shared.table) && Proper(t.req, owner);
    hide Settles, Exec, Step, LocksInv;
    if t.pc.BindMount? && Staging(t.req) in at.shared.table {
      OneLayer(at.shared.table, owner, Staging(t.req));
    }
  }

  lemma OneLayer(table: Table, owner: Str -> Str, path: Str)
    requires Flat(table) && OnlyVolumes(table) && ShowsOwners(table, owner) && path in table
    ensures TopHealthy(table, path) <==> Serves(table, path, owner(path))
  {
  }
}
