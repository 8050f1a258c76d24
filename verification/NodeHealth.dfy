/**
 * When the mount that a successful stage or publish answers for is a healthy one: one that shows a volume and
 * answers.
 */
module NodeHealth {
  import opened Bytes
  import opened VolumeOptions
  import opened Node
  import opened NodeInvariants
  import opened NodeTheorems

  predicate TopHealthy(table: Table, path: Str) {
    path in table && table[path] != [] && Top(table[path]).Healthy()
  }

  /** A mount breaks on the path of a request that holds its lock. */
  predicate Disturbs(s: State, a: Action, id: RequestId) {
    a.Corrupt? && id in s.threads && s.threads[id].locked && s.threads[id].req.path == a.path
  }

  ghost predicate Undisturbed(s: State, actions: seq<Action>, id: RequestId)
    decreases |actions|
  {
    actions == [] || (!Disturbs(s, actions[0], id) && Undisturbed(Exec(s, actions[0]), actions[1..], id))
  }

  // ---------- the step that settles on success ----------

  /**
   * A bind settles on what is on top of the staging path, a look on what is on top of the path itself, which can be read
   * and so is a volume or a directory of another file system; and a stage on the mount it has made.
   */
  predicate OnHealthy(s: State, a: Action)
    requires a.Advance? && a.id in s.threads
  {
    var table, req := s.shared.table, s.threads[a.id].req;
    match s.threads[a.id].pc
    case BindMount => TopHealthy(table, Staging(req))
    case ReadDir => req.path in table && table[req.path] != [] && Top(table[req.path]) != Foreign
    case _ => true
  }

  ghost predicate Settles(s: State, a: Action) {
    && !s.crashed && a.Advance? && a.id in s.threads && s.threads[a.id].locked && !s.threads[a.id].pc.Return?
    && Exec(s, a).threads[a.id].pc == Return(Succeeded)
  }

  lemma SettlesHealthyIff(s: State, owner: Str -> Str, a: Action)
    requires Inv(s, owner) && Settles(s, a)
    requires s.threads[a.id].req.Stage? || s.threads[a.id].req.Publish?
    ensures s.threads[a.id].pc.ReadDir? || s.threads[a.id].pc.FuseMount? || s.threads[a.id].pc.BindMount?
    ensures TopHealthy(Exec(s, a).shared.table, s.threads[a.id].req.path) <==> OnHealthy(s, a)
  {
    hide StageOptions, LocksInv, UnmountStep;
    assert RightPc(s.threads[a.id]) && Knows(s.threads[a.id], s.shared.table);
  }

  // ---------- until the lock is released ----------

  /** While a request holds its lock only its own steps and a break there change its path. */
  lemma PathKept(s: State, owner: Str -> Str, a: Action, id: RequestId)
    requires Inv(s, owner) && id in s.threads && s.threads[id].locked && !Concerns(a, id) && !Disturbs(s, a, id)
    ensures id in Exec(s, a).threads && Exec(s, a).threads[id] == s.threads[id]
    ensures LayersOf(Exec(s, a).shared.table, s.threads[id].req.path) == LayersOf(s.shared.table, s.threads[id].req.path)
  {
    hide Step, Knows, RightPc, PhaseOk;
    if a.Advance? && a.id in s.threads {
      StepHasEffect(s.shared, s.threads[a.id], a.choice);
      if s.threads[a.id].locked { OtherPath(s, owner, a.id, id); }
    }
  }

  /** A thread on its way out. */
  ghost predicate Leaving(s: State, id: RequestId, resp: Response) {
    id in s.threads && (s.threads[id].pc == Return(resp) || s.threads[id].pc == Finished(resp))
  }

  lemma {:induction false} LeavingStays(s: State, actions: seq<Action>, id: RequestId, resp: Response)
    requires Leaving(s, id, resp)
    ensures Leaving(Run(s, actions), id, resp)
    ensures Run(s, actions).threads[id].locked ==> s.threads[id].locked
    decreases |actions|
  {
    if actions != [] {
      LeavingStep(s, actions[0], id, resp);
      hide Exec, Leaving;
      LeavingStays(Exec(s, actions[0]), actions[1..], id, resp);
    }
  }

  /** Its own step takes the lock from it. */
  lemma LeavingStep(s: State, a: Action, id: RequestId, resp: Response)
    requires Leaving(s, id, resp)
    ensures Leaving(Exec(s, a), id, resp) && (Exec(s, a).threads[id].locked ==> s.threads[id].locked)
    ensures a.Advance? && a.id == id && !s.crashed && s.threads[id].pc.Return? ==> !Exec(s, a).threads[id].locked
  {
    hide EnsureStep, MountStep, UnmountStep;
  }

  lemma {:induction false} StaysSettled(s: State, owner: Str -> Str, actions: seq<Action>, id: RequestId)
    requires Inv(s, owner) && RespectOwner(actions, owner) && Undisturbed(s, actions, id)
    requires id in s.threads && s.threads[id].pc == Return(Succeeded)
    requires id in Run(s, actions).threads && Run(s, actions).threads[id].locked
    ensures var path := s.threads[id].req.path;
            LayersOf(Run(s, actions).shared.table, path) == LayersOf(s.shared.table, path)
    ensures Run(s, actions).threads[id].req == s.threads[id].req
    decreases |actions|
  {
    if actions != [] {
      var a, s1 := actions[0], Exec(s, actions[0]);
      LeavingStep(s, a, id, Succeeded);
      LeavingStays(s1, actions[1..], id, Succeeded);
      ExecKeepsInv(s, owner, a);
      if Concerns(a, id) {
        assert s1 == s;
      } else {
        PathKept(s, owner, a, id);
      }
      hide Exec, Inv, LayersOf;
      StaysSettled(s1, owner, actions[1..], id);
    }
  }

  // ---------- whole runs ----------

  /** A run that ends with a success about to be answered has a step that settled it. */
  lemma {:induction false} SettlingStep(s: State, actions: seq<Action>, id: RequestId) returns (k: nat)
    requires LocksInv(s) && (id in s.threads ==> !s.threads[id].pc.Return? && !s.threads[id].pc.Finished?)
    requires var end := Run(s, actions);
             id in end.threads && end.threads[id].locked && end.threads[id].pc == Return(Succeeded)
    ensures k < |actions| && actions[k].Advance? && actions[k].id == id
    ensures Settles(Run(s, actions[..k]), actions[k])
    decreases |actions|
  {
    var a, s1 := actions[0], Exec(s, actions[0]);
    ExecKeepsLocks(s, a);
    if id in s1.threads && (s1.threads[id].pc.Return? || s1.threads[id].pc.Finished?) {
      LeavingStays(s1, actions[1..], id, s1.threads[id].pc.resp);
      FirstReturn(s, a, id);
      k := 0;
    } else {
      hide Exec, LocksInv, Settles;
      var j := SettlingStep(s1, actions[1..], id);
      k := j + 1;
      assert actions[..k][1..] == actions[1..][..j];
    }
  }

  lemma FirstReturn(s: State, a: Action, id: RequestId)
    requires LocksInv(s) && (id in s.threads ==> !s.threads[id].pc.Return? && !s.threads[id].pc.Finished?)
    requires id in Exec(s, a).threads && Exec(s, a).threads[id].pc == Return(Succeeded) && Exec(s, a).threads[id].locked
    ensures a.Advance? && a.id == id && Settles(s, a)
  {
    hide EnsureStep, MountStep, UnmountStep;
  }

  lemma {:induction false} UndisturbedAfter(s: State, actions: seq<Action>, id: RequestId, k: nat)
    requires k <= |actions| && Undisturbed(s, actions, id)
    ensures Undisturbed(Run(s, actions[..k]), actions[k..], id)
    decreases k
  {
    if k == 0 {
      assert actions[..0] == [] && actions[0..] == actions;
    } else {
      hide Exec, Disturbs;
      UndisturbedAfter(Exec(s, actions[0]), actions[1..], id, k - 1);
      assert actions[..k][1..] == actions[1..][..k - 1] && actions[1..][k - 1..] == actions[k..];
      assert Run(s, actions[..k]) == Run(Exec(s, actions[0]), actions[..k][1..]);
    }
  }

  /**
   * From any table, and whatever breaks elsewhere: what a success answers for is healthy exactly when the step that
   * settled it made a mount of its own, or bound a staging path with a healthy mount on top, or could read its path
   * and found no directory of another file system bound there.
   */
  lemma SuccessIsHealthyIff(table: Table, owner: Str -> Str, actions: seq<Action>, id: RequestId) returns (k: nat)
    requires RespectOwner(actions, owner) && Undisturbed(Fresh(table), actions, id)
    requires var end := Run(Fresh(table), actions);
             && id in end.threads && end.threads[id].locked && end.threads[id].pc == Return(Succeeded)
             && (end.threads[id].req.Stage? || end.threads[id].req.Publish?)
    ensures k < |actions| && actions[k].Advance? && actions[k].id == id
    ensures Settles(Run(Fresh(table), actions[..k]), actions[k])
    ensures var end, at := Run(Fresh(table), actions), Run(Fresh(table), actions[..k]);
            && at.threads[id].req == end.threads[id].req
            && (TopHealthy(end.shared.table, end.threads[id].req.path) <==> OnHealthy(at, actions[k]))
  {
    hide Run, Undisturbed;
    FreshInv(table, owner);
    k := SettlingStep(Fresh(table), actions, id);
    SettledRun(table, owner, actions, id, k);
    RunKeepsInv(Fresh(table), owner, actions[..k]);
    SettlesHealthyIff(Run(Fresh(table), actions[..k]), owner, actions[k]);
  }

  /** From the settling step on nothing happens to the path. */
  lemma SettledRun(table: Table, owner: Str -> Str, actions: seq<Action>, id: RequestId, k: nat)
    requires RespectOwner(actions, owner) && Undisturbed(Fresh(table), actions, id)
    requires k < |actions| && actions[k].Advance? && actions[k].id == id
    requires Settles(Run(Fresh(table), actions[..k]), actions[k])
    requires var end := Run(Fresh(table), actions); id in end.threads && end.threads[id].locked
    ensures var end, at := Run(Fresh(table), actions), Run(Fresh(table), actions[..k]);
            && at.threads[id].req == end.threads[id].req
            && LayersOf(end.shared.table, at.threads[id].req.path)
               == LayersOf(Exec(at, actions[k]).shared.table, at.threads[id].req.path)
  {
    var s, before, rest := Fresh(table), actions[..k], actions[k + 1..];
    var at := Run(s, before);
    var s1 := Exec(at, actions[k]);
    assert actions == before + actions[k..] && actions[k..][0] == actions[k] && actions[k..][1..] == rest;
    RunConcat(s, before, actions[k..]);
    assert Run(s, actions) == Run(s1, rest);
    UndisturbedAfter(s, actions, id, k);
    FreshInv(table, owner);
    RunKeepsInv(s, owner, before);
    ExecKeepsInv(at, owner, actions[k]);
    hide Run, Inv, Undisturbed, Step, LayersOf;
    assert s1.threads[id].req == at.threads[id].req;
    StaysSettled(s1, owner, rest, id);
  }

  /**
   * So a successful stage leaves a healthy mount on top unless it found a directory of another file system bound
   * there.
   */
  lemma StageIsHealthyIff(table: Table, owner: Str -> Str, actions: seq<Action>, id: RequestId)
    requires RespectOwner(actions, owner) && Undisturbed(Fresh(table), actions, id)
    requires var end := Run(Fresh(table), actions);
             && id in end.threads && end.threads[id].locked && end.threads[id].pc == Return(Succeeded)
             && end.threads[id].req.Stage?
    ensures var end := Run(Fresh(table), actions);
            var path := end.threads[id].req.path;
            && path in end.shared.table && end.shared.table[path] != []
            && (TopHealthy(end.shared.table, path) <==> Top(end.shared.table[path]) != Foreign)
  {
    hide Run, Undisturbed;
    FreshInv(table, owner);
    var k := SettlingStep(Fresh(table), actions, id);
    SettledRun(table, owner, actions, id, k);
    RunKeepsInv(Fresh(table), owner, actions[..k]);
    StageSettlesIff(Run(Fresh(table), actions[..k]), owner, actions[k]);
  }

  lemma StageSettlesIff(s: State, owner: Str -> Str, a: Action)
    requires Inv(s, owner) && Settles(s, a) && s.threads[a.id].req.Stage?
    ensures var path, table := s.threads[a.id].req.path, Exec(s, a).shared.table;
            && LayersOf(table, path) != []
            && (TopHealthy(table, path) <==> Top(LayersOf(table, path)) != Foreign)
  {
    hide StageOptions, LocksInv, UnmountStep;
    assert RightPc(s.threads[a.id]) && Knows(s.threads[a.id], s.shared.table);
  }
}
