/** The guarantees of the node service, over every interleaving of any number of requests. */
module NodeTheorems {
  import opened Bytes
  import opened Wrappers
  import opened VolumeOptions
  import opened Node
  import opened NodeInvariants

  lemma {:induction false} RunConcat(s: State, a: seq<Action>, b: seq<Action>)
    ensures Run(s, a + b) == Run(Run(s, a), b)
    decreases |a|
  {
    if a == [] {
      assert a + b == b;
    } else {
      assert (a + b)[1..] == a[1..] + b;
      RunConcat(Exec(s, a[0]), a[1..], b);
    }
  }

  lemma FreshInv(table: Table, owner: Str -> Str)
    ensures LocksInv(Fresh(table)) && Inv(Fresh(table), owner)
  {
  }

  // ---------- locks ----------

  /**
   * The lock set is the set of volumes of the requests between TryAcquire and their return, no two of which
   * share one.
   */
  lemma LocksAreTheRequestsInFlight(table: Table, actions: seq<Action>)
    ensures var s := Run(Fresh(table), actions);
            && s.shared.locks == (set id | id in s.threads && s.threads[id].locked :: s.threads[id].req.vol)
            && (forall a, b :: a in s.threads && b in s.threads && s.threads[a].locked && s.threads[b].locked ==>
                  s.threads[a].req.vol == s.threads[b].req.vol ==> a == b)
  {
    RunKeepsLocks(Fresh(table), actions);
    var s := Run(Fresh(table), actions);
    forall id | id in s.threads && s.threads[id].locked ensures Holds(s, id, s.threads[id].req.vol) {
    }
    forall vol | vol in s.shared.locks
      ensures exists id :: id in s.threads && s.threads[id].locked && s.threads[id].req.vol == vol
    {
      var id :| Holds(s, id, vol);
    }
  }

  predicate Concerns(a: Action, id: RequestId) {
    !a.Corrupt? && a.id == id
  }

  /** Nothing but the steps of a request frees its lock; in particular a rejected request frees nothing. */
  lemma OthersKeepTheirLocks(table: Table, actions: seq<Action>, a: Action, id: RequestId)
    requires var s := Run(Fresh(table), actions);
             id in s.threads && s.threads[id].locked && !Concerns(a, id)
    ensures var s := Run(Fresh(table), actions);
            s.threads[id].req.vol in Exec(s, a).shared.locks
  {
    var s := Run(Fresh(table), actions);
    RunKeepsLocks(Fresh(table), actions);
    ExecKeepsLocks(s, a);
    assert Holds(Exec(s, a), id, s.threads[id].req.vol);
  }

  /** When every request has finished no lock is held. */
  lemma NothingLeftBehind(table: Table, actions: seq<Action>)
    requires var s := Run(Fresh(table), actions);
             forall id :: id in s.threads ==> s.threads[id].pc.Finished?
    ensures Run(Fresh(table), actions).shared.locks == {}
  {
    var s := Run(Fresh(table), actions);
    RunKeepsLocks(Fresh(table), actions);
    assert forall id, vol :: !Holds(s, id, vol);
  }

  // ---------- what a success says ----------

  /** A successful reply, as its request is about to release its lock, on any table and whatever breaks meanwhile. */
  lemma SuccessReachesItsGoal(table: Table, owner: Str -> Str, actions: seq<Action>, id: RequestId)
    requires RespectOwner(actions, owner)
    requires var s := Run(Fresh(table), actions);
             id in s.threads && s.threads[id].locked && s.threads[id].pc == Return(Succeeded)
    ensures var s := Run(Fresh(table), actions);
            && Goal(s.threads[id].req, s.shared.table)
            && (Flat(s.shared.table) ==>
                  Depth(s.shared.table, s.threads[id].req.path)
                  == if s.threads[id].req.Stage? || s.threads[id].req.Publish? then 1 else 0)
  {
    FreshInv(table, owner);
    RunKeepsInv(Fresh(table), owner, actions);
  }

  // ---------- mounts do not stack ----------

  /** No path has two mounts or one that does not show. */
  ghost predicate Flat(table: Table) {
    forall p :: p in table ==> |table[p]| <= 1 && (Bare(table[p]) ==> table[p] == [])
  }

  /** A bind that does not show: of a directory without a mount that shows, on the file system of the target. */
  predicate MakesLocal(s: State, a: Action) {
    && !s.crashed && a.Advance? && a.id in s.threads && s.threads[a.id].pc.BindMount?
    && Source(s.shared.table, Staging(s.threads[a.id].req), a.choice) == Some(Local)
    && (!a.choice.fails || a.choice.applied)
  }

  ghost predicate NoLocalMade(s: State, actions: seq<Action>)
    decreases |actions|
  {
    actions == [] || (!MakesLocal(s, actions[0]) && NoLocalMade(Exec(s, actions[0]), actions[1..]))
  }

  ghost predicate AlwaysFlat(s: State, actions: seq<Action>)
    decreases |actions|
  {
    Flat(s.shared.table) && (actions == [] || AlwaysFlat(Exec(s, actions[0]), actions[1..]))
  }

  lemma EnsureStepKeepsFlat(sh: Shared, t: Thread, c: Choice)
    requires Flat(sh.table) && t.pc.OfEnsure()
    ensures Flat(EnsureStep(sh, t, c).0.table)
  {
  }

  lemma MountStepKeepsFlat(sh: Shared, t: Thread, c: Choice)
    requires Flat(sh.table) && Prepared(sh, t) && t.pc.OfMount()
    requires t.pc.BindMount? && Source(sh.table, Staging(t.req), c) == Some(Local) ==> c.fails && !c.applied
    ensures Flat(MountStep(sh, t, c).0.table)
  {
    hide StageOptions;
  }

  lemma UnmountStepKeepsFlat(sh: Shared, t: Thread, c: Choice)
    requires Flat(sh.table)
    ensures Flat(UnmountStep(sh, t, c).0.table)
  {
  }

  lemma ExecKeepsFlat(s: State, owner: Str -> Str, a: Action)
    requires Inv(s, owner) && Flat(s.shared.table)
    ensures Flat(Exec(s, a).shared.table) <==> !MakesLocal(s, a)
  {
    hide EnsureStep, MountStep, UnmountStep, Knows, RightPc;
    if a.Advance? && a.id in s.threads && !s.crashed {
      var t := s.threads[a.id];
      if t.pc.OfEnsure() {
        EnsureStepKeepsFlat(s.shared, t, a.choice);
      } else if t.pc.OfMount() {
        if MakesLocal(s, a) { LocalIsNotFlat(s.shared, t, a.choice); } else { MountStepKeepsFlat(s.shared, t, a.choice); }
      } else {
        UnmountStepKeepsFlat(s.shared, t, a.choice);
      }
    }
  }

  lemma LocalIsNotFlat(sh: Shared, t: Thread, c: Choice)
    requires Prepared(sh, t) && t.pc.BindMount?
    requires Source(sh.table, Staging(t.req), c) == Some(Local) && (!c.fails || c.applied)
    ensures !Flat(MountStep(sh, t, c).0.table)
  {
    var after := MountStep(sh, t, c).0.table;
    assert after[t.req.path] == sh.table[t.req.path] + [Local];
  }

  lemma {:induction false} FlatRun(s: State, owner: Str -> Str, actions: seq<Action>)
    requires Inv(s, owner) && RespectOwner(actions, owner) && Flat(s.shared.table)
    ensures AlwaysFlat(s, actions) <==> NoLocalMade(s, actions)
    ensures NoLocalMade(s, actions) ==> Flat(Run(s, actions).shared.table)
    decreases |actions|
  {
    if actions != [] {
      ExecKeepsInv(s, owner, actions[0]);
      ExecKeepsFlat(s, owner, actions[0]);
      hide Exec, Inv, Flat, MakesLocal;
      if !MakesLocal(s, actions[0]) {
        FlatRun(Exec(s, actions[0]), owner, actions[1..]);
      } else {
        NotFlatEnds(Exec(s, actions[0]), actions[1..]);
      }
    }
  }

  lemma NotFlatEnds(s: State, actions: seq<Action>)
    requires !Flat(s.shared.table)
    ensures !AlwaysFlat(s, actions)
  {
  }

  /**
   * If each path belongs to one volume, every mount shows and stands alone throughout a run exactly when no bind
   * of it is a Local one.
   */
  lemma FlatIffNoLocalMade(table: Table, owner: Str -> Str, actions: seq<Action>)
    requires Flat(table) && RespectOwner(actions, owner)
    ensures AlwaysFlat(Fresh(table), actions) <==> NoLocalMade(Fresh(table), actions)
  {
    FreshInv(table, owner);
    FlatRun(Fresh(table), owner, actions);
  }

  /** Then mounts never stack, whatever breaks meanwhile. */
  lemma MountsNeverStack(table: Table, owner: Str -> Str, actions: seq<Action>, path: Str)
    requires Flat(table) && RespectOwner(actions, owner) && NoLocalMade(Fresh(table), actions)
    ensures Depth(Run(Fresh(table), actions).shared.table, path) <= 1
  {
    FreshInv(table, owner);
    FlatRun(Fresh(table), owner, actions);
  }

  /** Two requests for different volumes, both past the look at one empty path, stack their mounts. */
  lemma TwoOwnersStackMounts(s: State, a: RequestId, b: RequestId, c: Choice)
    requires !s.crashed && a in s.threads && b in s.threads && a != b && !c.fails
    requires s.threads[a].pc.FuseMount? && s.threads[b].pc.FuseMount?
    requires s.threads[a].req.path == s.threads[b].req.path
    requires s.threads[a].req.path in s.shared.table && s.shared.table[s.threads[a].req.path] == []
    ensures var s' := Run(s, [Advance(a, c), Advance(b, c)]);
            Depth(s'.shared.table, s.threads[a].req.path) == 2
  {
    assert [Advance(a, c), Advance(b, c)][1..] == [Advance(b, c)] && [Advance(b, c)][1..] == [];
    assert Run(Exec(s, Advance(a, c)), [Advance(b, c)]) == Exec(Exec(s, Advance(a, c)), Advance(b, c));
  }
}
