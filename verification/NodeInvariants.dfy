/** What every interleaving of node requests keeps. */
module NodeInvariants {
  import opened Bytes
  import opened Node
  import VolumeOptions

  // ---------- locks, whatever the paths ----------

  ghost predicate Holds(s: State, id: RequestId, vol: Str) {
    id in s.threads && s.threads[id].locked && s.threads[id].req.vol == vol
  }

  ghost predicate LocksAreHeld(s: State) {
    && (forall vol :: vol in s.shared.locks <==> exists id :: Holds(s, id, vol))
    && (forall vol, a, b :: Holds(s, a, vol) && Holds(s, b, vol) ==> a == b)
  }

  /** Outside its locked part a request is before TryLock or on its way out. */
  ghost predicate PhaseOk(t: Thread) {
    && (t.locked ==> !t.pc.Validate? && !t.pc.TryLock? && !t.pc.Finished?)
    && (!t.locked ==> t.pc.Validate? || t.pc.TryLock? || t.pc.Return? || t.pc.Finished?)
  }

  ghost predicate LocksInv(s: State) {
    LocksAreHeld(s) && forall id :: id in s.threads ==> PhaseOk(s.threads[id])
  }

  ghost predicate LockEffect(sh: Shared, t: Thread, sh': Shared, t': Thread) {
    || (sh'.locks == sh.locks && t'.locked == t.locked)
    || (t.req.vol !in sh.locks && !t.locked && t'.locked && sh'.locks == sh.locks + {t.req.vol})
    || (t.locked && !t'.locked && sh'.locks == sh.locks - {t.req.vol})
  }

  /** Every step keeps, takes or gives back the lock of its own volume. */
  lemma StepLocks(sh: Shared, t: Thread, c: Choice)
    requires PhaseOk(t)
    ensures PhaseOk(Step(sh, t, c).1) && LockEffect(sh, t, Step(sh, t, c).0, Step(sh, t, c).1)
  {
    hide VolumeOptions.StageOptions, Look, IsCorruptedDir, CanRead, Unmounted, WithDirectory, WithMount, Source, Removed;
  }

  lemma AdvanceKeepsLocks(s: State, id: RequestId, sh': Shared, t': Thread, crashed: bool)
    requires LocksAreHeld(s) && id in s.threads && t'.req == s.threads[id].req
    requires LockEffect(s.shared, s.threads[id], sh', t')
    ensures LocksAreHeld(State(sh', s.threads[id := t'], crashed))
  {
    var s', t := State(sh', s.threads[id := t'], crashed), s.threads[id];
    assert forall x, vol :: x != id ==> (Holds(s', x, vol) <==> Holds(s, x, vol));
    assert forall vol :: Holds(s', id, vol) <==> t'.locked && t.req.vol == vol;
    assert forall vol :: Holds(s, id, vol) <==> t.locked && t.req.vol == vol;
    hide Holds;
    forall vol ensures vol in sh'.locks <==> exists x :: Holds(s', x, vol) {
      assert Holds(s, id, vol) || Holds(s', id, vol) ==> vol == t.req.vol;
      if vol in sh'.locks && vol in s.shared.locks {
        var x :| Holds(s, x, vol);
        assert Holds(s', x, vol);
      } else if vol in sh'.locks {
        assert Holds(s', id, vol);
      }
    }
    forall vol, a, b | Holds(s', a, vol) && Holds(s', b, vol) ensures a == b {
      assert a != id && Holds(s, a, vol) ==> vol in s.shared.locks;
      assert b != id && Holds(s, b, vol) ==> vol in s.shared.locks;
      assert t.locked && vol == t.req.vol ==> Holds(s, id, vol);
    }
  }

  lemma ExecKeepsLocks(s: State, a: Action)
    requires LocksInv(s)
    ensures LocksInv(Exec(s, a))
  {
    hide Step;
    if !s.crashed {
      match a
      case Arrive(id, req) =>
        if id !in s.threads {
          assert forall x, vol :: Holds(Exec(s, a), x, vol) <==> Holds(s, x, vol);
        }
      case Advance(id, c) =>
        if id in s.threads {
          var (sh', t') := Step(s.shared, s.threads[id], c);
          StepLocks(s.shared, s.threads[id], c);
          AdvanceKeepsLocks(s, id, sh', t', t'.pc == Finished(Panicked));
        }
      case Corrupt(_, _) =>
        assert forall x, vol :: Holds(Exec(s, a), x, vol) <==> Holds(s, x, vol);
    }
  }

  lemma {:induction false} RunKeepsLocks(s: State, actions: seq<Action>)
    requires LocksInv(s)
    ensures LocksInv(Run(s, actions))
    decreases |actions|
  {
    if actions != [] {
      ExecKeepsLocks(s, actions[0]);
      hide Exec, LocksInv;
      RunKeepsLocks(Exec(s, actions[0]), actions[1..]);
    }
  }

  // ---------- paths, when each belongs to one volume ----------

  function LayersOf(table: Table, path: Str): seq<Layer> {
    if path in table then table[path] else []
  }

  function Depth(table: Table, path: Str): nat {
    |LayersOf(table, path)|
  }

  /** The options of a stage request can be made. */
  ghost predicate CanBeStaged(req: Request)
    requires req.Stage?
  {
    VolumeOptions.StageOptions(req.vol, req.context).Read? && VolumeOptions.StageOptions(req.vol, req.context).value.Ok?
  }

  /** What each reply says of the request. */
  ghost predicate ReplyFits(req: Request, resp: Response) {
    match resp
    case Succeeded => req.valid
    case Panicked => req.Stage? && req.valid && VolumeOptions.StageOptions(req.vol, req.context).Panic?
    case Failed(InvalidArgument) => !req.valid || req.Stage?
    case Failed(NotFound) => req.valid && req.Unstage?
    case Failed(Aborted) => req.valid
    case Failed(Internal) => req.valid
  }

  /** Past its checks a request is valid, and where it is fits what it asks for. */
  ghost predicate RightPc(t: Thread) {
    && (t.pc.Validate? || t.pc.Return? || t.pc.Finished? || t.req.valid)
    && (t.pc.Return? || t.pc.Finished? ==> ReplyFits(t.req, t.pc.resp))
    && (t.pc.FuseMount? ==> t.req.Stage? && CanBeStaged(t.req))
    && (t.pc.OfEnsure() ==> t.req.Stage? || t.req.Publish?)
    && (t.pc.MakeOptions? || t.pc.FuseMount? ==> t.req.Stage?)
    && (t.pc.BindMount? || t.pc.RemoveUnbound? ==> t.req.Publish?)
    && (t.pc.OfUnmount() ==> if t.pc.Umount? || t.pc.RemoveUnmounted? then t.req.Unpublish? else t.req.Unstage?)
  }

  /**
   * What a locked thread knows about its path: no mount that shows before it mounts, and its goal once it has
   * succeeded.
   */
  ghost predicate Knows(t: Thread, table: Table) {
    var p := t.req.path;
    match t.pc
    case ReadDir => !Bare(LayersOf(table, p))
    case MakeDirectory => Bare(LayersOf(table, p))
    case MakeOptions => p in table && Bare(table[p])
    case FuseMount => p in table && Bare(table[p])
    case BindMount => p in table && Bare(table[p])
    case Return(Succeeded) => Goal(t.req, table)
    case _ => true
  }

  /** What a success says: a mount that shows, a mount, none that shows, nothing at all. */
  ghost predicate Goal(req: Request, table: Table) {
    match req
    case Stage(_, _, p, _) => !Bare(LayersOf(table, p))
    case Publish(_, _, p, _) => LayersOf(table, p) != []
    case Unstage(_, _, p) => Bare(LayersOf(table, p))
    case Unpublish(_, _, p) => p !in table
  }

  /** Only a thread that holds its lock changes the table, and only at its own path. */
  ghost predicate TableEffect(sh: Shared, t: Thread, sh': Shared, t': Thread) {
    && (!t.locked ==> sh'.table == sh.table)
    && (forall p :: p != t.req.path ==>
          (p in sh'.table <==> p in sh.table) && (p in sh.table ==> sh'.table[p] == sh.table[p]))
    && (t'.locked ==> Knows(t', sh'.table))
  }

  ghost predicate StepEffect(sh: Shared, t: Thread, sh': Shared, t': Thread) {
    RightPc(t') && TableEffect(sh, t, sh', t')
  }

  ghost predicate Prepared(sh: Shared, t: Thread) {
    PhaseOk(t) && RightPc(t) && (t.locked ==> Knows(t, sh.table))
  }

  lemma EnsureStepEffect(sh: Shared, t: Thread, c: Choice)
    requires Prepared(sh, t) && t.pc.OfEnsure()
    ensures StepEffect(sh, t, EnsureStep(sh, t, c).0, EnsureStep(sh, t, c).1)
  {
    hide EnsureStep, StepEffect, Prepared;
    if t.pc.UnmountInvalid? || t.pc.MakeDirectory? { EnsureChangeEffect(sh, t, c); } else { EnsureLookEffect(sh, t, c); }
  }

  lemma EnsureLookEffect(sh: Shared, t: Thread, c: Choice)
    requires Prepared(sh, t) && (t.pc.Probe? || t.pc.ProbeCorrupted? || t.pc.ReadDir?)
    ensures StepEffect(sh, t, EnsureStep(sh, t, c).0, EnsureStep(sh, t, c).1)
  {
    hide CanBeStaged;
  }

  lemma EnsureChangeEffect(sh: Shared, t: Thread, c: Choice)
    requires Prepared(sh, t) && (t.pc.UnmountInvalid? || t.pc.MakeDirectory?)
    ensures StepEffect(sh, t, EnsureStep(sh, t, c).0, EnsureStep(sh, t, c).1)
  {
    hide CanBeStaged;
  }

  lemma MountStepEffect(sh: Shared, t: Thread, c: Choice)
    requires Prepared(sh, t) && t.pc.OfMount()
    ensures StepEffect(sh, t, MountStep(sh, t, c).0, MountStep(sh, t, c).1)
  {
    hide VolumeOptions.StageOptions;
  }

  lemma UnstageStepEffect(sh: Shared, t: Thread, c: Choice)
    requires Prepared(sh, t) && t.pc.OfUnmount() && t.req.Unstage?
    ensures StepEffect(sh, t, UnmountStep(sh, t, c).0, UnmountStep(sh, t, c).1)
  {
    hide UnmountStep, StepEffect, Prepared;
    if t.pc.CheckMounted? || t.pc.CleanupExists? || t.pc.CleanupProbe? || t.pc.CleanupRecheck? {
      UnstageLookEffect(sh, t, c);
    } else {
      UnstageChangeEffect(sh, t, c);
    }
  }

  lemma UnstageLookEffect(sh: Shared, t: Thread, c: Choice)
    requires Prepared(sh, t) && t.req.Unstage?
    requires t.pc.CheckMounted? || t.pc.CleanupExists? || t.pc.CleanupProbe? || t.pc.CleanupRecheck?
    ensures StepEffect(sh, t, UnmountStep(sh, t, c).0, UnmountStep(sh, t, c).1)
  {
    hide CanBeStaged;
  }

  lemma UnstageChangeEffect(sh: Shared, t: Thread, c: Choice)
    requires Prepared(sh, t) && t.req.Unstage? && t.pc.OfUnmount()
    requires !t.pc.CheckMounted? && !t.pc.CleanupExists? && !t.pc.CleanupProbe? && !t.pc.CleanupRecheck?
    ensures StepEffect(sh, t, UnmountStep(sh, t, c).0, UnmountStep(sh, t, c).1)
  {
    hide CanBeStaged;
  }

  lemma UnpublishStepEffect(sh: Shared, t: Thread, c: Choice)
    requires Prepared(sh, t) && t.pc.OfUnmount() && t.req.Unpublish?
    ensures StepEffect(sh, t, UnmountStep(sh, t, c).0, UnmountStep(sh, t, c).1)
  {
  }

  lemma StepHasEffect(sh: Shared, t: Thread, c: Choice)
    requires Prepared(sh, t)
    ensures StepEffect(sh, t, Step(sh, t, c).0, Step(sh, t, c).1)
  {
    hide EnsureStep, MountStep, UnmountStep;
    if t.pc.OfEnsure() { EnsureStepEffect(sh, t, c); }
    else if t.pc.OfMount() { MountStepEffect(sh, t, c); }
    else if t.pc.OfUnmount() && t.req.Unstage? { UnstageStepEffect(sh, t, c); }
    else if t.pc.OfUnmount() && t.req.Unpublish? { UnpublishStepEffect(sh, t, c); }
  }

  lemma StepKeepsRight(sh: Shared, t: Thread, c: Choice)
    requires RightPc(t)
    ensures RightPc(Step(sh, t, c).1)
  {
    hide EnsureStep, MountStep, UnmountStep;
    EnsureKeepsRightPc(sh, t, c);
    MountKeepsRightPc(sh, t, c);
    UnmountKeepsRightPc(sh, t, c);
  }

  lemma EnsureKeepsRightPc(sh: Shared, t: Thread, c: Choice)
    requires RightPc(t)
    ensures RightPc(EnsureStep(sh, t, c).1)
  {
    hide Look, IsCorruptedDir, CanRead, Unmounted, WithDirectory;
  }

  lemma MountKeepsRightPc(sh: Shared, t: Thread, c: Choice)
    requires RightPc(t)
    ensures RightPc(MountStep(sh, t, c).1)
  {
    hide VolumeOptions.StageOptions, Source, WithMount, Removed;
  }

  lemma UnmountKeepsRightPc(sh: Shared, t: Thread, c: Choice)
    requires RightPc(t)
    ensures RightPc(UnmountStep(sh, t, c).1)
  {
    hide Look, IsCorruptedDir, Unmounted, Removed;
  }

  // ---------- every interleaving ----------

  /** Every request for a path is for the one volume that owns it. */
  ghost predicate Owned(s: State, owner: Str -> Str) {
    forall id :: id in s.threads ==> owner(s.threads[id].req.path) == s.threads[id].req.vol
  }

  ghost predicate Inv(s: State, owner: Str -> Str) {
    && Owned(s, owner) && LocksInv(s)
    && (forall id :: id in s.threads ==> RightPc(s.threads[id]))
    && (forall id :: id in s.threads && s.threads[id].locked ==> Knows(s.threads[id], s.shared.table))
  }

  /** Knowledge about a path survives changes elsewhere. */
  lemma KnowsElsewhere(t: Thread, table: Table, table': Table)
    requires Knows(t, table)
    requires t.req.path in table' <==> t.req.path in table
    requires t.req.path in table ==> table'[t.req.path] == table[t.req.path]
    ensures Knows(t, table')
  {
  }

  /** Two requests that hold their locks have different paths. */
  lemma OtherPath(s: State, owner: Str -> Str, a: RequestId, b: RequestId)
    requires Owned(s, owner) && LocksAreHeld(s) && a in s.threads && b in s.threads && a != b
    requires s.threads[a].locked && s.threads[b].locked
    ensures s.threads[a].req.path != s.threads[b].req.path
  {
    assert Holds(s, a, s.threads[a].req.vol) && Holds(s, b, s.threads[b].req.vol);
  }

  lemma AdvanceKeepsInv(s: State, owner: Str -> Str, id: RequestId, c: Choice)
    requires Inv(s, owner) && id in s.threads && !s.crashed
    ensures Inv(Exec(s, Advance(id, c)), owner)
  {
    hide Step, Knows, RightPc, PhaseOk;
    var t := s.threads[id];
    var (sh', t') := Step(s.shared, t, c);
    StepHasEffect(s.shared, t, c);
    ExecKeepsLocks(s, Advance(id, c));
    var s' := Exec(s, Advance(id, c));
    forall x | x in s'.threads && s'.threads[x].locked ensures Knows(s'.threads[x], sh'.table) {
      if x != id {
        if t.locked { OtherPath(s, owner, id, x); }
        KnowsElsewhere(s.threads[x], s.shared.table, sh'.table);
      }
    }
  }

  lemma CorruptKeepsKnowledge(t: Thread, table: Table, path: Str, condition: Condition)
    requires Knows(t, table) && path in table && table[path] != [] && Top(table[path]).Volume?
    ensures Knows(t, table[path := WithCondition(table[path], condition)])
  {
  }

  lemma ExecKeepsInv(s: State, owner: Str -> Str, a: Action)
    requires Inv(s, owner) && (a.Arrive? ==> owner(a.req.path) == a.req.vol)
    ensures Inv(Exec(s, a), owner)
  {
    if !s.crashed {
      ExecKeepsLocks(s, a);
      hide Knows, RightPc, LocksInv;
      match a
      case Arrive(id, req) =>
        if id !in s.threads { StartIsRight(req); }
      case Advance(id, c) =>
        if id in s.threads { AdvanceKeepsInv(s, owner, id, c); }
      case Corrupt(path, condition) =>
        var table := s.shared.table;
        if path in table && table[path] != [] && Top(table[path]).Volume? {
          forall id | id in s.threads && s.threads[id].locked
            ensures Knows(s.threads[id], Exec(s, a).shared.table)
          {
            CorruptKeepsKnowledge(s.threads[id], table, path, condition);
          }
        }
    }
  }

  lemma StartIsRight(req: Request)
    ensures RightPc(Start(req)) && !Start(req).locked
  {
  }

  /** The caller's promise: each path belongs to one volume. */
  ghost predicate RespectOwner(actions: seq<Action>, owner: Str -> Str) {
    forall i :: 0 <= i < |actions| && actions[i].Arrive? ==> owner(actions[i].req.path) == actions[i].req.vol
  }

  lemma {:induction false} RunKeepsInv(s: State, owner: Str -> Str, actions: seq<Action>)
    requires Inv(s, owner) && RespectOwner(actions, owner)
    ensures Inv(Run(s, actions), owner)
    decreases |actions|
  {
    if actions != [] {
      ExecKeepsInv(s, owner, actions[0]);
      hide Exec, Inv;
      RunKeepsInv(Exec(s, actions[0]), owner, actions[1..]);
    }
  }
}
