/** What it takes for mounts never to stack: one owner for each path, and no bind of a directory that is not mounted. */
module NodeStacking {
  import opened Bytes
  import opened VolumeOptions
  import opened Node
  import opened NodeInvariants
  import opened NodeTheorems
  import opened NodeAlone
  import opened NodeVolumes

  // ---------- when a path has two owners ----------

  /** The options of a stage request can be made. */
  ghost predicate Stageable(req: Request) {
    req.Stage? && req.valid && CanBeStaged(req)
  }

  lemma OwnReachesMount(sh: Shared, req: Request, c: Choice)
    requires Stageable(req) && req.vol !in sh.locks && req.path in sh.table && sh.table[req.path] == []
    requires !c.ioError && !c.fails
    ensures Own(sh, Start(req), Same(c, 5)) == (sh.(locks := sh.locks + {req.vol}), Thread(req, FuseMount, true))
  {
    hide Own, StageOptions, UnmountStep;
    var outside := Same(c, 5);
    assert outside[0..] == outside && outside[5..] == [];
    OwnStep(sh, Start(req), outside, 0);
    OwnStep(sh, Thread(req, TryLock, false), outside, 1);
    var held := sh.(locks := sh.locks + {req.vol});
    OwnStep(held, Thread(req, Probe, true), outside, 2);
    OwnStep(held, Thread(req, MakeDirectory, true), outside, 3);
    OwnStep(held, Thread(req, MakeOptions, true), outside, 4);
    OwnNothing(held, Thread(req, FuseMount, true));
  }

  lemma StageReachesMount(s: State, id: RequestId, req: Request, c: Choice)
    requires !s.crashed && id !in s.threads && Stageable(req) && req.vol !in s.shared.locks
    requires req.path in s.shared.table && s.shared.table[req.path] == []
    requires !c.ioError && !c.fails
    ensures Run(s, [Arrive(id, req)] + Advances(id, Same(c, 5)))
         == State(Shared(s.shared.locks + {req.vol}, s.shared.table), s.threads[id := Thread(req, FuseMount, true)], false)
  {
    hide Own, StageOptions, Step;
    var outside, s1 := Same(c, 5), Exec(s, Arrive(id, req));
    assert ([Arrive(id, req)] + Advances(id, outside))[1..] == Advances(id, outside);
    OwnIsARun(s1, id, outside);
    OwnReachesMount(s.shared, req, c);
    assert s1.threads[id := Thread(req, FuseMount, true)] == s.threads[id := Thread(req, FuseMount, true)];
  }

  /**
   * So one owner for each path is needed: for any two different volumes some run stacks two mounts on a path
   * they share.
   */
  lemma OneOwnerIsNeeded(path: Str, v: Request, w: Request)
    requires Stageable(v) && Stageable(w) && v.path == w.path == path && v.vol != w.vol
    ensures exists actions :: Depth(Run(Fresh(map[path := []]), actions).shared.table, path) == 2
  {
    hide StageOptions, Exec, Depth;
    var c, s := NO_FAULT, Fresh(map[path := []]);
    var first, second := [Arrive(0, v)] + Advances(0, Same(c, 5)), [Arrive(1, w)] + Advances(1, Same(c, 5));
    StageReachesMount(s, 0, v, c);
    var s1 := Run(s, first);
    StageReachesMount(s1, 1, w, c);
    var s2 := Run(s1, second);
    TwoOwnersStackMounts(s2, 0, 1, c);
    var last := [Advance(0, c), Advance(1, c)];
    RunConcat(s, first, second + last);
    RunConcat(s1, second, last);
    assert Depth(Run(s, first + (second + last)).shared.table, path) == 2;
  }

  // ---------- when a staging path is not mounted ----------

  ghost predicate From(actions: seq<Action>, requests: iset<Request>) {
    forall i :: 0 <= i < |actions| && actions[i].Arrive? ==> actions[i].req in requests
  }

  /** A publish that is about to bind a staging path which, as far as its device tells, is a directory. */
  ghost predicate BindsBare(s: State, id: RequestId) {
    && !s.crashed && id in s.threads && s.threads[id].pc.BindMount?
    && BareDirectory(s.shared.table, Staging(s.threads[id].req))
  }

  ghost predicate NeverBindsBare(table: Table, requests: iset<Request>) {
    forall actions, id :: From(actions, requests) ==> !BindsBare(Run(Fresh(table), actions), id)
  }

  ghost predicate NeverStacks(table: Table, requests: iset<Request>) {
    forall actions, path :: From(actions, requests) ==> Depth(Run(Fresh(table), actions).shared.table, path) <= 1
  }

  lemma OneMoreAction(s: State, before: seq<Action>, a: Action)
    ensures Run(s, before + [a]) == Exec(Run(s, before), a)
  {
    RunConcat(s, before, [a]);
    assert [a][1..] == [];
  }

  lemma {:induction false} NoLocalAfter(table: Table, requests: iset<Request>, before: seq<Action>, rest: seq<Action>)
    requires NeverBindsBare(table, requests) && From(before, requests) && From(rest, requests)
    ensures NoLocalMade(Run(Fresh(table), before), rest)
    decreases |rest|
  {
    if rest != [] {
      var s, a := Run(Fresh(table), before), rest[0];
      assert MakesLocal(s, a) ==> BindsBare(s, a.id);
      OneMoreAction(Fresh(table), before, a);
      hide Run, Exec, BindsBare, MakesLocal;
      NoLocalAfter(table, requests, before + [a], rest[1..]);
    }
  }

  /** A publish by itself whose path and staging path both look like directories. */
  lemma OwnBindsBare(sh: Shared, req: Request)
    requires req.Publish? && req.valid && req.vol !in sh.locks
    requires req.path in sh.table && Bare(sh.table[req.path]) && req.staging in sh.table && Bare(sh.table[req.staging])
    ensures Own(sh, Start(req), Same(NO_FAULT, 5)).0.table == sh.table[req.path := sh.table[req.path] + [Local]]
    ensures Own(sh, Start(req), Same(NO_FAULT, 5)).1.pc != Finished(Panicked)
  {
    hide Own, UnmountStep, StageOptions;
    OwnNext(sh, Start(req), 5);
    OwnNext(sh, Thread(req, TryLock, false), 4);
    var held := sh.(locks := sh.locks + {req.vol});
    OwnNext(held, Thread(req, Probe, true), 3);
    OwnNext(held, Thread(req, MakeDirectory, true), 2);
    OwnNext(held, Thread(req, BindMount, true), 1);
    var bound := held.(table := sh.table[req.path := sh.table[req.path] + [Local]]);
    assert Same(NO_FAULT, 0) == [];
    OwnNothing(bound, Thread(req, Return(Succeeded), true));
  }

  lemma {:induction false} Above(ids: set<RequestId>) returns (n: RequestId)
    ensures forall x: RequestId :: x in ids ==> x < n
    decreases |ids|
  {
    if ids == {} {
      n := 0;
    } else {
      var x: RequestId :| x in ids;
      var m := Above(ids - {x});
      n := if x < m then m else x + 1;
      forall y: RequestId | y in ids ensures y < n {
        assert y == x || y in ids - {x};
      }
    }
  }

  /** Let the bind happen and its lock go; then the same request again binds once more. */
  lemma BareBindRepeats(s: State, owner: Str -> Str, id: RequestId) returns (more: seq<Action>)
    requires Inv(s, owner) && BindsBare(s, id)
    ensures From(more, iset{s.threads[id].req})
    ensures Depth(Run(s, more).shared.table, s.threads[id].req.path) >= 2
  {
    var req := s.threads[id].req;
    assert PhaseOk(s.threads[id]) && RightPc(s.threads[id]) && Knows(s.threads[id], s.shared.table);
    hide Inv, Step, Run, Exec, Own, Advances, RightPc, Knows, PhaseOk;
    var s2 := BindAndRelease(s, id);
    var n := Above(s2.threads.Keys);
    var first := [Advance(id, NO_FAULT), Advance(id, NO_FAULT), Arrive(n, req)];
    var again := Advances(n, Same(NO_FAULT, 5));
    BindsOnceMore(s2, n, req);
    ThreeActions(s, Advance(id, NO_FAULT), Advance(id, NO_FAULT), Arrive(n, req), again);
    more := first + again;
    AdvancesOnly(n, Same(NO_FAULT, 5));
  }

  lemma BindsOnceMore(s: State, n: RequestId, req: Request)
    requires !s.crashed && n !in s.threads && req.Publish? && req.valid && req.vol !in s.shared.locks
    requires req.path in s.shared.table && Bare(s.shared.table[req.path])
    requires req.staging in s.shared.table && Bare(s.shared.table[req.staging])
    ensures Depth(Run(Exec(s, Arrive(n, req)), Advances(n, Same(NO_FAULT, 5))).shared.table, req.path)
         == Depth(s.shared.table, req.path) + 1
  {
    hide Own, Step;
    OwnBindsBare(s.shared, req);
    OwnIsARun(Exec(s, Arrive(n, req)), n, Same(NO_FAULT, 5));
  }

  lemma BindAndRelease(s: State, id: RequestId) returns (s2: State)
    requires BindsBare(s, id) && PhaseOk(s.threads[id]) && RightPc(s.threads[id]) && Knows(s.threads[id], s.shared.table)
    ensures s2 == Exec(Exec(s, Advance(id, NO_FAULT)), Advance(id, NO_FAULT))
    ensures var req := s.threads[id].req;
            && !s2.crashed && req.Publish? && req.valid && req.vol !in s2.shared.locks
            && s2.shared.table == s.shared.table[req.path := s.shared.table[req.path] + [Local]]
            && req.staging in s2.shared.table && Bare(s2.shared.table[req.staging])
  {
    hide EnsureStep, UnmountStep, StageOptions;
    s2 := Exec(Exec(s, Advance(id, NO_FAULT)), Advance(id, NO_FAULT));
  }

  lemma ThreeActions(s: State, a: Action, b: Action, c: Action, rest: seq<Action>)
    ensures Run(s, [a, b, c] + rest) == Run(Exec(Exec(Exec(s, a), b), c), rest)
  {
    assert ([a, b, c] + rest)[1..] == [b, c] + rest && ([b, c] + rest)[1..] == [c] + rest;
    assert ([c] + rest)[1..] == rest;
    var s1 := Exec(s, a);
    assert Run(s, [a, b, c] + rest) == Run(s1, [b, c] + rest);
    assert Run(s1, [b, c] + rest) == Run(Exec(s1, b), [c] + rest);
  }

  lemma {:induction false} AdvancesOnly(id: RequestId, outside: seq<Choice>)
    ensures forall i :: 0 <= i < |Advances(id, outside)| ==> Advances(id, outside)[i].Advance?
    decreases |outside|
  {
    if outside != [] { AdvancesOnly(id, outside[1..]); }
  }

  /**
   * When each path belongs to one volume: no run of some requests stacks mounts exactly when in none of them a publish
   * gets to bind a staging path that is not mounted.
   */
  lemma NeverStacksIffNeverBindsBare(table: Table, owner: Str -> Str, requests: iset<Request>)
    requires Flat(table) && forall req :: req in requests ==> owner(req.path) == req.vol
    ensures NeverStacks(table, requests) <==> NeverBindsBare(table, requests)
  {
    hide Run, Exec, BindsBare, Flat, Depth, NoLocalMade;
    if NeverBindsBare(table, requests) {
      forall actions, path | From(actions, requests)
        ensures Depth(Run(Fresh(table), actions).shared.table, path) <= 1
      {
        NoLocalAfter(table, requests, [], actions);
        RunNothing(Fresh(table));
        MountsNeverStack(table, owner, actions, path);
      }
    } else {
      var actions, id :| From(actions, requests) && BindsBare(Run(Fresh(table), actions), id);
      StacksAfter(table, owner, requests, actions, id);
    }
  }

  lemma RunNothing(s: State)
    ensures Run(s, []) == s
  {
  }

  lemma {:induction false} RequestsComeFrom(s: State, actions: seq<Action>, requests: iset<Request>, id: RequestId)
    requires From(actions, requests) && forall x :: x in s.threads ==> s.threads[x].req in requests
    requires id in Run(s, actions).threads
    ensures Run(s, actions).threads[id].req in requests
    decreases |actions|
  {
    if actions != [] {
      hide Step;
      assert forall x :: x in Exec(s, actions[0]).threads ==> Exec(s, actions[0]).threads[x].req in requests;
      RequestsComeFrom(Exec(s, actions[0]), actions[1..], requests, id);
    }
  }

  lemma StacksAfter(table: Table, owner: Str -> Str, requests: iset<Request>, actions: seq<Action>, id: RequestId)
    requires forall req :: req in requests ==> owner(req.path) == req.vol
    requires From(actions, requests) && BindsBare(Run(Fresh(table), actions), id)
    ensures !NeverStacks(table, requests)
  {
    var s := Run(Fresh(table), actions);
    FreshInv(table, owner);
    RunKeepsInv(Fresh(table), owner, actions);
    RequestsComeFrom(Fresh(table), actions, requests, id);
    hide Inv, Run, Exec, Depth;
    var more := BareBindRepeats(s, owner, id);
    RunConcat(Fresh(table), actions, more);
    assert From(actions + more, requests);
    assert Depth(Run(Fresh(table), actions + more).shared.table, s.threads[id].req.path) >= 2;
  }

  // ---------- a run that stacks ----------

  lemma OwnReachesBind(sh: Shared, req: Request)
    requires req.Publish? && req.valid && req.vol !in sh.locks && req.path in sh.table && Bare(sh.table[req.path])
    ensures Own(sh, Start(req), Same(NO_FAULT, 4)) == (sh.(locks := sh.locks + {req.vol}), Thread(req, BindMount, true))
  {
    hide Own, UnmountStep, StageOptions;
    OwnNext(sh, Start(req), 4);
    OwnNext(sh, Thread(req, TryLock, false), 3);
    var held := sh.(locks := sh.locks + {req.vol});
    OwnNext(held, Thread(req, Probe, true), 2);
    OwnNext(held, Thread(req, MakeDirectory, true), 1);
    assert Same(NO_FAULT, 0) == [];
    OwnNothing(held, Thread(req, BindMount, true));
  }

  lemma PublishReachesBind(req: Request)
    requires req.Publish? && req.valid && req.staging != req.path
    ensures var s := Run(Fresh(map[req.staging := [], req.path := []]), [Arrive(0, req)] + Advances(0, Same(NO_FAULT, 4)));
            BindsBare(s, 0) && s.threads[0].req == req
  {
    hide Own, Step;
    var s, steps := Fresh(map[req.staging := [], req.path := []]), Advances(0, Same(NO_FAULT, 4));
    assert ([Arrive(0, req)] + steps)[1..] == steps;
    OwnReachesBind(s.shared, req);
    OwnIsARun(Exec(s, Arrive(0, req)), 0, Same(NO_FAULT, 4));
  }

  /**
   * One publish request, repeated, for one volume and one path of its own: two mounts there, if its staging path
   * is a directory.
   */
  lemma OneRequestStacks(req: Request)
    requires req.Publish? && req.valid && req.staging != req.path
    ensures exists actions :: From(actions, iset{req})
              && Depth(Run(Fresh(map[req.staging := [], req.path := []]), actions).shared.table, req.path) >= 2
  {
    hide Run, Exec, BindsBare, Depth;
    var s, first := Fresh(map[req.staging := [], req.path := []]), [Arrive(0, req)] + Advances(0, Same(NO_FAULT, 4));
    AdvancesOnly(0, Same(NO_FAULT, 4));
    PublishReachesBind(req);
    FreshInv(s.shared.table, _ => req.vol);
    RunKeepsInv(s, _ => req.vol, first);
    hide Inv;
    var more := BareBindRepeats(Run(s, first), _ => req.vol, 0);
    RunConcat(s, first, more);
    assert From(first + more, iset{req});
  }
}
