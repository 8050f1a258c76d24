/** Which sets of requests can stack mounts, told by the mount table and the requests alone. */
module NodeRequests {
  import opened Bytes
  import opened VolumeOptions
  import opened Node
  import opened NodeInvariants
  import opened NodeTheorems
  import opened NodeAlone
  import opened NodeVolumes
  import opened NodeStacking

  ghost predicate SomeValid(requests: iset<Request>, path: Str, publish: bool) {
    exists req :: req in requests && req.valid && req.path == path && (publish ==> req.Publish?)
  }

  /**
   * A path that is a bare directory, or can be left as one: any request can unmount what is there, a publish can
   * make it.
   */
  ghost predicate MayBeBare(table: Table, requests: iset<Request>, path: Str) {
    || BareDirectory(table, path)
    || (path in table && SomeValid(requests, path, false))
    || SomeValid(requests, path, true)
  }

  ghost predicate MayStack(table: Table, requests: iset<Request>) {
    exists req :: req in requests && req.Publish? && req.valid && MayBeBare(table, requests, req.staging)
  }

  // ---------- requests that cannot ----------

  /** A path that cannot become a bare directory stays as it is, and if it is missing no stage gets to it. */
  ghost predicate StaysPut(table: Table, requests: iset<Request>, s: State, path: Str) {
    && (path in table <==> path in s.shared.table)
    && !BareDirectory(s.shared.table, path)
    && (path !in table ==>
          forall id :: id in s.threads && s.threads[id].req.Stage? && s.threads[id].req.path == path ==>
            s.threads[id].pc.Validate? || s.threads[id].pc.Return? || s.threads[id].pc.Finished?)
  }

  ghost predicate ThreadsFrom(s: State, requests: iset<Request>) {
    forall id :: id in s.threads ==> s.threads[id].req in requests && RightPc(s.threads[id])
  }

  lemma StepStaysPut(sh: Shared, t: Thread, c: Choice, path: Str, table: Table, requests: iset<Request>)
    requires t.req in requests && RightPc(t) && !MayBeBare(table, requests, path)
    requires path in table <==> path in sh.table
    requires !BareDirectory(sh.table, path)
    requires t.req.Stage? && t.req.path == path && path !in table ==> t.pc.Validate? || t.pc.Return? || t.pc.Finished?
    ensures var (sh', t') := Step(sh, t, c);
            && (path in table <==> path in sh'.table) && !BareDirectory(sh'.table, path)
            && (t.req.Stage? && t.req.path == path && path !in table ==>
                  t'.pc.Validate? || t'.pc.Return? || t'.pc.Finished?)
  {
    hide StageOptions, Look, IsCorruptedDir, CanRead, Source;
    if t.req.path == path && t.req.valid {
      assert SomeValid(requests, path, false);
      assert t.req.Publish? ==> SomeValid(requests, path, true);
    }
  }

  lemma ExecStaysPut(s: State, a: Action, path: Str, table: Table, requests: iset<Request>)
    requires ThreadsFrom(s, requests) && (a.Arrive? ==> a.req in requests)
    requires !MayBeBare(table, requests, path) && StaysPut(table, requests, s, path)
    ensures ThreadsFrom(Exec(s, a), requests) && StaysPut(table, requests, Exec(s, a), path)
  {
    if a.Advance? && a.id in s.threads {
      StepStaysPut(s.shared, s.threads[a.id], a.choice, path, table, requests);
      StepKeepsRight(s.shared, s.threads[a.id], a.choice);
    }
    hide Step, MayBeBare, RightPc;
    if a.Arrive? { assert RightPc(Start(a.req)) by { StartIsRight(a.req); } }
  }

  lemma {:induction false} RunStaysPut(s: State, actions: seq<Action>, path: Str, table: Table, requests: iset<Request>)
    requires ThreadsFrom(s, requests) && From(actions, requests)
    requires !MayBeBare(table, requests, path) && StaysPut(table, requests, s, path)
    ensures ThreadsFrom(Run(s, actions), requests) && StaysPut(table, requests, Run(s, actions), path)
    decreases |actions|
  {
    if actions != [] {
      ExecStaysPut(s, actions[0], path, table, requests);
      hide Exec, ThreadsFrom, StaysPut, MayBeBare;
      RunStaysPut(Exec(s, actions[0]), actions[1..], path, table, requests);
    }
  }

  lemma CannotBindBare(table: Table, requests: iset<Request>, actions: seq<Action>, id: RequestId)
    requires !MayStack(table, requests) && From(actions, requests)
    ensures !BindsBare(Run(Fresh(table), actions), id)
  {
    var s := Run(Fresh(table), actions);
    if BindsBare(s, id) {
      var req := s.threads[id].req;
      FreshInv(table, _ => []);
      RequestsComeFrom(Fresh(table), actions, requests, id);
      RightAlways(Fresh(table), actions, id);
      assert !MayBeBare(table, requests, req.staging);
      RunStaysPut(Fresh(table), actions, req.staging, table, requests);
    }
  }

  lemma {:induction false} RightAlways(s: State, actions: seq<Action>, id: RequestId)
    requires forall x :: x in s.threads ==> RightPc(s.threads[x])
    requires id in Run(s, actions).threads
    ensures RightPc(Run(s, actions).threads[id])
    decreases |actions|
  {
    if actions != [] {
      var a := actions[0];
      if a.Advance? && a.id in s.threads { StepKeepsRight(s.shared, s.threads[a.id], a.choice); }
      if a.Arrive? { StartIsRight(a.req); }
      hide Step, RightPc;
      RightAlways(Exec(s, a), actions[1..], id);
    }
  }

  // ---------- requests that can: leaving a path as a bare directory ----------

  const LOOK_FAILS := Choice(true, false, false, true)
  const CHANGE_FAILS := Choice(false, true, false, true)

  lemma OwnCons(sh: Shared, t: Thread, c: Choice, rest: seq<Choice>)
    ensures Own(sh, t, [c] + rest) == Own(Step(sh, t, c).0, Step(sh, t, c).1, rest)
  {
    assert ([c] + rest)[1..] == rest;
  }

  /** What the outside decides for a request that unmounts its path, fails after that and gives back its lock. */
  function Emptying(req: Request): seq<Choice> {
    match req
    case Unstage(_, _, _) => Same(NO_FAULT, 6) + [LOOK_FAILS] + Same(NO_FAULT, 1)
    case Unpublish(_, _, _) => Same(NO_FAULT, 3) + [CHANGE_FAILS] + Same(NO_FAULT, 1)
    case _ => Same(NO_FAULT, 3) + [LOOK_FAILS] + Same(NO_FAULT, 2)
  }

  lemma {:induction false} OwnConcat(sh: Shared, t: Thread, a: seq<Choice>, b: seq<Choice>)
    ensures Own(sh, t, a + b) == Own(Own(sh, t, a).0, Own(sh, t, a).1, b)
    decreases |a|
  {
    if a == [] {
      assert a + b == b;
    } else {
      assert (a + b)[1..] == a[1..] + b;
      OwnConcat(Step(sh, t, a[0]).0, Step(sh, t, a[0]).1, a[1..], b);
    }
  }

  /** A path with one mount, which shows and can be reached. */
  predicate OneMount(table: Table, path: Str) {
    path in table && |table[path]| == 1 && table[path][0] != Local && !table[path][0].Dead()
  }

  function Failing(req: Request, locked: bool): Thread {
    Thread(req, Return(Failed(Internal)), locked)
  }

  lemma OwnEmpties(sh: Shared, req: Request)
    requires req.valid && req.vol !in sh.locks && OneMount(sh.table, req.path)
    ensures Own(sh, Start(req), Emptying(req)) == (sh.(table := sh.table[req.path := []]), Failing(req, false))
  {
    hide *;
    match req
    case Unstage(_, _, _) => OwnEmptiesByUnstage(sh, req);
    case Unpublish(_, _, _) => OwnEmptiesByUnpublish(sh, req);
    case Stage(_, _, _, _) => OwnEmptiesByMounting(sh, req);
    case Publish(_, _, _, _) => OwnEmptiesByMounting(sh, req);
  }

  lemma OwnEmptiesByUnpublish(sh: Shared, req: Request)
    requires req.Unpublish? && req.valid && req.vol !in sh.locks && OneMount(sh.table, req.path)
    ensures Own(sh, Start(req), Emptying(req)) == (sh.(table := sh.table[req.path := []]), Failing(req, false))
  {
    hide Own, EnsureStep, MountStep;
    var held := sh.(locks := sh.locks + {req.vol});
    var empty := held.(table := sh.table[req.path := []]);
    assert Pop(sh.table[req.path]) == [] && held.locks - {req.vol} == sh.locks;
    OwnConcat(sh, Start(req), Same(NO_FAULT, 3) + [CHANGE_FAILS], Same(NO_FAULT, 1));
    OwnConcat(sh, Start(req), Same(NO_FAULT, 3), [CHANGE_FAILS]);
    OwnNext(sh, Start(req), 3);
    OwnNext(sh, Thread(req, TryLock, false), 2);
    OwnNext(held, Thread(req, Umount, true), 1);
    OwnEnds(empty, Thread(req, RemoveUnmounted, true), CHANGE_FAILS);
    OwnReleases(empty, req, Same(NO_FAULT, 0));
  }

  lemma OwnEmptiesByMounting(sh: Shared, req: Request)
    requires (req.Stage? || req.Publish?) && req.valid && req.vol !in sh.locks && OneMount(sh.table, req.path)
    ensures Own(sh, Start(req), Emptying(req)) == (sh.(table := sh.table[req.path := []]), Failing(req, false))
  {
    hide Own, MountStep, UnmountStep;
    var held := sh.(locks := sh.locks + {req.vol});
    var empty := held.(table := sh.table[req.path := []]);
    assert Pop(sh.table[req.path]) == [] && held.locks - {req.vol} == sh.locks;
    OwnConcat(sh, Start(req), Same(NO_FAULT, 3) + [LOOK_FAILS], Same(NO_FAULT, 2));
    OwnConcat(sh, Start(req), Same(NO_FAULT, 3), [LOOK_FAILS]);
    OwnNext(sh, Start(req), 3);
    OwnNext(sh, Thread(req, TryLock, false), 2);
    OwnNext(held, Thread(req, Probe, true), 1);
    OwnEnds(held, Thread(req, ReadDir, true), LOOK_FAILS);
    OwnNext(held, Thread(req, UnmountInvalid, true), 2);
    OwnReleases(empty, req, Same(NO_FAULT, 0));
  }

  lemma OwnEmptiesByUnstage(sh: Shared, req: Request)
    requires req.Unstage? && req.valid && req.vol !in sh.locks && OneMount(sh.table, req.path)
    ensures Own(sh, Start(req), Emptying(req)) == (sh.(table := sh.table[req.path := []]), Failing(req, false))
  {
    hide Own, EnsureStep, MountStep, OneMount;
    var empty := sh.(locks := sh.locks + {req.vol}, table := sh.table[req.path := []]);
    assert empty.locks - {req.vol} == sh.locks;
    OwnConcat(sh, Start(req), Same(NO_FAULT, 6) + [LOOK_FAILS], Same(NO_FAULT, 1));
    OwnConcat(sh, Start(req), Same(NO_FAULT, 6), [LOOK_FAILS]);
    UnstageGetsToUnmount(sh, req);
    OwnEnds(empty, Thread(req, CleanupRecheck, true), LOOK_FAILS);
    OwnReleases(empty, req, Same(NO_FAULT, 0));
  }

  lemma UnstageGetsToUnmount(sh: Shared, req: Request)
    requires req.Unstage? && req.valid && req.vol !in sh.locks && OneMount(sh.table, req.path)
    ensures Own(sh, Start(req), Same(NO_FAULT, 6))
         == (sh.(locks := sh.locks + {req.vol}, table := sh.table[req.path := []]), Thread(req, CleanupRecheck, true))
  {
    hide Own, EnsureStep, MountStep;
    var held := sh.(locks := sh.locks + {req.vol});
    assert Pop(sh.table[req.path]) == [];
    OwnNext(sh, Start(req), 6);
    OwnNext(sh, Thread(req, TryLock, false), 5);
    OwnNext(held, Thread(req, CheckMounted, true), 4);
    OwnNext(held, Thread(req, CleanupExists, true), 3);
    OwnNext(held, Thread(req, CleanupProbe, true), 2);
    OwnNext(held, Thread(req, CleanupUnmount, true), 1);
    OwnEnds(held.(table := sh.table[req.path := []]), Thread(req, CleanupRecheck, true), NO_FAULT);
  }

  lemma OwnEnds(sh: Shared, t: Thread, c: Choice)
    ensures Own(sh, t, Same(NO_FAULT, 0)) == (sh, t)
    ensures Own(sh, t, [c]) == Step(sh, t, c)
  {
    assert Same(NO_FAULT, 0) == [] && [c] == [c] + [];
    OwnCons(sh, t, c, []);
  }

  lemma OwnReleases(sh: Shared, req: Request, rest: seq<Choice>)
    requires rest == Same(NO_FAULT, 0)
    ensures Own(sh, Failing(req, true), Same(NO_FAULT, 1)) == (sh.(locks := sh.locks - {req.vol}), Failing(req, false))
    ensures Own(sh, Failing(req, true), rest) == (sh, Failing(req, true))
  {
    hide Own, EnsureStep, MountStep, UnmountStep;
    OwnNext(sh, Failing(req, true), 1);
    OwnEnds(sh.(locks := sh.locks - {req.vol}), Failing(req, false), NO_FAULT);
    OwnEnds(sh, Failing(req, true), NO_FAULT);
  }

  /**
   * One request, and if it has to be a mount that answers again, leave a path as a bare directory and no lock
   * behind.
   */
  function EmptyingRun(id: RequestId, req: Request): seq<Action> {
    [Corrupt(req.path, Answering)] + ([Arrive(id, req)] + Advances(id, Emptying(req)))
  }

  lemma AnsweringMount(s: State, path: Str)
    requires !s.crashed && Flat(s.shared.table) && path in s.shared.table && !Bare(s.shared.table[path])
    ensures var s' := Exec(s, Corrupt(path, Answering));
            && OneMount(s'.shared.table, path) && s' == s.(shared := s.shared.(table := s'.shared.table))
            && s'.shared.table[path := []] == s.shared.table[path := []]
  {
  }

  lemma Empties(s: State, id: RequestId, req: Request)
    requires !s.crashed && id !in s.threads && req.valid && req.vol !in s.shared.locks
    requires Flat(s.shared.table) && req.path in s.shared.table && !Bare(s.shared.table[req.path])
    ensures Run(s, EmptyingRun(id, req))
         == State(s.shared.(table := s.shared.table[req.path := []]), s.threads[id := Failing(req, false)], false)
  {
    hide Own, Step, Emptying, OneMount, Flat, Advances;
    AnsweringMount(s, req.path);
    var s1 := Exec(s, Corrupt(req.path, Answering));
    var rest := [Arrive(id, req)] + Advances(id, Emptying(req));
    assert ([Corrupt(req.path, Answering)] + rest)[1..] == rest;
    assert Run(s, [Corrupt(req.path, Answering)] + rest) == Run(s1, rest);
    EmptiesAnswering(s1, id, req);
  }

  lemma EmptiesAnswering(s: State, id: RequestId, req: Request)
    requires !s.crashed && id !in s.threads && req.valid && req.vol !in s.shared.locks && OneMount(s.shared.table, req.path)
    ensures Run(s, [Arrive(id, req)] + Advances(id, Emptying(req)))
         == State(s.shared.(table := s.shared.table[req.path := []]), s.threads[id := Failing(req, false)], false)
  {
    hide Own, Step, Emptying, OneMount;
    var s1 := s.(threads := s.threads[id := Start(req)]);
    assert ([Arrive(id, req)] + Advances(id, Emptying(req)))[1..] == Advances(id, Emptying(req));
    assert Run(s, [Arrive(id, req)] + Advances(id, Emptying(req))) == Run(s1, Advances(id, Emptying(req)));
    OwnEmpties(s.shared, req);
    OwnIsARun(s1, id, Emptying(req));
    assert s1.threads[id := Failing(req, false)] == s.threads[id := Failing(req, false)];
  }

  lemma EmptyingRunIsFrom(id: RequestId, req: Request)
    ensures From(EmptyingRun(id, req), iset{req})
  {
    AdvancesOnly(id, Emptying(req));
  }

  /** What the outside decides for a publish that makes its directory, cannot bind and cannot remove it again. */
  function LeavingDirectory(): seq<Choice> {
    Same(NO_FAULT, 4) + [CHANGE_FAILS, CHANGE_FAILS] + Same(NO_FAULT, 1)
  }

  lemma OwnLeavesDirectory(sh: Shared, req: Request)
    requires req.Publish? && req.valid && req.vol !in sh.locks && req.path !in sh.table
    ensures Own(sh, Start(req), LeavingDirectory()) == (sh.(table := sh.table[req.path := []]), Failing(req, false))
  {
    hide Own, UnmountStep, StageOptions;
    var held := sh.(locks := sh.locks + {req.vol});
    var made := held.(table := sh.table[req.path := []]);
    assert held.locks - {req.vol} == sh.locks && [CHANGE_FAILS, CHANGE_FAILS] == [CHANGE_FAILS] + [CHANGE_FAILS];
    OwnConcat(sh, Start(req), Same(NO_FAULT, 4) + [CHANGE_FAILS, CHANGE_FAILS], Same(NO_FAULT, 1));
    OwnConcat(sh, Start(req), Same(NO_FAULT, 4), [CHANGE_FAILS, CHANGE_FAILS]);
    PublishMakesDirectory(sh, req);
    OwnCons(made, Thread(req, BindMount, true), CHANGE_FAILS, [CHANGE_FAILS]);
    OwnEnds(made, Thread(req, RemoveUnbound, true), CHANGE_FAILS);
    OwnReleases(made, req, Same(NO_FAULT, 0));
  }

  /** A publish by itself, on a path where no mount shows, is about to bind after four steps. */
  lemma PublishMakesDirectory(sh: Shared, req: Request)
    requires req.Publish? && req.valid && req.vol !in sh.locks
    requires req.path in sh.table ==> Bare(sh.table[req.path])
    ensures Own(sh, Start(req), Same(NO_FAULT, 4))
         == (sh.(locks := sh.locks + {req.vol},
                 table := sh.table[req.path := if req.path in sh.table then sh.table[req.path] else []]),
             Thread(req, BindMount, true))
  {
    hide Own, UnmountStep, StageOptions;
    var held := sh.(locks := sh.locks + {req.vol});
    OwnNext(sh, Start(req), 4);
    OwnNext(sh, Thread(req, TryLock, false), 3);
    OwnNext(held, Thread(req, Probe, true), 2);
    OwnNext(held, Thread(req, MakeDirectory, true), 1);
    var made := held.(table := sh.table[req.path := if req.path in sh.table then sh.table[req.path] else []]);
    assert req.path in sh.table ==> made.table == sh.table;
    OwnEnds(made, Thread(req, BindMount, true), NO_FAULT);
  }

  /** Nothing is locked, and the only request so far is one that has failed. */
  ghost predicate Quiet(s: State, id: RequestId) {
    !s.crashed && s.shared.locks == {} && s.threads.Keys <= {id}
  }

  /** A path that may be bare can be left bare. */
  lemma MakesBare(table: Table, requests: iset<Request>, path: Str) returns (actions: seq<Action>)
    requires Flat(table) && MayBeBare(table, requests, path)
    ensures From(actions, requests) && Quiet(Run(Fresh(table), actions), 0)
    ensures var t := Run(Fresh(table), actions).shared.table; BareDirectory(t, path) && Flat(t)
  {
    hide Emptying, Advances, LeavingDirectory;
    var s := Fresh(table);
    if BareDirectory(table, path) {
      actions := [];
    } else if path in table {
      var req :| req in requests && req.valid && req.path == path;
      actions := EmptyingRun(0, req);
      EmptyingRunIsFrom(0, req);
      Empties(s, 0, req);
      hide Run;
    } else {
      var req :| req in requests && req.valid && req.path == path && req.Publish?;
      actions := [Arrive(0, req)] + Advances(0, LeavingDirectory());
      AdvancesOnly(0, LeavingDirectory());
      LeavesDirectory(s, req);
      hide Run;
    }
  }

  lemma LeavesDirectory(s: State, req: Request)
    requires !s.crashed && s.threads == map[] && s.shared.locks == {}
    requires req.Publish? && req.valid && req.path !in s.shared.table
    ensures Run(s, [Arrive(0, req)] + Advances(0, LeavingDirectory()))
         == State(s.shared.(table := s.shared.table[req.path := []]), map[0 := Failing(req, false)], false)
  {
    hide Own, Step, LeavingDirectory;
    assert ([Arrive(0, req)] + Advances(0, LeavingDirectory()))[1..] == Advances(0, LeavingDirectory());
    OwnLeavesDirectory(s.shared, req);
    OwnIsARun(Exec(s, Arrive(0, req)), 0, LeavingDirectory());
  }

  /** With its staging path bare, a publish can get to its bind: first past what is mounted on its own path. */
  lemma GetsToBind(s: State, req: Request) returns (more: seq<Action>)
    requires Quiet(s, 0) && Flat(s.shared.table) && req.Publish? && req.valid && BareDirectory(s.shared.table, req.staging)
    ensures From(more, iset{req}) && BindsBare(Run(s, more), 2)
  {
    hide Emptying, Advances;
    var last := [Arrive(2, req)] + Advances(2, Same(NO_FAULT, 4));
    AdvancesOnly(2, Same(NO_FAULT, 4));
    if req.path in s.shared.table && !Bare(s.shared.table[req.path]) {
      var first := EmptyingRun(1, req);
      EmptyingRunIsFrom(1, req);
      Empties(s, 1, req);
      ArrivesAtBind(Run(s, first), req);
      RunConcat(s, first, last);
      more := first + last;
    } else {
      ArrivesAtBind(s, req);
      more := last;
    }
  }

  lemma ArrivesAtBind(s: State, req: Request)
    requires !s.crashed && 2 !in s.threads && req.vol !in s.shared.locks && req.Publish? && req.valid
    requires BareDirectory(s.shared.table, req.staging)
    requires req.path in s.shared.table ==> Bare(s.shared.table[req.path])
    ensures BindsBare(Run(s, [Arrive(2, req)] + Advances(2, Same(NO_FAULT, 4))), 2)
  {
    hide Own, Step;
    assert ([Arrive(2, req)] + Advances(2, Same(NO_FAULT, 4)))[1..] == Advances(2, Same(NO_FAULT, 4));
    PublishMakesDirectory(s.shared, req);
    OwnIsARun(Exec(s, Arrive(2, req)), 2, Same(NO_FAULT, 4));
  }

  lemma SomeRunBindsBare(table: Table, requests: iset<Request>)
    requires Flat(table) && MayStack(table, requests)
    ensures !NeverBindsBare(table, requests)
  {
    var req :| req in requests && req.Publish? && req.valid && MayBeBare(table, requests, req.staging);
    hide Run, BindsBare, MayBeBare, Flat;
    var first := MakesBare(table, requests, req.staging);
    var more := GetsToBind(Run(Fresh(table), first), req);
    RunConcat(Fresh(table), first, more);
    assert From(first + more, requests);
    assert BindsBare(Run(Fresh(table), first + more), 2);
  }

  /**
   * When each path belongs to one volume, some run of some requests stacks mounts exactly when some valid publish names a
   * staging path that is a bare directory, or is there and is the path of a valid request, or is that of a valid publish.
   */
  lemma NeverStacksIff(table: Table, owner: Str -> Str, requests: iset<Request>)
    requires Flat(table) && forall req :: req in requests ==> owner(req.path) == req.vol
    ensures NeverStacks(table, requests) <==> !MayStack(table, requests)
  {
    hide Run, BindsBare, MayStack, NeverStacks, Flat;
    NeverStacksIffNeverBindsBare(table, owner, requests);
    if MayStack(table, requests) {
      SomeRunBindsBare(table, requests);
    } else {
      forall actions, id | From(actions, requests) ensures !BindsBare(Run(Fresh(table), actions), id) {
        CannotBindBare(table, requests, actions, id);
      }
    }
  }

  /** So an ordinary stage of a mounted path and a publish from it, by themselves, are enough. */
  lemma StageAndPublishMayStack(table: Table, owner: Str -> Str, stage: Request, publish: Request)
    requires Flat(table) && stage.Stage? && stage.valid && publish.Publish? && publish.valid
    requires publish.staging == stage.path && stage.path in table
    requires owner(stage.path) == stage.vol && owner(publish.path) == publish.vol
    ensures !NeverStacks(table, iset{stage, publish})
  {
    hide NeverStacks, Flat;
    NeverStacksIff(table, owner, iset{stage, publish});
    assert SomeValid(iset{stage, publish}, stage.path, false);
    assert MayBeBare(table, iset{stage, publish}, publish.staging);
  }
}
