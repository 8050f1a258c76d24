/** What a reply of Created is worth: when the pool it names is there. */
module ControllerPromise {
  import opened Bytes
  import opened Wrappers
  import opened VolumeSize
  import opened Credentials
  import opened VolumeOptions
  import opened Controller
  import opened ControllerInvariants
  import opened ControllerHistory
  import opened ControllerAlone
  import opened ControllerCalls
  import VolumeId

  // ---------- in every interleaving ----------

  /** The pool of a create that passes its checks. */
  ghost predicate CreatesPool(req: Request, pool: Pool) {
    && req.CreateVolume? && ADMIN_NAME in req.secrets && Fits(req.parameters, req.name, req.secrets[ADMIN_NAME])
    && pool == Pool(Lookup(req.parameters, CONFIG_BASE_PATH), req.secrets[ADMIN_NAME], CSI_VOL_NAMING_PREFIX + req.name)
  }

  /** A create that has settled on its answer, or given it. */
  predicate Answers(t: Thread) {
    (t.pc.Return? || t.pc.Finished?) && t.pc.resp.Created?
  }

  ghost predicate PromisesKept(s: State) {
    forall id, pool :: id in s.threads && Answers(s.threads[id]) && CreatesPool(s.threads[id].req, pool) ==>
      pool in s.shared.pools || SomeoneDeletes(s, pool)
  }

  /** A step that settles on Created has its pool there. */
  lemma SettlesWithPool(sh: Shared, t: Thread, c: Choice, pool: Pool)
    requires InShape(t) && CreatesPool(t.req, pool) && Answers(Step(sh, t, c).1) && !Answers(t)
    ensures pool in Step(sh, t, c).0.pools
  {
    hide RoundOffBytes, RoundUpGiB, VolumeId.Compose, DeleteStep, ExpandStep, NewVolOptionsFromVolID;
    if t.pc.CreateExists? || t.pc.CreateCommand? { CredentialsNameUser(t.req, t.pc.cr); }
  }

  lemma ExecKeepsPromises(s: State, a: Action)
    requires Inv(s) && PromisesKept(s)
    ensures PromisesKept(Exec(s, a))
  {
    var s' := Exec(s, a);
    ExecRemembers(s, a);
    hide Step, CreatesPool, AsksToDelete, AsksFor;
    forall id, pool | id in s'.threads && Answers(s'.threads[id]) && CreatesPool(s'.threads[id].req, pool)
      ensures pool in s'.shared.pools || SomeoneDeletes(s', pool)
    {
      if id in s.threads && Answers(s.threads[id]) {
        if SomeoneDeletes(s, pool) {
          var x :| x in s.threads && AsksToDelete(s.threads[x].req, pool);
          assert AsksToDelete(s'.threads[x].req, pool);
        } else if pool !in s'.shared.pools {
          StepTellsHistory(s.shared, s.threads[a.id], a.choice);
          assert false;
        }
      } else if id in s.threads {
        SettlesWithPool(s.shared, s.threads[id], a.choice, pool);
      }
    }
  }

  lemma {:induction false} RunKeepsPromises(s: State, actions: seq<Action>)
    requires Inv(s) && PromisesKept(s)
    ensures PromisesKept(Run(s, actions))
    decreases |actions|
  {
    if actions != [] {
      ExecKeepsInv(s, actions[0]);
      ExecKeepsPromises(s, actions[0]);
      hide Exec, Inv, PromisesKept;
      RunKeepsPromises(Exec(s, actions[0]), actions[1..]);
    }
  }

  /**
   * In every interleaving a create that answers or has answered Created has its pool there, unless a delete that
   * leads to it has arrived.
   */
  lemma CreatedIsThereOrDeleted(pools: map<Pool, int>, actions: seq<Action>, id: RequestId, pool: Pool)
    requires var s := Run(Fresh(pools), actions);
             id in s.threads && Answers(s.threads[id]) && CreatesPool(s.threads[id].req, pool)
    ensures var s := Run(Fresh(pools), actions);
            pool in s.shared.pools || SomeoneDeletes(s, pool)
  {
    RunKeepsPromises(Fresh(pools), actions);
  }

  // ---------- a delete goes through while a create answers ----------

  /** A delete by the answered ID is one that leads to the pool; there are others, in upper case or with more behind. */
  lemma AnsweredIdAsksToDelete(create: Request, delete: Request)
    requires Accepted(create) && Admin(create.secrets, 0, true).Ok?
    requires delete == DeleteVolume(true, Wanted(create).volID, create.secrets)
    ensures AsksToDelete(delete, PoolFor(create, Wanted(create)))
  {
    hide NewVolOptionsFromVolID, Fits, NewVolumeOptions;
    AnsweredIdLeadsToPool(create, None);
  }

  lemma AdminForAny(secrets: map<Str, Str>, f: FileName, g: FileName)
    requires Admin(secrets, f, true).Ok?
    ensures Admin(secrets, g, true).Ok? && Admin(secrets, f, true).value.userName == Admin(secrets, g, true).value.userName
    ensures ADMIN_NAME in secrets && Admin(secrets, g, true).value == Credentials(secrets[ADMIN_NAME], g)
  {
  }

  lemma DeletableHasId(req: Request, pool: Pool)
    requires AsksToDelete(req, pool)
    ensures req.volumeId != []
  {
    VolumeId.PanicIff([]);
  }

  /** Whenever the ID it locks is free, a delete that leads to a pool can run from end to end and take the pool away. */
  lemma DeleteGoesThrough(s: State, b: RequestId, delete: Request, pool: Pool, file: FileName)
    requires !s.crashed && b !in s.threads && AsksToDelete(delete, pool)
    requires delete.volumeId !in s.shared.locks && file !in s.shared.keys
    ensures var s' := Run(s, [Arrive(b, delete)] + Advances(b, seq(10, _ => Calm(file))));
            && !s'.crashed && s'.shared == s.shared.(pools := s.shared.pools - {pool})
            && b in s'.threads && s'.threads == s.threads[b := s'.threads[b]] && s'.threads[b].pc == Finished(Deleted)
  {
    hide Own, Step, NewVolOptionsFromVolID, Admin;
    var outside, s1 := seq(10, _ => Calm(file)), s.(threads := s.threads[b := Start(delete)]);
    assert ([Arrive(b, delete)] + Advances(b, outside))[1..] == Advances(b, outside);
    assert Run(s, [Arrive(b, delete)] + Advances(b, outside)) == Run(s1, Advances(b, outside));
    DeleteRemoves(s.shared, delete, pool, file);
    OwnIsARun(s1, b, outside);
    var done := Own(s.shared, Start(delete), outside).1;
    assert s1.threads[b := done] == s.threads[b := done];
  }

  lemma DeleteRemoves(sh: Shared, delete: Request, pool: Pool, file: FileName)
    requires AsksToDelete(delete, pool) && delete.volumeId !in sh.locks && file !in sh.keys
    ensures Call(sh, delete, file) == (sh.(pools := sh.pools - {pool}), Finished(Deleted))
  {
    hide Call, NewVolOptionsFromVolID;
    DeletableHasId(delete, pool);
    AdminForAny(delete.secrets, 0, file);
    DeleteCall(sh, delete, file, NewVolOptionsFromVolID(delete.volumeId, None).value);
  }

  /** A create gets as far as its existence check. */
  lemma OwnReachesCheck(sh: Shared, req: Request, file: FileName)
    requires Accepted(req) && Free(sh, req, file)
    ensures Own(sh, Start(req), seq(5, _ => Calm(file)))
         == (sh.(keys := sh.keys + {file}, locks := sh.locks + {req.name}),
             ThreadState(req, CreateExists(Credentials(User(req), file), Wanted(req)),
                         [DeleteKey(file), ReleaseLock(req.name)]))
  {
    hide Own, RoundOffBytes, Admin, Fits, NewVolumeOptions, DeleteStep, ExpandStep;
    var outside := seq(5, _ => Calm(file));
    CreateGetsLock(sh, req, file, outside);
    var cr, defers := Credentials(User(req), file), [DeleteKey(file), ReleaseLock(req.name)];
    var held := sh.(keys := sh.keys + {file}, locks := sh.locks + {req.name});
    OwnStep(held, ThreadState(req, CreateOptions(cr), defers), outside, 4);
    OwnNothing(held, ThreadState(req, CreateExists(cr, Wanted(req)), defers));
    assert outside[5..] == [];
  }

  lemma OwnNothing(sh: Shared, t: Thread)
    ensures Own(sh, t, []) == (sh, t)
  {
  }

  lemma CreateReachesCheck(sh: Shared, req: Request, file: FileName)
    requires Accepted(req) && Free(sh, req, file)
    ensures var t := ThreadState(req, CreateExists(Credentials(User(req), file), Wanted(req)),
                                 [DeleteKey(file), ReleaseLock(req.name)]);
            Run(State(sh, map[], false), [Arrive(0, req)] + Advances(0, seq(5, _ => Calm(file))))
            == State(sh.(keys := sh.keys + {file}, locks := sh.locks + {req.name}), map[0 := t], false)
  {
    hide Own, Step, Fits, NewVolumeOptions, Admin;
    var steps, s1 := Advances(0, seq(5, _ => Calm(file))), Exec(State(sh, map[], false), Arrive(0, req));
    assert ([Arrive(0, req)] + steps)[1..] == steps;
    OwnReachesCheck(sh, req, file);
    OwnIsARun(s1, 0, seq(5, _ => Calm(file)));
  }

  /** From there a step or two settle on Created. */
  function SettlingSteps(pool: Pool, pools: map<Pool, int>): seq<Action> {
    if pool in pools then [Advance(0, Calm(0))] else [Advance(0, Calm(0)), Advance(0, Calm(0))]
  }

  lemma CreateSettles(s: State, req: Request, defers: seq<Deferred>) returns (pools: map<Pool, int>)
    requires Accepted(req) && !s.crashed
    requires s.threads == map[0 := ThreadState(req, CreateExists(Credentials(User(req), 0), Wanted(req)), defers)]
    ensures var resp := Created(Wanted(req).volID, CreateReported(req.required));
            Run(s, SettlingSteps(PoolFor(req, Wanted(req)), s.shared.pools))
            == State(s.shared.(pools := pools), map[0 := ThreadState(req, Return(resp), defers)], false)
  {
    hide NewVolumeOptions, Wanted, Fits, RoundOffBytes, RoundUpGiB, DeleteStep, ExpandStep;
    var a, s1 := Advance(0, Calm(0)), Exec(s, Advance(0, Calm(0)));
    pools := if PoolFor(req, Wanted(req)) in s.shared.pools then s.shared.pools else Exec(s1, a).shared.pools;
    assert [a][1..] == [] && [a, a][1..] == [a];
    assert Run(s, [a]) == Run(s1, []) && Run(s, [a, a]) == Run(s1, [a]) == Run(Exec(s1, a), []);
  }

  /** A settled request gives back its lock and its key file and then replies. */
  lemma AnswerGoesOut(s: State, id: RequestId, c: Choice)
    requires !s.crashed && id in s.threads && s.threads[id].pc.Return? && |s.threads[id].defers| == 2
    ensures var s' := Run(s, [Advance(id, c), Advance(id, c)]);
            && !s'.crashed && s'.shared.pools == s.shared.pools && id in s'.threads
            && s'.threads[id] == s.threads[id].(defers := [])
            && Exec(s', Advance(id, c)).threads[id].pc == Finished(s.threads[id].pc.resp)
            && Exec(s', Advance(id, c)).shared.pools == s.shared.pools
  {
    hide CreateStep, DeleteStep, ExpandStep;
    var a := Advance(id, c);
    assert [a, a][1..] == [a] && [a][1..] == [];
    assert Run(Exec(s, a), [a]) == Exec(Exec(s, a), a);
  }

  /** The lock of a create is its name, of which any ID that leads to its pool holds more. */
  lemma DeleteLocksElsewhere(create: Request, delete: Request)
    requires Accepted(create) && AsksToDelete(delete, PoolFor(create, Wanted(create)))
    ensures delete.volumeId != create.name
  {
    hide VolumeId.Decode, VolumeId.Compose, RoundOffBytes;
    if delete.volumeId == create.name { VolumeId.DecodedIsShorter(delete.volumeId); }
  }

  // ---------- exactly when the promise is kept ----------

  ghost predicate From(actions: seq<Action>, requests: iset<Request>) {
    forall i :: 0 <= i < |actions| && actions[i].Arrive? ==> actions[i].req in requests
  }

  /** The action at which a create replies Created. */
  ghost predicate RepliesCreated(s: State, a: Action, create: Request) {
    && !s.crashed && a.Advance? && a.id in s.threads && s.threads[a.id].req == create
    && s.threads[a.id].pc.Return? && s.threads[a.id].pc.resp.Created? && Exec(s, a).threads[a.id].pc.Finished?
  }

  /** Whenever a create replies Created, its pool is there. */
  ghost predicate KeepsPromise(pools: map<Pool, int>, requests: iset<Request>, create: Request)
    requires Accepted(create)
  {
    forall actions, a :: From(actions, requests) && RepliesCreated(Run(Fresh(pools), actions), a, create) ==>
      PoolFor(create, Wanted(create)) in Exec(Run(Fresh(pools), actions), a).shared.pools
  }

  /**
   * A create and any delete that leads to its pool have a run that ends with a reply of Created for a pool that
   * is gone.
   */
  lemma CreateMayAnswerForMissingPool(pools: map<Pool, int>, create: Request, delete: Request)
      returns (actions: seq<Action>, a: Action)
    requires Accepted(create) && Admin(create.secrets, 0, true).Ok?
    requires AsksToDelete(delete, PoolFor(create, Wanted(create)))
    ensures From(actions, iset{create, delete}) && RepliesCreated(Run(Fresh(pools), actions), a, create)
    ensures PoolFor(create, Wanted(create)) !in Exec(Run(Fresh(pools), actions), a).shared.pools
  {
    hide RoundOffBytes, Admin, Fits, NewVolumeOptions, Wanted, AsksToDelete, Exec, Own, Advances, Run, From, PoolFor;
    var s, pool := Fresh(pools), PoolFor(create, Wanted(create));
    var before, made := CreateAboutToAnswer(pools, create);
    var s2 := Run(s, before);
    DeleteLocksElsewhere(create, delete);
    DeleteGoesThrough(s2, 1, delete, pool, 1);
    var gone := [Arrive(1, delete)] + Advances(1, seq(10, _ => Calm(1)));
    a := Advance(0, Calm(0));
    AnswerGoesOut(Run(s2, gone), 0, Calm(0));
    actions := before + gone + [a, a];
    RunConcat(s, before, gone);
    RunConcat(s, before + gone, [a, a]);
    OnlyTheseArrive(before, create, delete, seq(10, _ => Calm(1)), a);
  }

  /** The create alone gets as far as its answer. */
  lemma CreateAboutToAnswer(pools: map<Pool, int>, create: Request) returns (before: seq<Action>, made: map<Pool, int>)
    requires Accepted(create) && Admin(create.secrets, 0, true).Ok?
    ensures From(before, iset{create})
    ensures var resp := Created(Wanted(create).volID, CreateReported(create.required));
            Run(Fresh(pools), before)
            == State(Shared({create.name}, made, {0}),
                     map[0 := ThreadState(create, Return(resp), [DeleteKey(0), ReleaseLock(create.name)])], false)
  {
    hide RoundOffBytes, Admin, Fits, NewVolumeOptions, Wanted, Exec, Step, Own, PoolFor;
    var s := Fresh(pools);
    var reach := [Arrive(0, create)] + Advances(0, seq(5, _ => Calm(0)));
    CreateReachesCheck(s.shared, create, 0);
    var s1 := Run(s, reach);
    made := CreateSettles(s1, create, s1.threads[0].defers);
    var settle := SettlingSteps(PoolFor(create, Wanted(create)), pools);
    before := reach + settle;
    RunConcat(s, reach, settle);
    AdvancesOnly(0, seq(5, _ => Calm(0)));
  }

  lemma OnlyTheseArrive(before: seq<Action>, create: Request, delete: Request, outside: seq<Choice>, a: Action)
    requires From(before, iset{create}) && a.Advance?
    ensures From(before + ([Arrive(1, delete)] + Advances(1, outside)) + [a, a], iset{create, delete})
  {
    AdvancesOnly(1, outside);
  }

  lemma {:induction false} AdvancesOnly(id: RequestId, outside: seq<Choice>)
    ensures forall i :: 0 <= i < |Advances(id, outside)| ==> Advances(id, outside)[i].Advance?
    decreases |outside|
  {
    if outside != [] { AdvancesOnly(id, outside[1..]); }
  }

  lemma {:induction false} RequestsComeFrom(s: State, actions: seq<Action>, requests: iset<Request>)
    requires From(actions, requests) && forall x :: x in s.threads ==> s.threads[x].req in requests
    ensures forall x :: x in Run(s, actions).threads ==> Run(s, actions).threads[x].req in requests
    decreases |actions|
  {
    if actions != [] {
      hide Step;
      assert forall x :: x in Exec(s, actions[0]).threads ==> Exec(s, actions[0]).threads[x].req in requests;
      RequestsComeFrom(Exec(s, actions[0]), actions[1..], requests);
    }
  }

  /**
   * Among some requests, a create can rely on every reply of Created, in all their runs from any pools, exactly when none
   * of them is a delete that is not rejected and leads to its pool.
   */
  lemma PromiseKeptIff(pools: map<Pool, int>, requests: iset<Request>, create: Request)
    requires Accepted(create) && Admin(create.secrets, 0, true).Ok? && create in requests
    ensures KeepsPromise(pools, requests, create)
       <==> forall req :: req in requests ==> !AsksToDelete(req, PoolFor(create, Wanted(create)))
  {
    hide Run, Exec, AsksToDelete, RepliesCreated, Admin, Fits, Wanted, PoolFor, From;
    if delete :| delete in requests && AsksToDelete(delete, PoolFor(create, Wanted(create))) {
      var actions, a := CreateMayAnswerForMissingPool(pools, create, delete);
      StillFrom(actions, iset{create, delete}, requests);
    } else {
      forall actions, a | From(actions, requests) && RepliesCreated(Run(Fresh(pools), actions), a, create)
        ensures PoolFor(create, Wanted(create)) in Exec(Run(Fresh(pools), actions), a).shared.pools
      {
        ReliesOnCreated(pools, requests, create, actions, a);
      }
    }
  }

  lemma StillFrom(actions: seq<Action>, some: iset<Request>, all: iset<Request>)
    requires From(actions, some) && some <= all
    ensures From(actions, all)
  {
  }

  lemma WantsItsPool(create: Request)
    requires Accepted(create)
    ensures CreatesPool(create, PoolFor(create, Wanted(create)))
  {
    hide VolumeId.Compose, RoundOffBytes, Fits;
  }

  lemma ReliesOnCreated(pools: map<Pool, int>, requests: iset<Request>, create: Request, actions: seq<Action>, a: Action)
    requires Accepted(create) && From(actions, requests) && RepliesCreated(Run(Fresh(pools), actions), a, create)
    requires forall req :: req in requests ==> !AsksToDelete(req, PoolFor(create, Wanted(create)))
    ensures PoolFor(create, Wanted(create)) in Exec(Run(Fresh(pools), actions), a).shared.pools
  {
    hide AsksToDelete, NewVolumeOptions, Fits, CreateStep, DeleteStep, ExpandStep;
    var s, pool := Run(Fresh(pools), actions), PoolFor(create, Wanted(create));
    RequestsComeFrom(Fresh(pools), actions, requests);
    WantsItsPool(create);
    CreatedIsThereOrDeleted(pools, actions, a.id, pool);
  }

  lemma {:induction false} RunConcat(s: State, a: seq<Action>, b: seq<Action>)
    ensures Run(s, a + b) == Run(Run(s, a), b)
    decreases |a|
  {
    if a == [] {
      assert a + b == b;
    } else {
      assert (a + b)[1..] == a[1..] + b;
      RunConcat(Exec(s, a[0]), a[1..], b);
    }
  }
}
