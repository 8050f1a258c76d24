/** Every answer of the node service, and exactly when it is given. */
module NodeAnswers {
  import opened Bytes
  import opened Wrappers
  import opened VolumeOptions
  import opened Node
  import opened NodeInvariants
  import opened NodeTheorems
  import opened NodeAlone
  import opened NodeVolumes
  import opened NodeStacking
  import opened NodeCalls
  import VolumeId

  // ---------- in every interleaving: what an answer says of its request ----------

  ghost predicate AllRight(s: State) {
    forall id :: id in s.threads ==> RightPc(s.threads[id])
  }

  lemma ExecKeepsRight(s: State, a: Action)
    requires AllRight(s)
    ensures AllRight(Exec(s, a))
  {
    hide Step, RightPc;
    if a.Advance? && a.id in s.threads { StepKeepsRight(s.shared, s.threads[a.id], a.choice); }
    if a.Arrive? { StartIsRight(a.req); }
  }

  lemma {:induction false} RunKeepsRight(s: State, actions: seq<Action>)
    requires AllRight(s)
    ensures AllRight(Run(s, actions))
    decreases |actions|
  {
    if actions != [] {
      ExecKeepsRight(s, actions[0]);
      hide Exec, AllRight;
      RunKeepsRight(Exec(s, actions[0]), actions[1..]);
    }
  }

  /**
   * Whatever the table and the paths: a success says that the request was valid; a panic, that it was a stage with an ID
   * on which the parser panics; NotFound, that it was an unstage; and InvalidArgument, that it was not valid or a stage.
   */
  lemma AnswersSay(table: Table, actions: seq<Action>, id: RequestId)
    requires id in Run(Fresh(table), actions).threads
    requires var pc := Run(Fresh(table), actions).threads[id].pc; pc.Return? || pc.Finished?
    ensures var t := Run(Fresh(table), actions).threads[id];
            match t.pc.resp
            case Panicked => t.req.Stage? && t.req.valid && VolumeId.AtSomeField(t.req.vol, VolumeId.OverrunsAt)
            case Failed(InvalidArgument) => !t.req.valid || t.req.Stage?
            case Failed(NotFound) => t.req.valid && t.req.Unstage?
            case _ => t.req.valid
  {
    RunKeepsRight(Fresh(table), actions);
    var t := Run(Fresh(table), actions).threads[id];
    assert RightPc(t);
    hide Run, StageOptions, VolumeId.AtSomeField;
    if t.req.Stage? { StageOptionsIff(t.req.vol, t.req.context); }
  }

  /** Only a stage whose options can be made ever gives the mount command. */
  lemma OnlyUsableMounts(table: Table, actions: seq<Action>, id: RequestId)
    requires id in Run(Fresh(table), actions).threads && Run(Fresh(table), actions).threads[id].pc.FuseMount?
    ensures var req := Run(Fresh(table), actions).threads[id].req;
            req.Stage? && req.valid && Usable(req.vol, req.context)
  {
    RunKeepsRight(Fresh(table), actions);
    var t := Run(Fresh(table), actions).threads[id];
    assert RightPc(t);
    hide Run, StageOptions, Usable;
    StageOptionsIff(t.req.vol, t.req.context);
  }

  /** Whoever ends the process is a stage with an ID on which the parser panics. */
  lemma CrashOnlyByBadId(table: Table, actions: seq<Action>)
    requires Run(Fresh(table), actions).crashed
    ensures var s := Run(Fresh(table), actions);
            exists id :: id in s.threads && s.threads[id].req.Stage?
                         && VolumeId.AtSomeField(s.threads[id].req.vol, VolumeId.OverrunsAt)
  {
    var id := CrashHasCulprit(Fresh(table), actions);
    AnswersSay(table, actions, id);
  }

  lemma {:induction false} CrashHasCulprit(s: State, actions: seq<Action>) returns (id: RequestId)
    requires !s.crashed && Run(s, actions).crashed
    ensures id in Run(s, actions).threads && Run(s, actions).threads[id].pc == Finished(Panicked)
    decreases |actions|
  {
    hide Step;
    var a, s1 := actions[0], Exec(s, actions[0]);
    if s1.crashed {
      CrashedStays(s1, actions[1..]);
      id := a.id;
    } else {
      id := CrashHasCulprit(s1, actions[1..]);
    }
  }

  // ---------- in every interleaving: which step gives which answer ----------

  /** Aborted is the answer exactly of a request that comes to its lock while another request in flight holds it. */
  lemma AbortedIff(table: Table, actions: seq<Action>, id: RequestId, c: Choice)
    requires var s := Run(Fresh(table), actions);
             !s.crashed && id in s.threads && !s.threads[id].pc.Return? && !s.threads[id].pc.Finished?
    ensures var s := Run(Fresh(table), actions);
            && id in Exec(s, Advance(id, c)).threads
            && (Exec(s, Advance(id, c)).threads[id].pc == Return(Failed(Aborted))
                <==> s.threads[id].pc.TryLock?
                     && exists x :: x != id && x in s.threads && s.threads[x].locked
                                    && s.threads[x].req.vol == s.threads[id].req.vol)
  {
    var s := Run(Fresh(table), actions);
    RunKeepsLocks(Fresh(table), actions);
    var t := s.threads[id];
    AbortsAtLock(s.shared, t, c);
    assert PhaseOk(t);
    hide Step, Run;
    if t.req.vol in s.shared.locks {
      var x :| Holds(s, x, t.req.vol);
    }
    assert forall x :: x in s.threads && s.threads[x].locked && s.threads[x].req.vol == t.req.vol ==> Holds(s, x, t.req.vol);
  }

  lemma AbortsAtLock(sh: Shared, t: Thread, c: Choice)
    requires !t.pc.Return? && !t.pc.Finished?
    ensures Step(sh, t, c).1.pc == Return(Failed(Aborted)) <==> t.pc.TryLock? && t.req.vol in sh.locks
  {
    hide StageOptions, Look, IsCorruptedDir, CanRead, Unmounted, WithDirectory, WithMount, Source, Removed;
  }

  /** Which step of a request settles on which answer; all other answers are Internal. */
  lemma SettlesIff(sh: Shared, t: Thread, c: Choice)
    requires RightPc(t) && !t.pc.Return? && !t.pc.Finished?
    ensures var (sh', t') := Step(sh, t, c);
            var p := t.req.path;
            && (t'.pc == Return(Succeeded) <==>
                  match t.pc
                  case ReadDir => !c.ioError && p in sh.table && (sh.table[p] == [] || Top(sh.table[p]).Readable())
                  case FuseMount => p in sh.table && !c.fails
                  case BindMount => p in sh.table && !c.fails && Source(sh.table, Staging(t.req), c).Some?
                  case CheckMounted => !c.ioError && p in sh.table && Bare(sh.table[p])
                  case CleanupExists => !c.ioError && p !in sh.table
                  case CleanupRemove => p in sh.table && sh.table[p] == [] && !c.fails
                  case RemoveUnmounted => p in sh.table ==> sh.table[p] == [] && !c.fails
                  case _ => false)
            && (t'.pc == Return(Failed(InvalidArgument))
                <==> t.pc.Validate? && (!t.req.valid || (t.req.Stage? && p !in sh.table)))
            && (t'.pc == Return(Failed(NotFound)) <==> t.pc.CheckMounted? && !c.ioError && p !in sh.table)
            && (t'.pc == Return(Panicked) <==> t.pc.MakeOptions? && VolumeId.AtSomeField(t.req.vol, VolumeId.OverrunsAt))
            && !t'.pc.Finished?
  {
    hide EnsureStep, MountStep, UnmountStep, StageOptions, VolumeId.AtSomeField;
    StageOptionsIff(t.req.vol, Context(t.req));
    if t.pc.OfEnsure() { EnsureSettles(sh, t, c); }
    else if t.pc.OfMount() { MountSettles(sh, t, c); }
    else if t.pc.OfUnmount() { UnmountSettles(sh, t, c); }
  }

  function Context(req: Request): map<Str, Str> {
    if req.Stage? then req.context else map[]
  }

  lemma EnsureSettles(sh: Shared, t: Thread, c: Choice)
    requires t.pc.OfEnsure()
    ensures var t', p := EnsureStep(sh, t, c).1, t.req.path;
            && (t'.pc == Return(Succeeded) <==> t.pc.ReadDir? && !c.ioError && p in sh.table
                                                && (sh.table[p] == [] || Top(sh.table[p]).Readable()))
            && t'.pc != Return(Failed(InvalidArgument)) && t'.pc != Return(Failed(NotFound)) && t'.pc != Return(Panicked)
            && !t'.pc.Finished?
  {
  }

  lemma MountSettles(sh: Shared, t: Thread, c: Choice)
    requires t.pc.OfMount()
    ensures var t', p := MountStep(sh, t, c).1, t.req.path;
            && (t'.pc == Return(Succeeded) <==>
                  p in sh.table && !c.fails
                  && (t.pc.FuseMount? || (t.pc.BindMount? && Source(sh.table, Staging(t.req), c).Some?)))
            && (t'.pc == Return(Panicked) <==> t.pc.MakeOptions? && StageOptions(t.req.vol, Context(t.req)).Panic?)
            && t'.pc != Return(Failed(InvalidArgument)) && t'.pc != Return(Failed(NotFound)) && !t'.pc.Finished?
  {
    hide StageOptions;
  }

  lemma UnmountSettles(sh: Shared, t: Thread, c: Choice)
    requires t.pc.OfUnmount()
    ensures var t', p := UnmountStep(sh, t, c).1, t.req.path;
            && (t'.pc == Return(Succeeded) <==>
                  match t.pc
                  case CheckMounted => !c.ioError && p in sh.table && Bare(sh.table[p])
                  case CleanupExists => !c.ioError && p !in sh.table
                  case CleanupRemove => p in sh.table && sh.table[p] == [] && !c.fails
                  case RemoveUnmounted => p in sh.table ==> sh.table[p] == [] && !c.fails
                  case _ => false)
            && (t'.pc == Return(Failed(NotFound)) <==> t.pc.CheckMounted? && !c.ioError && p !in sh.table)
            && t'.pc != Return(Failed(InvalidArgument)) && t'.pc != Return(Panicked) && !t'.pc.Finished?
  {
  }

  /** A step that meets a fault: a change that fails, or a look that a request cannot do without. */
  predicate MeetsFault(s: State, a: Action) {
    && !s.crashed && a.Advance? && a.id in s.threads
    && match s.threads[a.id].pc
       case UnmountInvalid => a.choice.fails
       case MakeDirectory => a.choice.fails
       case FuseMount => a.choice.fails
       case BindMount => a.choice.fails
       case RemoveUnbound => true
       case CleanupUnmount => a.choice.fails
       case CleanupRemove => a.choice.fails
       case Umount => a.choice.fails
       case RemoveUnmounted => a.choice.fails && s.threads[a.id].req.path in s.shared.table
       case ProbeCorrupted => a.choice.ioError
       case ReadDir => a.choice.ioError
       case CheckMounted => a.choice.ioError
       case CleanupExists => a.choice.ioError
       case CleanupProbe => a.choice.ioError
       case CleanupRecheck => a.choice.ioError
       case _ => false
  }

  /** All that is left to a request is to clean up and answer Internal. */
  ghost predicate Doomed(s: State, id: RequestId) {
    && id in s.threads
    && (s.threads[id].pc.UnmountInvalid? || s.threads[id].pc.RemoveUnbound?
        || s.threads[id].pc == Return(Failed(Internal)) || s.threads[id].pc == Finished(Failed(Internal)))
  }

  lemma FaultDooms(s: State, a: Action)
    requires MeetsFault(s, a)
    ensures Doomed(Exec(s, a), a.id)
  {
    hide StageOptions;
  }

  lemma DoomedStep(s: State, a: Action, id: RequestId)
    requires Doomed(s, id)
    ensures Doomed(Exec(s, a), id)
  {
    hide UnmountStep, StageOptions, Look, IsCorruptedDir, CanRead;
  }

  lemma {:induction false} DoomedStays(s: State, actions: seq<Action>, id: RequestId)
    requires Doomed(s, id)
    ensures Doomed(Run(s, actions), id)
    decreases |actions|
  {
    if actions != [] {
      DoomedStep(s, actions[0], id);
      hide Exec, Doomed;
      DoomedStays(Exec(s, actions[0]), actions[1..], id);
    }
  }

  /** In every interleaving, a request that has met a fault answers Internal, if it answers. */
  lemma FaultIsAnswered(s: State, a: Action, rest: seq<Action>)
    requires MeetsFault(s, a)
    ensures var end := Run(Exec(s, a), rest);
            && a.id in end.threads
            && (end.threads[a.id].pc.Return? || end.threads[a.id].pc.Finished? ==>
                  end.threads[a.id].pc.resp == Failed(Internal))
  {
    FaultDooms(s, a);
    hide Exec, MeetsFault;
    DoomedStays(Exec(s, a), rest, a.id);
  }

  // ---------- by itself and without faults: every answer, for every request on every table ----------

  lemma CallRejected(sh: Shared, req: Request)
    requires !req.valid || (req.Stage? && req.path !in sh.table)
    ensures Call(sh, req) == (sh, Finished(Failed(InvalidArgument)))
  {
    hide Own, EnsureStep, MountStep, UnmountStep;
    OwnNext(sh, Start(req), 10);
    OwnNext(sh, Thread(req, Return(Failed(InvalidArgument)), false), 9);
    OwnFinished(sh, Thread(req, Finished(Failed(InvalidArgument)), false), Same(NO_FAULT, 8));
  }

  lemma CallAborted(sh: Shared, req: Request)
    requires req.valid && (req.Stage? ==> req.path in sh.table) && req.vol in sh.locks
    ensures Call(sh, req) == (sh, Finished(Failed(Aborted)))
  {
    hide Own, EnsureStep, MountStep, UnmountStep;
    OwnNext(sh, Start(req), 10);
    OwnNext(sh, Thread(req, TryLock, false), 9);
    OwnNext(sh, Thread(req, Return(Failed(Aborted)), false), 8);
    OwnFinished(sh, Thread(req, Finished(Failed(Aborted)), false), Same(NO_FAULT, 7));
  }

  /** A stage of a path where no mount shows comes to its options. */
  lemma StageGetsToOptions(sh: Shared, req: Request)
    requires req.Stage? && Enters(sh, req) && Bare(sh.table[req.path])
    ensures Own(sh, Start(req), Same(NO_FAULT, 10))
         == Own(sh.(locks := sh.locks + {req.vol}), Thread(req, MakeOptions, true), Same(NO_FAULT, 6))
  {
    hide Own, StageOptions;
    OwnEnters(sh, req);
    var held := sh.(locks := sh.locks + {req.vol});
    OwnNext(held, Thread(req, Probe, true), 8);
    OwnNext(held, Thread(req, MakeDirectory, true), 7);
  }

  /**
   * A stage of a path where no mount shows succeeds, with its volume mounted there, exactly if its ID and context are
   * usable; it panics exactly if the parser does; and otherwise answers Internal. In those two cases nothing is changed.
   */
  lemma StageOfBare(sh: Shared, req: Request)
    requires req.Stage? && Enters(sh, req) && Bare(sh.table[req.path])
    ensures Call(sh, req)
         == if Usable(req.vol, req.context)
            then (WithLayers(sh, req.path, sh.table[req.path] + [Staged(req)]), Finished(Succeeded))
            else if VolumeId.AtSomeField(req.vol, VolumeId.OverrunsAt) then (sh, Finished(Panicked))
            else (sh, Finished(Failed(Internal)))
  {
    hide Own, StageOptions, Usable, VolumeId.AtSomeField, EnsureStep, UnmountStep;
    StageOptionsIff(req.vol, req.context);
    StageGetsToOptions(sh, req);
    LockAndFree(sh.locks, req.vol);
    var held := sh.(locks := sh.locks + {req.vol});
    OwnNext(held, Thread(req, MakeOptions, true), 6);
    if Usable(req.vol, req.context) {
      OwnNext(held, Thread(req, FuseMount, true), 5);
      assert WithLayers(sh, req.path, Layers(sh, req.path)).table == sh.table;
      MountsAndLeaves(sh, held, req, Staged(req), 4);
    } else if VolumeId.AtSomeField(req.vol, VolumeId.OverrunsAt) {
      OwnLeaves(held, req, Panicked, 5);
    } else {
      OwnLeaves(held, req, Failed(Internal), 5);
    }
  }

  /** Every answer of a stage, and the table it leaves. */
  lemma StageAnswers(sh: Shared, req: Request)
    requires req.Stage?
    ensures Call(sh, req)
         == if !req.valid || req.path !in sh.table then (sh, Finished(Failed(InvalidArgument)))
            else if req.vol in sh.locks then (sh, Finished(Failed(Aborted)))
            else
              var layers := sh.table[req.path];
              if Broken(layers) then (WithLayers(sh, req.path, Pop(layers)), Finished(Failed(Internal)))
              else if !Bare(layers) then (sh, Finished(Succeeded))
              else if Usable(req.vol, req.context)
              then (WithLayers(sh, req.path, layers + [Staged(req)]), Finished(Succeeded))
              else if VolumeId.AtSomeField(req.vol, VolumeId.OverrunsAt) then (sh, Finished(Panicked))
              else (sh, Finished(Failed(Internal)))
  {
    hide Call, Usable, VolumeId.AtSomeField;
    if !req.valid || req.path !in sh.table { CallRejected(sh, req); }
    else if req.vol in sh.locks { CallAborted(sh, req); }
    else if Broken(sh.table[req.path]) { CallOnBroken(sh, req); }
    else if !Bare(sh.table[req.path]) { CallOnHealthy(sh, req); }
    else { StageOfBare(sh, req); }
  }

  /** What a publish finds at its staging path once its own directory is there. */
  function Found(sh: Shared, req: Request): Option<Layer>
    requires req.Publish?
  {
    Source(if req.path in sh.table then sh.table else sh.table[req.path := []], req.staging, NO_FAULT)
  }

  lemma PublishGetsToBind(sh: Shared, req: Request)
    requires req.Publish? && Enters(sh, req) && Bare(Layers(sh, req.path))
    ensures Own(sh, Start(req), Same(NO_FAULT, 10))
         == Own(WithLayers(sh, req.path, Layers(sh, req.path)).(locks := sh.locks + {req.vol}), Thread(req, BindMount, true),
                Same(NO_FAULT, 6))
  {
    hide Own, StageOptions;
    OwnEnters(sh, req);
    var held := sh.(locks := sh.locks + {req.vol});
    OwnNext(held, Thread(req, Probe, true), 8);
    OwnNext(held, Thread(req, MakeDirectory, true), 7);
    assert req.path in sh.table ==> WithLayers(sh, req.path, Layers(sh, req.path)).table == sh.table;
  }

  /**
   * A publish to a path where no mount shows binds what it finds at its staging path. If it finds nothing that can be
   * bound it answers Internal, and its path is gone unless something is mounted on it; all else is as it was.
   */
  lemma PublishOfBare(sh: Shared, req: Request)
    requires req.Publish? && Enters(sh, req) && Bare(Layers(sh, req.path))
    ensures Call(sh, req)
         == match Found(sh, req)
            case Some(layer) => (WithLayers(sh, req.path, Layers(sh, req.path) + [layer]), Finished(Succeeded))
            case None => (if Layers(sh, req.path) == [] then Without(sh, req.path) else sh, Finished(Failed(Internal)))
  {
    hide Own, StageOptions, EnsureStep, UnmountStep;
    PublishGetsToBind(sh, req);
    LockAndFree(sh.locks, req.vol);
    var layers := Layers(sh, req.path);
    var made := WithLayers(sh, req.path, layers).(locks := sh.locks + {req.vol});
    assert req.path in sh.table ==> made.table == sh.table;
    OwnNext(made, Thread(req, BindMount, true), 6);
    match Found(sh, req)
    case Some(layer) => MountsAndLeaves(sh, made, req, layer, 5);
    case None =>
      OwnNext(made, Thread(req, RemoveUnbound, true), 5);
      if layers == [] {
        assert made.table - {req.path} == sh.table - {req.path};
        OwnLeaves(made.(table := sh.table - {req.path}), req, Failed(Internal), 4);
      } else {
        OwnLeaves(made, req, Failed(Internal), 4);
      }
  }

  /** Every answer of a publish, and the table it leaves. */
  lemma PublishAnswers(sh: Shared, req: Request)
    requires req.Publish?
    ensures Call(sh, req)
         == if !req.valid then (sh, Finished(Failed(InvalidArgument)))
            else if req.vol in sh.locks then (sh, Finished(Failed(Aborted)))
            else
              var layers := Layers(sh, req.path);
              if Broken(layers) then (WithLayers(sh, req.path, Pop(layers)), Finished(Failed(Internal)))
              else if !Bare(layers) then (sh, Finished(Succeeded))
              else
                match Found(sh, req)
                case Some(layer) => (WithLayers(sh, req.path, layers + [layer]), Finished(Succeeded))
                case None => (if layers == [] then Without(sh, req.path) else sh, Finished(Failed(Internal)))
  {
    hide Call, Found;
    if !req.valid { CallRejected(sh, req); }
    else if req.vol in sh.locks { CallAborted(sh, req); }
    else if Broken(Layers(sh, req.path)) { CallOnBroken(sh, req); }
    else if !Bare(Layers(sh, req.path)) { CallOnHealthy(sh, req); }
    else { PublishOfBare(sh, req); }
  }

  /** So a publish whose staging path is missing or unreachable leaves no directory of its own behind. */
  lemma UnboundLeavesNothing(sh: Shared, req: Request)
    requires req.Publish? && Enters(sh, req) && Layers(sh, req.path) == [] && req.staging != req.path
    requires req.staging !in sh.table || (sh.table[req.staging] != [] && Top(sh.table[req.staging]).Dead())
    ensures Call(sh, req) == (Without(sh, req.path), Finished(Failed(Internal)))
    ensures req.path !in sh.table ==> Without(sh, req.path) == sh
  {
    hide Call;
    PublishOfBare(sh, req);
    assert req.path !in sh.table ==> sh.table - {req.path} == sh.table;
  }

  /**
   * When a bind fails its path is removed if it can be. When the second of its commands fails the mount is in place, so
   * the path cannot be removed and both stay. The answer is Internal either way.
   */
  lemma FailedBind(sh: Shared, req: Request, bind: Choice, remove: Choice)
    requires req.Publish? && req.path in sh.table && (bind.fails || Source(sh.table, req.staging, bind).None?)
    ensures var source, layers := Source(sh.table, req.staging, bind), sh.table[req.path];
            Own(sh, Thread(req, BindMount, true), [bind, remove])
            == (if source.Some? && bind.applied then sh.(table := sh.table[req.path := layers + [source.value]])
                else if layers == [] && !remove.fails then sh.(table := sh.table - {req.path})
                else sh,
                Thread(req, Return(Failed(Internal)), true))
  {
    hide EnsureStep, UnmountStep, StageOptions;
    var (sh1, t1) := Step(sh, Thread(req, BindMount, true), bind);
    assert [bind, remove][1..] == [remove] && [remove][1..] == [];
    assert Own(sh1, t1, [remove]) == Own(Step(sh1, t1, remove).0, Step(sh1, t1, remove).1, []);
  }

  /**
   * What the clean-up of an unstage makes of any table, whatever has happened since it saw a mount: a path that is gone,
   * or empty, or has one mount, in any condition, ends up gone; a mount that does not show stays, and of several one goes.
   */
  lemma CleanupAnswers(sh: Shared, req: Request)
    requires req.Unstage? && req.vol !in sh.locks
    ensures var own := Own(sh.(locks := sh.locks + {req.vol}), Thread(req, CleanupExists, true), Same(NO_FAULT, 8));
            var layers := Layers(sh, req.path);
            (own.0, own.1.pc)
            == if req.path !in sh.table then (sh, Finished(Succeeded))
               else if layers == [] || (|layers| == 1 && layers[0] != Local) then (Without(sh, req.path), Finished(Succeeded))
               else if Bare(layers) then (sh, Finished(Failed(Internal)))
               else (WithLayers(sh, req.path, Pop(layers)), Finished(Failed(Internal)))
  {
    hide Own, EnsureStep, MountStep;
    LockAndFree(sh.locks, req.vol);
    var held, layers := sh.(locks := sh.locks + {req.vol}), Layers(sh, req.path);
    OwnNext(held, Thread(req, CleanupExists, true), 8);
    if req.path !in sh.table {
      OwnLeaves(held, req, Succeeded, 7);
    } else if layers != [] && Top(layers).Dead() {
      CleanupUnmounts(sh, req, 7);
    } else {
      OwnNext(held, Thread(req, CleanupProbe, true), 7);
      if layers == [] {
        OwnNext(held, Thread(req, CleanupRemove, true), 6);
        OwnLeaves(held.(table := sh.table - {req.path}), req, Succeeded, 5);
      } else if Bare(layers) {
        OwnNext(held, Thread(req, CleanupRemove, true), 6);
        OwnLeaves(held, req, Failed(Internal), 5);
      } else {
        CleanupUnmounts(sh, req, 6);
      }
    }
  }

  lemma CleanupUnmounts(sh: Shared, req: Request, n: nat)
    requires req.Unstage? && req.vol !in sh.locks && Layers(sh, req.path) != [] && n >= 5
    ensures var layers := Layers(sh, req.path);
            var own := Own(sh.(locks := sh.locks + {req.vol}), Thread(req, CleanupUnmount, true), Same(NO_FAULT, n));
            (own.0, own.1.pc) == if |layers| == 1 then (Without(sh, req.path), Finished(Succeeded))
                                 else (WithLayers(sh, req.path, Pop(layers)), Finished(Failed(Internal)))
  {
    hide Own, EnsureStep, MountStep;
    OwnNext(sh.(locks := sh.locks + {req.vol}), Thread(req, CleanupUnmount, true), n);
    UnmountedLeaves(sh, req, n - 1);
  }

  /** A mount that dies between the two looks of the clean-up defeats it. */
  lemma DiesBetweenLooks(sh: Shared, req: Request)
    requires req.Unstage? && req.vol !in sh.locks && Layers(sh, req.path) != [] && Top(Layers(sh, req.path)).Dead()
    ensures var own := Own(sh.(locks := sh.locks + {req.vol}), Thread(req, CleanupProbe, true), Same(NO_FAULT, 7));
            (own.0, own.1.pc) == (sh, Finished(Failed(Internal)))
  {
    hide Own, EnsureStep, MountStep;
    LockAndFree(sh.locks, req.vol);
    OwnNext(sh.(locks := sh.locks + {req.vol}), Thread(req, CleanupProbe, true), 7);
    OwnLeaves(sh.(locks := sh.locks + {req.vol}), req, Failed(Internal), 6);
  }

  /** The bind of a directory never shows a volume; it lasts exactly if the directory lies on another file system. */
  lemma BoundDirectory(sh: Shared, req: Request, c: Choice)
    requires req.Publish? && req.path in sh.table && BareDirectory(sh.table, req.staging) && !c.fails
    ensures var (sh', t') := Step(sh, Thread(req, BindMount, true), c);
            && t'.pc == Return(Succeeded) && Layers(sh', req.path) != []
            && !Top(Layers(sh', req.path)).Healthy() && (Lasts(Top(Layers(sh', req.path))) <==> !c.sameDevice)
  {
    hide EnsureStep, UnmountStep, StageOptions;
  }

  /** Every answer of an unstage, and the table it leaves. */
  lemma UnstageAnswers(sh: Shared, req: Request)
    requires req.Unstage?
    ensures Call(sh, req)
         == if !req.valid then (sh, Finished(Failed(InvalidArgument)))
            else if req.vol in sh.locks then (sh, Finished(Failed(Aborted)))
            else if req.path !in sh.table then (sh, Finished(Failed(NotFound)))
            else
              var layers := sh.table[req.path];
              if Bare(layers) then (sh, Finished(Succeeded))
              else if Top(layers).Dead() then (sh, Finished(Failed(Internal)))
              else if |layers| == 1 then (Without(sh, req.path), Finished(Succeeded))
              else (WithLayers(sh, req.path, Pop(layers)), Finished(Failed(Internal)))
  {
    hide Call;
    if !req.valid { CallRejected(sh, req); }
    else if req.vol in sh.locks { CallAborted(sh, req); }
    else if Bare(Layers(sh, req.path)) || Top(Layers(sh, req.path)).Dead() { UnstageLeaves(sh, req); }
    else { UnstageUnmounts(sh, req); }
  }

  /** Every answer of an unpublish, and the table it leaves. */
  lemma UnpublishAnswers(sh: Shared, req: Request)
    requires req.Unpublish?
    ensures Call(sh, req)
         == if !req.valid then (sh, Finished(Failed(InvalidArgument)))
            else if req.vol in sh.locks then (sh, Finished(Failed(Aborted)))
            else
              var layers := Layers(sh, req.path);
              if layers == [] then (sh, Finished(Failed(Internal)))
              else if |layers| == 1 then (Without(sh, req.path), Finished(Succeeded))
              else (WithLayers(sh, req.path, Pop(layers)), Finished(Failed(Internal)))
  {
    hide Call;
    if !req.valid { CallRejected(sh, req); }
    else if req.vol in sh.locks { CallAborted(sh, req); }
    else { UnpublishIff(sh, req); }
  }
}
