/** Every answer of the controller service, and exactly when it is given. */
module ControllerAnswers {
  import opened Bytes
  import opened Wrappers
  import opened VolumeSize
  import opened Credentials
  import opened VolumeOptions
  import opened Controller
  import opened ControllerInvariants
  import opened ControllerTheorems
  import opened ControllerAlone
  import VolumeId

  /** A create with which nothing is wrong. */
  predicate Acceptable(req: Request)
    requires req.CreateVolume?
  {
    WellFormed(req) && UsableSecret(req.secrets) && Fits(req.parameters, req.name, req.secrets[ADMIN_NAME])
  }

  // ---------- in every interleaving: what an answer says of its request ----------

  /** A success says that nothing was wrong with the request, a panic that its ID was. */
  lemma AnswersSay(s: State, id: RequestId)
    requires Reachable(s) && id in s.threads && (s.threads[id].pc.Return? || s.threads[id].pc.Finished?)
    ensures var req := s.threads[id].req;
            match s.threads[id].pc.resp
            case Created(_, _) => req.CreateVolume? && Acceptable(req)
            case Deleted =>
              req.DeleteVolume? && req.capable && UsableSecret(req.secrets) && VolumeId.ThreeFields(req.volumeId)
            case Expanded(capacity) =>
              && req.ExpandVolume? && UsableSecret(req.secrets) && VolumeId.ThreeFields(req.volumeId)
              && capacity == ResizeReported(if req.range.Some? then req.range.value else 0)
            case Panicked => !req.CreateVolume? && VolumeId.AtSomeField(req.volumeId, VolumeId.OverrunsAt)
            case Failed(_) => true
  {
    hide VolumeId.Decode, VolumeId.Compose, VolumeId.ThreeFields, VolumeId.AtSomeField, RoundOffBytes;
    ReachableInv(s);
    var t := s.threads[id];
    assert ReplyOf(t.req, t.pc.resp) by { assert InShape(t); }
    if t.req.CreateVolume? {
      if t.pc.resp.Created? { AcceptedIff(t.req.parameters, t.req.name, t.req.secrets[ADMIN_NAME], t.req.required); }
    } else {
      RangeDoesNotMatter(t.req.volumeId, None);
      if t.req.ExpandVolume? { RangeDoesNotMatter(t.req.volumeId, t.req.range); }
    }
  }

  /** Only a create with which nothing is wrong ever looks for its pool or makes it. */
  lemma OnlyAcceptableCreates(s: State, id: RequestId)
    requires Reachable(s) && id in s.threads && (s.threads[id].pc.CreateExists? || s.threads[id].pc.CreateCommand?)
    ensures s.threads[id].req.CreateVolume? && Acceptable(s.threads[id].req)
  {
    hide VolumeId.Compose, RoundOffBytes;
    ReachableInv(s);
    var t := s.threads[id];
    assert InShape(t);
    CredentialsNameUser(t.req, t.pc.cr);
    AcceptedIff(t.req.parameters, t.req.name, t.pc.cr.userName, t.req.required);
  }

  /** Whoever ends the process has an ID on which the parser panics. */
  lemma CrashOnlyByBadId(pools: map<Pool, int>, actions: seq<Action>)
    requires Run(Fresh(pools), actions).crashed
    ensures var s := Run(Fresh(pools), actions);
            exists id :: id in s.threads && !s.threads[id].req.CreateVolume?
                         && VolumeId.AtSomeField(s.threads[id].req.volumeId, VolumeId.OverrunsAt)
  {
    var s := Run(Fresh(pools), actions);
    var id := CrashHasCulprit(Fresh(pools), actions);
    AnswersSay(s, id);
  }

  lemma {:induction false} CrashHasCulprit(s: State, actions: seq<Action>) returns (id: RequestId)
    requires !s.crashed && Run(s, actions).crashed
    ensures id in Run(s, actions).threads && Run(s, actions).threads[id].pc == Finished(Panicked)
    decreases |actions|
  {
    hide Step;
    var a, s1 := actions[0], Exec(s, actions[0]);
    if s1.crashed {
      CrashedStays(s1, actions[1..]);
      id := a.id;
    } else {
      id := CrashHasCulprit(s1, actions[1..]);
    }
  }

  /**
   * A create holds its lock only while it has its key file; a delete or expand has its key file only while it
   * holds its lock.
   */
  lemma KeyAndLock(s: State, id: RequestId)
    requires Reachable(s) && id in s.threads
    ensures var t := s.threads[id];
            if t.req.CreateVolume? then LockOf(t).Some? ==> KeyOf(t).Some? else KeyOf(t).Some? ==> LockOf(t).Some?
  {
    hide NewVolumeOptions, NewVolOptionsFromVolID, ReplyOf, OptionsOf, CredentialsOf;
    ReachableInv(s);
    assert InShape(s.threads[id]);
  }

  // ---------- in every interleaving: which step gives which answer ----------

  predicate Settled(pc: Pc) {
    pc.Return? || pc.Finished?
  }

  /**
   * A delete settles on Deleted exactly by its command not failing, which leaves the pool of its ID and secret
   * absent; if it fails the answer is Internal.
   */
  lemma DeletedIff(s: State, id: RequestId, c: Choice)
    requires Reachable(s) && !s.crashed && id in s.threads && !Settled(s.threads[id].pc) && s.threads[id].req.DeleteVolume?
    ensures var t, s' := s.threads[id], Exec(s, Advance(id, c));
            && id in s'.threads
            && (s'.threads[id].pc == Return(Deleted) <==> t.pc.DeleteCommand? && !c.commandFails)
            && (t.pc.DeleteCommand? ==>
                  && UsableSecret(t.req.secrets) && NewVolOptionsFromVolID(t.req.volumeId, None) == VolumeId.Read(t.pc.vol)
                  && PoolOf(t.pc.cr, t.pc.vol)
                     == Pool(t.pc.vol.baseConfigURL, t.req.secrets[ADMIN_NAME], t.pc.vol.volName)
                  && (!c.commandFails ==> PoolOf(t.pc.cr, t.pc.vol) !in s'.shared.pools)
                  && (c.commandFails ==> s'.threads[id].pc == Return(Failed(Internal))))
  {
    hide NewVolOptionsFromVolID, CreateStep, ExpandStep;
    ReachableInv(s);
    assert InShape(s.threads[id]);
    if s.threads[id].pc.DeleteCommand? { CredentialsNameUser(s.threads[id].req, s.threads[id].pc.cr); }
  }

  /**
   * An expand settles on Expanded exactly by its command finding the pool of its ID and secret and not failing;
   * otherwise the answer is Internal.
   */
  lemma ExpandedIff(s: State, id: RequestId, c: Choice)
    requires Reachable(s) && !s.crashed && id in s.threads && !Settled(s.threads[id].pc) && s.threads[id].req.ExpandVolume?
    ensures var t, s' := s.threads[id], Exec(s, Advance(id, c));
            && id in s'.threads
            && (s'.threads[id].pc.Return? && s'.threads[id].pc.resp.Expanded?
                <==> t.pc.ExpandCommand? && PoolOf(t.pc.cr, t.pc.vol) in s.shared.pools && !c.commandFails)
            && (t.pc.ExpandCommand? ==>
                  && UsableSecret(t.req.secrets)
                  && NewVolOptionsFromVolID(t.req.volumeId, t.req.range) == VolumeId.Read(t.pc.vol)
                  && PoolOf(t.pc.cr, t.pc.vol)
                     == Pool(t.pc.vol.baseConfigURL, t.req.secrets[ADMIN_NAME], t.pc.vol.volName)
                  && (PoolOf(t.pc.cr, t.pc.vol) !in s.shared.pools || c.commandFails ==>
                        s'.threads[id].pc == Return(Failed(Internal))))
  {
    hide NewVolOptionsFromVolID, CreateStep, DeleteStep, RoundOffBytes, RoundUpGiB;
    ReachableInv(s);
    assert InShape(s.threads[id]);
    if s.threads[id].pc.ExpandCommand? { CredentialsNameUser(s.threads[id].req, s.threads[id].pc.cr); }
  }

  /**
   * A create settles on Created exactly by finding its pool or by making it; a failing check or command is
   * answered with Internal.
   */
  lemma CreatedIff(s: State, id: RequestId, c: Choice)
    requires Reachable(s) && !s.crashed && id in s.threads && !Settled(s.threads[id].pc) && s.threads[id].req.CreateVolume?
    ensures var t, s' := s.threads[id], Exec(s, Advance(id, c));
            && id in s'.threads
            && (s'.threads[id].pc.Return? && s'.threads[id].pc.resp.Created?
                <==> !c.commandFails && (t.pc.CreateCommand?
                                         || (t.pc.CreateExists? && PoolOf(t.pc.cr, t.pc.vol) in s.shared.pools)))
            && ((t.pc.CreateExists? || t.pc.CreateCommand?) && c.commandFails ==> s'.threads[id].pc == Return(Failed(Internal)))
  {
    hide DeleteStep, ExpandStep, RoundOffBytes, RoundUpGiB, NewVolumeOptions, Admin;
    CreateOnlyAbsent(s, id);
  }

  lemma CreateOnlyAbsent(s: State, id: RequestId)
    requires Reachable(s) && id in s.threads
    ensures s.threads[id].pc.CreateCommand? ==> PoolOf(s.threads[id].pc.cr, s.threads[id].pc.vol) !in s.shared.pools
  {
    if s.threads[id].pc.CreateCommand? { CreateOnlyWhenAbsent(s, id); }
  }

  predicate AtLock(pc: Pc) {
    pc.CreateLock? || pc.DeleteLock? || pc.ExpandLock?
  }

  /** Aborted is the answer exactly of a request that comes to its lock while another request in flight holds it. */
  lemma AbortedIff(s: State, id: RequestId, c: Choice)
    requires Reachable(s) && !s.crashed && id in s.threads && !Settled(s.threads[id].pc)
    ensures id in Exec(s, Advance(id, c)).threads
    ensures Exec(s, Advance(id, c)).threads[id].pc == Return(Failed(Aborted))
       <==> AtLock(s.threads[id].pc)
            && exists x :: x != id && x in s.threads && LockOf(s.threads[x]) == Some(s.threads[id].req.LockId())
  {
    ReachableInv(s);
    var t, lock := s.threads[id], s.threads[id].req.LockId();
    AbortsAtLock(s.shared, t, c);
    assert InShape(t);
    assert AtLock(t.pc) ==> LockOf(t) == None by { NoLockYet(t); }
    hide Step, InShape, LockOf;
    if lock in s.shared.locks {
      var x :| Holds(s, x, lock);
    }
    assert forall x :: x in s.threads && LockOf(s.threads[x]) == Some(lock) ==> Holds(s, x, lock);
  }

  lemma NoLockYet(t: Thread)
    requires InShape(t)
    ensures AtLock(t.pc) ==> LockOf(t) == None
  {
  }

  lemma AbortsAtLock(sh: Shared, t: Thread, c: Choice)
    requires !Settled(t.pc)
    ensures Step(sh, t, c).1.pc == Return(Failed(Aborted)) <==> AtLock(t.pc) && t.req.LockId() in sh.locks
  {
    hide NewVolumeOptions, NewVolOptionsFromVolID, RoundOffBytes, RoundUpGiB, Admin;
  }

  // ---------- by itself, whatever fails: every answer ----------

  predicate Stores(sh: Shared, c: Choice) {
    c.storeFault == NoFault && c.file !in sh.keys
  }

  /** The pool that an ID and a secret lead to. */
  function PoolOfId(volumeId: Str, secrets: map<Str, Str>): Pool
    requires VolumeId.Decode(volumeId).Read? && ADMIN_NAME in secrets
  {
    var id := VolumeId.Decode(volumeId).value;
    Pool(id.clusterID, secrets[ADMIN_NAME], id.volName)
  }

  /**
   * What a delete answers, by its fields, the bytes of its ID, the lock, and what fails: storing the key or the
   * command.
   */
  function DeleteReply(sh: Shared, req: Request, store: Choice, command: Choice): Response
    requires req.DeleteVolume?
  {
    if req.volumeId == [] || !req.capable then Failed(InvalidArgument)
    else if req.volumeId in sh.locks then Failed(Aborted)
    else if VolumeId.AtSomeField(req.volumeId, VolumeId.OverrunsAt) then Panicked
    else if VolumeId.AtSomeField(req.volumeId, VolumeId.BadLengthAt) then Failed(Internal)
    else if !UsableSecret(req.secrets) || !Stores(sh, store) then Failed(InvalidArgument)
    else if command.commandFails then Failed(Internal)
    else Deleted
  }

  /** Whether a delete gets to give its command. */
  predicate DeleteCommands(sh: Shared, req: Request, store: Choice)
    requires req.DeleteVolume?
  {
    && req.volumeId != [] && req.capable && req.volumeId !in sh.locks && VolumeId.ThreeFields(req.volumeId)
    && UsableSecret(req.secrets) && Stores(sh, store)
  }

  lemma DeleteAnswers(sh: Shared, req: Request, outside: seq<Choice>)
    requires req.DeleteVolume? && |outside| == 10
    ensures DeleteCommands(sh, req, outside[4]) ==> VolumeId.Decode(req.volumeId).Read?
    ensures var own := Own(sh, Start(req), outside);
            var taken := DeleteCommands(sh, req, outside[4]) && (!outside[5].commandFails || outside[5].commandApplied);
            && own.1.pc == Finished(DeleteReply(sh, req, outside[4], outside[5]))
            && own.0 == if taken then sh.(pools := sh.pools - {PoolOfId(req.volumeId, req.secrets)}) else sh
  {
    hide Own, VolumeId.Decode, VolumeId.ThreeFields, VolumeId.AtSomeField, CreateStep, ExpandStep, Admin;
    HandlerGivesBack(sh, req, outside);
    VolumeId.FieldsInTurn(req.volumeId);
    assert outside[0..] == outside;
    if req.volumeId == [] || !req.capable {
      OwnStep(sh, Start(req), outside, 0);
      if req.volumeId == [] {
        OwnReturns(sh, ThreadState(req, Return(Failed(InvalidArgument)), []), outside[1..]);
      } else {
        OwnStep(sh, ThreadState(req, DeleteCheckCapability, []), outside, 1);
        OwnReturns(sh, ThreadState(req, Return(Failed(InvalidArgument)), []), outside[2..]);
      }
    } else if req.volumeId in sh.locks {
      DeleteAborts(sh, req, outside);
    } else {
      DeleteGetsLock(sh, req, outside);
      LockedDeleteAnswers(sh.(locks := sh.locks + {req.volumeId}), req, outside[3..]);
    }
  }

  lemma DeleteAborts(sh: Shared, req: Request, outside: seq<Choice>)
    requires req.DeleteVolume? && req.volumeId != [] && req.capable && req.volumeId in sh.locks && |outside| == 10
    ensures Own(sh, Start(req), outside).1.pc == Finished(Failed(Aborted))
    ensures Own(sh, Start(req), outside).0.pools == sh.pools
  {
    hide Own, CreateStep, ExpandStep;
    assert outside[0..] == outside;
    OwnStep(sh, Start(req), outside, 0);
    OwnStep(sh, ThreadState(req, DeleteCheckCapability, []), outside, 1);
    OwnStep(sh, ThreadState(req, DeleteLock, []), outside, 2);
    OwnReturns(sh, ThreadState(req, Return(Failed(Aborted)), []), outside[3..]);
  }

  lemma LockedDeleteAnswers(sh: Shared, req: Request, outside: seq<Choice>)
    requires req.DeleteVolume? && |outside| == 7
    ensures var own := Own(sh, ThreadState(req, DeleteDecode, [ReleaseLock(req.volumeId)]), outside);
            match VolumeId.Decode(req.volumeId)
            case Panic => own.1.pc == Finished(Panicked) && own.0.pools == sh.pools
            case Malformed => own.1.pc == Finished(Failed(Internal)) && own.0.pools == sh.pools
            case Read(_) =>
              if !UsableSecret(req.secrets) || !Stores(sh, outside[1])
              then own.1.pc == Finished(Failed(InvalidArgument)) && own.0.pools == sh.pools
              else && own.1.pc == Finished(if outside[2].commandFails then Failed(Internal) else Deleted)
                   && own.0.pools == if outside[2].commandFails && !outside[2].commandApplied then sh.pools
                                     else sh.pools - {PoolOfId(req.volumeId, req.secrets)}
  {
    hide Own, VolumeId.Decode, CreateStep, ExpandStep, Admin;
    var defers := [ReleaseLock(req.volumeId)];
    assert outside[0..] == outside;
    OwnStep(sh, ThreadState(req, DeleteDecode, defers), outside, 0);
    match VolumeId.Decode(req.volumeId)
    case Panic => OwnReturns(sh, ThreadState(req, Return(Panicked), defers), outside[1..]);
    case Malformed => OwnReturns(sh, ThreadState(req, Return(Failed(Internal)), defers), outside[1..]);
    case Read(id) =>
      DecodedDeleteAnswers(sh, req, NewVolOptionsFromVolID(req.volumeId, None).value, outside[1..]);
  }

  lemma DecodedDeleteAnswers(sh: Shared, req: Request, vol: VolumeOptions, outside: seq<Choice>)
    requires req.DeleteVolume? && |outside| == 6
    ensures var own := Own(sh, ThreadState(req, Pc.DeleteCredentials(vol), [ReleaseLock(req.volumeId)]), outside);
            if !UsableSecret(req.secrets) || !Stores(sh, outside[0])
            then own.1.pc == Finished(Failed(InvalidArgument)) && own.0.pools == sh.pools
            else && own.1.pc == Finished(if outside[1].commandFails then Failed(Internal) else Deleted)
                 && own.0.pools == if outside[1].commandFails && !outside[1].commandApplied then sh.pools
                                   else sh.pools - {Pool(vol.baseConfigURL, req.secrets[ADMIN_NAME], vol.volName)}
  {
    hide Own, CreateStep, ExpandStep, Admin;
    var defers, c := [ReleaseLock(req.volumeId)], outside[0];
    assert outside[0..] == outside;
    AdminIff(req.secrets, c.file, Stores(sh, c));
    OwnStep(sh, ThreadState(req, Pc.DeleteCredentials(vol), defers), outside, 0);
    if !UsableSecret(req.secrets) || !Stores(sh, c) {
      OwnReturns(sh, ThreadState(req, Return(Failed(InvalidArgument)), defers), outside[1..]);
    } else {
      var cr, all := Credentials(req.secrets[ADMIN_NAME], c.file), defers + [DeleteKey(c.file)];
      var sh1 := sh.(keys := sh.keys + {c.file});
      OwnStep(sh1, ThreadState(req, DeleteCommand(cr, vol), all), outside, 1);
      var (sh2, ok) := DeletePool(sh1, PoolOf(cr, vol), outside[1]);
      OwnReturns(sh2, ThreadState(req, Return(if ok then Deleted else Failed(Internal)), all), outside[2..]);
    }
  }

  function SizeOf(req: Request): int64
    requires req.ExpandVolume?
  {
    if req.range.Some? then req.range.value else 0
  }

  /** What an expand answers, the pool of its ID and secret being there or not. */
  function ExpandReply(sh: Shared, req: Request, store: Choice, command: Choice): Response
    requires req.ExpandVolume?
  {
    if req.volumeId == [] then Failed(InvalidArgument)
    else if req.volumeId in sh.locks then Failed(Aborted)
    else if !UsableSecret(req.secrets) || !Stores(sh, store) then Failed(InvalidArgument)
    else if VolumeId.AtSomeField(req.volumeId, VolumeId.OverrunsAt) then Panicked
    else if VolumeId.AtSomeField(req.volumeId, VolumeId.BadLengthAt) then Failed(Internal)
    else if !PoolIsThere(sh, req) || command.commandFails then Failed(Internal)
    else Expanded(ResizeReported(SizeOf(req)))
  }

  predicate PoolIsThere(sh: Shared, req: Request)
    requires req.ExpandVolume? && UsableSecret(req.secrets)
  {
    VolumeId.Decode(req.volumeId).Read? && PoolOfId(req.volumeId, req.secrets) in sh.pools
  }

  /** Whether an expand gets to give its command for a pool that is there. */
  predicate ExpandCommands(sh: Shared, req: Request, store: Choice)
    requires req.ExpandVolume?
  {
    && req.volumeId != [] && req.volumeId !in sh.locks && UsableSecret(req.secrets) && Stores(sh, store)
    && PoolIsThere(sh, req)
  }

  lemma ExpandAnswers(sh: Shared, req: Request, outside: seq<Choice>)
    requires req.ExpandVolume? && |outside| == 10
    ensures var own := Own(sh, Start(req), outside);
            var changed := ExpandCommands(sh, req, outside[2]) && (!outside[4].commandFails || outside[4].commandApplied);
            && own.1.pc == Finished(ExpandReply(sh, req, outside[2], outside[4]))
            && own.0 == if changed
                        then sh.(pools := sh.pools[PoolOfId(req.volumeId, req.secrets) := ResizeQuotaGiB(SizeOf(req))])
                        else sh
  {
    hide Own, VolumeId.Decode, VolumeId.ThreeFields, VolumeId.AtSomeField, CreateStep, DeleteStep, Admin, RoundOffBytes,
         RoundUpGiB;
    HandlerGivesBack(sh, req, outside);
    VolumeId.FieldsInTurn(req.volumeId);
    assert outside[0..] == outside;
    OwnStep(sh, Start(req), outside, 0);
    if req.volumeId == [] {
      OwnReturns(sh, ThreadState(req, Return(Failed(InvalidArgument)), []), outside[1..]);
    } else {
      OwnStep(sh, ThreadState(req, ExpandLock, []), outside, 1);
      if req.volumeId in sh.locks {
        OwnReturns(sh, ThreadState(req, Return(Failed(Aborted)), []), outside[2..]);
      } else {
        assert [] + [ReleaseLock(req.volumeId)] == [ReleaseLock(req.volumeId)];
        LockedExpandAnswers(sh.(locks := sh.locks + {req.volumeId}), req, outside[2..]);
      }
    }
  }

  lemma LockedExpandAnswers(sh: Shared, req: Request, outside: seq<Choice>)
    requires req.ExpandVolume? && |outside| == 8
    ensures var own := Own(sh, ThreadState(req, ExpandCredentials, [ReleaseLock(req.volumeId)]), outside);
            if !UsableSecret(req.secrets) || !Stores(sh, outside[0])
            then own.1.pc == Finished(Failed(InvalidArgument)) && own.0.pools == sh.pools
            else
              match VolumeId.Decode(req.volumeId)
              case Panic => own.1.pc == Finished(Panicked) && own.0.pools == sh.pools
              case Malformed => own.1.pc == Finished(Failed(Internal)) && own.0.pools == sh.pools
              case Read(_) =>
                && own.1.pc == Finished(if !PoolIsThere(sh, req) || outside[2].commandFails then Failed(Internal)
                                        else Expanded(ResizeReported(SizeOf(req))))
                && own.0.pools == if !PoolIsThere(sh, req) || (outside[2].commandFails && !outside[2].commandApplied)
                                  then sh.pools
                                  else sh.pools[PoolOfId(req.volumeId, req.secrets) := ResizeQuotaGiB(SizeOf(req))]
  {
    hide Own, VolumeId.Decode, CreateStep, DeleteStep, Admin, RoundOffBytes, RoundUpGiB;
    var defers, c := [ReleaseLock(req.volumeId)], outside[0];
    assert outside[0..] == outside;
    AdminIff(req.secrets, c.file, Stores(sh, c));
    OwnStep(sh, ThreadState(req, ExpandCredentials, defers), outside, 0);
    if !UsableSecret(req.secrets) || !Stores(sh, c) {
      OwnReturns(sh, ThreadState(req, Return(Failed(InvalidArgument)), defers), outside[1..]);
    } else {
      var cr, all := Credentials(req.secrets[ADMIN_NAME], c.file), defers + [DeleteKey(c.file)];
      var sh1 := sh.(keys := sh.keys + {c.file});
      OwnStep(sh1, ThreadState(req, ExpandDecode(cr), all), outside, 1);
      match VolumeId.Decode(req.volumeId)
      case Panic => OwnReturns(sh1, ThreadState(req, Return(Panicked), all), outside[2..]);
      case Malformed => OwnReturns(sh1, ThreadState(req, Return(Failed(Internal)), all), outside[2..]);
      case Read(id) =>
        DecodedExpandAnswers(sh1, req, cr, NewVolOptionsFromVolID(req.volumeId, req.range).value, all, outside[2..]);
    }
  }

  lemma DecodedExpandAnswers(sh: Shared, req: Request, cr: Credentials, vol: VolumeOptions, defers: seq<Deferred>,
                             outside: seq<Choice>)
    requires req.ExpandVolume? && |defers| == 2 && |outside| == 6
    ensures var own, pool := Own(sh, ThreadState(req, ExpandCommand(cr, vol), defers), outside), PoolOf(cr, vol);
            && own.1.pc == Finished(if pool !in sh.pools || outside[0].commandFails then Failed(Internal)
                                    else Expanded(ResizeReported(vol.capacityBytes)))
            && own.0.pools == if pool !in sh.pools || (outside[0].commandFails && !outside[0].commandApplied) then sh.pools
                              else sh.pools[pool := ResizeQuotaGiB(vol.capacityBytes)]
  {
    hide Own, CreateStep, DeleteStep, RoundOffBytes, RoundUpGiB;
    assert outside[0..] == outside;
    OwnStep(sh, ThreadState(req, ExpandCommand(cr, vol), defers), outside, 0);
    var (sh1, ok) := SetQuota(sh, PoolOf(cr, vol), ResizeQuotaGiB(vol.capacityBytes), outside[0]);
    var resp := if ok then Expanded(ResizeReported(vol.capacityBytes)) else Failed(Internal);
    OwnReturns(sh1, ThreadState(req, Return(resp), defers), outside[1..]);
  }

  /** The pool that an acceptable create is for, and the ID it is answered with. */
  function WantedPool(req: Request): Pool
    requires req.CreateVolume? && Acceptable(req)
  {
    Pool(Lookup(req.parameters, CONFIG_BASE_PATH), req.secrets[ADMIN_NAME], CSI_VOL_NAMING_PREFIX + req.name)
  }

  function WantedId(req: Request): Str
    requires req.CreateVolume? && Acceptable(req)
  {
    VolumeId.ComposeIsFrame(VolumeId.Identifier(WantedPool(req).configURL, WantedPool(req).userName, WantedPool(req).name));
    VolumeId.Compose(VolumeId.Identifier(WantedPool(req).configURL, WantedPool(req).userName, WantedPool(req).name)).value
  }

  /** What a create answers, by its fields, the lock, its pool being there or not, and what fails. */
  function CreateReply(sh: Shared, req: Request, store: Choice, check: Choice, command: Choice): Response
    requires req.CreateVolume?
  {
    if !WellFormed(req) || !UsableSecret(req.secrets) || !Stores(sh, store) then Failed(InvalidArgument)
    else if req.name in sh.locks then Failed(Aborted)
    else if !Acceptable(req) then Failed(InvalidArgument)
    else if check.commandFails || (WantedPool(req) !in sh.pools && command.commandFails) then Failed(Internal)
    else Created(WantedId(req), CreateReported(req.required))
  }

  /** Whether a create gets to give its command: its pool is not there. */
  predicate CreateCommands(sh: Shared, req: Request, store: Choice, check: Choice)
    requires req.CreateVolume?
  {
    && Acceptable(req) && Stores(sh, store) && req.name !in sh.locks && !check.commandFails
    && WantedPool(req) !in sh.pools
  }

  lemma CreateAnswers(sh: Shared, req: Request, outside: seq<Choice>)
    requires req.CreateVolume? && |outside| == 10
    ensures var own := Own(sh, Start(req), outside);
            var made := CreateCommands(sh, req, outside[1], outside[5])
                        && (!outside[6].commandFails || outside[6].commandApplied);
            && own.1.pc == Finished(CreateReply(sh, req, outside[1], outside[5], outside[6]))
            && own.0 == if made then sh.(pools := sh.pools[WantedPool(req) := CreateQuotaGiB(req.required)]) else sh
  {
    hide Own, DeleteStep, ExpandStep, Admin, RoundOffBytes, RoundUpGiB, Fits, NewVolumeOptions, WantedId, WantedPool;
    HandlerGivesBack(sh, req, outside);
    var c := outside[1];
    assert outside[0..] == outside;
    AdminIff(req.secrets, c.file, Stores(sh, c));
    OwnStep(sh, Start(req), outside, 0);
    if !req.capable {
      OwnReturns(sh, ThreadState(req, Return(Failed(InvalidArgument)), []), outside[1..]);
    } else {
      OwnStep(sh, ThreadState(req, CreateCredentials, []), outside, 1);
      if !UsableSecret(req.secrets) || !Stores(sh, c) {
        OwnReturns(sh, ThreadState(req, Return(Failed(InvalidArgument)), []), outside[2..]);
      } else {
        assert [] + [DeleteKey(c.file)] == [DeleteKey(c.file)];
        CreateWithCredentialsAnswers(sh.(keys := sh.keys + {c.file}), req, c.file, outside[2..]);
      }
    }
  }

  lemma CreateWithCredentialsAnswers(sh: Shared, req: Request, file: FileName, outside: seq<Choice>)
    requires req.CreateVolume? && req.capable && UsableSecret(req.secrets) && |outside| == 8
    ensures var cr := Credentials(req.secrets[ADMIN_NAME], file);
            var own := Own(sh, ThreadState(req, CreateCheckArguments(cr), [DeleteKey(file)]), outside);
            if !WellFormed(req) then own.1.pc == Finished(Failed(InvalidArgument)) && own.0.pools == sh.pools
            else if req.name in sh.locks then own.1.pc == Finished(Failed(Aborted)) && own.0.pools == sh.pools
            else if !Acceptable(req) then own.1.pc == Finished(Failed(InvalidArgument)) && own.0.pools == sh.pools
            else CreateSettlesAs(sh.pools, req, outside[3], outside[4], own)
  {
    hide Own, DeleteStep, ExpandStep, Admin, RoundOffBytes, RoundUpGiB, Fits, NewVolumeOptions, WantedId, WantedPool,
         CreateSettlesAs;
    var cr, defers := Credentials(req.secrets[ADMIN_NAME], file), [DeleteKey(file)];
    assert outside[0..] == outside;
    OwnStep(sh, ThreadState(req, CreateCheckArguments(cr), defers), outside, 0);
    if !WellFormed(req) {
      OwnReturns(sh, ThreadState(req, Return(Failed(InvalidArgument)), defers), outside[1..]);
    } else {
      OwnStep(sh, ThreadState(req, CreateLock(cr), defers), outside, 1);
      if req.name in sh.locks {
        OwnReturns(sh, ThreadState(req, Return(Failed(Aborted)), defers), outside[2..]);
      } else {
        var all := defers + [ReleaseLock(req.name)];
        LockedCreateAnswers(sh.(locks := sh.locks + {req.name}), req, cr, all, outside[2..]);
      }
    }
  }

  /** How an acceptable create that has its lock ends. */
  ghost predicate CreateSettlesAs(pools: map<Pool, int>, req: Request, check: Choice, command: Choice, own: (Shared, Thread))
    requires req.CreateVolume? && Acceptable(req)
  {
    var pool := WantedPool(req);
    && own.1.pc == Finished(if check.commandFails || (pool !in pools && command.commandFails) then Failed(Internal)
                            else Created(WantedId(req), CreateReported(req.required)))
    && own.0.pools == if !check.commandFails && pool !in pools && (!command.commandFails || command.commandApplied)
                      then pools[pool := CreateQuotaGiB(req.required)] else pools
  }

  lemma LockedCreateAnswers(sh: Shared, req: Request, cr: Credentials, defers: seq<Deferred>, outside: seq<Choice>)
    requires req.CreateVolume? && WellFormed(req) && UsableSecret(req.secrets) && cr.userName == req.secrets[ADMIN_NAME]
    requires |defers| == 2 && |outside| == 6
    ensures var own := Own(sh, ThreadState(req, CreateOptions(cr), defers), outside);
            if !Acceptable(req) then own.1.pc == Finished(Failed(InvalidArgument)) && own.0.pools == sh.pools
            else CreateSettlesAs(sh.pools, req, outside[1], outside[2], own)
  {
    hide Own, DeleteStep, ExpandStep, RoundOffBytes, RoundUpGiB, Fits, VolumeId.Compose;
    assert outside[0..] == outside;
    AcceptedIff(req.parameters, req.name, cr.userName, req.required);
    OwnStep(sh, ThreadState(req, CreateOptions(cr), defers), outside, 0);
    if !Acceptable(req) {
      OwnReturns(sh, ThreadState(req, Return(Failed(InvalidArgument)), defers), outside[1..]);
    } else {
      var vol := NewVolumeOptions(req.parameters, req.name, cr.userName, req.required).value;
      CheckingCreateAnswers(sh, req, cr, vol, defers, outside[1..]);
    }
  }

  lemma CheckingCreateAnswers(sh: Shared, req: Request, cr: Credentials, vol: VolumeOptions, defers: seq<Deferred>,
                              outside: seq<Choice>)
    requires req.CreateVolume? && Acceptable(req) && |defers| == 2 && |outside| == 5
    requires PoolOf(cr, vol) == WantedPool(req) && vol.volID == WantedId(req) && vol.capacityBytes == RoundOffBytes(req.required)
    ensures CreateSettlesAs(sh.pools, req, outside[0], outside[1],
                            Own(sh, ThreadState(req, CreateExists(cr, vol), defers), outside))
  {
    hide Own, DeleteStep, ExpandStep, RoundOffBytes, RoundUpGiB, Acceptable, WantedId, WantedPool;
    var pool, made := PoolOf(cr, vol), Created(vol.volID, CreateReported(req.required));
    assert outside[0..] == outside;
    OwnStep(sh, ThreadState(req, CreateExists(cr, vol), defers), outside, 0);
    if outside[0].commandFails {
      OwnReturns(sh, ThreadState(req, Return(Failed(Internal)), defers), outside[1..]);
    } else if pool in sh.pools {
      OwnReturns(sh, ThreadState(req, Return(made), defers), outside[1..]);
    } else {
      CommandingCreateAnswers(sh, req, cr, vol, defers, outside[1..]);
    }
  }

  lemma CommandingCreateAnswers(sh: Shared, req: Request, cr: Credentials, vol: VolumeOptions, defers: seq<Deferred>,
                                outside: seq<Choice>)
    requires req.CreateVolume? && |defers| == 2 && |outside| == 4 && PoolOf(cr, vol) !in sh.pools
    ensures var own := Own(sh, ThreadState(req, CreateCommand(cr, vol), defers), outside);
            && own.1.pc == Finished(if outside[0].commandFails then Failed(Internal)
                                    else Created(vol.volID, CreateReported(req.required)))
            && own.0.pools == if !outside[0].commandFails || outside[0].commandApplied
                              then sh.pools[PoolOf(cr, vol) := RoundUpGiB(vol.capacityBytes)] else sh.pools
  {
    hide Own, DeleteStep, ExpandStep, RoundOffBytes, RoundUpGiB;
    assert outside[0..] == outside;
    OwnStep(sh, ThreadState(req, CreateCommand(cr, vol), defers), outside, 0);
    var (sh1, ok) := CreatePool(sh, PoolOf(cr, vol), RoundUpGiB(vol.capacityBytes), outside[0]);
    var resp := if ok then Created(vol.volID, CreateReported(req.required)) else Failed(Internal);
    OwnReturns(sh1, ThreadState(req, Return(resp), defers), outside[1..]);
  }

  /**
   * A create by itself on a free lock, with its key stored and no failing check or command, is answered with Created
   * exactly if nothing is wrong with it; otherwise with InvalidArgument, and nothing is changed.
   */
  lemma AcceptanceIff(sh: Shared, req: Request, outside: seq<Choice>)
    requires req.CreateVolume? && |outside| == 10 && req.name !in sh.locks
    requires Stores(sh, outside[1]) && !outside[5].commandFails && !outside[6].commandFails
    ensures var own := Own(sh, Start(req), outside);
            && (Acceptable(req) <==> own.1.pc.Finished? && own.1.pc.resp.Created?)
            && (!Acceptable(req) ==> own.1.pc == Finished(Failed(InvalidArgument)) && own.0 == sh)
  {
    hide Own;
    CreateAnswers(sh, req, outside);
  }
}
