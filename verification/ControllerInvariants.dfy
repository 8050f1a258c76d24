/** What every interleaving of controller requests keeps. */
module ControllerInvariants {
  import opened Bytes
  import opened Wrappers
  import opened VolumeSize
  import opened Credentials
  import opened VolumeOptions
  import opened Controller
  import VolumeId

  // ---------- one thread ----------

  function LockOf(t: Thread): Option<Str> {
    if |t.defers| > 0 && t.defers[0].ReleaseLock? then Some(t.defers[0].id)
    else if |t.defers| > 1 && t.defers[1].ReleaseLock? then Some(t.defers[1].id)
    else None
  }

  function KeyOf(t: Thread): Option<FileName> {
    if |t.defers| > 0 && t.defers[0].DeleteKey? then Some(t.defers[0].file)
    else if |t.defers| > 1 && t.defers[1].DeleteKey? then Some(t.defers[1].file)
    else None
  }

  /** At most one lock, its own, and one key file: of a create the key file is to go last, of the others the lock. */
  ghost predicate WellDeferred(t: Thread) {
    && |t.defers| <= 2
    && (|t.defers| > 0 ==> (t.defers[0].DeleteKey? <==> t.req.CreateVolume?))
    && (|t.defers| == 2 ==> t.defers[0].ReleaseLock? != t.defers[1].ReleaseLock?)
    && (LockOf(t).Some? ==> LockOf(t) == Some(t.req.LockId()))
  }

  /** The credentials of a request are made from its secret. */
  ghost predicate CredentialsOf(req: Request, cr: Credentials) {
    Admin(req.secrets, cr.keyFile, true) == Ok(cr)
  }

  lemma CredentialsNameUser(req: Request, cr: Credentials)
    requires CredentialsOf(req, cr)
    ensures UsableSecret(req.secrets) && req.secrets[ADMIN_NAME] == cr.userName
  {
    AdminIff(req.secrets, cr.keyFile, true);
  }

  /** What the checks of a create let pass: a name, and capabilities of which none is for a block volume. */
  predicate WellFormed(req: Request)
    requires req.CreateVolume?
  {
    req.capable && req.name != [] && req.blockCaps != [] && true !in req.blockCaps
  }

  /** The options that an accepted create works with. */
  ghost predicate OptionsOf(req: Request, userName: Str, vol: VolumeOptions)
    requires req.CreateVolume?
  {
    NewVolumeOptions(req.parameters, req.name, userName, req.required) == Ok(vol)
  }

  /** What each reply says of the request: a success, that nothing was wrong with it; a panic, that its ID was. */
  ghost predicate ReplyOf(req: Request, resp: Response) {
    match resp
    case Created(volumeId, capacity) =>
      && req.CreateVolume? && WellFormed(req) && UsableSecret(req.secrets)
      && NewVolumeOptions(req.parameters, req.name, req.secrets[ADMIN_NAME], req.required).Ok?
      && volumeId == NewVolumeOptions(req.parameters, req.name, req.secrets[ADMIN_NAME], req.required).value.volID
      && capacity == RoundOffBytes(req.required)
    case Deleted =>
      && req.DeleteVolume? && req.volumeId != [] && req.capable && UsableSecret(req.secrets)
      && NewVolOptionsFromVolID(req.volumeId, None).Read?
    case Expanded(capacity) =>
      && req.ExpandVolume? && req.volumeId != [] && UsableSecret(req.secrets)
      && NewVolOptionsFromVolID(req.volumeId, req.range).Read?
      && capacity == ResizeReported(NewVolOptionsFromVolID(req.volumeId, req.range).value.capacityBytes)
    case Panicked => !req.CreateVolume? && req.volumeId != [] && NewVolOptionsFromVolID(req.volumeId, None) == VolumeId.Panic
    case Failed(_) => true
  }

  /** Where a thread is decides what it has deferred and what it knows. */
  ghost predicate InShape(t: Thread) {
    var lock := ReleaseLock(t.req.LockId());
    match t.pc
    case CreateCheckCapability => t.defers == []
    case CreateCredentials => t.defers == [] && t.req.capable
    case CreateCheckArguments(cr) => t.defers == [DeleteKey(cr.keyFile)] && t.req.capable && CredentialsOf(t.req, cr)
    case CreateLock(cr) => t.defers == [DeleteKey(cr.keyFile)] && WellFormed(t.req) && CredentialsOf(t.req, cr)
    case CreateOptions(cr) => t.defers == [DeleteKey(cr.keyFile), lock] && WellFormed(t.req) && CredentialsOf(t.req, cr)
    case CreateExists(cr, vol) =>
      && t.defers == [DeleteKey(cr.keyFile), lock] && WellFormed(t.req) && CredentialsOf(t.req, cr)
      && OptionsOf(t.req, cr.userName, vol)
    case CreateCommand(cr, vol) =>
      && t.defers == [DeleteKey(cr.keyFile), lock] && WellFormed(t.req) && CredentialsOf(t.req, cr)
      && OptionsOf(t.req, cr.userName, vol)
    case DeleteCheckArguments => t.defers == []
    case DeleteCheckCapability => t.defers == [] && t.req.volumeId != []
    case DeleteLock => t.defers == [] && t.req.volumeId != [] && t.req.capable
    case DeleteDecode => t.defers == [lock] && t.req.volumeId != [] && t.req.capable
    case DeleteCredentials(vol) =>
      && t.defers == [lock] && t.req.volumeId != [] && t.req.capable
      && NewVolOptionsFromVolID(t.req.volumeId, None) == VolumeId.Read(vol)
    case DeleteCommand(cr, vol) =>
      && t.defers == [lock, DeleteKey(cr.keyFile)] && t.req.volumeId != [] && t.req.capable && CredentialsOf(t.req, cr)
      && NewVolOptionsFromVolID(t.req.volumeId, None) == VolumeId.Read(vol)
    case ExpandCheckArguments => t.defers == []
    case ExpandLock => t.defers == [] && t.req.volumeId != []
    case ExpandCredentials => t.defers == [lock] && t.req.volumeId != []
    case ExpandDecode(cr) => t.defers == [lock, DeleteKey(cr.keyFile)] && t.req.volumeId != [] && CredentialsOf(t.req, cr)
    case ExpandCommand(cr, vol) =>
      && t.defers == [lock, DeleteKey(cr.keyFile)] && t.req.volumeId != [] && CredentialsOf(t.req, cr)
      && NewVolOptionsFromVolID(t.req.volumeId, t.req.range) == VolumeId.Read(vol)
    case Return(resp) => WellDeferred(t) && ReplyOf(t.req, resp)
    case Finished(resp) => t.defers == [] && ReplyOf(t.req, resp)
  }

  // ---------- one step ----------

  /** A step keeps a thread's lock and the lock set, or takes a free lock, or gives its own back. */
  ghost predicate LockEffect(sh: Shared, t: Thread, sh': Shared, t': Thread) {
    var id := t.req.LockId();
    || (sh'.locks == sh.locks && LockOf(t') == LockOf(t))
    || (id !in sh.locks && LockOf(t) == None && LockOf(t') == Some(id) && sh'.locks == sh.locks + {id})
    || (LockOf(t) == Some(id) && LockOf(t') == None && sh'.locks == sh.locks - {id})
  }

  ghost predicate KeyEffect(sh: Shared, t: Thread, sh': Shared, t': Thread) {
    || (sh'.keys == sh.keys && KeyOf(t') == KeyOf(t))
    || (KeyOf(t) == None && KeyOf(t').Some? && KeyOf(t').value !in sh.keys && sh'.keys == sh.keys + {KeyOf(t').value})
    || (KeyOf(t).Some? && KeyOf(t') == None && sh'.keys == sh.keys - {KeyOf(t).value})
  }

  /** Only the create command adds a pool, and a thread goes there only having found its pool absent. */
  ghost predicate PoolEffect(sh: Shared, t: Thread, sh': Shared, t': Thread) {
    && (forall pool :: pool in sh'.pools && pool !in sh.pools ==>
          t.pc.CreateCommand? && pool == PoolOf(t.pc.cr, t.pc.vol))
    && (t'.pc.CreateCommand? ==> PoolOf(t'.pc.cr, t'.pc.vol) !in sh'.pools)
  }

  ghost predicate StepEffect(sh: Shared, t: Thread, sh': Shared, t': Thread) {
    InShape(t') && LockEffect(sh, t, sh', t') && KeyEffect(sh, t, sh', t') && PoolEffect(sh, t, sh', t')
  }

  lemma CreateStepEffect(sh: Shared, t: Thread, c: Choice)
    requires InShape(t) && t.pc.OfCreate()
    ensures StepEffect(sh, t, CreateStep(sh, t, c).0, CreateStep(sh, t, c).1)
  {
    hide CreateStep, StepEffect, InShape;
    if t.pc.CreateOptions? || t.pc.CreateExists? || t.pc.CreateCommand? {
      CreateLockedEffect(sh, t, c);
    } else {
      CreateEnteringEffect(sh, t, c);
    }
  }

  lemma CreateEnteringEffect(sh: Shared, t: Thread, c: Choice)
    requires InShape(t) && t.pc.OfCreate() && !t.pc.CreateOptions? && !t.pc.CreateExists? && !t.pc.CreateCommand?
    ensures StepEffect(sh, t, CreateStep(sh, t, c).0, CreateStep(sh, t, c).1)
  {
    hide NewVolumeOptions, RoundOffBytes, RoundUpGiB;
  }

  lemma CreateLockedEffect(sh: Shared, t: Thread, c: Choice)
    requires InShape(t) && (t.pc.CreateOptions? || t.pc.CreateExists? || t.pc.CreateCommand?)
    ensures StepEffect(sh, t, CreateStep(sh, t, c).0, CreateStep(sh, t, c).1)
  {
    hide NewVolumeOptions, RoundOffBytes, RoundUpGiB;
  }

  lemma DeleteStepEffect(sh: Shared, t: Thread, c: Choice)
    requires InShape(t) && t.pc.OfDelete()
    ensures StepEffect(sh, t, DeleteStep(sh, t, c).0, DeleteStep(sh, t, c).1)
  {
    hide NewVolOptionsFromVolID, NewVolumeOptions, RoundOffBytes;
  }

  lemma ExpandStepEffect(sh: Shared, t: Thread, c: Choice)
    requires InShape(t) && t.pc.OfExpand()
    ensures StepEffect(sh, t, ExpandStep(sh, t, c).0, ExpandStep(sh, t, c).1)
  {
    hide ExpandStep, StepEffect, InShape;
    if t.pc.ExpandDecode? { ExpandDecodeEffect(sh, t, c); } else { ExpandOtherEffect(sh, t, c); }
  }

  lemma ExpandOtherEffect(sh: Shared, t: Thread, c: Choice)
    requires InShape(t) && t.pc.OfExpand() && !t.pc.ExpandDecode?
    ensures StepEffect(sh, t, ExpandStep(sh, t, c).0, ExpandStep(sh, t, c).1)
  {
    hide NewVolOptionsFromVolID, NewVolumeOptions, RoundOffBytes, RoundUpGiB;
  }

  lemma ExpandDecodeEffect(sh: Shared, t: Thread, c: Choice)
    requires InShape(t) && t.pc.ExpandDecode?
    ensures StepEffect(sh, t, ExpandStep(sh, t, c).0, ExpandStep(sh, t, c).1)
  {
    hide NewVolumeOptions, RoundOffBytes, VolumeId.Decode;
  }

  lemma UnwindEffect(sh: Shared, t: Thread)
    requires InShape(t) && t.pc.Return?
    ensures StepEffect(sh, t, Unwind(sh, t, t.pc.resp).0, Unwind(sh, t, t.pc.resp).1)
  {
    hide NewVolumeOptions;
  }

  lemma StepHasEffect(sh: Shared, t: Thread, c: Choice)
    requires InShape(t) && (t.pc.CreateCommand? ==> PoolOf(t.pc.cr, t.pc.vol) !in sh.pools)
    ensures StepEffect(sh, t, Step(sh, t, c).0, Step(sh, t, c).1)
  {
    hide InShape, LockEffect, KeyEffect, PoolEffect, CreateStep, DeleteStep, ExpandStep, Unwind;
    if t.pc.Return? { UnwindEffect(sh, t); }
    else if t.pc.OfCreate() { CreateStepEffect(sh, t, c); }
    else if t.pc.OfDelete() { DeleteStepEffect(sh, t, c); }
    else if t.pc.OfExpand() { ExpandStepEffect(sh, t, c); }
    else { FinishedEffect(sh, t); }
  }

  lemma FinishedEffect(sh: Shared, t: Thread)
    requires InShape(t) && t.pc.Finished?
    ensures StepEffect(sh, t, sh, t)
  {
  }

  // ---------- every interleaving ----------

  ghost predicate Holds(s: State, id: RequestId, lock: Str) {
    id in s.threads && LockOf(s.threads[id]) == Some(lock)
  }

  ghost predicate HasKey(s: State, id: RequestId, file: FileName) {
    id in s.threads && KeyOf(s.threads[id]) == Some(file)
  }

  /** The lock set is exactly what the threads have deferred releasing, each lock by one thread. */
  ghost predicate LocksAreHeld(s: State) {
    && (forall lock :: lock in s.shared.locks <==> exists id :: Holds(s, id, lock))
    && (forall lock, a, b :: Holds(s, a, lock) && Holds(s, b, lock) ==> a == b)
  }

  ghost predicate KeysAreOwned(s: State) {
    && (forall file: FileName :: file in s.shared.keys <==> exists id :: HasKey(s, id, file))
    && (forall file: FileName, a, b :: HasKey(s, a, file) && HasKey(s, b, file) ==> a == b)
  }

  ghost predicate CreatesAbsentPools(s: State) {
    forall id :: id in s.threads && s.threads[id].pc.CreateCommand? ==>
      PoolOf(s.threads[id].pc.cr, s.threads[id].pc.vol) !in s.shared.pools
  }

  ghost predicate Inv(s: State) {
    && (forall id :: id in s.threads ==> InShape(s.threads[id]))
    && LocksAreHeld(s) && KeysAreOwned(s) && CreatesAbsentPools(s)
  }

  lemma AdvanceKeepsLocks(s: State, id: RequestId, sh': Shared, t': Thread, crashed: bool)
    requires LocksAreHeld(s) && id in s.threads && LockEffect(s.shared, s.threads[id], sh', t')
    ensures LocksAreHeld(State(sh', s.threads[id := t'], crashed))
  {
    var s', t, mine := State(sh', s.threads[id := t'], crashed), s.threads[id], s.threads[id].req.LockId();
    assert forall x, lock :: x != id ==> (Holds(s', x, lock) <==> Holds(s, x, lock));
    assert forall lock :: Holds(s', id, lock) <==> LockOf(t') == Some(lock);
    assert forall lock :: Holds(s, id, lock) <==> LockOf(t) == Some(lock);
    hide Holds;
    forall lock ensures lock in sh'.locks <==> exists x :: Holds(s', x, lock) {
      if lock in sh'.locks && lock in s.shared.locks {
        var x :| Holds(s, x, lock);
        assert Holds(s', x, lock);
      }
    }
  }

  lemma AdvanceKeepsKeys(s: State, id: RequestId, sh': Shared, t': Thread, crashed: bool)
    requires KeysAreOwned(s) && id in s.threads && KeyEffect(s.shared, s.threads[id], sh', t')
    ensures KeysAreOwned(State(sh', s.threads[id := t'], crashed))
  {
    var s', t := State(sh', s.threads[id := t'], crashed), s.threads[id];
    assert forall x, file: FileName :: x != id ==> (HasKey(s', x, file) <==> HasKey(s, x, file));
    assert forall file: FileName :: HasKey(s', id, file) <==> KeyOf(t') == Some(file);
    assert forall file: FileName :: HasKey(s, id, file) <==> KeyOf(t) == Some(file);
    hide HasKey;
    forall file: FileName ensures file in sh'.keys <==> exists x :: HasKey(s', x, file) {
      if file in sh'.keys && file in s.shared.keys {
        var x :| HasKey(s, x, file);
        assert HasKey(s', x, file);
      }
    }
  }

  /** Two creates of one pool have one name, so one lock. */
  lemma SamePoolSameThread(s: State, a: RequestId, b: RequestId)
    requires Inv(s) && a in s.threads && b in s.threads
    requires s.threads[a].pc.CreateCommand? && s.threads[b].pc.CreateCommand?
    requires PoolOf(s.threads[a].pc.cr, s.threads[a].pc.vol) == PoolOf(s.threads[b].pc.cr, s.threads[b].pc.vol)
    ensures a == b
  {
    hide RoundOffBytes, VolumeId.Compose;
    var ta, tb := s.threads[a], s.threads[b];
    assert InShape(ta) && InShape(tb);
    PrefixIsInjective(ta.req.name, tb.req.name);
    assert Holds(s, a, ta.req.name) && Holds(s, b, tb.req.name);
  }

  lemma AdvanceKeepsPools(s: State, id: RequestId, sh': Shared, t': Thread, crashed: bool)
    requires Inv(s) && id in s.threads && PoolEffect(s.shared, s.threads[id], sh', t')
    ensures CreatesAbsentPools(State(sh', s.threads[id := t'], crashed))
  {
    var s' := State(sh', s.threads[id := t'], crashed);
    forall x | x in s'.threads && s'.threads[x].pc.CreateCommand?
      ensures PoolOf(s'.threads[x].pc.cr, s'.threads[x].pc.vol) !in sh'.pools
    {
      var pool := PoolOf(s'.threads[x].pc.cr, s'.threads[x].pc.vol);
      if x != id && pool in sh'.pools {
        SamePoolSameThread(s, x, id);
      }
    }
  }

  lemma ExecKeepsInv(s: State, a: Action)
    requires Inv(s)
    ensures Inv(Exec(s, a))
  {
    hide Step, InShape, LockEffect, KeyEffect, PoolEffect;
    if !s.crashed {
      match a
      case Arrive(id, req) =>
        if id !in s.threads { ArriveKeepsInv(s, id, req); }
      case Advance(id, c) =>
        if id in s.threads {
          var t := s.threads[id];
          var (sh', t') := Step(s.shared, t, c);
          StepHasEffect(s.shared, t, c);
          AdvanceKeepsLocks(s, id, sh', t', t'.pc == Finished(Panicked));
          AdvanceKeepsKeys(s, id, sh', t', t'.pc == Finished(Panicked));
          AdvanceKeepsPools(s, id, sh', t', t'.pc == Finished(Panicked));
        }
    }
  }

  lemma ArriveKeepsInv(s: State, id: RequestId, req: Request)
    requires Inv(s) && id !in s.threads
    ensures Inv(s.(threads := s.threads[id := Start(req)]))
  {
    var s' := s.(threads := s.threads[id := Start(req)]);
    assert InShape(Start(req)) && LockOf(Start(req)) == None && KeyOf(Start(req)) == None;
    assert forall x, lock :: Holds(s', x, lock) <==> Holds(s, x, lock);
    assert forall x, file: FileName :: HasKey(s', x, file) <==> HasKey(s, x, file);
  }

  lemma {:induction false} RunKeepsInv(s: State, actions: seq<Action>)
    requires Inv(s)
    ensures Inv(Run(s, actions))
    decreases |actions|
  {
    if actions != [] {
      ExecKeepsInv(s, actions[0]);
      RunKeepsInv(Exec(s, actions[0]), actions[1..]);
    }
  }
}
