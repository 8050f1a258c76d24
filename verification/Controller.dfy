/**
 * The three controller RPCs of pkg/fcfs-driver/controllerserver.go as threads over shared state:
 * one step for each lock operation, key file, backend command and deferred call.
 */
module Controller {
  import opened Bytes
  import opened Wrappers
  import opened VolumeSize
  import opened Credentials
  import opened VolumeOptions

  datatype Code = InvalidArgument | Aborted | Internal

  datatype Response =
    | Created(volumeId: Str, capacity: int64)
    | Deleted
    | Expanded(capacity: int64)
    | Failed(code: Code)
    | Panicked

  datatype Request =
    | CreateVolume(capable: bool, name: Str, blockCaps: seq<bool>, parameters: map<Str, Str>,
                   secrets: map<Str, Str>, required: int64)
    | DeleteVolume(capable: bool, volumeId: Str, secrets: map<Str, Str>)
    | ExpandVolume(volumeId: Str, secrets: map<Str, Str>, range: Option<int64>)
  {
    /** What the request locks: a create its name, the others the volume ID. */
    function LockId(): Str {
      if CreateVolume? then name else volumeId
    }
  }

  datatype Deferred = ReleaseLock(id: Str) | DeleteKey(file: FileName)

  datatype Pc =
    | CreateCheckCapability
    | CreateCredentials
    | CreateCheckArguments(cr: Credentials)
    | CreateLock(cr: Credentials)
    | CreateOptions(cr: Credentials)
    | CreateExists(cr: Credentials, vol: VolumeOptions)
    | CreateCommand(cr: Credentials, vol: VolumeOptions)
    | DeleteCheckArguments
    | DeleteCheckCapability
    | DeleteLock
    | DeleteDecode
    | DeleteCredentials(vol: VolumeOptions)
    | DeleteCommand(cr: Credentials, vol: VolumeOptions)
    | ExpandCheckArguments
    | ExpandLock
    | ExpandCredentials
    | ExpandDecode(cr: Credentials)
    | ExpandCommand(cr: Credentials, vol: VolumeOptions)
    | Return(resp: Response)
    | Finished(resp: Response)
  {
    predicate OfCreate() {
      CreateCheckCapability? || CreateCredentials? || CreateCheckArguments? || CreateLock? || CreateOptions?
      || CreateExists? || CreateCommand?
    }

    predicate OfDelete() {
      DeleteCheckArguments? || DeleteCheckCapability? || DeleteLock? || DeleteDecode? || DeleteCredentials?
      || DeleteCommand?
    }

    predicate OfExpand() {
      ExpandCheckArguments? || ExpandLock? || ExpandCredentials? || ExpandDecode? || ExpandCommand?
    }
  }

  datatype ThreadState = ThreadState(req: Request, pc: Pc, defers: seq<Deferred>) {
    predicate Matches() {
      && (pc.OfCreate() ==> req.CreateVolume?)
      && (pc.OfDelete() ==> req.DeleteVolume?)
      && (pc.OfExpand() ==> req.ExpandVolume?)
    }

    function Goto(pc: Pc): ThreadState {
      this.(pc := pc)
    }

    function Defer(d: Deferred, pc: Pc): ThreadState {
      this.(pc := pc, defers := defers + [d])
    }

    function Fail(code: Code): ThreadState {
      Goto(Return(Failed(code)))
    }
  }

  type Thread = t: ThreadState | t.Matches()
    witness ThreadState(DeleteVolume(false, [], map[]), DeleteCheckArguments, [])

  /** A pool is known to the backend by configuration, owner and name. */
  datatype Pool = Pool(configURL: Str, userName: Str, name: Str)

  function PoolOf(cr: Credentials, vol: VolumeOptions): Pool {
    Pool(vol.baseConfigURL, cr.userName, vol.volName)
  }

  /** Quotas are in GiB. */
  datatype Shared = Shared(locks: set<Str>, pools: map<Pool, int>, keys: set<FileName>)

  /** What the outside world decides for one step: a file name, and whether a call fails and still took effect. */
  datatype Choice = Choice(file: FileName, storeFault: Fault, commandFails: bool, commandApplied: bool)

  function Start(req: Request): Thread {
    ThreadState(req, match req
                     case CreateVolume(_, _, _, _, _, _) => CreateCheckCapability
                     case DeleteVolume(_, _, _) => DeleteCheckArguments
                     case ExpandVolume(_, _, _) => ExpandCheckArguments, [])
  }

  // ---------- backend commands ----------

  /** create fails on a pool that exists. */
  function CreatePool(sh: Shared, pool: Pool, quota: int, c: Choice): (Shared, bool) {
    var created := sh.(pools := sh.pools[pool := quota]);
    if pool in sh.pools then (sh, false)
    else if c.commandFails then (if c.commandApplied then created else sh, false)
    else (created, true)
  }

  /** delete succeeds on a pool that is gone already. */
  function DeletePool(sh: Shared, pool: Pool, c: Choice): (Shared, bool) {
    var deleted := sh.(pools := sh.pools - {pool});
    if c.commandFails then (if c.commandApplied then deleted else sh, false) else (deleted, true)
  }

  /** quota fails on a pool that does not exist. */
  function SetQuota(sh: Shared, pool: Pool, quota: int, c: Choice): (Shared, bool) {
    var changed := sh.(pools := sh.pools[pool := quota]);
    if pool !in sh.pools then (sh, false)
    else if c.commandFails then (if c.commandApplied then changed else sh, false)
    else (changed, true)
  }

  // ---------- steps ----------

  /** NewAdminCredentials followed by the deferred DeleteCredentials; next says where to go with them. */
  function MakeCredentials(sh: Shared, t: Thread, c: Choice, next: Credentials -> Pc): (Shared, ThreadState) {
    match Admin(t.req.secrets, c.file, c.storeFault == NoFault && c.file !in sh.keys)
    case Err(_) => (sh, t.Fail(InvalidArgument))
    case Ok(cr) => (sh.(keys := sh.keys + {cr.keyFile}), t.Defer(DeleteKey(cr.keyFile), next(cr)))
  }

  /** TryAcquire followed by the deferred Release. */
  function TryLock(sh: Shared, t: Thread, next: Pc): (Shared, ThreadState) {
    var id := t.req.LockId();
    if id in sh.locks then (sh, t.Fail(Aborted))
    else (sh.(locks := sh.locks + {id}), t.Defer(ReleaseLock(id), next))
  }

  /** A panic unwinds through the deferred calls like a return. */
  function DecodeId(sh: Shared, t: Thread, range: Option<int64>, next: VolumeOptions -> Pc): (Shared, ThreadState)
    requires !t.req.CreateVolume?
  {
    match NewVolOptionsFromVolID(t.req.volumeId, range)
    case Panic => (sh, t.Goto(Return(Panicked)))
    case Malformed => (sh, t.Fail(Internal))
    case Read(vol) => (sh, t.Goto(next(vol)))
  }

  /** Runs the last deferred call, or finishes. */
  function Unwind(sh: Shared, t: Thread, resp: Response): (Shared, ThreadState) {
    if t.defers == [] then (sh, t.Goto(Finished(resp)))
    else
      var last := t.defers[|t.defers| - 1];
      (match last
       case ReleaseLock(id) => sh.(locks := sh.locks - {id})
       case DeleteKey(file) => sh.(keys := sh.keys - {file}),
       t.(defers := t.defers[..|t.defers| - 1]))
  }

  function CreateStep(sh: Shared, t: Thread, c: Choice): (Shared, ThreadState)
    requires t.pc.OfCreate()
  {
    match t.pc
    case CreateCheckCapability => (sh, if t.req.capable then t.Goto(CreateCredentials) else t.Fail(InvalidArgument))
    case CreateCredentials => MakeCredentials(sh, t, c, cr => CreateCheckArguments(cr))
    case CreateCheckArguments(cr) =>
      (sh, if t.req.name == [] || t.req.blockCaps == [] || true in t.req.blockCaps then t.Fail(InvalidArgument)
           else t.Goto(CreateLock(cr)))
    case CreateLock(cr) => TryLock(sh, t, CreateOptions(cr))
    case CreateOptions(cr) =>
      (match NewVolumeOptions(t.req.parameters, t.req.name, cr.userName, t.req.required)
       case Err(_) => (sh, t.Fail(InvalidArgument))
       case Ok(vol) => (sh, t.Goto(CreateExists(cr, vol))))
    case CreateExists(cr, vol) =>
      (sh, if c.commandFails then t.Fail(Internal)
           else if PoolOf(cr, vol) in sh.pools then t.Goto(Return(Created(vol.volID, CreateReported(t.req.required))))
           else t.Goto(CreateCommand(cr, vol)))
    case CreateCommand(cr, vol) =>
      var (sh', ok) := CreatePool(sh, PoolOf(cr, vol), RoundUpGiB(vol.capacityBytes), c);
      (sh', if ok then t.Goto(Return(Created(vol.volID, CreateReported(t.req.required)))) else t.Fail(Internal))
  }

  function DeleteStep(sh: Shared, t: Thread, c: Choice): (Shared, ThreadState)
    requires t.pc.OfDelete()
  {
    match t.pc
    case DeleteCheckArguments =>
      (sh, if t.req.volumeId == [] then t.Fail(InvalidArgument) else t.Goto(DeleteCheckCapability))
    case DeleteCheckCapability => (sh, if t.req.capable then t.Goto(DeleteLock) else t.Fail(InvalidArgument))
    case DeleteLock => TryLock(sh, t, DeleteDecode)
    case DeleteDecode => DecodeId(sh, t, None, vol => DeleteCredentials(vol))
    case DeleteCredentials(vol) => MakeCredentials(sh, t, c, cr => DeleteCommand(cr, vol))
    case DeleteCommand(cr, vol) =>
      var (sh', ok) := DeletePool(sh, PoolOf(cr, vol), c);
      (sh', if ok then t.Goto(Return(Deleted)) else t.Fail(Internal))
  }

  function ExpandStep(sh: Shared, t: Thread, c: Choice): (Shared, ThreadState)
    requires t.pc.OfExpand()
  {
    match t.pc
    case ExpandCheckArguments =>
      (sh, if t.req.volumeId == [] then t.Fail(InvalidArgument) else t.Goto(ExpandLock))
    case ExpandLock => TryLock(sh, t, ExpandCredentials)
    case ExpandCredentials => MakeCredentials(sh, t, c, cr => ExpandDecode(cr))
    case ExpandDecode(cr) => DecodeId(sh, t, t.req.range, vol => ExpandCommand(cr, vol))
    case ExpandCommand(cr, vol) =>
      var (sh', ok) := SetQuota(sh, PoolOf(cr, vol), ResizeQuotaGiB(vol.capacityBytes), c);
      (sh', if ok then t.Goto(Return(Expanded(ResizeReported(vol.capacityBytes)))) else t.Fail(Internal))
  }

  function Step(sh: Shared, t: Thread, c: Choice): (r: (Shared, ThreadState))
    ensures r.1.Matches() && r.1.req == t.req
  {
    if t.pc.Return? then Unwind(sh, t, t.pc.resp)
    else if t.pc.Finished? then (sh, t)
    else if t.pc.OfCreate() then CreateStep(sh, t, c)
    else if t.pc.OfDelete() then DeleteStep(sh, t, c)
    else ExpandStep(sh, t, c)
  }

  // ---------- any number of requests ----------

  type RequestId = nat

  datatype State = State(shared: Shared, threads: map<RequestId, Thread>, crashed: bool)

  datatype Action = Arrive(id: RequestId, req: Request) | Advance(id: RequestId, choice: Choice)

  /** No interceptor recovers, so a panic that has unwound its goroutine ends the process. */
  function Exec(s: State, a: Action): State {
    if s.crashed then s
    else
      match a
      case Arrive(id, req) => if id in s.threads then s else s.(threads := s.threads[id := Start(req)])
      case Advance(id, c) =>
        if id !in s.threads then s
        else
          var (sh, t) := Step(s.shared, s.threads[id], c);
          State(sh, s.threads[id := t], t.pc == Finished(Panicked))
  }

  function Run(s: State, actions: seq<Action>): State
    decreases |actions|
  {
    if actions == [] then s else Run(Exec(s, actions[0]), actions[1..])
  }

  /** A server that has just started: no locks, no key files, no requests, any pools. */
  function Fresh(pools: map<Pool, int>): State {
    State(Shared({}, pools, {}), map[], false)
  }

  // ---------- one request by itself ----------

  /** How many of its own steps a request has left, at most. */
  function Rank(t: Thread): nat {
    match t.pc
    case CreateCheckCapability => 10 + |t.defers|
    case CreateCredentials => 9 + |t.defers|
    case CreateCheckArguments(_) => 7 + |t.defers|
    case CreateLock(_) => 6 + |t.defers|
    case CreateOptions(_) => 4 + |t.defers|
    case CreateExists(_, _) => 3 + |t.defers|
    case CreateCommand(_, _) => 2 + |t.defers|
    case DeleteCheckArguments => 9 + |t.defers|
    case DeleteCheckCapability => 8 + |t.defers|
    case DeleteLock => 7 + |t.defers|
    case DeleteDecode => 5 + |t.defers|
    case DeleteCredentials(_) => 4 + |t.defers|
    case DeleteCommand(_, _) => 2 + |t.defers|
    case ExpandCheckArguments => 8 + |t.defers|
    case ExpandLock => 7 + |t.defers|
    case ExpandCredentials => 5 + |t.defers|
    case ExpandDecode(_) => 3 + |t.defers|
    case ExpandCommand(_, _) => 2 + |t.defers|
    case Return(_) => 1 + |t.defers|
    case Finished(_) => 0
  }
}
