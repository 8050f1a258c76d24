/**
 * The stage, unstage, publish and unpublish RPCs of pkg/fcfs-driver/nodeserver.go as threads over a mount table:
 * one step for each lock operation, look at a path and change of it.
 */
module Node {
  import opened Bytes
  import opened Wrappers
  import opened VolumeOptions

  /** A mount answers, or stat on it fails as on a dead FUSE mount, or only reading it fails. */
  datatype Condition = Answering | Unreachable | Unreadable

  /**
   * A mount shows the volume of the stage that made it; or it is the bind of a plain directory, onto a path of its own
   * file system, which no comparison of devices can tell from a directory, or onto one of another file system.
   */
  datatype Layer = Volume(vol: Str, condition: Condition) | Local | Foreign {
    predicate Healthy() {
      Volume? && condition == Answering
    }

    predicate Dead() {
      Volume? && condition == Unreachable
    }

    predicate Readable() {
      Volume? ==> condition == Answering
    }
  }

  /** The directories that exist, each with its mounts, the last on top. */
  type Table = map<Str, seq<Layer>>

  datatype Code = InvalidArgument | Aborted | Internal | NotFound

  datatype Response = Succeeded | Failed(code: Code) | Panicked

  /** path is what the request changes: a staging path for the first two, a target path for the others. */
  datatype Request =
    | Stage(valid: bool, vol: Str, path: Str, context: map<Str, Str>)
    | Unstage(valid: bool, vol: Str, path: Str)
    | Publish(valid: bool, vol: Str, path: Str, staging: Str)
    | Unpublish(valid: bool, vol: Str, path: Str)

  datatype Pc =
    | Validate
    | TryLock
    // ensureMountPoint
    | Probe
    | ProbeCorrupted
    | ReadDir
    | UnmountInvalid
    | MakeDirectory
    // NodeStageVolume
    | MakeOptions
    | FuseMount
    // NodePublishVolume
    | BindMount
    | RemoveUnbound
    // NodeUnstageVolume and CleanupMountPoint
    | CheckMounted
    | CleanupExists
    | CleanupProbe
    | CleanupUnmount
    | CleanupRecheck
    | CleanupRemove
    // NodeUnpublishVolume
    | Umount
    | RemoveUnmounted
    | Return(resp: Response)
    | Finished(resp: Response)
  {
    predicate OfEnsure() {
      Probe? || ProbeCorrupted? || ReadDir? || UnmountInvalid? || MakeDirectory?
    }

    predicate OfMount() {
      MakeOptions? || FuseMount? || BindMount? || RemoveUnbound?
    }

    predicate OfUnmount() {
      CheckMounted? || CleanupExists? || CleanupProbe? || CleanupUnmount? || CleanupRecheck? || CleanupRemove? || Umount?
      || RemoveUnmounted?
    }
  }

  datatype Thread = Thread(req: Request, pc: Pc, locked: bool) {
    function Goto(pc: Pc): Thread {
      this.(pc := pc)
    }

    function Fail(code: Code): Thread {
      Goto(Return(Failed(code)))
    }
  }

  datatype Shared = Shared(locks: set<Str>, table: Table)

  /**
   * What the outside world decides for one step: whether a look at a path fails, whether a change does and a failing
   * mount is there nevertheless, and whether a directory that is bound lies on the file system of the target.
   */
  datatype Choice = Choice(ioError: bool, fails: bool, applied: bool, sameDevice: bool)

  function Start(req: Request): Thread {
    Thread(req, Validate, false)
  }

  // ---------- looking at a path ----------

  datatype Seen = Missing | NotMounted | Mounted | StatFailed

  /** IsLikelyNotMountPoint: a mount that it can stat is seen by its device, so a Local one is not. */
  function Look(table: Table, path: Str, c: Choice): Seen {
    if c.ioError then StatFailed
    else if path !in table then Missing
    else if Bare(table[path]) then NotMounted
    else if Top(table[path]).Dead() then StatFailed
    else Mounted
  }

  /** A directory, as far as its device tells. */
  predicate Bare(layers: seq<Layer>) {
    layers == [] || Top(layers) == Local
  }

  function Top(layers: seq<Layer>): Layer
    requires layers != []
  {
    layers[|layers| - 1]
  }

  function Pop(layers: seq<Layer>): seq<Layer>
    requires layers != []
  {
    layers[..|layers| - 1]
  }

  predicate IsCorruptedDir(table: Table, path: Str, c: Choice) {
    !c.ioError && path in table && table[path] != [] && Top(table[path]).Dead()
  }

  predicate CanRead(table: Table, path: Str, c: Choice) {
    !c.ioError && path in table && (table[path] == [] || Top(table[path]).Readable())
  }

  // ---------- changing a path ----------

  function Unmounted(table: Table, path: Str, c: Choice): Option<Table> {
    if c.fails || path !in table || table[path] == [] then None else Some(table[path := Pop(table[path])])
  }

  /** Making a directory is no error when it exists. */
  function WithDirectory(table: Table, path: Str, c: Choice): Option<Table> {
    if c.fails then None else if path in table then Some(table) else Some(table[path := []])
  }

  /**
   * The table after a mount command, and whether it succeeded. A bind is two commands, of which the second may
   * fail.
   */
  function WithMount(table: Table, path: Str, layer: Layer, c: Choice): (Table, bool) {
    if path !in table then (table, false)
    else
      var mounted := table[path := table[path] + [layer]];
      if c.fails then (if c.applied then mounted else table, false) else (mounted, true)
  }

  /** What a bind mount of a path shows: what is on top there; a path that cannot be stat'ed cannot be bound. */
  function Source(table: Table, path: Str, c: Choice): Option<Layer> {
    if path !in table then None
    else if Bare(table[path]) then Some(if c.sameDevice then Local else Foreign)
    else if Top(table[path]).Dead() then None
    else Some(Top(table[path]))
  }

  /** A directory with a mount on it cannot be removed. */
  function Removed(table: Table, path: Str, c: Choice): Option<Table> {
    if c.fails || path !in table || table[path] != [] then None else Some(table - {path})
  }

  // ---------- steps ----------

  function EnsureStep(sh: Shared, t: Thread, c: Choice): (Shared, Thread) {
    var p := t.req.path;
    match t.pc
    case Probe =>
      (sh, match Look(sh.table, p, c)
           case StatFailed => t.Goto(ProbeCorrupted)
           case Mounted => t.Goto(ReadDir)
           case Missing => t.Goto(MakeDirectory)
           case NotMounted => t.Goto(MakeDirectory))
    case ProbeCorrupted =>
      (sh, if IsCorruptedDir(sh.table, p, c) then t.Goto(ReadDir) else t.Fail(Internal))
    case ReadDir =>
      (sh, if CanRead(sh.table, p, c) then t.Goto(Return(Succeeded)) else t.Goto(UnmountInvalid))
    case UnmountInvalid =>
      // A successful unmount still answers with the error of the directory read.
      (match Unmounted(sh.table, p, c)
       case None => (sh, t.Fail(Internal))
       case Some(table) => (sh.(table := table), t.Fail(Internal)))
    case MakeDirectory =>
      (match WithDirectory(sh.table, p, c)
       case None => (sh, t.Fail(Internal))
       case Some(table) => (sh.(table := table), t.Goto(if t.req.Stage? then MakeOptions else BindMount)))
    case _ => (sh, t)
  }

  function Staging(req: Request): Str {
    if req.Publish? then req.staging else []
  }

  function MountStep(sh: Shared, t: Thread, c: Choice): (Shared, Thread) {
    var p := t.req.path;
    match t.pc
    case MakeOptions =>
      (match StageOptions(t.req.vol, if t.req.Stage? then t.req.context else map[])
       case Panic => (sh, t.Goto(Return(Panicked)))
       case Malformed => (sh, t.Fail(Internal))
       case Read(options) => (sh, if options.Ok? then t.Goto(FuseMount) else t.Fail(Internal)))
    case FuseMount =>
      var (table, ok) := WithMount(sh.table, p, Volume(t.req.vol, Answering), c);
      (sh.(table := table), if ok then t.Goto(Return(Succeeded)) else t.Fail(Internal))
    case BindMount =>
      (match Source(sh.table, Staging(t.req), c)
       case None => (sh, t.Goto(RemoveUnbound))
       case Some(layer) =>
         var (table, ok) := WithMount(sh.table, p, layer, c);
         (sh.(table := table), t.Goto(if ok then Return(Succeeded) else RemoveUnbound)))
    case RemoveUnbound =>
      (match Removed(sh.table, p, c)
       case None => (sh, t.Fail(Internal))
       case Some(table) => (sh.(table := table), t.Fail(Internal)))
    case _ => (sh, t)
  }

  function UnmountStep(sh: Shared, t: Thread, c: Choice): (Shared, Thread) {
    var p := t.req.path;
    match t.pc
    case CheckMounted =>
      (sh, match Look(sh.table, p, c)
           case Missing => t.Fail(NotFound)
           case StatFailed => t.Fail(Internal)
           case NotMounted => t.Goto(Return(Succeeded))
           case Mounted => t.Goto(CleanupExists))
    case CleanupExists =>
      (sh, if c.ioError then t.Fail(Internal)
           else if p !in sh.table then t.Goto(Return(Succeeded))
           else if IsCorruptedDir(sh.table, p, c) then t.Goto(CleanupUnmount)
           else t.Goto(CleanupProbe))
    case CleanupProbe =>
      (sh, match Look(sh.table, p, c)
           case Missing => t.Fail(Internal)
           case StatFailed => t.Fail(Internal)
           case NotMounted => t.Goto(CleanupRemove)
           case Mounted => t.Goto(CleanupUnmount))
    case CleanupUnmount =>
      (match Unmounted(sh.table, p, c)
       case None => (sh, t.Fail(Internal))
       case Some(table) => (sh.(table := table), t.Goto(CleanupRecheck)))
    case CleanupRecheck =>
      (sh, if Look(sh.table, p, c) == NotMounted then t.Goto(CleanupRemove) else t.Fail(Internal))
    case CleanupRemove =>
      (match Removed(sh.table, p, c)
       case None => (sh, t.Fail(Internal))
       case Some(table) => (sh.(table := table), t.Goto(Return(Succeeded))))
    case Umount =>
      (match Unmounted(sh.table, p, c)
       case None => (sh, t.Fail(Internal))
       case Some(table) => (sh.(table := table), t.Goto(RemoveUnmounted)))
    case RemoveUnmounted =>
      // A directory that is gone already is no error.
      if p !in sh.table then (sh, t.Goto(Return(Succeeded)))
      else
        (match Removed(sh.table, p, c)
         case None => (sh, t.Fail(Internal))
         case Some(table) => (sh.(table := table), t.Goto(Return(Succeeded))))
    case _ => (sh, t)
  }

  function Step(sh: Shared, t: Thread, c: Choice): (r: (Shared, Thread))
    ensures r.1.req == t.req
  {
    match t.pc
    case Validate =>
      (sh, if !t.req.valid || (t.req.Stage? && t.req.path !in sh.table) then t.Fail(InvalidArgument) else t.Goto(TryLock))
    case TryLock =>
      if t.req.vol in sh.locks then (sh, t.Fail(Aborted))
      else
        var first := match t.req
                     case Stage(_, _, _, _) => Probe
                     case Publish(_, _, _, _) => Probe
                     case Unstage(_, _, _) => CheckMounted
                     case Unpublish(_, _, _) => Umount;
        (sh.(locks := sh.locks + {t.req.vol}), Thread(t.req, first, true))
    case Return(resp) =>
      if t.locked then (sh.(locks := sh.locks - {t.req.vol}), t.(locked := false)) else (sh, t.Goto(Finished(resp)))
    case Finished(_) => (sh, t)
    case _ =>
      if t.pc.OfEnsure() then EnsureStep(sh, t, c)
      else if t.pc.OfMount() then MountStep(sh, t, c)
      else UnmountStep(sh, t, c)
  }

  // ---------- any number of requests, and an environment that breaks mounts ----------

  type RequestId = nat

  datatype State = State(shared: Shared, threads: map<RequestId, Thread>, crashed: bool)

  datatype Action =
    | Arrive(id: RequestId, req: Request)
    | Advance(id: RequestId, choice: Choice)
    | Corrupt(path: Str, condition: Condition)

  function Exec(s: State, a: Action): State {
    if s.crashed then s
    else
      match a
      case Arrive(id, req) => if id in s.threads then s else s.(threads := s.threads[id := Start(req)])
      case Advance(id, c) =>
        if id !in s.threads then s
        else
          var (sh, t) := Step(s.shared, s.threads[id], c);
          State(sh, s.threads[id := t], t.pc == Finished(Panicked))
      case Corrupt(path, condition) =>
        // A directory of the node does not break by itself.
        var table := s.shared.table;
        if path !in table || table[path] == [] || !Top(table[path]).Volume? then s
        else s.(shared := s.shared.(table := table[path := WithCondition(table[path], condition)]))
  }

  /** The mount on top changes its condition, for better or worse. */
  function WithCondition(layers: seq<Layer>, condition: Condition): seq<Layer>
    requires layers != [] && Top(layers).Volume?
  {
    Pop(layers) + [Top(layers).(condition := condition)]
  }

  function Run(s: State, actions: seq<Action>): State
    decreases |actions|
  {
    if actions == [] then s else Run(Exec(s, actions[0]), actions[1..])
  }

  function Fresh(table: Table): State {
    State(Shared({}, table), map[], false)
  }
}
