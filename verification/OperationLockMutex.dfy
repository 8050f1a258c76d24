/** OperationLock with its mutex: threads that take it, test one map at a time, read, write and unlock. */
module OperationLockMutex {
  import opened Wrappers
  import opened OperationLock

  type Thread = nat

  /** Where a thread is inside tryAcquire or release. */
  datatype Pc =
    | Idle
    | Waiting(call: Call)
    | Testing(call: Call, next: nat)
    | ReadingCount(call: Call)
    | WritingCount(call: Call, val: int)
    | LookingUp(call: Call)
    | Lowering(call: Call, val: int)
    | TestingZero(call: Call)
    | Deleting(call: Call)
    | Unlocking(call: Call, reply: Reply)
  {
    predicate Critical() {
      !Idle? && !Waiting?
    }
  }

  datatype Entry = Entry(thread: Thread, call: Call, reply: Reply)

  datatype State = State(locks: Tables, mutex: Option<Thread>, pcs: map<Thread, Pc>, history: seq<Entry>) {
    function PcOf(t: Thread): Pc {
      if t in pcs then pcs[t] else Idle
    }

    function At(t: Thread, pc: Pc): State {
      this.(pcs := pcs[t := pc])
    }
  }

  const START := State(EMPTY, None, map[], [])

  datatype Action = Invoke(thread: Thread, call: Call) | Step(thread: Thread)

  /** One machine step of a thread that is not idle; a thread waiting for a taken mutex stays. */
  function Exec(s: State, a: Action): State {
    match a
    case Invoke(t, call) => if s.PcOf(t) == Idle then s.At(t, Waiting(call)) else s
    case Step(t) =>
      match s.PcOf(t)
      case Idle => s
      case Waiting(call) =>
        if s.mutex.Some? then s
        else s.(mutex := Some(t)).At(t, if call.Release? then LookingUp(call) else Testing(call, 0))
      case Testing(call, next) =>
        if call.op !in OPERATIONS then s.At(t, Unlocking(call, Refused(NotSupported)))
        else if next < |Blockers(call.op)| then
          if s.locks.Held(Blockers(call.op)[next], call.id)
          then s.At(t, Unlocking(call, Refused(AlreadyExists(Blockers(call.op)[next]))))
          else s.At(t, Testing(call, next + 1))
        else if call.op == Delete || call.op == Expand then s.At(t, WritingCount(call, 0))
        else s.At(t, ReadingCount(call))
      case ReadingCount(call) => s.At(t, WritingCount(call, s.locks.Count(call.op, call.id)))
      case WritingCount(call, val) =>
        s.(locks := s.locks.SetCount(call.op, call.id, val + 1)).At(t, Unlocking(call, Granted))
      case LookingUp(call) =>
        if s.locks.Held(call.op, call.id) then s.At(t, Lowering(call, s.locks.Count(call.op, call.id)))
        else s.At(t, Unlocking(call, Released))
      case Lowering(call, val) =>
        s.(locks := s.locks.SetCount(call.op, call.id, val - 1)).At(t, TestingZero(call))
      case TestingZero(call) =>
        s.At(t, if s.locks.Count(call.op, call.id) == 0 then Deleting(call) else Unlocking(call, Released))
      case Deleting(call) =>
        s.(locks := s.locks.Remove(call.op, call.id)).At(t, Unlocking(call, Released))
      case Unlocking(call, reply) =>
        s.(mutex := None, history := s.history + [Entry(t, call, reply)]).At(t, Idle)
  }

  function RunFine(s: State, actions: seq<Action>): State
    decreases |actions|
  {
    if actions == [] then s else RunFine(Exec(s, actions[0]), actions[1..])
  }

  // ---------- the atomic run that a fine-grained run stands for ----------

  function CallsOf(h: seq<Entry>): (r: seq<Call>)
    ensures |r| == |h|
  {
    seq(|h|, i requires 0 <= i < |h| => h[i].call)
  }

  function RepliesOf(h: seq<Entry>): (r: seq<Reply>)
    ensures |r| == |h|
  {
    seq(|h|, i requires 0 <= i < |h| => h[i].reply)
  }

  /** How far the thread inside the mutex has taken the locks from what they were when it entered. */
  ghost predicate Progress(entry: Tables, now: Tables, pc: Pc) {
    match pc
    case Idle => false
    case Waiting(_) => false
    case Testing(call, next) =>
      && now == entry && call.Acquire? && next <= |Blockers(call.op)|
      && forall j :: 0 <= j < next ==> !entry.Held(Blockers(call.op)[j], call.id)
    case ReadingCount(call) => now == entry && Passed(entry, call) && call.op != Delete && call.op != Expand
    case WritingCount(call, val) =>
      now == entry && Passed(entry, call) && val + 1 == NewCount(entry, call.op, call.id)
    case LookingUp(call) => now == entry && call.Release?
    case Lowering(call, val) => now == entry && Counted(entry, call) && val == entry.Count(call.op, call.id)
    case TestingZero(call) =>
      Counted(entry, call) && now == entry.SetCount(call.op, call.id, entry.Count(call.op, call.id) - 1)
    case Deleting(call) =>
      && Counted(entry, call) && entry.Count(call.op, call.id) == 1
      && now == entry.SetCount(call.op, call.id, 0)
    case Unlocking(call, reply) => (now, reply) == Apply(entry, call)
  }

  ghost predicate Passed(entry: Tables, call: Call) {
    call.Acquire? && call.op in OPERATIONS && Unblocked(entry, call.op, call.id)
  }

  ghost predicate Counted(entry: Tables, call: Call) {
    call.Release? && entry.Held(call.op, call.id)
  }

  /** The history is an atomic run, and the mutex holder alone is under way from its final locks. */
  ghost predicate Simulates(s: State) {
    var atomic := Run(EMPTY, CallsOf(s.history));
    && Replies(EMPTY, CallsOf(s.history)) == RepliesOf(s.history)
    && (forall t: Thread :: s.PcOf(t).Critical() ==> s.mutex == Some(t))
    && (match s.mutex
        case None => s.locks == atomic
        case Some(t) => Progress(atomic, s.locks, s.PcOf(t)))
  }

  lemma ProgressIsCritical(entry: Tables, now: Tables, pc: Pc)
    requires Progress(entry, now, pc)
    ensures pc.Critical()
  {
  }

  /** A step inside the mutex, other than the unlocking one, makes progress. */
  lemma StepProgresses(s: State, t: Thread, entry: Tables)
    requires s.mutex == Some(t) && Progress(entry, s.locks, s.PcOf(t)) && !s.PcOf(t).Unlocking?
    ensures var s' := Exec(s, Step(t));
            && Progress(entry, s'.locks, s'.PcOf(t)) && s'.mutex == s.mutex && s'.history == s.history
            && s'.pcs == s.pcs[t := s'.PcOf(t)]
  {
    hide Tables.Held, Tables.Count, Tables.SetCount, Tables.Remove, FirstHeld;
    var pc := s.PcOf(t);
    var call := pc.call;
    match pc
    case Testing(_, next) =>
      if call.op !in OPERATIONS {
      } else if next == |Blockers(call.op)| {
        assert Unblocked(entry, call.op, call.id);
      } else if entry.Held(Blockers(call.op)[next], call.id) {
        Refuses(entry, call.op, call.id, next);
      }
    case WritingCount(_, val) =>
      Grants(entry, call.op, call.id);
    case TestingZero(_) =>
      ReadAfterSet(entry, call.op, call.id, entry.Count(call.op, call.id) - 1);
    case Deleting(_) =>
      RemoveAfterSet(entry, call.op, call.id, 0);
    case _ =>
  }

  /** Unlocking appends the call to the history with the reply the atomic lock gives. */
  lemma UnlockingExtends(h: seq<Entry>, e: Entry)
    requires Replies(EMPTY, CallsOf(h)) == RepliesOf(h)
    requires e.reply == Apply(Run(EMPTY, CallsOf(h)), e.call).1
    ensures Replies(EMPTY, CallsOf(h + [e])) == RepliesOf(h + [e])
    ensures Run(EMPTY, CallsOf(h + [e])) == Apply(Run(EMPTY, CallsOf(h)), e.call).0
  {
    assert CallsOf(h + [e]) == CallsOf(h) + [e.call];
    RunConcat(EMPTY, CallsOf(h), [e.call]);
    assert [e.call][1..] == [];
    assert RepliesOf(h + [e]) == RepliesOf(h) + [e.reply];
  }

  lemma ExecSimulates(s: State, a: Action)
    requires Simulates(s)
    ensures Simulates(Exec(s, a))
  {
    var t, s' := a.thread, Exec(s, a);
    var pc, atomic := s.PcOf(t), Run(EMPTY, CallsOf(s.history));
    if a.Step? && pc.Critical() && !pc.Unlocking? {
      StepProgresses(s, t, atomic);
      ProgressIsCritical(atomic, s'.locks, s'.PcOf(t));
      hide Exec, Progress;
      assert forall x: Thread :: x != t ==> s'.PcOf(x) == s.PcOf(x);
    } else if a.Step? && pc.Unlocking? {
      UnlockingExtends(s.history, Entry(t, pc.call, pc.reply));
      hide Progress;
      assert forall x: Thread :: x != t ==> s'.PcOf(x) == s.PcOf(x);
    } else {
      if s.mutex.Some? {
        ProgressIsCritical(atomic, s.locks, s.PcOf(s.mutex.value));
      }
      assert forall x: Thread :: x != t ==> s'.PcOf(x) == s.PcOf(x);
    }
  }

  lemma {:induction false} RunSimulates(s: State, actions: seq<Action>)
    requires Simulates(s)
    ensures Simulates(RunFine(s, actions))
    decreases |actions|
  {
    if actions != [] {
      ExecSimulates(s, actions[0]);
      RunSimulates(Exec(s, actions[0]), actions[1..]);
    }
  }

  /**
   * Every interleaving gave the replies, and whenever the mutex is free has the counters, of the atomic calls in
   * unlocking order.
   */
  lemma FineRefinesAtomic(actions: seq<Action>)
    ensures var s := RunFine(START, actions);
            && RepliesOf(s.history) == Replies(EMPTY, CallsOf(s.history))
            && (s.mutex.None? ==> s.locks == Run(EMPTY, CallsOf(s.history)))
  {
    assert CallsOf([]) == [] && RepliesOf([]) == [];
    RunSimulates(START, actions);
  }

  /** At most one thread is ever between locking and unlocking. */
  lemma MutualExclusion(actions: seq<Action>, a: Thread, b: Thread)
    requires RunFine(START, actions).PcOf(a).Critical() && RunFine(START, actions).PcOf(b).Critical()
    ensures a == b
  {
    assert CallsOf([]) == [] && RepliesOf([]) == [];
    RunSimulates(START, actions);
  }
}
