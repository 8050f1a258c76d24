/** OperationLock of pkg/common/idlocker.go: counters per operation and ID, and which operations exclude which. */
module OperationLock {
  import opened Bytes
  import opened Wrappers

  /** The five operations, and any other string. */
  datatype Operation = Create | Delete | Clone | Restore | Expand | Other

  const OPERATIONS := {Create, Delete, Clone, Restore, Expand}

  datatype LockError = AlreadyExists(op: Operation) | NotSupported

  /** The outer map: its five keys are put in by NewOperationLock and never change. */
  datatype Tables = Tables(create: map<Str, int>, delete: map<Str, int>, clone: map<Str, int>,
                           restore: map<Str, int>, expand: map<Str, int>)
  {
    function Of(op: Operation): map<Str, int> {
      match op
      case Create => create
      case Delete => delete
      case Clone => clone
      case Restore => restore
      case Expand => expand
      case Other => map[]
    }

    function With(op: Operation, m: map<Str, int>): Tables {
      match op
      case Create => this.(create := m)
      case Delete => this.(delete := m)
      case Clone => this.(clone := m)
      case Restore => this.(restore := m)
      case Expand => this.(expand := m)
      case Other => this
    }

    predicate Held(op: Operation, id: Str): (held: bool)
      ensures op !in OPERATIONS ==> !held
    {
      id in Of(op)
    }

    /** Reading a missing key of a Go map gives 0. */
    function Count(op: Operation, id: Str): int {
      if Held(op, id) then Of(op)[id] else 0
    }

    function SetCount(op: Operation, id: Str, n: int): Tables {
      With(op, Of(op)[id := n])
    }

    function Remove(op: Operation, id: Str): Tables {
      With(op, Of(op) - {id})
    }
  }

  const EMPTY := Tables(map[], map[], map[], map[], map[])

  // ---------- the lock as a function of its calls ----------

  /** Whether a held operation other refuses op. Expand is refused by Create, but Create is not by Expand. */
  predicate Blocks(other: Operation, op: Operation) {
    match op
    case Create => other == Delete
    case Clone => other == Delete || other == Expand
    case Delete => other == Expand || other == Clone || other == Create || other == Restore
    case Restore => other == Delete
    case Expand => other == Delete || other == Clone || other == Create
    case Other => false
  }

  /** The same operations in the order in which they are tested. */
  function Blockers(op: Operation): (r: seq<Operation>)
    ensures forall other :: other in r <==> Blocks(other, op)
  {
    match op
    case Create => [Delete]
    case Clone => [Delete, Expand]
    case Delete => [Expand, Clone, Create, Restore]
    case Restore => [Delete]
    case Expand => [Delete, Clone, Create]
    case Other => []
  }

  function FirstHeld(s: Tables, ops: seq<Operation>, id: Str): (r: Option<Operation>)
    ensures r.None? <==> forall other :: other in ops ==> !s.Held(other, id)
  {
    if ops == [] then None
    else if s.Held(ops[0], id) then Some(ops[0])
    else FirstHeld(s, ops[1..], id)
  }

  ghost predicate Unblocked(s: Tables, op: Operation, id: Str) {
    forall other :: Blocks(other, op) ==> !s.Held(other, id)
  }

  /** The first held operation of a list is found after every one before it was found free. */
  lemma {:induction false} FirstHeldAt(s: Tables, ops: seq<Operation>, id: Str, k: nat)
    requires k < |ops| && s.Held(ops[k], id) && forall j :: 0 <= j < k ==> !s.Held(ops[j], id)
    ensures FirstHeld(s, ops, id) == Some(ops[k])
  {
    if k > 0 {
      FirstHeldAt(s, ops[1..], id, k - 1);
    }
  }

  lemma RemoveAfterSet(s: Tables, op: Operation, id: Str, n: int)
    ensures s.SetCount(op, id, n).Remove(op, id) == s.Remove(op, id)
  {
    assert s.Of(op)[id := n] - {id} == s.Of(op) - {id};
  }

  /** Reading a counter after one was set or removed. */
  lemma ReadAfterSet(s: Tables, op: Operation, id: Str, n: int)
    requires op in OPERATIONS
    ensures s.SetCount(op, id, n).Held(op, id) && s.SetCount(op, id, n).Count(op, id) == n
    ensures forall op', id' :: op' != op || id' != id ==>
              && (s.SetCount(op, id, n).Held(op', id') <==> s.Held(op', id'))
              && s.SetCount(op, id, n).Count(op', id') == s.Count(op', id')
  {
  }

  lemma ReadAfterRemove(s: Tables, op: Operation, id: Str)
    requires op in OPERATIONS
    ensures !s.Remove(op, id).Held(op, id) && s.Remove(op, id).Count(op, id) == 0
    ensures forall op', id' :: op' != op || id' != id ==>
              && (s.Remove(op, id).Held(op', id') <==> s.Held(op', id'))
              && s.Remove(op, id).Count(op', id') == s.Count(op', id')
  {
  }

  datatype Call = Acquire(op: Operation, id: Str) | Release(op: Operation, id: Str)

  datatype Reply = Granted | Refused(error: LockError) | Released

  /** Delete and Expand store 1 whether or not they are held already; the others count. */
  function NewCount(s: Tables, op: Operation, id: Str): int {
    if op == Delete || op == Expand then 1 else s.Count(op, id) + 1
  }

  function Apply(s: Tables, c: Call): (r: (Tables, Reply))
  {
    match c
    case Acquire(op, id) =>
      if op !in OPERATIONS then (s, Refused(NotSupported))
      else
        (match FirstHeld(s, Blockers(op), id)
         case Some(other) => (s, Refused(AlreadyExists(other)))
         case None => (s.SetCount(op, id, NewCount(s, op, id)), Granted))
    case Release(op, id) =>
      if op !in OPERATIONS then (s, Released)
      else if !s.Held(op, id) then (s, Released)
      else if s.Count(op, id) == 1 then (s.Remove(op, id), Released)
      else (s.SetCount(op, id, s.Count(op, id) - 1), Released)
  }

  /** A call is refused by the first blocker that is held, and granted when none is. */
  lemma Refuses(s: Tables, op: Operation, id: Str, k: nat)
    requires k < |Blockers(op)| && s.Held(Blockers(op)[k], id)
    requires forall j :: 0 <= j < k ==> !s.Held(Blockers(op)[j], id)
    ensures Apply(s, Acquire(op, id)) == (s, Refused(AlreadyExists(Blockers(op)[k])))
  {
    FirstHeldAt(s, Blockers(op), id, k);
  }

  lemma Grants(s: Tables, op: Operation, id: Str)
    requires op in OPERATIONS
    requires Unblocked(s, op, id)
    ensures Apply(s, Acquire(op, id)) == (s.SetCount(op, id, NewCount(s, op, id)), Granted)
  {
  }

  /**
   * Which operation a refusal names: a delete is told of an expand first, then of a clone, a create and a restore; a clone
   * of a delete before an expand; an expand of a delete, then a clone, then a create; and the other two of a delete.
   */
  lemma RefusalNames(s: Tables, op: Operation, id: Str)
    ensures var reply := Apply(s, Acquire(op, id)).1;
            match op
            case Create => reply == Refused(AlreadyExists(Delete)) <==> s.Held(Delete, id)
            case Restore => reply == Refused(AlreadyExists(Delete)) <==> s.Held(Delete, id)
            case Clone =>
              && (reply == Refused(AlreadyExists(Delete)) <==> s.Held(Delete, id))
              && (reply == Refused(AlreadyExists(Expand)) <==> s.Held(Expand, id) && !s.Held(Delete, id))
            case Delete =>
              && (reply == Refused(AlreadyExists(Expand)) <==> s.Held(Expand, id))
              && (reply == Refused(AlreadyExists(Clone)) <==> s.Held(Clone, id) && !s.Held(Expand, id))
              && (reply == Refused(AlreadyExists(Create)) <==>
                    s.Held(Create, id) && !s.Held(Expand, id) && !s.Held(Clone, id))
              && (reply == Refused(AlreadyExists(Restore)) <==>
                    s.Held(Restore, id) && !s.Held(Expand, id) && !s.Held(Clone, id) && !s.Held(Create, id))
            case Expand =>
              && (reply == Refused(AlreadyExists(Delete)) <==> s.Held(Delete, id))
              && (reply == Refused(AlreadyExists(Clone)) <==> s.Held(Clone, id) && !s.Held(Delete, id))
              && (reply == Refused(AlreadyExists(Create)) <==>
                    s.Held(Create, id) && !s.Held(Delete, id) && !s.Held(Clone, id))
            case Other => reply == Refused(NotSupported)
  {
    hide Tables.Held, FirstHeld;
    match op
    case Create => if s.Held(Delete, id) { Refuses(s, op, id, 0); }
    case Restore => if s.Held(Delete, id) { Refuses(s, op, id, 0); }
    case Clone =>
      if s.Held(Delete, id) { Refuses(s, op, id, 0); }
      else if s.Held(Expand, id) { Refuses(s, op, id, 1); }
    case Delete =>
      if s.Held(Expand, id) { Refuses(s, op, id, 0); }
      else if s.Held(Clone, id) { Refuses(s, op, id, 1); }
      else if s.Held(Create, id) { Refuses(s, op, id, 2); }
      else if s.Held(Restore, id) { Refuses(s, op, id, 3); }
    case Expand =>
      if s.Held(Delete, id) { Refuses(s, op, id, 0); }
      else if s.Held(Clone, id) { Refuses(s, op, id, 1); }
      else if s.Held(Create, id) { Refuses(s, op, id, 2); }
    case Other =>
  }

  lemma UnknownIsRefused(s: Tables, id: Str)
    ensures Apply(s, Acquire(Other, id)) == (s, Refused(NotSupported))
  {
  }

  function Run(s: Tables, calls: seq<Call>): Tables
    decreases |calls|
  {
    if calls == [] then s else Run(Apply(s, calls[0]).0, calls[1..])
  }

  function Replies(s: Tables, calls: seq<Call>): (r: seq<Reply>)
    ensures |r| == |calls|
    decreases |calls|
  {
    if calls == [] then [] else [Apply(s, calls[0]).1] + Replies(Apply(s, calls[0]).0, calls[1..])
  }

  lemma {:induction false} RunConcat(s: Tables, a: seq<Call>, b: seq<Call>)
    ensures Run(s, a + b) == Run(Run(s, a), b)
    ensures Replies(s, a + b) == Replies(s, a) + Replies(Run(s, a), b)
    decreases |a|
  {
    if a == [] {
      assert a + b == b;
    } else {
      assert (a + b)[1..] == a[1..] + b;
      RunConcat(Apply(s, a[0]).0, a[1..], b);
    }
  }

  // ---------- the object ----------

  class OperationLock {
    var locks: Tables

    constructor ()
      ensures locks == EMPTY
    {
      locks := EMPTY;
    }

    method TryAcquire(op: Operation, volumeID: Str) returns (error: Option<LockError>)
      modifies this
      ensures (locks, if error.None? then Granted else Refused(error.value)) == Apply(old(locks), Acquire(op, volumeID))
    {
      hide Apply, FirstHeld;
      match op {
      case Create =>
        if locks.Held(Delete, volumeID) { Refuses(locks, op, volumeID, 0); return Some(AlreadyExists(Delete)); }
        var val := locks.Count(Create, volumeID);
        Grants(locks, op, volumeID);
        locks := locks.SetCount(Create, volumeID, val + 1);
      case Clone =>
        if locks.Held(Delete, volumeID) { Refuses(locks, op, volumeID, 0); return Some(AlreadyExists(Delete)); }
        if locks.Held(Expand, volumeID) { Refuses(locks, op, volumeID, 1); return Some(AlreadyExists(Expand)); }
        var val := locks.Count(Clone, volumeID);
        Grants(locks, op, volumeID);
        locks := locks.SetCount(Clone, volumeID, val + 1);
      case Delete =>
        if locks.Held(Expand, volumeID) { Refuses(locks, op, volumeID, 0); return Some(AlreadyExists(Expand)); }
        if locks.Held(Clone, volumeID) { Refuses(locks, op, volumeID, 1); return Some(AlreadyExists(Clone)); }
        if locks.Held(Create, volumeID) { Refuses(locks, op, volumeID, 2); return Some(AlreadyExists(Create)); }
        if locks.Held(Restore, volumeID) { Refuses(locks, op, volumeID, 3); return Some(AlreadyExists(Restore)); }
        Grants(locks, op, volumeID);
        locks := locks.SetCount(Delete, volumeID, 1);
      case Restore =>
        if locks.Held(Delete, volumeID) { Refuses(locks, op, volumeID, 0); return Some(AlreadyExists(Delete)); }
        var val := locks.Count(Restore, volumeID);
        Grants(locks, op, volumeID);
        locks := locks.SetCount(Restore, volumeID, val + 1);
      case Expand =>
        if locks.Held(Delete, volumeID) { Refuses(locks, op, volumeID, 0); return Some(AlreadyExists(Delete)); }
        if locks.Held(Clone, volumeID) { Refuses(locks, op, volumeID, 1); return Some(AlreadyExists(Clone)); }
        if locks.Held(Create, volumeID) { Refuses(locks, op, volumeID, 2); return Some(AlreadyExists(Create)); }
        Grants(locks, op, volumeID);
        locks := locks.SetCount(Expand, volumeID, 1);
      case Other =>
        UnknownIsRefused(locks, volumeID);
        return Some(NotSupported);
      }
      return None;
    }

    method Release(op: Operation, volumeID: Str)
      modifies this
      ensures locks == Apply(old(locks), Call.Release(op, volumeID)).0
    {
      if op in OPERATIONS {
        if locks.Held(op, volumeID) {
          var val := locks.Count(op, volumeID);
          locks := locks.SetCount(op, volumeID, val - 1);
          if locks.Count(op, volumeID) == 0 {
            RemoveAfterSet(old(locks), op, volumeID, 0);
            locks := locks.Remove(op, volumeID);
          }
        }
      }
    }
  }
}
