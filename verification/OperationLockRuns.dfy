/** What runs of OperationLock calls can and cannot produce. */
module OperationLockRuns {
  import opened Bytes
  import opened OperationLock

  // ---------- reachable states ----------

  ghost predicate Reachable(s: Tables) {
    exists calls :: Run(EMPTY, calls) == s
  }

  /** One ID: positive counters, single delete and expand, delete alone, clone and expand apart. */
  ghost predicate CompatibleAt(s: Tables, id: Str) {
    && (forall op :: s.Held(op, id) ==> s.Count(op, id) > 0)
    && (forall op :: s.Held(Delete, id) && s.Held(op, id) ==> op == Delete && s.Count(op, id) == 1)
    && (s.Held(Expand, id) ==> s.Count(Expand, id) == 1 && !s.Held(Clone, id))
  }

  ghost predicate Compatible(s: Tables) {
    forall id :: CompatibleAt(s, id)
  }

  /** A call changes nothing outside its own operation and ID. */
  lemma ApplyChanges(s: Tables, c: Call)
    ensures forall op, id :: op != c.op || id != c.id ==>
              && (Apply(s, c).0.Held(op, id) <==> s.Held(op, id))
              && Apply(s, c).0.Count(op, id) == s.Count(op, id)
  {
    hide FirstHeld, Tables.Held, Tables.Count, Tables.SetCount, Tables.Remove;
    if c.op in OPERATIONS {
      ReadAfterSet(s, c.op, c.id, NewCount(s, c.op, c.id));
      ReadAfterSet(s, c.op, c.id, s.Count(c.op, c.id) - 1);
      ReadAfterRemove(s, c.op, c.id);
    }
  }

  lemma AcquireKeepsCompatibleAt(s: Tables, op: Operation, id: Str)
    requires CompatibleAt(s, id) && op in OPERATIONS && Unblocked(s, op, id)
    ensures CompatibleAt(s.SetCount(op, id, NewCount(s, op, id)), id)
  {
    hide Tables.Held, Tables.Count, Tables.SetCount;
    ReadAfterSet(s, op, id, NewCount(s, op, id));
    assert Blocks(Delete, op) || op == Delete;
    assert s.Count(op, id) >= 0 by { NoNegativeCount(s, op, id); }
  }

  lemma NoNegativeCount(s: Tables, op: Operation, id: Str)
    requires CompatibleAt(s, id)
    ensures s.Count(op, id) >= 0
  {
  }

  lemma ReleaseKeepsCompatibleAt(s: Tables, op: Operation, id: Str)
    requires CompatibleAt(s, id) && s.Held(op, id)
    ensures CompatibleAt(Apply(s, Release(op, id)).0, id)
  {
    hide Tables.Held, Tables.Count, Tables.SetCount, Tables.Remove;
    ReadAfterSet(s, op, id, s.Count(op, id) - 1);
    ReadAfterRemove(s, op, id);
  }

  lemma ApplyKeepsCompatibleAt(s: Tables, c: Call)
    requires CompatibleAt(s, c.id)
    ensures CompatibleAt(Apply(s, c).0, c.id)
  {
    hide FirstHeld, Tables.Held, Tables.Count, Tables.SetCount, Tables.Remove;
    if c.Acquire? && c.op in OPERATIONS && FirstHeld(s, Blockers(c.op), c.id).None? {
      AcquireKeepsCompatibleAt(s, c.op, c.id);
    } else if c.Release? && s.Held(c.op, c.id) {
      ReleaseKeepsCompatibleAt(s, c.op, c.id);
    }
  }

  lemma {:induction false} RunKeepsCompatible(s: Tables, calls: seq<Call>)
    requires Compatible(s)
    ensures Compatible(Run(s, calls))
    decreases |calls|
  {
    if calls != [] {
      var c, t := calls[0], Apply(s, calls[0]).0;
      ApplyKeepsCompatibleAt(s, c);
      ApplyChanges(s, c);
      hide Apply, Tables.Held, Tables.Count;
      forall id ensures CompatibleAt(t, id) {
        assert CompatibleAt(s, id);
      }
      RunKeepsCompatible(t, calls[1..]);
    }
  }

  function Repeat(c: Call, n: nat): seq<Call> {
    if n == 0 then [] else Repeat(c, n - 1) + [c]
  }

  /** n acquisitions of one operation in a row build its counter from nothing. */
  lemma {:induction false} AcquireRepeatedly(s: Tables, op: Operation, id: Str, n: nat)
    requires op in OPERATIONS && !s.Held(op, id) && Unblocked(s, op, id)
    requires 0 < n && (op == Delete || op == Expand ==> n == 1)
    ensures Run(s, Repeat(Acquire(op, id), n)) == s.SetCount(op, id, n)
  {
    hide Apply;
    var c := Acquire(op, id);
    if n == 1 {
      assert Repeat(c, 0) == [] && Repeat(c, 1) == [c];
      Grants(s, op, id);
    } else {
      AcquireRepeatedly(s, op, id, n - 1);
      RunConcat(s, Repeat(c, n - 1), [c]);
      var t := s.SetCount(op, id, n - 1);
      ReadAfterSet(s, op, id, n - 1);
      assert !Blocks(op, op);
      Grants(t, op, id);
      assert s.Of(op)[id := n - 1][id := n] == s.Of(op)[id := n];
    }
  }

  /** How many counters there are. */
  function Entries(s: Tables): nat {
    |s.create| + |s.clone| + |s.restore| + |s.delete| + |s.expand|
  }

  /** An entry whose acquisition can come last: a create one if there is any, because create tests only delete. */
  lemma LastEntry(s: Tables) returns (op: Operation, id: Str)
    requires Compatible(s) && Entries(s) > 0
    ensures op in OPERATIONS && s.Held(op, id) && Unblocked(s, op, id)
  {
    if |s.create| > 0 { op := Create; }
    else if |s.clone| > 0 { op := Clone; }
    else if |s.restore| > 0 { op := Restore; }
    else if |s.delete| > 0 { op := Delete; }
    else { op := Expand; }
    assert s.Of(op) != map[];
    id :| id in s.Of(op);
    assert s.Held(op, id) && CompatibleAt(s, id);
    assert forall other :: |s.Of(other)| == 0 ==> !s.Held(other, id);
  }

  lemma RemovedEntry(s: Tables, op: Operation, id: Str)
    requires Compatible(s) && op in OPERATIONS && s.Held(op, id)
    ensures Compatible(s.Remove(op, id)) && Entries(s.Remove(op, id)) == Entries(s) - 1
    ensures s.Remove(op, id).SetCount(op, id, s.Count(op, id)) == s
  {
    RemovedStaysCompatible(s, op, id);
    hide Compatible;
    FewerEntries(s.Of(op), id);
    assert (s.Of(op) - {id})[id := s.Of(op)[id]] == s.Of(op);
  }

  lemma RemovedStaysCompatible(s: Tables, op: Operation, id: Str)
    requires Compatible(s) && op in OPERATIONS
    ensures Compatible(s.Remove(op, id))
  {
    hide Tables.Held, Tables.Count, Tables.Remove;
    ReadAfterRemove(s, op, id);
    forall x ensures CompatibleAt(s.Remove(op, id), x) {
      assert CompatibleAt(s, x);
    }
  }

  lemma FewerEntries(m: map<Str, int>, id: Str)
    requires id in m
    ensures |m - {id}| == |m| - 1
  {
    assert (m - {id}).Keys == m.Keys - {id};
    assert |(m - {id}).Keys| == |m - {id}| && |m.Keys| == |m|;
  }

  /** A run that builds a compatible state, the last entry last. */
  lemma {:induction false} Construct(s: Tables) returns (calls: seq<Call>)
    requires Compatible(s)
    ensures Run(EMPTY, calls) == s
    decreases Entries(s)
  {
    if Entries(s) == 0 {
      calls := [];
      assert s == EMPTY;
    } else {
      hide Entries, Tables.Held, Tables.Count, Tables.SetCount, Tables.Remove;
      var op, id := LastEntry(s);
      assert CompatibleAt(s, id);
      RemovedEntry(s, op, id);
      ReadAfterRemove(s, op, id);
      assert !Blocks(op, op);
      var t, n := s.Remove(op, id), s.Count(op, id);
      var before := Construct(t);
      AcquireRepeatedly(t, op, id, n);
      calls := before + Repeat(Acquire(op, id), n);
      RunConcat(EMPTY, before, Repeat(Acquire(op, id), n));
    }
  }

  /** The reachable states are exactly the compatible ones. */
  lemma ReachableIffCompatible(s: Tables)
    ensures Reachable(s) <==> Compatible(s)
  {
    if Reachable(s) {
      var calls :| Run(EMPTY, calls) == s;
      RunKeepsCompatible(EMPTY, calls);
    }
    if Compatible(s) {
      var calls := Construct(s);
    }
  }

  // ---------- one ID at a time ----------

  /** Two states that agree on every counter of one ID. */
  ghost predicate SameAt(s: Tables, t: Tables, id: Str) {
    forall op :: (s.Held(op, id) <==> t.Held(op, id)) && s.Count(op, id) == t.Count(op, id)
  }

  function CallsOn(calls: seq<Call>, id: Str): seq<Call> {
    if calls == [] then []
    else if calls[0].id == id then [calls[0]] + CallsOn(calls[1..], id)
    else CallsOn(calls[1..], id)
  }

  /** The replies that went to the calls on one ID. */
  function RepliesOn(calls: seq<Call>, replies: seq<Reply>, id: Str): seq<Reply>
    requires |calls| == |replies|
  {
    if calls == [] then []
    else if calls[0].id == id then [replies[0]] + RepliesOn(calls[1..], replies[1..], id)
    else RepliesOn(calls[1..], replies[1..], id)
  }

  lemma {:induction false} SameFirstHeld(s: Tables, t: Tables, ops: seq<Operation>, id: Str)
    requires SameAt(s, t, id)
    ensures FirstHeld(s, ops, id) == FirstHeld(t, ops, id)
  {
    if ops != [] {
      SameFirstHeld(s, t, ops[1..], id);
    }
  }

  /** A call sees and changes only the counters of its ID. */
  lemma ApplySame(s: Tables, t: Tables, c: Call)
    requires SameAt(s, t, c.id)
    ensures SameAt(Apply(s, c).0, Apply(t, c).0, c.id) && Apply(s, c).1 == Apply(t, c).1
  {
    hide FirstHeld, Blockers, Tables.Held, Tables.Count, Tables.SetCount, Tables.Remove;
    SameFirstHeld(s, t, Blockers(c.op), c.id);
    if c.op in OPERATIONS {
      var n := NewCount(s, c.op, c.id);
      ReadAfterSet(s, c.op, c.id, n);
      ReadAfterSet(t, c.op, c.id, n);
      ReadAfterSet(s, c.op, c.id, s.Count(c.op, c.id) - 1);
      ReadAfterSet(t, c.op, c.id, s.Count(c.op, c.id) - 1);
      ReadAfterRemove(s, c.op, c.id);
      ReadAfterRemove(t, c.op, c.id);
    }
  }

  /** Counters and replies for one ID are decided by the calls on that ID. */
  lemma {:induction false} RunOnId(s: Tables, t: Tables, calls: seq<Call>, id: Str)
    requires SameAt(s, t, id)
    ensures SameAt(Run(s, calls), Run(t, CallsOn(calls, id)), id)
    ensures RepliesOn(calls, Replies(s, calls), id) == Replies(t, CallsOn(calls, id))
    decreases |calls|
  {
    if calls != [] {
      var c, rest := calls[0], calls[1..];
      var s1 := Apply(s, c).0;
      assert Replies(s, calls)[1..] == Replies(s1, rest);
      if c.id == id {
        ApplySame(s, t, c);
        RunOnId(s1, Apply(t, c).0, rest, id);
        assert CallsOn(calls, id)[1..] == CallsOn(rest, id);
      } else {
        ApplyChanges(s, c);
        RunOnId(s1, t, rest, id);
      }
    }
  }

  lemma SameEverywhere(s: Tables, t: Tables)
    requires forall id :: SameAt(s, t, id)
    ensures s == t
  {
    forall op ensures s.Of(op) == t.Of(op) {
      forall id ensures (id in s.Of(op) <==> id in t.Of(op)) && s.Count(op, id) == t.Count(op, id) {
        assert SameAt(s, t, id);
        assert s.Held(op, id) <==> t.Held(op, id);
      }
      assert forall id :: id in s.Of(op) ==> s.Of(op)[id] == s.Count(op, id) == t.Count(op, id);
    }
    assert s.Of(Create) == t.Of(Create) && s.Of(Delete) == t.Of(Delete) && s.Of(Clone) == t.Of(Clone);
    assert s.Of(Restore) == t.Of(Restore) && s.Of(Expand) == t.Of(Expand);
  }

  /** Calls on different IDs commute, in the states and in the replies. */
  lemma DifferentIdsCommute(s: Tables, a: Call, b: Call)
    requires a.id != b.id
    ensures Apply(Apply(s, a).0, b).0 == Apply(Apply(s, b).0, a).0
    ensures Apply(Apply(s, a).0, b).1 == Apply(s, b).1 && Apply(Apply(s, b).0, a).1 == Apply(s, a).1
  {
    hide Apply;
    var sa, sb := Apply(s, a).0, Apply(s, b).0;
    ApplyChanges(s, a);
    ApplyChanges(s, b);
    ApplyChanges(sa, b);
    ApplyChanges(sb, a);
    ApplySame(sa, s, b);
    ApplySame(sb, s, a);
    SameEverywhere(Apply(sa, b).0, Apply(sb, a).0);
  }
}
