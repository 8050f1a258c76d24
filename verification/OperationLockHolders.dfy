/** When the counters of OperationLock agree with the callers that hold it. */
module OperationLockHolders {
  import opened Bytes
  import opened OperationLock
  import opened OperationLockRuns

  /** The counters and, for each operation and ID, how many callers hold it. */
  datatype Shared = Shared(tables: Tables, held: multiset<(Operation, Str)>)

  const IDLE := Shared(EMPTY, multiset{})

  /** A caller whose acquisition is granted becomes a holder; only a holder releases. */
  function Call1(h: Shared, c: Call): Shared {
    match c
    case Acquire(op, id) =>
      var (t, reply) := Apply(h.tables, c);
      if reply == Granted then Shared(t, h.held + multiset{(op, id)}) else h
    case Release(op, id) =>
      if (op, id) in h.held then Shared(Apply(h.tables, c).0, h.held - multiset{(op, id)}) else h
  }

  function Calls(h: Shared, calls: seq<Call>): Shared
    decreases |calls|
  {
    if calls == [] then h else Calls(Call1(h, calls[0]), calls[1..])
  }

  /** Every counter is the number of holders. */
  ghost predicate CountersAgree(h: Shared) {
    forall op, id :: h.tables.Count(op, id) == h.held[(op, id)]
  }

  /** At most one delete and one expand outstanding for each ID. */
  ghost predicate Single(h: Shared) {
    forall id :: h.held[(Delete, id)] <= 1 && h.held[(Expand, id)] <= 1
  }

  ghost predicate AlwaysAgree(h: Shared, calls: seq<Call>) {
    forall k :: 0 <= k <= |calls| ==> CountersAgree(Calls(h, calls[..k]))
  }

  ghost predicate AlwaysSingle(h: Shared, calls: seq<Call>) {
    forall k :: 0 <= k <= |calls| ==> Single(Calls(h, calls[..k]))
  }

  lemma Call1KeepsCompatible(h: Shared, c: Call)
    requires Compatible(h.tables)
    ensures Compatible(Call1(h, c).tables)
  {
    hide Apply, Compatible;
    RunKeepsCompatible(h.tables, [c]);
    assert Run(h.tables, [c]) == Apply(h.tables, c).0 by { OneCall(h.tables, c); }
  }

  lemma OneCall(s: Tables, c: Call)
    ensures Run(s, [c]) == Apply(s, c).0
  {
    assert [c][1..] == [];
  }

  /** One call keeps the counters right as long as it leaves deletes and expands single. */
  lemma Call1KeepsAgreement(h: Shared, c: Call)
    requires Compatible(h.tables) && CountersAgree(h) && Single(Call1(h, c))
    ensures CountersAgree(Call1(h, c))
  {
    hide FirstHeld, Tables.Held, Tables.Count, Tables.SetCount, Tables.Remove;
    var s, op, id := h.tables, c.op, c.id;
    assert CompatibleAt(s, id);
    if Call1(h, c) != h {
      NotOther(s, op, id);
      assert s.Held(op, id) <==> s.Count(op, id) != 0 by { HeldIsCounted(s, op, id); }
      assert h.held[(op, id)] == s.Count(op, id);
      ReadAfterSet(s, op, id, NewCount(s, op, id));
      ReadAfterSet(s, op, id, s.Count(op, id) - 1);
      ReadAfterRemove(s, op, id);
    }
  }

  lemma NotOther(s: Tables, op: Operation, id: Str)
    ensures op !in OPERATIONS ==> Apply(s, Acquire(op, id)).1 != Granted && s.Count(op, id) == 0
  {
  }

  lemma HeldIsCounted(s: Tables, op: Operation, id: Str)
    requires CompatibleAt(s, id)
    ensures s.Held(op, id) <==> s.Count(op, id) != 0
    ensures s.Count(op, id) >= 0
  {
  }

  lemma AgreementIsSingle(h: Shared)
    requires Compatible(h.tables) && CountersAgree(h)
    ensures Single(h)
  {
    forall id ensures h.held[(Delete, id)] <= 1 && h.held[(Expand, id)] <= 1 {
      assert CompatibleAt(h.tables, id);
      HeldIsCounted(h.tables, Delete, id);
      HeldIsCounted(h.tables, Expand, id);
    }
  }

  lemma IdleIsCompatible()
    ensures Compatible(IDLE.tables)
  {
  }

  lemma {:induction false} CallsConcat(h: Shared, a: seq<Call>, b: seq<Call>)
    ensures Calls(h, a + b) == Calls(Calls(h, a), b)
    decreases |a|
  {
    if a == [] {
      assert a + b == b;
    } else {
      assert (a + b)[1..] == a[1..] + b;
      CallsConcat(Call1(h, a[0]), a[1..], b);
    }
  }

  lemma {:induction false} CallsKeepCompatible(h: Shared, calls: seq<Call>)
    requires Compatible(h.tables)
    ensures Compatible(Calls(h, calls).tables)
    decreases |calls|
  {
    if calls != [] {
      Call1KeepsCompatible(h, calls[0]);
      CallsKeepCompatible(Call1(h, calls[0]), calls[1..]);
    }
  }

  /** The state after one more call of a run. */
  lemma NextPrefix(h: Shared, calls: seq<Call>, k: nat)
    requires k < |calls|
    ensures Calls(h, calls[..k + 1]) == Call1(Calls(h, calls[..k]), calls[k])
  {
    assert calls[..k + 1] == calls[..k] + [calls[k]];
    CallsConcat(h, calls[..k], [calls[k]]);
    assert [calls[k]][1..] == [];
  }

  lemma {:induction false} SinglePrefixAgrees(calls: seq<Call>, k: nat)
    requires k <= |calls| && AlwaysSingle(IDLE, calls)
    ensures CountersAgree(Calls(IDLE, calls[..k]))
  {
    if k > 0 {
      IdleIsCompatible();
      hide Call1, Calls, Compatible, CountersAgree, Single;
      SinglePrefixAgrees(calls, k - 1);
      NextPrefix(IDLE, calls, k - 1);
      CallsKeepCompatible(IDLE, calls[..k - 1]);
      assert Single(Calls(IDLE, calls[..k]));
      Call1KeepsAgreement(Calls(IDLE, calls[..k - 1]), calls[k - 1]);
    }
  }

  /**
   * The counters are the numbers of holders throughout a run exactly when no ID ever has two deletes or two
   * expands outstanding.
   */
  lemma CountersAgreeIffSingle(calls: seq<Call>)
    ensures AlwaysAgree(IDLE, calls) <==> AlwaysSingle(IDLE, calls)
  {
    if AlwaysSingle(IDLE, calls) {
      forall k | 0 <= k <= |calls| ensures CountersAgree(Calls(IDLE, calls[..k])) {
        SinglePrefixAgrees(calls, k);
      }
    }
    if AlwaysAgree(IDLE, calls) {
      forall k | 0 <= k <= |calls| ensures Single(Calls(IDLE, calls[..k])) {
        CallsKeepCompatible(IDLE, calls[..k]);
        AgreementIsSingle(Calls(IDLE, calls[..k]));
      }
    }
  }

  /** No delete holder beside any other holder of its ID, and no clone holder beside an expand holder. */
  ghost predicate Excludes(held: multiset<(Operation, Str)>) {
    forall id ::
      && (forall op :: op != Delete && (Delete, id) in held ==> (op, id) !in held)
      && ((Clone, id) in held ==> (Expand, id) !in held)
  }

  lemma AgreementExcludes(h: Shared)
    requires Compatible(h.tables) && CountersAgree(h)
    ensures Excludes(h.held)
  {
    forall id
      ensures forall op :: op != Delete && (Delete, id) in h.held ==> (op, id) !in h.held
      ensures (Clone, id) in h.held ==> (Expand, id) !in h.held
    {
      assert CompatibleAt(h.tables, id);
      forall op ensures (op, id) in h.held <==> h.tables.Held(op, id) {
        HeldIsCounted(h.tables, op, id);
      }
    }
  }

  /** Under that discipline delete holders are alone, and clone holders never meet an expand holder. */
  lemma HoldersExclude(calls: seq<Call>)
    requires AlwaysSingle(IDLE, calls)
    ensures Excludes(Calls(IDLE, calls).held)
  {
    assert calls[..|calls|] == calls;
    SinglePrefixAgrees(calls, |calls|);
    CallsKeepCompatible(IDLE, calls);
    AgreementExcludes(Calls(IDLE, calls));
  }

  /**
   * And under it an acquisition is granted exactly when no holder stands in its way, and is refused because of
   * one that does.
   */
  lemma GrantedIffNoHolderBlocks(calls: seq<Call>, op: Operation, id: Str)
    requires AlwaysSingle(IDLE, calls) && op in OPERATIONS
    ensures var h := Calls(IDLE, calls);
            match Apply(h.tables, Acquire(op, id)).1
            case Granted => forall other :: Blocks(other, op) ==> (other, id) !in h.held
            case Refused(AlreadyExists(other)) => Blocks(other, op) && (other, id) in h.held
            case _ => false
  {
    hide Tables.Held, Tables.Count, Tables.SetCount;
    var h := Calls(IDLE, calls);
    assert calls[..|calls|] == calls;
    SinglePrefixAgrees(calls, |calls|);
    IdleIsCompatible();
    CallsKeepCompatible(IDLE, calls);
    assert CompatibleAt(h.tables, id);
    forall other ensures (other, id) in h.held <==> h.tables.Held(other, id) {
      HeldIsCounted(h.tables, other, id);
    }
    FirstHeldIsHeld(h.tables, Blockers(op), id);
  }

  lemma {:induction false} FirstHeldIsHeld(s: Tables, ops: seq<Operation>, id: Str)
    ensures FirstHeld(s, ops, id).Some? ==>
              FirstHeld(s, ops, id).value in ops && s.Held(FirstHeld(s, ops, id).value, id)
  {
    if ops != [] { FirstHeldIsHeld(s, ops[1..], id); }
  }

  // ---------- when exclusion is lost ----------

  /** No deletes or expands are acquired. */
  ghost predicate NoNewSingles(calls: seq<Call>) {
    forall i :: 0 <= i < |calls| && calls[i].Acquire? ==> calls[i].op != Delete && calls[i].op != Expand
  }

  /**
   * The counter of a delete or expand is 1 or missing, and never above the number of holders; the others are
   * right in any run.
   */
  ghost predicate CountersLag(h: Shared) {
    forall op, id ::
      && h.tables.Count(op, id) <= h.held[(op, id)]
      && (op != Delete && op != Expand ==> h.tables.Count(op, id) == h.held[(op, id)])
  }

  lemma Call1KeepsLag(h: Shared, c: Call)
    requires Compatible(h.tables) && CountersLag(h)
    ensures CountersLag(Call1(h, c))
  {
    hide FirstHeld, Tables.Held, Tables.Count, Tables.SetCount, Tables.Remove;
    var s, op, id := h.tables, c.op, c.id;
    assert CompatibleAt(s, id);
    NotOther(s, op, id);
    HeldIsCounted(s, op, id);
    assert h.held[(op, id)] >= s.Count(op, id);
    if op in OPERATIONS {
      ReadAfterSet(s, op, id, NewCount(s, op, id));
      ReadAfterSet(s, op, id, s.Count(op, id) - 1);
      ReadAfterRemove(s, op, id);
    }
  }

  lemma {:induction false} CallsKeepLag(h: Shared, calls: seq<Call>)
    requires Compatible(h.tables) && CountersLag(h)
    ensures CountersLag(Calls(h, calls))
    decreases |calls|
  {
    if calls != [] {
      Call1KeepsCompatible(h, calls[0]);
      Call1KeepsLag(h, calls[0]);
      hide Call1, Compatible, CountersLag;
      CallsKeepLag(Call1(h, calls[0]), calls[1..]);
    }
  }

  /** From right counters, calls that acquire no delete or expand keep them right. */
  lemma {:induction false} AgreementStays(h: Shared, calls: seq<Call>)
    requires Compatible(h.tables) && CountersAgree(h) && NoNewSingles(calls)
    ensures Excludes(Calls(h, calls).held)
    decreases |calls|
  {
    if calls == [] {
      AgreementExcludes(h);
    } else {
      var h1 := Call1(h, calls[0]);
      AgreementIsSingle(h);
      assert Single(h1) by { StaysSingle(h, calls[0]); }
      Call1KeepsCompatible(h, calls[0]);
      Call1KeepsAgreement(h, calls[0]);
      hide Call1, Compatible, CountersAgree, Excludes;
      AgreementStays(h1, calls[1..]);
    }
  }

  lemma StaysSingle(h: Shared, c: Call)
    requires Single(h) && (c.Acquire? ==> c.op != Delete && c.op != Expand)
    ensures Single(Call1(h, c))
  {
    hide Apply;
  }

  /**
   * A holder whose counter is gone keeps nobody out: a clone gets in, or what keeps it out is beside the holder
   * already.
   */
  lemma UncountedLetsACloneIn(h: Shared, op: Operation, id: Str)
    requires Compatible(h.tables) && CountersLag(h) && (op == Delete || op == Expand)
    requires h.tables.Count(op, id) == 0 && (op, id) in h.held
    ensures !Excludes(h.held) || !Excludes(Call1(h, Acquire(Clone, id)).held)
  {
    hide FirstHeld, Tables.Held, Tables.Count, Tables.SetCount;
    var s := h.tables;
    assert CompatibleAt(s, id);
    HeldIsCounted(s, Delete, id);
    HeldIsCounted(s, Expand, id);
    assert h.held[(Delete, id)] >= s.Count(Delete, id) && h.held[(Expand, id)] >= s.Count(Expand, id);
    if !s.Held(Delete, id) && !s.Held(Expand, id) {
      Grants(s, Clone, id);
      assert (Clone, id) in Call1(h, Acquire(Clone, id)).held && (op, id) in Call1(h, Acquire(Clone, id)).held;
    } else {
      assert (Delete, id) in h.held && (Expand, id) in h.held;
    }
  }

  /** With two holders on one counter, releasing one takes the counter away and leaves the other. */
  lemma ReleaseUncounts(h: Shared, op: Operation, id: Str)
    requires Compatible(h.tables) && h.tables.Count(op, id) == 1 && h.held[(op, id)] >= 2
    ensures var h1 := Call1(h, Release(op, id)); h1.tables.Count(op, id) == 0 && (op, id) in h1.held
  {
    NotOther(h.tables, op, id);
    assert CompatibleAt(h.tables, id);
    HeldIsCounted(h.tables, op, id);
    ReadAfterRemove(h.tables, op, id);
  }

  /** In any run, wrong counters can be made to cost exclusion by releases and at most one clone. */
  lemma DisagreementBreaks(h: Shared) returns (more: seq<Call>)
    requires Compatible(h.tables) && CountersLag(h) && !CountersAgree(h)
    ensures NoNewSingles(more) && !Excludes(Calls(h, more).held)
  {
    hide Apply, Excludes, Tables.Count;
    var op, id :| h.tables.Count(op, id) != h.held[(op, id)];
    assert op == Delete || op == Expand;
    assert CompatibleAt(h.tables, id);
    SingleCounts(h.tables, op, id);
    var h1, release := h, [];
    if h.tables.Count(op, id) == 1 {
      release := [Release(op, id)];
      ReleaseUncounts(h, op, id);
      Call1KeepsCompatible(h, Release(op, id));
      Call1KeepsLag(h, Release(op, id));
      h1 := Call1(h, Release(op, id));
      OneOf(h, Release(op, id));
    }
    UncountedLetsACloneIn(h1, op, id);
    if !Excludes(h1.held) {
      more := release;
    } else {
      more := release + [Acquire(Clone, id)];
      CallsConcat(h, release, [Acquire(Clone, id)]);
      OneOf(h1, Acquire(Clone, id));
    }
  }

  lemma OneOf(h: Shared, c: Call)
    ensures Calls(h, [c]) == Call1(h, c)
  {
    assert [c][1..] == [];
  }

  lemma SingleCounts(s: Tables, op: Operation, id: Str)
    requires CompatibleAt(s, id) && (op == Delete || op == Expand)
    ensures s.Count(op, id) == 0 || s.Count(op, id) == 1
  {
  }

  /**
   * After any run, exclusion can still be lost without another delete or expand being acquired exactly when some
   * counter is wrong.
   */
  lemma ExclusionIsLostIff(calls: seq<Call>)
    ensures var h := Calls(IDLE, calls);
            (exists more :: NoNewSingles(more) && !Excludes(Calls(h, more).held)) <==> !CountersAgree(h)
  {
    var h := Calls(IDLE, calls);
    CallsKeepCompatible(IDLE, calls);
    CallsKeepLag(IDLE, calls);
    hide Calls, CountersAgree, CountersLag, Compatible, Excludes;
    if CountersAgree(h) {
      forall more | NoNewSingles(more) ensures Excludes(Calls(h, more).held) {
        AgreementStays(h, more);
      }
    } else {
      var more := DisagreementBreaks(h);
    }
  }

  /** Without it two deletes share one counter: releasing one lets a clone in beside the other. */
  lemma TwoDeletesLetACloneIn(id: Str)
    ensures var calls := [Acquire(Delete, id), Acquire(Delete, id), Release(Delete, id), Acquire(Clone, id)];
            var held := Calls(IDLE, calls).held;
            (Delete, id) in held && (Clone, id) in held
  {
    var h1 := Call1(IDLE, Acquire(Delete, id));
    assert h1 == Shared(EMPTY.SetCount(Delete, id, 1), multiset{(Delete, id)});
    var h2 := Call1(h1, Acquire(Delete, id));
    assert h2.tables == h1.tables && h2.held == multiset{(Delete, id), (Delete, id)} by {
      assert map[id := 1][id := 1] == map[id := 1];
    }
    var h3 := Call1(h2, Release(Delete, id));
    assert h3.tables == EMPTY && h3.held == multiset{(Delete, id)} by {
      assert map[id := 1] - {id} == map[];
    }
    var h4 := Call1(h3, Acquire(Clone, id));
    FourCalls(IDLE, Acquire(Delete, id), Acquire(Delete, id), Release(Delete, id), Acquire(Clone, id));
  }

  lemma TwoCalls(h: Shared, a: Call, b: Call)
    ensures Calls(h, [a, b]) == Call1(Call1(h, a), b)
  {
    assert [a, b][1..] == [b] && [b][1..] == [];
    assert Calls(Call1(h, a), [b]) == Call1(Call1(h, a), b);
  }

  lemma FourCalls(h: Shared, a: Call, b: Call, c: Call, d: Call)
    ensures Calls(h, [a, b, c, d]) == Call1(Call1(Call1(Call1(h, a), b), c), d)
  {
    assert [a, b, c, d] == [a, b] + [c, d];
    CallsConcat(h, [a, b], [c, d]);
    TwoCalls(h, a, b);
    TwoCalls(Calls(h, [a, b]), c, d);
  }

  /** Create does not test expand, so the two are held together when expand comes first, but not the other way round. */
  lemma ExpandThenCreate(id: Str)
    ensures var held := Calls(IDLE, [Acquire(Expand, id), Acquire(Create, id)]).held;
            (Expand, id) in held && (Create, id) in held
    ensures (Expand, id) !in Calls(IDLE, [Acquire(Create, id), Acquire(Expand, id)]).held
  {
    TwoCalls(IDLE, Acquire(Expand, id), Acquire(Create, id));
    TwoCalls(IDLE, Acquire(Create, id), Acquire(Expand, id));
    hide Calls;
    Grants(EMPTY, Expand, id);
    Grants(EMPTY.SetCount(Expand, id, 1), Create, id);
    Grants(EMPTY, Create, id);
    Refuses(EMPTY.SetCount(Create, id, 1), Expand, id, 2);
    hide Apply;
    assert Call1(IDLE, Acquire(Expand, id)) == Shared(EMPTY.SetCount(Expand, id, 1), multiset{(Expand, id)});
    assert Call1(IDLE, Acquire(Create, id)) == Shared(EMPTY.SetCount(Create, id, 1), multiset{(Create, id)});
  }
}
