/** One node request by itself, and how that fits among the interleavings. */
module NodeAlone {
  import opened Node

  /** A request's own steps, each with its outside choice. */
  function Own(sh: Shared, t: Thread, outside: seq<Choice>): (Shared, Thread)
    decreases |outside|
  {
    if outside == [] then (sh, t)
    else Own(Step(sh, t, outside[0]).0, Step(sh, t, outside[0]).1, outside[1..])
  }

  lemma OwnStep(sh: Shared, t: Thread, outside: seq<Choice>, k: nat)
    requires k < |outside|
    ensures Own(sh, t, outside[k..]) == Own(Step(sh, t, outside[k]).0, Step(sh, t, outside[k]).1, outside[k + 1..])
  {
    assert outside[k..][1..] == outside[k + 1..];
  }

  lemma {:induction false} OwnFinished(sh: Shared, t: Thread, outside: seq<Choice>)
    requires t.pc.Finished?
    ensures Own(sh, t, outside) == (sh, t)
    decreases |outside|
  {
    if outside != [] { OwnFinished(sh, t, outside[1..]); }
  }

  function Advances(id: RequestId, outside: seq<Choice>): seq<Action> {
    if outside == [] then [] else [Advance(id, outside[0])] + Advances(id, outside[1..])
  }

  lemma {:induction false} CrashedStays(s: State, actions: seq<Action>)
    requires s.crashed
    ensures Run(s, actions) == s
    decreases |actions|
  {
    if actions != [] { CrashedStays(s, actions[1..]); }
  }

  /** Running by itself is the interleaving in which only this request takes turns. */
  lemma {:induction false} OwnIsARun(s: State, id: RequestId, outside: seq<Choice>)
    requires !s.crashed && id in s.threads && s.threads[id].pc != Finished(Panicked)
    ensures var s', own := Run(s, Advances(id, outside)), Own(s.shared, s.threads[id], outside);
            && s'.shared == own.0 && s'.threads == s.threads[id := own.1]
            && (s'.crashed <==> own.1.pc == Finished(Panicked))
    decreases |outside|
  {
    hide Step;
    if outside == [] {
      assert s.threads == s.threads[id := s.threads[id]];
    } else {
      var (sh, t) := Step(s.shared, s.threads[id], outside[0]);
      var s1 := Exec(s, Advance(id, outside[0]));
      assert Advances(id, outside)[1..] == Advances(id, outside[1..]);
      if s1.crashed {
        CrashedStays(s1, Advances(id, outside[1..]));
        OwnFinished(sh, t, outside[1..]);
      } else {
        OwnIsARun(s1, id, outside[1..]);
      }
    }
  }

  function Same(c: Choice, n: nat): (r: seq<Choice>)
    ensures |r| == n && forall i :: 0 <= i < n ==> r[i] == c
  {
    seq(n, _ => c)
  }

  lemma OwnNothing(sh: Shared, t: Thread)
    ensures Own(sh, t, []) == (sh, t)
  {
  }

  // ---------- steps that meet no fault ----------

  /** Every look and change works, and a directory lies on the file system of what it is bound to. */
  const NO_FAULT := Choice(false, false, false, true)

  lemma OwnNext(sh: Shared, t: Thread, n: nat)
    requires n > 0
    ensures Own(sh, t, Same(NO_FAULT, n)) == Own(Step(sh, t, NO_FAULT).0, Step(sh, t, NO_FAULT).1, Same(NO_FAULT, n - 1))
  {
    assert Same(NO_FAULT, n)[1..] == Same(NO_FAULT, n - 1);
  }
}
