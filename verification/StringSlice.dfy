/** pkg/common/string_slice_flag.go: a flag that accumulates comma-separated values. */
module StringSlice {
  import opened Bytes

  /** The slice a flag points to, and whether it has been set. */
  datatype Flag = Flag(value: seq<Str>, changed: bool)

  /** The first Set drops the default. */
  function SetOnce(f: Flag, val: Str): Flag {
    Flag((if f.changed then f.value else []) + Split(val, COMMA), true)
  }

  function SetEach(f: Flag, vals: seq<Str>): Flag
    decreases |vals|
  {
    if vals == [] then f else SetEach(SetOnce(f, vals[0]), vals[1..])
  }

  lemma {:induction false} SetEachAppends(f: Flag, vals: seq<Str>)
    requires f.changed
    ensures SetEach(f, vals) == Flag(f.value + SplitAll(vals, COMMA), true)
    decreases |vals|
  {
    if vals != [] {
      SetEachAppends(SetOnce(f, vals[0]), vals[1..]);
      assert f.value + Split(vals[0], COMMA) + SplitAll(vals[1..], COMMA)
          == f.value + (Split(vals[0], COMMA) + SplitAll(vals[1..], COMMA));
    } else {
      assert f.value + [] == f.value;
    }
  }

  /** Setting a flag repeatedly comes to setting it once to the values joined by commas. */
  lemma RepeatedSetIsJoinedSet(f: Flag, vals: seq<Str>)
    requires vals != []
    ensures SetEach(f, vals) == SetOnce(f, Join(vals, COMMA))
  {
    SplitOfJoin(vals, COMMA);
    SetEachAppends(SetOnce(f, vals[0]), vals[1..]);
    var base := if f.changed then f.value else [];
    assert base + Split(vals[0], COMMA) + SplitAll(vals[1..], COMMA) == base + SplitAll(vals, COMMA);
  }

  class StringSlice {
    var value: seq<Str>
    var changed: bool

    constructor (value: seq<Str>)
      ensures State() == Flag(value, false)
    {
      this.value, changed := value, false;
    }

    function State(): Flag
      reads this
    {
      Flag(value, changed)
    }

    method Set(val: Str)
      modifies this
      ensures State() == SetOnce(old(State()), val) && changed
      ensures !old(changed) ==> value == Split(val, COMMA)
      ensures old(changed) ==> value == old(value) + Split(val, COMMA)
    {
      if !changed {
        value := [];
      }
      value := value + Split(val, COMMA);
      changed := true;
    }
  }
}
