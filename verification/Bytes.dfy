/** Go strings as byte sequences, with the few library routines the driver calls on them. */
module Bytes {
  import opened Wrappers

  type byte = x: int | 0 <= x < 0x100
  type uint16 = x: int | 0 <= x < 0x1_0000
  type Str = seq<byte>

  const DASH: byte := '-' as int
  const COMMA: byte := ',' as int
  const SLASH: byte := '/' as int

  /** An ASCII literal as bytes. */
  function Ascii(s: string): (r: Str)
    ensures |r| == |s|
  {
    seq(|s|, i requires 0 <= i < |s| => s[i] as int % 0x100)
  }

  /** uint16 arithmetic wraps. */
  function Wrap16(x: int): (r: uint16)
    ensures 0 <= x < 0x1_0000 ==> r == x
    ensures 0x1_0000 <= x < 0x2_0000 ==> r == x - 0x1_0000
  {
    x % 0x1_0000
  }

  /** The slice expression s[lo:hi]; None is Go's out-of-range panic. */
  function Slice(s: Str, lo: int, hi: int): Option<Str> {
    if 0 <= lo <= hi <= |s| then Some(s[lo..hi]) else None
  }

  // ---------- strings.Join and strings.SplitN(s, sep, -1) for a one-byte separator ----------

  function Join(parts: seq<Str>, sep: byte): Str {
    if |parts| == 0 then []
    else if |parts| == 1 then parts[0]
    else parts[0] + [sep] + Join(parts[1..], sep)
  }

  function Split(s: Str, sep: byte): (r: seq<Str>)
    ensures |r| > 0
  {
    if s == [] then [[]]
    else
      var rest := Split(s[1..], sep);
      if s[0] == sep then [[]] + rest else [[s[0]] + rest[0]] + rest[1..]
  }

  /** Joining the pieces of a string gives it back. */
  lemma {:induction false} JoinOfSplit(s: Str, sep: byte)
    ensures Join(Split(s, sep), sep) == s
  {
    if s != [] {
      JoinOfSplit(s[1..], sep);
      var rest := Split(s[1..], sep);
      if s[0] == sep {
        assert ([[]] + rest)[1..] == rest;
      } else if |rest| > 1 {
        assert ([[s[0]] + rest[0]] + rest[1..])[1..] == rest[1..];
      }
    }
  }

  /** Splitting at a separator: the pieces before it followed by the pieces after it. */
  lemma {:induction false} SplitAtSeparator(a: Str, b: Str, sep: byte)
    ensures Split(a + [sep] + b, sep) == Split(a, sep) + Split(b, sep)
  {
    var s := a + [sep] + b;
    if a == [] {
      assert s[1..] == b;
    } else {
      SplitAtSeparator(a[1..], b, sep);
      assert s[1..] == a[1..] + [sep] + b;
      PrependToFirst(a[0], Split(a[1..], sep), Split(b, sep), sep);
    }
  }

  /** Putting one more character in front of a list of pieces does not reach past its first piece. */
  lemma PrependToFirst(c: byte, x: seq<Str>, y: seq<Str>, sep: byte)
    requires |x| > 0
    ensures [[c] + (x + y)[0]] + (x + y)[1..] == ([[c] + x[0]] + x[1..]) + y
    ensures [[]] + (x + y) == ([[]] + x) + y
  {
    assert (x + y)[1..] == x[1..] + y;
  }

  /** All the pieces of every string, in order. */
  function SplitAll(vals: seq<Str>, sep: byte): seq<Str> {
    if vals == [] then [] else Split(vals[0], sep) + SplitAll(vals[1..], sep)
  }

  /** Joining values and splitting once gives the pieces of each value in turn. */
  lemma {:induction false} SplitOfJoin(vals: seq<Str>, sep: byte)
    requires vals != []
    ensures Split(Join(vals, sep), sep) == SplitAll(vals, sep)
  {
    if |vals| == 1 {
      assert SplitAll(vals[1..], sep) == [];
    } else {
      SplitOfJoin(vals[1..], sep);
      SplitAtSeparator(vals[0], Join(vals[1..], sep), sep);
    }
  }

  // ---------- encoding/hex and encoding/binary ----------

  function HexDigit(n: int): byte
    requires 0 <= n < 16
  {
    if n < 10 then '0' as int + n else 'a' as int + n - 10
  }

  /** The value of a hex digit of either case. */
  function HexValue(c: byte): Option<int> {
    if '0' as int <= c <= '9' as int then Some(c - '0' as int)
    else if 'a' as int <= c <= 'f' as int then Some(c - 'a' as int + 10)
    else if 'A' as int <= c <= 'F' as int then Some(c - 'A' as int + 10)
    else None
  }

  function EncodeHex(b: Str): (r: Str)
    ensures |r| == 2 * |b|
  {
    if b == [] then [] else [HexDigit(b[0] / 16), HexDigit(b[0] % 16)] + EncodeHex(b[1..])
  }

  /** hex.DecodeString: an odd length or a character outside 0-9a-fA-F is an error. */
  function DecodeHex(s: Str): (r: Option<Str>)
    ensures r.Some? ==> |s| == 2 * |r.value|
  {
    if s == [] then Some([])
    else if |s| == 1 then None
    else
      match (HexValue(s[0]), HexValue(s[1]), DecodeHex(s[2..]))
      case (Some(hi), Some(lo), Some(rest)) => Some([hi * 16 + lo] + rest)
      case _ => None
  }

  predicate LowerHex(s: Str) {
    forall i :: 0 <= i < |s| ==> !('A' as int <= s[i] <= 'F' as int)
  }

  lemma {:induction false} DecodeOfEncodeHex(b: Str)
    ensures DecodeHex(EncodeHex(b)) == Some(b)
  {
    if b != [] {
      DecodeOfEncodeHex(b[1..]);
      var e := EncodeHex(b);
      assert e[2..] == EncodeHex(b[1..]);
      assert [b[0]] + b[1..] == b;
    }
  }

  /** The digit printed for a parsed digit is the digit itself unless it was upper case. */
  lemma DigitOfValue(c: byte)
    requires HexValue(c).Some?
    ensures 0 <= HexValue(c).value < 16
    ensures HexDigit(HexValue(c).value) == c <==> !('A' as int <= c <= 'F' as int)
  {
  }

  /** What decoding accepts and encoding gives back is exactly the lower-case text. */
  lemma {:induction false} EncodeOfDecodeHex(s: Str)
    requires DecodeHex(s).Some?
    ensures EncodeHex(DecodeHex(s).value) == s <==> LowerHex(s)
  {
    if s != [] {
      DigitOfValue(s[0]);
      DigitOfValue(s[1]);
      EncodeOfDecodeHex(s[2..]);
      LowerHexSplit(s);
      hide LowerHex, HexValue;
      var b := DecodeHex(s).value;
      assert b[1..] == DecodeHex(s[2..]).value;
      SplitText(s, HexDigit(HexValue(s[0]).value), HexDigit(HexValue(s[1]).value), EncodeHex(b[1..]));
    }
  }

  lemma SplitText(s: Str, c: byte, d: byte, rest: Str)
    requires |s| >= 2
    ensures [c, d] + rest == s <==> c == s[0] && d == s[1] && rest == s[2..]
  {
    var e := [c, d] + rest;
    assert e[2..] == rest && s == [s[0], s[1]] + s[2..];
  }

  lemma LowerHexSplit(s: Str)
    requires |s| >= 2
    ensures LowerHex(s) <==> !('A' as int <= s[0] <= 'F' as int) && !('A' as int <= s[1] <= 'F' as int) && LowerHex(s[2..])
  {
    assert forall i :: 2 <= i < |s| ==> s[i] == s[2..][i - 2];
    assert forall i :: 0 <= i < |s[2..]| ==> s[2..][i] == s[i + 2];
  }

  /** binary.BigEndian.PutUint16 into a two-byte buffer. */
  function BigEndian16(n: uint16): (r: Str)
    ensures |r| == 2
  {
    [n / 0x100, n % 0x100]
  }

  /** binary.BigEndian.Uint16. */
  function Uint16(b: Str): uint16
    requires |b| >= 2
  {
    var hi: int, lo: int := b[0], b[1];
    hi * 0x100 + lo
  }
}
