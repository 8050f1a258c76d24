/** pkg/common/volid.go: the length-prefixed volume ID, its printer and its parser. */
module VolumeId {
  import opened Bytes
  import opened Wrappers

  const MAX_VOL_ID_LEN := 128

  datatype Identifier = Identifier(clusterID: Str, userName: Str, volName: Str) {
    /** Len(): fifteen framing bytes, although five separators and twelve hex digits make seventeen. */
    function Len(): int {
      5 * 3 + |clusterID| + |userName| + |volName|
    }
  }

  /** What a Go call that may return an error or panic comes to. */
  datatype Outcome<+T> = Read(value: T) | Malformed | Panic

  // ---------- the printer ----------

  function LengthField(n: nat): (r: Str)
    ensures |r| == 4
  {
    EncodeHex(BigEndian16(Wrap16(n)))
  }

  function Compose(c: Identifier): Option<Str> {
    if c.Len() > MAX_VOL_ID_LEN then None
    else Some(Join([LengthField(|c.clusterID|), c.clusterID, LengthField(|c.userName|), c.userName,
                    LengthField(|c.volName|), c.volName], DASH))
  }

  // ---------- the parser ----------

  datatype Field = Field(text: Str, cursor: uint16)

  /** next(): every cursor sum wraps at 2^16 and every slice expression may panic. */
  function NextField(s: Str, cursor: uint16): Outcome<Field> {
    match Slice(s, cursor, Wrap16(cursor + 4))
    case None => Panic
    case Some(digits) =>
      match DecodeHex(digits)
      case None => Malformed
      case Some(buf16) =>
        assert Wrap16(cursor + 4) == cursor + 4;
        var start := Wrap16(cursor + 5);
        var end := Wrap16(start + Uint16(buf16));
        match Slice(s, start, end)
        case None => Panic
        case Some(text) => Read(Field(text, Wrap16(end + 1)))
  }

  /** DecomposeCSIID, as a caller that drops the identifier on an error sees it. */
  function Decode(s: Str): Outcome<Identifier> {
    match NextField(s, 0)
    case Panic => Panic
    case Malformed => Malformed
    case Read(f1) =>
      match NextField(s, f1.cursor)
      case Panic => Panic
      case Malformed => Malformed
      case Read(f2) =>
        match NextField(s, f2.cursor)
        case Panic => Panic
        case Malformed => Malformed
        case Read(f3) => Read(Identifier(f1.text, f2.text, f3.text))
  }

  // ---------- the same parser over unbounded integers ----------

  /** The text between the framing bytes that start at position at, by arithmetic that never wraps. */
  function IdealNext(s: Str, at: nat): Outcome<(Str, nat)> {
    if at + 4 > |s| then Panic
    else
      match DecodeHex(s[at..at + 4])
      case None => Malformed
      case Some(b) =>
        var stop := at + 5 + Uint16(b);
        if stop > |s| then Panic else Read((s[at + 5..stop], stop + 1))
  }

  function IdealDecode(s: Str): Outcome<Identifier> {
    match IdealNext(s, 0)
    case Panic => Panic
    case Malformed => Malformed
    case Read(f1) =>
      match IdealNext(s, f1.1)
      case Panic => Panic
      case Malformed => Malformed
      case Read(f2) =>
        match IdealNext(s, f2.1)
        case Panic => Panic
        case Malformed => Malformed
        case Read(f3) => Read(Identifier(f1.0, f2.0, f3.0))
  }

  /** Below 65535 bytes a wrapped bound lies under the lower bound, so it panics where the ideal parser does. */
  lemma NextAgrees(s: Str, cursor: uint16)
    requires |s| < 0xFFFF
    ensures match NextField(s, cursor)
            case Panic => IdealNext(s, cursor) == Panic
            case Malformed => IdealNext(s, cursor) == Malformed
            case Read(f) => IdealNext(s, cursor) == Read((f.text, f.cursor as nat))
  {
    hide DecodeHex, Wrap16, Uint16;
  }

  lemma WrappingDecodeIsIdeal(s: Str)
    requires |s| < 0xFFFF
    ensures Decode(s) == IdealDecode(s)
  {
    NextAgrees(s, 0);
    if NextField(s, 0).Read? {
      var c1 := NextField(s, 0).value.cursor;
      NextAgrees(s, c1);
      if NextField(s, c1).Read? {
        NextAgrees(s, NextField(s, c1).value.cursor);
      }
    }
  }

  /** A string whose first field fills bytes 5 to 65534: the cursor wraps to 0 and the field is read three times. */
  function WrapAround(n: nat): (s: Str)
    requires n >= 0xFFFF
    ensures |s| == n && s[..4] == Ascii("fffa") && forall i :: 4 <= i < n ==> s[i] == DASH
  {
    Ascii("fffa") + seq(n - 4, _ => DASH)
  }

  lemma WrapAroundDiffers(n: nat)
    requires n >= 0xFFFF
    ensures Decode(WrapAround(n)).Read? && !IdealDecode(WrapAround(n)).Read?
  {
    var s := WrapAround(n);
    var digits := s[0..4];
    assert digits == ['f' as int, 'f' as int, 'f' as int, 'a' as int];
    LengthFieldValue(0xFFFA);
    assert digits == LengthField(0xFFFA);
    assert NextField(s, 0) == Read(Field(s[5..0xFFFF], 0));
    if n >= 0x1_0004 {
      assert s[0x1_0000..0x1_0004][0] == DASH;
    }
  }

  /** 65535 is exactly where the wrapping cursor starts to matter. */
  lemma WrappingMattersFrom65535(n: nat)
    ensures (forall s: Str :: |s| == n ==> Decode(s) == IdealDecode(s)) <==> n < 0xFFFF
  {
    if n < 0xFFFF {
      forall s: Str | |s| == n ensures Decode(s) == IdealDecode(s) {
        WrappingDecodeIsIdeal(s);
      }
    } else {
      WrapAroundDiffers(n);
    }
  }

  // ---------- round trips ----------

  /** A field with its length in front. */
  function Prefixed(text: Str): (r: Str)
    ensures |r| == 5 + |text|
  {
    LengthField(|text|) + [DASH] + text
  }

  /** A composed ID written out. */
  function Frame(c: Identifier): (s: Str)
    ensures |s| == c.Len() + 2
  {
    Prefixed(c.clusterID) + [DASH] + Prefixed(c.userName) + [DASH] + Prefixed(c.volName)
  }

  lemma JoinSix(a: Str, b: Str, c: Str, d: Str, e: Str, f: Str, sep: byte)
    ensures Join([a, b, c, d, e, f], sep)
         == a + [sep] + b + [sep] + c + [sep] + d + [sep] + e + [sep] + f
  {
    hide Join;
    JoinOne(f, [f], sep);
    JoinOne(e, [f], sep);
    JoinOne(d, [e, f], sep);
    JoinOne(c, [d, e, f], sep);
    JoinOne(b, [c, d, e, f], sep);
    JoinOne(a, [b, c, d, e, f], sep);
    assert [a] + [b, c, d, e, f] == [a, b, c, d, e, f] && [b] + [c, d, e, f] == [b, c, d, e, f];
    assert [c] + [d, e, f] == [c, d, e, f] && [d] + [e, f] == [d, e, f] && [e] + [f] == [e, f];
    var w := e + [sep] + f;
    assert c + [sep] + (d + [sep] + w) == c + [sep] + d + [sep] + w;
    assert a + [sep] + (b + [sep] + (c + [sep] + d + [sep] + w))
        == a + [sep] + b + [sep] + c + [sep] + d + [sep] + e + [sep] + f;
  }

  lemma JoinOne(x: Str, rest: seq<Str>, sep: byte)
    requires |rest| > 0
    ensures Join([x] + rest, sep) == x + [sep] + Join(rest, sep)
    ensures Join([x], sep) == x
  {
    assert ([x] + rest)[1..] == rest;
  }

  /** An accepted ID has length Len() + 2, so 130 and not 128 bounds it. */
  lemma ComposeIsFrame(c: Identifier)
    ensures Compose(c) == if c.Len() <= MAX_VOL_ID_LEN then Some(Frame(c)) else None
    ensures Compose(c).Some? ==> |Compose(c).value| == c.Len() + 2 <= 130
    ensures Compose(c).Some? ==> (|Compose(c).value| <= MAX_VOL_ID_LEN <==> c.Len() <= MAX_VOL_ID_LEN - 2)
  {
    hide LengthField;
    var l1, l2, l3 := LengthField(|c.clusterID|), LengthField(|c.userName|), LengthField(|c.volName|);
    JoinSix(l1, c.clusterID, l2, c.userName, l3, c.volName, DASH);
    assert l1 + [DASH] + c.clusterID + [DASH] + l2 + [DASH] + c.userName + [DASH] + l3 + [DASH] + c.volName
        == Frame(c);
  }

  /** The bound is met: every length up to 130 from seventeen on is that of some accepted ID. */
  lemma SomeIdIsAsLong(n: nat) returns (c: Identifier)
    requires 17 <= n <= 130
    ensures Compose(c).Some? && |Compose(c).value| == n
  {
    c := Identifier(seq(n - 17, _ => DASH), [], []);
    ComposeIsFrame(c);
  }

  lemma LengthFieldValue(n: uint16)
    ensures DecodeHex(LengthField(n)) == Some(BigEndian16(n)) && Uint16(BigEndian16(n)) == n
  {
    hide DecodeHex, EncodeHex, Wrap16;
    DecodeOfEncodeHex(BigEndian16(n));
  }

  lemma NextReadsField(s: Str, at: uint16, text: Str)
    requires at + 5 + |text| <= |s| && at + 5 + |text| < 0x1_0000
    requires s[at..at + 4] == LengthField(|text|) && s[at + 5..at + 5 + |text|] == text
    ensures NextField(s, at) == Read(Field(text, Wrap16(at + 6 + |text|)))
  {
    hide LengthField, DecodeHex, BigEndian16, Uint16, Wrap16;
    LengthFieldValue(|text|);
  }

  /** The parser reads a field back whatever stands before and after it, as long as its end does not wrap. */
  lemma ReadsPrefixed(before: Str, text: Str, after: Str)
    requires |before| + 5 + |text| < 0x1_0000
    ensures NextField(before + Prefixed(text) + after, |before|) == Read(Field(text, Wrap16(|before| + 6 + |text|)))
  {
    hide NextField, LengthField, Wrap16;
    var s := before + Prefixed(text) + after;
    var start := |before| + 5;
    var p := Prefixed(text);
    assert s[|before|..|before| + 4] == p[..4] == LengthField(|text|);
    assert s[start..start + |text|] == p[5..] == text;
    NextReadsField(s, |before|, text);
  }

  /** Decoding ignores whatever follows a composed ID. */
  lemma DecodeOfFrame(c: Identifier, rest: Str)
    requires c.Len() <= MAX_VOL_ID_LEN
    ensures Decode(Frame(c) + rest) == Read(c)
  {
    hide Prefixed, NextField;
    var s := Frame(c) + rest;
    var f1, f2, f3 := Prefixed(c.clusterID), Prefixed(c.userName), Prefixed(c.volName);
    assert s == [] + f1 + ([DASH] + f2 + [DASH] + f3 + rest);
    ReadsPrefixed([], c.clusterID, [DASH] + f2 + [DASH] + f3 + rest);
    assert s == (f1 + [DASH]) + f2 + ([DASH] + f3 + rest);
    ReadsPrefixed(f1 + [DASH], c.userName, [DASH] + f3 + rest);
    assert s == (f1 + [DASH] + f2 + [DASH]) + f3 + rest;
    ReadsPrefixed(f1 + [DASH] + f2 + [DASH], c.volName, rest);
  }

  lemma DecodeOfCompose(c: Identifier)
    requires Compose(c).Some?
    ensures Decode(Compose(c).value) == Read(c)
  {
    ComposeIsFrame(c);
    DecodeOfFrame(c, []);
    assert Frame(c) + [] == Frame(c);
  }

  /** No composed ID is a prefix of another; in particular composition is injective. */
  lemma ComposeIsPrefixFree(a: Identifier, b: Identifier)
    requires Compose(a).Some? && Compose(b).Some?
    requires Compose(a).value <= Compose(b).value
    ensures a == b
  {
    ComposeIsFrame(a);
    ComposeIsFrame(b);
    var rest := Frame(b)[|Frame(a)|..];
    assert Frame(b) == Frame(a) + rest;
    DecodeOfFrame(a, rest);
    DecodeOfCompose(b);
  }

  /** The texts the printer produces among those the parser reads as c. */
  ghost predicate Canonical(s: Str, c: Identifier)
    requires |s| >= c.Len() + 2
  {
    var p1 := 6 + |c.clusterID|;
    var p2 := p1 + 6 + |c.userName|;
    && s[4] == s[p1 - 1] == s[p1 + 4] == s[p2 - 1] == s[p2 + 4] == DASH
    && LowerHex(s[0..4]) && LowerHex(s[p1..p1 + 4]) && LowerHex(s[p2..p2 + 4])
    && |s| == c.Len() + 2
  }

  lemma NextParts(s: Str, at: uint16)
    requires NextField(s, at).Read?
    ensures at + 4 <= |s| && DecodeHex(s[at..at + 4]).Some?
    ensures var f, buf, start := NextField(s, at).value, DecodeHex(s[at..at + 4]).value, Wrap16(at + 5);
            && start + |f.text| <= |s|
            && |f.text| == Uint16(buf)
            && f.cursor == Wrap16(start + |f.text| + 1)
            && f.text == s[start..start + |f.text|]
  {
    hide DecodeHex, Wrap16, Uint16;
  }

  /**
   * Where the text of a field lies, after a separator past which the cursor may wrap; and a length field that was read
   * prints back the same exactly when it is lower-case.
   */
  lemma NextPrintsBack(s: Str, at: uint16)
    requires NextField(s, at).Read?
    ensures at + 4 <= |s|
    ensures var f, start := NextField(s, at).value, Wrap16(at + 5);
            && start + |f.text| <= |s|
            && f.cursor == Wrap16(start + |f.text| + 1)
            && f.text == s[start..start + |f.text|]
            && (LengthField(|f.text|) == s[at..at + 4] <==> LowerHex(s[at..at + 4]))
  {
    hide NextField, DecodeHex, EncodeHex, Wrap16, LowerHex;
    NextParts(s, at);
    EncodeOfDecodeHex(s[at..at + 4]);
    Uint16Back(DecodeHex(s[at..at + 4]).value);
  }

  lemma Uint16Back(b: Str)
    requires |b| == 2
    ensures BigEndian16(Uint16(b)) == b
  {
  }

  /** Two texts that agree on a length field, its separator and the text after it. */
  lemma SamePiece(s: Str, t: Str, lo: nat, hi: nat)
    requires lo + 5 <= hi <= |s| && hi <= |t|
    requires s[lo..lo + 4] == t[lo..lo + 4] && s[lo + 4] == t[lo + 4] && s[lo + 5..hi] == t[lo + 5..hi]
    ensures s[lo..hi] == t[lo..hi]
  {
    assert s[lo..hi] == s[lo..lo + 4] + [s[lo + 4]] + s[lo + 5..hi];
    assert t[lo..hi] == t[lo..lo + 4] + [t[lo + 4]] + t[lo + 5..hi];
  }

  /** The texts of c stand in s where the parser looks for them. */
  ghost predicate TextsInPlace(s: Str, c: Identifier) {
    var p1, p2 := 6 + |c.clusterID|, 12 + |c.clusterID| + |c.userName|;
    && |s| >= c.Len() + 2
    && s[5..p1 - 1] == c.clusterID && s[p1 + 5..p2 - 1] == c.userName && s[p2 + 5..c.Len() + 2] == c.volName
  }

  lemma DecodedTextsInPlace(s: Str, c: Identifier)
    requires Decode(s) == Read(c) && c.Len() <= MAX_VOL_ID_LEN
    ensures TextsInPlace(s, c)
    ensures var p1, p2 := 6 + |c.clusterID|, 12 + |c.clusterID| + |c.userName|;
            && (s[0..4] == LengthField(|c.clusterID|) <==> LowerHex(s[0..4]))
            && (s[p1..p1 + 4] == LengthField(|c.userName|) <==> LowerHex(s[p1..p1 + 4]))
            && (s[p2..p2 + 4] == LengthField(|c.volName|) <==> LowerHex(s[p2..p2 + 4]))
  {
    hide NextField, LengthField, LowerHex;
    NextPrintsBack(s, 0);
    NextPrintsBack(s, 6 + |c.clusterID|);
    NextPrintsBack(s, 12 + |c.clusterID| + |c.userName|);
  }

  lemma FramePieces(c: Identifier)
    ensures TextsInPlace(Frame(c), c)
    ensures var t, p1, p2 := Frame(c), 6 + |c.clusterID|, 12 + |c.clusterID| + |c.userName|;
            && t[4] == t[p1 - 1] == t[p1 + 4] == t[p2 - 1] == t[p2 + 4] == DASH
            && t[0..4] == LengthField(|c.clusterID|)
            && t[p1..p1 + 4] == LengthField(|c.userName|)
            && t[p2..p2 + 4] == LengthField(|c.volName|)
  {
    hide LengthField;
  }

  /** Two texts of one length with the same framing and texts are the same. */
  lemma SameFrame(s: Str, t: Str, c: Identifier)
    requires TextsInPlace(s, c) && TextsInPlace(t, c) && |s| == |t| == c.Len() + 2
    requires var p1, p2 := 6 + |c.clusterID|, 12 + |c.clusterID| + |c.userName|;
             && s[0..4] == t[0..4] && s[p1..p1 + 4] == t[p1..p1 + 4] && s[p2..p2 + 4] == t[p2..p2 + 4]
             && s[4] == t[4] && s[p1 - 1] == t[p1 - 1] && s[p1 + 4] == t[p1 + 4]
             && s[p2 - 1] == t[p2 - 1] && s[p2 + 4] == t[p2 + 4]
    ensures s == t
  {
    var p1, p2 := 6 + |c.clusterID|, 12 + |c.clusterID| + |c.userName|;
    SamePiece(s, t, 0, p1 - 1);
    Glue(s, t, p1 - 1);
    SamePiece(s, t, p1, p2 - 1);
    assert s[..p2 - 1] == s[..p1] + s[p1..p2 - 1] && t[..p2 - 1] == t[..p1] + t[p1..p2 - 1];
    Glue(s, t, p2 - 1);
    SamePiece(s, t, p2, |t|);
    assert s == s[..p2] + s[p2..|t|] && t == t[..p2] + t[p2..|t|];
  }

  lemma Glue(s: Str, t: Str, i: nat)
    requires i < |s| && i < |t| && s[..i] == t[..i] && s[i] == t[i]
    ensures s[..i + 1] == t[..i + 1]
  {
    assert s[..i + 1] == s[..i] + [s[i]] && t[..i + 1] == t[..i] + [t[i]];
  }

  /** Which of the strings that decode to c is the one that c composes to. */
  lemma RecomposeIffCanonical(s: Str, c: Identifier)
    requires Decode(s) == Read(c) && c.Len() <= MAX_VOL_ID_LEN
    ensures |s| >= c.Len() + 2
    ensures Compose(c) == Some(s) <==> Canonical(s, c)
  {
    hide Compose, Frame, Decode, LengthField, LowerHex;
    DecodedTextsInPlace(s, c);
    ComposeIsFrame(c);
    FramePieces(c);
    if Canonical(s, c) {
      SameFrame(s, Frame(c), c);
    } else if s == Frame(c) {
      assert false;
    }
  }

  // ---------- which strings are read, which are reported as invalid, and which panic ----------

  predicate HexDigitAt(s: Str, i: nat) {
    i < |s| && ('0' as int <= s[i] <= '9' as int || 'a' as int <= s[i] <= 'f' as int || 'A' as int <= s[i] <= 'F' as int)
  }

  /** Four hexadecimal digits of either case stand at a position. */
  predicate LengthAt(s: Str, at: nat) {
    HexDigitAt(s, at) && HexDigitAt(s, at + 1) && HexDigitAt(s, at + 2) && HexDigitAt(s, at + 3)
  }

  function DigitAt(s: Str, i: nat): nat
    requires HexDigitAt(s, i)
  {
    if s[i] <= '9' as int then s[i] - '0' as int
    else if s[i] <= 'F' as int then s[i] - 'A' as int + 10
    else s[i] - 'a' as int + 10
  }

  function NumberAt(s: Str, at: nat): nat
    requires LengthAt(s, at)
  {
    0x1000 * DigitAt(s, at) + 0x100 * DigitAt(s, at + 1) + 0x10 * DigitAt(s, at + 2) + DigitAt(s, at + 3)
  }

  /** No slice bound of the parser is above 65535, so it never looks further. */
  function Reach(s: Str): nat {
    if |s| < 0xFFFF then |s| else 0xFFFF
  }

  /** A length and as many bytes as it says, after one byte that nobody looks at and past which the cursor may wrap. */
  predicate FieldAt(s: Str, at: uint16) {
    at + 4 <= Reach(s) && LengthAt(s, at) && Wrap16(at + 5) + NumberAt(s, at) <= Reach(s)
  }

  function AfterField(s: Str, at: uint16): uint16
    requires FieldAt(s, at)
  {
    Wrap16(Wrap16(at + 5) + NumberAt(s, at) + 1)
  }

  /** Too few bytes for a length, or a length that says more than there is. */
  predicate OverrunsAt(s: Str, at: uint16) {
    at + 4 > Reach(s) || (LengthAt(s, at) && Wrap16(at + 5) + NumberAt(s, at) > Reach(s))
  }

  /** Bytes enough for a length, and not all of them hexadecimal digits. */
  predicate BadLengthAt(s: Str, at: uint16) {
    at + 4 <= Reach(s) && !LengthAt(s, at)
  }

  /** Something is the case where a field should start: at the front or after one or two fields that fit. */
  predicate AtSomeField(s: Str, p: (Str, uint16) -> bool) {
    || p(s, 0)
    || (FieldAt(s, 0) && p(s, AfterField(s, 0)))
    || (FieldAt(s, 0) && FieldAt(s, AfterField(s, 0)) && p(s, AfterField(s, AfterField(s, 0))))
  }

  lemma HexDigitIsValue(s: Str, i: nat)
    requires i < |s|
    ensures HexValue(s[i]) == if HexDigitAt(s, i) then Some(DigitAt(s, i)) else None
  {
  }

  /** What the library decoder makes of four bytes. */
  lemma DecodesLength(s: Str, at: nat)
    requires at + 4 <= |s|
    ensures DecodeHex(s[at..at + 4]).Some? <==> LengthAt(s, at)
    ensures LengthAt(s, at) ==> Uint16(DecodeHex(s[at..at + 4]).value) == NumberAt(s, at)
  {
    var d := s[at..at + 4];
    HexDigitIsValue(s, at);
    HexDigitIsValue(s, at + 1);
    HexDigitIsValue(s, at + 2);
    HexDigitIsValue(s, at + 3);
    hide HexValue, HexDigitAt, DigitAt, Uint16;
    DecodeFour(d);
    if LengthAt(s, at) {
      BytesToNumber(DigitAt(s, at), DigitAt(s, at + 1), DigitAt(s, at + 2), DigitAt(s, at + 3));
    }
  }

  lemma DecodeFour(d: Str)
    requires |d| == 4
    ensures DecodeHex(d).Some? <==> forall i :: 0 <= i < 4 ==> HexValue(d[i]).Some?
    ensures DecodeHex(d).Some? ==>
              DecodeHex(d).value == [HexValue(d[0]).value * 16 + HexValue(d[1]).value,
                                     HexValue(d[2]).value * 16 + HexValue(d[3]).value]
  {
    hide HexValue;
    var rest := d[2..];
    assert DecodeHex(rest[2..]) == Some([]);
    assert rest[0] == d[2] && rest[1] == d[3];
    assert DecodeHex(rest).Some? <==> HexValue(d[2]).Some? && HexValue(d[3]).Some?;
  }

  lemma BytesToNumber(a: nat, b: nat, c: nat, d: nat)
    requires a < 16 && b < 16 && c < 16 && d < 16
    ensures Uint16([a * 16 + b, c * 16 + d]) == 0x1000 * a + 0x100 * b + 0x10 * c + d
  {
  }

  /** One field by its bytes. */
  lemma NextIs(s: Str, at: uint16)
    ensures NextField(s, at) == Panic <==> OverrunsAt(s, at)
    ensures NextField(s, at) == Malformed <==> BadLengthAt(s, at)
    ensures NextField(s, at).Read? <==> FieldAt(s, at)
    ensures FieldAt(s, at) ==> NextField(s, at).value.cursor == AfterField(s, at)
  {
    hide DecodeHex, Uint16, LengthAt, NumberAt;
    if at + 4 <= |s| { DecodesLength(s, at); }
  }

  lemma FieldsInTurn(s: Str)
    ensures Decode(s) == Panic <==> AtSomeField(s, OverrunsAt)
    ensures Decode(s) == Malformed <==> AtSomeField(s, BadLengthAt)
    ensures Decode(s).Read? <==> ThreeFields(s)
  {
    hide NextField, FieldAt, OverrunsAt, BadLengthAt, AfterField;
    NextIs(s, 0);
    if FieldAt(s, 0) {
      var second := AfterField(s, 0);
      NextIs(s, second);
      if FieldAt(s, second) { NextIs(s, AfterField(s, second)); }
    }
  }

  /** Exactly these strings panic: at some field too few bytes are left for its length or for its text. */
  lemma PanicIff(s: Str)
    ensures Decode(s) == Panic <==> AtSomeField(s, OverrunsAt)
  {
    hide *;
    FieldsInTurn(s);
  }

  /** Exactly these are reported as invalid: at some field the four bytes are there and are no length. */
  lemma MalformedIff(s: Str)
    ensures Decode(s) == Malformed <==> AtSomeField(s, BadLengthAt)
  {
    hide *;
    FieldsInTurn(s);
  }

  predicate ThreeFields(s: Str) {
    && FieldAt(s, 0) && FieldAt(s, AfterField(s, 0))
    && FieldAt(s, AfterField(s, AfterField(s, 0)))
  }

  /** Exactly these are read: three fields fit, whatever stands between and after them. */
  lemma ReadIff(s: Str)
    ensures Decode(s).Read? <==> ThreeFields(s)
  {
    hide *;
    FieldsInTurn(s);
  }

  /** What was read is shorter than what it was read from by the seventeen framing bytes at least. */
  lemma DecodedIsShorter(s: Str)
    requires |s| < 0xFFFF && Decode(s).Read?
    ensures |s| >= Decode(s).value.Len() + 2
  {
    hide NextField, LengthField, LowerHex;
    NextPrintsBack(s, 0);
    var c1 := NextField(s, 0).value.cursor;
    NextPrintsBack(s, c1);
    NextPrintsBack(s, NextField(s, c1).value.cursor);
  }

  // ---------- the objects of volid.go ----------

  class CSIIdentifierDecompose {
    const composedCSIID: Str
    var cursor: uint16

    constructor (composedCSIID: Str)
      ensures this.composedCSIID == composedCSIID && cursor == 0
    {
      this.composedCSIID := composedCSIID;
      cursor := 0;
    }

    method Next() returns (r: Outcome<Str>)
      modifies this
      ensures match NextField(composedCSIID, old(cursor))
              case Panic => r == Panic
              case Malformed => r == Malformed && cursor == old(cursor)
              case Read(f) => r == Read(f.text) && cursor == f.cursor
    {
      var digits := Slice(composedCSIID, cursor, Wrap16(cursor + 4));
      if digits.None? { return Panic; }
      var buf16 := DecodeHex(digits.value);
      if buf16.None? { return Malformed; }
      var length: int := Uint16(buf16.value);
      cursor := Wrap16(cursor + 5);
      var end: int := Wrap16(cursor + length);
      var s := Slice(composedCSIID, cursor, end);
      if s.None? { return Panic; }
      cursor := Wrap16(end + 1);
      return Read(s.value);
    }
  }

  class CSIIdentifier {
    var clusterID: Str
    var userName: Str
    var volName: Str

    constructor (clusterID: Str, userName: Str, volName: Str)
      ensures Value() == Identifier(clusterID, userName, volName)
    {
      this.clusterID, this.userName, this.volName := clusterID, userName, volName;
    }

    function Value(): Identifier
      reads this
    {
      Identifier(clusterID, userName, volName)
    }

    /** One two-byte buffer is overwritten for each length in turn. */
    method ComposeCSIID() returns (r: Option<Str>)
      ensures r == Compose(Value())
    {
      var buf16 := new byte[2];
      if Value().Len() > MAX_VOL_ID_LEN { return None; }
      PutUint16(buf16, Wrap16(|clusterID|));
      var clusterIDLength := EncodeHex(buf16[..]);
      PutUint16(buf16, Wrap16(|userName|));
      var userNameLength := EncodeHex(buf16[..]);
      PutUint16(buf16, Wrap16(|volName|));
      var volNameLength := EncodeHex(buf16[..]);
      return Some(Join([clusterIDLength, clusterID, userNameLength, userName, volNameLength, volName], DASH));
    }

    /**
     * The fields are assigned one by one, so a failing call has changed those it reached: on an error the field it
     * failed at is emptied, on a panic it is kept.
     */
    method DecomposeCSIID(composedCSIID: Str) returns (r: Outcome<()>)
      modifies this
      ensures match Decode(composedCSIID)
              case Read(c) => r == Read(()) && Value() == c
              case Malformed => r == Malformed
              case Panic => r == Panic
      ensures match NextField(composedCSIID, 0)
              case Panic => Value() == old(Value())
              case Malformed => Value() == old(Value()).(clusterID := [])
              case Read(f1) =>
                match NextField(composedCSIID, f1.cursor)
                case Panic => Value() == old(Value()).(clusterID := f1.text)
                case Malformed => Value() == old(Value()).(clusterID := f1.text, userName := [])
                case Read(f2) =>
                  && clusterID == f1.text && userName == f2.text
                  && match NextField(composedCSIID, f2.cursor)
                     case Panic => volName == old(volName)
                     case Malformed => volName == []
                     case Read(f3) => volName == f3.text
    {
      hide NextField;
      var cidd := new CSIIdentifierDecompose(composedCSIID);
      var f := cidd.Next();
      if f.Panic? { return Panic; }
      if f.Malformed? { clusterID := []; return Malformed; }
      clusterID := f.value;
      f := cidd.Next();
      if f.Panic? { return Panic; }
      if f.Malformed? { userName := []; return Malformed; }
      userName := f.value;
      f := cidd.Next();
      if f.Panic? { return Panic; }
      if f.Malformed? { volName := []; return Malformed; }
      volName := f.value;
      return Read(());
    }
  }

  method PutUint16(buf: array<byte>, n: uint16)
    requires buf.Length == 2
    modifies buf
    ensures buf[..] == BigEndian16(n)
  {
    buf[0] := n / 0x100;
    buf[1] := n % 0x100;
  }
}
