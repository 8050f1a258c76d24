/** The size arithmetic of pkg/common/utils.go and what the driver sends and reports with it. */
module VolumeSize {
  const GiB := 0x4000_0000
  const TWO53 := 0x20_0000_0000_0000
  const TWO63 := 0x8000_0000_0000_0000

  /** The largest size whose rounding up to GiB still fits in an int64. */
  const MAX_SIZE := TWO63 - GiB

  type int64 = x: int | -TWO63 <= x < TWO63

  /** int64 arithmetic wraps. */
  function Wrap64(x: int): int64 {
    (x + TWO63) % (2 * TWO63) - TWO63
  }

  // ---------- float64(x): round to nearest, ties to even (IEEE 754-2008, section 4.3.1) ----------

  /** The spacing of the 53-bit significands at the magnitude of n. */
  function Spacing(n: nat): (u: nat)
    ensures u > 0
  {
    if n < TWO53 then 1 else 2 * Spacing(n / 2)
  }

  /** The multiple of u nearest to n; of two equally near ones, the even multiple. */
  function NearestMultiple(n: nat, u: nat): nat
    requires u > 0
  {
    var q, r := n / u, n % u;
    if 2 * r < u || (2 * r == u && q % 2 == 0) then q * u else (q + 1) * u
  }

  function Rounded(n: nat): nat {
    NearestMultiple(n, Spacing(n))
  }

  function Float64(x: int): int {
    if x >= 0 then Rounded(x)
    else
      var magnitude: int := Rounded(-x);
      -magnitude
  }

  // ---------- utils.go ----------

  /** ceil(x / GiB); dividing a float64 by a power of two is exact. */
  function CeilGiB(x: int): int {
    (x + GiB - 1) / GiB
  }

  /** RoundOffBytes: through float64 and an int64 product. */
  function RoundOffBytes(bytes: int64): int64 {
    var floatBytes := Float64(bytes);
    if floatBytes < GiB then GiB else Wrap64(CeilGiB(floatBytes) * GiB)
  }

  /** Go's / and % truncate toward zero. */
  function TruncDiv(a: int, b: int): int
    requires b > 0
  {
    if a >= 0 then a / b else -(-a / b)
  }

  function TruncMod(a: int, b: int): int
    requires b > 0
  {
    a - TruncDiv(a, b) * b
  }

  function RoundUpSize(volumeSizeBytes: int64, allocationUnitBytes: int64): int
    requires allocationUnitBytes > 0
  {
    var roundedUp := TruncDiv(volumeSizeBytes, allocationUnitBytes);
    if TruncMod(volumeSizeBytes, allocationUnitBytes) > 0 then roundedUp + 1 else roundedUp
  }

  function RoundUpGiB(volumeSizeBytes: int64): int {
    RoundUpSize(volumeSizeBytes, GiB)
  }

  // ---------- the two places that send one figure and report another ----------

  /** A fresh create: the options already hold the rounded size, from which the quota is computed. */
  function CreateQuotaGiB(required: int64): int {
    RoundUpGiB(RoundOffBytes(required))
  }

  function CreateReported(required: int64): int64 {
    RoundOffBytes(required)
  }

  /** A resize: the quota is computed from the request, the reported size from its rounding. */
  function ResizeQuotaGiB(required: int64): int {
    RoundUpGiB(required)
  }

  function ResizeReported(required: int64): int64 {
    RoundOffBytes(required)
  }

  // ---------- what the float64 conversion does to an int64 ----------

  /** The spacings that an int64 can meet, and the binade each belongs to. */
  lemma {:induction false} SpacingCases(n: nat)
    requires n <= TWO63
    ensures Spacing(n) in {1, 2, 4, 8, 16, 32, 64, 128, 256, 512, 1024, 2048}
    ensures Spacing(n) == 1 <==> n < TWO53
    ensures Spacing(n) > 1 ==> Spacing(n) * (TWO53 / 2) <= n
    ensures n < Spacing(n) * TWO53
  {
    if n >= TWO53 {
      SpacingCases(n / 2);
    }
  }

  lemma MulMonotone(a: int, b: int, u: nat)
    ensures a <= b ==> a * u <= b * u
  {
  }

  lemma NearestRange(n: nat, u: nat)
    requires u > 0
    ensures var q := n / u;
            && q * u <= NearestMultiple(n, u) <= (q + 1) * u
            && q * u <= n < (q + 1) * u
            && (n == q * u ==> NearestMultiple(n, u) == n)
  {
    var q, r := n / u, n % u;
    assert n == q * u + r;
    assert (q + 1) * u == q * u + u;
  }

  /** No multiple of u is nearer to n than the one chosen. */
  lemma NearestIsNearest(n: nat, u: nat, k: nat)
    requires u > 0
    ensures k * u <= n ==> NearestMultiple(n, u) - n <= n - k * u && n - NearestMultiple(n, u) <= n - k * u
    ensures k * u >= n ==> NearestMultiple(n, u) - n <= k * u - n && n - NearestMultiple(n, u) <= k * u - n
  {
    var q, r := n / u, n % u;
    assert n == q * u + r && (q + 1) * u == q * u + u;
    MulMonotone(k, q, u);
    MulMonotone(q + 1, k, u);
  }

  /** Rounding never passes a multiple of the spacing. */
  lemma NearestStaysBelow(n: nat, u: nat, k: nat)
    requires u > 0 && n <= k * u
    ensures NearestMultiple(n, u) <= k * u
  {
    hide NearestMultiple;
    NearestRange(n, u);
    MulMonotone(n / u + 1, k, u);
    MulMonotone(k, n / u, u);
  }

  lemma NearestStaysAbove(n: nat, u: nat, k: nat)
    requires u > 0 && k * u <= n
    ensures k * u <= NearestMultiple(n, u)
  {
    hide NearestMultiple;
    NearestRange(n, u);
    MulMonotone(k, n / u, u);
    MulMonotone(n / u + 1, k, u);
  }

  lemma SpacingDividesGiB(n: nat) returns (h: nat)
    requires n <= TWO63
    ensures 2 * h * Spacing(n) == GiB
  {
    SpacingCases(n);
    var u := Spacing(n);
    hide Spacing;
    h := GiB / 2 / u;
    assert forall v :: v in {1, 2, 4, 8, 16, 32, 64, 128, 256, 512, 1024, 2048} ==> GiB / 2 / v * v * 2 == GiB;
  }

  lemma MulRegroup(k: int, h: int, u: int)
    ensures 2 * (k * h) * u == k * (2 * h * u)
  {
  }

  /** Every spacing divides GiB an even number of times. */
  lemma GiBInSpacings(n: nat, k: nat) returns (m: nat)
    requires n <= TWO63
    ensures m * Spacing(n) == k * GiB && m % 2 == 0
  {
    hide Spacing;
    var h := SpacingDividesGiB(n);
    m := 2 * (k * h);
    MulRegroup(k, h, Spacing(n));
  }

  /** Rounding keeps a size between the multiples of GiB around it. */
  lemma FloatStaysBetweenGiBs(n: nat, k: nat)
    requires n <= TWO63
    ensures n <= k * GiB ==> Rounded(n) <= k * GiB
    ensures k * GiB <= n ==> k * GiB <= Rounded(n)
  {
    var m := GiBInSpacings(n, k);
    SpacingCases(n);
    if n <= k * GiB { NearestStaysBelow(n, Spacing(n), m); }
    if k * GiB <= n { NearestStaysAbove(n, Spacing(n), m); }
  }

  /** Sizes just above a multiple of GiB, by at most half the spacing: these round down to it. */
  predicate RoundsDown(n: int64) {
    n >= 1 && 0 < n % GiB <= Spacing(n) / 2
  }

  /** Rounding down to an even multiple of the spacing: up to and including half way. */
  lemma NearestAboveMultiple(n: nat, u: nat, m: nat)
    requires u > 0 && m * u <= n && m % 2 == 0
    ensures NearestMultiple(n, u) == m * u <==> 2 * (n - m * u) <= u
  {
    if n < (m + 1) * u {
      QuotientIs(n, u, m);
    } else {
      NearestStaysAbove(n, u, m + 1);
      hide NearestMultiple;
    }
  }

  lemma QuotientIs(n: nat, u: nat, m: nat)
    requires u > 0 && m * u <= n < (m + 1) * u
    ensures n / u == m && n % u == n - m * u
  {
    var q := n / u;
    assert n == q * u + n % u;
    MulMonotone(q + 1, m, u);
    MulMonotone(m + 1, q, u);
  }

  /** A size that is not a multiple of GiB is rounded to the multiple below exactly in those cases. */
  lemma FloatReachesGiBBelow(n: int64)
    requires n >= 1 && n % GiB != 0
    ensures Rounded(n) == n / GiB * GiB <==> RoundsDown(n)
  {
    hide NearestMultiple;
    var k := n / GiB;
    var m := GiBInSpacings(n, k);
    SpacingCases(n);
    NearestAboveMultiple(n, Spacing(n), m);
    assert n - k * GiB == n % GiB;
  }

  // ---------- RoundOffBytes ----------

  /** The float64 of a size lies between the multiples of GiB around it. */
  lemma FloatPlace(b: int64)
    requires b >= 0
    ensures b / GiB * GiB <= Float64(b) <= CeilGiB(b) * GiB
    ensures Float64(b) == b / GiB * GiB <==> b % GiB == 0 || RoundsDown(b)
    ensures b < GiB ==> Float64(b) == b
  {
    FloatStaysBetweenGiBs(b, b / GiB);
    FloatStaysBetweenGiBs(b, CeilGiB(b));
    if b % GiB != 0 {
      FloatReachesGiBBelow(b);
    }
    if b < GiB {
      NearestRange(b, 1);
    }
    hide NearestMultiple;
  }

  lemma CeilBetween(f: int, k: int)
    ensures f == k * GiB ==> CeilGiB(f) == k
    ensures k * GiB < f <= (k + 1) * GiB ==> CeilGiB(f) == k + 1
  {
  }

  lemma Wrap64Is(x: int)
    ensures 0 <= x < TWO63 ==> Wrap64(x) == x
    ensures Wrap64(TWO63) == -TWO63
  {
  }

  lemma FloatCeil(b: int64)
    requires b >= GiB
    ensures Float64(b) >= GiB && CeilGiB(Float64(b)) == CeilGiB(b) - if RoundsDown(b) then 1 else 0
  {
    hide RoundsDown, Float64, CeilGiB;
    CeilBetween(b, b / GiB);
    CeilBetween(Float64(b), b / GiB);
    FloatPlace(b);
    NotRoundedMultiple(b);
  }

  /** RoundOffBytes over the whole of int64, without floats. */
  lemma RoundOffBytesIs(b: int64)
    ensures b < GiB ==> RoundOffBytes(b) == GiB
    ensures GiB <= b <= MAX_SIZE ==> RoundOffBytes(b) == (CeilGiB(b) - if RoundsDown(b) then 1 else 0) * GiB
    ensures MAX_SIZE < b ==> RoundOffBytes(b) == if RoundsDown(b) then MAX_SIZE else -TWO63
  {
    hide RoundsDown, Wrap64;
    if b < 0 {
      assert Float64(b) <= 0;
    } else if b < GiB {
      hide Float64;
      FloatPlace(b);
    } else {
      hide Float64;
      FloatCeil(b);
      Wrap64Is(CeilGiB(Float64(b)) * GiB);
    }
  }

  lemma NotRoundedMultiple(b: int64)
    ensures b % GiB == 0 ==> !RoundsDown(b)
  {
  }

  /** Exact up to 2^53: the least positive multiple of GiB that holds b. */
  lemma RoundOffBytesExact(b: int64)
    requires b <= TWO53
    ensures RoundOffBytes(b) == if b < 1 then GiB else CeilGiB(b) * GiB
  {
    RoundOffBytesIs(b);
    if b >= 1 { SpacingCases(b); }
  }

  /** The spacing changes only at multiples of GiB. */
  lemma SameSpacing(a: nat, b: nat)
    requires a <= b <= TWO63 && a / GiB == b / GiB
    ensures Spacing(a) == Spacing(b)
  {
    SpacingCases(a);
    SpacingCases(b);
    hide Spacing;
  }

  lemma RoundOffBytesMonotone(a: int64, b: int64)
    requires a <= b <= MAX_SIZE
    ensures RoundOffBytes(a) <= RoundOffBytes(b)
  {
    hide RoundOffBytes, Spacing;
    RoundOffBytesIs(a);
    RoundOffBytesIs(b);
    if a >= 1 && a / GiB == b / GiB {
      SameSpacing(a, b);
    }
  }

  /** A rounded size is left alone by rounding it again. */
  lemma RoundOffBytesIdempotent(b: int64)
    requires b <= MAX_SIZE
    ensures GiB <= RoundOffBytes(b) <= MAX_SIZE && RoundOffBytes(b) % GiB == 0
    ensures RoundOffBytes(RoundOffBytes(b)) == RoundOffBytes(b)
  {
    hide RoundOffBytes, Spacing;
    RoundOffBytesIs(b);
    RoundOffBytesIs(RoundOffBytes(b));
  }

  /** The reported size falls short of the request only for sizes that round down, and by at most 512 bytes. */
  lemma RoundOffBytesShortfall(b: int64)
    requires b <= MAX_SIZE
    ensures RoundOffBytes(b) < b <==> RoundsDown(b)
    ensures b - RoundOffBytes(b) <= 512
  {
    hide RoundOffBytes;
    RoundOffBytesIs(b);
    if b >= 1 { SpacingCases(b); }
    hide Spacing;
    assert RoundsDown(b) ==> b % GiB <= 512;
  }

  // ---------- quota against reported size ----------

  /** A fresh create reports exactly the quota it sends, for every requested size. */
  lemma CreateQuotaIsReported(required: int64)
    ensures CreateQuotaGiB(required) * GiB == CreateReported(required)
    ensures required <= MAX_SIZE ==> CreateQuotaGiB(required) >= 1
  {
    hide RoundOffBytes, Spacing;
    RoundOffBytesIs(required);
  }

  /** The quota is the least number of GiB that holds the size, for negative sizes too, because division truncates. */
  lemma RoundUpGiBIsLeast(size: int64)
    ensures size <= RoundUpGiB(size) * GiB < size + GiB
  {
  }

  /** A resize reports the quota it sends exactly for sizes in [1, MAX_SIZE] that do not round down. */
  lemma ResizeQuotaIsReportedIff(required: int64)
    ensures ResizeQuotaGiB(required) * GiB == ResizeReported(required)
       <==> 1 <= required <= MAX_SIZE && !RoundsDown(required)
  {
    hide RoundOffBytes;
    RoundOffBytesIs(required);
    if required >= 1 { SpacingCases(required); }
    hide Spacing;
  }

  /** Otherwise, in that range, the quota is one GiB above the report, and the report is below the request. */
  lemma ResizeDifference(required: int64)
    requires 1 <= required <= MAX_SIZE
    ensures ResizeQuotaGiB(required) * GiB - ResizeReported(required) == if RoundsDown(required) then GiB else 0
    ensures ResizeQuotaGiB(required) * GiB >= required
    ensures required <= TWO53 ==> !RoundsDown(required)
  {
    hide RoundOffBytes;
    RoundOffBytesIs(required);
    SpacingCases(required);
    hide Spacing;
  }

  /** 2^53 + 1 is the least size on which a resize reports less than the quota it sent. */
  lemma FirstResizeMismatch()
    ensures RoundsDown(TWO53 + 1)
    ensures forall b: int64 :: 1 <= b <= TWO53 ==> !RoundsDown(b)
  {
    SpacingCases(TWO53 + 1);
    forall b: int64 | 1 <= b <= TWO53 ensures !RoundsDown(b) {
      SpacingCases(b);
    }
  }
}
