/** Sampled prefill: the cost of all chunks, estimated from a few of them. */
module Prefill {
  import opened Arith

  // ---- which chunks are sampled ----------------------------------------------------------

  /** The nearest integer of num / den; halves go to the even one. */
  function Round(num: nat, den: nat): nat
    requires den > 0
  {
    var q, r := num / den, num % den;
    if 2 * r < den || (2 * r == den && q % 2 == 0) then q else q + 1
  }

  /** Samples are spread exponentially: pos is at (2^pos - 1) / (2^(count - 1) - 1) of the way. */
  function Denominator(count: nat): nat {
    if count == 0 then 1 else Max(1, Pow2(count - 1) - 1)
  }

  lemma DenominatorPositive(count: nat)
    ensures Denominator(count) > 0
  {
  }

  function Position(n: nat, den: nat, pos: nat): nat
    requires n > 0 && den > 0
  {
    NotNegative(n - 1, Pow2(pos) - 1);
    Round((n - 1) * (Pow2(pos) - 1), den)
  }

  lemma NotNegative(a: nat, b: nat)
    ensures a * b >= 0
  {
  }

  /** The first `k` positions. */
  function Positions(n: nat, den: nat, k: nat): set<nat>
    requires n > 0 && den > 0
  {
    if k == 0 then {} else Positions(n, den, k - 1) + {Position(n, den, k - 1)}
  }

  function SampleSet(n: nat, count: nat): set<nat>
    requires n > count
  {
    {0, n - 1} + Positions(n, Denominator(count), count)
  }

  /** sorted(): the members of `s` below `n`, in ascending order. */
  function Ascending(s: set<nat>, n: nat): seq<nat> {
    if n == 0 then [] else Ascending(s, n - 1) + if n - 1 in s then [n - 1] else []
  }

  function AllBelow(n: nat): (s: seq<nat>)
    ensures |s| == n && forall i :: 0 <= i < n ==> s[i] == i
  {
    seq(n, i requires 0 <= i => i)
  }

  function Samples(n: nat, count: nat): seq<nat> {
    if n <= count then AllBelow(n) else Ascending(SampleSet(n, count), n)
  }

  method SampleIndices(n: nat, count: nat) returns (s: seq<nat>)
    ensures s == Samples(n, count)
  {
    if n <= count {
      return AllBelow(n);
    }
    var indices := {0, n - 1};
    DenominatorPositive(count);
    hide Position, Denominator, Ascending;
    var den := Denominator(count);
    for pos := 0 to count
      invariant indices == {0, n - 1} + Positions(n, den, pos)
    {
      indices := indices + {Position(n, den, pos)};
    }
    s := Ascending(indices, n);
  }

  ghost predicate Increasing(s: seq<nat>) {
    forall i, j :: 0 <= i < j < |s| ==> s[i] < s[j]
  }

  lemma {:induction false} AscendingSorts(s: set<nat>, n: nat)
    ensures Increasing(Ascending(s, n))
    ensures forall x :: x in Ascending(s, n) <==> x in s && x < n
  {
    if n == 0 {
    } else {
      AscendingSorts(s, n - 1);
      var front := Ascending(s, n - 1);
      forall i | 0 <= i < |front|
        ensures front[i] < n - 1
      {
        assert front[i] in front;
      }
    }
  }

  /** No more members than the set has. */
  lemma {:induction false} AscendingShort(s: set<nat>, n: nat)
    ensures |Ascending(s, n)| <= |s|
  {
    if n == 0 {
    } else {
      if n - 1 in s {
        AscendingShort(s - {n - 1}, n - 1);
        AscendingSame(s, n - 1);
      } else {
        AscendingShort(s, n - 1);
      }
    }
  }

  lemma {:induction false} AscendingSame(s: set<nat>, n: nat)
    ensures forall m: nat :: m >= n ==> Ascending(s - {m}, n) == Ascending(s, n)
  {
    if n == 0 {
    } else {
      AscendingSame(s, n - 1);
    }
  }

  lemma RoundBelow(num: nat, den: nat, limit: nat)
    requires den > 0 && num <= limit * den
    ensures Round(num, den) <= limit
  {
    DivMod(num, den);
    var q, r := num / den, num % den;
    assert num == r + den * q;
    MulStep(limit, den);
    if q > limit {
      MulLe(den, limit + 1, q);
      assert false;
    } else if q == limit {
      assert r == 0;
    }
  }

  lemma RoundExact(q: nat, den: nat)
    requires den > 0
    ensures Round(q * den, den) == q
  {
    DivModUnique(0, den, q);
    assert 0 + den * q == q * den;
  }

  lemma {:induction false} PowGrows(a: nat, b: nat)
    requires a <= b
    ensures Pow2(a) <= Pow2(b)
  {
    if a >= b {
    } else {
      PowGrows(a, b - 1);
    }
  }

  lemma PositionInRange(n: nat, count: nat, pos: nat)
    requires n > 0 && pos < count
    ensures Position(n, Denominator(count), pos) <= n - 1
  {
    hide Round;
    PowGrows(pos, count - 1);
    ShareBelow(n - 1, Pow2(pos) - 1, Denominator(count));
  }

  lemma ShareBelow(limit: nat, x: nat, den: nat)
    requires den > 0 && x <= den
    ensures Round(limit * x, den) <= limit
  {
    hide Round;
    MulLe(limit, x, den);
    RoundBelow(limit * x, den, limit);
  }

  lemma MulLe(a: nat, b: int, c: int)
    requires b <= c
    ensures a * b <= a * c
  {
  }

  lemma {:induction false} PositionsInRange(n: nat, count: nat, k: nat)
    requires n > 0 && k <= count
    ensures forall x :: x in Positions(n, Denominator(count), k) ==> x < n
    ensures |Positions(n, Denominator(count), k)| <= k
    ensures k > 0 ==> 0 in Positions(n, Denominator(count), k)
    ensures k > 0 && k == count >= 2 ==> n - 1 in Positions(n, Denominator(count), k)
  {
    hide Position;
    if k == 0 {
    } else {
      var den := Denominator(count);
      PositionsInRange(n, count, k - 1);
      PositionInRange(n, count, k - 1);
      FirstPosition(n, den);
      if k == count && count >= 2 {
        LastPosition(n, count);
      }
    }
  }

  lemma FirstPosition(n: nat, den: nat)
    requires n > 0 && den > 0
    ensures Position(n, den, 0) == 0
  {
    RoundExact(0, den);
    assert (n - 1) * 0 == 0;
  }

  lemma LastPosition(n: nat, count: nat)
    requires n > 0 && count >= 2
    ensures Position(n, Denominator(count), count - 1) == n - 1
  {
    hide Round;
    PowGrows(1, count - 1);
    assert Pow2(1) == 2;
    RoundExact(n - 1, Denominator(count));
  }

  /** Sorted, distinct, in range, and with both ends. */
  ghost predicate GoodSamples(s: seq<nat>, n: nat) {
    && Increasing(s)
    && (forall i :: 0 <= i < |s| ==> s[i] < n)
    && (n > 0 ==> |s| > 0 && s[0] == 0 && s[|s| - 1] == n - 1)
  }

  lemma SamplesAreGood(n: nat, count: nat)
    ensures GoodSamples(Samples(n, count), n)
  {
    hide Positions, Denominator, Ascending;
    if n > count {
      var set0 := SampleSet(n, count);
      PositionsInRange(n, count, count);
      AscendingSorts(set0, n);
      var s := Samples(n, count);
      assert 0 in s && n - 1 in s;
      var a :| 0 <= a < |s| && s[a] == 0;
      var b :| 0 <= b < |s| && s[b] == n - 1;
      forall i | 0 <= i < |s|
        ensures s[i] < n
      {
        assert s[i] in s;
      }
      IncreasingSpread(s, 0, a);
      IncreasingSpread(s, b, |s| - 1);
    }
  }

  lemma {:induction false} IncreasingSpread(s: seq<nat>, i: nat, j: nat)
    requires Increasing(s) && i <= j < |s|
    ensures s[j] - s[i] >= j - i
  {
    if i >= j {
    } else {
      IncreasingSpread(s, i, j - 1);
    }
  }

  /** `x` is a number nearest to num / den; of two such numbers, the even one. */
  ghost predicate RoundsTo(x: int, num: int, den: int) {
    var off := 2 * (x * den - num);
    0 - den <= off <= den && (off == den || off == 0 - den ==> x % 2 == 0)
  }

  /** `x` is the number nearest to (2^pos - 1) / den of the way from 0 to n - 1. */
  ghost predicate Nearest(x: nat, n: nat, den: nat, pos: nat) {
    RoundsTo(x, (n - 1) * (Pow2(pos) - 1), den)
  }

  lemma RoundIsNearest(num: nat, den: nat)
    requires den > 0
    ensures RoundsTo(Round(num, den), num, den)
  {
    DivMod(num, den);
    MulStep(num / den, den);
  }

  /** Only one number is nearest. */
  lemma RoundsToOne(x: int, y: int, num: int, den: int)
    requires den > 0 && x < y && RoundsTo(x, num, den)
    ensures !RoundsTo(y, num, den)
  {
    var u, v := x * den, y * den;
    MulStep(x, den);
    MulMonotone(x + 1, y, den);
    if RoundsTo(y, num, den) {
      assert v == u + den;
      ProductsApart(x, y, den);
      assert false;
    }
  }

  lemma ProductsApart(x: int, y: int, den: int)
    requires den > 0 && y * den == x * den + den
    ensures y == x + 1
  {
    MulStep(x, den);
    MulStep(x + 1, den);
    if y <= x {
      MulMonotone(y, x, den);
      assert false;
    } else if y > x + 1 {
      MulMonotone(x + 2, y, den);
      assert false;
    }
  }

  lemma PositionNearest(n: nat, den: nat, pos: nat)
    requires n > 0 && den > 0
    ensures Nearest(Position(n, den, pos), n, den, pos)
  {
    hide Round, RoundsTo;
    NotNegative(n - 1, Pow2(pos) - 1);
    RoundIsNearest((n - 1) * (Pow2(pos) - 1), den);
  }

  lemma {:induction false} PositionIn(n: nat, den: nat, k: nat, pos: nat)
    requires n > 0 && den > 0 && pos < k
    ensures Position(n, den, pos) in Positions(n, den, k)
  {
    hide Position;
    if pos == k - 1 {
    } else {
      PositionIn(n, den, k - 1, pos);
    }
  }

  lemma {:induction false} PositionOf(n: nat, den: nat, k: nat, x: nat) returns (pos: nat)
    requires n > 0 && den > 0 && x in Positions(n, den, k)
    ensures pos < k && Position(n, den, pos) == x
  {
    hide Position;
    if x == Position(n, den, k - 1) {
      pos := k - 1;
    } else {
      pos := PositionOf(n, den, k - 1, x);
    }
  }

  ghost predicate SampledNear(s: seq<nat>, n: nat, den: nat, pos: nat) {
    exists i :: 0 <= i < |s| && Nearest(s[i], n, den, pos)
  }

  ghost predicate NearPosition(x: nat, n: nat, den: nat, count: nat) {
    exists pos: nat :: pos < count && Nearest(x, n, den, pos)
  }

  /**
   * The samples are spread exponentially: the number nearest to each position is one, and there
   * are no others but the two ends.
   */
  lemma SamplesSpread(n: nat, count: nat)
    requires n > count > 0
    ensures var s, den := Samples(n, count), Max(1, Pow2(count - 1) - 1);
            && (forall pos: nat :: pos < count ==> SampledNear(s, n, den, pos))
            && (forall i :: 0 <= i < |s| ==> s[i] == 0 || s[i] == n - 1 || NearPosition(s[i], n, den, count))
  {
    hide Positions, Samples, SampleSet, Pow2, SampledNear, NearPosition;
    var s, den := Samples(n, count), Denominator(count);
    forall pos: nat | pos < count
      ensures SampledNear(s, n, den, pos)
    {
      PositionSampled(n, count, pos);
    }
    forall i | 0 <= i < |s|
      ensures s[i] == 0 || s[i] == n - 1 || NearPosition(s[i], n, den, count)
    {
      SampleHasPosition(n, count, s[i]);
    }
  }

  lemma SampleMember(n: nat, count: nat, x: nat)
    requires n > count > 0
    ensures x in Samples(n, count) <==> x == 0 || x == n - 1 || x in Positions(n, Denominator(count), count)
  {
    hide Positions, Denominator, Ascending;
    PositionsInRange(n, count, count);
    AscendingSorts(SampleSet(n, count), n);
  }

  lemma PositionSampled(n: nat, count: nat, pos: nat)
    requires n > count && pos < count
    ensures SampledNear(Samples(n, count), n, Denominator(count), pos)
  {
    hide Positions, Samples, Position, Nearest, Denominator;
    var den := Denominator(count);
    DenominatorPositive(count);
    PositionIn(n, den, count, pos);
    PositionNearest(n, den, pos);
    SampleMember(n, count, Position(n, den, pos));
  }

  lemma SampleHasPosition(n: nat, count: nat, x: nat)
    requires n > count > 0 && x in Samples(n, count)
    ensures x == 0 || x == n - 1 || NearPosition(x, n, Denominator(count), count)
  {
    hide Positions, Samples, Position, Nearest, Denominator;
    var den := Denominator(count);
    DenominatorPositive(count);
    SampleMember(n, count, x);
    if x in Positions(n, den, count) {
      var pos := PositionOf(n, den, count, x);
      PositionNearest(n, den, pos);
    }
  }

  /** As many samples as chunks means that every chunk is sampled. */
  lemma FullIsAll(s: seq<nat>, n: nat)
    requires GoodSamples(s, n) && |s| == n
    ensures s == AllBelow(n)
  {
    forall i | 0 <= i < n
      ensures s[i] == i
    {
      IncreasingSpread(s, 0, i);
      IncreasingSpread(s, i, n - 1);
    }
  }

  /** The estimate is exact exactly when there are at most `count` chunks, or two. */
  lemma ExactWhen(n: nat, count: nat)
    ensures |Samples(n, count)| == n <==> n <= Max(count, 2)
  {
    hide Positions, Denominator, Ascending;
    if n > count {
      assert Denominator(count) > 0 by {
        DenominatorPositive(count);
      }
      SamplesAreGood(n, count);
      var s := Samples(n, count);
      if count >= 2 {
        PositionsInRange(n, count, count);
        AscendingShort(SampleSet(n, count), n);
        assert SampleSet(n, count) == Positions(n, Denominator(count), count);
      } else {
        IncreasingSpread(s, 0, |s| - 1);
        if n == 1 {
          assert |s| == 1;
        } else if n == 2 {
          assert s[0] != s[|s| - 1];
        } else {
          FewPositions(n, count);
          AscendingShort(SampleSet(n, count), n);
        }
      }
    }
  }

  lemma FewPositions(n: nat, count: nat)
    requires n > count && count < 2
    ensures |SampleSet(n, count)| <= 2
  {
    var den := Denominator(count);
    if count == 0 {
      assert Positions(n, den, 0) == {};
      assert SampleSet(n, count) == {0, n - 1};
    } else {
      assert Positions(n, den, 0) == {};
      RoundExact(0, den);
      assert Position(n, den, 0) == Round((n - 1) * 0, den) == 0;
      assert Positions(n, den, 1) == {0};
      assert SampleSet(n, count) == {0, n - 1};
    }
  }

  // ---- interpolation ---------------------------------------------------------------------

  /** A sampled chunk and its cost. */
  datatype Point = Point(x: nat, y: real)

  ghost predicate Sorted(points: seq<Point>) {
    forall i, j :: 0 <= i < j < |points| ==> points[i].x < points[j].x
  }

  function Portion(d: real, ratio: real): real { d * ratio }

  function Between(a: Point, b: Point, x: nat): real {
    var ratio := (x - a.x) as real / Max(1, b.x - a.x) as real;
    a.y + Portion(b.y - a.y, ratio)
  }

  /** From point `idx` on: the first that is not left of `x` ends the segment. */
  function InterpFrom(points: seq<Point>, x: nat, idx: nat): real
    requires 0 < idx && points != []
    decreases |points| - idx
  {
    if idx >= |points| then points[|points| - 1].y
    else if x <= points[idx].x then Between(points[idx - 1], points[idx], x)
    else InterpFrom(points, x, idx + 1)
  }

  function Interp(points: seq<Point>, x: nat): real
    requires points != []
  {
    if x <= points[0].x then points[0].y
    else if x >= points[|points| - 1].x then points[|points| - 1].y
    else InterpFrom(points, x, 1)
  }

  /** `points` are sorted already: they are built in the order of the samples. */
  method InterpScalar(points: seq<Point>, x: nat) returns (y: real)
    requires points != [] && Sorted(points)
    ensures y == Interp(points, x)
  {
    hide Between;
    if x <= points[0].x {
      return points[0].y;
    }
    if x >= points[|points| - 1].x {
      return points[|points| - 1].y;
    }
    for idx := 1 to |points|
      invariant InterpFrom(points, x, 1) == InterpFrom(points, x, idx)
    {
      if x <= points[idx].x {
        return Between(points[idx - 1], points[idx], x);
      }
    }
    y := points[|points| - 1].y;
  }

  function Points(s: seq<nat>, c: nat -> real): (ps: seq<Point>)
    ensures |ps| == |s| && forall i :: 0 <= i < |s| ==> ps[i] == Point(s[i], c(s[i]))
  {
    seq(|s|, i requires 0 <= i < |s| => Point(s[i], c(s[i])))
  }

  /** The segment that the interpolation at `x` uses. */
  lemma {:induction false} SegmentOf(points: seq<Point>, x: nat, idx: nat) returns (k: nat)
    requires 0 < idx < |points| && points[idx - 1].x < x <= points[|points| - 1].x
    ensures idx <= k < |points| && points[k - 1].x < x <= points[k].x
    ensures InterpFrom(points, x, idx) == Between(points[k - 1], points[k], x)
    decreases |points| - idx
  {
    hide Between;
    if x <= points[idx].x {
      k := idx;
    } else {
      k := SegmentOf(points, x, idx + 1);
    }
  }

  // ---- costs by shape --------------------------------------------------------------------

  /** How much chunk `i` + 1 costs more than chunk `i`. */
  function Diff(c: nat -> real, i: nat): real {
    c(i + 1) - c(i)
  }

  ghost predicate Convex(c: nat -> real, n: nat) {
    forall i: nat, j: nat :: i <= j && j + 1 < n ==> Diff(c, i) <= Diff(c, j)
  }

  ghost predicate Concave(c: nat -> real, n: nat) {
    forall i: nat, j: nat :: i <= j && j + 1 < n ==> Diff(c, i) >= Diff(c, j)
  }

  ghost predicate Affine(c: nat -> real, n: nat) {
    exists base: real, slope: real :: IsLine(c, n, base, slope)
  }

  ghost predicate IsLine(c: nat -> real, n: nat, base: real, slope: real) {
    forall i: nat :: i < n ==> c(i) == base + slope * i as real
  }

  /** Going right, a convex cost rises at least by the first difference each time. */
  lemma {:induction false} RisesAfter(c: nat -> real, n: nat, x: nat, b: nat, d: real)
    requires x <= b < n && forall j: nat :: x <= j && j + 1 < n ==> Diff(c, j) >= d
    ensures c(b) - c(x) >= (b - x) as real * d
  {
    if x >= b {
    } else {
      RisesAfter(c, n, x, b - 1, d);
      assert Diff(c, b - 1) >= d;
      RealStep((b - 1 - x) as real, d);
    }
  }

  lemma {:induction false} RisesBefore(c: nat -> real, n: nat, a: nat, x: nat, d: real)
    requires a <= x < n && forall j: nat :: j < x ==> Diff(c, j) <= d
    ensures c(x) - c(a) <= (x - a) as real * d
  {
    if a >= x {
    } else {
      RisesBefore(c, n, a, x - 1, d);
      assert Diff(c, x - 1) <= d;
      RealStep((x - 1 - a) as real, d);
    }
  }

  lemma RealStep(k: real, d: real)
    ensures (k + 1.0) * d == k * d + d
  {
  }

  lemma SlopeBetween(c: nat -> real, n: nat, a: nat, x: nat, b: nat) returns (d: real)
    requires Convex(c, n) && a < x <= b < n
    ensures c(x) - c(a) <= (x - a) as real * d && c(b) - c(x) >= (b - x) as real * d
  {
    d := Diff(c, x - 1);
    RisesBefore(c, n, a, x, d);
    RisesAfter(c, n, x, b, d);
  }

  /** A convex cost lies below its chords. */
  lemma BelowChord(c: nat -> real, n: nat, a: nat, x: nat, b: nat)
    requires Convex(c, n) && a < x <= b < n
    ensures (c(x) - c(a)) * (b - a) as real <= (c(b) - c(a)) * (x - a) as real
  {
    hide Convex;
    var d := SlopeBetween(c, n, a, x, b);
    Weigh((x - a) as real, (b - x) as real, c(x) - c(a), c(b) - c(x), d);
    assert (b - a) as real == (x - a) as real + (b - x) as real;
    assert c(b) - c(a) == (c(x) - c(a)) + (c(b) - c(x));
  }

  lemma Weigh(u: real, v: real, p: real, q: real, d: real)
    requires u >= 0.0 && v >= 0.0 && p <= u * d && q >= v * d
    ensures p * (u + v) <= (p + q) * u
  {
    assert p * v <= u * d * v;
    assert q * u >= v * d * u;
  }

  /** Interpolation between two points, without the division. */
  lemma BetweenTimes(a: Point, b: Point, x: nat)
    requires a.x < x <= b.x
    ensures (Between(a, b, x) - a.y) * (b.x - a.x) as real == (b.y - a.y) * (x - a.x) as real
  {
  }

  lemma DivideOut(p: real, q: real, w: real)
    requires w > 0.0
    ensures p * w <= q * w ==> p <= q
  {
  }

  lemma ConvexBetween(c: nat -> real, n: nat, a: nat, x: nat, b: nat)
    requires Convex(c, n) && a < x <= b < n
    ensures c(x) <= Between(Point(a, c(a)), Point(b, c(b)), x)
  {
    hide Between, Convex;
    BelowChord(c, n, a, x, b);
    BetweenTimes(Point(a, c(a)), Point(b, c(b)), x);
    DivideOut(c(x) - c(a), Between(Point(a, c(a)), Point(b, c(b)), x) - c(a), (b - a) as real);
  }

  lemma BetweenNegated(a: Point, b: Point, x: nat)
    ensures Between(Point(a.x, -a.y), Point(b.x, -b.y), x) == -Between(a, b, x)
  {
    var r := (x - a.x) as real / Max(1, b.x - a.x) as real;
    assert (-b.y + a.y) * r == -((b.y - a.y) * r);
  }

  lemma ConcaveBetween(c: nat -> real, n: nat, a: nat, x: nat, b: nat)
    requires Concave(c, n) && a < x <= b < n
    ensures c(x) >= Between(Point(a, c(a)), Point(b, c(b)), x)
  {
    var m: nat -> real := (i: nat) => -c(i);
    assert Convex(m, n) by {
      forall i: nat, j: nat | i <= j && j + 1 < n
        ensures Diff(m, i) <= Diff(m, j)
      {
        assert Diff(c, i) >= Diff(c, j);
      }
    }
    hide Between, Convex, Concave;
    ConvexBetween(m, n, a, x, b);
    BetweenNegated(Point(a, c(a)), Point(b, c(b)), x);
  }

  /** Between two costs, the interpolation leaves neither bound. */
  lemma BetweenBounds(a: Point, b: Point, x: nat, lo: real, hi: real)
    requires a.x < x <= b.x && lo <= a.y <= hi && lo <= b.y <= hi
    ensures lo <= Between(a, b, x) <= hi
  {
    var r := (x - a.x) as real / Max(1, b.x - a.x) as real;
    RatioBounds(x - a.x, b.x - a.x);
    Mix(r, a.y, b.y - a.y, lo, hi);
  }

  lemma RatioBounds(u: int, w: int)
    requires 0 <= u <= w && 0 < w
    ensures 0.0 <= u as real / Max(1, w) as real <= 1.0
  {
  }

  lemma Mix(r: real, a: real, d: real, lo: real, hi: real)
    requires 0.0 <= r <= 1.0 && lo <= a <= hi && lo <= a + d <= hi
    ensures lo <= a + Portion(d, r) <= hi
  {
    hide Portion;
    if d >= 0.0 {
      PortionOf(d, r);
    } else {
      NegativePortionOf(d, r);
    }
  }

  lemma NegativePortionOf(x: real, r: real)
    requires x <= 0.0 && 0.0 <= r <= 1.0
    ensures x <= Portion(x, r) <= 0.0
  {
  }

  lemma PortionOf(x: real, r: real)
    requires 0.0 <= x && 0.0 <= r <= 1.0
    ensures 0.0 <= Portion(x, r) <= x
  {
  }

  // ---- the estimate ----------------------------------------------------------------------

  function SumTo(c: nat -> real, n: nat): real {
    if n == 0 then 0.0 else SumTo(c, n - 1) + c(n - 1)
  }

  function IndexOf(s: seq<nat>, x: nat): nat
    requires x in s
  {
    if s[0] == x then 0 else 1 + IndexOf(s[1..], x)
  }

  /** What the estimate takes for chunk `i` of `n`. */
  function ChunkCost(s: seq<nat>, c: nat -> real, n: nat, i: nat): real
    requires GoodSamples(s, n) && i < n
  {
    if |s| == n then
      FullIsAll(s, n);
      assert s[i] == i;
      Points(s, c)[i].y
    else Interp(Points(s, c), i)
  }

  function Estimate(s: seq<nat>, c: nat -> real, n: nat, m: nat): real
    requires GoodSamples(s, n) && m <= n
  {
    if m == 0 then 0.0 else Estimate(s, c, n, m - 1) + ChunkCost(s, c, n, m - 1)
  }

  /** Chunk `i` is sampled, or lies inside a segment between two neighbouring samples. */
  lemma ChunkSegment(s: seq<nat>, c: nat -> real, n: nat, i: nat) returns (k: nat)
    requires GoodSamples(s, n) && i < n
    ensures k < |s|
    ensures |s| == n ==> s[k] == i && ChunkCost(s, c, n, i) == c(i)
    ensures (s[k] == i && ChunkCost(s, c, n, i) == c(i)) ||
            (k > 0 && s[k - 1] < i <= s[k] &&
             ChunkCost(s, c, n, i) == Between(Point(s[k - 1], c(s[k - 1])), Point(s[k], c(s[k])), i))
  {
    hide Between;
    var ps := Points(s, c);
    if |s| == n {
      FullIsAll(s, n);
      k := i;
    } else if i <= ps[0].x {
      k := 0;
    } else if i >= ps[|ps| - 1].x {
      k := |s| - 1;
    } else {
      k := SegmentOf(ps, i, 1);
    }
  }

  ghost predicate SamplesWithin(s: seq<nat>, c: nat -> real, lo: real, hi: real) {
    forall k :: 0 <= k < |s| ==> lo <= c(s[k]) <= hi
  }

  /** Chunk by chunk: exact, too much for convex costs, too little for concave ones, never out of bounds. */
  lemma ChunkBounds(s: seq<nat>, c: nat -> real, n: nat, i: nat, lo: real, hi: real)
    requires GoodSamples(s, n) && i < n
    ensures |s| == n ==> ChunkCost(s, c, n, i) == c(i)
    ensures Convex(c, n) ==> ChunkCost(s, c, n, i) >= c(i)
    ensures Concave(c, n) ==> ChunkCost(s, c, n, i) <= c(i)
    ensures SamplesWithin(s, c, lo, hi) ==> lo <= ChunkCost(s, c, n, i) <= hi
  {
    hide Convex, Concave, ChunkCost, Between;
    var k := ChunkSegment(s, c, n, i);
    if !(s[k] == i && ChunkCost(s, c, n, i) == c(i)) {
      var a, b := s[k - 1], s[k];
      if Convex(c, n) {
        ConvexBetween(c, n, a, i, b);
      }
      if Concave(c, n) {
        ConcaveBetween(c, n, a, i, b);
      }
      if SamplesWithin(s, c, lo, hi) {
        BetweenBounds(Point(a, c(a)), Point(b, c(b)), i, lo, hi);
      }
    }
  }

  /**
   * The estimate of the first `m` chunks against their true cost. It is exact when every
   * chunk was sampled; otherwise the shape of the cost decides.
   */
  lemma {:induction false} EstimateBounds(s: seq<nat>, c: nat -> real, n: nat, m: nat, lo: real, hi: real)
    requires GoodSamples(s, n) && m <= n
    ensures |s| == n ==> Estimate(s, c, n, m) == SumTo(c, m)
    ensures Convex(c, n) ==> Estimate(s, c, n, m) >= SumTo(c, m)
    ensures Concave(c, n) ==> Estimate(s, c, n, m) <= SumTo(c, m)
    ensures SamplesWithin(s, c, lo, hi) ==>
              Multiple(m, lo) <= Estimate(s, c, n, m) <= Multiple(m, hi)
  {
    hide ChunkCost, Convex, Concave, GoodSamples, SamplesWithin, Multiple;
    MultipleStep(if m == 0 then 0 else m - 1, lo);
    MultipleStep(if m == 0 then 0 else m - 1, hi);
    if m == 0 {
    } else {
      EstimateBounds(s, c, n, m - 1, lo, hi);
      ChunkBounds(s, c, n, m - 1, lo, hi);
    }
  }

  /** `m` chunks at cost `x`. */
  function Multiple(m: nat, x: real): real { m as real * x }

  lemma MultipleStep(m: nat, x: real)
    ensures Multiple(m + 1, x) == Multiple(m, x) + x && Multiple(0, x) == 0.0
  {
    assert (m + 1) as real == m as real + 1.0;
  }

  lemma LineStep(c: nat -> real, n: nat, base: real, slope: real, i: nat)
    requires IsLine(c, n, base, slope) && i + 1 < n
    ensures Diff(c, i) == slope
  {
    RealStep(i as real, slope);
  }

  lemma LinesAreBoth(c: nat -> real, n: nat)
    requires Affine(c, n)
    ensures Convex(c, n) && Concave(c, n)
  {
    hide IsLine, Diff;
    var base, slope :| IsLine(c, n, base, slope);
    forall i: nat, j: nat | i <= j && j + 1 < n
      ensures Diff(c, i) == Diff(c, j)
    {
      LineStep(c, n, base, slope, i);
      LineStep(c, n, base, slope, j);
    }
  }

  /** For costs that grow evenly from chunk to chunk, the estimate is the true total. */
  lemma AffineIsExact(n: nat, count: nat, c: nat -> real)
    requires Affine(c, n)
    ensures GoodSamples(Samples(n, count), n) && Estimate(Samples(n, count), c, n, n) == SumTo(c, n)
  {
    hide Affine, Convex, Concave, Samples;
    SamplesAreGood(n, count);
    LinesAreBoth(c, n);
    EstimateBounds(Samples(n, count), c, n, n, 0.0, 0.0);
  }

  // ---- the simulation as it runs ---------------------------------------------------------

  /** One score layer: `n` tokens, the configured chunk size and number of samples. */
  datatype Layer = Layer(n: nat, chunkSize: nat, sampleCount: nat) {
    function Chunk(): nat { Max(1, Min(chunkSize, n)) }
    function Chunks(): nat { (n + Chunk() - 1) / Chunk() }
    function Tokens(i: nat): int { Min(Chunk(), n - i * Chunk()) }
    function Accumulated(i: nat): int { Min(n, (i + 1) * Chunk()) }
  }

  /** Time and energy of one query over a number of accumulated tokens; component 0 is the time. */
  type Device = (int, nat) -> real

  function Cost(l: Layer, dev: Device, comp: nat): nat -> real {
    (i: nat) => dev(l.Accumulated(i), comp) * l.Tokens(i) as real
  }

  lemma CostAt(l: Layer, dev: Device, comp: nat, i: nat)
    ensures Cost(l, dev, comp)(i) == dev(l.Accumulated(i), comp) * l.Tokens(i) as real
  {
  }

  const COMPONENTS: nat := 7

  /** Time and energies of the whole prefill: each the estimate of its own chunk costs. */
  method SimulatePrefillScore(l: Layer, dev: Device) returns (totals: seq<real>, samples: nat)
    ensures |totals| == COMPONENTS
    ensures forall comp :: 0 <= comp < COMPONENTS ==>
              var s := Samples(l.Chunks(), l.sampleCount);
              GoodSamples(s, l.Chunks()) && samples == |s| &&
              totals[comp] == Estimate(s, Cost(l, dev, comp), l.Chunks(), l.Chunks())
  {
    hide Samples, GoodSamples, ChunkCost, Layer.Chunks;
    var n := l.Chunks();
    var s := SampleIndices(n, l.sampleCount);
    SamplesAreGood(n, l.sampleCount);
    samples := |s|;
    totals := [];
    for comp := 0 to COMPONENTS
      invariant |totals| == comp
      invariant forall k :: 0 <= k < comp ==> totals[k] == Estimate(s, Cost(l, dev, k), n, n)
    {
      var sum := SimulateComponent(l, dev, comp, s);
      totals := totals + [sum];
    }
  }

  method SimulateComponent(l: Layer, dev: Device, comp: nat, s: seq<nat>) returns (sum: real)
    requires GoodSamples(s, l.Chunks())
    ensures sum == Estimate(s, Cost(l, dev, comp), l.Chunks(), l.Chunks())
  {
    hide Layer.Chunks, Layer.Tokens, Layer.Accumulated, Interp;
    var n, c := l.Chunks(), Cost(l, dev, comp);
    var sampled: seq<Point> := [];
    for k := 0 to |s|
      invariant |sampled| == k && forall j :: 0 <= j < k ==> sampled[j] == Point(s[j], c(s[j]))
    {
      var tokens, accumulated := l.Tokens(s[k]), l.Accumulated(s[k]);
      CostAt(l, dev, comp, s[k]);
      sampled := sampled + [Point(s[k], dev(accumulated, comp) * tokens as real)];
    }
    assert sampled == Points(s, c);
    sum := 0.0;
    for i := 0 to n
      invariant sum == Estimate(s, c, n, i)
    {
      if |s| == n {
        FullIsAll(s, n);
        IndexInOrder(s, n, i);
        sum := sum + sampled[IndexOf(s, i)].y;
      } else {
        var y := InterpScalar(sampled, i);
        sum := sum + y;
      }
    }
  }

  lemma {:induction false} IndexInOrder(s: seq<nat>, n: nat, i: nat)
    requires s == AllBelow(n) && i < n
    ensures i in s && IndexOf(s, i) == i
  {
    assert s[i] == i;
    IndexFrom(s, 0, i);
    assert s[0..] == s;
  }

  lemma {:induction false} IndexFrom(s: seq<nat>, k: nat, i: nat)
    requires k <= i < |s| && forall j :: 0 <= j < |s| ==> s[j] == j
    ensures s[i] in s[k..] && IndexOf(s[k..], i) == i - k
    decreases i - k
  {
    assert s[k..][i - k] == s[i];
    if k >= i {
    } else {
      assert s[k..][1..] == s[k + 1..];
      IndexFrom(s, k + 1, i);
    }
  }

  /** All chunks together hold all tokens. */
  lemma {:induction false} TokensUpTo(l: Layer, m: nat)
    requires m <= l.Chunks()
    ensures TokenSum(l, m) == Min(l.n, m * l.Chunk())
  {
    if m == 0 {
    } else {
      TokensUpTo(l, m - 1);
      var c := l.Chunk();
      MulStep(m - 1, c);
      DivMod(l.n + c - 1, c);
      MulLe(c, m, l.Chunks());
      assert (m - 1) * c < l.n;
    }
  }

  /** Chunks have the configured size, as far as that makes sense, and there are just enough of them. */
  lemma ChunksCover(l: Layer, i: nat)
    ensures JustCovers(l.Chunks(), l.Chunk(), l.n)
    ensures l.Chunk() == if l.chunkSize == 0 || l.n == 0 then 1 else if l.chunkSize <= l.n then l.chunkSize else l.n
    ensures i < l.Chunks() ==> 0 < l.Tokens(i) <= l.Chunk()
    ensures i + 1 < l.Chunks() ==> l.Tokens(i) == l.Chunk()
  {
    CeilCovers(l.n, l.Chunk());
    if i < l.Chunks() {
      TokensOfChunk(l.n, l.Chunk(), l.Chunks(), i);
    }
  }

  lemma TokensOfChunk(n: nat, c: nat, chunks: nat, i: nat)
    requires c > 0 && JustCovers(chunks, c, n) && i < chunks
    ensures 0 < Min(c, n - i * c) <= c && (i + 1 < chunks ==> Min(c, n - i * c) == c)
  {
    MulStep(i, c);
    MulMonotone(i, chunks - 1, c);
    if i + 1 < chunks {
      MulMonotone(i + 1, chunks - 1, c);
    }
  }

  /** A chunk sees the tokens up to its own end. */
  lemma AccumulatedIsSum(l: Layer, i: nat)
    requires i < l.Chunks()
    ensures l.Accumulated(i) == TokenSum(l, i + 1)
  {
    hide Layer.Chunks, Layer.Chunk;
    TokensUpTo(l, i + 1);
  }

  ghost function TokenSum(l: Layer, m: nat): int {
    if m == 0 then 0 else TokenSum(l, m - 1) + l.Tokens(m - 1)
  }
}
