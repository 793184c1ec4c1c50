/** Learned quality: the Wilson upper bound over a sliding window of host ratings, the
    demotion verdict it backs, the score that displaces a curated weight, and the failure
    streak. The square root is a parameter constrained by its square, so every statement is
    over the reals and about every `z` at or above zero. */
module Optimizer {
  import opened Common

  datatype Rating = Rating(id: string, score: real)

  /** A bucket: one model, one operation. */
  datatype Bucket = Bucket(llmName: string, operation: Option<string>)

  function Sum(w: seq<Rating>): real {
    if w == [] then 0.0 else Sum(w[..|w| - 1]) + w[|w| - 1].score
  }

  /** Scores are what a host may give: a number from zero to one. */
  predicate Scored(w: seq<Rating>) { forall i :: 0 <= i < |w| ==> 0.0 <= w[i].score <= 1.0 }

  function Mean(w: seq<Rating>): real
    requires w != []
  {
    Sum(w) / |w| as real
  }

  // ---------------------------------------------------------------------
  // The Wilson bound
  // ---------------------------------------------------------------------

  /** What stands under the square root, for `n` ratings of mean `p`. */
  function Radicand(n: real, p: real, z: real): real
    requires n > 0.0
  {
    p * (1.0 - p) / n + z * z / (4.0 * n * n)
  }

  ghost predicate IsRoot(root: real, x: real) { root >= 0.0 && root * root == x }

  function Upper(n: real, p: real, z: real, root: real): real
    requires n > 0.0
  {
    var z2 := z * z;
    SquareOver(z, n);
    (p + z2 / (2.0 * n) + z * root) / (1.0 + z2 / n)
  }

  function WilsonUpper(w: seq<Rating>, z: real, root: real): real
    requires w != []
  {
    Upper(|w| as real, Mean(w), z, root)
  }

  ghost predicate RootFor(root: real, w: seq<Rating>, z: real)
    requires w != []
  {
    IsRoot(root, Radicand(|w| as real, Mean(w), z))
  }

  datatype Knobs = Knobs(floor: real, window: nat, minCount: nat, priorStrength: real)

  /** `is_demoted` on one window; an empty window with a minimum of zero divides by zero there. */
  function Demoted(w: seq<Rating>, k: Knobs, z: real, root: real): bool
    requires w != [] || k.minCount > 0
  {
    |w| >= k.minCount && WilsonUpper(w, z, root) < k.floor
  }

  lemma {:induction false} SumBounds(w: seq<Rating>)
    requires Scored(w)
    ensures 0.0 <= Sum(w) <= |w| as real
  {
    if w != [] {
      SumBounds(w[..|w| - 1]);
    }
  }

  lemma MeanBounds(w: seq<Rating>)
    requires w != [] && Scored(w)
    ensures 0.0 <= Mean(w) <= 1.0
  {
    SumBounds(w);
    Divide(Sum(w), |w| as real, 0.0);
    Divide(Sum(w), |w| as real, 1.0);
  }

  lemma Product(a: real, b: real)
    requires a > 0.0 && b > 0.0
    ensures a * b > 0.0
  {}

  lemma Product0(a: real, b: real)
    requires a >= 0.0 && b >= 0.0
    ensures a * b >= 0.0
  {}

  lemma SquareOver(z: real, n: real)
    requires n > 0.0
    ensures z * z / n >= 0.0
  {
    if z >= 0.0 { Product0(z, z); } else { Product0(-z, -z); }
    Divide(z * z, n, 0.0);
  }

  lemma MarginSquared(n: real, p: real, z: real, root: real, u: real)
    requires n > 0.0 && IsRoot(root, Radicand(n, p, z)) && z * z == u * n
    ensures (z * root) * (z * root) == u * (p * (1.0 - p)) + u * u / 4.0
  {
    RootTimes(z, root, Radicand(n, p, z));
    Expand(p * (1.0 - p), n, z * z, u);
  }

  lemma HalfOver(z2: real, n: real, u: real)
    requires n > 0.0 && z2 == u * n
    ensures z2 / (2.0 * n) == u / 2.0 && z2 / n == u
  {
    var (a, b) := (z2 / (2.0 * n), z2 / n);
    assert a * (2.0 * n) == z2 && b * n == z2;
    assert (a * 2.0) * n == u * n;
    Cancel(a * 2.0, u, n);
    Cancel(b, u, n);
  }

  /** The bound with the count divided out: `u` is z squared over n, `m` is z times the root. */
  lemma InUnits(n: real, p: real, z: real, root: real, u: real, m: real)
    requires n > 0.0 && z >= 0.0 && IsRoot(root, Radicand(n, p, z))
    requires u == z * z / n && m == z * root
    ensures u >= 0.0 && m >= 0.0 && z * z == u * n
    ensures m * m == u * (p * (1.0 - p)) + u * u / 4.0
    ensures Upper(n, p, z, root) == (p + u / 2.0 + m) / (1.0 + u)
  {
    hide Radicand;
    SquareOver(z, n);
    Product0(z, root);
    assert z * z == u * n;
    MarginSquared(n, p, z, root, u);
    HalfOver(z * z, n, u);
  }

  lemma RootTimes(z: real, root: real, x: real)
    requires root * root == x
    ensures (z * root) * (z * root) == (z * z) * x
  {
    assert (z * root) * (z * root) == (z * z) * (root * root);
  }

  lemma Expand(v: real, n: real, z2: real, u: real)
    requires n > 0.0 && z2 == u * n
    ensures z2 * (v / n + z2 / (4.0 * n * n)) == u * v + u * u / 4.0
  {
    var a := v / n;
    assert a * n == v;
    assert z2 * a == u * v by {
      assert z2 * a == u * (n * a);
    }
    var b := z2 / (4.0 * n * n);
    assert b * (4.0 * n * n) == z2;
    assert b * (4.0 * n) == u by {
      Cancel(b * (4.0 * n), u, n);
    }
    assert z2 * b == u * u / 4.0 by {
      assert z2 * b == u * (n * b);
      assert n * b == u / 4.0;
    }
    assert z2 * (a + b) == z2 * a + z2 * b;
  }

  lemma Cancel(a: real, b: real, n: real)
    requires n > 0.0 && a * n == b * n
    ensures a == b
  {
    assert (a - b) * n == 0.0;
    if a > b {
      Product(a - b, n);
    } else if a < b {
      Product(b - a, n);
    }
  }

  lemma Divide(x: real, d: real, y: real)
    requires d > 0.0
    ensures x / d < y <==> x < y * d
    ensures x / d <= y <==> x <= y * d
  {
    var q := x / d;
    assert q * d == x;
    assert (y - q) * d == y * d - x;
    if y > q {
      Product(y - q, d);
    } else if y < q {
      Product(q - y, d);
    }
  }

  lemma SquareLess(m: real, d: real)
    requires m >= 0.0 && d >= 0.0
    ensures m < d <==> m * m < d * d
    ensures m <= d <==> m * m <= d * d
  {
    assert d * d - m * m == (d - m) * (d + m);
    if d > m {
      Product(d - m, d + m);
    } else if m > d {
      Product(m - d, d + m);
    }
  }

  /** The distance from bound to floor, squared both ways, factors. */
  lemma Factor(p: real, f: real, u: real)
    ensures var d := (f - p) + u * (f - 0.5);
      d * d - (u * (p * (1.0 - p)) + u * u / 4.0) == (1.0 + u) * ((f - p) * (f - p) - u * (f * (1.0 - f)))
  {
    var (a, b) := (f - p, f - 0.5);
    assert (a + u * b) * (a + u * b) == a * a + 2.0 * (u * (a * b)) + (u * u) * (b * b);
    assert b * b == f * f - f + 0.25;
    assert 2.0 * (a * b) - p * (1.0 - p) == a * a - f * (1.0 - f);
    assert u * (2.0 * (a * b)) - u * (p * (1.0 - p)) == u * (a * a - f * (1.0 - f)) by {
      assert u * (2.0 * (a * b)) - u * (p * (1.0 - p)) == u * (2.0 * (a * b) - p * (1.0 - p));
    }
    assert (u * u) * (b * b) - u * u / 4.0 == (u * u) * (f * f - f) by {
      assert (u * u) * (b * b) == (u * u) * (f * f - f) + (u * u) * 0.25;
    }
    assert (1.0 + u) * (a * a - u * (f * (1.0 - f)))
        == a * a - u * (f * (1.0 - f)) + u * (a * a) - (u * u) * (f * (1.0 - f));
    assert u * (a * a - f * (1.0 - f)) == u * (a * a) - u * (f * (1.0 - f));
    assert (u * u) * (f * f - f) == -((u * u) * (f * (1.0 - f)));
  }

  /** Which side of the floor the bound's centre lies on, once the distances compare. */
  lemma Side(p: real, f: real, u: real)
    requires 0.0 <= p <= 1.0 && u >= 0.0
    requires (f - p) * (f - p) > u * (f * (1.0 - f))
    ensures (f - p) + u * (f - 0.5) > 0.0 <==> p < f
  {
    var (a, b) := (f - p, f - 0.5);
    if a > 0.0 && a + u * b <= 0.0 {
      Product0(u, if b >= 0.0 then b else 0.0);
      var c := f * (1.0 - f) - a * -b;
      Product0(p, -b);
      assert c == f * 0.5 + p * -b by {
        assert a * -b == f * -b - p * -b;
        assert f * (1.0 - f) - f * -b == f * 0.5;
      }
      assert u * c == u * (f * (1.0 - f)) - u * (a * -b);
      assert a * (u * -b - a) == u * (a * -b) - a * a;
      Product0(u, c);
      Product0(a, u * -b - a);
      assert false;
    } else if a <= 0.0 && a + u * b > 0.0 {
      Product0(u, if b <= 0.0 then -b else 0.0);
      var c := f * (1.0 - f) - -a * b;
      Product0(1.0 - p, b);
      assert c == (1.0 - f) * 0.5 + (1.0 - p) * b by {
        assert -a * b == (1.0 - f) * b - (1.0 - p) * b;
        assert f * (1.0 - f) - (1.0 - f) * b == (1.0 - f) * 0.5;
      }
      assert u * c == u * (f * (1.0 - f)) - u * (-a * b);
      assert -a * (u * b + a) == u * (-a * b) - a * a;
      Product0(u, c);
      Product0(-a, u * b + a);
      assert false;
    }
  }

  lemma ScaledSquare(d: real, m: real, u: real, gap: real)
    requires m >= 0.0 && u >= 0.0 && d * d - m * m == (1.0 + u) * gap
    ensures m < d <==> gap > 0.0 && d > 0.0
  {
    Sign(1.0 + u, gap);
    if d >= 0.0 {
      SquareLess(m, d);
    }
  }

  lemma UpperIsBelow(n: real, p: real, u: real, m: real, f: real)
    requires n > 0.0 && u >= 0.0
    ensures (p + u / 2.0 + m) / (1.0 + u) < f <==> m < (f - p) + u * (f - 0.5)
  {
    Divide(p + u / 2.0 + m, 1.0 + u, f);
    assert f * (1.0 + u) == f + u * f && u * (f - 0.5) == u * f - u / 2.0;
  }

  /** The same gap, scaled back by the count. */
  lemma Scaled(n: real, z2: real, u: real, q: real, v: real)
    requires n > 0.0 && z2 == u * n
    ensures q - u * v > 0.0 <==> n * q > z2 * v
  {
    assert n * (q - u * v) == n * q - z2 * v by {
      assert n * (u * v) == (u * n) * v;
    }
    Sign(n, q - u * v);
  }

  lemma UpperBelowFloor(n: real, p: real, z: real, root: real, f: real)
    requires n > 0.0 && 0.0 <= p <= 1.0 && z >= 0.0 && IsRoot(root, Radicand(n, p, z))
    ensures Upper(n, p, z, root) < f <==> p < f && n * ((f - p) * (f - p)) > z * z * (f * (1.0 - f))
  {
    hide Upper, Radicand;
    var (u, m) := (z * z / n, z * root);
    InUnits(n, p, z, root, u, m);
    UpperIsBelow(n, p, u, m, f);
    Factor(p, f, u);
    ScaledSquare((f - p) + u * (f - 0.5), m, u, (f - p) * (f - p) - u * (f * (1.0 - f)));
    Scaled(n, z * z, u, (f - p) * (f - p), f * (1.0 - f));
    if (f - p) * (f - p) > u * (f * (1.0 - f)) {
      Side(p, f, u);
    }
  }

  lemma Sign(n: real, gap: real)
    requires n > 0.0
    ensures n * gap > 0.0 <==> gap > 0.0
  {
    if gap > 0.0 {
      Product(n, gap);
    } else {
      Product0(n, -gap);
    }
  }

  /** The verdict without its root: a window demotes exactly when it is full enough and its
      mean falls short of the floor by more than its size can excuse. */
  lemma DemotionIs(w: seq<Rating>, k: Knobs, z: real, root: real)
    requires w != [] && Scored(w) && z >= 0.0 && RootFor(root, w, z)
    ensures var (n, p, f) := (|w| as real, Mean(w), k.floor);
      Demoted(w, k, z, root) <==>
        |w| >= k.minCount && p < f && n * ((f - p) * (f - p)) > z * z * (f * (1.0 - f))
  {
    hide Upper, Radicand, Mean, IsRoot;
    MeanBounds(w);
    UpperBelowFloor(|w| as real, Mean(w), z, root, k.floor);
  }

  /** At least `u * (p - 1/2)`: the bound does not fall under the mean. */
  lemma MarginFromBelow(p: real, u: real, m: real)
    requires 0.0 <= p <= 1.0 && u >= 0.0 && m >= 0.0 && m * m == u * (p * (1.0 - p)) + u * u / 4.0
    ensures u * (p - 0.5) <= m
  {
    var (v, below) := (p * (1.0 - p), u * (p - 0.5));
    Product0(p, 1.0 - p);
    Product0(u, v);
    Product0(u, u);
    Product0(u * u, v);
    assert below * below == u * u / 4.0 - (u * u) * v by {
      assert below * below == (u * u) * ((p - 0.5) * (p - 0.5));
      assert (p - 0.5) * (p - 0.5) == 0.25 - v;
      assert (u * u) * (0.25 - v) == u * u / 4.0 - (u * u) * v;
    }
    if below >= 0.0 {
      SquareLess(below, m);
    }
  }

  /** At most `1 - p + u / 2`: the bound does not exceed one. */
  lemma MarginFromAbove(p: real, u: real, m: real)
    requires 0.0 <= p <= 1.0 && u >= 0.0 && m >= 0.0 && m * m == u * (p * (1.0 - p)) + u * u / 4.0
    ensures m <= 1.0 - p + u / 2.0
  {
    var (r, above) := (1.0 - p, 1.0 - p + u / 2.0);
    Product0(r, r);
    Product0(u, r * r);
    assert above * above == r * r + u * r + u * u / 4.0;
    assert u * r - u * (p * r) == u * (r * r) by {
      assert r - p * r == r * r;
    }
    SquareLess(m, above);
  }

  lemma UpperWithin(n: real, p: real, z: real, root: real)
    requires n > 0.0 && 0.0 <= p <= 1.0 && z >= 0.0 && IsRoot(root, Radicand(n, p, z))
    ensures p <= Upper(n, p, z, root) <= 1.0
  {
    hide Upper, Radicand;
    var (u, m) := (z * z / n, z * root);
    InUnits(n, p, z, root, u, m);
    MarginFromBelow(p, u, m);
    MarginFromAbove(p, u, m);
    Divide(p + u / 2.0 + m, 1.0 + u, p);
    Divide(p + u / 2.0 + m, 1.0 + u, 1.0);
    assert p * (1.0 + u) == p + u * p && u * (p - 0.5) == u * p - u / 2.0;
  }

  /** The bound is optimistic, and never more than certain. */
  lemma BoundIsOptimistic(w: seq<Rating>, z: real, root: real)
    requires w != [] && Scored(w) && z >= 0.0 && RootFor(root, w, z)
    ensures Mean(w) <= WilsonUpper(w, z, root) <= 1.0
  {
    hide Upper, Radicand, Mean, IsRoot;
    MeanBounds(w);
    UpperWithin(|w| as real, Mean(w), z, root);
  }

  lemma {:induction false} SumGrows(a: seq<Rating>, b: seq<Rating>)
    requires |a| == |b| && forall i :: 0 <= i < |a| ==> a[i].score <= b[i].score
    ensures Sum(a) <= Sum(b)
  {
    if a != [] {
      SumGrows(a[..|a| - 1], b[..|b| - 1]);
    }
  }

  lemma MeanGrows(a: seq<Rating>, b: seq<Rating>)
    requires a != [] && |a| == |b| && forall i :: 0 <= i < |a| ==> a[i].score <= b[i].score
    ensures Mean(a) <= Mean(b)
  {
    SumGrows(a, b);
    Divide(Sum(a), |a| as real, Mean(b));
    assert Mean(b) * |b| as real == Sum(b);
  }

  lemma WiderGap(n: real, p: real, q: real, f: real)
    requires n > 0.0 && p <= q < f
    ensures n * ((f - p) * (f - p)) >= n * ((f - q) * (f - q))
  {
    var (x, y) := (f - p, f - q);
    SquareLess(y, x);
    Product0(n, x * x - y * y);
    assert n * (x * x - y * y) == n * (x * x) - n * (y * y);
  }

  /** Better scores never demote. */
  lemma RaisingNeverDemotes(a: seq<Rating>, b: seq<Rating>, k: Knobs, z: real, rootA: real, rootB: real)
    requires a != [] && |a| == |b| && Scored(a) && Scored(b) && z >= 0.0
    requires forall i :: 0 <= i < |a| ==> a[i].score <= b[i].score
    requires RootFor(rootA, a, z) && RootFor(rootB, b, z)
    ensures Demoted(b, k, z, rootB) ==> Demoted(a, k, z, rootA)
  {
    hide Demoted, Mean, RootFor;
    DemotionIs(a, k, z, rootA);
    DemotionIs(b, k, z, rootB);
    MeanGrows(a, b);
    if Demoted(b, k, z, rootB) {
      WiderGap(|a| as real, Mean(a), Mean(b), k.floor);
    }
  }

  // ---------------------------------------------------------------------
  // The score that orders the pool
  // ---------------------------------------------------------------------

  /** What the curated weight still counts for, in ratings. */
  function Strength(count: nat, k: Knobs): real
    requires k.window > 0
  {
    k.priorStrength * Max(0.0, 1.0 - count as real / k.window as real)
  }

  function QualityScore(w: seq<Rating>, k: Knobs, weight: real): real
    requires w != [] ==> k.window > 0 && k.priorStrength >= 0.0
  {
    if w == [] then weight
    else
      var (n, s) := (|w| as real, Strength(|w|, k));
      if s == 0.0 then Mean(w) else (n * Mean(w) + s * weight) / (n + s)
  }

  lemma StrengthFades(count: nat, k: Knobs)
    requires k.window > 0 && k.priorStrength >= 0.0
    ensures Strength(count, k) >= 0.0
    ensures count >= k.window ==> Strength(count, k) == 0.0
    ensures count < k.window && k.priorStrength > 0.0 ==> Strength(count, k) > 0.0
  {
    var (c, n) := (count as real, k.window as real);
    Divide(c, n, 1.0);
    var share := Max(0.0, 1.0 - c / n);
    Product0(k.priorStrength, share);
    if count < k.window && k.priorStrength > 0.0 {
      Product(k.priorStrength, share);
    }
  }

  /** The weight alone with nothing rated, the ratings alone once the window is full, and in
      between the balance point of the two: each pulls by its own count. */
  lemma WeightIsDisplaced(w: seq<Rating>, k: Knobs, weight: real)
    requires k.window > 0 && k.priorStrength >= 0.0
    ensures w == [] ==> QualityScore(w, k, weight) == weight
    ensures |w| >= k.window ==> QualityScore(w, k, weight) == Mean(w)
    ensures w != [] ==>
              |w| as real * (QualityScore(w, k, weight) - Mean(w)) == Strength(|w|, k) * (weight - QualityScore(w, k, weight))
    ensures w != [] ==> Within(QualityScore(w, k, weight), Mean(w), weight)
  {
    if w != [] {
      StrengthFades(|w|, k);
      var (n, s, mean, q) := (|w| as real, Strength(|w|, k), Mean(w), QualityScore(w, k, weight));
      if s != 0.0 {
        assert q * (n + s) == n * mean + s * weight;
        assert n * (q - mean) == s * (weight - q);
        if q > mean { Product(n, q - mean); SameSign(s, weight - q); }
        if q < mean { Product(n, mean - q); assert s * (q - weight) == n * (mean - q); SameSign(s, q - weight); }
        if q == mean { assert n * (q - mean) == 0.0; ZeroProduct(s, weight - q); }
      }
    }
  }

  predicate Within(x: real, a: real, b: real) { (a <= x <= b) || (b <= x <= a) }

  lemma SameSign(s: real, x: real)
    requires s > 0.0 && s * x > 0.0
    ensures x > 0.0
  {
    if x <= 0.0 { Product0(s, -x); }
  }

  lemma ZeroProduct(s: real, x: real)
    requires s > 0.0 && s * x == 0.0
    ensures x == 0.0
  {
    if x > 0.0 { Product(s, x); } else if x < 0.0 { Product(s, -x); }
  }

  // ---------------------------------------------------------------------
  // The window
  // ---------------------------------------------------------------------

  /** The newest `count` entries: what a deque of that length keeps. */
  function LastOf<T>(s: seq<T>, count: nat): seq<T> { if |s| <= count then s else s[|s| - count..] }

  /** Where a call sits in the window, or its length where it does not. */
  function IndexOf(w: seq<Rating>, id: string): (i: nat)
    ensures i <= |w|
    ensures i < |w| ==> w[i].id == id
    ensures forall j :: 0 <= j < i ==> w[j].id != id
  {
    if w == [] then 0 else if w[0].id == id then 0 else 1 + IndexOf(w[1..], id)
  }

  /** One rating folded in: a call already there keeps its place, a new one evicts the oldest. */
  function Recorded(w: seq<Rating>, window: nat, r: Rating): seq<Rating> {
    var i := IndexOf(w, r.id);
    if i < |w| then w[i := r] else LastOf(w + [r], window)
  }

  function WindowAt(scores: map<Bucket, seq<Rating>>, key: Bucket): seq<Rating> {
    if key in scores then scores[key] else []
  }

  /** One observation a call, and never more than the window holds. */
  ghost predicate Simple(w: seq<Rating>, window: nat) {
    |w| <= window && forall i, j :: 0 <= i < j < |w| ==> w[i].id != w[j].id
  }

  lemma RecordedStaysSimple(w: seq<Rating>, window: nat, r: Rating)
    requires Simple(w, window)
    ensures Simple(Recorded(w, window, r), window)
    ensures window > 0 ==> r in Recorded(w, window, r)
  {
    var i := IndexOf(w, r.id);
    if i < |w| {
      assert Recorded(w, window, r)[i] == r;
    } else {
      var longer := w + [r];
      assert forall a, b :: 0 <= a < b < |longer| ==> longer[a].id != longer[b].id;
      if window > 0 {
        assert Recorded(w, window, r)[|Recorded(w, window, r)| - 1] == r;
      }
    }
  }

  class QualityOptimizer {
    const knobs: Knobs
    var rlFailCount: map<string, nat>
    var scores: map<Bucket, seq<Rating>>

    ghost predicate Valid() reads this { forall key :: key in scores ==> Simple(scores[key], knobs.window) }

    constructor (knobs: Knobs)
      ensures this.knobs == knobs && rlFailCount == map[] && scores == map[] && Valid()
    {
      this.knobs, rlFailCount, scores := knobs, map[], map[];
    }

    function RlFailCount(llmName: string): nat reads this {
      if llmName in rlFailCount then rlFailCount[llmName] else 0
    }

    method OnRateLimited(llmName: string)
      modifies this`rlFailCount
      ensures rlFailCount == old(rlFailCount)[llmName := old(RlFailCount(llmName)) + 1]
    {
      rlFailCount := rlFailCount[llmName := RlFailCount(llmName) + 1];
    }

    method OnSuccess(llmName: string)
      modifies this`rlFailCount
      ensures rlFailCount == old(rlFailCount)[llmName := 0]
    {
      rlFailCount := rlFailCount[llmName := 0];
    }

    method RecordQuality(key: Bucket, id: string, score: real)
      requires Valid()
      modifies this`scores
      ensures Valid()
      ensures scores == old(scores)[key := Recorded(WindowAt(old(scores), key), knobs.window, Rating(id, score))]
    {
      var w := WindowAt(scores, key);
      RecordedStaysSimple(w, knobs.window, Rating(id, score));
      for i := 0 to |w|
        invariant forall j :: 0 <= j < i ==> w[j].id != id
        invariant scores == old(scores)
      {
        if w[i].id == id {
          assert IndexOf(w, id) == i;
          scores := scores[key := w[i := Rating(id, score)]];
          return;
        }
      }
      scores := scores[key := LastOf(w + [Rating(id, score)], knobs.window)];
    }

    /** Every window is replaced; a bucket the journal no longer rates is gone. */
    method LoadScores(values: map<Bucket, seq<Rating>>)
      requires forall key :: key in values ==> Simple(values[key], |values[key]|)
      modifies this`scores
      ensures Valid()
      ensures scores == map key | key in values :: LastOf(values[key], knobs.window)
    {
      scores := map key | key in values :: LastOf(values[key], knobs.window);
    }
  }
}
