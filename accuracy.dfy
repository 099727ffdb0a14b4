/**
  Accuracy assessment of a binary water classification against a reference:
  the paired samples read off the stacked reference and prediction layers, the
  2 x 2 error matrix (rows = reference, columns = prediction) and the metrics
  derived from it: overall accuracy, Cohen's Kappa (Congalton, 1991), and
  precision, recall, F1 and intersection-over-union for the water class.

  A metric whose denominator is zero is `None` ("could not compute"), never 0.
 */
module Accuracy {
  import opened Raster

  /** One sampled point: its reference class and its predicted class. */
  datatype Sample = Sample(ref: int, pred: int)

  predicate Binary(s: seq<Sample>)
  {
    forall k | 0 <= k < |s| :: s[k].ref in {0, 1} && s[k].pred in {0, 1}
  }

  /** The error matrix [[tn, fp], [fn, tp]]: rows are the reference class, columns the prediction. */
  datatype ErrorMatrix = ErrorMatrix(tn: nat, fp: nat, fn: nat, tp: nat)

  function Total(m: ErrorMatrix): nat
  {
    m.tn + m.fp + m.fn + m.tp
  }

  /** Number of samples whose reference class is c. */
  function RefCount(s: seq<Sample>, c: int): nat
  {
    if s == [] then 0
    else RefCount(s[..|s| - 1], c) + (if s[|s| - 1].ref == c then 1 else 0)
  }

  /**
    `errorMatrix('ref', 'pred')` over 0/1 samples. Over 0/1 samples the cells
    account for every sample, and each row holds the samples of its reference
    class; `CellsCountPairs` shows each cell counts the samples with its pair.
   */
  function Tabulate(s: seq<Sample>): (m: ErrorMatrix)
    requires Binary(s)
    ensures Total(m) == |s|
    ensures m.tn + m.fp == RefCount(s, 0) && m.fn + m.tp == RefCount(s, 1)
  {
    TabulateTotals(s);
    Counts(s)
  }

  /** The samples tallied one by one, from the first to the last. */
  function Counts(s: seq<Sample>): ErrorMatrix
  {
    if s == [] then ErrorMatrix(0, 0, 0, 0) else Tally(Counts(s[..|s| - 1]), s[|s| - 1])
  }

  /** Adds one 0/1 sample to the cell of its (reference, prediction) pair. */
  function Tally(m: ErrorMatrix, x: Sample): ErrorMatrix
  {
    if x.ref == 0 && x.pred == 0 then m.(tn := m.tn + 1)
    else if x.ref == 0 then m.(fp := m.fp + 1)
    else if x.pred == 0 then m.(fn := m.fn + 1)
    else m.(tp := m.tp + 1)
  }

  lemma {:induction false} TabulateTotals(s: seq<Sample>)
    requires Binary(s)
    ensures Total(Counts(s)) == |s|
    ensures Counts(s).tn + Counts(s).fp == RefCount(s, 0) && Counts(s).fn + Counts(s).tp == RefCount(s, 1)
  {
    CellsTotal(s);
    RowSums(s);
  }

  lemma {:induction false} CellsTotal(s: seq<Sample>)
    ensures Total(Counts(s)) == |s|
  {
    if s != [] {
      CellsTotal(s[..|s| - 1]);
    }
  }

  lemma {:induction false} RowSums(s: seq<Sample>)
    requires Binary(s)
    ensures Counts(s).tn + Counts(s).fp == RefCount(s, 0)
    ensures Counts(s).fn + Counts(s).tp == RefCount(s, 1)
  {
    if s != [] {
      var init := s[..|s| - 1];
      var x := s[|s| - 1];
      assert Binary(init) by {
        forall k | 0 <= k < |init| ensures init[k].ref in {0, 1} && init[k].pred in {0, 1} {
          assert init[k] == s[k];
        }
      }
      RowSums(init);
      assert Counts(s) == Tally(Counts(init), x);
      assert RefCount(s, 0) == RefCount(init, 0) + (if x.ref == 0 then 1 else 0);
      assert RefCount(s, 1) == RefCount(init, 1) + (if x.ref == 1 then 1 else 0);
      assert x.ref in {0, 1} && x.pred in {0, 1};
    }
  }

  /** Each cell is the number of samples carrying its (reference, prediction) pair. */
  lemma {:induction false} CellsCountPairs(s: seq<Sample>)
    requires Binary(s)
    ensures Tabulate(s).tn == multiset(s)[Sample(0, 0)] && Tabulate(s).fp == multiset(s)[Sample(0, 1)]
    ensures Tabulate(s).fn == multiset(s)[Sample(1, 0)] && Tabulate(s).tp == multiset(s)[Sample(1, 1)]
  {
    if s != [] {
      var init := s[..|s| - 1];
      var x := s[|s| - 1];
      assert Binary(init) by {
        forall k | 0 <= k < |init| ensures init[k].ref in {0, 1} && init[k].pred in {0, 1} {
          assert init[k] == s[k];
        }
      }
      CellsCountPairs(init);
      assert s == init + [x];
      assert multiset(s) == multiset(init) + multiset{x};
    }
  }

  /** The matrix depends only on which samples were drawn, not on their order. */
  lemma TabulateOrderFree(s: seq<Sample>, t: seq<Sample>)
    requires Binary(s) && Binary(t) && multiset(s) == multiset(t)
    ensures Tabulate(s) == Tabulate(t)
  {
    CellsCountPairs(s);
    CellsCountPairs(t);
  }

  /** Every pick is a pixel where both layers are defined and 0/1 valued. */
  predicate ValidPicks(ref01: Band<int>, pred01: Band<int>, picks: seq<nat>)
  {
    |ref01| == |pred01| &&
    forall k | 0 <= k < |picks| ::
      picks[k] < |ref01| && ref01[picks[k]] in {Some(0), Some(1)} && pred01[picks[k]] in {Some(0), Some(1)}
  }

  /** Number of picked pixels whose reference class is c. */
  function ClassCount(ref01: Band<int>, picks: seq<nat>, c: int): nat
  {
    if picks == [] then 0
    else
      var last := picks[|picks| - 1];
      ClassCount(ref01, picks[..|picks| - 1], c) + (if last < |ref01| && ref01[last] == Some(c) then 1 else 0)
  }

  /** A pixel `stratifiedSample` may draw: inside the region and 0/1 in both layers. */
  predicate Sampleable(ref01: Band<int>, pred01: Band<int>, p: nat)
  {
    p < |ref01| && p < |pred01| && ref01[p] in {Some(0), Some(1)} && pred01[p] in {Some(0), Some(1)}
  }

  function Min(a: nat, b: nat): nat
  {
    if a <= b then a else b
  }

  /**
    `stratifiedSample` with a fixed seed: `order` is the pixel order the seed
    produces, and the sampler keeps each sampleable pixel of that order while its
    reference class still has fewer than `nPerClass` points. Each class ends up
    with nPerClass points, or all of its points when it has fewer.
   */
  function StratifiedSample(ref01: Band<int>, pred01: Band<int>, order: seq<nat>, nPerClass: nat): (picks: seq<nat>)
    requires |ref01| == |pred01|
    ensures ValidPicks(ref01, pred01, picks)
    ensures |picks| <= |order| && multiset(picks) <= multiset(order)
    ensures forall c | c == 0 || c == 1 ::
      ClassCount(ref01, picks, c) == Min(nPerClass, ClassCount(ref01, FilterSampleable(ref01, pred01, order), c))
  {
    if order == [] then []
    else
      var n := |order| - 1;
      var p := order[n];
      var prev := StratifiedSample(ref01, pred01, order[..n], nPerClass);
      assert order == order[..n] + [p];
      var keep := Sampleable(ref01, pred01, p) && ClassCount(ref01, prev, ref01[p].value) < nPerClass;
      var picks := if keep then prev + [p] else prev;
      assert (prev + [p])[..|prev|] == prev;
      ghost var before := FilterSampleable(ref01, pred01, order[..n]);
      ghost var all := FilterSampleable(ref01, pred01, order);
      assert forall c | c == 0 || c == 1 ::
        ClassCount(ref01, picks, c) == Min(nPerClass, ClassCount(ref01, all, c)) by {
        forall c | c == 0 || c == 1
          ensures ClassCount(ref01, picks, c) == Min(nPerClass, ClassCount(ref01, all, c))
        {
          if Sampleable(ref01, pred01, p) {
            assert all == before + [p];
            assert (before + [p])[..|before|] == before;
          } else {
            assert all == before;
          }
        }
      }
      picks
  }

  /** The pixels of `order` the sampler may draw, in order. */
  function FilterSampleable(ref01: Band<int>, pred01: Band<int>, order: seq<nat>): (r: seq<nat>)
    ensures |r| <= |order|
    ensures forall k | 0 <= k < |r| :: Sampleable(ref01, pred01, r[k])
  {
    if order == [] then []
    else
      var n := |order| - 1;
      FilterSampleable(ref01, pred01, order[..n]) + (if Sampleable(ref01, pred01, order[n]) then [order[n]] else [])
  }

  /** The (reference, prediction) pairs read at the sampled pixels. */
  function SamplePairs(ref01: Band<int>, pred01: Band<int>, picks: seq<nat>): (s: seq<Sample>)
    requires ValidPicks(ref01, pred01, picks)
    ensures |s| == |picks| && Binary(s)
    ensures forall k | 0 <= k < |s| :: Some(s[k].ref) == ref01[picks[k]] && Some(s[k].pred) == pred01[picks[k]]
  {
    seq(|picks|, k requires 0 <= k < |picks| => Sample(ref01[picks[k]].value, pred01[picks[k]].value))
  }

  lemma {:induction false} RefCountIsClassCount(ref01: Band<int>, pred01: Band<int>, picks: seq<nat>, c: int)
    requires ValidPicks(ref01, pred01, picks)
    ensures RefCount(SamplePairs(ref01, pred01, picks), c) == ClassCount(ref01, picks, c)
  {
    if picks != [] {
      var n := |picks| - 1;
      RefCountIsClassCount(ref01, pred01, picks[..n], c);
      assert SamplePairs(ref01, pred01, picks[..n]) == SamplePairs(ref01, pred01, picks)[..n];
    }
  }

  /** What `stratifiedValidate` returns: the samples and their error matrix. */
  datatype Validation = Validation(samples: seq<Sample>, cm: ErrorMatrix)

  /**
    `stratifiedValidate`: sample the stacked layers per reference class, then
    tabulate. The matrix accounts for every sample, and each reference row holds
    nPerClass samples of that class, or every sampleable pixel of it when there
    are fewer; so there are at most 2 * nPerClass samples in all.
   */
  function StratifiedValidate(pred01: Band<int>, ref01: Band<int>, order: seq<nat>, nPerClass: nat): (v: Validation)
    requires |ref01| == |pred01|
    ensures Total(v.cm) == |v.samples| && Binary(v.samples)
    ensures v.cm.tn + v.cm.fp == Min(nPerClass, ClassCount(ref01, FilterSampleable(ref01, pred01, order), 0))
    ensures v.cm.fn + v.cm.tp == Min(nPerClass, ClassCount(ref01, FilterSampleable(ref01, pred01, order), 1))
    ensures |v.samples| <= 2 * nPerClass
    ensures v.samples == SamplePairs(ref01, pred01, StratifiedSample(ref01, pred01, order, nPerClass))
    ensures v.cm == Tabulate(v.samples)
  {
    var picks := StratifiedSample(ref01, pred01, order, nPerClass);
    var s := SamplePairs(ref01, pred01, picks);
    RefCountIsClassCount(ref01, pred01, picks, 0);
    RefCountIsClassCount(ref01, pred01, picks, 1);
    Validation(s, Tabulate(s))
  }

  // ---------------- Metrics ----------------

  /** num / den, or None when den is zero. */
  function Ratio(num: nat, den: nat): (r: Option<real>)
    ensures r.Some? <==> den > 0
    ensures r.Some? ==> r.value * den as real == num as real
    ensures r.Some? && num <= den ==>
      0.0 <= r.value <= 1.0 && (r.value == 1.0 <==> num == den) && (r.value == 0.0 <==> num == 0)
  {
    if den == 0 then None
    else
      ShareOfWhole(num as real, den as real);
      Some(num as real / den as real)
  }

  /** A part of a positive whole is a share in [0, 1]: 1 exactly for the whole, 0 exactly for nothing. */
  lemma ShareOfWhole(x: real, d: real)
    requires 0.0 <= x && d > 0.0
    ensures x <= d ==> 0.0 <= x / d <= 1.0 && (x / d == 1.0 <==> x == d) && (x / d == 0.0 <==> x == 0.0)
  {
    FractionLe(0.0, 1.0, x, d);
    if x <= d {
      FractionLe(x, d, 1.0, 1.0);
    }
    if x / d == 1.0 || x / d == 0.0 {
      DivTimes(x, d);
    }
    if x == d {
      DivIsUnique(1.0, x, d);
    }
    if x == 0.0 {
      DivIsUnique(0.0, x, d);
    }
  }

  /** `accuracy()`: the share of samples on the diagonal. */
  function OverallAccuracy(m: ErrorMatrix): (r: Option<real>)
    ensures r.Some? <==> Total(m) > 0
    ensures r.Some? ==> 0.0 <= r.value <= 1.0 && (r.value == 1.0 <==> m.fp + m.fn == 0)
  {
    Ratio(m.tp + m.tn, Total(m))
  }

  /** `producersAccuracy()` of the water class: tp / (tp + fn). */
  function Recall(m: ErrorMatrix): (r: Option<real>)
    ensures r.Some? <==> m.tp + m.fn > 0
    ensures r.Some? ==> 0.0 <= r.value <= 1.0 && (r.value == 1.0 <==> m.fn == 0) && (r.value == 0.0 <==> m.tp == 0)
  {
    Ratio(m.tp, m.tp + m.fn)
  }

  /** `consumersAccuracy()` of the water class: tp / (tp + fp). */
  function Precision(m: ErrorMatrix): (r: Option<real>)
    ensures r.Some? <==> m.tp + m.fp > 0
    ensures r.Some? ==> 0.0 <= r.value <= 1.0 && (r.value == 1.0 <==> m.fp == 0) && (r.value == 0.0 <==> m.tp == 0)
  {
    Ratio(m.tp, m.tp + m.fp)
  }

  /** F1 from precision and recall: 2 P R / (P + R). */
  function F1(p: Option<real>, r: Option<real>): Option<real>
  {
    if p.Some? && r.Some? && p.value + r.value != 0.0 then Some(2.0 * p.value * r.value / (p.value + r.value))
    else None
  }

  /** Intersection over union of the water class: tp / (tp + fn + fp). */
  function IoU(m: ErrorMatrix): (r: Option<real>)
    ensures r.Some? <==> m.tp + m.fn + m.fp > 0
    ensures r.Some? ==> 0.0 <= r.value <= 1.0
  {
    Ratio(m.tp, m.tp + m.fn + m.fp)
  }

  /** Expected agreement under independence, scaled by n^2: per class, row total times column total. */
  function ChanceAgreement(m: ErrorMatrix): real
  {
    (m.tn + m.fp) as real * (m.tn + m.fn) as real + (m.fn + m.tp) as real * (m.fp + m.tp) as real
  }

  /** `kappa()`: (po - pe) / (1 - pe), with po the overall accuracy and pe the chance agreement. */
  function Kappa(m: ErrorMatrix): Option<real>
  {
    var n := Total(m);
    if n == 0 then None
    else
      var po := (m.tp + m.tn) as real / n as real;
      var pe := ChanceAgreement(m) / n as real / n as real;
      if pe == 1.0 then None else Some((po - pe) / (1.0 - pe))
  }

  /** 2 (tp tn - fp fn): the Kappa numerator po - pe, scaled by n^2. */
  function KappaNumerator(m: ErrorMatrix): real
  {
    2.0 * (m.tp as real * m.tn as real - m.fp as real * m.fn as real)
  }

  /** (tp + fp)(fp + tn) + (tp + fn)(fn + tn): the Kappa denominator 1 - pe, scaled by n^2. */
  function KappaDenominator(m: ErrorMatrix): real
  {
    (m.tp + m.fp) as real * (m.fp + m.tn) as real + (m.tp + m.fn) as real * (m.fn + m.tn) as real
  }

  // Small facts of real arithmetic, each proved apart from the model so that
  // the solver sees nothing else while it does them.

  lemma DivTimes(y: real, d: real)
    requires d != 0.0
    ensures (y / d) * d == y
  {
  }

  lemma DivIsUnique(x: real, y: real, d: real)
    requires d != 0.0 && x * d == y
    ensures x == y / d
  {
  }

  lemma Cancel(x: real, y: real, c: real)
    requires c != 0.0 && x * c == y * c
    ensures x == y
  {
    DivIsUnique(x, y * c, c);
  }

  lemma QuotientOfQuotients(x: real, y: real, d: real)
    requires d != 0.0 && y != 0.0
    ensures (x / d) / (y / d) == x / y
  {
  }

  lemma FractionLe(x1: real, d1: real, x2: real, d2: real)
    requires d1 > 0.0 && d2 > 0.0 && x1 * d2 <= x2 * d1
    ensures x1 / d1 <= x2 / d2
  {
  }

  lemma PositiveFraction(x: real, d: real)
    requires x > 0.0 && d > 0.0
    ensures x / d > 0.0
  {
  }

  lemma MulNonNegative(x: real, y: real)
    requires x >= 0.0 && y >= 0.0
    ensures x * y >= 0.0
  {
  }

  lemma PositiveProduct(x: real, y: real)
    requires x > 0.0 && y > 0.0
    ensures x * y > 0.0
  {
  }

  lemma HarmonicMean(t: real, a: real, b: real, p: real, r: real, f: real)
    requires p * a == t && r * b == t && p + r != 0.0 && f * (p + r) == 2.0 * p * r
    ensures f * (a + b) == 2.0 * t
  {
    assert 2.0 * p * r * (a + b) == 2.0 * r * (p * a) + 2.0 * p * (r * b);
    assert 2.0 * p * r * (a + b) == 2.0 * t * (p + r);
    assert f * (a + b) * (p + r) == f * (p + r) * (a + b);
    Cancel(f * (a + b), 2.0 * t, p + r);
  }

  /** The harmonic mean of t/a and t/b is 2t/(a + b). */
  lemma F1OfReals(t: real, a: real, b: real)
    requires t > 0.0 && a > 0.0 && b > 0.0
    ensures t / a + t / b > 0.0
    ensures 2.0 * (t / a) * (t / b) / (t / a + t / b) == 2.0 * t / (a + b)
  {
    var p, r := t / a, t / b;
    DivTimes(t, a);
    DivTimes(t, b);
    PositiveFraction(t, a);
    PositiveFraction(t, b);
    var f := 2.0 * p * r / (p + r);
    DivTimes(2.0 * p * r, p + r);
    HarmonicMean(t, a, b, p, r, f);
    DivIsUnique(f, 2.0 * t, a + b);
  }

  lemma {:induction false} F1Closed(m: ErrorMatrix)
    requires m.tp > 0
    ensures F1(Precision(m), Recall(m)).Some?
    ensures F1(Precision(m), Recall(m)).value == 2.0 * m.tp as real / (2 * m.tp + m.fp + m.fn) as real
  {
    var t, a, b := m.tp as real, (m.tp + m.fp) as real, (m.tp + m.fn) as real;
    assert Precision(m).value == t / a;
    assert Recall(m).value == t / b;
    F1OfReals(t, a, b);
    assert a + b == (2 * m.tp + m.fp + m.fn) as real;
  }

  /**
    F1 is defined exactly when there is a true positive, and is then
    2 tp / (2 tp + fp + fn): the harmonic mean of precision and recall.
   */
  lemma F1FromCounts(m: ErrorMatrix)
    ensures F1(Precision(m), Recall(m)).Some? <==> m.tp > 0
    ensures m.tp > 0 ==> F1(Precision(m), Recall(m)).value == 2.0 * m.tp as real / (2 * m.tp + m.fp + m.fn) as real
  {
    if m.tp > 0 {
      F1Closed(m);
    }
  }

  lemma IoUF1Order(t: real, e: real)
    requires t > 0.0 && e >= 0.0
    ensures 0.0 < t / (t + e) <= 2.0 * t / (2.0 * t + e) <= 1.0
  {
    PositiveFraction(t, t + e);
    MulNonNegative(t, e);
    assert 2.0 * t * (t + e) - t * (2.0 * t + e) == t * e;
    FractionLe(t, t + e, 2.0 * t, 2.0 * t + e);
    FractionLe(2.0 * t, 2.0 * t + e, 1.0, 1.0);
  }

  /** With a true positive: 0 < IoU <= F1 <= 1. */
  lemma IoUWithinF1(m: ErrorMatrix)
    requires m.tp > 0
    ensures IoU(m).Some? && F1(Precision(m), Recall(m)).Some?
    ensures 0.0 < IoU(m).value <= F1(Precision(m), Recall(m)).value <= 1.0
  {
    F1Closed(m);
    var t, e := m.tp as real, (m.fp + m.fn) as real;
    assert IoU(m).value == t / (t + e);
    assert (2 * m.tp + m.fp + m.fn) as real == 2.0 * t + e;
    assert F1(Precision(m), Recall(m)).value == 2.0 * t / (2.0 * t + e);
    IoUF1Order(t, e);
  }

  /** Expanding the products: n (tp + tn) - chance = numerator and n^2 - chance = denominator. */
  lemma KappaPolynomials(tn: real, fp: real, fn: real, tp: real)
    ensures var n := tn + fp + fn + tp;
      var c := (tn + fp) * (tn + fn) + (fn + tp) * (fp + tp);
      (tp + tn) * n - c == 2.0 * (tp * tn - fp * fn) &&
      n * n - c == (tp + fp) * (fp + tn) + (tp + fn) * (fn + tn)
  {
  }

  lemma ScaleQuotient(u: real, w: real, n: real)
    requires w != 0.0 && n != 0.0
    ensures (u * n) / (w * n) == u / w
  {
  }

  lemma KappaQuotient(a: real, n: real, c: real, x: real, d: real)
    requires n > 0.0 && a * n - c == x && n * n - c == d
    ensures c / n / n == 1.0 <==> d == 0.0
    ensures d != 0.0 ==> (a / n - c / n / n) / (1.0 - c / n / n) == x / d
  {
    var q := c / n;
    var po, pe := a / n, q / n;
    DivTimes(c, n);
    DivTimes(q, n);
    DivTimes(a, n);
    var u, w := po - pe, 1.0 - pe;
    assert u * n == a - q;
    assert (a - q) * n == x;
    assert w * n == n - q;
    assert (n - q) * n == d;
    DivIsUnique(a - q, x, n);
    DivIsUnique(n - q, d, n);
    if d != 0.0 {
      ScaleQuotient(u, w, n);
      QuotientOfQuotients(x, d, n);
    }
  }

  /** Kappa's formula over the four counts as reals, in closed form. */
  lemma KappaOfReals(tn: real, fp: real, fn: real, tp: real)
    requires tn + fp + fn + tp > 0.0
    ensures var n := tn + fp + fn + tp;
      var c := (tn + fp) * (tn + fn) + (fn + tp) * (fp + tp);
      var d := (tp + fp) * (fp + tn) + (tp + fn) * (fn + tn);
      (c / n / n == 1.0 <==> d == 0.0) &&
      (d != 0.0 ==> ((tp + tn) / n - c / n / n) / (1.0 - c / n / n) == 2.0 * (tp * tn - fp * fn) / d)
  {
    KappaPolynomials(tn, fp, fn, tp);
    var n := tn + fp + fn + tp;
    var c := (tn + fp) * (tn + fn) + (fn + tp) * (fp + tp);
    KappaQuotient(tp + tn, n, c, 2.0 * (tp * tn - fp * fn), (tp + fp) * (fp + tn) + (tp + fn) * (fn + tn));
  }

  /**
    Kappa from the counts: defined exactly when there are samples and the
    chance agreement is below 1, and then 2 (tp tn - fp fn) / ((tp + fp)(fp + tn) + (tp + fn)(fn + tn)).
   */
  lemma KappaClosedForm(m: ErrorMatrix)
    ensures Kappa(m).Some? <==> Total(m) > 0 && KappaDenominator(m) != 0.0
    ensures Kappa(m).Some? ==> Kappa(m).value == KappaNumerator(m) / KappaDenominator(m)
  {
    var n := Total(m);
    if n > 0 {
      var tn, fp, fn, tp := m.tn as real, m.fp as real, m.fn as real, m.tp as real;
      assert n as real == tn + fp + fn + tp;
      assert (m.tp + m.tn) as real == tp + tn;
      assert ChanceAgreement(m) == (tn + fp) * (tn + fn) + (fn + tp) * (fp + tp);
      assert KappaDenominator(m) == (tp + fp) * (fp + tn) + (tp + fn) * (fn + tn);
      KappaOfReals(tn, fp, fn, tp);
    }
  }

  lemma KappaNumeratorBounds(tn: real, fp: real, fn: real, tp: real)
    requires tn >= 0.0 && fp >= 0.0 && fn >= 0.0 && tp >= 0.0
    ensures var d := (tp + fp) * (fp + tn) + (tp + fn) * (fn + tn);
      -d <= 2.0 * (tp * tn - fp * fn) <= d
  {
    var d := (tp + fp) * (fp + tn) + (tp + fn) * (fn + tn);
    var tpfp, tptn, fptn, tpfn, fntn, fpfn := tp * fp, tp * tn, fp * tn, tp * fn, fn * tn, fp * fn;
    MulNonNegative(tp, fp);
    MulNonNegative(tp, tn);
    MulNonNegative(fp, tn);
    MulNonNegative(tp, fn);
    MulNonNegative(fn, tn);
    MulNonNegative(fp, fn);
    MulNonNegative(fp, fp);
    MulNonNegative(fn, fn);
    assert d == tpfp + 2.0 * tptn + fp * fp + fptn + tpfn + fn * fn + fntn;
    assert fp * fp + fn * fn - 2.0 * fpfn == (fp - fn) * (fp - fn);
    MulSquare(fp - fn);
  }

  lemma MulSquare(x: real)
    ensures x * x >= 0.0
  {
  }

  lemma RatioWithinOne(x: real, d: real)
    requires d > 0.0 && -d <= x <= d
    ensures -1.0 <= x / d <= 1.0
  {
    FractionLe(x, d, 1.0, 1.0);
    FractionLe(-1.0, 1.0, x, d);
  }

  /** -1 <= Kappa <= 1, and Kappa is 1 when nothing is misclassified. */
  lemma KappaBounds(m: ErrorMatrix)
    requires Kappa(m).Some?
    ensures -1.0 <= Kappa(m).value <= 1.0
    ensures m.fp == 0 && m.fn == 0 ==> Kappa(m).value == 1.0
  {
    KappaClosedForm(m);
    var tn, fp, fn, tp := m.tn as real, m.fp as real, m.fn as real, m.tp as real;
    KappaNumeratorBounds(tn, fp, fn, tp);
    var d := KappaDenominator(m);
    assert d == (tp + fp) * (fp + tn) + (tp + fn) * (fn + tn);
    MulNonNegative(tp + fp, fp + tn);
    MulNonNegative(tp + fn, fn + tn);
    RatioWithinOne(KappaNumerator(m), d);
    if m.fp == 0 && m.fn == 0 {
      assert KappaNumerator(m) == d;
      DivIsUnique(1.0, d, d);
    }
  }

  /**
    The worked example {tp = 80, fp = 10, fn = 5, tn = 905}: OA = 0.985,
    precision = 8/9, recall = 16/17, F1 = 32/35, IoU = 16/19, Kappa = 1447/1597.
   */
  lemma WorkedExample()
    ensures var m := ErrorMatrix(905, 10, 5, 80);
      OverallAccuracy(m) == Some(0.985) && Precision(m) == Some(8.0 / 9.0) && Recall(m) == Some(16.0 / 17.0) &&
      F1(Precision(m), Recall(m)) == Some(32.0 / 35.0) && IoU(m) == Some(16.0 / 19.0) &&
      Kappa(m).Some? && Kappa(m).value == 1447.0 / 1597.0
  {
    var m := ErrorMatrix(905, 10, 5, 80);
    F1Closed(m);
    KappaClosedForm(m);
  }
}
