/**
 The ratio of two means and its Fieller interval, over the reals.  `root` is the
 square root the computation takes of the radicand.
 */
module Fieller {
  import opened Prelude

  /** An endpoint's mean, the variance of that mean, its sample count and what is wrong with it. */
  datatype Metric = Metric(point: Option<real>, variance: Option<real>, count: nat, issue: Option<string>)

  datatype Class = Lower | Higher | Unclear | PointOnly | Invalid

  datatype Ratio = Ratio(point: Option<real>, low: Option<real>, high: Option<real>, grade: Class, issue: Option<string>)

  /** What the interval is computed from: means, variances of the means and the squared critical value. */
  datatype Sample = Sample(b: real, c: real, vb: real, vc: real, t2: real)

  function LeadingTerm(s: Sample): real { s.b * s.b - s.t2 * s.vb }

  function ConstantTerm(s: Sample): real { s.c * s.c - s.t2 * s.vc }

  function Radicand(s: Sample): real {
    (s.b * s.c) * (s.b * s.c) - LeadingTerm(s) * ConstantTerm(s)
  }

  function Joined(b: Option<string>, c: Option<string>): Option<string> {
    var all := if b.None? then (if c.None? then "" else c.value)
               else if c.None? || c.value == b.value then b.value
               else b.value + "; " + c.value;
    if all == "" then None else Some(all)
  }

  function Classify(point: Option<real>, low: Option<real>, high: Option<real>): Class {
    if point.None? then Invalid
    else if low.None? || high.None? then PointOnly
    else if high.value < 1.0 then Lower
    else if low.value > 1.0 then Higher
    else Unclear
  }

  function SampleOf(b: Metric, c: Metric, t: real): Sample
    requires b.point.Some? && c.point.Some? && b.variance.Some? && c.variance.Some?
  {
    Sample(b.point.value, c.point.value, b.variance.value, c.variance.value, t * t)
  }

  /** The ratio estimate; `Failure` is the raised error. */
  function RatioEstimate(b: Metric, c: Metric, t: Option<real>, root: real): Result<Ratio> {
    var issue := Joined(b.issue, c.issue);
    if issue.Some? then Success(Ratio(None, None, None, Invalid, issue))
    else if b.point.None? || c.point.None? then Success(Ratio(None, None, None, Invalid, Some("estimate unavailable")))
    else if b.point.value <= 0.0 then Success(Ratio(None, None, None, Invalid, Some("baseline mean is not positive")))
    else
      var point := c.point.value / b.point.value;
      if b.count < 2 || c.count < 2 then Success(Ratio(Some(point), None, None, PointOnly, Some("CI undefined for n < 2")))
      else if b.variance.None? || c.variance.None? || t.None? then
        Failure("multi-sample ratio is missing variance or its t critical value")
      else
        var s := SampleOf(b, c, t.value);
        var a := LeadingTerm(s);
        if a <= 0.0 || Radicand(s) < 0.0 then
          Success(Ratio(Some(point), None, None, PointOnly, Some("Fieller interval undefined")))
        else
          var center, half := s.b * s.c / a, root / a;
          Success(Ratio(Some(point), Some(center - half), Some(center + half),
                        Classify(Some(point), Some(center - half), Some(center + half)), None))
  }

  /** When there is a ratio at all, and when it is raised as an error. */
  predicate Usable(b: Metric, c: Metric) {
    && (b.issue.None? || b.issue.value == "") && (c.issue.None? || c.issue.value == "")
    && b.point.Some? && c.point.Some? && b.point.value > 0.0
  }

  /**
   The estimate outside the measured case: a ratio exactly for two usable means, its point always the candidate over the
   baseline; no interval below two samples or for a leading term that is not positive; an error exactly for repeated
   samples without their variances or critical value.
   */
  lemma {:induction false} EstimateCases(b: Metric, c: Metric, t: Option<real>, root: real)
    ensures
      var r := RatioEstimate(b, c, t, root);
      && (r.Failure? <==> Usable(b, c) && b.count >= 2 && c.count >= 2 && (b.variance.None? || c.variance.None? || t.None?))
      && (r.Success? ==>
            && (r.value.point.Some? <==> Usable(b, c))
            && (r.value.point.Some? ==> r.value.point.value * b.point.value == c.point.value)
            && (r.value.grade == Invalid <==> !Usable(b, c))
            && (r.value.grade == PointOnly <==> Usable(b, c) && r.value.low.None?)
            && (r.value.low.Some? <==> r.value.high.Some?) && (r.value.low.Some? ==> r.value.point.Some?)
            && (r.value.low.None? <==> r.value.issue.Some?)
            && (r.value.low.Some? ==> b.count >= 2 && c.count >= 2))
  {
    if Usable(b, c) { assert c.point.value / b.point.value * b.point.value == c.point.value; }
  }

  /** What is reported where there is no interval. */
  lemma {:induction false} EstimateIssues(b: Metric, c: Metric, t: Option<real>, root: real)
    requires RatioEstimate(b, c, t, root).Success?
    ensures
      var e := RatioEstimate(b, c, t, root).value;
      && (b.issue.Some? && b.issue.value != "" && (c.issue.None? || c.issue == b.issue) ==> e.issue == b.issue)
      && (b.issue.None? && c.issue.Some? && c.issue.value != "" ==> e.issue == c.issue)
      && (b.issue.Some? && c.issue.Some? && b.issue != c.issue ==> e.issue == Some(b.issue.value + "; " + c.issue.value))
      && (b.issue.None? && c.issue.None? && (b.point.None? || c.point.None?) ==> e.issue == Some("estimate unavailable"))
      && (b.issue.None? && c.issue.None? && b.point.Some? && c.point.Some? && b.point.value <= 0.0
          ==> e.issue == Some("baseline mean is not positive"))
      && (b.issue.None? && c.issue.None? && Usable(b, c) && (b.count < 2 || c.count < 2) ==> e.issue == Some("CI undefined for n < 2"))
      && (b.issue.None? && c.issue.None? && Usable(b, c) && b.count >= 2 && c.count >= 2 && e.low.None?
          ==> e.issue == Some("Fieller interval undefined"))
  {
    hide LeadingTerm, Radicand;
  }

  // ---- The quadratic -----------------------------------------------------------------------

  /** Positive baseline, variances that are variances. */
  predicate Sound(s: Sample) { s.b > 0.0 && s.vb >= 0.0 && s.vc >= 0.0 && s.t2 >= 0.0 }

  predicate IsRoot(root: real, x: real) { root >= 0.0 && root * root == x }

  function Low(s: Sample, root: real): real
    requires LeadingTerm(s) > 0.0
  {
    s.b * s.c / LeadingTerm(s) - root / LeadingTerm(s)
  }

  function High(s: Sample, root: real): real
    requires LeadingTerm(s) > 0.0
  {
    s.b * s.c / LeadingTerm(s) + root / LeadingTerm(s)
  }

  /** The ratios not rejected at this critical value. */
  predicate Plausible(s: Sample, r: real) {
    (s.c - r * s.b) * (s.c - r * s.b) <= s.t2 * (s.vc + r * r * s.vb)
  }

  lemma {:induction false} RadicandIsSum(s: Sample)
    ensures Radicand(s) == s.t2 * (s.vb * (s.c * s.c) + s.vc * LeadingTerm(s))
  {
    var b2, c2, tb, tc := s.b * s.b, s.c * s.c, s.t2 * s.vb, s.t2 * s.vc;
    assert (s.b * s.c) * (s.b * s.c) == b2 * c2;
    assert (b2 - tb) * (c2 - tc) == b2 * c2 - b2 * tc - tb * c2 + tb * tc;
    assert s.t2 * (s.vb * c2 + s.vc * (b2 - tb)) == tb * c2 + tc * b2 - tc * tb;
  }

  lemma {:induction false} ProductNonNegative(x: real, y: real)
    requires x >= 0.0 && y >= 0.0
    ensures x * y >= 0.0
  {
  }

  lemma {:induction false} PositiveProduct(x: real, y: real)
    requires x > 0.0 && y > 0.0
    ensures x * y > 0.0
  {
  }

  lemma {:induction false} PositiveFactor(x: real, y: real)
    requires x > 0.0 && x * y > 0.0
    ensures y > 0.0
  {
    if y <= 0.0 { ProductNonNegative(x, -y); }
  }

  /** With a positive leading term the negative-radicand case cannot occur. */
  lemma {:induction false} RadicandNonNegative(s: Sample)
    requires Sound(s) && LeadingTerm(s) > 0.0
    ensures Radicand(s) >= 0.0
  {
    hide Radicand, LeadingTerm;
    RadicandIsSum(s);
    SquareNonNegative(s.c);
    ProductNonNegative(s.vb, s.c * s.c);
    ProductNonNegative(s.vc, LeadingTerm(s));
    ProductNonNegative(s.t2, s.vb * (s.c * s.c) + s.vc * LeadingTerm(s));
  }

  lemma {:induction false} SquareNonNegative(x: real)
    ensures x * x >= 0.0
  {
  }

  lemma {:induction false} Expand(x: real, y: real)
    ensures (x - y) * (x - y) == x * x - 2.0 * (x * y) + y * y
  {
  }

  /** Completing the square. */
  lemma {:induction false} CompleteSquare(s: Sample, r: real)
    ensures
      var a := LeadingTerm(s);
      var gap := (s.c - r * s.b) * (s.c - r * s.b) - s.t2 * (s.vc + r * r * s.vb);
      a * gap == (a * r - s.b * s.c) * (a * r - s.b * s.c) - Radicand(s)
  {
    var a, d, p := LeadingTerm(s), ConstantTerm(s), s.b * s.c;
    var gap := (s.c - r * s.b) * (s.c - r * s.b) - s.t2 * (s.vc + r * r * s.vb);
    GapIsQuadratic(s, r);
    Expand(a * r, p);
    QuadraticProduct(a, d, p, r);
  }

  lemma {:induction false} QuadraticProduct(a: real, d: real, p: real, r: real)
    ensures a * (a * r * r - 2.0 * p * r + d) == (a * r) * (a * r) - 2.0 * (a * r * p) + p * p - (p * p - a * d)
  {
    assert a * (a * r * r) == (a * r) * (a * r);
    assert a * (2.0 * p * r) == 2.0 * (a * r * p);
    Distribute(a, a * r * r, 2.0 * p * r, d);
  }

  lemma {:induction false} Distribute(a: real, x: real, y: real, z: real)
    ensures a * (x - y + z) == a * x - a * y + a * z
  {
  }

  lemma {:induction false} GapIsQuadratic(s: Sample, r: real)
    ensures (s.c - r * s.b) * (s.c - r * s.b) - s.t2 * (s.vc + r * r * s.vb)
            == LeadingTerm(s) * r * r - 2.0 * (s.b * s.c) * r + ConstantTerm(s)
  {
    Expand(s.c, r * s.b);
    assert (r * s.b) * (r * s.b) == s.b * s.b * r * r;
    assert s.c * (r * s.b) == s.b * s.c * r;
    assert s.t2 * (s.vc + r * r * s.vb) == s.t2 * s.vc + s.t2 * s.vb * r * r;
    assert (s.b * s.b - s.t2 * s.vb) * r * r == s.b * s.b * r * r - s.t2 * s.vb * r * r;
  }

  lemma {:induction false} SquareAtMost(x: real, root: real)
    requires root >= 0.0
    ensures x * x <= root * root <==> -root <= x <= root
  {
    if x > root { StrictProduct(x, root); }
    if x < -root { StrictProduct(-x, root); assert (-x) * (-x) == x * x; }
    if -root <= x <= root {
      assert root * root - x * x == (root - x) * (root + x);
      ProductNonNegative(root - x, root + x);
    }
  }

  lemma {:induction false} StrictProduct(x: real, y: real)
    requires x > y >= 0.0
    ensures x * x > y * y
  {
    assert x * x - y * y == (x - y) * (x + y);
    PositiveProduct(x - y, x + y);
  }

  lemma {:induction false} SignOfProduct(a: real, g: real)
    requires a > 0.0
    ensures a * g <= 0.0 <==> g <= 0.0
  {
  }

  lemma {:induction false} DivideBounds(a: real, p: real, root: real, r: real)
    requires a > 0.0
    ensures p / a - root / a <= r <==> p - root <= a * r
    ensures r <= p / a + root / a <==> a * r <= p + root
  {
    var x, y := p / a, root / a;
    assert p == a * x && root == a * y;
    assert a * r - (p - root) == a * (r - (x - y));
    assert (p + root) - a * r == a * ((x + y) - r);
  }

  /** The interval is exactly the set of plausible ratios. */
  lemma {:induction false} IntervalIsSolutionSet(s: Sample, root: real, r: real)
    requires LeadingTerm(s) > 0.0 && IsRoot(root, Radicand(s))
    ensures Low(s, root) <= r <= High(s, root) <==> Plausible(s, r)
  {
    hide LeadingTerm, Radicand;
    var a, p := LeadingTerm(s), s.b * s.c;
    var gap := (s.c - r * s.b) * (s.c - r * s.b) - s.t2 * (s.vc + r * r * s.vb);
    CompleteSquare(s, r);
    SignOfProduct(a, gap);
    SquareAtMost(a * r - p, root);
    DivideBounds(a, p, root, r);
  }

  /** The point estimate is plausible, so it lies in the interval. */
  lemma {:induction false} PointInInterval(s: Sample, root: real)
    requires Sound(s) && LeadingTerm(s) > 0.0 && IsRoot(root, Radicand(s))
    ensures Low(s, root) <= s.c / s.b <= High(s, root)
  {
    hide LeadingTerm, Radicand, Low, High;
    var r := s.c / s.b;
    assert s.c - r * s.b == 0.0;
    SquareNonNegative(r);
    ProductNonNegative(r * r, s.vb);
    ProductNonNegative(s.t2, s.vc + r * r * s.vb);
    IntervalIsSolutionSet(s, root, r);
  }

  // ---- Classes ------------------------------------------------------------------------------

  /** What the classes mean: a ratio of one is rejected, and on which side the point lies. */
  lemma {:induction false} ClassesAreTests(s: Sample, root: real)
    requires Sound(s) && LeadingTerm(s) > 0.0 && IsRoot(root, Radicand(s))
    ensures
      var grade := Classify(Some(s.c / s.b), Some(Low(s, root)), Some(High(s, root)));
      && (grade == Unclear <==> (s.c - s.b) * (s.c - s.b) <= s.t2 * (s.vc + s.vb))
      && (grade == Lower <==> (s.c - s.b) * (s.c - s.b) > s.t2 * (s.vc + s.vb) && s.c < s.b)
      && (grade == Higher <==> (s.c - s.b) * (s.c - s.b) > s.t2 * (s.vc + s.vb) && s.c > s.b)
  {
    hide LeadingTerm, Radicand, Low, High;
    IntervalIsSolutionSet(s, root, 1.0);
    assert Plausible(s, 1.0) <==> (s.c - s.b) * (s.c - s.b) <= s.t2 * (s.vc + s.vb);
    PointInInterval(s, root);
    PointSide(s);
    if s.c == s.b {
      ProductNonNegative(s.t2, s.vc + s.vb);
    }
  }

  lemma {:induction false} PointSide(s: Sample)
    requires s.b > 0.0
    ensures s.c / s.b < 1.0 <==> s.c < s.b
    ensures s.c / s.b > 1.0 <==> s.c > s.b
  {
    var r := s.c / s.b;
    assert s.c == r * s.b;
    assert s.c - s.b == (r - 1.0) * s.b;
  }

  // ---- Change of unit --------------------------------------------------------------------------

  function Rescaled(s: Sample, k: real): Sample {
    Sample(k * s.b, k * s.c, k * k * s.vb, k * k * s.vc, s.t2)
  }

  lemma {:induction false} RescaledTerms(s: Sample, k: real)
    ensures LeadingTerm(Rescaled(s, k)) == k * k * LeadingTerm(s)
    ensures Radicand(Rescaled(s, k)) == (k * k) * (k * k) * Radicand(s)
  {
    var q := k * k;
    var s' := Rescaled(s, k);
    assert s'.b * s'.b == q * (s.b * s.b) && s'.c * s'.c == q * (s.c * s.c) && s'.b * s'.c == q * (s.b * s.c);
    assert s.t2 * (q * s.vb) == q * (s.t2 * s.vb) && s.t2 * (q * s.vc) == q * (s.t2 * s.vc);
    assert LeadingTerm(s') == q * LeadingTerm(s);
    assert ConstantTerm(s') == q * ConstantTerm(s);
    SquareOfScaled(q, s.b * s.c, LeadingTerm(s), ConstantTerm(s));
  }

  lemma {:induction false} SquareOfScaled(q: real, p: real, a: real, d: real)
    ensures (q * p) * (q * p) - (q * a) * (q * d) == q * q * (p * p - a * d)
  {
    assert (q * p) * (q * p) == q * q * (p * p) && (q * a) * (q * d) == q * q * (a * d);
  }

  lemma {:induction false} RootUnique(x: real, y: real, v: real)
    requires IsRoot(x, v) && IsRoot(y, v)
    ensures x == y
  {
    if x > y { StrictProduct(x, y); }
    if y > x { StrictProduct(y, x); }
  }

  lemma {:induction false} CancelFactor(q: real, x: real, a: real)
    requires q > 0.0 && a > 0.0
    ensures q * a > 0.0 && (q * x) / (q * a) == x / a
  {
    var y := x / a;
    assert x == y * a;
    assert q * x == y * (q * a);
  }

  /** A common change of unit leaves point and interval as they are. */
  lemma {:induction false} UnitInvariance(s: Sample, k: real, root: real, root': real)
    requires k > 0.0 && s.b > 0.0 && LeadingTerm(s) > 0.0 && IsRoot(root, Radicand(s)) && IsRoot(root', Radicand(Rescaled(s, k)))
    ensures LeadingTerm(Rescaled(s, k)) > 0.0
    ensures Low(Rescaled(s, k), root') == Low(s, root) && High(Rescaled(s, k), root') == High(s, root)
    ensures Rescaled(s, k).c / Rescaled(s, k).b == s.c / s.b
  {
    hide LeadingTerm, Radicand;
    var q := k * k;
    RescaledTerms(s, k);
    assert q > 0.0;
    ProductNonNegative(q, root);
    assert (q * root) * (q * root) == q * q * (root * root);
    RootUnique(root', q * root, Radicand(Rescaled(s, k)));
    var s', a, p := Rescaled(s, k), LeadingTerm(s), s.b * s.c;
    assert s'.b * s'.c == q * p && LeadingTerm(s') == q * a;
    CancelFactor(q, p, a);
    CancelFactor(q, root, a);
    CancelFactor(k, s.c, s.b);
    assert Low(s', root') == (q * p) / (q * a) - (q * root) / (q * a);
    assert High(s', root') == (q * p) / (q * a) + (q * root) / (q * a);
  }

  // ---- Exchanging the endpoints ------------------------------------------------------------------

  function Swapped(s: Sample): Sample { Sample(s.c, s.b, s.vc, s.vb, s.t2) }

  lemma {:induction false} SwappedTerms(s: Sample)
    ensures LeadingTerm(Swapped(s)) == ConstantTerm(s) && ConstantTerm(Swapped(s)) == LeadingTerm(s)
    ensures Radicand(Swapped(s)) == Radicand(s)
  {
    assert s.b * s.c == s.c * s.b;
  }

  lemma {:induction false} BoundsTimes(s: Sample, root: real)
    requires LeadingTerm(s) > 0.0
    ensures LeadingTerm(s) * Low(s, root) == s.b * s.c - root
    ensures LeadingTerm(s) * High(s, root) == s.b * s.c + root
  {
    hide LeadingTerm;
    var a, x, y := LeadingTerm(s), s.b * s.c / LeadingTerm(s), root / LeadingTerm(s);
    assert a * x == s.b * s.c && a * y == root;
    assert a * (x - y) == a * x - a * y && a * (x + y) == a * x + a * y;
  }

  /** The interval lies above zero exactly when the reciprocal ratio has an interval too. */
  lemma {:induction false} LowerBoundSign(s: Sample, root: real)
    requires Sound(s) && s.c > 0.0 && LeadingTerm(s) > 0.0 && IsRoot(root, Radicand(s))
    ensures Low(s, root) > 0.0 <==> LeadingTerm(Swapped(s)) > 0.0
  {
    hide LeadingTerm, ConstantTerm, Low;
    var a, d, p := LeadingTerm(s), ConstantTerm(s), s.b * s.c;
    SwappedTerms(s);
    BoundsTimes(s, root);
    assert p > 0.0;
    assert (p - root) * (p + root) == p * p - root * root == a * d;
    SameSign(p - root, p + root, a, d);
    SameSignLow(a, Low(s, root), p - root);
  }

  lemma {:induction false} SameSign(x: real, y: real, a: real, d: real)
    requires y > 0.0 && a > 0.0 && x * y == a * d
    ensures x > 0.0 <==> d > 0.0
  {
    if x > 0.0 { assert x * y > 0.0; }
    if d > 0.0 { assert a * d > 0.0; }
  }

  lemma {:induction false} SameSignLow(a: real, low: real, x: real)
    requires a > 0.0 && a * low == x
    ensures low > 0.0 <==> x > 0.0
  {
  }

  /** Exchanging baseline and candidate gives the reciprocal bounds and exchanges lower and higher. */
  lemma {:induction false} SwapIsReciprocal(s: Sample, root: real, root': real)
    requires Sound(s) && s.c > 0.0 && LeadingTerm(s) > 0.0 && LeadingTerm(Swapped(s)) > 0.0
    requires IsRoot(root, Radicand(s)) && IsRoot(root', Radicand(Swapped(s)))
    ensures Low(s, root) > 0.0 && High(s, root) > 0.0
    ensures Low(Swapped(s), root') == 1.0 / High(s, root) && High(Swapped(s), root') == 1.0 / Low(s, root)
    ensures
      var grade := Classify(Some(s.c / s.b), Some(Low(s, root)), Some(High(s, root)));
      var grade' := Classify(Some(s.b / s.c), Some(Low(Swapped(s), root')), Some(High(Swapped(s), root')));
      (grade == Lower <==> grade' == Higher) && (grade == Higher <==> grade' == Lower) && (grade == Unclear <==> grade' == Unclear)
  {
    hide LeadingTerm, ConstantTerm, Low, High, Radicand;
    SwappedTerms(s);
    RootUnique(root, root', Radicand(s));
    LowerBoundSign(s, root);
    BoundsTimes(s, root);
    BoundsTimes(Swapped(s), root);
    var a, d, p := LeadingTerm(s), LeadingTerm(Swapped(s)), s.b * s.c;
    assert Swapped(s).b * Swapped(s).c == p;
    RadicandIs(s);
    var low, high, low', high' := Low(s, root), High(s, root), Low(Swapped(s), root), High(Swapped(s), root);
    assert (p - root) * (p + root) == p * p - root * root == a * d;
    assert low <= high by { ScaledOrder(a, low, high, p, root); }
    Reciprocal(a, d, high, low', p + root, p - root);
    Reciprocal(a, d, low, high', p - root, p + root);
    ReciprocalOrder(high);
    ReciprocalOrder(low);
  }

  lemma {:induction false} RadicandIs(s: Sample)
    ensures Radicand(s) == (s.b * s.c) * (s.b * s.c) - LeadingTerm(s) * ConstantTerm(s)
  {
  }

  lemma {:induction false} ScaledOrder(a: real, low: real, high: real, p: real, root: real)
    requires a > 0.0 && root >= 0.0 && a * low == p - root && a * high == p + root
    ensures low <= high
  {
    assert a * (high - low) == a * high - a * low;
  }

  lemma {:induction false} Reciprocal(a: real, d: real, x: real, y: real, u: real, v: real)
    requires a > 0.0 && d > 0.0 && x > 0.0 && a * x == u && d * y == v && u * v == a * d
    ensures y == 1.0 / x
  {
    var m, z := a * d, x * y;
    FourFactors(a, x, d, y);
    assert (a * x) * (d * y) == u * v by { SameProduct(a * x, u, d * y, v); }
    assert m * z == u * v;
    assert m * z == m;
    PositiveProduct(a, d);
    Cancel(m, z);
  }

  lemma {:induction false} SameProduct(x: real, x': real, y: real, y': real)
    requires x == x' && y == y'
    ensures x * y == x' * y'
  {
  }

  lemma {:induction false} FourFactors(a: real, x: real, d: real, y: real)
    ensures (a * x) * (d * y) == (a * d) * (x * y)
  {
  }

  lemma {:induction false} Cancel(m: real, z: real)
    requires m > 0.0 && m * z == m
    ensures z == 1.0
  {
    assert m * (z - 1.0) == 0.0;
  }

  lemma {:induction false} ReciprocalOrder(x: real)
    requires x > 0.0
    ensures 1.0 / x > 0.0
    ensures x < 1.0 <==> 1.0 / x > 1.0
    ensures x > 1.0 <==> 1.0 / x < 1.0
  {
    var y := 1.0 / x;
    assert x * y == 1.0;
    PositiveFactor(x, y);
    if x < 1.0 { assert x * y < y; }
    if x > 1.0 { assert x * y > y; }
  }

  // ---- The computation ---------------------------------------------------------------------------

  /** Both means usable and at least two samples each. */
  predicate Measured(b: Metric, c: Metric, t: Option<real>) {
    && b.issue.None? && c.issue.None? && b.point.Some? && c.point.Some? && b.point.value > 0.0
    && b.count >= 2 && c.count >= 2 && b.variance.Some? && c.variance.Some? && t.Some?
    && b.variance.value >= 0.0 && c.variance.value >= 0.0
  }

  /**
   The estimate of two measured endpoints: an interval exactly when the leading term is positive, and then it is
   the set of plausible ratios, holds the point, and is classed by whether it rejects a ratio of one.
   */
  lemma {:induction false} EstimateIsFieller(b: Metric, c: Metric, t: Option<real>, root: real)
    requires Measured(b, c, t)
    requires LeadingTerm(SampleOf(b, c, t.value)) > 0.0 ==> IsRoot(root, Radicand(SampleOf(b, c, t.value)))
    ensures RatioEstimate(b, c, t, root).Success?
    ensures
      var s, e := SampleOf(b, c, t.value), RatioEstimate(b, c, t, root).value;
      && e.point == Some(s.c / s.b)
      && (e.low.Some? <==> LeadingTerm(s) > 0.0) && (e.high.Some? <==> e.low.Some?) && (e.issue.None? <==> e.low.Some?)
      && (e.low.None? ==> e.grade == PointOnly)
      && (e.low.Some? ==>
            && e.low.value <= e.point.value <= e.high.value
            && (forall r :: e.low.value <= r <= e.high.value <==> Plausible(s, r))
            && (e.grade == Unclear <==> (s.c - s.b) * (s.c - s.b) <= s.t2 * (s.vc + s.vb))
            && (e.grade == Lower <==> (s.c - s.b) * (s.c - s.b) > s.t2 * (s.vc + s.vb) && s.c < s.b)
            && (e.grade == Higher <==> (s.c - s.b) * (s.c - s.b) > s.t2 * (s.vc + s.vb) && s.c > s.b))
  {
    hide LeadingTerm, Radicand, Plausible, Classify, IsRoot;
    var s := SampleOf(b, c, t.value);
    SquareNonNegative(t.value);
    if LeadingTerm(s) > 0.0 {
      RadicandNonNegative(s);
      PointInInterval(s, root);
      ClassesAreTests(s, root);
      forall r ensures Low(s, root) <= r <= High(s, root) <==> Plausible(s, r) { IntervalIsSolutionSet(s, root, r); }
      var e := RatioEstimate(b, c, t, root).value;
      assert e.point == Some(s.c / s.b) && e.low == Some(Low(s, root)) && e.high == Some(High(s, root));
    }
  }
}
