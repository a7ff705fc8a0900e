/** Weighted scoring. */
module Scoring {
  // The rating is kept in hundredths of a percent, exactly.

  datatype Response = Yes | No | NA

  datatype Severity = Critical | Major | Minor

  datatype Band = Satisfactory | NeedsImprovement | CriticalIssues

  datatype ScoredCheckpoint = ScoredCheckpoint(weight: nat, response: Response)

  datatype FindingLike = FindingLike(severity: Severity, open: bool)

  datatype RatingBands = RatingBands(satisfactoryMin: real, needsImprovementMin: real)

  datatype RatingResult = RatingResult(
    hundredths: nat,
    displayPercent: nat,
    band: Band,
    weightedYes: nat,
    weightedAnswered: nat)

  // ------------------------------------------------------- specification

  function WeightedYes(cs: seq<ScoredCheckpoint>): nat {
    if cs == [] then 0
    else WeightedYes(cs[..|cs| - 1]) + (if cs[|cs| - 1].response.Yes? then cs[|cs| - 1].weight else 0)
  }

  function WeightedAnswered(cs: seq<ScoredCheckpoint>): nat {
    if cs == [] then 0
    else WeightedAnswered(cs[..|cs| - 1]) + (if cs[|cs| - 1].response.NA? then 0 else cs[|cs| - 1].weight)
  }

  /** `Math.round(p / q)` for p >= 0. */
  function RoundRatio(p: nat, q: nat): nat
    requires q > 0
  {
    (2 * p + q) / (2 * q)
  }

  function Hundredths(yes: nat, answered: nat): nat {
    if answered == 0 then 0 else RoundRatio(10000 * yes, answered)
  }

  predicate HasOpen(findings: seq<FindingLike>, severity: Severity) {
    exists i | 0 <= i < |findings| :: findings[i] == FindingLike(severity, true)
  }

  function BandFor(hundredths: nat, critical: bool, major: bool, bands: RatingBands): Band {
    var percent := hundredths as real / 100.0;
    if critical || percent < bands.needsImprovementMin then CriticalIssues
    else if major || percent < bands.satisfactoryMin then NeedsImprovement
    else Satisfactory
  }

  function Score(cs: seq<ScoredCheckpoint>, findings: seq<FindingLike>, bands: RatingBands): RatingResult {
    var yes, answered := WeightedYes(cs), WeightedAnswered(cs);
    var h := Hundredths(yes, answered);
    RatingResult(h, RoundRatio(h, 100), BandFor(h, HasOpen(findings, Critical), HasOpen(findings, Major), bands),
                 yes, answered)
  }

  method ScoreInspection(cs: seq<ScoredCheckpoint>, findings: seq<FindingLike>, bands: RatingBands)
    returns (r: RatingResult)
    ensures r == Score(cs, findings, bands)
  {
    var weightedYes: nat, weightedAnswered: nat := 0, 0;
    for i := 0 to |cs|
      invariant weightedYes == WeightedYes(cs[..i]) && weightedAnswered == WeightedAnswered(cs[..i])
    {
      assert cs[..i + 1][..i] == cs[..i];
      if cs[i].response.NA? {
        continue;
      }
      weightedAnswered := weightedAnswered + cs[i].weight;
      if cs[i].response.Yes? {
        weightedYes := weightedYes + cs[i].weight;
      }
    }
    assert cs[..|cs|] == cs;
    var h := if weightedAnswered == 0 then 0 else RoundRatio(10000 * weightedYes, weightedAnswered);
    var display := RoundRatio(h, 100);
    var critical := HasOpen(findings, Critical);
    var major := HasOpen(findings, Major);
    r := RatingResult(h, display, BandFor(h, critical, major, bands), weightedYes, weightedAnswered);
  }

  // -------------------------------------------------------------- bounds

  lemma {:induction false} YesWithinAnswered(cs: seq<ScoredCheckpoint>)
    ensures WeightedYes(cs) <= WeightedAnswered(cs)
  {
    if cs != [] {
      YesWithinAnswered(cs[..|cs| - 1]);
    }
  }

  /** Rounding moves a ratio by at most one half. */
  lemma {:induction false} RoundIsNear(p: nat, q: nat)
    requires q > 0
    ensures 2 * p - q < 2 * q * RoundRatio(p, q) <= 2 * p + q
  {
    var n, d := 2 * p + q, 2 * q;
    assert n == d * (n / d) + n % d;
  }

  lemma {:induction false} ScaleUp(k: nat, a: int, b: int)
    requires a <= b
    ensures k * a <= k * b
  {
  }

  lemma {:induction false} Cancel(k: nat, a: int, b: int)
    requires k > 0 && k * a <= k * b
    ensures a <= b
  {
    if a > b {
      ScaleUp(k, b + 1, a);
    }
  }

  lemma {:induction false} FloorIsMonotone(x: nat, y: nat, u: nat, v: nat)
    requires y > 0 && v > 0 && x * v <= u * y
    ensures x / y <= u / v
  {
    var k := x / y;
    ScaleUp(v, y * k, x);
    assert y * (v * k) == v * (y * k);
    Cancel(y, v * k, u);
    QuotientAtLeast(u, v, k);
  }

  lemma {:induction false} QuotientAtLeast(x: nat, y: nat, k: nat)
    requires y > 0 && y * k <= x
    ensures k <= x / y
  {
    if x / y < k {
      ScaleUp(y, x / y + 1, k);
    }
  }

  /** ... and keeps order. */
  lemma {:induction false} RoundIsMonotone(p: nat, q: nat, r: nat, s: nat)
    requires q > 0 && s > 0 && p * s <= r * q
    ensures RoundRatio(p, q) <= RoundRatio(r, s)
  {
    assert (2 * p + q) * (2 * s) == 4 * (p * s) + 2 * (q * s);
    assert (2 * r + s) * (2 * q) == 4 * (r * q) + 2 * (q * s);
    FloorIsMonotone(2 * p + q, 2 * q, 2 * r + s, 2 * s);
  }

  /** -0.005 < h/100 - 100 y/a <= 0.005, scaled by 200 a: halves are rounded up. */
  predicate WithinHalfHundredth(h: int, y: int, a: int) {
    -a < 2 * h * a - 20000 * y <= a
  }

  /** |d - 100 y/a| <= 0.505, scaled by 200 a. */
  predicate WithinDisplay(d: int, y: int, a: int) {
    -101 * a <= 200 * d * a - 20000 * y <= 101 * a
  }

  /** The rating is a percentage, the hundredth nearest to the exact ratio, the upper of two;
      the displayed whole percent is that nearest to the rating, the upper of two, and within
      0.505 of the ratio. */
  lemma {:induction false} RatingIsAccurate(cs: seq<ScoredCheckpoint>, findings: seq<FindingLike>, bands: RatingBands)
    ensures var r := Score(cs, findings, bands);
            && r.hundredths <= 10000 && r.displayPercent <= 100
            && (r.weightedAnswered == 0 ==> r.hundredths == 0 && r.displayPercent == 0)
            && (r.weightedAnswered > 0 ==> WithinHalfHundredth(r.hundredths, r.weightedYes, r.weightedAnswered))
            && -50 < 100 * r.displayPercent - r.hundredths <= 50
            && WithinDisplay(r.displayPercent, r.weightedYes, r.weightedAnswered)
  {
    var y, a := WeightedYes(cs), WeightedAnswered(cs);
    YesWithinAnswered(cs);
    RoundIsNear(Hundredths(y, a), 100);
    if a > 0 {
      HundredthsAreNear(y, a);
      DisplayIsNear(Hundredths(y, a), y, a);
    }
  }

  lemma {:induction false} HundredthsAreNear(y: nat, a: nat)
    requires y <= a && a > 0
    ensures Hundredths(y, a) <= 10000 && WithinHalfHundredth(Hundredths(y, a), y, a)
  {
    RoundIsNear(10000 * y, a);
    RoundIsMonotone(10000 * y, a, 10000, 1);
    assert 2 * a * Hundredths(y, a) == 2 * Hundredths(y, a) * a;
  }

  lemma {:induction false} DisplayIsNear(h: nat, y: nat, a: nat)
    requires h <= 10000 && WithinHalfHundredth(h, y, a)
    ensures RoundRatio(h, 100) <= 100 && WithinDisplay(RoundRatio(h, 100), y, a)
  {
    var d := RoundRatio(h, 100);
    RoundIsNear(h, 100);
    ScaleUp(a, -100, 200 * d - 2 * h);
    ScaleUp(a, 200 * d - 2 * h, 100);
    assert a * (200 * d - 2 * h) == 200 * d * a - 2 * h * a;
  }

  // ----------------------------------------------------------------- sums

  /** What two checklists weigh together is the sum of what they weigh, and one line weighs
      what the instrument gives it, answered unless it is N/A and towards the rating when it
      is Yes. */
  lemma {:induction false} WeightsAddUp(a: seq<ScoredCheckpoint>, b: seq<ScoredCheckpoint>, c: ScoredCheckpoint)
    ensures WeightedYes(a + b) == WeightedYes(a) + WeightedYes(b)
    ensures WeightedAnswered(a + b) == WeightedAnswered(a) + WeightedAnswered(b)
    ensures WeightedYes([]) == 0 == WeightedAnswered([])
    ensures WeightedYes([c]) == match c.response case Yes => c.weight case No => 0 case NA => 0
    ensures WeightedAnswered([c]) == match c.response case Yes => c.weight case No => c.weight case NA => 0
  {
    if b == [] {
      assert a + b == a;
    } else {
      var n := |b| - 1;
      assert (a + b)[..|a| + n] == a + b[..n];
      WeightsAddUp(a, b[..n], c);
    }
    assert [c][..0] == [];
  }

  // ------------------------------------------------------------ monotone

  /** One line of a checklist: the answer, and what a No would raise. */
  datatype Line = Line(weight: nat, response: Response, severityOnFail: Severity)

  function Scored(lines: seq<Line>): (cs: seq<ScoredCheckpoint>)
    ensures |cs| == |lines|
  {
    seq(|lines|, i requires 0 <= i < |lines| => ScoredCheckpoint(lines[i].weight, lines[i].response))
  }

  /** One open finding per No answer. */
  function Raised(lines: seq<Line>): seq<FindingLike> {
    if lines == [] then []
    else Raised(lines[..|lines| - 1])
         + (if lines[|lines| - 1].response.No? then [FindingLike(lines[|lines| - 1].severityOnFail, true)] else [])
  }

  function Rating(lines: seq<Line>, bands: RatingBands): RatingResult {
    Score(Scored(lines), Raised(lines), bands)
  }

  lemma {:induction false} RaisedFromNo(lines: seq<Line>, severity: Severity)
    ensures HasOpen(Raised(lines), severity) <==>
            exists i | 0 <= i < |lines| :: lines[i].response.No? && lines[i].severityOnFail == severity
  {
    if lines != [] {
      var n := |lines| - 1;
      var before, last := Raised(lines[..n]), Raised(lines)[|Raised(lines[..n])|..];
      RaisedFromNo(lines[..n], severity);
      assert Raised(lines) == before + last;
      if HasOpen(before, severity) {
        var i :| 0 <= i < |before| && before[i] == FindingLike(severity, true);
        assert Raised(lines)[i] == before[i];
      }
      if last != [] {
        assert Raised(lines)[|before|] == last[0];
      }
      forall i | 0 <= i < |lines| && lines[i].response.No? && lines[i].severityOnFail == severity
        ensures HasOpen(Raised(lines), severity)
      {
        if i < n {
          assert lines[..n][i] == lines[i];
        }
      }
    }
  }

  /** Some line is answered No whose checkpoint is this severe. */
  ghost predicate SomeNo(lines: seq<Line>, severity: Severity) {
    exists i :: 0 <= i < |lines| && lines[i].response.No? && lines[i].severityOnFail == severity
  }

  /** Critical issues: a critical line is answered No, or the rating is below the lower bound.
      Satisfactory: no critical and no major line is, and the rating is at both bounds. */
  lemma {:induction false} BandExactlyWhen(lines: seq<Line>, bands: RatingBands)
    ensures var r := Rating(lines, bands);
            && (r.band.CriticalIssues? <==>
                  SomeNo(lines, Critical) || r.hundredths as real < 100.0 * bands.needsImprovementMin)
            && (r.band.Satisfactory? <==>
                  && !SomeNo(lines, Critical) && !SomeNo(lines, Major)
                  && r.hundredths as real >= 100.0 * bands.needsImprovementMin
                  && r.hundredths as real >= 100.0 * bands.satisfactoryMin)
  {
    RaisedFromNo(lines, Critical);
    RaisedFromNo(lines, Major);
  }

  lemma {:induction false} SumsAfterUpdate(cs: seq<ScoredCheckpoint>, i: nat, c: ScoredCheckpoint)
    requires i < |cs|
    ensures WeightedYes(cs[i := c]) - WeightedYes([c]) == WeightedYes(cs) - WeightedYes([cs[i]])
    ensures WeightedAnswered(cs[i := c]) - WeightedAnswered([c]) == WeightedAnswered(cs) - WeightedAnswered([cs[i]])
  {
    var n := |cs| - 1;
    if i < n {
      SumsAfterUpdate(cs[..n], i, c);
      assert cs[i := c][..n] == cs[..n][i := c];
    } else {
      assert cs[i := c][..n] == cs[..n];
    }
  }

  /** An N/A line changes nothing: not the rating, not the band. */
  lemma {:induction false} NotApplicableChangesNothing(lines: seq<Line>, line: Line, bands: RatingBands)
    requires line.response.NA?
    ensures Rating(lines + [line], bands) == Rating(lines, bands)
  {
    var more := lines + [line];
    assert more[..|lines|] == lines;
    assert Scored(more)[..|lines|] == Scored(lines);
    assert Raised(more) == Raised(lines);
  }

  function Rank(b: Band): nat {
    match b
    case Satisfactory => 0
    case NeedsImprovement => 1
    case CriticalIssues => 2
  }

  /** Correcting a No to Yes or N/A never lowers the rating and never worsens the band,
      once the findings are derived again. */
  lemma {:induction false} CorrectionNeverHurts(lines: seq<Line>, i: nat, response: Response, bands: RatingBands)
    requires i < |lines| && lines[i].response.No? && !response.No?
    ensures var after := Rating(lines[i := lines[i].(response := response)], bands);
            && after.hundredths >= Rating(lines, bands).hundredths
            && Rank(after.band) <= Rank(Rating(lines, bands).band)
  {
    var fixed := lines[i := lines[i].(response := response)];
    var c := ScoredCheckpoint(lines[i].weight, response);
    assert Scored(fixed) == Scored(lines)[i := c];
    CorrectionRaises(Scored(lines), i, c);
    FindingsShrink(lines, fixed, i, Critical);
    FindingsShrink(lines, fixed, i, Major);
    BandFollows(Rating(lines, bands).hundredths, Rating(fixed, bands).hundredths, Raised(lines), Raised(fixed), bands);
  }

  /** A rating no lower and findings no worse give a band no worse. */
  lemma {:induction false} BandFollows(
      h: nat, k: nat, before: seq<FindingLike>, after: seq<FindingLike>, bands: RatingBands)
    requires h <= k
    requires HasOpen(after, Critical) ==> HasOpen(before, Critical)
    requires HasOpen(after, Major) ==> HasOpen(before, Major)
    ensures Rank(BandFor(k, HasOpen(after, Critical), HasOpen(after, Major), bands))
         <= Rank(BandFor(h, HasOpen(before, Critical), HasOpen(before, Major), bands))
  {
  }

  lemma {:induction false} CorrectionRaises(cs: seq<ScoredCheckpoint>, i: nat, c: ScoredCheckpoint)
    requires i < |cs| && cs[i].response.No? && c.weight == cs[i].weight && !c.response.No?
    ensures Hundredths(WeightedYes(cs), WeightedAnswered(cs))
         <= Hundredths(WeightedYes(cs[i := c]), WeightedAnswered(cs[i := c]))
  {
    var y, a := WeightedYes(cs), WeightedAnswered(cs);
    var z, b := WeightedYes(cs[i := c]), WeightedAnswered(cs[i := c]);
    SumsAfterUpdate(cs, i, c);
    YesWithinAnswered(cs[i := c]);
    if a > 0 && b == 0 {
      RoundIsNear(0, a);
    }
    if a > 0 && b > 0 {
      CorrectedRatio(y, a, z, b, c.weight);
      RoundIsMonotone(10000 * y, a, 10000 * z, b);
    }
  }

  lemma {:induction false} CorrectedRatio(y: nat, a: nat, z: nat, b: nat, w: nat)
    requires (z == y + w && b == a) || (z == y && a == b + w)
    ensures (10000 * y) * b <= (10000 * z) * a
  {
    if b == a {
      ScaleUp(a, 10000 * y, 10000 * z);
    } else {
      ScaleUp(10000 * y, b, a);
    }
  }

  lemma {:induction false} FindingsShrink(lines: seq<Line>, fixed: seq<Line>, i: nat, severity: Severity)
    requires i < |lines| == |fixed| && fixed == lines[i := fixed[i]] && !fixed[i].response.No?
    ensures HasOpen(Raised(fixed), severity) ==> HasOpen(Raised(lines), severity)
  {
    RaisedFromNo(lines, severity);
    RaisedFromNo(fixed, severity);
  }
}
