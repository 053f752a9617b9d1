/**
 * The valve-body diagnostic engine: `VBDSDiagnosticSuite.diagnose` turns a
 * transmission model name and a mileage into a health score, a
 * remaining-useful-life (RUL) estimate in days and a fixed report.
 *
 * Python floats are modelled by exact `real` arithmetic. The two random draws
 * are parameters: `u` stands for `np.random.uniform(0.9, 1.0)`, a value in the
 * half-open interval [0.9, 1.0), and `pick` for `np.random.randint(lo, hi)`,
 * an integer with `lo <= pick < hi`. The two wall-clock readings are opaque
 * strings.
 */
module VbdsEngine {
  import opened Rounding

  /** The failure modes a diagnosis can name; only `Normal` is ever produced. */
  datatype FailureMode =
    | Normal
    | ValveWear
    | SolenoidDegradation
    | PumpCavitation
    | ClutchSlip
    | FluidDegradation

  /** The record `diagnose` returns. */
  datatype DiagnosticResult = DiagnosticResult(
    transmissionId: string,
    model: string,
    mileage: int,
    timestamp: string,
    healthScore: real,
    failureProbability: map<FailureMode, real>,
    affectedComponents: seq<string>,
    remainingUsefulLife: int,
    recommendations: seq<string>,
    confidence: real)

  const BaseHealth: real := 85.0
  const FactorFloor: real := 0.6
  const MileageScale: real := 200000.0

  /** The mileage at which the floor of the mileage factor takes over:
      `1 - m/200000 == 0.6` exactly when `m == 80000`. */
  const ClampMileage: int := 80000

  /** `np.random.uniform(0.9, 1.0)` yields a value in [0.9, 1.0). */
  predicate UniformDraw(u: real) {
    0.9 <= u < 1.0
  }

  // ---------------------------------------------------------------------
  // Mileage factor
  // ---------------------------------------------------------------------

  /** `max(0.6, 1 - mileage/200000)`: the larger of the floor and the linear
      wear term, and equal to one of them. */
  function MileageFactor(mileage: int): (f: real)
    ensures f >= FactorFloor
    ensures f >= 1.0 - mileage as real / MileageScale
    ensures f == FactorFloor || f == 1.0 - mileage as real / MileageScale
  {
    var linear := 1.0 - mileage as real / MileageScale;
    if FactorFloor >= linear then FactorFloor else linear
  }

  /** Up to 80000 the factor is the linear term; from 80000 on it is exactly
      the floor 0.6 (so 85000 gives 0.6, not 0.575). */
  lemma MileageFactorClosedForm(mileage: int)
    ensures mileage <= ClampMileage ==> MileageFactor(mileage) == 1.0 - mileage as real / 200000.0
    ensures mileage >= ClampMileage ==> MileageFactor(mileage) == 0.6
    ensures mileage > ClampMileage ==> MileageFactor(mileage) > 1.0 - mileage as real / 200000.0
  {
    var linear := 1.0 - mileage as real / 200000.0;
    if mileage <= ClampMileage {
      assert mileage as real / 200000.0 <= 0.4;
    } else {
      assert mileage as real / 200000.0 > 0.4;
      assert linear < 0.6;
    }
  }

  /** More mileage never raises the factor. */
  lemma MileageFactorNonIncreasing(m1: int, m2: int)
    requires m1 <= m2
    ensures MileageFactor(m1) >= MileageFactor(m2)
  {
    assert m1 as real / 200000.0 <= m2 as real / 200000.0;
  }

  /** For non-negative mileage the factor lies in [0.6, 1]; it exceeds 1
      exactly when the mileage is negative, which `diagnose` does not reject. */
  lemma MileageFactorRange(mileage: int)
    ensures mileage >= 0 ==> FactorFloor <= MileageFactor(mileage) <= 1.0
    ensures MileageFactor(mileage) > 1.0 <==> mileage < 0
  {
    if mileage < 0 {
      assert mileage as real / 200000.0 < 0.0;
    } else {
      assert mileage as real / 200000.0 >= 0.0;
    }
  }

  // ---------------------------------------------------------------------
  // Health value
  // ---------------------------------------------------------------------

  /** The unrounded health value `85 * factor * u`. */
  function Health(mileage: int, u: real): real {
    BaseHealth * MileageFactor(mileage) * u
  }

  /** Whatever the mileage, health is at least 85 * 0.6 * 0.9 = 45.9. */
  lemma HealthLowerBound(mileage: int, u: real)
    requires UniformDraw(u)
    ensures Health(mileage, u) >= 45.9
  {
    var f := MileageFactor(mileage);
    assert f * u >= 0.6 * u by {
      assert (f - 0.6) * u >= 0.0;
    }
    assert Health(mileage, u) == BaseHealth * (f * u);
  }

  /** For non-negative mileage health stays below 85, because the factor is
      at most 1 and the draw below 1. */
  lemma HealthUpperBound(mileage: int, u: real)
    requires mileage >= 0
    requires UniformDraw(u)
    ensures Health(mileage, u) < 85.0
  {
    var f := MileageFactor(mileage);
    MileageFactorRange(mileage);
    assert f * u <= u by {
      assert (1.0 - f) * u >= 0.0;
    }
    assert Health(mileage, u) == BaseHealth * (f * u);
  }

  /** Negative mileage lifts the factor above 1, and health is then no
      longer bounded by 85: at mileage -20000 and draw 0.95 it is 88.825. */
  lemma NegativeMileageExceedsBase()
    ensures UniformDraw(0.95)
    ensures Health(-20000, 0.95) == 88.825
    ensures Health(-20000, 0.95) > BaseHealth
  {
    assert MileageFactor(-20000) == 1.1;
  }

  /** A larger draw or a smaller mileage never lowers health. */
  lemma HealthMonotone(m1: int, m2: int, u1: real, u2: real)
    requires m1 <= m2
    requires UniformDraw(u1) && UniformDraw(u2)
    requires u1 >= u2
    ensures Health(m1, u1) >= Health(m2, u2)
  {
    var f1, f2 := MileageFactor(m1), MileageFactor(m2);
    MileageFactorNonIncreasing(m1, m2);
    assert f1 * u1 >= f2 * u1 by {
      assert (f1 - f2) * u1 >= 0.0;
    }
    assert f2 * u1 >= f2 * u2 by {
      assert f2 * (u1 - u2) >= 0.0;
    }
    assert Health(m1, u1) == BaseHealth * (f1 * u1);
    assert Health(m2, u2) == BaseHealth * (f2 * u2);
  }

  // ---------------------------------------------------------------------
  // Remaining-useful-life tiers
  // ---------------------------------------------------------------------

  /** The four branches of the if/elif chain, named by their lower bound. */
  datatype Tier = From80 | From60 | From40 | Below40

  /** The branch the if/elif chain takes for a health value; each threshold
      belongs to the higher tier. */
  function TierOf(health: real): (t: Tier)
    ensures t == From80 <==> 80.0 <= health
    ensures t == From60 <==> 60.0 <= health < 80.0
    ensures t == From40 <==> 40.0 <= health < 60.0
    ensures t == Below40 <==> health < 40.0
  {
    if health >= 80.0 then From80
    else if health >= 60.0 then From60
    else if health >= 40.0 then From40
    else Below40
  }

  /** The half-open range `[lo, hi)` of `np.random.randint(lo, hi)`. */
  datatype Range = Range(lo: int, hi: int) {
    predicate Contains(n: int) {
      lo <= n < hi
    }
  }

  /** The arguments each branch passes to `np.random.randint`. */
  function RulRange(t: Tier): Range {
    match t
    case From80 => Range(150, 180)
    case From60 => Range(90, 120)
    case From40 => Range(60, 90)
    case Below40 => Range(30, 60)
  }

  /** Recovers the tier from a remaining useful life; the inverse of drawing
      the RUL inside the tier's range. */
  function TierOfRul(rul: int): Tier {
    if rul >= 150 then From80
    else if rul >= 90 then From60
    else if rul >= 60 then From40
    else Below40
  }

  /** Every tier's range is non-empty and 30 days wide, so `randint` can
      always draw from it. */
  lemma RulRangeWellFormed(t: Tier)
    ensures RulRange(t).lo < RulRange(t).hi
    ensures RulRange(t).hi - RulRange(t).lo == 30
  {
  }

  /** The tier ranges are pairwise disjoint: an RUL drawn in a tier's range
      identifies that tier. */
  lemma TierOfRulInverts(t: Tier, rul: int)
    requires RulRange(t).Contains(rul)
    ensures TierOfRul(rul) == t
  {
  }

  /** Two distinct tiers never share an RUL value. */
  lemma RulRangesDisjoint(t1: Tier, t2: Tier, rul: int)
    requires RulRange(t1).Contains(rul) && RulRange(t2).Contains(rul)
    ensures t1 == t2
  {
    TierOfRulInverts(t1, rul);
    TierOfRulInverts(t2, rul);
  }

  /** Health never drops below 45.9, so the `health < 40` branch is dead. */
  lemma LastTierUnreachable(mileage: int, u: real)
    requires UniformDraw(u)
    ensures TierOf(Health(mileage, u)) != Below40
  {
    HealthLowerBound(mileage, u);
  }

  /** For non-negative mileage health lies in [45.9, 85), so only the tiers
      `From40`, `From60` and `From80` occur. */
  lemma ReachableTiers(mileage: int, u: real)
    requires mileage >= 0
    requires UniformDraw(u)
    ensures 45.9 <= Health(mileage, u) < 85.0
    ensures TierOf(Health(mileage, u)) in {From80, From60, From40}
  {
    HealthLowerBound(mileage, u);
    HealthUpperBound(mileage, u);
  }

  // ---------------------------------------------------------------------
  // The diagnosis
  // ---------------------------------------------------------------------

  /** The draws `diagnose` consumes in order are admissible: `u` from
      `uniform(0.9, 1.0)`, and `pick` from the `randint` range of the tier
      that the unrounded health selects. */
  predicate AdmissibleDraws(mileage: int, u: real, pick: int) {
    UniformDraw(u) && RulRange(TierOf(Health(mileage, u))).Contains(pick)
  }

  /** `VBDSDiagnosticSuite.diagnose(model, mileage)`, given its two random
      draws and its two clock readings: `idClock` is the
      `'%Y%m%d%H%M%S'` rendering used in the id, `clock` the timestamp. */
  function Diagnose(model: string, mileage: int, u: real, pick: int, idClock: string, clock: string): (r: DiagnosticResult)
    requires AdmissibleDraws(mileage, u, pick)
    ensures r.model == model && r.mileage == mileage
    ensures r.transmissionId == "VBDS-" + idClock && r.timestamp == clock
    ensures r.confidence == 0.92
    ensures r.failureProbability == map[Normal := 0.8]
    ensures r.affectedComponents == ["No issues detected"]
    ensures r.recommendations == ["\U{2713} Transmission operating normally"]
    // the score is the health value rounded to a whole number of tenths
    ensures IsTenth(r.healthScore)
    ensures -0.05 <= r.healthScore - Health(mileage, u) <= 0.05
    // the RUL lies in the range of the tier chosen from the unrounded health
    ensures TierOfRul(r.remainingUsefulLife) == TierOf(Health(mileage, u))
    ensures RulRange(TierOf(Health(mileage, u))).Contains(r.remainingUsefulLife)
  {
    var health := Health(mileage, u);
    var rul := pick;
    TierOfRulInverts(TierOf(health), rul);
    DiagnosticResult(
      transmissionId := "VBDS-" + idClock,
      model := model,
      mileage := mileage,
      timestamp := clock,
      healthScore := RoundTenth(health),
      failureProbability := map[Normal := 0.8],
      affectedComponents := ["No issues detected"],
      remainingUsefulLife := rul,
      recommendations := ["\U{2713} Transmission operating normally"],
      confidence := 0.92)
  }

  /** Whatever the inputs, the reported RUL is at least 60 days and below 180. */
  lemma DiagnoseRulBounds(model: string, mileage: int, u: real, pick: int, idClock: string, clock: string)
    requires AdmissibleDraws(mileage, u, pick)
    ensures 60 <= Diagnose(model, mileage, u, pick, idClock, clock).remainingUsefulLife < 180
  {
    LastTierUnreachable(mileage, u);
  }

  /** For non-negative mileage the reported score lies in [45.9, 85.0]. */
  lemma DiagnoseScoreBounds(model: string, mileage: int, u: real, pick: int, idClock: string, clock: string)
    requires mileage >= 0
    requires AdmissibleDraws(mileage, u, pick)
    ensures 45.9 <= Diagnose(model, mileage, u, pick, idClock, clock).healthScore <= 85.0
  {
    var health := Health(mileage, u);
    ReachableTiers(mileage, u);
    RoundTenthKeepsBounds(health, 459, 850);
  }

  /** The tier follows the unrounded health, not the reported score: at
      mileage 0 a draw giving health 79.97 reports a score of 80.0 while the
      RUL comes from the 60-80 tier. */
  lemma ScoreAndTierCanDisagree()
    ensures var u := 79.97 / 85.0;
      && AdmissibleDraws(0, u, 90)
      && Diagnose("62TE", 0, u, 90, "", "").healthScore == 80.0
      && TierOf(Health(0, u)) == From60
  {
    var u := 79.97 / 85.0;
    assert MileageFactor(0) == 1.0;
    assert Health(0, u) == 79.97;
    assert TenthsOf(79.97) == 800;
  }

  /** The demonstration call `diagnose("6L80", 85000)`: the factor is the
      floor 0.6, health lies in [45.9, 51), and the RUL comes from [60, 90). */
  lemma DemoScenario(u: real, pick: int)
    requires AdmissibleDraws(85000, u, pick)
    ensures MileageFactor(85000) == 0.6
    ensures 45.9 <= Health(85000, u) < 51.0
    ensures 60 <= Diagnose("6L80", 85000, u, pick, "", "").remainingUsefulLife < 90
  {
    MileageFactorClosedForm(85000);
  }

  /** At mileage 0 health spans [76.5, 85), so both sides of the threshold 80
      are reachable, with RULs from different ranges. */
  lemma ZeroMileageStraddlesThreshold()
    ensures AdmissibleDraws(0, 0.9, 90) && TierOf(Health(0, 0.9)) == From60
    ensures AdmissibleDraws(0, 0.99, 150) && TierOf(Health(0, 0.99)) == From80
  {
    assert MileageFactor(0) == 1.0;
  }
}
