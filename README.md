# VBDS diagnostic engine in Dafny

This project models the diagnostic core of the Valve Body Diagnostic Suite,
`VBDSDiagnosticSuite.diagnose` in `vbds_engine.py`. Given a transmission
model name and a mileage, `diagnose` does the following:

- it computes a mileage factor `max(0.6, 1 - mileage/200000)`;
- it draws `u` uniformly from [0.9, 1.0) and forms the health value
  `85 * factor * u`;
- it picks a remaining-useful-life (RUL) tier from that unrounded health at
  the thresholds 80, 60 and 40, and draws the RUL with `randint` from the
  tier's half-open range;
- it returns a `DiagnosticResult` with the health rounded to one decimal
  place, and with fixed or echoed values in every other field.

The model is two modules of pure functions over exact `real` arithmetic:

- `Rounding` (`rounding.dfy`) models Python's `round(x, 1)`: the nearest
  whole number of tenths, with ties going to the even tenth.
- `VbdsEngine` (`vbds_engine.dfy`) holds `FailureMode`, `DiagnosticResult`,
  the mileage factor, the health value, the tiers and `Diagnose`.

The random draws are parameters of `Diagnose`:

- `u` must satisfy `0.9 <= u < 1.0`, the range of `np.random.uniform(0.9, 1.0)`;
- `pick` must satisfy `lo <= pick < hi` for the `randint(lo, hi)` call of
  the branch taken.

The clock is modelled by two opaque strings. One is the `%Y%m%d%H%M%S`
text put after `VBDS-` in the id. The other is the timestamp.

Facts the code implies but never states, all proved here:

- The clamp of the mileage factor engages at 80000, not 200000: at 85000 the
  factor is 0.6, not 0.575.
- For every mileage, health is at least 45.9. So the `health < 40` branch is
  dead and the RUL is never below 60 days.
- For non-negative mileage, health lies in [45.9, 85) and the reported score
  in [45.9, 85.0].
- Negative mileage is accepted. It makes the factor exceed 1, and health can
  then exceed 85.
- The tier is chosen from the unrounded health, so the reported score and
  the RUL tier can disagree. A health of 79.97 reports 80.0 but draws its RUL
  from the 60-80 tier.
- The `randint` upper bounds are exclusive: the tier ranges are [150,180),
  [90,120), [60,90) and [30,60), each 30 days wide and pairwise disjoint.

## Model

| member | source | states |
|---|---|---|
| `Rounding.TenthsOf` | vbds_engine.py:69 | the number of tenths chosen by `round(x, 1)` is within half a tenth of `10*x` |
| `Rounding.RoundTenth` | vbds_engine.py:69 | `round(health, 1)` is a whole number of tenths within 0.05 of its argument |
| `Rounding.RoundTenthNearest` | vbds_engine.py:69 | no whole number of tenths is closer to `x` than `round(x, 1)` |
| `Rounding.RoundTenthTiesToEven` | vbds_engine.py:69 | on an exact tie the rounded value is an even number of tenths |
| `Rounding.RoundTenthIdempotent` | vbds_engine.py:69 | a value that is already a whole number of tenths is unchanged by rounding |
| `Rounding.RoundTenthKeepsBounds` | vbds_engine.py:69 | bounds that are whole numbers of tenths still hold after rounding |
| `VbdsEngine.MileageFactor` | vbds_engine.py:51 | the factor is never below 0.6 or below the linear term, and equals one of the two |
| `VbdsEngine.MileageFactorClosedForm` | vbds_engine.py:51 | the factor is `1 - m/200000` up to 80000 miles and exactly 0.6 from 80000 on |
| `VbdsEngine.MileageFactorNonIncreasing` | vbds_engine.py:51 | more mileage never raises the factor |
| `VbdsEngine.MileageFactorRange` | vbds_engine.py:43-51 | for non-negative mileage the factor lies in [0.6, 1]; it exceeds 1 exactly when the unvalidated mileage is negative |
| `VbdsEngine.HealthLowerBound` | vbds_engine.py:50-52 | for every mileage and every admissible draw, health is at least 45.9 |
| `VbdsEngine.HealthUpperBound` | vbds_engine.py:50-52 | for non-negative mileage health is below 85 |
| `VbdsEngine.NegativeMileageExceedsBase` | vbds_engine.py:43-52 | at mileage -20000 with draw 0.95 health is 88.825, above the base 85 |
| `VbdsEngine.HealthMonotone` | vbds_engine.py:50-52 | a larger draw or a smaller mileage never lowers health |
| `VbdsEngine.TierOf` | vbds_engine.py:55-62 | the four branches cover disjoint intervals of health that together cover every value, and each threshold 80, 60 and 40 falls in the higher tier |
| `VbdsEngine.RulRangeWellFormed` | vbds_engine.py:55-62 | every `randint` range of a tier is non-empty and 30 days wide |
| `VbdsEngine.TierOfRulInverts` | vbds_engine.py:55-62 | an RUL drawn in a tier's range identifies that tier |
| `VbdsEngine.RulRangesDisjoint` | vbds_engine.py:55-62 | no RUL value lies in the ranges of two different tiers |
| `VbdsEngine.LastTierUnreachable` | vbds_engine.py:51-62 | the `health < 40` branch is never taken, whatever the mileage |
| `VbdsEngine.ReachableTiers` | vbds_engine.py:50-62 | for non-negative mileage health lies in [45.9, 85) and only the three upper tiers occur |
| `VbdsEngine.Diagnose` | vbds_engine.py:43-75 | the result echoes model and mileage, has confidence 0.92, failure probabilities exactly `{NORMAL: 0.8}` and the fixed component and recommendation lists; its score is the unrounded health rounded to tenths; its RUL lies in the range of the tier of the unrounded health |
| `VbdsEngine.DiagnoseRulBounds` | vbds_engine.py:51-62 | for every input the reported RUL lies in [60, 180) |
| `VbdsEngine.DiagnoseScoreBounds` | vbds_engine.py:50-69 | for non-negative mileage the reported score lies in [45.9, 85.0] |
| `VbdsEngine.ScoreAndTierCanDisagree` | vbds_engine.py:55-69 | the tier follows the unrounded health: a health of 79.97 reports a score of 80.0 while its RUL comes from the 60-80 tier |
| `VbdsEngine.DemoScenario` | vbds_engine.py:83 | `diagnose("6L80", 85000)` has factor 0.6, health in [45.9, 51) and an RUL in [60, 90) |
| `VbdsEngine.ZeroMileageStraddlesThreshold` | vbds_engine.py:51-56 | at mileage 0 admissible draws land on both sides of the threshold 80 |

## Left out

- The seeding `np.random.seed(hash(f"{model}_{mileage}") % 2**32)` (vbds_engine.py:47) is not modelled. Python's string hash is salted per process, and numpy's generator is foreign code. The two draws are parameters constrained to the ranges numpy guarantees. So the model does not capture that equal inputs give equal draws within one process.
- `datetime.now()` and its `strftime` rendering (vbds_engine.py:65,68) are not modelled. They read the wall clock, so both readings are opaque string parameters.
- IEEE-754 floating point is not modelled; `real` is exact. The bounds proved here hold for the exact values. A float product may differ from them in its last bits.
- `Rounding.RoundTenth`: rounds the exact real value half-to-even. Python's `round` rounds the binary value of the float, so a decimal tie that is not exact in binary may go the other way.
- The `baselines` table (vbds_engine.py:37-41) is not modelled: `diagnose` never reads it.
- `run_demo` (vbds_engine.py:77-90) is not modelled: it only prints. Its one call is covered by `VbdsEngine.DemoScenario`.
