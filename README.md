# CVSS base-score calculator in Dafny

This project models the two scoring functions of a small CVSS calculator,
`CVSSv3` and `CVSSv4` in `src/index.js`:

- `CVSSv3` computes the CVSS v3.1 base score from eight metric letters.
- `CVSSv4` computes a closed-form variant of a v4.0 base score from twelve
  metric letters.

Each function works in five steps:

1. It validates its arguments against fixed weight tables. It throws if a
   required metric is missing or names no entry.
2. It looks up the weight of each metric.
3. It combines the weights:
   - the impact sub-score is `1 - (1 - w1) * ... * (1 - wn)`;
   - the exploitability is `8.22 *` the product of the exploitability weights.
4. It applies the Unchanged or Changed scope formula and caps the result at 10.
5. It rounds half-up to one decimal place.

The model consists of three modules.

- `Numeric` (`numeric.dfy`) holds the operations the calculator takes from
  JavaScript's `Math` object: `pow`, `min` and `round(x * 10) / 10`. It also
  holds the facts about them that the proofs need.
- `Cvss` (`cvss.dfy`) holds the two scoring functions, their weight tables
  and their validation guards.
  - Each metric the caller passes is an `Arg`: `Undefined` when the property
    is left out, `Null`, or a string.
  - The guard keeps the distinctions the code makes:
    - the truthiness tests `!W.AV[x]`;
    - the `hasOwnProperty` tests on the impact tables;
    - the v4.0 `f == null` test;
    - the v4.0 Scope default, which replaces only an undefined Scope.
  - A thrown error is a `Failure` result; a score is a `Success`.
  - The arithmetic the two functions duplicate is written once: impact
    sub-score, impact, base score and rounding.
- `CvssProperties` (`properties.dfy`) proves properties of the model:
  - when the score is 0;
  - monotonicity in the impact metrics;
  - what scope and the Scope default change;
  - the scores of concrete selections;
  - how the two versions relate.

The model computes over exact reals, not IEEE-754 doubles.

Three behaviours of the code are worth stating outright:

- **A low v3.1 score.** AV:L/AC:H/PR:L/UI:R/S:U/C:L/I:L/A:N scores 3.3
  (`V3LowCase`).
- **Monotonicity.** Under Unchanged scope, raising an impact metric never
  lowers the score, in both versions (`V3UnchangedMonotone`,
  `V4UnchangedMonotone`). Under Changed scope the impact formula
  `7.52 * (x - 0.029) - 3.25 * (x - 0.02)^15` turns downward near an impact
  sub-score of 0.895.
  - For v3.1 the score still never falls (`V3ChangedMonotone`). All three
    impact metrics High give 0.914816, past the turning point, but the drop
    there is smaller than the rise from H/H/L (0.848992), the largest
    sub-score short of all High. Every other sub-score lies at or below
    0.85, where the formula rises.
  - For v4.0 the score can fall (`V4ChangedNotMonotone`). Six impact
    metrics reach further past the turning point: one selection falls from
    9.9 to 9.7 when SA is raised from Low to High.
- **Rounding.** The code rounds half-up with `Math.round(x * 10) / 10`. This
  is not the CVSS v3.1 "Roundup" function, which always rounds up.

## Model

| member | source | states |
|---|---|---|
| `Numeric.Pow` | src/index.js:55 | `Math.pow(x, n)` (here and at line 152) for a natural exponent; stated by `PowSplit`, `PowBounded`, `PowMonotone` and `PowDiff` |
| `Numeric.Min` | src/index.js:63-64 | `Math.min`: the result is one of the two arguments and no greater than either |
| `Numeric.RoundTenth` | src/index.js:67 | `Math.round(x * 10) / 10` yields a whole number of tenths within [-0.05, +0.05) of `x`, in [0, 10] when `x` is |
| `Numeric.RoundTenthOf` | src/index.js:162 | the rounding yields exactly the one whole number of tenths `r` with `r - 0.05 <= x < r + 0.05` |
| `Numeric.RoundTenthMonotone` | src/index.js:67 | rounding never reverses the order of two base scores |
| `Numeric.PowSplit` | src/index.js:55 | `Math.pow(x, a + b) = Math.pow(x, a) * Math.pow(x, b)` for natural exponents |
| `Numeric.PowBounded` | src/index.js:152 | a positive power of a number in [0, 1] lies between 0 and that number |
| `Numeric.PowMonotone` | src/index.js:55 | for `0 <= y <= c`, `Math.pow(y, n)` lies in [0, `Math.pow(c, n)`] |
| `Numeric.PowDiff` | src/index.js:55 | for `0 <= y <= z <= c`, `z^n - y^n` is non-negative and `c * (z^n - y^n) <= n * c^n * (z - y)`: the slope of `x^n` on [0, c] is at most `n * c^(n-1)` |
| `Cvss.Truthy` | src/index.js:31-34 | the test `W.X[a]` is truthy (here and at lines 116-120): `a` is a string key of the table with a non-zero weight; stated by `TruthyIffLetter`, `V3PassesIffValid` and `V4PassesIffValid` |
| `Cvss.HasOwn` | src/index.js:35-37 | `hasOwnProperty.call(W.X, a)` (here and at lines 122-127): `a` is a string key of the table; stated by `V3PassesIffValid` and `V4PassesIffValid` |
| `Cvss.Nullish` | src/index.js:115 | `f == null`, true for null and undefined; stated by `V4PassesIffValid` |
| `Cvss.IsScopeLetter` | src/index.js:38 | `["U", "C"].includes(scope)` (here and at line 121); stated by `V3PassesIffValid` and `V4PassesIffValid` |
| `Cvss.V3AttackVector` | src/index.js:18 | the v3.1 AV table; stated by `V3TableLetters` |
| `Cvss.V3AttackComplexity` | src/index.js:19 | the v3.1 AC table; stated by `V3TableLetters` |
| `Cvss.V3PrivilegesRequired` | src/index.js:20-23 | the v3.1 PR tables, one per Scope letter; stated by `V3TableLetters` and `V3ChangedPrivileges` |
| `Cvss.V3UserInteraction` | src/index.js:24 | the v3.1 UI table; stated by `V3TableLetters` |
| `Cvss.V3Impact` | src/index.js:25-27 | the table C, I and A share; stated by `V3ImpactWeights`, `ImpactWeights` and `ZeroWeightIsNone` |
| `Cvss.V4AttackVector` | src/index.js:86 | the v4.0 AV table; stated by `V4TableLetters` |
| `Cvss.V4AttackComplexity` | src/index.js:87 | the v4.0 AC table; stated by `V4TableLetters` |
| `Cvss.V4AttackRequirements` | src/index.js:88 | the v4.0 AR table; stated by `V4TableLetters` and `ProductWithNeutral` |
| `Cvss.V4PrivilegesRequired` | src/index.js:89 | the v4.0 PR table, the same for both scopes; stated by `V4TableLetters` |
| `Cvss.V4UserInteraction` | src/index.js:90 | the v4.0 UI table; stated by `V4TableLetters` |
| `Cvss.V4Impact` | src/index.js:91-96 | the table the six impact metrics share; stated by `V4ImpactWeights`, `ImpactWeights` and `ZeroWeightIsNone` |
| `Cvss.TruthyIffLetter` | src/index.js:116-120 | in a table with no zero weight, the truthiness test `!W.X[x]` rejects exactly the arguments that are not one of its letters |
| `Cvss.Product` | src/index.js:57 | the product of the exploitability weights (here and at line 146); stated by `ProductInUnit` and `ProductWithNeutral` |
| `Cvss.Exploitability` | src/index.js:57 | `8.22 *` that product (here and at line 146); stated by `ProductInUnit` (through `Score`) and `ProductWithNeutral` |
| `Cvss.Intact` | src/index.js:51 | the product of the `(1 - w)` factors of the impact weights (here and at line 148); stated by `IntactInUnit` and `IntactOfNone` |
| `Cvss.ImpactSub` | src/index.js:51 | the impact sub-score `1 - Intact` (here and at lines 147-148); stated by `ImpactSubAtLeast`, `ImpactSubMonotone`, `ImpactSubPadded` and `V3ImpactSubRange` |
| `Cvss.Impact` | src/index.js:52-55 | the Unchanged and Changed scope impact formulas (here and at lines 149-152); stated by `ImpactOfNothing`, `ImpactFromLow`, `ChangedImpactMonotone` and `ChangedImpactAtTop` |
| `Cvss.BaseScore` | src/index.js:59-65 | the base score is at most 10; it is 0 when the impact is not positive; otherwise, for a non-negative exploitability, it is at least the impact (capped at 10) |
| `Cvss.ProductInUnit` | src/index.js:57 | the product of exploitability weights in [0, 1] stays in [0, 1] |
| `Cvss.Score` | src/index.js:51-67 | the rounded base score, for exploitability weights in [0, 1], is a whole number of tenths in [0, 10] |
| `Cvss.V3ImpactWeights` | src/index.js:47-49 | the C, I and A weights of a validated selection are each 0, 0.22 or 0.56 |
| `Cvss.V3ExploitWeights` | src/index.js:43-46 | the AV, AC, PR and UI weights of a validated selection lie in (0, 1] |
| `Cvss.V3Passes` | src/index.js:30-41 | the v3.1 validation guard: none of its rejection tests fires; stated by `V3PassesIffValid` |
| `Cvss.V3Scope` | src/index.js:53 | `scope === "U"` (here and at line 62) on a validated selection: "U" is Unchanged, "C" is Changed; stated by `V3UnchangedMonotone` and `V3ChangedMonotone` |
| `Cvss.V3PassesIffValid` | src/index.js:30-41 | the v3.1 guard lets a selection through iff every metric names a letter of its table and Scope is U or C |
| `Cvss.V3TableLetters` | src/index.js:17-28 | the letters of each v3.1 table; every exploitability weight is non-zero |
| `Cvss.CVSSv3` | src/index.js:7-68 | for an argument object, throws exactly on invalid selections, always with the v3.1 error; otherwise returns a whole number of tenths in [0, 10] |
| `Cvss.V4ImpactWeights` | src/index.js:139-144 | the six impact weights of a validated selection are each 0, 0.22 or 0.56 |
| `Cvss.V4ExploitWeights` | src/index.js:134-138 | the AV, AC, AR, PR and UI weights of a validated selection lie in (0, 1] |
| `Cvss.ScopeOrDefault` | src/index.js:77 | the destructuring default `scope = "U"`, which replaces undefined only; stated by `V4OmittedScope` and `V4PassesIffValid` |
| `Cvss.SomeFieldNullish` | src/index.js:99-115 | `fields.some((f) => f == null)` over the eleven metrics other than Scope; stated by `V4PassesIffValid` |
| `Cvss.V4Passes` | src/index.js:114-128 | the v4.0 validation guard: none of its rejection tests fires; stated by `V4PassesIffValid` |
| `Cvss.V4Scope` | src/index.js:150 | the same test (here and at line 157) on the Scope after the default `scope = "U"` of line 77; stated by `V4OmittedScope`, `V4UnchangedMonotone` and `V4ChangedNotMonotone` |
| `Cvss.V4PassesIffValid` | src/index.js:99-132 | the v4.0 guard lets a selection through iff every metric names a letter of its table and Scope is U, C or left out; a null Scope is rejected |
| `Cvss.V4TableLetters` | src/index.js:85-97 | the letters of each v4.0 table; every exploitability weight is non-zero |
| `Cvss.CVSSv4` | src/index.js:71-163 | for an argument object, throws exactly on invalid selections, always with the v4.0 error; otherwise returns a whole number of tenths in [0, 10] |
| `CvssProperties.IntactInUnit` | src/index.js:51 | with weights in [0, 1], the product of the `(1 - w)` factors lies in [0, 1] |
| `CvssProperties.IntactOfNone` | src/index.js:147-148 | when every impact weight is 0, the product of the `(1 - w)` factors is 1 |
| `CvssProperties.ImpactSubAtLeast` | src/index.js:51 | the impact sub-score is at least each of its weights |
| `CvssProperties.ImpactSubMonotone` | src/index.js:147-148 | raising impact weights never lowers the impact sub-score |
| `CvssProperties.ImpactSubPadded` | src/index.js:147-148 | extra impact metrics set to None leave the impact sub-score unchanged |
| `CvssProperties.ProductWithNeutral` | src/index.js:146 | an exploitability weight of 1.0 (AR:N) leaves the exploitability unchanged |
| `CvssProperties.ImpactOfNothing` | src/index.js:52-55 | with impact sub-score 0, neither scope formula gives a positive impact, so the base score is 0 |
| `CvssProperties.ImpactFromLow` | src/index.js:149-152 | from the smallest non-zero impact sub-score up, both scope formulas give an impact of at least 0.7 |
| `CvssProperties.ScoreZeroIff` | src/index.js:154-162 | for impact weights from the table {0, 0.22, 0.56} and exploitability weights in [0, 1], the rounded score is 0 iff every impact weight is 0 |
| `CvssProperties.UnchangedScoreMonotone` | src/index.js:154-162 | under Unchanged scope, raising impact weights never lowers the rounded score |
| `CvssProperties.ScoreMonotoneInImpact` | src/index.js:59-67 | under either scope, with exploitability weights in [0, 1], the rounded score never falls when the impact rises or when the lower impact is not positive |
| `CvssProperties.ChangedImpactMonotone` | src/index.js:52-55 | for impact sub-scores `0.02 <= a <= b <= 0.85`, the Changed-scope impact of `a` is at most that of `b` |
| `CvssProperties.ChangedImpactAtTop` | src/index.js:52-55 | the Changed-scope impact of 0.848992 (H/H/L) is at most that of 0.914816 (H/H/H) |
| `CvssProperties.ImpactWeights` | src/index.js:25-27 | in the shared impact table, a more severe letter (N < L < H) weighs at least as much |
| `CvssProperties.ZeroWeightIsNone` | src/index.js:91-96 | in the shared impact table, exactly N weighs 0 |
| `CvssProperties.V3ZeroImpactIff` | src/index.js:51-67 | a valid v3.1 selection scores 0 iff C, I and A are all None, under either scope |
| `CvssProperties.V3ScoreZeroIff` | src/index.js:47-67 | the same on a selection that passed the guard |
| `CvssProperties.V3UnchangedMonotone` | src/index.js:51-63 | under Unchanged scope, raising any of C, I and A never lowers the v3.1 score |
| `CvssProperties.V3ImpactSubRange` | src/index.js:51 | three impact weights from {0, 0.22, 0.56} give a sub-score of 0 or at least 0.22, and at most 0.848992 unless all three are 0.56 |
| `CvssProperties.V3ChangedScoreMonotone` | src/index.js:51-67 | under Changed scope, raising three impact weights from {0, 0.22, 0.56} never lowers the rounded score, for exploitability weights in [0, 1] |
| `CvssProperties.V3ChangedMonotone` | src/index.js:51-67 | under Changed scope, raising any of C, I and A never lowers the v3.1 score |
| `CvssProperties.V3ChangedPrivileges` | src/index.js:20-23 | Changed scope weighs PR L and H more than Unchanged scope does, and PR N the same |
| `CvssProperties.V3TypicalCase` | test/index.test.js:4-17 | AV:N/AC:L/PR:N/UI:N/S:U/C:H/I:H/A:H scores exactly 9.8 |
| `CvssProperties.V3LowCase` | src/index.js:43-67 | AV:L/AC:H/PR:L/UI:R/S:U/C:L/I:L/A:N scores exactly 3.3 |
| `CvssProperties.V3MissingMetrics` | test/index.test.js:19-28 | leaving out UI and the later metrics gives the v3.1 error |
| `CvssProperties.V4OmittedScope` | src/index.js:77 | leaving Scope out gives the same result as Scope U, for every selection |
| `CvssProperties.V4ZeroImpactIff` | src/index.js:147-162 | a valid v4.0 selection scores 0 iff all six impact metrics are None |
| `CvssProperties.V4ScoreZeroIff` | src/index.js:139-162 | the same on a selection that passed the guard |
| `CvssProperties.V4UnchangedMonotone` | src/index.js:147-158 | under Unchanged or omitted scope, raising any of the six impact metrics never lowers the v4.0 score |
| `CvssProperties.V4ScoreUnchangedMonotone` | src/index.js:139-162 | the same on selections that passed the guard and differ only in impact metrics |
| `CvssProperties.V4TypicalCase` | test/index.test.js:32-49 | AV:N/AC:L/AR:N/PR:N/UI:N/S:U/VC:H/VI:H/VA:H/SC:N/SI:N/SA:N scores exactly 9.8 |
| `CvssProperties.V4ChangedNotMonotone` | src/index.js:149-162 | under Changed scope, raising SA from L to H can lower the v4.0 score (9.9 to 9.7) |
| `CvssProperties.V4ChangedBelowTop` | src/index.js:134-162 | AV:N/AC:L/AR:N/PR:N/UI:N/S:C with VC, VI, VA, SC, SI High and SA Low scores 9.9 |
| `CvssProperties.V4ChangedAtTop` | src/index.js:134-162 | the same selection with SA High scores 9.7 |
| `CvssProperties.ChangedScoreBelowTop` | src/index.js:146-162 | the Changed-scope arithmetic for five High impact weights and one Low rounds to 9.9 |
| `CvssProperties.ChangedScoreAtTop` | src/index.js:146-162 | the Changed-scope arithmetic for six High impact weights rounds to 9.7 |
| `CvssProperties.V4MissingMetrics` | test/index.test.js:51-64 | leaving out Scope and all impact metrics gives the v4.0 error |
| `CvssProperties.V4AgreesWithV3` | src/index.js:85-98 | with AR and the safety metrics None, v4.0 accepts and scores a selection as v3.1 does, under Unchanged scope (and Changed with PR None) |
| `CvssProperties.V4ScoreAgreesWithV3` | src/index.js:134-162 | the score step of the same agreement, on selections that passed both guards |

## Left out

- Floating point: the model computes over exact reals. JavaScript's doubles
  can round the last digit differently near a boundary of x.x5; the model
  states the exact-real result.
- Property lookups through the prototype chain are not modelled: keys such as
  `"constructor"` or `"toString"` reach inherited members of JavaScript
  objects. Arguments that are numbers, booleans or objects are not modelled
  either. An `Arg` is undefined, null or a string.
- The error message texts are not modelled. The two thrown errors are the
  constants `InvalidV3Metrics` and `InvalidV4Metrics`.
- `module.exports` and the test harness are not modelled. The tests' two
  expected scores and two expected errors are modelled as lemmas.
- A missing or null argument object is not modelled. Both functions
  destructure their one parameter without a default (src/index.js:7, 71), so
  `CVSSv3()`, `CVSSv3(null)` and the same calls to `CVSSv4` throw a
  JavaScript TypeError before any validation. The model's `V3Metrics` and
  `V4Metrics` argument always exists, so the two results of `CVSSv3` and
  `CVSSv4` are stated for an argument object only.
