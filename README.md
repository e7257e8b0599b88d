# Proposal operators of a constant-distance MCMC sampler

This project models two Metropolis-Hastings proposal operators of the
ConstantDistanceOperator package for BEAST, and proves properties of the model
in Dafny.

- `SimpleDistance` (module `SimpleDistanceMove`, `simple_distance.dfy`) moves
  the root height of the tree by a draw `a` from uniform(-w, w). It rescales the
  rates of the root's two child branches so that each branch keeps its distance
  (rate times duration). It refuses the move (log ratio negative infinity) when
  the new height is not above both children. Otherwise it returns the Jacobian
  ratio of the change of variables. It also carries its tuning parameter, the
  window size `w`, and a performance suggestion for that window.
- `UniformOperatorChange` (module `UniformChange`, `uniform_change.dfy`)
  redraws one slot of a bounded integer parameter. The new value is always
  different from the old one, and it is uniform over the other values in the
  bounds.

The module `Operators` (`operators.dfy`) holds what a proposal returns,
`HastingsRatio`. `Rejected` stands for the log ratio negative infinity.
`Ratio(x)` stands for the log ratio `Math.log(x)`. So the integer operator's
log ratio of 0 appears as `Ratio(1.0)`.

The random draws are parameters of the proposals: `a` for the root move, and
the index and offset `k` for the integer move. Their ranges are preconditions.
The integer operator's draws happen only after the range check, so their
precondition applies only when the range exceeds 1. Doubles are modelled as
`real`. Java `int` arithmetic is modelled without wrap-around, with Java's
sign-of-dividend remainder (`JavaRem`). A separate function models the
statements exactly as written on 32-bit ints (see Findings).

The state that the source updates in place stays imperative:
- `Node.height` is changed by the root move.
- The rates vector is an `array<real>` with two slots overwritten.
- The window size is a field with a getter and a setter.
- The integer parameter's values are an `array<int>` with one slot overwritten.

Each method's `ensures` ties the new state to a function on values (`Propose`,
`NewValue`). The properties are lemmas about those functions.

Two behaviours of the code are worth stating:
- A refused root move returns before any mutation
  (SimpleDistance.java:84-87), so there is nothing to undo.
- With no proposals yet, `getPerformanceSuggestion` divides 0 by 0.0
  (SimpleDistance.java:149). NaN fails both tests at lines 160 and 162, so no
  suggestion is given (`None`).

## Model

| member | source | states |
|---|---|---|
| SimpleDistanceMove.RateIndex | src/consoperators/SimpleDistance.java:59-62 | a child's rate slot is its own node number, except that node number branchCount takes the root's number |
| SimpleDistanceMove.RateIndexOfNonRoot | src/consoperators/SimpleDistance.java:59-74 | a child's rate slot is its number, except that number branchCount maps to the root's number; every non-root node gets a slot below branchCount and no two share one |
| SimpleDistanceMove.Propose | src/consoperators/SimpleDistance.java:79-95 | refused exactly when t_x + a is at or below either child; otherwise the new height is t_x + a, the children's heights are kept, and the root is strictly above both children |
| SimpleDistanceMove.MovePreservesDistances | src/consoperators/SimpleDistance.java:64-95 | on a move, r_i'·(t_x'−t_j) = r_i·(t_x−t_j) and r_x'·(t_x'−t_k) = r_x·(t_x−t_k) |
| SimpleDistanceMove.MoveRatio | src/consoperators/SimpleDistance.java:112-115 | the returned pre-log ratio times (t_x'−t_j)(t_x'−t_k) is (t_x−t_j)(t_x−t_k), and it is strictly positive when the old root was above both children |
| SimpleDistanceMove.MoveKeepsRatesPositive | src/consoperators/SimpleDistance.java:89-95 | from an ordered state with positive rates, both new rates are positive |
| SimpleDistanceMove.ReverseMoveRestores | src/consoperators/SimpleDistance.java:79-115 | from the new state, the draw −a is accepted exactly when the old state was ordered; it then gives back the old state, with the reciprocal ratio |
| SimpleDistanceMove.RatioIsJacobianDeterminant | src/consoperators/SimpleDistance.java:97-115 | the closed-form ratio equals the determinant (cofactor expansion) of the Jacobian matrix the source writes down |
| SimpleDistanceMove.JacobianRateColumns | src/consoperators/SimpleDistance.java:98-110 | each new rate is linear in its own old rate with slope the diagonal Jacobian entry, and does not depend on the other rate; so the rate columns of the Jacobian are exact and the matrix is lower triangular |
| SimpleDistanceMove.ScenarioMoved | src/consoperators/SimpleDistance.java:79-115 | heights 10, 4, 6, rates 2 and 1.5, draw 0.5: new rates 24/13 and 4/3, ratio 32/39 (= 24/29.25) |
| SimpleDistanceMove.ScenarioRefused | src/consoperators/SimpleDistance.java:79-86 | the same state with draw −6.5 is refused |
| SimpleDistanceMove.SimpleDistance.Proposal | src/consoperators/SimpleDistance.java:32-116 | returns Propose's outcome on the old state; a refusal changes neither the root height nor any rate; a move sets the state to Propose's next state, writes exactly the two distinct child-branch slots, and leaves every other slot and the vector length alone |
| SimpleDistanceMove.SimpleDistance.GetCoercableParameterValue | src/consoperators/SimpleDistance.java:122-124 | the tuning parameter is the window size |
| SimpleDistanceMove.SimpleDistance.SetCoercableParameterValue | src/consoperators/SimpleDistance.java:121-129 | after setting the window to v, the getter returns v; nothing else changes |
| SimpleDistanceMove.AcceptanceProbability | src/consoperators/SimpleDistance.java:149 | accepted/(accepted+rejected) lies in [0, 1]; it is undefined (NaN) exactly when there were no proposals |
| SimpleDistanceMove.ClampRatio | src/consoperators/SimpleDistance.java:152-154 | the clamped ratio always lies in [0.5, 2.0], equals the ratio inside that band, and is 2.0 above it and 0.5 below it |
| SimpleDistanceMove.PerformanceSuggestion | src/consoperators/SimpleDistance.java:148-165 | no suggestion exactly when the probability is NaN or lies in [0.10, 0.40]; otherwise the suggested window is w times the clamped ratio |
| SimpleDistanceMove.SuggestionTowardTarget | src/consoperators/SimpleDistance.java:152-157 | a suggested window lies in [w/2, 2w], is below w when acceptance is below target, and is above w when acceptance is above target |
| UniformChange.JavaRem | src/consoperators/UniformOperatorChange.java:41 | Java's remainder: equal to Dafny's for a non-negative dividend, in (−b, 0] for a negative one, and in every case a − r is a multiple of b (so it is the value Java gives, since (a/b)·b + a%b == a) |
| UniformChange.NewValue | src/consoperators/UniformOperatorChange.java:40-42 | for an old value in [lower, upper] and k in [0, range−2], the new value lies in [lower, upper] and differs from the old value |
| UniformChange.OffsetFor | src/consoperators/UniformOperatorChange.java:40-42 | every other value in the bounds is reached by some offset in [0, range−2] |
| UniformChange.NewValueInjective | src/consoperators/UniformOperatorChange.java:40-42 | distinct offsets give distinct new values |
| UniformChange.OffsetForNewValue | src/consoperators/UniformOperatorChange.java:40-42 | OffsetFor inverts NewValue for a fixed old value |
| UniformChange.ProposalIsUniform | src/consoperators/UniformOperatorChange.java:11-42 | the offsets' images are exactly the range − 1 other values in the bounds, so the proposal is uniform over them |
| UniformChange.WorkedExample | src/consoperators/UniformOperatorChange.java:40-42 | bounds [0,3], old value 1, offset 2 give new value 0 |
| UniformChange.UniformOperatorChange.Proposal | src/consoperators/UniformOperatorChange.java:25-48 | rejected exactly when upper − lower + 1 ≤ 1, and then nothing changes; otherwise returns ratio 1 (log 0) and writes NewValue into the slot `index` only; an in-bounds old value is replaced by a different in-bounds value, and a parameter whose values are all in bounds stays so |
| UniformChange.Wrap32 | src/consoperators/UniformOperatorChange.java:40-42 | Java int arithmetic: the result lies in the int range and equals the mathematical value when that fits |
| UniformChange.RangeInt32 | src/consoperators/UniformOperatorChange.java:29 | `upperIndex - lowerIndex + 1` on 32-bit ints; the result is an int |
| UniformChange.Int32RangeRejectsWideBounds | src/consoperators/UniformOperatorChange.java:29-32 | for ordered int bounds, the 32-bit range is at most 1 (so the proposal returns −∞) exactly when the bounds hold at most one value or at least 2^31 values |
| UniformChange.Int32RangeWrapExample | src/consoperators/UniformOperatorChange.java:29-32 | bounds [0, 2147483647]: the 32-bit range is −2147483648, while the bounds hold 2^31 values |
| UniformChange.NewValueInt32 | src/consoperators/UniformOperatorChange.java:29-42 | the statements as written on 32-bit ints, each sum wrapping as Java's int does; the written value is an int |
| UniformChange.Int32AgreesWithoutOverflow | src/consoperators/UniformOperatorChange.java:40-42 | when v + k + 1 − lower fits an int, the 32-bit statements compute exactly NewValue |
| UniformChange.Int32EscapesBounds | src/consoperators/UniformOperatorChange.java:40-42 | bounds [0, 2147483646], old value 2147483646, offset 1: the 32-bit statements write −1, where NewValue gives 1 |

## Findings

| source | as written | input that shows it | evidently intended | confidence | as-written member | corrected member |
|---|---|---|---|---|---|---|
| src/consoperators/UniformOperatorChange.java:40-42 | `initalValue + nextInt(range-1) + 1 - lowerIndex` is computed in 32-bit `int`; for an in-bounds old value, the final sum can pass INT_MAX only when the range exceeds 2^30, and then only for some old values and offsets (a partial sum that wraps back does no harm, see Int32AgreesWithoutOverflow) | bounds [0, 2147483646] (range 2147483647 fits an int), old value 2147483646, offset 1: the sum wraps to −2147483648, its remainder is −1, and −1 is written, below the lower bound | the new value wraps around inside [lower, upper] (here 1), as the comment on line 41 says | not executed | UniformChange.NewValueInt32, UniformChange.Int32EscapesBounds | UniformChange.NewValue |
| src/consoperators/UniformOperatorChange.java:29-32 | `range = upperIndex - lowerIndex + 1` is computed in 32-bit `int`, and it wraps to a value ≤ 1 when the bounds hold 2^31 values or more | bounds [0, 2147483647]: `range` is −2147483648, so every call returns −∞ and the parameter never changes | the proposal is refused only when the bounds hold at most one value, as the test `range <= 1` says; otherwise a new value is drawn | not executed | UniformChange.RangeInt32, UniformChange.Int32RangeRejectsWideBounds, UniformChange.Int32RangeWrapExample | UniformChange.UniformOperatorChange.Proposal |

## Left out

- IndependentOperator is not part of this model. It casts the distribution to a log-normal model and calls `Randomizer.nextLogNormal`. Both are foreign library calls. What remains writes one slot and returns 0.
- The random draws (`Randomizer.uniform`, `Randomizer.nextInt`) are parameters of the proposals, with range preconditions.
- `Math.log` of the Hastings ratio is not modelled. The model returns the ratio before the logarithm, and a refusal stands for negative infinity.
- SimpleDistanceMove.MoveRatio: positivity is proved only for an ordered old state. For an unordered state, `Math.log` of a non-positive ratio (negative infinity or NaN) is not modelled.
- `optimize` is not modelled. It depends on the framework's `calcDelta` coercion policy and on `exp`/`log`.
- The `DecimalFormat` message text of `getPerformanceSuggestion` is not modelled. Only whether a suggestion is given and the suggested window are modelled.
- The accept and reject counters and the target acceptance probability are inputs. A positive target is required, as the framework provides.
- IEEE rounding, infinities and NaN arithmetic are not modelled; doubles are `real`. The one NaN that decides a branch (no proposals yet) is modelled as `None`.
- The BEAST framework plumbing is not modelled: `Input` wiring, `initAndValidate`, and the `Tree` and `Node` classes. The model reduces the tree to the root and its two children, each with a fixed number and a changeable height.
- SimpleDistanceMove.SimpleDistance.Proposal: requires the whole well-formed shape. The root has two distinct children, all three nodes are numbered below the node count, and the rates vector has one slot per branch, as the tree and the clock model provide. The source throws an index exception only when a child's slot lies outside the rates vector. It runs on some shapes the model refuses, such as a shorter vector that still holds both child slots, or children sharing a slot (the second write wins). Those runs are not modelled.
- UniformChange.UniformOperatorChange.Proposal: uses the corrected arithmetic (unbounded integers with Java's remainder), not Java's 32-bit `int`. The range computation `upperIndex - lowerIndex + 1` also wraps in Java when the bounds hold at least 2^31 values, and Java's proposal then always returns −∞, where this method writes a new value (see the second row of Findings).
- The unused `lower` and `upper` double fields of UniformOperatorChange are dropped.
