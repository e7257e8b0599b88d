/** The integer operator that redraws one slot of a bounded integer parameter
    to a different value, uniformly over the other values in its bounds. */
module UniformChange {
  import opened Operators

  const INT_MIN: int := -0x8000_0000
  const INT_MAX: int := 0x7fff_ffff
  const INT_SPAN: int := 0x1_0000_0000

  /** Java's `%` on a positive divisor: the remainder takes the sign of the
      dividend (Dafny's `%` never returns a negative remainder). */
  function JavaRem(a: int, b: int): (r: int)
    requires b > 0
    ensures a >= 0 ==> r == a % b
    ensures a >= 0 ==> 0 <= r < b
    ensures a < 0 ==> -b < r <= 0
    ensures (a - r) % b == 0
  {
    if a >= 0 then
      RemDivides(a, b);
      a % b
    else
      NegatedRemDivides(a, b);
      -((-a) % b)
  }

  /** a minus its Euclidean remainder is a multiple of b. */
  lemma {:induction false} RemDivides(a: int, b: int)
    requires b > 0
    ensures (a - a % b) % b == 0
  {
    var q := a / b;
    assert a - a % b == q * b;
    MultipleRem(q, b);
  }

  /** a minus its sign-of-dividend remainder is a multiple of b. */
  lemma {:induction false} NegatedRemDivides(a: int, b: int)
    requires b > 0
    ensures (a - -((-a) % b)) % b == 0
  {
    var q, m := (-a) / b, (-a) % b;
    assert -a == q * b + m;
    assert a - -m == (-q) * b;
    MultipleRem(-q, b);
  }

  /** A multiple of b leaves no remainder. */
  lemma {:induction false} MultipleRem(q: int, b: int)
    requires b > 0
    ensures (q * b) % b == 0
  {
    var d, m := (q * b) / b, (q * b) % b;
    assert (q - d) * b == m;
    if q - d >= 1 {
      MulAtLeast(q - d, b);
    } else if q - d <= -1 {
      MulAtLeast(d - q, b);
    }
  }

  lemma {:induction false} MulAtLeast(n: int, b: int)
    requires n >= 1 && b > 0
    ensures n * b >= b
  {
    assert n * b == b + (n - 1) * b;
  }

  /** Number of integers in the inclusive bounds [lower, upper]. */
  function Range(lower: int, upper: int): int {
    upper - lower + 1
  }

  /** Euclidean remainder of a dividend in [0, 2 m): the wrap-around done once. */
  lemma {:induction false} RemOfSmall(s: int, m: int)
    requires m > 0 && 0 <= s < 2 * m
    ensures s % m == if s < m then s else s - m
  {
    if s >= m {
      assert s == 1 * m + (s - m);
    }
  }

  /** The value written into the chosen slot: the old value `v` moved up by
      `k + 1` places, wrapping around inside [lower, upper]. */
  function NewValue(v: int, k: int, lower: int, upper: int): (w: int)
    requires lower < upper
    ensures lower <= v <= upper && 0 <= k <= upper - lower - 1 ==>
              lower <= w <= upper && w != v
  {
    var range := Range(lower, upper);
    var delta := v + k + 1 - lower;
    assert lower <= v <= upper && 0 <= k <= upper - lower - 1 ==>
             delta % range == if delta < range then delta else delta - range by {
      if lower <= v <= upper && 0 <= k <= upper - lower - 1 {
        RemOfSmall(delta, range);
      }
    }
    JavaRem(delta, range) + lower
  }

  /** The offset that moves `v` to `w`: the inverse of NewValue for a fixed old value. */
  function OffsetFor(v: int, w: int, lower: int, upper: int): (k: int)
    requires lower <= v <= upper && lower <= w <= upper && w != v
    ensures 0 <= k <= upper - lower - 1
    ensures NewValue(v, k, lower, upper) == w
  {
    var k := if w > v then w - v - 1 else w - v - 1 + Range(lower, upper);
    RemOfSmall(v + k + 1 - lower, Range(lower, upper));
    k
  }

  /** Distinct offsets give distinct new values. */
  lemma {:induction false} NewValueInjective(v: int, k1: int, k2: int, lower: int, upper: int)
    requires lower <= v <= upper
    requires 0 <= k1 <= upper - lower - 1 && 0 <= k2 <= upper - lower - 1
    requires NewValue(v, k1, lower, upper) == NewValue(v, k2, lower, upper)
    ensures k1 == k2
  {
    RemOfSmall(v + k1 + 1 - lower, Range(lower, upper));
    RemOfSmall(v + k2 + 1 - lower, Range(lower, upper));
  }

  /** OffsetFor undoes NewValue: every offset is the only one that reaches its value. */
  lemma {:induction false} OffsetForNewValue(v: int, k: int, lower: int, upper: int)
    requires lower <= v <= upper && 0 <= k <= upper - lower - 1
    ensures OffsetFor(v, NewValue(v, k, lower, upper), lower, upper) == k
  {
    var w := NewValue(v, k, lower, upper);
    NewValueInjective(v, OffsetFor(v, w, lower, upper), k, lower, upper);
  }

  /** The integers lower .. upper, as a set. */
  function Interval(lower: int, upper: int): (s: set<int>)
    decreases upper - lower
  {
    if lower > upper then {} else {lower} + Interval(lower + 1, upper)
  }

  lemma {:induction false} IntervalMembers(lower: int, upper: int, w: int)
    decreases upper - lower
    ensures w in Interval(lower, upper) <==> lower <= w <= upper
  {
    if lower <= upper {
      IntervalMembers(lower + 1, upper, w);
    }
  }

  lemma {:induction false} IntervalSize(lower: int, upper: int)
    requires lower <= upper + 1
    decreases upper - lower
    ensures |Interval(lower, upper)| == Range(lower, upper)
  {
    if lower <= upper {
      IntervalSize(lower + 1, upper);
      IntervalMembers(lower + 1, upper, lower);
    }
  }

  /** Uniformity: the range - 1 offsets, each drawn with equal probability,
      reach exactly the values in bounds other than the old one, each once
      (NewValueInjective), so every other value has probability 1/(range - 1). */
  lemma {:induction false} ProposalIsUniform(v: int, lower: int, upper: int)
    requires lower <= v <= upper
    ensures (set k | 0 <= k <= upper - lower - 1 :: NewValue(v, k, lower, upper))
         == Interval(lower, upper) - {v}
    ensures |Interval(lower, upper) - {v}| == Range(lower, upper) - 1
  {
    var image := set k | 0 <= k <= upper - lower - 1 :: NewValue(v, k, lower, upper);
    forall w | w in Interval(lower, upper) - {v} ensures w in image {
      IntervalMembers(lower, upper, w);
      var k := OffsetFor(v, w, lower, upper);
      assert NewValue(v, k, lower, upper) == w;
    }
    forall w | w in image ensures w in Interval(lower, upper) - {v} {
      var k :| 0 <= k <= upper - lower - 1 && NewValue(v, k, lower, upper) == w;
      IntervalMembers(lower, upper, w);
    }
    IntervalSize(lower, upper);
    IntervalMembers(lower, upper, v);
  }

  /** Bounds [0,3], old value 1 and offset 2 give (1+2+1-0) mod 4 = 0. */
  lemma WorkedExample()
    ensures NewValue(1, 2, 0, 3) == 0
  {
  }

  /** An integer parameter: a vector of integer values with inclusive bounds. */
  class IntegerParameter {
    const lower: int
    const upper: int
    const values: array<int>

    constructor (lower: int, upper: int, values: array<int>)
      ensures this.lower == lower && this.upper == upper && this.values == values
    {
      this.lower := lower;
      this.upper := upper;
      this.values := values;
    }

    /** Every stored value lies in [lower, upper]. */
    ghost predicate InBounds()
      reads values
    {
      forall i :: 0 <= i < values.Length ==> lower <= values[i] <= upper
    }
  }

  /** The operator: it acts on one integer parameter. */
  class UniformOperatorChange {
    const parameter: IntegerParameter

    constructor (parameter: IntegerParameter)
      ensures this.parameter == parameter
    {
      this.parameter := parameter;
    }

    /** One proposal. `index` is the draw Randomizer.nextInt(dimension) and `k`
        the draw Randomizer.nextInt(range - 1); neither is drawn when the range
        is too small. */
    method Proposal(index: nat, k: int) returns (r: HastingsRatio)
      requires Range(parameter.lower, parameter.upper) > 1 ==>
                 index < parameter.values.Length && 0 <= k < Range(parameter.lower, parameter.upper) - 1
      modifies parameter.values
      ensures r.Rejected? <==> Range(parameter.lower, parameter.upper) <= 1
      ensures r.Rejected? ==> parameter.values[..] == old(parameter.values[..])
      ensures r.Ratio? ==> r.value == 1.0
      ensures r.Ratio? ==>
                parameter.values[..] == old(parameter.values[..])[index :=
                  NewValue(old(parameter.values[index]), k, parameter.lower, parameter.upper)]
      ensures r.Ratio? && parameter.lower <= old(parameter.values[index]) <= parameter.upper ==>
                parameter.lower <= parameter.values[index] <= parameter.upper &&
                parameter.values[index] != old(parameter.values[index])
      ensures old(parameter.InBounds()) ==> parameter.InBounds()
    {
      var lowerIndex := parameter.lower;
      var upperIndex := parameter.upper;
      var range := upperIndex - lowerIndex + 1;
      if range <= 1 {
        return Rejected;
      }
      var initialValue := parameter.values[index];
      var newValue := NewValue(initialValue, k, lowerIndex, upperIndex);
      parameter.values[index] := newValue;
      r := Ratio(1.0);
    }
  }

  // ---------------------------------------------------------------------
  // The computation as written in Java, on 32-bit ints that wrap around.

  /** Java int arithmetic: the result taken modulo 2^32 into [INT_MIN, INT_MAX]. */
  function Wrap32(x: int): (w: int)
    ensures INT_MIN <= w <= INT_MAX
    ensures INT_MIN <= x <= INT_MAX ==> w == x
  {
    (x - INT_MIN) % INT_SPAN + INT_MIN
  }

  /** `upperIndex - lowerIndex + 1` as Java computes it on ints. */
  function RangeInt32(lower: int, upper: int): (r: int)
    ensures INT_MIN <= r <= INT_MAX
  {
    Wrap32(Wrap32(upper - lower) + 1)
  }

  /** The new value as the Java statements compute it, each addition and
      subtraction wrapping around as Java's int does. */
  function NewValueInt32(v: int, k: int, lower: int, upper: int): (w: int)
    requires INT_MIN <= lower <= INT_MAX && INT_MIN <= upper <= INT_MAX
    requires RangeInt32(lower, upper) > 1
    ensures INT_MIN <= w <= INT_MAX
  {
    var range := RangeInt32(lower, upper);
    var delta := Wrap32(Wrap32(Wrap32(v + k) + 1) - lower);
    Wrap32(JavaRem(delta, range) + lower)
  }

  /** Wrapping an intermediate result does not change the wrapped total. */
  lemma {:induction false} WrapAdd(x: int, y: int)
    ensures Wrap32(Wrap32(x) + y) == Wrap32(x + y)
  {
    var q := (x - INT_MIN) / INT_SPAN;
    assert Wrap32(x) == x - q * INT_SPAN;
    assert Wrap32(x) + y - INT_MIN == (x + y - INT_MIN) + (-q) * INT_SPAN;
  }

  /** Where the mathematical sum v + k + 1 - lower fits an int, the Java
      statements compute exactly NewValue. */
  lemma {:induction false} Int32AgreesWithoutOverflow(v: int, k: int, lower: int, upper: int)
    requires INT_MIN <= lower < upper <= INT_MAX && lower <= v <= upper
    requires 0 <= k <= upper - lower - 1
    requires Range(lower, upper) <= INT_MAX && v + k + 1 - lower <= INT_MAX
    ensures NewValueInt32(v, k, lower, upper) == NewValue(v, k, lower, upper)
  {
    WrapAdd(v + k, 1);
    WrapAdd(v + k + 1, -lower);
  }

  /** With bounds [0, 2147483646] (range 2147483647, which fits an int), old
      value 2147483646 and offset 1, the sum 2147483646 + 1 + 1 overflows to
      -2147483648, its remainder is -1, and -1 is written: below the lower bound.
      With unbounded arithmetic the same draw wraps to 1. */
  lemma Int32EscapesBounds()
    ensures NewValueInt32(2147483646, 1, 0, 2147483646) == -1
    ensures NewValue(2147483646, 1, 0, 2147483646) == 1
  {
  }

  /** For ordered int bounds, the 32-bit range check rejects exactly when the
      bounds hold at most one value or at least 2^31 values: a wide parameter
      is never changed, although it has many values to move to. */
  lemma {:induction false} Int32RangeRejectsWideBounds(lower: int, upper: int)
    requires INT_MIN <= lower <= upper <= INT_MAX
    ensures RangeInt32(lower, upper) <= 1 <==> Range(lower, upper) <= 1 || Range(lower, upper) > INT_MAX
  {
    WrapAdd(upper - lower, 1);
    var x := Range(lower, upper);
    if x > INT_MAX {
      RemOfSmall(x - INT_MIN, INT_SPAN);
    }
  }

  /** Bounds [0, 2147483647]: the 32-bit range is -2147483648, so the proposal
      is rejected, where the range of 2^31 values would allow a move. */
  lemma Int32RangeWrapExample()
    ensures RangeInt32(0, INT_MAX) == INT_MIN
    ensures Range(0, INT_MAX) == INT_MAX + 1
  {
  }
}
