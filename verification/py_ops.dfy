/** Python built-ins whose semantics the controllers rely on, stated exactly:
    optional values, list indexing with negative indices, `round` (half to even),
    `%` on floats, and the `max(lo, min(hi, x))` clamp idiom. */
module PyOps {

  datatype Option<+T> = None | Some(value: T)

  /** A call that either returns a value or raises the exception `error`. */
  datatype Result<+T, +E> = Ok(value: T) | Err(error: E)

  /** `np.pi`, as the decimal literal NumPy prints. */
  const Pi: real := 3.141592653589793

  /** Python `xs[i]`: negative indices count from the end; out of range is None (IndexError). */
  function PyIndex<T>(xs: seq<T>, i: int): (r: Option<T>)
    ensures r.Some? <==> -|xs| <= i < |xs|
    ensures 0 <= i < |xs| ==> r == Some(xs[i])
    ensures -|xs| <= i < 0 ==> r == Some(xs[|xs| + i])
  {
    if 0 <= i < |xs| then Some(xs[i])
    else if -|xs| <= i < 0 then Some(xs[|xs| + i])
    else None
  }

  /** Python `round(x)` on a float: nearest integer, ties to the even neighbour. */
  function RoundHalfEven(x: real): (n: int)
  {
    var f := x.Floor;
    var d := x - f as real;
    if d < 0.5 then f
    else if d > 0.5 then f + 1
    else if f % 2 == 0 then f
    else f + 1
  }

  /** The specification of `round`: within half a unit, and an exact tie goes to an even integer. */
  ghost predicate IsRoundHalfEven(x: real, n: int)
  {
    && -0.5 <= n as real - x <= 0.5
    && ((n as real - x == 0.5 || x - n as real == 0.5) ==> n % 2 == 0)
  }

  lemma RoundHalfEvenMeetsSpec(x: real)
    ensures IsRoundHalfEven(x, RoundHalfEven(x))
  {
  }

  /** Only one integer meets the specification, so `RoundHalfEven` is the rounding Python performs. */
  lemma RoundHalfEvenUnique(x: real, n: int)
    requires IsRoundHalfEven(x, n)
    ensures n == RoundHalfEven(x)
  {
    RoundHalfEvenMeetsSpec(x);
  }

  /** Rounding is monotone: a larger argument never rounds to a smaller integer. */
  lemma RoundHalfEvenMonotone(x: real, y: real)
    requires x <= y
    ensures RoundHalfEven(x) <= RoundHalfEven(y)
  {
  }

  /** `k` copies of `m`; named so that quantifiers over `k` have a trigger. */
  function Times(k: int, m: real): real
  {
    k as real * m
  }

  /** Python `x % m` on floats with a positive modulus: the result takes the sign of `m`. */
  function FloatMod(x: real, m: real): (r: real)
    requires m > 0.0
    ensures 0.0 <= r < m
    ensures exists k: int :: Times(k, m) == x - r
  {
    var k := (x / m).Floor;
    FloorTimesBounds(x, m);
    x - Times(k, m)
  }

  /** A remainder in `[0, m)` that differs from `x` by a multiple of `m` is the one `%` gives. */
  lemma FloatModUnique(x: real, m: real, r: real, k: int)
    requires m > 0.0 && 0.0 <= r < m && x - r == Times(k, m)
    ensures FloatMod(x, m) == r
  {
    var q := x / m;
    assert x == k as real * m + r;
    assert q == k as real + r / m;
    assert r / m < 1.0 by {
      assert (r / m) * m == r;
      if r / m >= 1.0 {
        MulMonotone(1.0, r / m, m);
      }
    }
    assert q.Floor == k;
  }

  /** Python's `round` leaves an integer-valued float where it is. */
  lemma RoundHalfEvenOfInt(n: int)
    ensures RoundHalfEven(n as real) == n
  {
    RoundHalfEvenUnique(n as real, n);
  }

  lemma FloorTimesBounds(x: real, m: real)
    requires m > 0.0
    ensures Times((x / m).Floor, m) <= x < Times((x / m).Floor, m) + m
  {
    var q := x / m;
    var k := q.Floor;
    assert q * m == x;
    MulMonotone(k as real, q, m);
    assert q < k as real + 1.0;
    MulStrictlyMonotone(q, k as real + 1.0, m);
    assert q * m < (k as real + 1.0) * m;
    assert (k as real + 1.0) * m == k as real * m + m;
    assert x < k as real * m + m;
    assert Times(k, m) == k as real * m;
  }

  lemma MulMonotone(a: real, b: real, m: real)
    requires a <= b && m > 0.0
    ensures a * m <= b * m
  {
    assert (b - a) * m >= 0.0;
  }

  lemma MulStrictlyMonotone(a: real, b: real, m: real)
    requires a < b && m > 0.0
    ensures a * m < b * m
  {
    assert (b - a) * m > 0.0;
  }

  /** `max(lo, min(hi, x))`. */
  function Clamp(lo: real, hi: real, x: real): (r: real)
    ensures lo <= hi ==> lo <= r <= hi
    ensures lo <= x <= hi ==> r == x
    ensures x < lo ==> r == lo
    ensures lo <= hi && hi < x ==> r == hi
  {
    if lo >= (if hi <= x then hi else x) then lo
    else if hi <= x then hi else x
  }

  lemma ClampMonotone(lo: real, hi: real, x: real, y: real)
    requires x <= y
    ensures Clamp(lo, hi, x) <= Clamp(lo, hi, y)
  {
  }

  function Abs(x: int): nat
  {
    if x < 0 then -x else x
  }

  function AbsReal(x: real): (r: real)
    ensures r >= 0.0 && (r == x || r == -x)
  {
    if x < 0.0 then -x else x
  }

  /** The elements of `xs` that satisfy `p`, in order (a Python list comprehension with a filter). */
  function Filter<T(==)>(xs: seq<T>, p: T -> bool): (r: seq<T>)
    ensures |r| <= |xs|
    ensures forall i :: 0 <= i < |r| ==> r[i] in xs && p(r[i])
    ensures forall i :: 0 <= i < |xs| && p(xs[i]) ==> xs[i] in r
    decreases |xs|
  {
    if |xs| == 0 then []
    else (if p(xs[0]) then [xs[0]] else []) + Filter(xs[1..], p)
  }

  lemma FilterAppend<T>(a: seq<T>, b: seq<T>, p: T -> bool)
    ensures Filter(a + b, p) == Filter(a, p) + Filter(b, p)
    decreases |a|
  {
    if |a| == 0 {
      assert a + b == b;
    } else {
      assert (a + b)[1..] == a[1..] + b;
      FilterAppend(a[1..], b, p);
    }
  }

  /** Filtering keeps every accepted value as often as it occurs and drops
      every other value. */
  lemma {:induction false} FilterMultiset<T>(xs: seq<T>, p: T -> bool)
    ensures forall v :: multiset(Filter(xs, p))[v] == (if p(v) then multiset(xs)[v] else 0)
    decreases |xs|
  {
    if |xs| > 0 {
      FilterMultiset(xs[1..], p);
      assert xs == [xs[0]] + xs[1..];
      var f := if p(xs[0]) then [xs[0]] else [];
      assert Filter(xs, p) == f + Filter(xs[1..], p);
      assert multiset(xs) == multiset([xs[0]]) + multiset(xs[1..]);
      assert multiset(Filter(xs, p)) == multiset(f) + multiset(Filter(xs[1..], p));
    }
  }

  /** Filtering depends only on which elements the predicate accepts. */
  lemma {:induction false} FilterCongruent<T>(xs: seq<T>, p: T -> bool, q: T -> bool)
    requires forall i :: 0 <= i < |xs| ==> p(xs[i]) == q(xs[i])
    ensures Filter(xs, p) == Filter(xs, q)
    decreases |xs|
  {
    if |xs| > 0 {
      FilterCongruent(xs[1..], p, q);
    }
  }

  /** `xs` is an order-preserving sublist of `ys`. */
  ghost predicate IsSubsequence<T>(xs: seq<T>, ys: seq<T>)
    decreases |ys|
  {
    if |xs| == 0 then true
    else if |ys| == 0 then false
    else if xs[0] == ys[0] then IsSubsequence(xs[1..], ys[1..])
    else IsSubsequence(xs, ys[1..])
  }

  lemma {:induction false} FilterIsSubsequence<T>(xs: seq<T>, p: T -> bool)
    ensures IsSubsequence(Filter(xs, p), xs)
    decreases |xs|
  {
    if |xs| > 0 {
      FilterIsSubsequence(xs[1..], p);
      var rest := Filter(xs[1..], p);
      if p(xs[0]) {
        assert Filter(xs, p) == [xs[0]] + rest;
        assert ([xs[0]] + rest)[1..] == rest;
      } else {
        assert Filter(xs, p) == rest;
        SubsequenceSkip(rest, xs);
      }
    }
  }

  /** Dropping the head of the longer list keeps a sublist that does not use it. */
  lemma {:induction false} SubsequenceSkip<T>(xs: seq<T>, ys: seq<T>)
    requires |ys| > 0
    requires IsSubsequence(xs, ys[1..])
    ensures IsSubsequence(xs, ys)
    decreases |ys|, 0
  {
    if |xs| > 0 && xs[0] == ys[0] {
      SubsequenceTail(xs, ys[1..]);
    }
  }

  lemma {:induction false} SubsequenceTail<T>(xs: seq<T>, ys: seq<T>)
    requires |xs| > 0
    requires IsSubsequence(xs, ys)
    ensures IsSubsequence(xs[1..], ys)
    decreases |ys|, 1
  {
    assert |ys| > 0;
    if xs[0] == ys[0] {
      if |xs[1..]| > 0 {
        SubsequenceSkip(xs[1..], ys);
      }
    } else {
      SubsequenceTail(xs, ys[1..]);
      if |xs[1..]| > 0 {
        SubsequenceSkip(xs[1..], ys);
      }
    }
  }
}
