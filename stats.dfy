/** Running minimum, maximum and sum of a block of temperature readings.
    Readings are exact reals; each function folds the block from the left,
    one reading at a time, as the daily aggregation loop does. */
module Stats {

  /** The smaller of two readings (Math.min on ordered values). */
  function Min2(x: real, y: real): real
  {
    if x <= y then x else y
  }

  /** The larger of two readings (Math.max on ordered values). */
  function Max2(x: real, y: real): real
  {
    if x >= y then x else y
  }

  /** Sum of a block, accumulated left to right starting from 0.0. */
  function Sum(b: seq<real>): real
  {
    if b == [] then 0.0 else Sum(b[..|b| - 1]) + b[|b| - 1]
  }

  /** Running minimum: the first reading, then Min2 with each later one. */
  function Minimum(b: seq<real>): real
    requires b != []
  {
    if |b| == 1 then b[0] else Min2(Minimum(b[..|b| - 1]), b[|b| - 1])
  }

  /** Running maximum: the first reading, then Max2 with each later one. */
  function Maximum(b: seq<real>): real
    requires b != []
  {
    if |b| == 1 then b[0] else Max2(Maximum(b[..|b| - 1]), b[|b| - 1])
  }

  /** Average of a non-empty block. */
  function Average(b: seq<real>): real
    requires b != []
  {
    Sum(b) / (|b| as real)
  }

  /** The running minimum is one of the readings and no reading is below it. */
  lemma {:induction false} MinimumIsLeast(b: seq<real>)
    requires b != []
    ensures Minimum(b) in b
    ensures forall k :: 0 <= k < |b| ==> Minimum(b) <= b[k]
  {
    if |b| > 1 {
      var p := b[..|b| - 1];
      MinimumIsLeast(p);
      assert b == p + [b[|b| - 1]];
    }
  }

  /** The running maximum is one of the readings and no reading is above it. */
  lemma {:induction false} MaximumIsGreatest(b: seq<real>)
    requires b != []
    ensures Maximum(b) in b
    ensures forall k :: 0 <= k < |b| ==> b[k] <= Maximum(b)
  {
    if |b| > 1 {
      var p := b[..|b| - 1];
      MaximumIsGreatest(p);
      assert b == p + [b[|b| - 1]];
    }
  }

  /** A lower bound of every reading bounds the sum from below. */
  lemma {:induction false} SumAtLeast(b: seq<real>, m: real)
    requires forall k :: 0 <= k < |b| ==> m <= b[k]
    ensures (|b| as real) * m <= Sum(b)
  {
    if b != [] {
      var p := b[..|b| - 1];
      SumAtLeast(p, m);
      assert (|b| as real) * m == (|p| as real) * m + m;
    }
  }

  /** An upper bound of every reading bounds the sum from above. */
  lemma {:induction false} SumAtMost(b: seq<real>, m: real)
    requires forall k :: 0 <= k < |b| ==> b[k] <= m
    ensures Sum(b) <= (|b| as real) * m
  {
    if b != [] {
      var p := b[..|b| - 1];
      SumAtMost(p, m);
      assert (|b| as real) * m == (|p| as real) * m + m;
    }
  }

  /** Dividing by a positive count keeps a bound of the form n * lo <= s <= n * hi. */
  lemma DivideBounds(s: real, n: real, lo: real, hi: real)
    requires 0.0 < n
    requires n * lo <= s <= n * hi
    ensures lo <= s / n <= hi
  {
    var q := s / n;
    assert s == n * q;
    assert n * lo <= n * q && n * q <= n * hi;
  }

  /** The average of a non-empty block lies between its minimum and its maximum. */
  lemma AverageWithinRange(b: seq<real>)
    requires b != []
    ensures Minimum(b) <= Average(b) <= Maximum(b)
  {
    var n := |b| as real;
    assert n * Minimum(b) <= Sum(b) by {
      MinimumIsLeast(b);
      SumAtLeast(b, Minimum(b));
    }
    assert Sum(b) <= n * Maximum(b) by {
      MaximumIsGreatest(b);
      SumAtMost(b, Maximum(b));
    }
    DivideBounds(Sum(b), n, Minimum(b), Maximum(b));
  }

  /** A block whose readings all equal c has minimum, maximum and average c. */
  lemma ConstantBlock(b: seq<real>, c: real)
    requires b != []
    requires forall k :: 0 <= k < |b| ==> b[k] == c
    ensures Minimum(b) == c && Maximum(b) == c && Average(b) == c
  {
    MinimumIsLeast(b);
    MaximumIsGreatest(b);
    SumAtLeast(b, c);
    SumAtMost(b, c);
    DivideBounds(Sum(b), |b| as real, c, c);
  }
}
