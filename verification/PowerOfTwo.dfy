/** next_power_of_2: bit smearing on a 64-bit word finds the least power of two. */
module PowerOfTwo {
  import opened Word64

  function Pow2(k: nat): (r: nat)
    ensures r > 0
  {
    if k == 0 then 1 else 2 * Pow2(k - 1)
  }

  /** The number a bit sequence stands for, lowest bit first. */
  function Value(w: seq<bool>): nat {
    if w == [] then 0 else (if w[0] then 1 else 0) + 2 * Value(w[1..])
  }

  function BitsOf(n: nat, len: nat): (w: seq<bool>)
    ensures |w| == len
  {
    if len == 0 then [] else [n % 2 == 1] + BitsOf(n / 2, len - 1)
  }

  lemma {:induction false} BitsValue(n: nat, len: nat)
    requires n < Pow2(len)
    ensures Value(BitsOf(n, len)) == n
  {
    if len > 0 {
      BitsValue(n / 2, len - 1);
      assert BitsOf(n, len)[1..] == BitsOf(n / 2, len - 1);
    }
  }

  /** w | (w >> s) */
  function OrShift(w: Word, s: nat): (r: Word) {
    seq(64, i requires 0 <= i < 64 => w[i] || (i + s < 64 && w[i + s]))
  }

  /** Bit `i` of `x` tells whether one of the `k` bits of `w` from `i` on is set. */
  ghost predicate Smeared(w: Word, x: Word, k: nat) {
    forall i: nat :: i < 64 ==> (x[i] <==> exists j: nat :: i <= j < i + k && j < 64 && w[j])
  }

  lemma SmearStep(w: Word, x: Word, k: nat)
    requires Smeared(w, x, k) && k > 0
    ensures Smeared(w, OrShift(x, k), 2 * k)
  {
    var y := OrShift(x, k);
    forall i: nat | i < 64 ensures y[i] <==> exists j: nat :: i <= j < i + 2 * k && j < 64 && w[j] {
      if y[i] {
        var m := if x[i] then i else i + k;
        assert x[m];
        var j: nat :| m <= j < m + k && j < 64 && w[j];
        assert i <= j < i + 2 * k;
      } else {
        forall j: nat | i <= j < i + 2 * k && j < 64 ensures !w[j] {
          assert !x[i];
          if j >= i + k { assert !x[i + k]; }
        }
      }
    }
  }

  /** The highest set bit. */
  ghost predicate Top(w: seq<bool>, h: nat) {
    h < |w| && w[h] && forall j :: h < j < |w| ==> !w[j]
  }

  lemma {:induction false} TopValue(w: seq<bool>, h: nat)
    requires Top(w, h)
    ensures Pow2(h) <= Value(w) < Pow2(h + 1)
    decreases |w|
  {
    if h == 0 {
      ZeroValue(w[1..]);
    } else {
      TopValue(w[1..], h - 1);
    }
  }

  lemma {:induction false} ZeroValue(w: seq<bool>)
    requires forall j :: 0 <= j < |w| ==> !w[j]
    ensures Value(w) == 0
  {
    if w != [] { ZeroValue(w[1..]); }
  }

  lemma {:induction false} OnesValue(x: seq<bool>, h: nat)
    requires h <= |x| && forall i :: 0 <= i < |x| ==> (x[i] <==> i < h)
    ensures Value(x) + 1 == Pow2(h)
    decreases |x|
  {
    if h == 0 { ZeroValue(x); } else { OnesValue(x[1..], h - 1); }
  }

  lemma {:induction false} FindTop(w: seq<bool>) returns (h: nat)
    requires exists j :: 0 <= j < |w| && w[j]
    ensures Top(w, h)
  {
    var n := |w| - 1;
    if w[n] {
      h := n;
    } else {
      assert exists j :: 0 <= j < n && w[..n][j] by {
        var j :| 0 <= j < |w| && w[j];
        assert w[..n][j];
      }
      h := FindTop(w[..n]);
      assert forall j :: h < j < n ==> !w[..n][j];
    }
  }

  lemma {:induction false} PowMonotone(a: nat, b: nat)
    requires a < b
    ensures 2 * Pow2(a) <= Pow2(b)
    decreases b
  {
    if a < b - 1 { PowMonotone(a, b - 1); }
  }

  /** `r` is the least power of two that is at least `n`. */
  ghost predicate LeastPower(n: nat, r: nat) {
    n <= r && (exists k: nat :: r == Pow2(k)) && forall k: nat :: n <= Pow2(k) ==> r <= Pow2(k)
  }

  /** next_power_of_2; from 2^63 + 1 on the last addition wraps to 0. */
  method NextPowerOf2(n: nat) returns (r: nat)
    requires n < Pow2(64)
    ensures n <= Pow2(63) ==> LeastPower(n, r)
    ensures n > Pow2(63) ==> r == 0
  {
    hide OrShift, Smeared, Pow2, BitsOf, Value, LeastPower, Wrap;
    if n == 0 {
      LeastOfZero();
      return 1;
    }
    var w: Word := BitsOf(n - 1, 64);
    BitsValue(n - 1, 64);
    SmearAll(w);
    var x := OrShift(w, 1);
    x := OrShift(x, 2);
    x := OrShift(x, 4);
    x := OrShift(x, 8);
    x := OrShift(x, 16);
    x := OrShift(x, 32);
    SmearValue(w, x, n);
    WrapIs(Value(x) + 1);
    r := Wrap(Value(x) + 1);
  }

  /** A 64-bit result. */
  function Wrap(a: nat): nat { a % Pow2(64) }

  lemma WrapIs(a: nat)
    ensures a < Pow2(64) ==> Wrap(a) == a
    ensures Wrap(Pow2(64)) == 0
  {
    hide Pow2;
  }

  lemma SmearAll(w: Word)
    ensures Smeared(w, OrShift(OrShift(OrShift(OrShift(OrShift(OrShift(w, 1), 2), 4), 8), 16), 32), 64)
  {
    hide OrShift, Smeared;
    SmearNone(w);
    SmearStep(w, w, 1);
    SmearStep(w, OrShift(w, 1), 2);
    SmearStep(w, OrShift(OrShift(w, 1), 2), 4);
    SmearStep(w, OrShift(OrShift(OrShift(w, 1), 2), 4), 8);
    SmearStep(w, OrShift(OrShift(OrShift(OrShift(w, 1), 2), 4), 8), 16);
    SmearStep(w, OrShift(OrShift(OrShift(OrShift(OrShift(w, 1), 2), 4), 8), 16), 32);
  }

  lemma LeastOfZero()
    ensures LeastPower(0, 1) && 0 <= Pow2(63)
  {
    assert Pow2(0) == 1;
  }

  lemma SmearNone(w: Word)
    ensures Smeared(w, w, 1)
  {
    forall i: nat | i < 64 ensures w[i] <==> exists j: nat :: i <= j < i + 1 && j < 64 && w[j] {
      if w[i] { assert i <= i < i + 1 && w[i]; }
    }
  }

  lemma SmearValue(w: Word, x: Word, n: nat)
    requires Smeared(w, x, 64) && Value(w) == n - 1
    ensures Value(x) + 1 <= Pow2(64) && (Value(x) + 1 == Pow2(64) <==> n > Pow2(63)) && LeastPower(n, Value(x) + 1)
  {
    if exists j :: 0 <= j < 64 && w[j] {
      var h := FindTop(w);
      TopValue(w, h);
      forall i: nat | i < 64 ensures x[i] <==> i < h + 1 {
        if i <= h { assert i <= h < i + 64 && w[h]; }
      }
      OnesValue(x, h + 1);
      LeastAbove(n, h);
      if h < 63 { PowMonotone(h, 63); PowMonotone(h + 1, 64); }
    } else {
      ZeroValue(w);
      ZeroValue(x);
      PowMonotone(0, 63);
      PowMonotone(0, 64);
      assert Pow2(0) == 1;
    }
  }

  lemma LeastAbove(n: nat, h: nat)
    requires Pow2(h) < n <= Pow2(h + 1)
    ensures LeastPower(n, Pow2(h + 1))
  {
    forall k: nat | n <= Pow2(k) ensures Pow2(h + 1) <= Pow2(k) {
      if k < h { PowMonotone(k, h); }
      if k > h + 1 { PowMonotone(h + 1, k); }
    }
  }
}
