/**
 * Root bracketing and refinement over a sampled function: `zbrak` scans an interval in
 * equal steps and records every step across which the function does not keep a strict
 * sign; `zbrent` narrows one such bracket by Brent's method. The function is a parameter.
 * Exact real arithmetic stands in for doubles, so nothing here speaks about rounding or
 * about how fast `zbrent` converges.
 */
module RootFinding {
  import opened Wrappers
  import AstroCalc

  /** The first capacity of the bracket buffers. */
  const InitialCapacity: nat := 20

  /** `numeric_limits<double>::epsilon ()`, 2^-52. */
  const Eps: real := 1.0 / 4503599627370496.0

  /** The iteration budget of `zbrent`. */
  const ItMax: nat := 100

  // ---------------------------------------------------------------------------
  // Bracketing

  /** The step width `(x2 - x1) / n`; it is never used when `n` is not positive. */
  function StepWidth(x1: real, x2: real, n: int): real
  {
    if n == 0 then 0.0 else (x2 - x1) / n as real
  }

  /** The sample point reached from `x1` after `i` steps of `dx` (the scan adds `dx` each time). */
  function SamplePoint(x1: real, dx: real, i: int): real
    decreases i
  {
    if i <= 0 then x1 else SamplePoint(x1, dx, i - 1) + dx
  }

  /** Step `i` is recorded when the samples at its two ends have product at most zero. */
  predicate BracketAt(f: real -> real, x1: real, dx: real, i: int)
  {
    SignChange(f(SamplePoint(x1, dx, i + 1)), f(SamplePoint(x1, dx, i)))
  }

  /** `zbrak`'s test on two neighbouring samples: their product is at most zero. */
  predicate SignChange(fc: real, fp: real)
  {
    fc * fp <= 0.0
  }

  /** The steps among the first `n` that are recorded, in the order the scan meets them. */
  function BracketSteps(f: real -> real, x1: real, dx: real, n: int): (r: seq<int>)
    ensures n <= 0 ==> r == []
    ensures |r| <= if n < 0 then 0 else n
    ensures forall k :: 0 <= k < |r| ==> 0 <= r[k] < n && BracketAt(f, x1, dx, r[k])
    decreases n
  {
    if n <= 0 then []
    else BracketSteps(f, x1, dx, n - 1) + (if BracketAt(f, x1, dx, n - 1) then [n - 1] else [])
  }

  /** One more step of the scan: the next sample is `dx` further on, and the step is recorded if it brackets. */
  lemma BracketStepsNext(f: real -> real, x1: real, dx: real, i: int)
    requires i >= 0
    ensures SamplePoint(x1, dx, i + 1) == SamplePoint(x1, dx, i) + dx
    ensures BracketSteps(f, x1, dx, i + 1)
      == BracketSteps(f, x1, dx, i) + (if BracketAt(f, x1, dx, i) then [i] else [])
  {
  }

  /** The recorded steps are strictly increasing. */
  lemma {:induction false} BracketStepsIncreasing(f: real -> real, x1: real, dx: real, n: int)
    ensures forall j, k :: 0 <= j < k < |BracketSteps(f, x1, dx, n)| ==>
      BracketSteps(f, x1, dx, n)[j] < BracketSteps(f, x1, dx, n)[k]
    decreases n
  {
    if n > 0 {
      BracketStepsIncreasing(f, x1, dx, n - 1);
    }
  }

  /** Every step that brackets is recorded: nothing is skipped. */
  lemma {:induction false} BracketStepsComplete(f: real -> real, x1: real, dx: real, n: int, i: int)
    requires 0 <= i < n && BracketAt(f, x1, dx, i)
    ensures i in BracketSteps(f, x1, dx, n)
    decreases n
  {
    if i < n - 1 {
      BracketStepsComplete(f, x1, dx, n - 1, i);
    }
  }

  /** The capacity the buffers have grown to once `nroot` brackets are held: doubled from `nb` until above `nroot`. */
  function CapacityFor(nroot: nat, nb: nat): (c: nat)
    requires nb > 0
    ensures c > nroot && c >= nb
    decreases nroot - nb + 1
  {
    if nroot < nb then nb else CapacityFor(nroot, 2 * nb)
  }

  /** One more bracket keeps the capacity, except when it fills it exactly: then it doubles. */
  lemma {:induction false} CapacityNext(nroot: nat, nb: nat)
    requires nb > 0
    ensures CapacityFor(nroot + 1, nb)
      == if nroot + 1 == CapacityFor(nroot, nb) then 2 * CapacityFor(nroot, nb) else CapacityFor(nroot, nb)
    decreases nroot - nb + 1
  {
    if nroot >= nb {
      CapacityNext(nroot, 2 * nb);
    } else if nroot + 1 == nb {
      assert CapacityFor(nroot + 1, nb) == CapacityFor(nb, 2 * nb);
    }
  }

  /** The low ends of the given steps. */
  function Lows(x1: real, dx: real, steps: seq<int>): (r: seq<real>)
    ensures |r| == |steps|
  {
    seq(|steps|, k requires 0 <= k < |steps| => SamplePoint(x1, dx, steps[k]))
  }

  /** The high ends of the given steps, one `dx` above the low ends. */
  function Highs(x1: real, dx: real, steps: seq<int>): (r: seq<real>)
    ensures |r| == |steps|
  {
    seq(|steps|, k requires 0 <= k < |steps| => SamplePoint(x1, dx, steps[k]) + dx)
  }

  lemma EndsPush(x1: real, dx: real, steps: seq<int>, i: int)
    ensures Lows(x1, dx, steps + [i]) == Lows(x1, dx, steps) + [SamplePoint(x1, dx, i)]
    ensures Highs(x1, dx, steps + [i]) == Highs(x1, dx, steps) + [SamplePoint(x1, dx, i) + dx]
  {
  }

  /** `std::vector::resize`: keeps the first `m` entries, padding with zeros when there are fewer. */
  function Resized(s: seq<real>, m: nat): (r: seq<real>)
    ensures |r| == m
    ensures forall k :: 0 <= k < m ==> r[k] == if k < |s| then s[k] else 0.0
  {
    if |s| >= m then s[..m] else s + seq(m - |s|, _ => 0.0)
  }

  /**
   * What a buffer of capacity `nb` holds in the entries no bracket has overwritten: the
   * caller's buffer resized to 20 entries, then zeros for every later growth.
   */
  function Backing(given: seq<real>, nb: nat): (r: seq<real>)
    requires nb >= InitialCapacity
    ensures |r| == nb
  {
    Resized(given, InitialCapacity) + seq(nb - InitialCapacity, _ => 0.0)
  }

  /** Writing the entry after the held ones extends what is held. */
  lemma BufferPush(held: seq<real>, back: seq<real>, v: real)
    requires |held| < |back|
    ensures (held + back[|held|..])[|held| := v] == (held + [v]) + back[|held| + 1..]
  {
    var lhs := (held + back[|held|..])[|held| := v];
    var rhs := (held + [v]) + back[|held| + 1..];
    assert |lhs| == |rhs|;
    assert forall k :: 0 <= k < |lhs| ==> lhs[k] == rhs[k];
  }

  /** Growing a full buffer to twice its capacity adds only zeros the backing also has. */
  lemma BufferDouble(given: seq<real>, held: seq<real>, nb: nat)
    requires nb >= InitialCapacity && |held| == nb
    ensures Resized(held + Backing(given, nb)[nb..], 2 * nb) == held + Backing(given, 2 * nb)[nb..]
  {
    assert Backing(given, nb)[nb..] == [];
    assert held + Backing(given, nb)[nb..] == held;
    assert Backing(given, 2 * nb)[nb..] == seq(nb, _ => 0.0);
  }

  /**
   * `zbrak`: divides [x1, x2] into `n` equal steps and records, in scan order, the two ends
   * of every step whose end samples have product at most zero (a zero sample counts). The
   * buffers are the caller's vectors: they are first resized to 20 entries and doubled
   * whenever they fill; they are not trimmed, so past the last bracket they hold what the
   * resizes left there.
   */
  method Zbrak(f: real -> real, x1: real, x2: real, n: int, given1: seq<real>, given2: seq<real>)
    returns (xb1: seq<real>, xb2: seq<real>, nroot: nat)
    ensures nroot == |BracketSteps(f, x1, StepWidth(x1, x2, n), n)|
    ensures |xb1| == |xb2| == CapacityFor(nroot, InitialCapacity)
    ensures xb1 == Lows(x1, StepWidth(x1, x2, n), BracketSteps(f, x1, StepWidth(x1, x2, n), n))
      + Backing(given1, |xb1|)[nroot..]
    ensures xb2 == Highs(x1, StepWidth(x1, x2, n), BracketSteps(f, x1, StepWidth(x1, x2, n), n))
      + Backing(given2, |xb2|)[nroot..]
  {
    var nb := InitialCapacity;
    xb1 := Resized(given1, nb);
    xb2 := Resized(given2, nb);
    nroot := 0;
    var dx := StepWidth(x1, x2, n);
    var x := x1;
    var fp := f(x1);
    var i := 0;
    ghost var steps: seq<int> := [];
    ghost var lows: seq<real> := [];
    ghost var highs: seq<real> := [];
    while i < n
      invariant 0 <= i && (i <= n || i == 0)
      invariant x == SamplePoint(x1, dx, i) && fp == f(x)
      invariant steps == BracketSteps(f, x1, dx, i) && nroot == |steps|
      invariant lows == Lows(x1, dx, steps) && highs == Highs(x1, dx, steps)
      invariant nb == |xb1| == |xb2| == CapacityFor(nroot, InitialCapacity)
      invariant xb1 == lows + Backing(given1, nb)[nroot..]
      invariant xb2 == highs + Backing(given2, nb)[nroot..]
      decreases n - i
    {
      BracketStepsNext(f, x1, dx, i);
      x := x + dx;
      var fc := f(x);
      assert BracketAt(f, x1, dx, i) <==> SignChange(fc, fp);
      if SignChange(fc, fp) {
        BufferPush(lows, Backing(given1, nb), x - dx);
        BufferPush(highs, Backing(given2, nb), x);
        EndsPush(x1, dx, steps, i);
        xb1 := xb1[nroot := x - dx];
        xb2 := xb2[nroot := x];
        lows := lows + [x - dx];
        highs := highs + [x];
        CapacityNext(nroot, InitialCapacity);
        nroot := nroot + 1;
        steps := steps + [i];
        if nroot == nb {
          BufferDouble(given1, lows, nb);
          BufferDouble(given2, highs, nb);
          xb1 := Resized(xb1, 2 * nb);
          xb2 := Resized(xb2, 2 * nb);
          nb := 2 * nb;
        }
      }
      fp := fc;
      i := i + 1;
    }
    assert steps == BracketSteps(f, x1, dx, n);
  }

  /**
   * What the buffers of `zbrak` hold: entry `k` below `nroot` is the `k`-th bracketing step,
   * from its low end to one step above, and `f` has a product at most zero across it.
   */
  lemma {:induction false} BracketsChangeSign(f: real -> real, x1: real, dx: real, n: int, k: int)
    requires 0 <= k < |BracketSteps(f, x1, dx, n)|
    ensures Highs(x1, dx, BracketSteps(f, x1, dx, n))[k] == Lows(x1, dx, BracketSteps(f, x1, dx, n))[k] + dx
    ensures f(Lows(x1, dx, BracketSteps(f, x1, dx, n))[k]) * f(Highs(x1, dx, BracketSteps(f, x1, dx, n))[k]) <= 0.0
    ensures !SameStrictSign(f(Lows(x1, dx, BracketSteps(f, x1, dx, n))[k]), f(Highs(x1, dx, BracketSteps(f, x1, dx, n))[k]))
  {
    var i := BracketSteps(f, x1, dx, n)[k];
    assert BracketAt(f, x1, dx, i);
    assert SamplePoint(x1, dx, i + 1) == SamplePoint(x1, dx, i) + dx;
  }

  // ---------------------------------------------------------------------------
  // Brent refinement

  /** Why `zbrent` throws. */
  datatype RootError = NotBracketed | TooManyIterations

  /** Both values strictly positive, or both strictly negative. */
  predicate SameStrictSign(x: real, y: real)
  {
    (x > 0.0 && y > 0.0) || (x < 0.0 && y < 0.0)
  }

  /** `SIGN(a, b)`: the magnitude of `a` with the sign of `b` (zero counts as positive). */
  function Sign(a: real, b: real): (r: real)
    ensures b >= 0.0 ==> r == AstroCalc.Abs(a)
    ensures b < 0.0 ==> r == -AstroCalc.Abs(a)
  {
    if b >= 0.0 then (if a >= 0.0 then a else -a) else (if a >= 0.0 then -a else a)
  }

  /** The convergence tolerance `tol1` at the current estimate `b`. */
  function Tolerance(b: real, tol: real): real
  {
    2.0 * Eps * AstroCalc.Abs(b) + 0.5 * tol
  }

  /**
   * What `zbrent` knows when it returns `b`: either `f(b)` is zero, or some point `c` where
   * `f` does not share `f(b)`'s strict sign lies within twice the tolerance of `b`.
   */
  ghost predicate Converged(f: real -> real, b: real, tol: real)
  {
    f(b) == 0.0 || exists c :: !SameStrictSign(f(b), f(c)) && AstroCalc.Abs(0.5 * (c - b)) <= Tolerance(b, tol)
  }

  /**
   * `zbrent`: Brent's method on [x1, x2]. Refuses endpoints whose values share a strict
   * sign, returns once the bracket is within tolerance or a zero is hit, and gives up after
   * 100 iterations. Every division it makes has a nonzero divisor.
   */
  method Zbrent(f: real -> real, x1: real, x2: real, tol: real) returns (result: Result<real, RootError>)
    ensures result == Failure(NotBracketed) <==> SameStrictSign(f(x1), f(x2))
    ensures result.Success? ==> Converged(f, result.value, tol)
  {
    var a, b, c := x1, x2, x2;
    var d, e := 0.0, 0.0;  // read only after the first reset assigns them (see dSet)
    ghost var dSet := false;
    var fa, fb := f(a), f(b);
    if SameStrictSign(fa, fb) {
      return Failure(NotBracketed);
    }
    var fc := fb;
    for iter := 0 to ItMax
      invariant fa == f(a) && fb == f(b) && fc == f(c)
      invariant !SameStrictSign(fa, fc)
      invariant dSet || fc == fb
    {
      if SameStrictSign(fb, fc) {
        c := a;
        fc := fa;
        d := b - a;
        e := d;
        dSet := true;
      }
      assert !SameStrictSign(fb, fc);
      if AstroCalc.Abs(fc) < AstroCalc.Abs(fb) {
        a := b;
        b := c;
        c := a;
        fa := fb;
        fb := fc;
        fc := fa;
      }
      assert AstroCalc.Abs(fb) <= AstroCalc.Abs(fc);
      var tol1 := 2.0 * Eps * AstroCalc.Abs(b) + 0.5 * tol;
      var xm := 0.5 * (c - b);
      if AstroCalc.Abs(xm) <= tol1 || fb == 0.0 {
        return Success(b);
      }
      assert dSet;
      if AstroCalc.Abs(e) >= tol1 && AstroCalc.Abs(fa) > AstroCalc.Abs(fb) {
        var s := fb / fa;
        var p, q;
        if a == c {
          p := 2.0 * xm * s;
          q := 1.0 - s;
        } else {
          q := fa / fc;
          var r := fb / fc;
          p := s * (2.0 * xm * q * (q - r) - (b - a) * (r - 1.0));
          q := (q - 1.0) * (r - 1.0) * (s - 1.0);
        }
        if p > 0.0 {
          q := -q;
        }
        p := AstroCalc.Abs(p);
        var min1 := 3.0 * xm * q - AstroCalc.Abs(tol1 * q);
        var min2 := AstroCalc.Abs(e * q);
        if 2.0 * p < (if min1 < min2 then min1 else min2) {
          e := d;
          d := p / q;
        } else {
          d := xm;
          e := d;
        }
      } else {
        d := xm;
        e := d;
      }
      a := b;
      fa := fb;
      if AstroCalc.Abs(d) > tol1 {
        b := b + d;
      } else {
        b := b + Sign(tol1, xm);
      }
      fb := f(b);
    }
    return Failure(TooManyIterations);
  }
}
