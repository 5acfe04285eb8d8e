/**
 * Stride downsampling of the plot series in analyze_motor_data.py: with
 * `step = n // max_data_points`, every series is cut to `s[::step]`, the
 * anomaly indices are carried over as `[i // step for i in idx if i % step == 0]`
 * and, without a time column, the time axis is `range(0, n, step)`.
 */
module Downsample {
  import opened Indices

  /** `s[::step]`: the first element, then every step-th one after it. */
  function Stride<T>(s: seq<T>, step: nat): seq<T>
    requires step >= 1
    decreases |s|
  {
    if |s| == 0 then [] else [s[0]] + Stride(s[if step <= |s| then step else |s|..], step)
  }

  /** The step used: `n // max_data_points` when the series is longer than the maximum, else 1. */
  function Step(n: nat, maxPoints: nat): (step: nat)
    requires maxPoints >= 1
    ensures step >= 1
    ensures n > maxPoints ==> step == n / maxPoints
    ensures n <= maxPoints ==> step == 1
  {
    if n > maxPoints then n / maxPoints else 1
  }

  /** A series of an n-row frame as the payload carries it: `s[::step]` past the maximum, else whole. */
  function Thin<T>(s: seq<T>, n: nat, maxPoints: nat): seq<T>
    requires maxPoints >= 1
  {
    if n > maxPoints then Stride(s, Step(n, maxPoints)) else s
  }

  lemma MulStep(a: int, step: int)
    ensures (a + 1) * step == a * step + step
  {
  }

  lemma {:induction false} MulMonotone(a: nat, b: nat, step: nat)
    requires a <= b
    ensures a * step <= b * step
    decreases b - a
  {
    if a < b {
      MulMonotone(a, b - 1, step);
      MulStep(b - 1, step);
    }
  }

  /** Quotient and remainder are the unique q, r with x == q * step + r and r < step. */
  lemma DivMod(x: nat, step: nat, q: nat, r: nat)
    requires step >= 1 && x == q * step + r && r < step
    ensures x / step == q && x % step == r
  {
    var q', r' := x / step, x % step;
    assert x == q' * step + r';
    if q' > q {
      MulMonotone(q + 1, q', step);
      MulStep(q, step);
    } else if q' < q {
      MulMonotone(q' + 1, q, step);
      MulStep(q', step);
    }
  }

  lemma DivPlusOne(x: nat, step: nat)
    requires step >= 1
    ensures (x + step) / step == x / step + 1
  {
    var q, r := x / step, x % step;
    assert x == q * step + r;
    MulStep(q, step);
    DivMod(x + step, step, q + 1, r);
  }

  /** `len(s[::step])` is the ceiling of n / step. */
  lemma {:induction false} StrideLength<T>(s: seq<T>, step: nat)
    requires step >= 1
    ensures |Stride(s, step)| == (|s| + step - 1) / step
    decreases |s|
  {
    if |s| == 0 {
      DivMod(step - 1, step, 0, step - 1);
    } else if step <= |s| {
      var rest := s[step..];
      StrideLength(rest, step);
      assert |Stride(s, step)| == 1 + |Stride(rest, step)|;
      var m: nat := |s| - 1;
      assert |rest| + step - 1 == m;
      DivPlusOne(m, step);
      assert |s| + step - 1 == m + step;
    } else {
      assert |Stride(s, step)| == 1 + |Stride(s[|s|..], step)|;
      assert Stride(s[|s|..], step) == [];
      DivMod(|s| + step - 1, step, 1, |s| - 1);
    }
  }

  /** The j-th kept element is the original element j * step. */
  lemma {:induction false} StrideAt<T>(s: seq<T>, step: nat, j: nat)
    requires step >= 1 && j < |Stride(s, step)|
    ensures j * step < |s| && Stride(s, step)[j] == s[j * step]
    decreases |s|
  {
    var rest := s[if step <= |s| then step else |s|..];
    assert Stride(s, step) == [s[0]] + Stride(rest, step);
    if j > 0 {
      StrideAt(rest, step, j - 1);
      assert step <= |s|;
      MulStep(j - 1, step);
      assert rest[(j - 1) * step] == s[(j - 1) * step + step];
    }
  }

  /** StrideAt for every kept position at once. */
  lemma StrideSamples<T>(s: seq<T>, step: nat)
    requires step >= 1
    ensures forall j :: 0 <= j < |Stride(s, step)| ==> j * step < |s| && Stride(s, step)[j] == s[j * step]
  {
    forall j | 0 <= j < |Stride(s, step)| ensures j * step < |s| && Stride(s, step)[j] == s[j * step] {
      StrideAt(s, step, j);
    }
  }

  /** Sample j of a thinned series is row j * step of the frame. */
  lemma ThinSamples<T>(s: seq<T>, maxPoints: nat)
    requires maxPoints >= 1
    ensures var step := Step(|s|, maxPoints);
      && |Thin(s, |s|, maxPoints)| == |Stride(s, step)|
      && forall j :: 0 <= j < |Thin(s, |s|, maxPoints)| ==> j * step < |s| && Thin(s, |s|, maxPoints)[j] == s[j * step]
  {
    var step := Step(|s|, maxPoints);
    if |s| > maxPoints {
      StrideSamples(s, step);
    } else {
      StrideOne(s);
    }
  }

  /** Columns of the same frame are thinned to the same length. */
  lemma ThinSameLength<T, U>(s: seq<T>, t: seq<U>, maxPoints: nat)
    requires maxPoints >= 1 && |s| == |t|
    ensures |Thin(s, |s|, maxPoints)| == |Thin(t, |t|, maxPoints)|
  {
    if |s| > maxPoints {
      StrideSameLength(s, t, Step(|s|, maxPoints));
    }
  }

  /** A step of one keeps everything. */
  lemma {:induction false} StrideOne<T>(s: seq<T>)
    ensures Stride(s, 1) == s
    decreases |s|
  {
    if |s| > 0 {
      StrideOne(s[1..]);
    }
  }

  /** Two series of the same length are cut to the same length. */
  lemma StrideSameLength<T, U>(s: seq<T>, t: seq<U>, step: nat)
    requires step >= 1 && |s| == |t|
    ensures |Stride(s, step)| == |Stride(t, step)|
  {
    StrideLength(s, step);
    StrideLength(t, step);
  }

  /**
   * When n exceeds the maximum, the downsampled series has at least the
   * maximum and fewer than twice the maximum points: `n // max` rounds down,
   * so the maximum is a target, not a cap.
   */
  lemma DownsampledLength<T>(s: seq<T>, maxPoints: nat)
    requires maxPoints >= 1 && |s| > maxPoints
    ensures maxPoints <= |Stride(s, Step(|s|, maxPoints))| < 2 * maxPoints
  {
    var n, step := |s|, Step(|s|, maxPoints);
    var r := n % maxPoints;
    assert n == step * maxPoints + r && r < maxPoints;
    StrideLength(s, step);
    assert maxPoints * step == step * maxPoints;
    MulDivLower(maxPoints, step, n + step - 1);
    Corner(maxPoints, step);
    DoubleMul(maxPoints, step);
    DivUpper(n + step - 1, step, 2 * maxPoints);
  }

  lemma DoubleMul(a: nat, b: nat)
    ensures (2 * a) * b == a * b + a * b
  {
  }

  /**
   * Between the maximum and twice the maximum the step is 1: the series is
   * flagged as downsampled, yet every sample is kept.
   */
  lemma StepOneBelowDouble<T>(s: seq<T>, maxPoints: nat)
    requires maxPoints >= 1 && maxPoints < |s| < 2 * maxPoints
    ensures Step(|s|, maxPoints) == 1 && Thin(s, |s|, maxPoints) == s
  {
    DivMod(|s|, maxPoints, 1, |s| - maxPoints);
    StrideOne(s);
  }

  lemma Corner(a: nat, b: nat)
    requires a >= 1 && b >= 1
    ensures a * b >= a + b - 1
  {
    MulMonotone(1, b, a - 1);
    MulStep(a - 1, b);
  }

  lemma MulDivLower(a: nat, step: nat, x: nat)
    requires step >= 1 && a * step <= x
    ensures a <= x / step
  {
    var q := x / step;
    assert x == q * step + x % step;
    if a > q {
      MulMonotone(q + 1, a, step);
      MulStep(q, step);
    }
  }

  lemma DivUpper(x: nat, step: nat, b: nat)
    requires step >= 1 && x < b * step
    ensures x / step < b
  {
    var q := x / step;
    assert x == q * step + x % step;
    if q >= b {
      MulMonotone(b, q, step);
    }
  }

  /** `[i // step for i in idx if i % step == 0]` */
  function Remap(idx: seq<nat>, step: nat): seq<nat>
    requires step >= 1
  {
    if |idx| == 0 then []
    else (if idx[0] % step == 0 then [idx[0] / step] else []) + Remap(idx[1..], step)
  }

  lemma MultipleOf(i: nat, step: nat)
    requires step >= 1
    ensures i % step == 0 ==> (i / step) * step == i
    ensures (i * step) % step == 0 && (i * step) / step == i
  {
    assert i == (i / step) * step + i % step;
    DivMod(i * step, step, i, 0);
  }

  /** A remapped index j stands for the original sample j * step, and every kept sample is there. */
  lemma {:induction false} RemapMembers(idx: seq<nat>, step: nat)
    requires step >= 1
    ensures forall j: nat :: j in Remap(idx, step) <==> j * step in idx
  {
    if |idx| > 0 {
      RemapMembers(idx[1..], step);
      var i := idx[0];
      assert idx == [i] + idx[1..];
      forall j: nat ensures j in Remap(idx, step) <==> j * step in idx {
        MultipleOf(i, step);
        MultipleOf(j, step);
        if i % step == 0 && i / step == j {
          assert j * step == i;
        }
        if j * step == i {
          assert i % step == 0 && i / step == j;
        }
      }
    }
  }

  lemma MultipleMonotone(a: nat, b: nat, step: nat)
    requires step >= 1 && a < b && a % step == 0 && b % step == 0
    ensures a / step < b / step
  {
    MultipleOf(a, step);
    MultipleOf(b, step);
    if a / step >= b / step {
      MulMonotone(b / step, a / step, step);
    }
  }

  /** Ascending indices stay ascending after the remap. */
  lemma {:induction false} RemapIncreasing(idx: seq<nat>, step: nat)
    requires step >= 1 && Increasing(idx)
    ensures Increasing(Remap(idx, step))
  {
    if |idx| > 0 {
      var rest := idx[1..];
      assert Increasing(rest);
      RemapIncreasing(rest, step);
      RemapMembers(rest, step);
      if idx[0] % step == 0 {
        var r := [idx[0] / step] + Remap(rest, step);
        forall b | 0 < b < |r| ensures r[0] < r[b] {
          var j := r[b];
          assert j in Remap(rest, step);
          var k :| 0 <= k < |rest| && rest[k] == j * step;
          assert idx[0] < idx[k + 1];
          MultipleOf(j, step);
          MultipleMonotone(idx[0], j * step, step);
        }
      }
    }
  }

  /** Every sample at a multiple of step is kept, at position j. */
  lemma StrideKeeps<T>(s: seq<T>, step: nat, j: nat)
    requires step >= 1 && j * step < |s|
    ensures j < |Stride(s, step)| && Stride(s, step)[j] == s[j * step]
  {
    StrideLength(s, step);
    var m: nat := |s| + step - 1;
    assert (j + 1) * step <= m by {
      MulStep(j, step);
    }
    MulDivLower(j + 1, step, m);
    StrideAt(s, step, j);
  }

  /**
   * Remapped indices of samples below n point into the downsampled series,
   * at the same original sample.
   */
  lemma RemapInRange<T>(s: seq<T>, idx: seq<nat>, step: nat)
    requires step >= 1 && forall k :: 0 <= k < |idx| ==> idx[k] < |s|
    ensures forall j :: j in Remap(idx, step) ==>
      j < |Stride(s, step)| && j * step in idx && Stride(s, step)[j] == s[j * step]
  {
    RemapMembers(idx, step);
    forall j: nat | j in Remap(idx, step)
      ensures j < |Stride(s, step)| && Stride(s, step)[j] == s[j * step]
    {
      assert j * step in idx;
      StrideKeeps(s, step, j);
    }
  }

  /** A step of one keeps every index. */
  lemma {:induction false} RemapOne(idx: seq<nat>)
    ensures Remap(idx, 1) == idx
  {
    if |idx| > 0 {
      RemapOne(idx[1..]);
    }
  }

  /**
   * The remapped indices of the samples that pass a test are exactly the
   * kept samples that pass it, still ascending.
   */
  lemma RemapWhere(s: seq<real>, step: nat, p: real -> bool)
    requires step >= 1
    ensures forall j: nat :: j in Remap(Where(|s|, (i: nat) => i < |s| && p(s[i])), step) <==>
      j < |Stride(s, step)| && p(Stride(s, step)[j])
    ensures Increasing(Remap(Where(|s|, (i: nat) => i < |s| && p(s[i])), step))
  {
    var idx := Where(|s|, (i: nat) => i < |s| && p(s[i]));
    WhereIncreasing(|s|, (i: nat) => i < |s| && p(s[i]));
    RemapMembers(idx, step);
    RemapIncreasing(idx, step);
    forall j: nat ensures j in Remap(idx, step) <==> j < |Stride(s, step)| && p(Stride(s, step)[j]) {
      KeptAt(s, step, j);
    }
  }

  /** Position j of the downsampled series exists exactly when row j * step does, and holds it. */
  lemma KeptAt(s: seq<real>, step: nat, j: nat)
    requires step >= 1
    ensures j < |Stride(s, step)| <==> j * step < |s|
    ensures j < |Stride(s, step)| ==> Stride(s, step)[j] == s[j * step]
  {
    if j * step < |s| {
      StrideKeeps(s, step, j);
    }
    if j < |Stride(s, step)| {
      StrideAt(s, step, j);
    }
  }

  /** `range(0, n, step)` as plot times. */
  function TimeAxis(n: nat, step: nat): (t: seq<real>)
    requires step >= 1
  {
    seq((n + step - 1) / step, j requires 0 <= j < (n + step - 1) / step => (j * step) as real)
  }

  /** The fallback axis has one entry per downsampled sample, the j-th being the original position j * step. */
  lemma TimeAxisMatches<T>(s: seq<T>, step: nat)
    requires step >= 1
    ensures |TimeAxis(|s|, step)| == |Stride(s, step)|
    ensures forall j :: 0 <= j < |Stride(s, step)| ==> TimeAxis(|s|, step)[j] == (j * step) as real && j * step < |s|
  {
    StrideLength(s, step);
    forall j | 0 <= j < |Stride(s, step)| ensures j * step < |s| {
      StrideAt(s, step, j);
    }
  }
}
