/** Aggregates over hourly series in which a value may be missing (`None`). */
module Series {
  import opened Common

  /** The non-missing values, in order: `[v for v in values if v is not None]`. */
  function Present(xs: seq<Option<real>>): (ps: seq<real>)
    ensures |ps| <= |xs|
  {
    if |xs| == 0 then []
    else (if xs[0].Some? then [xs[0].value] else []) + Present(xs[1..])
  }

  /** `Present` keeps exactly the values that are there. */
  lemma {:induction false} PresentSpec(xs: seq<Option<real>>)
    ensures forall v :: v in Present(xs) <==> Some(v) in xs
  {
    if |xs| > 0 {
      PresentSpec(xs[1..]);
      assert xs == [xs[0]] + xs[1..];
    }
  }

  lemma {:induction false} PresentAppend(xs: seq<Option<real>>, ys: seq<Option<real>>)
    ensures Present(xs + ys) == Present(xs) + Present(ys)
  {
    if |xs| == 0 {
      assert xs + ys == ys;
    } else {
      var zs := xs + ys;
      var head := if xs[0].Some? then [xs[0].value] else [];
      assert zs[0] == xs[0];
      assert zs[1..] == xs[1..] + ys;
      assert Present(zs) == head + Present(xs[1..] + ys);
      assert Present(xs) == head + Present(xs[1..]);
      PresentAppend(xs[1..], ys);
      assert head + (Present(xs[1..]) + Present(ys)) == (head + Present(xs[1..])) + Present(ys);
    }
  }

  function Sum(xs: seq<real>): real
  {
    if |xs| == 0 then 0.0 else xs[0] + Sum(xs[1..])
  }

  lemma {:induction false} SumAppend(xs: seq<real>, ys: seq<real>)
    ensures Sum(xs + ys) == Sum(xs) + Sum(ys)
  {
    if |xs| == 0 {
      assert xs + ys == ys;
    } else {
      assert (xs + ys)[1..] == xs[1..] + ys;
      SumAppend(xs[1..], ys);
    }
  }

  /** The smallest element of a non-empty sequence. */
  function Min(xs: seq<real>): real
    requires |xs| > 0
  {
    if |xs| == 1 then xs[0]
    else
      var rest := Min(xs[1..]);
      if xs[0] <= rest then xs[0] else rest
  }

  /** `Min` is an element that no element is below. */
  lemma {:induction false} MinSpec(xs: seq<real>)
    requires |xs| > 0
    ensures Min(xs) in xs
    ensures forall x :: x in xs ==> Min(xs) <= x
  {
    if |xs| > 1 {
      MinSpec(xs[1..]);
      assert forall x :: x in xs ==> x == xs[0] || x in xs[1..];
    }
  }

  /** `safe_sum`: the sum of the present values, 0 when there are none. */
  function SafeSum(xs: seq<Option<real>>): real
  {
    Sum(Present(xs))
  }

  /** `safe_mean`: the mean of the present values, 0 when there are none. */
  function SafeMean(xs: seq<Option<real>>): (r: real)
    ensures |Present(xs)| == 0 ==> r == 0.0
    ensures |Present(xs)| > 0 ==> r * |Present(xs)| as real == SafeSum(xs)
  {
    var ps := Present(xs);
    if |ps| == 0 then 0.0 else Sum(ps) / |ps| as real
  }

  /** `safe_min`: the minimum of the present values, 0 when there are none. */
  function SafeMin(xs: seq<Option<real>>): real
  {
    var ps := Present(xs);
    if |ps| == 0 then 0.0 else Min(ps)
  }

  /** `safe_min` is 0 when nothing is there, and otherwise a present value that no present
      value is below. */
  lemma SafeMinSpec(xs: seq<Option<real>>)
    ensures |Present(xs)| == 0 ==> SafeMin(xs) == 0.0
    ensures |Present(xs)| > 0 ==> Some(SafeMin(xs)) in xs
    ensures |Present(xs)| > 0 ==> forall i :: 0 <= i < |xs| && xs[i].Some? ==> SafeMin(xs) <= xs[i].value
  {
    var ps := Present(xs);
    if |ps| > 0 {
      PresentSpec(xs);
      MinSpec(ps);
      forall i | 0 <= i < |xs| && xs[i].Some? ensures SafeMin(xs) <= xs[i].value {
        assert Some(xs[i].value) in xs;
      }
    }
  }

  /** Some value is there exactly when some index holds one. */
  lemma PresentNonEmpty(xs: seq<Option<real>>)
    ensures |Present(xs)| > 0 <==> exists i :: 0 <= i < |xs| && xs[i].Some?
  {
    PresentSpec(xs);
    var ps := Present(xs);
    if |ps| > 0 {
      var v := ps[0];
      assert v in ps;
      assert Some(v) in xs;
    }
    if exists i :: 0 <= i < |xs| && xs[i].Some? {
      var i :| 0 <= i < |xs| && xs[i].Some?;
      assert Some(xs[i].value) in xs;
    }
  }

  /** A missing value counted as 0, as `v if v is not None else 0` and `v or 0` do. */
  function OrZero(x: Option<real>): real
  {
    if x.Some? then x.value else 0.0
  }

  function ZeroFilled(xs: seq<Option<real>>): (r: seq<real>)
    ensures |r| == |xs|
    ensures forall i :: 0 <= i < |xs| ==> r[i] == OrZero(xs[i])
  {
    seq(|xs|, i requires 0 <= i < |xs| => OrZero(xs[i]))
  }

  /** Filling one more hour of a prefix appends that hour's value. */
  lemma ZeroFilledSnoc(xs: seq<Option<real>>, n: nat)
    requires n < |xs|
    ensures ZeroFilled(xs[..n + 1]) == ZeroFilled(xs[..n]) + [OrZero(xs[n])]
  {
  }

  /** Skipping the missing values and counting them as zero give the same total, so
      `safe_sum` and `sum(v if v is not None else 0 ...)` agree. */
  lemma {:induction false} SafeSumIsZeroFilledSum(xs: seq<Option<real>>)
    ensures SafeSum(xs) == Sum(ZeroFilled(xs))
  {
    if |xs| > 0 {
      SafeSumIsZeroFilledSum(xs[1..]);
      var z := ZeroFilled(xs);
      assert z[1..] == ZeroFilled(xs[1..]);
      var head := if xs[0].Some? then [xs[0].value] else [];
      assert Present(xs) == head + Present(xs[1..]);
      SumAppend(head, Present(xs[1..]));
      assert Sum(head) == OrZero(xs[0]) by {
        if xs[0].Some? { assert head[1..] == []; }
      }
    }
  }

  /** Missing values do not change a total, and totals of adjacent pieces add up. */
  lemma SafeSumAppend(xs: seq<Option<real>>, ys: seq<Option<real>>)
    ensures SafeSum(xs + ys) == SafeSum(xs) + SafeSum(ys)
    ensures SafeSum(xs + [None]) == SafeSum(xs)
  {
    PresentAppend(xs, ys);
    SumAppend(Present(xs), Present(ys));
    PresentAppend(xs, [None]);
    assert Present([None]) == [];
    SumAppend(Present(xs), []);
    assert Present(xs) + [] == Present(xs);
  }

  lemma {:induction false} SumBounds(xs: seq<real>, lo: real, hi: real)
    requires forall x :: x in xs ==> lo <= x <= hi
    ensures |xs| as real * lo <= Sum(xs) <= |xs| as real * hi
  {
    if |xs| > 0 {
      var tail := xs[1..];
      forall x | x in tail ensures lo <= x <= hi {
        assert x in xs;
      }
      assert lo <= xs[0] <= hi by {
        assert xs[0] in xs;
      }
      SumBounds(tail, lo, hi);
      var n := |tail| as real;
      assert |xs| as real == n + 1.0;
      assert (n + 1.0) * lo == n * lo + lo;
      assert (n + 1.0) * hi == n * hi + hi;
    }
  }

  /** A quotient by a positive count lies between the bounds the count times which bound
      the dividend. */
  lemma QuotientBetween(s: real, n: real, lo: real, hi: real)
    requires n > 0.0 && n * lo <= s <= n * hi
    ensures lo <= s / n <= hi
  {
    var m := s / n;
    assert m * n == s;
    assert (m - lo) * n >= 0.0;
    assert (hi - m) * n >= 0.0;
  }

  /** Bounds on the values that are there bound every present value. */
  lemma PresentBounded(xs: seq<Option<real>>, lo: real, hi: real)
    requires forall v :: Some(v) in xs ==> lo <= v <= hi
    ensures forall x :: x in Present(xs) ==> lo <= x <= hi
  {
    PresentSpec(xs);
  }

  /** The mean of a non-empty sequence lies between any bounds on its elements. */
  lemma MeanBounds(ps: seq<real>, lo: real, hi: real)
    requires |ps| > 0
    requires forall x :: x in ps ==> lo <= x <= hi
    ensures lo <= Sum(ps) / |ps| as real <= hi
  {
    SumBounds(ps, lo, hi);
    QuotientBetween(Sum(ps), |ps| as real, lo, hi);
  }

  /** The mean of the present values lies between any bounds on them. */
  lemma SafeMeanBounds(xs: seq<Option<real>>, lo: real, hi: real)
    requires forall v :: Some(v) in xs ==> lo <= v <= hi
    requires |Present(xs)| > 0
    ensures lo <= SafeMean(xs) <= hi
  {
    PresentBounded(xs, lo, hi);
    MeanBounds(Present(xs), lo, hi);
  }

  /** Python's plain `sum(xs)`: a `TypeError` as soon as a value is missing. */
  function PlainSum(xs: seq<Option<real>>): (r: Result<real>)
    ensures r.Ok? <==> forall i :: 0 <= i < |xs| ==> xs[i].Some?
    ensures r.Err? ==> r.error == TypeError
    ensures r.Ok? ==> r.value == SafeSum(xs)
  {
    if |xs| == 0 then Ok(0.0)
    else match PlainSum(xs[1..])
      case Err(e) => if xs[0].None? then Err(TypeError) else Err(e)
      case Ok(s) => if xs[0].None? then Err(TypeError) else Ok(xs[0].value + s)
  }

  /** Python's plain `min(xs)`: a `ValueError` on an empty sequence; a single element is
      returned as it is, even when missing; with two or more elements any missing one makes
      a comparison with `None`, a `TypeError`. */
  function PlainMin(xs: seq<Option<real>>): (r: Result<Option<real>>)
    ensures |xs| == 0 ==> r == Err(ValueError)
    ensures |xs| == 1 ==> r == Ok(xs[0])
    ensures |xs| >= 2 ==> (r.Ok? <==> forall i :: 0 <= i < |xs| ==> xs[i].Some?)
    ensures |xs| >= 2 && r.Ok? ==> r.value == Some(SafeMin(xs))
  {
    if |xs| == 0 then Err(ValueError)
    else if |xs| == 1 then Ok(xs[0])
    else if exists i :: 0 <= i < |xs| && xs[i].None? then Err(TypeError)
    else Ok(Some(SafeMin(xs)))
  }
}
