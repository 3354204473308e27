/** Failure-carrying wrappers shared by every module of the snow-day model. */
module Common {

  datatype Option<+T> = None | Some(value: T)

  /** The kinds of Python exception the modelled code can raise. */
  datatype PyError =
    | ValueError     // `raise ValueError(...)`, `min()` of an empty sequence, a bad `float()`
    | TypeError      // arithmetic or comparison with `None`, subscripting `None`
    | IndexError     // a list index past the end
    | KeyError       // a missing dictionary key
    | AttributeError // `.text`, `.split` or `.strip` on `None`

  datatype Result<+T> = Ok(value: T) | Err(error: PyError)

  /** Python's `xs[:n]`: the first `n` elements, or all of them when there are fewer. */
  function Take<T>(xs: seq<T>, n: nat): (r: seq<T>)
    ensures |r| == if |xs| <= n then |xs| else n
    ensures forall i :: 0 <= i < |r| ==> r[i] == xs[i]
  {
    if |xs| <= n then xs else xs[..n]
  }

  /** Python's `xs[n:]`: everything from index `n` on, or nothing when there are fewer. */
  function Drop<T>(xs: seq<T>, n: nat): (r: seq<T>)
    ensures |r| == if |xs| <= n then 0 else |xs| - n
    ensures forall i :: 0 <= i < |r| ==> r[i] == xs[n + i]
  {
    if |xs| <= n then [] else xs[n..]
  }

  lemma TakeDrop<T>(xs: seq<T>, n: nat)
    ensures Take(xs, n) + Drop(xs, n) == xs
  {
  }

  /** The entry of `m` for `k`, or `None` when it has none. */
  function Lookup<K, V>(m: map<K, V>, k: K): Option<V>
  {
    if k in m then Some(m[k]) else None
  }

  /** Puts `x` in front of the rows of an `Ok`, and passes an error through. */
  function Prepend<T>(x: T, r: Result<seq<T>>): (r': Result<seq<T>>)
    ensures r'.Ok? <==> r.Ok?
    ensures r.Ok? ==> r'.value == [x] + r.value
  {
    match r
    case Ok(xs) => Ok([x] + xs)
    case Err(e) => Err(e)
  }

  /** `prefix` followed by the rows of `r`: the value of a loop that has already produced `prefix`. */
  function Chain<T>(prefix: seq<T>, r: Result<seq<T>>): Result<seq<T>>
  {
    match r
    case Ok(xs) => Ok(prefix + xs)
    case Err(e) => Err(e)
  }

  lemma ChainNil<T>(r: Result<seq<T>>)
    ensures Chain([], r) == r
  {
    if r.Ok? {
      assert [] + r.value == r.value;
    }
  }

  lemma ChainPrepend<T>(prefix: seq<T>, x: T, r: Result<seq<T>>)
    ensures Chain(prefix, Prepend(x, r)) == Chain(prefix + [x], r)
  {
    if r.Ok? {
      assert prefix + ([x] + r.value) == (prefix + [x]) + r.value;
    }
  }

  lemma ChainConcat<T>(prefix: seq<T>, xs: seq<T>, r: Result<seq<T>>)
    ensures Chain(prefix, Chain(xs, r)) == Chain(prefix + xs, r)
  {
    if r.Ok? {
      assert prefix + (xs + r.value) == (prefix + xs) + r.value;
    }
  }

  /** `[x for x in xs if p(x)]` */
  function Filter<T>(xs: seq<T>, p: T -> bool): (r: seq<T>)
    ensures |r| <= |xs|
  {
    if |xs| == 0 then []
    else (if p(xs[0]) then [xs[0]] else []) + Filter(xs[1..], p)
  }

  /** `Filter` keeps exactly the elements that satisfy `p`. */
  lemma {:induction false} FilterSpec<T>(xs: seq<T>, p: T -> bool)
    ensures forall x :: x in Filter(xs, p) <==> x in xs && p(x)
  {
    if |xs| > 0 {
      FilterSpec(xs[1..], p);
      assert xs == [xs[0]] + xs[1..];
    }
  }

  /** A relation that holds pointwise between two sequences keeps holding when both get a
      related head. */
  lemma ConsPointwise<A, B>(P: (A, B) -> bool, x: A, xs: seq<A>, y: B, ys: seq<B>)
    requires |xs| == |ys| && P(x, y)
    requires forall k :: 0 <= k < |xs| ==> P(xs[k], ys[k])
    ensures forall k :: 0 <= k < |xs| + 1 ==> P(([x] + xs)[k], ([y] + ys)[k])
  {
    forall k | 0 <= k < |xs| + 1 ensures P(([x] + xs)[k], ([y] + ys)[k]) {
      if k > 0 {
        assert ([x] + xs)[k] == xs[k - 1] && ([y] + ys)[k] == ys[k - 1];
      }
    }
  }
}
