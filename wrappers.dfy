/** Option and Result, the failure-carrying values used across the model. */
module Wrappers {

  datatype Option<+T> = None | Some(value: T) {
    function GetOr(default: T): T {
      match this
      case Some(v) => v
      case None => default
    }
  }

  /** `Err` stands for an exception the source raises (or for an error value it returns). */
  datatype Result<+T, +E> = Ok(value: T) | Err(error: E)

  /** The Python exceptions the modelled code raises, each with the text `str()` of it starts from. */
  datatype Raised =
    | ValueError(message: string)
    | KeyError(message: string)
    | FileNotFoundError(message: string)
    | TypeError(message: string)
    | AttributeError(message: string)

  /** `f` applied to every element in order; the first `Err` ends the walk and is the result. */
  function Traverse<A, B, E>(xs: seq<A>, f: A -> Result<B, E>): (r: Result<seq<B>, E>)
    ensures r.Ok? ==> |r.value| == |xs|
    decreases |xs|
  {
    if xs == [] then Ok([])
    else match Traverse(xs[..|xs| - 1], f)
      case Err(e) => Err(e)
      case Ok(ys) =>
        match f(xs[|xs| - 1])
        case Err(e) => Err(e)
        case Ok(y) => Ok(ys + [y])
  }

  /** Once a prefix fails, the whole walk fails the same way. */
  lemma {:induction false} TraverseErrSticks<A, B, E>(xs: seq<A>, k: nat, f: A -> Result<B, E>)
    requires k <= |xs| && Traverse(xs[..k], f).Err?
    ensures Traverse(xs, f) == Traverse(xs[..k], f)
    decreases |xs| - k
  {
    if k < |xs| {
      assert xs[..k + 1][..k] == xs[..k];
      TraverseErrSticks(xs, k + 1, f);
    } else {
      assert xs[..k] == xs;
    }
  }

  /**
   * The walk succeeds exactly when every element succeeds, and then holds every element's
   * value in order; when it fails, it fails with the error of the first failing element.
   */
  lemma {:induction false} TraversePerElement<A, B, E>(xs: seq<A>, f: A -> Result<B, E>)
    ensures Traverse(xs, f).Ok? <==> forall i :: 0 <= i < |xs| ==> f(xs[i]).Ok?
    ensures Traverse(xs, f).Ok? ==>
      forall i :: 0 <= i < |xs| ==> Traverse(xs, f).value[i] == f(xs[i]).value
    ensures Traverse(xs, f).Err? ==>
      exists k :: 0 <= k < |xs| && f(xs[k]).Err? && Traverse(xs, f).error == f(xs[k]).error
        && forall i :: 0 <= i < k ==> f(xs[i]).Ok?
    decreases |xs|
  {
    if xs != [] {
      var init := xs[..|xs| - 1];
      TraversePerElement(init, f);
      assert forall i :: 0 <= i < |init| ==> init[i] == xs[i];
    }
  }

  /** Walking a concatenation is walking both halves, the first failure winning. */
  lemma {:induction false} TraverseAppend<A, B, E>(xs: seq<A>, ys: seq<A>, f: A -> Result<B, E>)
    ensures Traverse(xs + ys, f) ==
      match Traverse(xs, f)
      case Err(e) => Err(e)
      case Ok(us) =>
        match Traverse(ys, f)
        case Err(e) => Err(e)
        case Ok(vs) => Ok(us + vs)
    decreases |ys|
  {
    if ys == [] {
      assert xs + ys == xs;
      if Traverse(xs, f).Ok? {
        assert Traverse(xs, f).value + [] == Traverse(xs, f).value;
      }
    } else {
      var init := ys[..|ys| - 1];
      TraverseAppend(xs, init, f);
      assert (xs + ys)[..|xs + ys| - 1] == xs + init;
      assert (xs + ys)[|xs + ys| - 1] == ys[|ys| - 1];
      match Traverse(xs, f)
      case Err(e) =>
      case Ok(us) =>
        match Traverse(init, f)
        case Err(e) =>
        case Ok(vs) =>
          match f(ys[|ys| - 1])
          case Err(e) =>
          case Ok(y) =>
            assert us + (vs + [y]) == (us + vs) + [y];
    }
  }

  /** The elements of `s` that satisfy `p`, in order (a list comprehension with a condition). */
  function Filter<T>(s: seq<T>, p: T -> bool): (r: seq<T>)
    ensures |r| <= |s|
    decreases |s|
  {
    if s == [] then []
    else Filter(s[..|s| - 1], p) + (if p(s[|s| - 1]) then [s[|s| - 1]] else [])
  }

  /** `idx` lists positions of `b` whose elements, read in that order, form `a`. */
  predicate Embeds<T(==)>(idx: seq<nat>, a: seq<T>, b: seq<T>) {
    |idx| == |a| && forall k :: 0 <= k < |idx| ==> idx[k] < |b| && a[k] == b[idx[k]]
  }

  /** Strictly increasing positions: no position is used twice and the order is kept. */
  predicate Increasing(idx: seq<nat>) {
    forall k, l :: 0 <= k < l < |idx| ==> idx[k] < idx[l]
  }

  /**
   * `a` is the subsequence of `b` that `p` selects: `idx` embeds it in increasing positions and
   * lists every position whose element satisfies `p`.
   */
  predicate Selects<T(==)>(idx: seq<nat>, a: seq<T>, b: seq<T>, p: T -> bool) {
    Embeds(idx, a, b) && Increasing(idx) && forall j :: 0 <= j < |b| && p(b[j]) ==> j in idx
  }

  /** The filter keeps exactly the elements that satisfy `p`. */
  lemma {:induction false} FilterMembers<T>(s: seq<T>, p: T -> bool)
    ensures forall x :: x in Filter(s, p) <==> x in s && p(x)
    decreases |s|
  {
    if s != [] {
      var init := s[..|s| - 1];
      FilterMembers(init, p);
      assert s == init + [s[|s| - 1]];
    }
  }

  /** The filter keeps every position that satisfies `p`, each once, in order. */
  lemma {:induction false} FilterSelects<T>(s: seq<T>, p: T -> bool)
    ensures exists idx :: Selects(idx, Filter(s, p), s, p)
    decreases |s|
  {
    if s == [] {
      assert Selects([], Filter(s, p), s, p);
    } else {
      var n := |s| - 1;
      var init := s[..n];
      FilterSelects(init, p);
      var idx0: seq<nat> :| Selects(idx0, Filter(init, p), init, p);
      if p(s[n]) {
        SelectsExtend(idx0, Filter(init, p), s, p, true);
        assert Selects(idx0 + [n], Filter(s, p), s, p);
      } else {
        SelectsExtend(idx0, Filter(init, p), s, p, false);
        assert Selects(idx0, Filter(s, p), s, p);
      }
    }
  }

  /** One step of `FilterSelects`: the last position of `s` is added when it is kept. */
  lemma SelectsExtend<T>(idx0: seq<nat>, a: seq<T>, s: seq<T>, p: T -> bool, keep: bool)
    requires |s| > 0 && keep == p(s[|s| - 1])
    requires Selects(idx0, a, s[..|s| - 1], p)
    ensures keep ==> Selects(idx0 + [|s| - 1], a + [s[|s| - 1]], s, p)
    ensures !keep ==> Selects(idx0, a, s, p)
  {
    var n := |s| - 1;
    assert forall j :: 0 <= j < n ==> s[..n][j] == s[j];
    assert forall k :: 0 <= k < |idx0| ==> idx0[k] < n;
    if keep {
      var idx := idx0 + [n];
      forall j | 0 <= j < |s| && p(s[j]) ensures j in idx {
        if j < n {
          assert p(s[..n][j]);
        } else {
          assert idx[|idx0|] == n;
        }
      }
    }
  }

  /** Nothing selected, nothing kept. */
  lemma {:induction false} FilterNone<T>(s: seq<T>, p: T -> bool)
    requires forall i :: 0 <= i < |s| ==> !p(s[i])
    ensures Filter(s, p) == []
    decreases |s|
  {
    if s != [] {
      FilterNone(s[..|s| - 1], p);
    }
  }

  /** Two conditions that agree on every element select the same elements. */
  lemma {:induction false} FilterAgrees<T>(s: seq<T>, p: T -> bool, q: T -> bool)
    requires forall i :: 0 <= i < |s| ==> p(s[i]) == q(s[i])
    ensures Filter(s, p) == Filter(s, q)
    decreases |s|
  {
    if s != [] {
      FilterAgrees(s[..|s| - 1], p, q);
    }
  }

  /** Conditions that agree position by position on two lists select as many elements of each. */
  lemma {:induction false} FilterCountAgrees<A, B>(xs: seq<A>, ys: seq<B>, p: A -> bool, q: B -> bool)
    requires |xs| == |ys| && forall i :: 0 <= i < |xs| ==> p(xs[i]) == q(ys[i])
    ensures |Filter(xs, p)| == |Filter(ys, q)|
    decreases |xs|
  {
    if xs != [] {
      FilterCountAgrees(xs[..|xs| - 1], ys[..|ys| - 1], p, q);
    }
  }

  /** A filter of a concatenation is the concatenation of the filters. */
  lemma {:induction false} FilterAppend<T>(xs: seq<T>, ys: seq<T>, p: T -> bool)
    ensures Filter(xs + ys, p) == Filter(xs, p) + Filter(ys, p)
    decreases |ys|
  {
    if ys == [] {
      assert xs + ys == xs;
    } else {
      var init := ys[..|ys| - 1];
      FilterAppend(xs, init, p);
      assert (xs + ys)[..|xs + ys| - 1] == xs + init;
    }
  }

  /**
   * A filter whose test may raise: the elements whose test holds, in order, or the error of
   * the first element whose test raises (a loop that appends while it tests).
   */
  function FilterResult<T, E>(xs: seq<T>, p: T -> Result<bool, E>): Result<seq<T>, E>
    decreases |xs|
  {
    if xs == [] then Ok([])
    else match FilterResult(xs[..|xs| - 1], p)
      case Err(e) => Err(e)
      case Ok(ys) =>
        match p(xs[|xs| - 1])
        case Err(e) => Err(e)
        case Ok(b) => Ok(ys + (if b then [xs[|xs| - 1]] else []))
  }

  /** The test of an element holds: it does not raise and gives true. */
  function Holds<T, E>(p: T -> Result<bool, E>): T -> bool {
    (x: T) => p(x).Ok? && p(x).value
  }

  /** One more element examined by a loop that computes `FilterResult` step by step. */
  lemma FilterResultStep<T, E>(xs: seq<T>, i: nat, p: T -> Result<bool, E>, ys: seq<T>)
    requires i < |xs| && FilterResult(xs[..i], p) == Ok(ys)
    ensures FilterResult(xs[..i + 1], p) ==
      if p(xs[i]).Err? then Err(p(xs[i]).error) else Ok(ys + (if p(xs[i]).value then [xs[i]] else []))
  {
    assert xs[..i + 1][..i] == xs[..i];
  }

  /** Once a prefix raises, the whole filter raises the same way. */
  lemma {:induction false} FilterResultErrSticks<T, E>(xs: seq<T>, k: nat, p: T -> Result<bool, E>)
    requires k <= |xs| && FilterResult(xs[..k], p).Err?
    ensures FilterResult(xs, p) == FilterResult(xs[..k], p)
    decreases |xs| - k
  {
    if k < |xs| {
      assert xs[..k + 1][..k] == xs[..k];
      FilterResultErrSticks(xs, k + 1, p);
    } else {
      assert xs[..k] == xs;
    }
  }

  /**
   * The filter succeeds exactly when no element's test raises, and then keeps exactly the
   * elements whose test holds; when it fails, it fails with the error of the first element
   * whose test raises.
   */
  lemma {:induction false} FilterResultPerElement<T, E>(xs: seq<T>, p: T -> Result<bool, E>)
    ensures FilterResult(xs, p).Ok? <==> forall i :: 0 <= i < |xs| ==> p(xs[i]).Ok?
    ensures FilterResult(xs, p).Ok? ==> FilterResult(xs, p).value == Filter(xs, Holds(p))
    ensures FilterResult(xs, p).Err? ==>
      exists k :: 0 <= k < |xs| && p(xs[k]).Err? && FilterResult(xs, p).error == p(xs[k]).error
        && forall i :: 0 <= i < k ==> p(xs[i]).Ok?
    decreases |xs|
  {
    if xs != [] {
      var init := xs[..|xs| - 1];
      FilterResultPerElement(init, p);
      assert forall i :: 0 <= i < |init| ==> init[i] == xs[i];
    }
  }

  /** Python's `s[:n]`: a negative `n` counts from the end, and too large a bound clamps. */
  function PyPrefix<T>(s: seq<T>, n: int): seq<T> {
    if n >= 0 then (if n <= |s| then s[..n] else s)
    else if -n <= |s| then s[..|s| + n]
    else []
  }

  /** `s[:n]` is a prefix of `s` of length `min(n, |s|)`, or `max(0, |s| + n)` for a negative `n`. */
  lemma PyPrefixFacts<T>(s: seq<T>, n: int)
    ensures var r := PyPrefix(s, n);
      && r == s[..|r|]
      && (n >= 0 ==> |r| == if n <= |s| then n else |s|)
      && (n < 0 ==> |r| == if -n <= |s| then |s| + n else 0)
  {
  }

  /** A slice bound as Python adjusts it: a negative one counts from the end, then both clamp. */
  function SliceBound(i: int, n: nat): (r: nat)
    ensures r <= n
    ensures 0 <= i <= n ==> r == i
  {
    if i < 0 then (if i + n < 0 then 0 else i + n) else if i > n then n else i
  }

  /** Python's `s[a:b]`. */
  function PySlice<T>(s: seq<T>, a: int, b: int): seq<T> {
    var lo := SliceBound(a, |s|);
    var hi := SliceBound(b, |s|);
    if lo < hi then s[lo..hi] else []
  }

  /**
   * `s[a:b]` is the run of `s` between the adjusted bounds; with bounds already inside the
   * sequence it is the plain slice, and it is never longer than `s`.
   */
  lemma PySliceFacts<T>(s: seq<T>, a: int, b: int)
    ensures exists lo, hi :: 0 <= lo <= hi <= |s| && PySlice(s, a, b) == s[lo..hi]
    ensures 0 <= a <= b <= |s| ==> PySlice(s, a, b) == s[a..b]
    ensures |PySlice(s, a, b)| <= |s|
    ensures PySlice(s, 0, |s|) == s
  {
    var lo := SliceBound(a, |s|);
    var hi := SliceBound(b, |s|);
    if lo >= hi {
      assert PySlice(s, a, b) == s[lo..lo];
    }
  }

  /** One more element walked by a loop that computes `Traverse` step by step. */
  lemma TraverseStep<A, B, E>(xs: seq<A>, i: nat, f: A -> Result<B, E>, ys: seq<B>)
    requires i < |xs| && Traverse(xs[..i], f) == Ok(ys)
    ensures Traverse(xs[..i + 1], f) == if f(xs[i]).Ok? then Ok(ys + [f(xs[i]).value]) else Err(f(xs[i]).error)
  {
    assert xs[..i + 1][..i] == xs[..i];
  }

  /** The walk over a single element is that element's outcome. */
  lemma TraverseSingle<A, B, E>(x: A, f: A -> Result<B, E>)
    ensures Traverse([x], f) == if f(x).Ok? then Ok([f(x).value]) else Err(f(x).error)
  {
    var xs := [x];
    assert xs[..|xs| - 1] == [];
    assert Traverse(xs[..|xs| - 1], f) == Ok([]);
    if f(x).Ok? {
      assert [] + [f(x).value] == [f(x).value];
    }
  }

  /** The concatenation of a single list is that list. */
  lemma FlattenSingle<T>(x: seq<T>)
    ensures Flatten([x]) == x
  {
    assert [x][..0] == [];
  }

  /** The concatenation of a list of lists. */
  function Flatten<T>(xs: seq<seq<T>>): seq<T>
    decreases |xs|
  {
    if xs == [] then [] else Flatten(xs[..|xs| - 1]) + xs[|xs| - 1]
  }

  /** An element of the concatenation comes from one of the lists, and every one of theirs is in it. */
  lemma {:induction false} FlattenMembers<T>(xs: seq<seq<T>>)
    ensures forall x :: x in Flatten(xs) <==> exists i :: 0 <= i < |xs| && x in xs[i]
    decreases |xs|
  {
    if xs != [] {
      var init := xs[..|xs| - 1];
      FlattenMembers(init);
      assert forall i :: 0 <= i < |init| ==> init[i] == xs[i];
    }
  }

  /** Concatenation distributes over appending lists. */
  lemma {:induction false} FlattenAppend<T>(xs: seq<seq<T>>, ys: seq<seq<T>>)
    ensures Flatten(xs + ys) == Flatten(xs) + Flatten(ys)
    decreases |ys|
  {
    if ys == [] {
      assert xs + ys == xs;
    } else {
      var init := ys[..|ys| - 1];
      var last := ys[|ys| - 1];
      FlattenAppend(xs, init);
      assert (xs + ys)[..|xs + ys| - 1] == xs + init;
      assert (xs + ys)[|xs + ys| - 1] == last;
      calc {
        Flatten(xs + ys);
        Flatten(xs + init) + last;
        (Flatten(xs) + Flatten(init)) + last;
        Flatten(xs) + (Flatten(init) + last);
      }
    }
  }
}
