/** Sequence operations shared by the four screens: JavaScript's `filter`,
    the conditional `map` the point updates are written with, and what it
    means for a view to be an order-preserving subsequence. */
module Collections {

  datatype Option<T> = None | Some(value: T) {
    function GetOr(default: T): T {
      match this
      case Some(v) => v
      case None => default
    }
  }

  /** `s.filter(p)`: the elements of `s` that satisfy `p`, in their order. */
  function Filter<T>(p: T -> bool, s: seq<T>): (r: seq<T>)
    ensures |r| <= |s| && (|r| == |s| ==> r == s)
    ensures forall i :: 0 <= i < |r| ==> r[i] in s && p(r[i])
    ensures forall i :: 0 <= i < |s| && p(s[i]) ==> s[i] in r
    ensures (forall i :: 0 <= i < |s| ==> p(s[i])) <==> r == s
  {
    if s == [] then []
    else
      var rest := Filter(p, s[1..]);
      assert s == [s[0]] + s[1..];
      if p(s[0]) then
        [s[0]] + rest
      else
        assert |rest| < |s|;
        rest
  }

  /** `s.map(x => sel(x) ? f(x) : x)`: rewrite the selected elements and keep
      the others, without changing the length or the order. */
  function MapWhere<T>(sel: T -> bool, f: T -> T, s: seq<T>): (r: seq<T>)
    ensures |r| == |s|
    ensures forall i :: 0 <= i < |s| ==> r[i] == (if sel(s[i]) then f(s[i]) else s[i])
  {
    if s == [] then []
    else [if sel(s[0]) then f(s[0]) else s[0]] + MapWhere(sel, f, s[1..])
  }

  /** `idx` lists, in increasing order, the positions in `s` at which the
      elements of `r` are found. */
  ghost predicate Embedding<T>(idx: seq<nat>, r: seq<T>, s: seq<T>) {
    && |idx| == |r|
    && (forall k :: 0 <= k < |idx| ==> idx[k] < |s| && r[k] == s[idx[k]])
    && (forall k, l :: 0 <= k < l < |idx| ==> idx[k] < idx[l])
  }

  /** `r` is obtained from `s` by deleting elements, keeping the order. */
  ghost predicate IsSubsequence<T>(r: seq<T>, s: seq<T>) {
    exists idx :: Embedding(idx, r, s)
  }

  /** An embedding of `r` into `s` shifts to one into `[x] + s`, and extends
      to one of `[x] + r` into `[x] + s`. */
  lemma EmbeddingCons<T>(idx: seq<nat>, r: seq<T>, s: seq<T>, x: T)
    returns (shifted: seq<nat>)
    requires Embedding(idx, r, s)
    ensures Embedding(shifted, r, [x] + s)
    ensures Embedding([0] + shifted, [x] + r, [x] + s)
  {
    shifted := seq(|idx|, k requires 0 <= k < |idx| => idx[k] + 1);
  }

  /** A filtered list is an order-preserving subsequence of its source. */
  lemma {:induction false} FilterIsSubsequence<T>(p: T -> bool, s: seq<T>)
    ensures IsSubsequence(Filter(p, s), s)
  {
    if s == [] {
      assert Embedding([], Filter(p, s), s);
    } else {
      FilterIsSubsequence(p, s[1..]);
      var tail := Filter(p, s[1..]);
      var idx' :| Embedding(idx', tail, s[1..]);
      var shifted := EmbeddingCons(idx', tail, s[1..], s[0]);
      assert [s[0]] + s[1..] == s;
      if p(s[0]) {
        assert Filter(p, s) == [s[0]] + tail;
        assert Embedding([0] + shifted, Filter(p, s), s);
      } else {
        assert Embedding(shifted, Filter(p, s), s);
      }
    }
  }

  /** Filtering with two predicates that agree on every element of `s` gives
      the same list. */
  lemma {:induction false} FilterCongruent<T>(p: T -> bool, q: T -> bool, s: seq<T>)
    requires forall i :: 0 <= i < |s| ==> p(s[i]) == q(s[i])
    ensures Filter(p, s) == Filter(q, s)
  {
    if s != [] {
      FilterCongruent(p, q, s[1..]);
    }
  }

  /** The number of elements of `s` that satisfy `p`, counted one by one. */
  function Count<T>(p: T -> bool, s: seq<T>): nat {
    if s == [] then 0 else (if p(s[0]) then 1 else 0) + Count(p, s[1..])
  }

  /** The length of a filtered list is the number of elements that satisfy
      the predicate, so `s.filter(p).length` counts them. */
  lemma {:induction false} FilterCount<T>(p: T -> bool, s: seq<T>)
    ensures |Filter(p, s)| == Count(p, s)
  {
    if s != [] {
      FilterCount(p, s[1..]);
      FilterCons(p, s[0], s[1..]);
      assert [s[0]] + s[1..] == s;
    }
  }

  /** A filtered list keeps every copy of each element that satisfies the
      predicate and no copy of the others. */
  lemma {:induction false} FilterMultiplicity<T>(p: T -> bool, s: seq<T>)
    ensures forall x :: multiset(Filter(p, s))[x] == if p(x) then multiset(s)[x] else 0
  {
    if s != [] {
      FilterMultiplicity(p, s[1..]);
      FilterCons(p, s[0], s[1..]);
      assert [s[0]] + s[1..] == s;
      assert multiset(s) == multiset([s[0]]) + multiset(s[1..]);
    }
  }

  /** The filtered list is empty exactly when no element satisfies `p`. */
  lemma {:induction false} FilterEmptyIff<T>(p: T -> bool, s: seq<T>)
    ensures Filter(p, s) == [] <==> forall i :: 0 <= i < |s| ==> !p(s[i])
  {
    if s != [] {
      FilterEmptyIff(p, s[1..]);
      if !p(s[0]) {
        forall i | 0 < i < |s| ensures s[i] == s[1..][i - 1] { }
      }
    }
  }

  /** Filtering a list with a first element `x` keeps `x` exactly when it
      satisfies `p`. */
  lemma FilterCons<T>(p: T -> bool, x: T, s: seq<T>)
    ensures Filter(p, [x] + s) == (if p(x) then [x] else []) + Filter(p, s)
  {
    assert ([x] + s)[1..] == s;
  }

  /** Filtering distributes over concatenation. */
  lemma {:induction false} FilterAppend<T>(p: T -> bool, s: seq<T>, t: seq<T>)
    ensures Filter(p, s + t) == Filter(p, s) + Filter(p, t)
  {
    if s == [] {
      assert s + t == t;
      assert Filter(p, s) == [];
    } else {
      FilterAppend(p, s[1..], t);
      FilterAppendStep(p, s, t);
    }
  }

  /** One step of `FilterAppend`: from the tail to the whole list. */
  lemma FilterAppendStep<T>(p: T -> bool, s: seq<T>, t: seq<T>)
    requires s != []
    requires Filter(p, s[1..] + t) == Filter(p, s[1..]) + Filter(p, t)
    ensures Filter(p, s + t) == Filter(p, s) + Filter(p, t)
  {
    ConsSplit(s, t);
    FilterCons(p, s[0], s[1..] + t);
    FilterCons(p, s[0], s[1..]);
    ConcatAssoc(if p(s[0]) then [s[0]] else [], Filter(p, s[1..]), Filter(p, t));
  }

  /** A non-empty list is its head followed by its tail, also when followed
      by another list. */
  lemma ConsSplit<T>(s: seq<T>, t: seq<T>)
    requires s != []
    ensures [s[0]] + s[1..] == s && [s[0]] + (s[1..] + t) == s + t
  {
  }

  lemma ConcatAssoc<T>(a: seq<T>, b: seq<T>, c: seq<T>)
    ensures a + (b + c) == (a + b) + c
  {
  }

  /** A conditional map whose rewrite is an involution that keeps the selection
      undoes itself. */
  lemma MapWhereInvolution<T>(sel: T -> bool, f: T -> T, s: seq<T>)
    requires forall x :: sel(f(x)) == sel(x) && f(f(x)) == x
    ensures MapWhere(sel, f, MapWhere(sel, f, s)) == s
  {
  }

  /** A conditional map whose rewrite is idempotent and keeps the selection is
      itself idempotent. */
  lemma MapWhereIdempotent<T>(sel: T -> bool, f: T -> T, s: seq<T>)
    requires forall x :: sel(f(x)) == sel(x) && f(f(x)) == f(x)
    ensures MapWhere(sel, f, MapWhere(sel, f, s)) == MapWhere(sel, f, s)
  {
  }
}
