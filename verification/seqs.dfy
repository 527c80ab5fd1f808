/**
 * Generic sequence operations shared by the whole model: the JavaScript
 * array idioms the application relies on (`filter`, `find`, `map` that
 * replaces by id) with contracts that say what they keep and what they drop.
 */
module Seqs {

  datatype Option<T> = None | Some(value: T) {
    /** The value if present, `default` otherwise. */
    function GetOr(default: T): T {
      match this
      case Some(v) => v
      case None => default
    }
  }

  /** No element occurs twice. */
  ghost predicate NoDup<T>(s: seq<T>) {
    forall i, j :: 0 <= i < j < |s| ==> s[i] != s[j]
  }

  /** `a` can be obtained from `b` by deleting elements: relative order is kept. */
  ghost predicate IsSubsequence<T>(a: seq<T>, b: seq<T>)
    decreases |b|
  {
    if |a| == 0 then true
    else if |b| == 0 then false
    else if a[|a| - 1] == b[|b| - 1] then IsSubsequence(a[..|a| - 1], b[..|b| - 1])
    else IsSubsequence(a, b[..|b| - 1])
  }

  /**
   * The elements of `s` that satisfy `f`, in their original order
   * (Array.prototype.filter). Defined from the end of the sequence, like a
   * `forEach` that pushes onto an accumulator.
   */
  function Filter<T(!new)>(s: seq<T>, f: T -> bool): (r: seq<T>)
    ensures |r| <= |s|
    ensures forall x :: x in r <==> x in s && f(x)
    ensures multiset(r) <= multiset(s)
    ensures (forall x :: x in s ==> f(x)) ==> r == s
    ensures (forall x :: x in s ==> f(x)) <== |r| == |s|
    ensures NoDup(s) ==> NoDup(r)
    decreases |s|
  {
    if |s| == 0 then []
    else
      var init := Filter(s[..|s| - 1], f);
      var last := s[|s| - 1];
      assert s == s[..|s| - 1] + [last];
      assert forall x :: x in s <==> x in s[..|s| - 1] || x == last;
      if f(last) then init + [last] else init
  }

  /** Filtering keeps every element that passes exactly as often as it occurs, and no other. */
  lemma {:induction false} FilterCounts<T(!new)>(s: seq<T>, f: T -> bool)
    ensures forall x :: multiset(Filter(s, f))[x] == if f(x) then multiset(s)[x] else 0
    decreases |s|
  {
    if |s| > 0 {
      var init := s[..|s| - 1];
      var last := s[|s| - 1];
      FilterCounts(init, f);
      assert s == init + [last];
      assert multiset(s) == multiset(init) + multiset{last};
      FilterSnoc(init, last, f);
    }
  }

  /** Filtering keeps the relative order of the elements it keeps. */
  lemma {:induction false} FilterIsSubsequence<T(!new)>(s: seq<T>, f: T -> bool)
    ensures IsSubsequence(Filter(s, f), s)
    decreases |s|
  {
    if |s| > 0 {
      var init := s[..|s| - 1];
      FilterIsSubsequence(init, f);
      var r := Filter(s, f);
      if f(s[|s| - 1]) {
        assert r[..|r| - 1] == Filter(init, f);
      } else {
        assert r == Filter(init, f);
        SubsequenceOfPrefix(r, init, s[|s| - 1]);
      }
    }
  }

  /** A subsequence of a prefix is a subsequence of the whole. */
  lemma {:induction false} SubsequenceOfPrefix<T>(a: seq<T>, b: seq<T>, x: T)
    requires IsSubsequence(a, b)
    ensures IsSubsequence(a, b + [x])
    decreases |b|, 1
  {
    var bx := b + [x];
    assert bx[..|bx| - 1] == b;
    if |a| > 0 && a[|a| - 1] == x {
      SubsequenceDropLast(a, b);
    }
  }

  /** Dropping the last element of a subsequence keeps it a subsequence. */
  lemma {:induction false} SubsequenceDropLast<T>(a: seq<T>, b: seq<T>)
    requires |a| > 0
    requires IsSubsequence(a, b)
    ensures IsSubsequence(a[..|a| - 1], b)
    decreases |b|, 0
  {
    var a' := a[..|a| - 1];
    if |a'| > 0 {
      var b' := b[..|b| - 1];
      if a[|a| - 1] == b[|b| - 1] {
        SubsequenceOfPrefix(a', b', b[|b| - 1]);
        assert b == b' + [b[|b| - 1]];
      } else {
        SubsequenceDropLast(a, b');
        SubsequenceOfPrefix(a', b', b[|b| - 1]);
        assert b == b' + [b[|b| - 1]];
      }
    }
  }

  /** Filtering a sequence extended by one element. */
  lemma FilterSnoc<T(!new)>(s: seq<T>, x: T, f: T -> bool)
    ensures Filter(s + [x], f) == Filter(s, f) + (if f(x) then [x] else [])
  {
    assert (s + [x])[..|s|] == s;
  }

  /** Filtering a sequence extended at the front by one element. */
  lemma {:induction false} FilterCons<T(!new)>(x: T, s: seq<T>, f: T -> bool)
    ensures Filter([x] + s, f) == (if f(x) then [x] else []) + Filter(s, f)
    decreases |s|
  {
    if |s| == 0 {
      FilterSnoc([], x, f);
      assert [] + [x] == [x] + s;
    } else {
      var init := s[..|s| - 1];
      var last := s[|s| - 1];
      var head := if f(x) then [x] else [];
      var tail := if f(last) then [last] else [];
      assert [x] + s == ([x] + init) + [last];
      assert s == init + [last];
      calc {
        Filter([x] + s, f);
        { FilterSnoc([x] + init, last, f); }
        Filter([x] + init, f) + tail;
        { FilterCons(x, init, f); }
        (head + Filter(init, f)) + tail;
        head + (Filter(init, f) + tail);
        { FilterSnoc(init, last, f); }
        head + Filter(s, f);
      }
    }
  }

  /** How many elements of `s` satisfy `f`, counted independently of `Filter`. */
  function CountWhere<T>(s: seq<T>, f: T -> bool): nat {
    if |s| == 0 then 0
    else CountWhere(s[..|s| - 1], f) + (if f(s[|s| - 1]) then 1 else 0)
  }

  /** `filter(f).length` is the count of elements satisfying `f`. */
  lemma {:induction false} FilterLengthIsCount<T(!new)>(s: seq<T>, f: T -> bool)
    ensures |Filter(s, f)| == CountWhere(s, f)
    decreases |s|
  {
    if |s| > 0 {
      var init := s[..|s| - 1];
      FilterLengthIsCount(init, f);
      assert s == init + [s[|s| - 1]];
      FilterSnoc(init, s[|s| - 1], f);
    }
  }

  /** `f` is the first index of `s` whose key is `id`. */
  predicate FirstWith<T>(s: seq<T>, key: T -> string, id: string, f: int) {
    0 <= f < |s| && key(s[f]) == id && forall j :: 0 <= j < f ==> key(s[j]) != id
  }

  /** The first element whose key is `id`, if any (Array.prototype.find). */
  function FindKey<T(==,!new)>(s: seq<T>, key: T -> string, id: string): (r: Option<T>)
    ensures r.None? <==> forall x :: x in s ==> key(x) != id
    ensures r.Some? ==> exists i :: FirstWith(s, key, id, i) && s[i] == r.value
  {
    if |s| == 0 then None
    else if key(s[0]) == id then Some(s[0])
    else
      var r := FindKey(s[1..], key, id);
      assert forall x :: x in s <==> x == s[0] || x in s[1..];
      if r.Some? then
        var i :| FirstWith(s[1..], key, id, i) && s[1..][i] == r.value;
        assert FirstWith(s, key, id, i + 1);
        r
      else r
  }

  /** A subsequence keeps at most as many elements through any filter. */
  lemma {:induction false} SubsequenceFilterShorter<T(!new)>(a: seq<T>, b: seq<T>, f: T -> bool)
    requires IsSubsequence(a, b)
    ensures |Filter(a, f)| <= |Filter(b, f)|
    decreases |b|
  {
    if |a| > 0 {
      var b' := b[..|b| - 1];
      if a[|a| - 1] == b[|b| - 1] {
        SubsequenceFilterShorter(a[..|a| - 1], b', f);
      } else {
        SubsequenceFilterShorter(a, b', f);
      }
    }
  }

  /** Filtering depends only on the predicate's values on the sequence's elements. */
  lemma {:induction false} FilterExt<T(!new)>(s: seq<T>, f: T -> bool, g: T -> bool)
    requires forall x :: x in s ==> f(x) == g(x)
    ensures Filter(s, f) == Filter(s, g)
    decreases |s|
  {
    if |s| > 0 {
      var init := s[..|s| - 1];
      assert forall x :: x in init ==> x in s;
      FilterExt(init, f, g);
    }
  }

  /** Two filters in a row are one filter by the conjunction. */
  lemma {:induction false} FilterFilter<T(!new)>(s: seq<T>, f: T -> bool, g: T -> bool, h: T -> bool)
    requires forall x :: h(x) == (f(x) && g(x))
    ensures Filter(Filter(s, f), g) == Filter(s, h)
    decreases |s|
  {
    if |s| > 0 {
      var init := s[..|s| - 1];
      var last := s[|s| - 1];
      FilterFilter(init, f, g, h);
      if f(last) {
        FilterSnoc(Filter(init, f), last, g);
      }
    }
  }

  /** Whatever first index carries the key, `FindKey` returns the element there. */
  lemma FindKeyFirst<T(!new)>(s: seq<T>, key: T -> string, id: string, f: int)
    requires FirstWith(s, key, id, f)
    ensures FindKey(s, key, id) == Some(s[f])
  {
    assert s[f] in s;
    var r := FindKey(s, key, id);
    assert r.Some?;
    var i :| FirstWith(s, key, id, i) && s[i] == r.value;
    assert i == f;
  }

  /**
   * Every element whose key is `id` replaced by `v`, all others untouched
   * and in place: `s.map(x => key(x) === id ? v : x)`.
   */
  function ReplaceKey<T>(s: seq<T>, key: T -> string, id: string, v: T): (r: seq<T>)
    ensures |r| == |s|
    ensures forall i :: 0 <= i < |s| ==> r[i] == (if key(s[i]) == id then v else s[i])
  {
    if |s| == 0 then []
    else [if key(s[0]) == id then v else s[0]] + ReplaceKey(s[1..], key, id, v)
  }

  /** The predicate `x => key(x) !== id`. */
  function KeyIsNot<T>(key: T -> string, id: string): T -> bool {
    x => key(x) != id
  }

  /**
   * Every element whose key is `id` dropped, written as a walk from the
   * front; it is the filter by `KeyIsNot`, so survivors keep their order
   * and their multiplicity.
   */
  function RemoveKey<T(!new)>(s: seq<T>, key: T -> string, id: string): (r: seq<T>)
    ensures r == Filter(s, KeyIsNot(key, id))
    ensures forall x :: x in r <==> x in s && key(x) != id
    ensures |r| <= |s|
    ensures (forall x :: x in s ==> key(x) != id) ==> r == s
  {
    if |s| == 0 then []
    else
      assert s == [s[0]] + s[1..];
      FilterCons(s[0], s[1..], KeyIsNot(key, id));
      if key(s[0]) == id then RemoveKey(s[1..], key, id)
      else [s[0]] + RemoveKey(s[1..], key, id)
  }

  /** `s.map(f)`. */
  function Map<A, B>(s: seq<A>, f: A -> B): (r: seq<B>)
    ensures |r| == |s|
    ensures forall i :: 0 <= i < |s| ==> r[i] == f(s[i])
  {
    if |s| == 0 then [] else [f(s[0])] + Map(s[1..], f)
  }

  /** Removing the freshly prepended element gives back the original sequence. */
  lemma RemovePrepended<T(!new)>(s: seq<T>, key: T -> string, v: T)
    requires forall x :: x in s ==> key(x) != key(v)
    ensures RemoveKey([v] + s, key, key(v)) == s
  {
    assert ([v] + s)[1..] == s;
  }

  /** Removing the freshly appended element gives back the original sequence. */
  lemma {:induction false} RemoveAppended<T(!new)>(s: seq<T>, key: T -> string, v: T)
    requires forall x :: x in s ==> key(x) != key(v)
    ensures RemoveKey(s + [v], key, key(v)) == s
    decreases |s|
  {
    if |s| == 0 {
      assert [v][1..] == [];
    } else {
      assert (s + [v])[1..] == s[1..] + [v];
      RemoveAppended(s[1..], key, v);
    }
  }

  /** Replacing the freshly prepended element only touches the head. */
  lemma ReplacePrepended<T>(s: seq<T>, key: T -> string, v: T, w: T)
    requires forall x :: x in s ==> key(x) != key(v)
    ensures ReplaceKey([v] + s, key, key(v), w) == [w] + s
  {
    var r := ReplaceKey([v] + s, key, key(v), w);
    assert forall i :: 0 < i < |r| ==> ([v] + s)[i] == s[i - 1] && ([v] + s)[i] in s;
  }

  /** Replacing the freshly appended element only touches the tail. */
  lemma ReplaceAppended<T>(s: seq<T>, key: T -> string, v: T, w: T)
    requires forall x :: x in s ==> key(x) != key(v)
    ensures ReplaceKey(s + [v], key, key(v), w) == s + [w]
  {
    var r := ReplaceKey(s + [v], key, key(v), w);
    assert forall i :: 0 <= i < |s| ==> (s + [v])[i] == s[i] && s[i] in s;
  }

  /** A second replacement under the same key overrides the first. */
  lemma {:induction false} ReplaceTwice<T>(s: seq<T>, key: T -> string, id: string, v: T, w: T)
    requires key(v) == id
    ensures ReplaceKey(ReplaceKey(s, key, id, v), key, id, w) == ReplaceKey(s, key, id, w)
  {
    var once := ReplaceKey(s, key, id, v);
    var twice := ReplaceKey(once, key, id, w);
    forall i | 0 <= i < |s|
      ensures twice[i] == ReplaceKey(s, key, id, w)[i]
    {
      assert once[i] == (if key(s[i]) == id then v else s[i]);
    }
  }
}
