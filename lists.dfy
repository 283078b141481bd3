/** Sequence vocabulary shared by the list-building routines: duplicate freedom, the
    first position of a value (the `find` / index-loop idiom of the samples), and the
    order-preserving selection of the elements that pass a test. */
module Lists {
  import opened Sdk

  predicate NoDuplicates<T(==)>(s: seq<T>) {
    forall i, j :: 0 <= i < j < |s| ==> s[i] != s[j]
  }

  /** The position of the first element equal to `x`, if any. */
  function FirstIndexOf<T(==)>(s: seq<T>, x: T): (r: Option<nat>)
    ensures r.Some? <==> x in s
    ensures r.Some? ==> r.value < |s| && s[r.value] == x
    ensures r.Some? ==> forall j :: 0 <= j < r.value ==> s[j] != x
  {
    if s == [] then None
    else if s[0] == x then Some(0)
    else match FirstIndexOf(s[1..], x)
      case None => None
      case Some(k) => Some(k + 1)
  }

  /** The index loop that stops at the first match (`if (s[i] != x) continue; ...; break;`). */
  method FindFirst<T(==)>(s: seq<T>, x: T) returns (r: Option<nat>)
    ensures r == FirstIndexOf(s, x)
  {
    r := None;
    var i := 0;
    while i < |s|
      invariant 0 <= i <= |s|
      invariant forall j :: 0 <= j < i ==> s[j] != x
    {
      if s[i] == x {
        r := Some(i);
        return;
      }
      i := i + 1;
    }
  }

  /** The elements of `s` that pass `ok`, in their order in `s`. */
  function Filter<T>(s: seq<T>, ok: T -> bool): (r: seq<T>)
    ensures |r| <= |s|
    ensures forall i :: 0 <= i < |r| ==> ok(r[i])
  {
    if s == [] then []
    else Filter(s[..|s| - 1], ok) + (if ok(s[|s| - 1]) then [s[|s| - 1]] else [])
  }

  /** An element survives the selection exactly when it is in `s` and passes `ok`. */
  lemma {:induction false} FilterMembers<T>(s: seq<T>, ok: T -> bool, x: T)
    ensures x in Filter(s, ok) <==> x in s && ok(x)
  {
    if s != [] {
      var init := s[..|s| - 1];
      FilterMembers(init, ok, x);
      assert s == init + [s[|s| - 1]];
    }
  }

  /** Selection keeps distinct elements distinct. */
  lemma {:induction false} FilterNoDuplicates<T>(s: seq<T>, ok: T -> bool)
    requires NoDuplicates(s)
    ensures NoDuplicates(Filter(s, ok))
  {
    if s != [] {
      var init := s[..|s| - 1];
      var last := s[|s| - 1];
      FilterNoDuplicates(init, ok);
      if ok(last) {
        FilterMembers(init, ok, last);
        assert last !in init;
      }
    }
  }

  /** Selecting from `s + [x]` selects from `s` and then decides on `x`. */
  lemma FilterSnoc<T>(s: seq<T>, x: T, ok: T -> bool)
    ensures Filter(s + [x], ok) == Filter(s, ok) + (if ok(x) then [x] else [])
  {
    assert (s + [x])[..|s + [x]| - 1] == s;
  }

  /** The elements of `s` other than `x`, in order. */
  function Without<T(==)>(s: seq<T>, x: T): (r: seq<T>)
    ensures |r| <= |s|
    ensures forall i :: 0 <= i < |r| ==> r[i] != x
  {
    if s == [] then []
    else Without(s[..|s| - 1], x) + (if s[|s| - 1] != x then [s[|s| - 1]] else [])
  }

  /** `Without(s, x)` holds exactly the elements of `s` other than `x`. */
  lemma {:induction false} WithoutMembers<T>(s: seq<T>, x: T, y: T)
    ensures y in Without(s, x) <==> y in s && y != x
  {
    if s != [] {
      var init := s[..|s| - 1];
      WithoutMembers(init, x, y);
      assert s == init + [s[|s| - 1]];
    }
  }

  /** Dropping `x` from `s + [y]` drops it from `s` and then decides on `y`. */
  lemma WithoutSnoc<T>(s: seq<T>, y: T, x: T)
    ensures Without(s + [y], x) == Without(s, x) + (if y != x then [y] else [])
  {
    assert (s + [y])[..|s + [y]| - 1] == s;
  }

  /** The integers strictly between `lo` and `hi`, in increasing order: the candidates
      of the probing loops `for (c = lo + 1; c < hi; c += 1)`. */
  function Between(lo: int, hi: int): (r: seq<int>)
    ensures |r| == if hi > lo then hi - lo - 1 else 0
    decreases hi - lo
  {
    if hi <= lo + 1 then [] else Between(lo, hi - 1) + [hi - 1]
  }

  /** Element `i` of `Between(lo, hi)` is `lo + 1 + i`. */
  lemma {:induction false} BetweenAt(lo: int, hi: int, i: nat)
    requires i < |Between(lo, hi)|
    ensures Between(lo, hi)[i] == lo + 1 + i
    decreases hi - lo
  {
    if i < |Between(lo, hi)| - 1 {
      BetweenAt(lo, hi - 1, i);
    }
  }

  lemma BetweenMembers(lo: int, hi: int, c: int)
    ensures c in Between(lo, hi) <==> lo < c < hi
  {
    if lo < c < hi {
      BetweenAt(lo, hi, c - lo - 1);
    }
    if c in Between(lo, hi) {
      var i :| 0 <= i < |Between(lo, hi)| && Between(lo, hi)[i] == c;
      BetweenAt(lo, hi, i);
    }
  }

  /** The integers strictly between `lo` and `hi` increase. */
  lemma BetweenIncreasing(lo: int, hi: int)
    ensures Increasing(Between(lo, hi))
  {
    forall i, j | 0 <= i < j < |Between(lo, hi)|
      ensures Between(lo, hi)[i] < Between(lo, hi)[j]
    {
      BetweenAt(lo, hi, i);
      BetweenAt(lo, hi, j);
    }
  }

  predicate Increasing(s: seq<int>) {
    forall i, j :: 0 <= i < j < |s| ==> s[i] < s[j]
  }

  /** Selection keeps an increasing sequence increasing. */
  lemma {:induction false} FilterIncreasing(s: seq<int>, ok: int -> bool)
    requires Increasing(s)
    ensures Increasing(Filter(s, ok))
  {
    if s != [] {
      var init := s[..|s| - 1];
      var last := s[|s| - 1];
      FilterIncreasing(init, ok);
      var f := Filter(init, ok);
      if ok(last) {
        forall i | 0 <= i < |f|
          ensures f[i] < last
        {
          FilterMembers(init, ok, f[i]);
        }
      }
    }
  }

  /** `f` applied to every element, in order. */
  function MapSeq<A, B>(s: seq<A>, f: A -> B): (r: seq<B>)
    ensures |r| == |s|
  {
    if s == [] then [] else MapSeq(s[..|s| - 1], f) + [f(s[|s| - 1])]
  }

  /** Element `i` of the mapped sequence is `f` of element `i`. */
  lemma {:induction false} MapSeqAt<A, B>(s: seq<A>, f: A -> B, i: nat)
    requires i < |s|
    ensures MapSeq(s, f)[i] == f(s[i])
  {
    if i < |s| - 1 {
      MapSeqAt(s[..|s| - 1], f, i);
    }
  }

  lemma MapSnoc<A, B>(s: seq<A>, x: A, f: A -> B)
    ensures MapSeq(s + [x], f) == MapSeq(s, f) + [f(x)]
  {
    assert (s + [x])[..|s + [x]| - 1] == s;
  }
}
