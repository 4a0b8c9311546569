/** Counting and searching over sequences, shared by the bottle-list specifications. */
module Seqs {
  import opened Wrappers

  /** Number of elements of `s` satisfying `p`, counted from the front as the source's loops do. */
  function Count<T>(s: seq<T>, p: T -> bool): (n: nat)
    ensures n <= |s|
  {
    if s == [] then 0 else Count(s[..|s| - 1], p) + (if p(s[|s| - 1]) then 1 else 0)
  }

  lemma {:induction false} CountAppend<T>(a: seq<T>, b: seq<T>, p: T -> bool)
    ensures Count(a + b, p) == Count(a, p) + Count(b, p)
    decreases |b|
  {
    if b == [] {
      assert a + b == a;
    } else {
      var n := |b|;
      assert (a + b)[..|a + b| - 1] == a + b[..n - 1];
      CountAppend(a, b[..n - 1], p);
    }
  }

  lemma {:induction false} CountZero<T>(s: seq<T>, p: T -> bool)
    ensures Count(s, p) == 0 <==> forall i :: 0 <= i < |s| ==> !p(s[i])
  {
    if s != [] {
      CountZero(s[..|s| - 1], p);
    }
  }

  lemma {:induction false} CountAll<T>(s: seq<T>, p: T -> bool)
    ensures Count(s, p) == |s| <==> forall i :: 0 <= i < |s| ==> p(s[i])
  {
    if s != [] {
      CountAll(s[..|s| - 1], p);
    }
  }

  /** Sequences whose elements agree on `p` index by index have the same count. */
  lemma {:induction false} CountSame<T>(a: seq<T>, b: seq<T>, p: T -> bool)
    requires |a| == |b| && forall i :: 0 <= i < |a| ==> p(a[i]) == p(b[i])
    ensures Count(a, p) == Count(b, p)
  {
    if a != [] {
      CountSame(a[..|a| - 1], b[..|b| - 1], p);
    }
  }

  /** Turning `p` on at one index, and nowhere else, raises the count by one. */
  lemma {:induction false} CountFlipOne<T>(a: seq<T>, b: seq<T>, p: T -> bool, k: nat)
    requires |a| == |b| && k < |a| && !p(a[k]) && p(b[k])
    requires forall i :: 0 <= i < |a| && i != k ==> p(a[i]) == p(b[i])
    ensures Count(b, p) == Count(a, p) + 1
  {
    var n := |a|;
    if k == n - 1 {
      CountSame(a[..n - 1], b[..n - 1], p);
    } else {
      CountFlipOne(a[..n - 1], b[..n - 1], p, k);
    }
  }

  /** Exactly one element satisfies `p`. */
  ghost predicate ExactlyOne<T>(s: seq<T>, p: T -> bool)
  {
    exists i :: 0 <= i < |s| && p(s[i]) && forall j :: 0 <= j < |s| && j != i ==> !p(s[j])
  }

  /** A sequence with a single element satisfying `p` counts one. */
  lemma CountOneOf<T>(s: seq<T>, p: T -> bool, i: nat)
    requires i < |s| && p(s[i]) && forall j :: 0 <= j < |s| && j != i ==> !p(s[j])
    ensures Count(s, p) == 1
  {
    var a, b := s[..i], s[i + 1..];
    assert s == (a + [s[i]]) + b;
    CountAppend(a + [s[i]], b, p);
    CountAppend(a, [s[i]], p);
    assert Count([s[i]], p) == 1 by { assert [s[i]][..0] == []; }
    assert forall j :: 0 <= j < |a| ==> !p(a[j]) by {
      forall j | 0 <= j < |a| ensures !p(a[j]) { assert a[j] == s[j]; }
    }
    assert forall j :: 0 <= j < |b| ==> !p(b[j]) by {
      forall j | 0 <= j < |b| ensures !p(b[j]) { assert b[j] == s[i + 1 + j]; }
    }
    CountZero(a, p);
    CountZero(b, p);
  }

  /** A count of one has a single witness: the first element satisfying `p`. */
  lemma CountOneExactly<T>(s: seq<T>, p: T -> bool)
    requires Count(s, p) == 1
    ensures ExactlyOne(s, p)
  {
    CountZero(s, p);
    var i := FirstIndex(s, p).value;
    var a, b := s[..i], s[i + 1..];
    assert s == (a + [s[i]]) + b;
    CountAppend(a + [s[i]], b, p);
    CountAppend(a, [s[i]], p);
    assert Count([s[i]], p) == 1 by { assert [s[i]][..0] == []; }
    CountZero(b, p);
    forall j | 0 <= j < |s| && j != i ensures !p(s[j]) {
      if j > i { assert s[j] == b[j - i - 1]; }
    }
    assert p(s[i]);
  }

  lemma CountOne<T>(s: seq<T>, p: T -> bool)
    ensures Count(s, p) == 1 <==> ExactlyOne(s, p)
  {
    if ExactlyOne(s, p) {
      var i :| 0 <= i < |s| && p(s[i]) && forall j :: 0 <= j < |s| && j != i ==> !p(s[j]);
      CountOneOf(s, p, i);
    }
    if Count(s, p) == 1 {
      CountOneExactly(s, p);
    }
  }

  /** The first index whose element satisfies `p`, as a loop with an early `return` or `break` finds it. */
  function FirstIndex<T>(s: seq<T>, p: T -> bool): (r: Option<nat>)
    ensures r.Some? ==> r.value < |s| && p(s[r.value]) && forall j :: 0 <= j < r.value ==> !p(s[j])
    ensures r.None? ==> forall j :: 0 <= j < |s| ==> !p(s[j])
  {
    if s == [] then None
    else if p(s[0]) then Some(0)
    else match FirstIndex(s[1..], p)
      case None => None
      case Some(k) => Some(k + 1)
  }
}
