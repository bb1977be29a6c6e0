/**
 * The array operations the repositories are built from: `findIndex`, `find`,
 * `filter`, `some`, and the de-duplication done by `[...new Set(xs)]`.
 */
module Collections {
  import opened Wrappers

  /** Position of the first element satisfying `p`; `None` stands for findIndex's -1. */
  function FirstIndex<T>(s: seq<T>, p: T -> bool): (r: Option<nat>)
    ensures r.None? <==> forall i :: 0 <= i < |s| ==> !p(s[i])
    ensures r.Some? ==> r.value < |s| && p(s[r.value]) && forall i :: 0 <= i < r.value ==> !p(s[i])
  {
    if s == [] then None
    else if p(s[0]) then Some(0)
    else
      match FirstIndex(s[1..], p)
      case None =>
        assert forall i :: 1 <= i < |s| ==> s[i] == s[1..][i - 1];
        None
      case Some(k) =>
        assert forall i :: 1 <= i <= k ==> s[i] == s[1..][i - 1];
        Some(k + 1)
  }

  /** The first element satisfying `p` (Array.prototype.find), `None` for undefined. */
  function Find<T>(s: seq<T>, p: T -> bool): (r: Option<T>)
    ensures r.None? <==> forall i :: 0 <= i < |s| ==> !p(s[i])
    ensures r.Some? ==> exists i :: 0 <= i < |s| && s[i] == r.value && p(s[i]) &&
                                    forall j :: 0 <= j < i ==> !p(s[j])
  {
    match FirstIndex(s, p)
    case None => None
    case Some(i) => Some(s[i])
  }

  /** Whether some element satisfies `p` (Array.prototype.some). */
  predicate Any<T>(s: seq<T>, p: T -> bool)
  {
    exists i :: 0 <= i < |s| && p(s[i])
  }

  /** The elements satisfying `p`, in their original order (Array.prototype.filter). */
  function Filter<T>(s: seq<T>, p: T -> bool): (r: seq<T>)
    ensures |r| <= |s|
    ensures forall i :: 0 <= i < |r| ==> p(r[i])
  {
    if s == [] then [] else (if p(s[0]) then [s[0]] else []) + Filter(s[1..], p)
  }

  /** The survivors of a filter are exactly the elements that pass. */
  lemma {:induction false} FilterMembers<T>(s: seq<T>, p: T -> bool)
    ensures forall i :: 0 <= i < |Filter(s, p)| ==> Filter(s, p)[i] in s
    ensures forall i :: 0 <= i < |s| && p(s[i]) ==> s[i] in Filter(s, p)
  {
    if s != [] {
      FilterMembers(s[1..], p);
      assert forall i :: 1 <= i < |s| ==> s[i] == s[1..][i - 1];
    }
  }

  /** `some` agrees with `findIndex` finding a position and with `filter` keeping an element. */
  lemma AnyAgreesWithFindAndFilter<T>(s: seq<T>, p: T -> bool)
    ensures Any(s, p) <==> FirstIndex(s, p).Some?
    ensures Any(s, p) <==> Filter(s, p) != []
  {
    FilterMembers(s, p);
  }

  /** Filtering distributes over concatenation: survivors keep their relative order. */
  lemma {:induction false} FilterConcat<T>(a: seq<T>, b: seq<T>, p: T -> bool)
    ensures Filter(a + b, p) == Filter(a, p) + Filter(b, p)
  {
    if a == [] {
      assert a + b == b;
    } else {
      assert (a + b)[0] == a[0];
      assert (a + b)[1..] == a[1..] + b;
      FilterConcat(a[1..], b, p);
    }
  }

  /** If filtering `rest` splits as `tail` then `extra`, the same holds after putting one element in front of both. */
  lemma PrependKeepsSplit<T>(head: T, tail: seq<T>, rest: seq<T>, extra: seq<T>, p: T -> bool)
    requires Filter(rest, p) == Filter(tail, p) + Filter(extra, p)
    ensures Filter([head] + rest, p) == Filter([head] + tail, p) + Filter(extra, p)
  {
    var h := if p(head) then [head] else [];
    assert ([head] + rest)[1..] == rest;
    assert ([head] + tail)[1..] == tail;
    assert Filter([head] + rest, p) == h + Filter(rest, p);
    assert Filter([head] + tail, p) == h + Filter(tail, p);
    AppendAssoc(h, Filter(tail, p), Filter(extra, p));
  }

  /** Concatenation regroups freely. */
  lemma AppendAssoc<T>(a: seq<T>, b: seq<T>, c: seq<T>)
    ensures a + (b + c) == (a + b) + c
  {
  }

  /** `f` applied to each element, in order (Array.prototype.map). */
  function Map<T, U>(s: seq<T>, f: T -> U): (r: seq<U>)
    ensures |r| == |s| && forall i :: 0 <= i < |s| ==> r[i] == f(s[i])
  {
    if s == [] then [] else [f(s[0])] + Map(s[1..], f)
  }

  /** Mapping a sequence is mapping all but its last element, then the last one. */
  lemma MapSnoc<T, U>(s: seq<T>, f: T -> U)
    requires s != []
    ensures Map(s, f) == Map(s[..|s| - 1], f) + [f(s[|s| - 1])]
  {
    var init := s[..|s| - 1];
    var r, ri := Map(s, f), Map(init, f);
    forall i | 0 <= i < |ri| ensures r[i] == ri[i] {
      assert init[i] == s[i];
    }
    assert r == ri + [f(s[|s| - 1])];
  }

  /** Filtering keeps the length exactly when every element passes. */
  lemma {:induction false} FilterKeepsLength<T>(s: seq<T>, p: T -> bool)
    ensures |Filter(s, p)| == |s| <==> forall i :: 0 <= i < |s| ==> p(s[i])
    ensures (forall i :: 0 <= i < |s| ==> p(s[i])) ==> Filter(s, p) == s
  {
    if s != [] {
      FilterKeepsLength(s[1..], p);
      assert forall i :: 1 <= i < |s| ==> s[i] == s[1..][i - 1];
      assert s == [s[0]] + s[1..];
    }
  }

  /** Filtering drops everything when no element passes. */
  lemma {:induction false} FilterNone<T>(s: seq<T>, p: T -> bool)
    requires forall i :: 0 <= i < |s| ==> !p(s[i])
    ensures Filter(s, p) == []
  {
    if s != [] {
      FilterNone(s[1..], p);
    }
  }

  /** No element occurs twice. */
  predicate NoDuplicates<T(==)>(s: seq<T>)
  {
    forall i, j :: 0 <= i < j < |s| ==> s[i] != s[j]
  }

  /** Index of the first occurrence of `x` (Array.prototype.indexOf on a present element). */
  function IndexOf<T(==)>(s: seq<T>, x: T): (r: nat)
    requires x in s
    ensures r < |s| && s[r] == x
    ensures forall j :: 0 <= j < r ==> s[j] != x
  {
    if s[0] == x then 0
    else
      assert forall j :: 1 <= j < |s| ==> s[j] == s[1..][j - 1];
      IndexOf(s[1..], x) + 1
  }

  /** An element already in a prefix has its first occurrence there. */
  lemma IndexOfPrefix<T>(s: seq<T>, k: nat, x: T)
    requires k <= |s| && x in s[..k]
    ensures IndexOf(s, x) == IndexOf(s[..k], x)
  {
    assert forall j :: 0 <= j < k ==> s[..k][j] == s[j];
  }

  /** Elements listed in increasing order of first occurrence in `s`. */
  predicate InFirstOccurrenceOrder<T(==)>(r: seq<T>, s: seq<T>)
    requires forall i :: 0 <= i < |r| ==> r[i] in s
  {
    forall i, j :: 0 <= i < j < |r| ==> IndexOf(s, r[i]) < IndexOf(s, r[j])
  }

  /**
   * The distinct elements of `s` in order of first occurrence: what
   * `[...new Set(s)]` yields, since a Set iterates in insertion order.
   */
  function Distinct<T(==)>(s: seq<T>): (r: seq<T>)
    ensures NoDuplicates(r)
    ensures forall i :: 0 <= i < |r| ==> r[i] in s
    ensures forall i :: 0 <= i < |s| ==> s[i] in r
    ensures InFirstOccurrenceOrder(r, s)
  {
    if s == [] then []
    else
      var d := Distinct(s[..|s| - 1]);
      DistinctStep(s, d);
      if s[|s| - 1] in d then d else d + [s[|s| - 1]]
  }

  /** One step of Distinct: `d` lists the prefix without its last element. */
  lemma DistinctStep<T>(s: seq<T>, d: seq<T>)
    requires |s| > 0
    requires forall i :: 0 <= i < |d| ==> d[i] in s[..|s| - 1]
    requires forall i :: 0 <= i < |s| - 1 ==> s[i] in d
    requires NoDuplicates(d) && InFirstOccurrenceOrder(d, s[..|s| - 1])
    ensures forall i :: 0 <= i < |d| ==> d[i] in s
    ensures InFirstOccurrenceOrder(d, s)
    ensures s[|s| - 1] !in d ==> InFirstOccurrenceOrder(d + [s[|s| - 1]], s)
  {
    var init, last := s[..|s| - 1], s[|s| - 1];
    assert s == init + [last];
    forall i | 0 <= i < |d| ensures IndexOf(s, d[i]) == IndexOf(init, d[i]) < |s| - 1 {
      IndexOfPrefix(s, |s| - 1, d[i]);
    }
    if last !in d {
      var r := d + [last];
      assert last !in init;
      assert IndexOf(s, last) == |s| - 1;
      forall i, j | 0 <= i < j < |r| ensures IndexOf(s, r[i]) < IndexOf(s, r[j]) {
        if j == |d| {
          assert r[i] == d[i];
        } else {
          assert r[i] == d[i] && r[j] == d[j];
        }
      }
    }
  }

  /** The set of keys of the elements of `s`; it has at most |s| members. */
  function Image<T, K>(s: seq<T>, key: T -> K): (r: set<K>)
    ensures |r| <= |s|
    ensures forall i :: 0 <= i < |s| ==> key(s[i]) in r
  {
    if s == [] then {}
    else
      var rest := Image(s[..|s| - 1], key);
      assert forall i :: 0 <= i < |s| - 1 ==> s[..|s| - 1][i] == s[i];
      rest + {key(s[|s| - 1])}
  }

  /** Every member of the image is the key of some element. */
  lemma {:induction false} ImageHasOnlyKeys<T, K>(s: seq<T>, key: T -> K)
    ensures forall k :: k in Image(s, key) ==> exists i :: 0 <= i < |s| && key(s[i]) == k
  {
    if s != [] {
      var init := s[..|s| - 1];
      ImageHasOnlyKeys(init, key);
      forall k | k in Image(s, key) ensures exists i :: 0 <= i < |s| && key(s[i]) == k {
        if k == key(s[|s| - 1]) {
          assert key(s[|s| - 1]) == k;
        } else {
          assert k in Image(init, key);
          var i :| 0 <= i < |init| && key(init[i]) == k;
          assert init[i] == s[i];
        }
      }
    }
  }
}
