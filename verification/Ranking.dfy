/** Stable descending sorting, the shape every `.sort((a, b) => b.score - a.score || ...)` of the
    repository has: candidates are ordered by a score and then by an integer tie breaker. */
module Ranking {
  import opened Domain

  datatype Key = Key(score: real, tie: int)

  predicate Above(a: Key, b: Key) {
    a.score > b.score || (a.score == b.score && a.tie > b.tie)
  }

  function Insert<T>(x: T, s: seq<T>, key: T -> Key): seq<T> {
    if s == [] || !Above(key(s[0]), key(x)) then [x] + s
    else [s[0]] + Insert(x, s[1..], key)
  }

  /** Sorting keeps the input order of elements with equal keys. */
  function Sort<T>(s: seq<T>, key: T -> Key): seq<T> {
    if s == [] then [] else Insert(s[0], Sort(s[1..], key), key)
  }

  ghost predicate Ordered<T>(s: seq<T>, key: T -> Key) {
    forall i, j :: 0 <= i < j < |s| ==> !Above(key(s[j]), key(s[i]))
  }

  lemma {:induction false} InsertKeepsMembers<T>(x: T, s: seq<T>, key: T -> Key)
    ensures multiset(Insert(x, s, key)) == multiset(s) + multiset{x}
  {
    if s == [] || !Above(key(s[0]), key(x)) {
      assert multiset([x] + s) == multiset{x} + multiset(s);
    } else {
      InsertKeepsMembers(x, s[1..], key);
      assert s == [s[0]] + s[1..];
    }
  }

  lemma {:induction false} InsertIsSorted<T>(x: T, s: seq<T>, key: T -> Key)
    requires Ordered(s, key)
    ensures Ordered(Insert(x, s, key), key)
  {
    if s != [] && Above(key(s[0]), key(x)) {
      var rest := Insert(x, s[1..], key);
      InsertIsSorted(x, s[1..], key);
      forall k | 0 <= k < |rest|
        ensures !Above(key(rest[k]), key(s[0]))
      {
        InsertKeepsMembers(x, s[1..], key);
        assert rest[k] in multiset(rest);
        if rest[k] != x {
          assert rest[k] in multiset(s[1..]);
        }
      }
    }
  }

  lemma {:induction false} SortIsSorted<T>(s: seq<T>, key: T -> Key)
    ensures Ordered(Sort(s, key), key)
    ensures multiset(Sort(s, key)) == multiset(s)
    ensures |Sort(s, key)| == |s|
  {
    if s != [] {
      SortIsSorted(s[1..], key);
      InsertIsSorted(s[0], Sort(s[1..], key), key);
      InsertKeepsMembers(s[0], Sort(s[1..], key), key);
      assert s == [s[0]] + s[1..];
    }
    assert |multiset(Sort(s, key))| == |multiset(s)|;
  }

  lemma {:induction false} InsertIsStable<T(!new)>(x: T, s: seq<T>, key: T -> Key, k: Key, p: T -> bool)
    requires forall e :: p(e) ==> key(e) == k
    ensures Filter(Insert(x, s, key), p) == Filter([x] + s, p)
  {
    assert ([x] + s)[1..] == s;
    if s != [] && Above(key(s[0]), key(x)) {
      InsertIsStable(x, s[1..], key, k, p);
      assert ([x] + s[1..])[1..] == s[1..];
      assert ([s[0]] + Insert(x, s[1..], key))[1..] == Insert(x, s[1..], key);
    }
  }

  /** Elements with equal keys stay in the order they were listed in. */
  lemma {:induction false} SortIsStable<T(!new)>(s: seq<T>, key: T -> Key, k: Key, p: T -> bool)
    requires forall e :: p(e) ==> key(e) == k
    ensures Filter(Sort(s, key), p) == Filter(s, p)
  {
    if s != [] {
      SortIsStable(s[1..], key, k, p);
      InsertIsStable(s[0], Sort(s[1..], key), key, k, p);
      assert ([s[0]] + Sort(s[1..], key))[1..] == Sort(s[1..], key);
    }
  }

  lemma FilterPosition<T(!new)>(s: seq<T>, p: T -> bool, i: nat) returns (a: nat)
    requires i < |s| && p(s[i])
    ensures a < |Filter(s, p)| && Filter(s, p)[a] == s[i] && a == |Filter(s[..i], p)|
  {
    assert s == s[..i] + [s[i]] + s[i + 1..];
    FilterAppend(s[..i] + [s[i]], s[i + 1..], p);
    FilterAppend(s[..i], [s[i]], p);
    assert [s[i]][1..] == [] && Filter([s[i]], p) == [s[i]];
    a := |Filter(s[..i], p)|;
  }

  lemma FilterGrows<T(!new)>(s: seq<T>, p: T -> bool, i: nat, j: nat)
    requires i < j <= |s| && p(s[i])
    ensures |Filter(s[..i], p)| < |Filter(s[..j], p)|
  {
    var a := FilterPosition(s[..j], p, i);
    assert s[..j][..i] == s[..i];
  }

  /** Two elements that are kept are kept in their order. */
  lemma FilterPositions<T(!new)>(s: seq<T>, p: T -> bool, i: nat, j: nat) returns (a: nat, b: nat)
    requires i < j < |s| && p(s[i]) && p(s[j])
    ensures a < b < |Filter(s, p)| && Filter(s, p)[a] == s[i] && Filter(s, p)[b] == s[j]
  {
    a := FilterPosition(s, p, i);
    b := FilterPosition(s, p, j);
    FilterGrows(s, p, i, j);
  }

  /** The n-th element that is kept is one with exactly n such elements before it. */
  lemma {:induction false} NthIsNth<T(!new)>(s: seq<T>, p: T -> bool, n: nat) returns (k: nat)
    requires n < |Filter(s, p)|
    ensures k < |s| && p(s[k]) && s[k] == Filter(s, p)[n] && |Filter(s[..k], p)| == n
  {
    if p(s[0]) && n == 0 {
      k := 0;
    } else {
      var before := if p(s[0]) then 1 else 0;
      k := NthIsNth(s[1..], p, n - before);
      assert s[..k + 1][1..] == s[1..][..k];
      k := k + 1;
    }
  }

  /** `s[k]` has the highest key, and no element before it has the same one. */
  ghost predicate FirstMaximum<T>(s: seq<T>, key: T -> Key, k: nat) {
    && k < |s|
    && (forall j :: 0 <= j < |s| ==> !Above(key(s[j]), key(s[k])))
    && (forall j :: 0 <= j < k ==> Above(key(s[k]), key(s[j])))
  }

  /** The first after a stable sort is the first of the maxima. */
  lemma {:induction false} SortPutsFirstMaximumFirst<T(!new)>(s: seq<T>, key: T -> Key) returns (k: nat)
    requires s != []
    ensures FirstMaximum(s, key, k) && Sort(s, key) != [] && Sort(s, key)[0] == s[k]
  {
    if |s| == 1 {
      k := 0;
    } else {
      var i := SortPutsFirstMaximumFirst(s[1..], key);
      k := if Above(key(s[i + 1]), key(s[0])) then i + 1 else 0;
      hide Sort;
      SortHead(s, key);
      assert forall j :: 0 < j < |s| ==> s[j] == s[1..][j - 1];
    }
  }

  lemma SortHead<T>(s: seq<T>, key: T -> Key)
    requires s != [] && Sort(s[1..], key) != []
    ensures Sort(s, key) != []
    ensures Sort(s, key)[0] == if Above(key(Sort(s[1..], key)[0]), key(s[0])) then Sort(s[1..], key)[0] else s[0]
  {
  }

  lemma SortKeepsMembers<T>(s: seq<T>, key: T -> Key, x: T)
    ensures x in Sort(s, key) <==> x in s
  {
    SortIsSorted(s, key);
    assert x in multiset(Sort(s, key)) <==> x in multiset(s);
  }

  function Keys<T>(s: seq<T>, key: T -> Key): seq<Key> {
    seq(|s|, i requires 0 <= i < |s| => key(s[i]))
  }

  lemma Without<T>(s: seq<T>, k: nat)
    requires k < |s|
    ensures multiset(s[..k] + s[k + 1..]) == multiset(s) - multiset{s[k]}
  {
    assert s == s[..k] + [s[k]] + s[k + 1..];
  }

  lemma TailWithout<T>(s: seq<T>)
    requires s != []
    ensures multiset(s[1..]) == multiset(s) - multiset{s[0]}
  {
    Without(s, 0);
    assert s[..0] + s[1..] == s[1..];
  }

  lemma KeysWithout<T>(s: seq<T>, k: nat, key: T -> Key)
    requires k < |s|
    ensures multiset(Keys(s, key)) == multiset(Keys(s[..k] + s[k + 1..], key)) + multiset{key(s[k])}
  {
    var ks := Keys(s, key);
    assert ks[..k] + ks[k + 1..] == Keys(s[..k] + s[k + 1..], key);
    Without(ks, k);
    assert ks[k] in multiset(ks);
  }

  lemma HeadElsewhere<T>(s: seq<T>, t: seq<T>) returns (k: nat)
    requires multiset(s) == multiset(t) && s != []
    ensures k < |t| && t[k] == s[0]
    ensures multiset(s[1..]) == multiset(t[..k] + t[k + 1..])
  {
    assert s[0] in multiset(t);
    k :| 0 <= k < |t| && t[k] == s[0];
    TailWithout(s);
    Without(t, k);
  }

  lemma KeysWithoutHead<T>(s: seq<T>, key: T -> Key)
    requires s != []
    ensures multiset(Keys(s, key)) == multiset(Keys(s[1..], key)) + multiset{key(s[0])}
  {
    KeysWithout(s, 0, key);
    assert s[..0] + s[1..] == s[1..];
  }

  lemma NothingPermuted<T>(t: seq<T>)
    requires multiset([]) == multiset(t)
    ensures t == []
  {
    assert |multiset(t)| == 0;
  }

  lemma {:induction false} KeysOfPermutation<T>(s: seq<T>, t: seq<T>, key: T -> Key)
    requires multiset(s) == multiset(t)
    ensures multiset(Keys(s, key)) == multiset(Keys(t, key))
    decreases |s|
  {
    if s == [] {
      NothingPermuted(t);
    } else {
      hide Keys;
      var k := HeadElsewhere(s, t);
      KeysOfPermutation(s[1..], t[..k] + t[k + 1..], key);
      KeysWithoutHead(s, key);
      KeysWithout(t, k, key);
    }
  }

  ghost predicate Descending(a: seq<Key>) {
    forall i, j :: 0 <= i < j < |a| ==> !Above(a[j], a[i])
  }

  lemma SameTop(a: seq<Key>, b: seq<Key>)
    requires multiset(a) == multiset(b) && a != [] && b != []
    requires Descending(a) && Descending(b)
    ensures a[0] == b[0]
  {
    assert a[0] in multiset(b) && b[0] in multiset(a);
    var i :| 0 <= i < |b| && b[i] == a[0];
    var j :| 0 <= j < |a| && a[j] == b[0];
  }

  lemma {:induction false} OrderedKeysAgree(a: seq<Key>, b: seq<Key>)
    requires multiset(a) == multiset(b)
    requires Descending(a) && Descending(b)
    ensures a == b
  {
    assert |multiset(a)| == |a| && |multiset(b)| == |b|;
    if a != [] {
      SameTop(a, b);
      TailWithout(a);
      TailWithout(b);
      OrderedKeysAgree(a[1..], b[1..]);
      assert a == [a[0]] + a[1..] && b == [b[0]] + b[1..];
    }
  }

  /** Which keys come first does not depend on the order the elements were listed in. */
  lemma SortedKeysOfPermutation<T>(s: seq<T>, t: seq<T>, key: T -> Key)
    requires multiset(s) == multiset(t)
    ensures Keys(Sort(s, key), key) == Keys(Sort(t, key), key)
  {
    SortIsSorted(s, key);
    SortIsSorted(t, key);
    KeysOfPermutation(Sort(s, key), Sort(t, key), key);
    OrderedKeysAgree(Keys(Sort(s, key), key), Keys(Sort(t, key), key));
  }
}
