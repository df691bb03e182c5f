/**
 * `Array.prototype.sort` with a numeric comparator `(a, b) => key(a) - key(b)`,
 * as the stable sort it is: an insertion sort that places each element after
 * every earlier element whose key is not greater.
 */
module Sorting {

  /** Keys never decrease along `s`. */
  predicate SortedBy<T>(s: seq<T>, key: T -> real) {
    forall i, j :: 0 <= i < j < |s| ==> key(s[i]) <= key(s[j])
  }

  /** `x` placed into sorted `s` after every element whose key is at most key(x). */
  function Insert<T>(x: T, s: seq<T>, key: T -> real): (r: seq<T>)
    ensures |r| == |s| + 1
  {
    if |s| == 0 then [x]
    else if key(s[|s| - 1]) <= key(x) then s + [x]
    else Insert(x, s[..|s| - 1], key) + [s[|s| - 1]]
  }

  /** The sorted sequence: the elements of `s` inserted left to right. */
  function Sort<T>(s: seq<T>, key: T -> real): (r: seq<T>)
    ensures |r| == |s|
  {
    if |s| == 0 then []
    else Insert(s[|s| - 1], Sort(s[..|s| - 1], key), key)
  }

  lemma {:induction false} InsertElements<T>(x: T, s: seq<T>, key: T -> real)
    ensures multiset(Insert(x, s, key)) == multiset(s) + multiset{x}
  {
    if |s| > 0 && key(s[|s| - 1]) > key(x) {
      var init := s[..|s| - 1];
      InsertElements(x, init, key);
      assert s == init + [s[|s| - 1]];
    }
  }

  lemma {:induction false} InsertSorted<T>(x: T, s: seq<T>, key: T -> real)
    requires SortedBy(s, key)
    ensures SortedBy(Insert(x, s, key), key)
    ensures forall i :: 0 <= i < |Insert(x, s, key)| ==>
      key(Insert(x, s, key)[i]) == key(x) || exists j :: 0 <= j < |s| && Insert(x, s, key)[i] == s[j]
  {
    if |s| > 0 && key(s[|s| - 1]) > key(x) {
      var init := s[..|s| - 1];
      var last := s[|s| - 1];
      assert SortedBy(init, key);
      InsertSorted(x, init, key);
      var r := Insert(x, init, key);
      forall i | 0 <= i < |r|
        ensures key(r[i]) <= key(last)
      {
        if key(r[i]) != key(x) {
          var j :| 0 <= j < |init| && r[i] == init[j];
          assert init[j] == s[j];
        }
      }
      var r' := r + [last];
      forall i | 0 <= i < |r'|
        ensures key(r'[i]) == key(x) || exists j :: 0 <= j < |s| && r'[i] == s[j]
      {
        if i == |r| {
          assert r'[i] == s[|s| - 1];
        } else if key(r'[i]) != key(x) {
          var j :| 0 <= j < |init| && r[i] == init[j];
          assert r'[i] == s[j];
        }
      }
    }
  }

  /** The result is sorted and holds exactly the input's elements. */
  lemma {:induction false} SortCorrect<T>(s: seq<T>, key: T -> real)
    ensures SortedBy(Sort(s, key), key)
    ensures multiset(Sort(s, key)) == multiset(s)
  {
    if |s| > 0 {
      var init := s[..|s| - 1];
      SortCorrect(init, key);
      InsertSorted(s[|s| - 1], Sort(init, key), key);
      InsertElements(s[|s| - 1], Sort(init, key), key);
      assert s == init + [s[|s| - 1]];
    }
  }

  /** Elements of `s` with equal keys are equal. */
  predicate KeysDetermine<T(==)>(s: seq<T>, key: T -> real) {
    forall i, j :: 0 <= i < |s| && 0 <= j < |s| && key(s[i]) == key(s[j]) ==> s[i] == s[j]
  }

  lemma Cancel<T>(m: multiset<T>, n: multiset<T>, x: T)
    requires m + multiset{x} == n + multiset{x}
    ensures m == n
  {
    forall z
      ensures m[z] == n[z]
    {
      assert (m + multiset{x})[z] == m[z] + multiset{x}[z];
      assert (n + multiset{x})[z] == n[z] + multiset{x}[z];
    }
  }

  lemma DropLast<T>(a: seq<T>, b: seq<T>, x: T)
    requires multiset(a + [x]) == multiset(b + [x])
    ensures multiset(a) == multiset(b)
  {
    assert multiset(a + [x]) == multiset(a) + multiset{x};
    assert multiset(b + [x]) == multiset(b) + multiset{x};
    Cancel(multiset(a), multiset(b), x);
  }

  /** Sorted arrangements of the same elements end in the same element. */
  lemma SameLast<T>(a: seq<T>, b: seq<T>, key: T -> real)
    requires |a| > 0 && SortedBy(a, key) && SortedBy(b, key) && multiset(a) == multiset(b)
    requires KeysDetermine(a, key)
    ensures |b| == |a| && a[|a| - 1] == b[|b| - 1]
  {
    assert |a| == |multiset(a)| == |multiset(b)| == |b|;
    var n := |a|;
    var x, y := a[n - 1], b[n - 1];
    assert y in multiset(a) by { assert y in multiset(b); }
    var i :| 0 <= i < n && a[i] == y;
    assert x in multiset(b) by { assert x in multiset(a); }
    var j :| 0 <= j < n && b[j] == x;
    assert key(x) == key(y);
    assert a[i] == a[n - 1];
  }

  /** Two sorted arrangements of the same elements coincide when equal keys
      mean equal elements, so every correct sort returns Sort(s, key). */
  lemma {:induction false} SortedUnique<T>(a: seq<T>, b: seq<T>, key: T -> real)
    requires SortedBy(a, key) && SortedBy(b, key) && multiset(a) == multiset(b)
    requires KeysDetermine(a, key)
    ensures a == b
  {
    if |a| == 0 {
      assert |b| == |multiset(b)| == 0;
    } else {
      SameLast(a, b, key);
      var n := |a|;
      var a', b' := a[..n - 1], b[..n - 1];
      assert a == a' + [a[n - 1]];
      assert b == b' + [a[n - 1]];
      DropLast(a', b', a[n - 1]);
      assert KeysDetermine(a', key) by {
        forall i, j | 0 <= i < |a'| && 0 <= j < |a'| && key(a'[i]) == key(a'[j])
          ensures a'[i] == a'[j]
        {
          assert a'[i] == a[i] && a'[j] == a[j];
        }
      }
      SortedUnique(a', b', key);
    }
  }

  /** Keys strictly increase along `s`. */
  predicate StrictlySortedBy<T>(s: seq<T>, key: T -> real) {
    forall i, j :: 0 <= i < j < |s| ==> key(s[i]) < key(s[j])
  }

  /** No two elements of `s` share a key. */
  predicate KeysDistinct<T>(s: seq<T>, key: T -> real) {
    forall i, j :: 0 <= i < j < |s| ==> key(s[i]) != key(s[j])
  }

  /** Inserting an element with a fresh key into a strictly sorted sequence keeps it strictly sorted. */
  lemma {:induction false} InsertStrict<T>(x: T, s: seq<T>, key: T -> real)
    requires StrictlySortedBy(s, key)
    requires forall i :: 0 <= i < |s| ==> key(s[i]) != key(x)
    ensures StrictlySortedBy(Insert(x, s, key), key)
  {
    if |s| > 0 && key(x) < key(s[|s| - 1]) {
      var s', last := s[..|s| - 1], s[|s| - 1];
      InsertStrict(x, s', key);
      var r' := Insert(x, s', key);
      InsertElements(x, s', key);
      forall i | 0 <= i < |r'|
        ensures key(r'[i]) < key(last)
      {
        assert r'[i] in multiset(r');
        if r'[i] != x {
          assert r'[i] in multiset(s');
          var j :| 0 <= j < |s'| && s'[j] == r'[i];
          assert s'[j] == s[j];
        }
      }
      var r := r' + [last];
      assert forall i :: 0 <= i < |r'| ==> r[i] == r'[i];
    }
  }

  /** Sorting elements with pairwise different keys orders them strictly. */
  lemma {:induction false} SortStrict<T>(s: seq<T>, key: T -> real)
    requires KeysDistinct(s, key)
    ensures StrictlySortedBy(Sort(s, key), key)
  {
    if |s| > 0 {
      var s', x := s[..|s| - 1], s[|s| - 1];
      assert KeysDistinct(s', key) by {
        assert forall i :: 0 <= i < |s'| ==> s'[i] == s[i];
      }
      SortStrict(s', key);
      var t := Sort(s', key);
      SortCorrect(s', key);
      forall i | 0 <= i < |t|
        ensures key(t[i]) != key(x)
      {
        assert t[i] in multiset(s') by { assert t[i] in multiset(t); }
        var j :| 0 <= j < |s'| && s'[j] == t[i];
        assert s'[j] == s[j];
      }
      InsertStrict(x, t, key);
    }
  }
}
