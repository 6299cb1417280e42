/** Stable sorting by a pair of strings, as sorted() does it. */
module Sorting {
  type Key = (string, string)

  /** Code-point order. */
  predicate Less(a: string, b: string)
    decreases |a|
  {
    b != "" && (a == "" || a[0] < b[0] || (a[0] == b[0] && Less(a[1..], b[1..])))
  }

  predicate KeyLess(a: Key, b: Key) { Less(a.0, b.0) || (a.0 == b.0 && Less(a.1, b.1)) }

  /** Behind every item that does not sort after it, so equal items stay in order. */
  function Insert<T>(s: seq<T>, i: T, key: T -> Key): seq<T> {
    if s == [] || !KeyLess(key(i), key(s[|s| - 1])) then s + [i] else Insert(s[..|s| - 1], i, key) + [s[|s| - 1]]
  }

  function Sorted<T>(g: seq<T>, key: T -> Key): seq<T> {
    if g == [] then [] else Insert(Sorted(g[..|g| - 1], key), g[|g| - 1], key)
  }

  lemma {:induction false} LessIrreflexive(a: string)
    ensures !Less(a, a)
    decreases |a|
  {
    if a != "" { LessIrreflexive(a[1..]); }
  }

  /** a sorts before b exactly when it is a proper prefix of it, or has the smaller character where they first differ. */
  lemma {:induction false} LessExactly(a: string, b: string)
    ensures Less(a, b) <==> exists k :: 0 <= k <= |a| && k < |b| && a[..k] == b[..k] && (k == |a| || a[k] < b[k])
    decreases |a|
  {
    if a != "" && b != "" && a[0] == b[0] {
      LessExactly(a[1..], b[1..]);
      if k :| 0 <= k <= |a[1..]| && k < |b[1..]| && a[1..][..k] == b[1..][..k] && (k == |a[1..]| || a[1..][k] < b[1..][k]) {
        assert a[..k + 1] == [a[0]] + a[1..][..k] && b[..k + 1] == [b[0]] + b[1..][..k];
      }
      if k :| 0 <= k <= |a| && k < |b| && a[..k] == b[..k] && (k == |a| || a[k] < b[k]) {
        assert k > 0;
        assert a[1..][..k - 1] == a[..k][1..] && b[1..][..k - 1] == b[..k][1..];
      }
    } else if b != "" {
      assert a[..0] == b[..0];
      if k :| 0 <= k <= |a| && k < |b| && a[..k] == b[..k] && (k == |a| || a[k] < b[k]) {
        if k > 0 { assert a[..k][0] == b[..k][0]; }
      }
    }
  }

  lemma {:induction false} LessIsTotal(a: string, b: string)
    ensures Less(a, b) || Less(b, a) || a == b
    ensures !(Less(a, b) && Less(b, a)) && !Less(a, a)
    decreases |a|
  {
    if a != "" && b != "" && a[0] == b[0] {
      LessIsTotal(a[1..], b[1..]);
      assert a == [a[0]] + a[1..] && b == [b[0]] + b[1..];
    }
    LessIrreflexive(a);
  }

  lemma {:induction false} LessTransitive(a: string, b: string, c: string)
    requires Less(a, b) && Less(b, c)
    ensures Less(a, c)
    decreases |a|
  {
    if a != "" && a[0] == b[0] && b[0] == c[0] { LessTransitive(a[1..], b[1..], c[1..]); }
  }

  lemma {:induction false} KeyLessTransitive(a: Key, b: Key, c: Key)
    requires KeyLess(a, b) && KeyLess(b, c)
    ensures KeyLess(a, c)
  {
    if Less(a.0, b.0) && Less(b.0, c.0) { LessTransitive(a.0, b.0, c.0); }
    LessIrreflexive(b.0);
    if a.0 == b.0 == c.0 { LessTransitive(a.1, b.1, c.1); }
  }

  lemma {:induction false} KeyLessTotal(a: Key, b: Key)
    ensures KeyLess(a, b) || KeyLess(b, a) || a == b
    ensures !(KeyLess(a, b) && KeyLess(b, a)) && !KeyLess(a, a)
  {
    LessIsTotal(a.0, b.0);
    LessIsTotal(a.1, b.1);
  }

  predicate Increasing<T(!new)>(s: seq<T>, key: T -> Key) {
    forall j, k :: 0 <= j < k < |s| ==> KeyLess(key(s[j]), key(s[k]))
  }

  predicate DistinctKeys<T(!new)>(s: seq<T>, key: T -> Key) {
    forall j, k :: 0 <= j < k < |s| ==> key(s[j]) != key(s[k])
  }

  lemma {:induction false} InsertElements<T>(s: seq<T>, i: T, key: T -> Key)
    ensures multiset(Insert(s, i, key)) == multiset(s) + multiset{i}
  {
    if s != [] && KeyLess(key(i), key(s[|s| - 1])) {
      InsertElements(s[..|s| - 1], i, key);
      assert s == s[..|s| - 1] + [s[|s| - 1]];
    }
  }

  lemma {:induction false} AppendIncreasing<T(!new)>(s: seq<T>, i: T, key: T -> Key)
    requires Increasing(s, key) && forall x <- s :: KeyLess(key(x), key(i))
    ensures Increasing(s + [i], key)
  {
  }

  lemma {:induction false} SortedElements<T>(g: seq<T>, key: T -> Key)
    ensures multiset(Sorted(g, key)) == multiset(g)
  {
    if g != [] {
      var front, last := g[..|g| - 1], g[|g| - 1];
      SortedElements(front, key);
      assert g == front + [last];
      InsertElements(Sorted(front, key), last, key);
    }
  }

  lemma {:induction false} InsertIncreasing<T(!new)>(s: seq<T>, i: T, key: T -> Key)
    requires Increasing(s, key) && forall x <- s :: key(x) != key(i)
    ensures Increasing(Insert(s, i, key), key)
  {
    if s != [] {
      var front, last := s[..|s| - 1], s[|s| - 1];
      assert s == front + [last];
      KeyLessTotal(key(i), key(last));
      if KeyLess(key(i), key(last)) {
        InsertIncreasing(front, i, key);
        InsertElements(front, i, key);
        forall x | x in Insert(front, i, key) ensures KeyLess(key(x), key(last)) {
          assert x in multiset(front) + multiset{i};
        }
        AppendIncreasing(Insert(front, i, key), last, key);
      } else {
        forall x | x in s ensures KeyLess(key(x), key(i)) {
          if x != last { KeyLessTransitive(key(x), key(last), key(i)); }
        }
        AppendIncreasing(s, i, key);
      }
    }
  }

  /** Items with distinct keys come out in strictly increasing order, and are the same items. */
  lemma {:induction false} SortedIncreasing<T(!new)>(g: seq<T>, key: T -> Key)
    requires DistinctKeys(g, key)
    ensures Increasing(Sorted(g, key), key) && multiset(Sorted(g, key)) == multiset(g)
  {
    SortedElements(g, key);
    if g != [] {
      var front, last := g[..|g| - 1], g[|g| - 1];
      SortedIncreasing(front, key);
      assert g == front + [last];
      forall x | x in Sorted(front, key) ensures key(x) != key(last) {
        assert x in multiset(front);
      }
      InsertIncreasing(Sorted(front, key), last, key);
    }
  }

  lemma {:induction false} TailElements<T(!new)>(s: seq<T>, key: T -> Key)
    requires s != [] && Increasing(s, key)
    ensures Increasing(s[1..], key) && forall x :: x in s[1..] <==> x in s && x != s[0]
  {
    KeyLessTotal(key(s[0]), key(s[0]));
    assert s == [s[0]] + s[1..];
  }

  /** Strictly increasing sequences of the same items are equal. */
  lemma {:induction false} SameElementsSame<T(!new)>(s: seq<T>, t: seq<T>, key: T -> Key)
    requires Increasing(s, key) && Increasing(t, key) && forall x :: x in s <==> x in t
    ensures s == t
    decreases |s|
  {
    assert (s != [] ==> s[0] in s) && (t != [] ==> t[0] in t);
    if s != [] && t != [] {
      assert s[0] in t && t[0] in s;
      KeyLessTotal(key(s[0]), key(t[0]));
      assert s[0] == t[0];
      TailElements(s, key);
      TailElements(t, key);
      SameElementsSame(s[1..], t[1..], key);
    }
  }
}
