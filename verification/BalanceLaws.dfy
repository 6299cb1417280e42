/** Coalescing is a best-row-per-account fold: repeatable, incremental and sorted. */
module BalanceLaws {
  import opened Results
  import opened Text
  import opened Sorting
  import opened Balance
  import opened Sequences

  // ---- normalisation ------------------------------------------------------

  lemma {:induction false} LowerKeeps(s: string)
    requires forall c <- s :: !('A' <= c <= 'Z')
    ensures Lower(s) == s
  {
    forall k | 0 <= k < |s| ensures Lower(s)[k] == s[k] {
      assert s[k] in s;
    }
  }

  lemma AliyunIsCanonical()
    ensures IsAliyun(ALIYUN)
  {
    LowerKeeps(ALIYUN);
    assert ALIYUN[..7] == "aliyun" + ".";
  }

  lemma {:induction false} NoPrefix(prefix: string)
    requires prefix != "" && prefix[0] != 'v'
    ensures !Matches(VOLCENGINE, prefix)
  {
    LowerKeeps(VOLCENGINE);
    assert VOLCENGINE[0] == 'v';
    assert (prefix + ".")[0] == prefix[0];
  }

  lemma VolcengineIsCanonical()
    ensures IsVolcengine(VOLCENGINE) && !IsAliyun(VOLCENGINE)
  {
    LowerKeeps(VOLCENGINE);
    assert VOLCENGINE[..11] == "volcengine" + ".";
    NoPrefix("aliyun");
    NoPrefix("dashscope");
    NoPrefix("qwen");
    NoPrefix("bailian");
  }

  lemma {:induction false} SharedIsCanonical(p: string)
    ensures Canonical(Canonical(p)) == Canonical(p)
  {
    AliyunIsCanonical();
    VolcengineIsCanonical();
  }

  /** Normalising a row a second time changes nothing. */
  lemma {:induction false} NormalizeTwice(i: Item)
    ensures Normalize(Normalize(i)) == Normalize(i)
  {
    SharedIsCanonical(i.provider);
  }

  // ---- one best row per key -----------------------------------------------

  function Lookup(g: seq<Item>, k: Key): Option<Item> {
    if g == [] then None else if KeyOf(g[0]) == k then Some(g[0]) else Lookup(g[1..], k)
  }

  predicate Counts(i: Item, k: Key) { !IsSandbox(i.provider) && KeyOf(i) == k }

  function RowOf(i: Item, k: Key): seq<Item> {
    var n := Normalize(i);
    if Counts(n, k) then [n] else []
  }

  /** The normalised inputs of account k, in order. */
  function RowsOf(items: seq<Item>, k: Key): seq<Item> {
    if items == [] then [] else RowOf(items[0], k) + RowsOf(items[1..], k)
  }

  /** The best of an earlier row and rows; the earliest of equals. */
  function BestOf(best: Option<Item>, rows: seq<Item>): Option<Item> {
    if rows == [] then best
    else
      var front, last := BestOf(best, rows[..|rows| - 1]), rows[|rows| - 1];
      if front.None? || Better(last, front.value) then Some(last) else front
  }

  predicate OnePerKey(g: seq<Item>) {
    forall j, k :: 0 <= j < k < |g| ==> KeyOf(g[j]) != KeyOf(g[k])
  }

  lemma {:induction false} PutLookup(g: seq<Item>, i: Item, k: Key)
    ensures Lookup(Put(g, i), k) ==
            if KeyOf(i) != k then Lookup(g, k)
            else if Lookup(g, k).None? || Better(i, Lookup(g, k).value) then Some(i) else Lookup(g, k)
  {
    if g != [] && KeyOf(g[0]) != KeyOf(i) { PutLookup(g[1..], i, k); }
  }

  lemma {:induction false} PutKeys(g: seq<Item>, i: Item)
    requires OnePerKey(g)
    ensures OnePerKey(Put(g, i))
    ensures forall x <- Put(g, i) :: KeyOf(x) == KeyOf(i) || x in g
    ensures forall x <- Put(g, i) :: x == i || x in g
  {
    if g != [] && KeyOf(g[0]) != KeyOf(i) {
      PutKeys(g[1..], i);
    }
  }

  lemma {:induction false} BestJoin(best: Option<Item>, xs: seq<Item>, ys: seq<Item>)
    ensures BestOf(best, xs + ys) == BestOf(BestOf(best, xs), ys)
    decreases |ys|
  {
    if ys == [] {
      assert xs + ys == xs;
    } else {
      assert (xs + ys)[..|xs + ys| - 1] == xs + ys[..|ys| - 1];
      BestJoin(best, xs, ys[..|ys| - 1]);
    }
  }

  lemma {:induction false} BestOfOne(best: Option<Item>, i: Item)
    ensures BestOf(best, [i]) == if best.None? || Better(i, best.value) then Some(i) else best
  {
    assert [i][..0] == [];
  }

  lemma {:induction false} TakeLookup(g: seq<Item>, i: Item, k: Key)
    ensures Lookup(Take(g, i), k) == BestOf(Lookup(g, k), RowOf(i, k))
  {
    PutLookup(g, Normalize(i), k);
    BestOfOne(Lookup(g, k), Normalize(i));
  }

  lemma {:induction false} GroupLookup(g: seq<Item>, items: seq<Item>, k: Key)
    ensures Lookup(Group(g, items), k) == BestOf(Lookup(g, k), RowsOf(items, k))
    decreases |items|
  {
    if items != [] {
      TakeLookup(g, items[0], k);
      GroupLookup(Take(g, items[0]), items[1..], k);
      BestJoin(Lookup(g, k), RowOf(items[0], k), RowsOf(items[1..], k));
    }
  }

  /** What a grouped row looks like: normalised already, and no sandbox. */
  predicate Clean(g: seq<Item>) {
    forall i <- g :: Normalize(i) == i && !IsSandbox(i.provider)
  }

  lemma {:induction false} GroupKeeps(g: seq<Item>, items: seq<Item>)
    requires OnePerKey(g) && Clean(g)
    ensures OnePerKey(Group(g, items)) && Clean(Group(g, items))
    decreases |items|
  {
    if items != [] {
      var n := Normalize(items[0]);
      NormalizeTwice(items[0]);
      if !IsSandbox(n.provider) { PutKeys(g, n); }
      GroupKeeps(Take(g, items[0]), items[1..]);
    }
  }

  // ---- the order ----------------------------------------------------------

  /** Different account keys sort differently: an account without a group is one with the default group. */
  lemma {:induction false} SortKeysDiffer(g: seq<Item>)
    requires OnePerKey(g)
    ensures DistinctKeys(g, SortKey)
  {
    forall j, k | 0 <= j < k < |g| ensures SortKey(g[j]) != SortKey(g[k]) {
      assert KeyOf(g[j]) != KeyOf(g[k]);
    }
  }

  lemma {:induction false} LookupIn(g: seq<Item>, x: Item)
    requires OnePerKey(g)
    ensures x in g <==> Lookup(g, KeyOf(x)) == Some(x)
  {
    if g != [] {
      LookupIn(g[1..], x);
      assert g == [g[0]] + g[1..];
    }
  }

  lemma {:induction false} LookupKey(g: seq<Item>, k: Key)
    ensures Lookup(g, k).Some? ==> KeyOf(Lookup(g, k).value) == k && Lookup(g, k).value in g
  {
    if g != [] { LookupKey(g[1..], k); }
  }

  // ---- the theorems -------------------------------------------------------

  lemma {:induction false} SortedOnePerKey(g: seq<Item>)
    requires OnePerKey(g) && multiset(Sorted(g, SortKey)) == multiset(g) && Increasing(Sorted(g, SortKey), SortKey)
    ensures OnePerKey(Sorted(g, SortKey))
  {
    var s := Sorted(g, SortKey);
    forall j, k | 0 <= j < k < |s| ensures KeyOf(s[j]) != KeyOf(s[k]) {
      KeyLessTotal(SortKey(s[j]), SortKey(s[k]));
      assert s[j] in multiset(g) && s[k] in multiset(g);
      LookupIn(g, s[j]);
      LookupIn(g, s[k]);
    }
  }

  /** Coalescing gives one row per account, in strictly increasing order and without sandboxes. */
  lemma {:induction false} CoalesceKeeps(items: seq<Item>)
    ensures var rows := Coalesce(items); OnePerKey(rows) && Increasing(rows, SortKey) && Clean(rows)
  {
    var g := Group([], items);
    GroupKeeps([], items);
    SortKeysDiffer(g);
    SortedIncreasing(g, SortKey);
    SortedOnePerKey(g);
    forall i | i in Sorted(g, SortKey) ensures i in g {
      assert i in multiset(g);
    }
  }

  lemma {:induction false} LookupSorted(items: seq<Item>, k: Key)
    ensures Lookup(Coalesce(items), k) == BestOf(None, RowsOf(items, k))
  {
    var g, s := Group([], items), Coalesce(items);
    GroupKeeps([], items);
    GroupLookup([], items, k);
    SortKeysDiffer(g);
    SortedIncreasing(g, SortKey);
    SortedOnePerKey(g);
    LookupKey(g, k);
    LookupKey(s, k);
    if Lookup(g, k).Some? {
      var x := Lookup(g, k).value;
      assert x in multiset(s);
      LookupIn(s, x);
    } else if Lookup(s, k).Some? {
      var x := Lookup(s, k).value;
      assert x in multiset(g);
      LookupIn(g, x);
    }
  }

  lemma {:induction false} SameLookupsSame(s: seq<Item>, t: seq<Item>)
    requires OnePerKey(s) && Increasing(s, SortKey) && OnePerKey(t) && Increasing(t, SortKey)
    requires forall k :: Lookup(s, k) == Lookup(t, k)
    ensures s == t
  {
    forall x ensures x in s <==> x in t {
      LookupIn(s, x);
      LookupIn(t, x);
    }
    SameElementsSame(s, t, SortKey);
  }

  /** Rows that are already coalesced are their own best rows. */
  lemma {:induction false} RowsOfRows(rows: seq<Item>, k: Key)
    requires OnePerKey(rows) && Clean(rows)
    ensures RowsOf(rows, k) == if Lookup(rows, k).Some? then [Lookup(rows, k).value] else []
  {
    if rows != [] {
      assert rows[0] in rows;
      RowsOfRows(rows[1..], k);
      LookupKey(rows[1..], k);
    }
  }

  lemma {:induction false} RowsJoin(xs: seq<Item>, ys: seq<Item>, k: Key)
    ensures RowsOf(xs + ys, k) == RowsOf(xs, k) + RowsOf(ys, k)
  {
    if xs == [] {
      assert xs + ys == ys;
    } else {
      assert (xs + ys)[1..] == xs[1..] + ys;
      RowsJoin(xs[1..], ys, k);
      Associates(RowOf(xs[0], k), RowsOf(xs[1..], k), RowsOf(ys, k));
    }
  }

  /** The n-th row is the best: none is better, and every earlier one is worse. */
  predicate IsBest(rows: seq<Item>, n: int) {
    && 0 <= n < |rows|
    && (forall j :: 0 <= j < |rows| ==> !Better(rows[j], rows[n]))
    && (forall j :: 0 <= j < n ==> Better(rows[n], rows[j]))
  }

  lemma {:induction false} BestWith(front: seq<Item>, n: int, last: Item)
    requires IsBest(front, n)
    ensures IsBest(front + [last], if Better(last, front[n]) then |front| else n)
  {
  }

  lemma {:induction false} BestIsBest(rows: seq<Item>)
    ensures rows == [] <==> BestOf(None, rows).None?
    ensures rows != [] ==> exists n :: IsBest(rows, n) && BestOf(None, rows) == Some(rows[n])
  {
    if rows != [] {
      var front, last := rows[..|rows| - 1], rows[|rows| - 1];
      BestIsBest(front);
      if front != [] {
        var n :| IsBest(front, n) && BestOf(None, front) == Some(front[n]);
        BestWith(front, n, last);
        assert rows == front + [last];
      } else {
        assert IsBest(rows, 0);
      }
    }
  }

  /** The row of an account is its best input, and of equally good ones the earliest; an account without a
      counting input has none. */
  lemma {:induction false} RowIsBestInput(items: seq<Item>, k: Key)
    ensures var row, rows := Lookup(Coalesce(items), k), RowsOf(items, k);
            if rows == [] then row == None else exists n :: IsBest(rows, n) && row == Some(rows[n])
  {
    LookupSorted(items, k);
    BestIsBest(RowsOf(items, k));
  }

  /** Balances can be coalesced in instalments: rows already coalesced and new ones give what all of the inputs
      would have given. */
  lemma {:induction false} CoalesceInInstalments(xs: seq<Item>, ys: seq<Item>)
    ensures Coalesce(Coalesce(xs) + ys) == Coalesce(xs + ys)
  {
    var rows := Coalesce(xs);
    CoalesceKeeps(xs);
    CoalesceKeeps(rows + ys);
    CoalesceKeeps(xs + ys);
    forall k ensures Lookup(Coalesce(rows + ys), k) == Lookup(Coalesce(xs + ys), k) {
      LookupSorted(rows + ys, k);
      LookupSorted(xs + ys, k);
      LookupSorted(xs, k);
      RowsJoin(rows, ys, k);
      RowsJoin(xs, ys, k);
      RowsOfRows(rows, k);
      BestJoin(None, RowsOf(rows, k), RowsOf(ys, k));
      BestJoin(None, RowsOf(xs, k), RowsOf(ys, k));
      if Lookup(rows, k).Some? { BestOfOne(None, Lookup(rows, k).value); }
    }
    SameLookupsSame(Coalesce(rows + ys), Coalesce(xs + ys));
  }

  /** In particular, coalescing twice is coalescing once. */
  lemma {:induction false} CoalesceTwice(xs: seq<Item>)
    ensures Coalesce(Coalesce(xs)) == Coalesce(xs)
  {
    CoalesceInInstalments(xs, []);
    assert Coalesce(xs) + [] == Coalesce(xs) && xs + [] == xs;
  }

  lemma {:induction false} RowsAround(xs: seq<Item>, mid: seq<Item>, ys: seq<Item>, k: Key)
    ensures RowsOf(xs + mid + ys, k) == RowsOf(xs, k) + RowsOf(mid, k) + RowsOf(ys, k)
  {
    RowsJoin(xs + mid, ys, k);
    RowsJoin(xs, mid, k);
  }

  lemma {:induction false} RowsOfOne(i: Item, k: Key)
    ensures RowsOf([i], k) == RowOf(i, k)
  {
    var rest := [i][1..];
    assert rest == [];
    assert RowOf(i, k) + RowsOf(rest, k) == RowOf(i, k);
  }

  lemma {:induction false} RowsOfTwo(a: Item, b: Item, k: Key)
    ensures RowsOf([a, b], k) == RowOf(a, k) + RowOf(b, k)
  {
    RowsOfOne(a, k);
    RowsOfOne(b, k);
    assert [a] + [b] == [a, b];
    RowsJoin([a], [b], k);
  }

  /** Between rows of different accounts the order of the inputs does not matter at all. */
  lemma {:induction false} InputOrderOfAccounts(xs: seq<Item>, a: Item, b: Item, ys: seq<Item>)
    requires KeyOf(Normalize(a)) != KeyOf(Normalize(b))
    ensures Coalesce(xs + [a, b] + ys) == Coalesce(xs + [b, a] + ys)
  {
    var s, t := xs + [a, b] + ys, xs + [b, a] + ys;
    CoalesceKeeps(s);
    CoalesceKeeps(t);
    forall k ensures Lookup(Coalesce(s), k) == Lookup(Coalesce(t), k) {
      LookupSorted(s, k);
      LookupSorted(t, k);
      RowsAround(xs, [a, b], ys, k);
      RowsAround(xs, [b, a], ys, k);
      RowsOfTwo(a, b, k);
      RowsOfTwo(b, a, k);
      assert RowOf(a, k) == [] || RowOf(b, k) == [];
      assert RowOf(a, k) + RowOf(b, k) == RowOf(b, k) + RowOf(a, k);
    }
    SameLookupsSame(Coalesce(s), Coalesce(t));
  }
}
