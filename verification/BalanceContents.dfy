/** Which row an account is shown by, in the fields of the balances reported. */
module BalanceContents {
  import opened Results
  import opened Text
  import opened Sorting
  import opened Balance
  import opened BalanceLaws
  import opened Sequences

  // ---- how a balance is shown ---------------------------------------------

  const ALIYUN_NAMES := ["aliyun", "dashscope", "qwen", "bailian"]
  const VOLCENGINE_NAMES := ["volcengine", "volc", "ark"]

  /** The provider has that name, or one that goes on after it and a dot. Case does not matter. */
  predicate GoesBy(provider: string, name: string) { Lower(provider) == name || name + "." <= Lower(provider) }

  predicate Named(provider: string, names: seq<string>) { exists n <- names :: GoesBy(provider, n) }

  /** A shared cloud account has one name, whoever reports it. Otherwise only the account of a provider that has nothing
      to say is left out. */
  predicate ShownAs(i: Item, r: Item) {
    && r.status == i.status && r.balance == i.balance && r.quota == i.quota && r.checkedAt == i.checkedAt
    && if Named(i.provider, ALIYUN_NAMES) then r.provider == "aliyun.billing" && r.group == Some("aliyun.shared")
       else if Named(i.provider, VOLCENGINE_NAMES) then r.provider == "volcengine.billing" && r.group == Some("volcengine.shared")
       else
         && r.provider == i.provider
         && r.group == if (i.status == Unsupported || i.status == Unconfigured) && i.balance == None && i.quota == None then None else i.group
  }

  lemma {:induction false} NamedFirst(p: string, names: seq<string>)
    ensures Named(p, names) <==> names != [] && (Matches(p, names[0]) || Named(p, names[1..]))
  {
    if names != [] {
      var first, rest := names[0], names[1..];
      assert names == [first] + rest;
      assert GoesBy(p, first) <==> Matches(p, first);
      assert forall n :: n in names <==> n == first || n in rest;
    }
  }

  lemma {:induction false} NamedExactly(p: string)
    ensures IsAliyun(p) <==> Named(p, ALIYUN_NAMES)
    ensures IsVolcengine(p) <==> Named(p, VOLCENGINE_NAMES)
  {
    var a, v := ALIYUN_NAMES, VOLCENGINE_NAMES;
    NamedFirst(p, a);
    NamedFirst(p, a[1..]);
    NamedFirst(p, a[2..]);
    NamedFirst(p, a[3..]);
    NamedFirst(p, v);
    NamedFirst(p, v[1..]);
    NamedFirst(p, v[2..]);
    assert a[1..][1..] == a[2..] && a[2..][1..] == a[3..] && a[3..][1..] == [] && v[1..][1..] == v[2..] && v[2..][1..] == [];
  }

  lemma {:induction false} ShownExactly(i: Item, r: Item)
    ensures ShownAs(i, r) <==> r == Normalize(i)
  {
    NamedExactly(i.provider);
    AliyunIsCanonical();
    VolcengineIsCanonical();
  }

  // ---- which balance is shown ---------------------------------------------

  /** What is available goes before what is pending, and so on down to what is not supported. */
  predicate Ahead(a: Status, b: Status) {
    match a
    case Available => b != Available
    case Pending => b != Available && b != Pending
    case Unconfigured => b == Unauthorized || b == Balance.Failed || b == Unsupported
    case Unauthorized => b == Balance.Failed || b == Unsupported
    case Failed => b == Unsupported
    case Unsupported => false
  }

  /** A better status wins; of the same status, one that says how much is left; of those, the later checked. */
  predicate Beats(a: Item, b: Item) {
    var says, other := a.balance.Some? || a.quota.Some?, b.balance.Some? || b.quota.Some?;
    Ahead(a.status, b.status) || (a.status == b.status && ((says && !other) || (says == other && a.checkedAt > b.checkedAt)))
  }

  lemma {:induction false} BeatsExactly(a: Item, b: Item)
    ensures Beats(a, b) <==> Better(a, b)
  {
  }

  predicate Sandbox(provider: string) {
    Lower(provider) == "sandbox" || "sandbox." <= Lower(provider) || "sandbox-" <= Lower(provider)
  }

  /** The account a row is for: one without a group has the default one. */
  predicate IsFor(r: Item, provider: string, account: string) {
    r.provider == provider && account == if r.group.Some? && r.group.value != "" then r.group.value else "default"
  }

  /** The j-th input is shown as s, for the account. */
  predicate Contender(items: seq<Item>, j: int, s: Item, provider: string, account: string) {
    0 <= j < |items| && ShownAs(items[j], s) && IsFor(s, provider, account)
  }

  /** The n-th input is the best of its account: no other beats it, and it beats those before it. */
  ghost predicate Chosen(items: seq<Item>, n: int, r: Item, provider: string, account: string) {
    && Contender(items, n, r, provider, account) && !Sandbox(provider)
    && forall j, s :: Contender(items, j, s, provider, account) ==> !Beats(s, r) && (j < n ==> Beats(r, s))
  }

  lemma {:induction false} CountsExactly(i: Item, r: Item, k: Key)
    requires ShownAs(i, r)
    ensures RowOf(i, k) == if !Sandbox(k.0) && IsFor(r, k.0, k.1) then [r] else []
  {
    ShownExactly(i, r);
  }

  ghost predicate Reported(items: seq<Item>, k: Key) {
    !Sandbox(k.0) && exists j, s :: Contender(items, j, s, k.0, k.1)
  }

  /** If s beats r and t does not beat r, s beats t. */
  lemma {:induction false} BeatsOthers(s: Item, r: Item, t: Item)
    requires Beats(s, r) && !Beats(t, r)
    ensures Beats(s, t) && !Beats(t, s)
  {
    BeatsExactly(s, r);
    BeatsExactly(t, r);
    BeatsExactly(s, t);
    BeatsExactly(t, s);
  }

  lemma {:induction false} ShownIsOne(i: Item, r: Item, s: Item)
    requires ShownAs(i, r) && ShownAs(i, s)
    ensures r == s
  {
  }

  lemma {:induction false} ChosenStays(front: seq<Item>, last: Item, n: int, r: Item, s: Item, k: Key)
    requires Chosen(front, n, r, k.0, k.1) && ShownAs(last, s) && (IsFor(s, k.0, k.1) ==> !Beats(s, r))
    ensures Chosen(front + [last], n, r, k.0, k.1)
  {
    var all := front + [last];
    assert all[n] == front[n];
    forall j, t | Contender(all, j, t, k.0, k.1) ensures !Beats(t, r) && (j < n ==> Beats(r, t)) {
      if j < |front| { assert Contender(front, j, t, k.0, k.1); } else { ShownIsOne(last, s, t); }
    }
  }

  lemma {:induction false} ChosenMoves(front: seq<Item>, last: Item, n: int, r: Item, s: Item, k: Key)
    requires Chosen(front, n, r, k.0, k.1) && ShownAs(last, s) && IsFor(s, k.0, k.1) && Beats(s, r)
    ensures Chosen(front + [last], |front|, s, k.0, k.1)
  {
    var all := front + [last];
    forall j, t | Contender(all, j, t, k.0, k.1) ensures !Beats(t, s) && (j < |front| ==> Beats(s, t)) {
      if j < |front| {
        assert Contender(front, j, t, k.0, k.1);
        BeatsOthers(s, r, t);
      } else {
        ShownIsOne(last, s, t);
      }
    }
  }

  lemma {:induction false} ChosenFirst(front: seq<Item>, last: Item, s: Item, k: Key)
    requires !Reported(front, k) && ShownAs(last, s) && !Sandbox(k.0) && IsFor(s, k.0, k.1)
    ensures Chosen(front + [last], |front|, s, k.0, k.1)
  {
    var all := front + [last];
    forall j, t | Contender(all, j, t, k.0, k.1) ensures j == |front| && !Beats(t, s) {
      assert j < |front| ==> Contender(front, j, t, k.0, k.1);
      ShownIsOne(last, s, t);
    }
  }

  lemma {:induction false} ReportedNext(front: seq<Item>, last: Item, s: Item, k: Key)
    requires ShownAs(last, s)
    ensures Reported(front + [last], k) <==> Reported(front, k) || (!Sandbox(k.0) && IsFor(s, k.0, k.1))
  {
    var all := front + [last];
    assert IsFor(s, k.0, k.1) ==> Contender(all, |front|, s, k.0, k.1);
    forall j, t ensures Contender(all, j, t, k.0, k.1) <==> Contender(front, j, t, k.0, k.1) || (j == |front| && t == s && IsFor(s, k.0, k.1)) {
      if Contender(all, j, t, k.0, k.1) && j == |front| { ShownIsOne(last, s, t); }
    }
  }

  lemma {:induction false} BestNext(front: seq<Item>, last: Item, s: Item, k: Key)
    requires ShownAs(last, s)
    ensures var was := BestOf(None, RowsOf(front, k));
            BestOf(None, RowsOf(front + [last], k)) ==
            if !Sandbox(k.0) && IsFor(s, k.0, k.1) && (was.None? || Beats(s, was.value)) then Some(s) else was
  {
    RowsJoin(front, [last], k);
    RowsOfOne(last, k);
    CountsExactly(last, s, k);
    BestJoin(None, RowsOf(front, k), RowOf(last, k));
    BestOfOne(BestOf(None, RowsOf(front, k)), s);
    if BestOf(None, RowsOf(front, k)).Some? { BeatsExactly(s, BestOf(None, RowsOf(front, k)).value); }
  }

  lemma {:induction false} BestIsChosen(items: seq<Item>, k: Key)
    ensures var best := BestOf(None, RowsOf(items, k));
            if Reported(items, k) then best.Some? && exists n :: Chosen(items, n, best.value, k.0, k.1) else best.None?
  {
    if items != [] {
      var front, last := items[..|items| - 1], items[|items| - 1];
      var s := Normalize(last);
      assert items == front + [last];
      BestIsChosen(front, k);
      ShownExactly(last, s);
      ReportedNext(front, last, s, k);
      BestNext(front, last, s, k);
      var was := BestOf(None, RowsOf(front, k));
      if Reported(front, k) {
        var n :| Chosen(front, n, was.value, k.0, k.1);
        if IsFor(s, k.0, k.1) && Beats(s, was.value) {
          ChosenMoves(front, last, n, was.value, s, k);
        } else {
          ChosenStays(front, last, n, was.value, s, k);
        }
      } else if Reported(items, k) {
        ChosenFirst(front, last, s, k);
      }
    }
  }

  lemma {:induction false} ChosenIsOne(items: seq<Item>, m: int, n: int, r: Item, s: Item, k: Key)
    requires Chosen(items, m, r, k.0, k.1) && Chosen(items, n, s, k.0, k.1)
    ensures r == s
  {
    if m == n { ShownIsOne(items[m], r, s); }
  }

  /** A row is shown for an account exactly when it is the chosen input of that account, as shown. Sandboxes are not
      shown. */
  lemma {:induction false} RowsExactly(items: seq<Item>, r: Item, provider: string, account: string)
    ensures r in Coalesce(items) && IsFor(r, provider, account) <==> exists n :: Chosen(items, n, r, provider, account)
  {
    var k := (provider, account);
    CoalesceKeeps(items);
    LookupIn(Coalesce(items), r);
    LookupKey(Coalesce(items), k);
    LookupSorted(items, k);
    BestIsChosen(items, k);
    if n :| Chosen(items, n, r, provider, account) {
      var m :| Chosen(items, m, BestOf(None, RowsOf(items, k)).value, k.0, k.1);
      ChosenIsOne(items, m, n, BestOf(None, RowsOf(items, k)).value, r, k);
    }
  }

  /** The rows go by provider, and then by group, where none counts as empty. No account has two. */
  lemma {:induction false} RowsInOrder(items: seq<Item>)
    ensures var rows := Coalesce(items);
            forall m, n :: 0 <= m < n < |rows| ==>
              && (Less(rows[m].provider, rows[n].provider)
                  || (rows[m].provider == rows[n].provider
                      && Less(if rows[m].group.Some? then rows[m].group.value else "", if rows[n].group.Some? then rows[n].group.value else "")))
              && !exists provider, account :: IsFor(rows[m], provider, account) && IsFor(rows[n], provider, account)
  {
    var rows := Coalesce(items);
    CoalesceKeeps(items);
    forall m, n | 0 <= m < n < |rows| ensures KeyLess(SortKey(rows[m]), SortKey(rows[n])) && KeyOf(rows[m]) != KeyOf(rows[n]) {
    }
  }
}
