/** What billing rows cost and what the lines of a report say, in the fields of the records. */
module BillingContents {
  import opened Results
  import opened Sorting
  import opened Billing
  import opened BillingLaws

  // ---- what a row costs ---------------------------------------------------

  /** cost is what a row records: the actual cost of the invocation; or its price for one call; or its price for as many
      tokens or seconds as were used; or what the provider reported, when there is no price; or nothing. */
  predicate Costs(i: Invocation, u: Option<Usage>, cost: real) {
    if i.actual.Some? then cost == i.actual.value
    else if i.price.None? then cost == if u.Some? && u.value.raw.Some? then u.value.raw.value else 0.0
    else if i.price.value.unit == Call then cost == i.price.value.amount
    else if u.None? then cost == 0.0
    else if i.price.value.unit == InputToken then cost == i.price.value.amount * u.value.inputs as real
    else if i.price.value.unit == OutputToken then cost == i.price.value.amount * u.value.outputs as real
    else if i.price.value.unit == MediaSecond then cost == i.price.value.amount * (u.value.audio + u.value.video)
    else cost == 0.0
  }

  lemma {:induction false} RecordedExactly(r: Row)
    ensures Costs(r.invocation, r.usage, Recorded(r))
  {
    if r.invocation.price.Some? && r.usage.Some? { assert r.invocation.price.value.amount * 0.0 == 0.0; }
  }

  // ---- the joined rows ----------------------------------------------------

  lemma {:induction false} UsagesHas(us: seq<Usage>, id: string, u: Usage)
    ensures multiset(UsagesOf(us, id))[u] == if u.invocation == id then multiset(us)[u] else 0
  {
    if us != [] {
      UsagesHas(us[1..], id, u);
      assert us == [us[0]] + us[1..];
    }
  }

  function Rows(i: Invocation, us: seq<Usage>): seq<Row> { seq(|us|, (n: nat) requires n < |us| => Row(i, Some(us[n]))) }

  lemma {:induction false} RowsCount(i: Invocation, us: seq<Usage>, r: Row)
    ensures multiset(Rows(i, us))[r] == if r.invocation == i && r.usage.Some? then multiset(us)[r.usage.value] else 0
  {
    if us == [] {
      assert Rows(i, us) == [];
    } else {
      RowsCount(i, us[1..], r);
      assert us == [us[0]] + us[1..];
      assert Rows(i, us) == [Row(i, Some(us[0]))] + Rows(i, us[1..]);
    }
  }

  lemma {:induction false} RowsHas(i: Invocation, us: seq<Usage>, r: Row)
    ensures multiset(RowsOf(i, us))[r] ==
            if r.invocation != i then 0
            else if r.usage.None? then (if us == [] then 1 else 0)
            else multiset(us)[r.usage.value]
  {
    if us == [] {
      assert RowsOf(i, us) == [Row(i, None)];
    } else {
      RowsCount(i, us, r);
    }
  }

  lemma {:induction false} NoneOf(us: seq<Usage>, id: string)
    ensures UsagesOf(us, id) == [] <==> !exists u <- us :: u.invocation == id
  {
    if us != [] {
      NoneOf(us[1..], id);
      assert us == [us[0]] + us[1..];
    }
  }

  /** How often an invocation is joined with what row r carries. */
  function Times(us: seq<Usage>, r: Row): nat {
    if r.usage.Some? then (if r.usage.value.invocation == r.invocation.id then multiset(us)[r.usage.value] else 0)
    else if exists u <- us :: u.invocation == r.invocation.id then 0 else 1
  }

  lemma {:induction false} FirstRows(i: Invocation, us: seq<Usage>, r: Row)
    ensures multiset(RowsOf(i, UsagesOf(us, i.id)))[r] == if i == r.invocation then Times(us, r) else 0
  {
    RowsHas(i, UsagesOf(us, i.id), r);
    NoneOf(us, i.id);
    if r.usage.Some? { UsagesHas(us, i.id, r.usage.value); }
  }

  lemma {:induction false} CountBoth<T>(a: seq<T>, b: seq<T>, x: T)
    ensures multiset(a + b)[x] == multiset(a)[x] + multiset(b)[x]
  {
  }

  lemma {:induction false} CountFirst<T>(a: seq<T>, x: T)
    requires a != []
    ensures multiset(a)[x] == (if a[0] == x then 1 else 0) + multiset(a[1..])[x]
  {
    assert a == [a[0]] + a[1..];
  }

  lemma {:induction false} Distribute(first: nat, rest: nat, times: nat)
    ensures (first + rest) * times == first * times + rest * times
  {
  }

  /** An invocation is joined with every usage record of its own, as often as it is there, and with none exactly when it
      has none. */
  lemma {:induction false} JoinExactly(invs: seq<Invocation>, us: seq<Usage>, r: Row)
    ensures multiset(Join(invs, us))[r] == multiset(invs)[r.invocation] * Times(us, r)
  {
    if invs == [] {
      assert multiset(invs)[r.invocation] == 0;
    } else {
      JoinExactly(invs[1..], us, r);
      FirstRows(invs[0], us, r);
      CountBoth(RowsOf(invs[0], UsagesOf(us, invs[0].id)), Join(invs[1..], us), r);
      CountFirst(invs, r.invocation);
      Distribute(if invs[0] == r.invocation then 1 else 0, multiset(invs[1..])[r.invocation], Times(us, r));
    }
  }

  // ---- the lines ----------------------------------------------------------

  /** What the rows of one provider and capability estimate, and record. */
  function Estimates(rs: seq<Row>, provider: string, capability: string): real {
    if rs == [] then 0.0
    else (if rs[0].invocation.provider == provider && rs[0].invocation.capability == capability then rs[0].invocation.estimated else 0.0)
         + Estimates(rs[1..], provider, capability)
  }

  function Costed(rs: seq<Row>, provider: string, capability: string): real {
    if rs == [] then 0.0
    else (if rs[0].invocation.provider == provider && rs[0].invocation.capability == capability then Recorded(rs[0]) else 0.0)
         + Costed(rs[1..], provider, capability)
  }

  lemma {:induction false} EstimatesLast(rs: seq<Row>, r: Row, k: Key)
    ensures Estimates(rs + [r], k.0, k.1) == Estimates(rs, k.0, k.1) + if RowKey(r) == k then r.invocation.estimated else 0.0
    ensures Costed(rs + [r], k.0, k.1) == Costed(rs, k.0, k.1) + if RowKey(r) == k then Recorded(r) else 0.0
  {
    if rs == [] {
      assert [] + [r] == [r] && [r][1..] == [];
    } else {
      assert (rs + [r])[0] == rs[0] && (rs + [r])[1..] == rs[1..] + [r];
      EstimatesLast(rs[1..], r, k);
    }
  }

  lemma {:induction false} SumsAreEstimates(rs: seq<Row>, k: Key)
    ensures EstimatedOf(rs, k) == Estimates(rs, k.0, k.1) && RecordedOf(rs, k) == Costed(rs, k.0, k.1)
  {
    if rs != [] {
      var front, last := rs[..|rs| - 1], rs[|rs| - 1];
      SumsAreEstimates(front, k);
      assert rs == front + [last];
      EstimatesLast(front, last, k);
    }
  }

  /** The lines of a report go by provider and then by capability, each once, and each differs by what it is over. */
  lemma {:induction false} LinesInOrder(invs: seq<Invocation>, us: seq<Usage>, snaps: seq<Snapshot>)
    ensures var ls := Reconcile(invs, us, snaps).lines;
            && (forall m, n :: 0 <= m < n < |ls| ==>
                  Less(ls[m].provider, ls[n].provider) || (ls[m].provider == ls[n].provider && Less(ls[m].capability, ls[n].capability)))
            && (forall n :: 0 <= n < |ls| ==> ls[n].variance == ls[n].recorded - ls[n].estimated)
  {
    var rows, gs := Join(invs, us), Groups(invs, us, snaps);
    GroupsDistinct(rows);
    CostsAreDrops(Collect(snaps), "");
    FallbackDistinct(GroupRows(rows), BalanceCosts(snaps));
    SortedIncreasing(gs, KeyOf);
    LineTotals(Sorted(gs, KeyOf));
  }

  lemma {:induction false} GroupIsOf(gs: seq<Group>, g: Group)
    requires g in gs
    ensures g in GroupsOf(gs, g.provider)
  {
    if gs[0] != g { GroupIsOf(gs[1..], g); }
  }

  lemma {:induction false} OwnGroup(own: seq<Group>, g: Group, k: Key)
    requires DistinctKeys(own, KeyOf)
    ensures forall h <- GroupsOf(own, g.provider) :: h in own && (KeyOf(h) == k ==> Find(own, k) == Some(h))
  {
    GroupsOfHas(own, g.provider);
    FindIs(own, k);
    forall h | h in own && KeyOf(h) == k ensures Find(own, k) == Some(h) {
      var m :| 0 <= m < |own| && own[m] == h;
      var n :| 0 <= n < |own| && own[n] == Find(own, k).value;
    }
  }

  /** A provider with a single group has rows of a single capability. */
  lemma {:induction false} OneKey(rs: seq<Row>, p: string)
    ensures |GroupsOf(GroupRows(rs), p)| == 1 ==>
              forall r <- rs :: r.invocation.provider == p ==> r.invocation.capability == GroupsOf(GroupRows(rs), p)[0].capability
  {
    forall r | r in rs && r.invocation.provider == p
      ensures exists g <- GroupsOf(GroupRows(rs), p) :: g.capability == r.invocation.capability
    {
      assert HasKey(rs, RowKey(r));
      GroupsAreSums(rs, RowKey(r));
      FindIs(GroupRows(rs), RowKey(r));
      GroupIsOf(GroupRows(rs), Find(GroupRows(rs), RowKey(r)).value);
    }
  }

  /** A provider's group is its own, or its only own one with the loss on it. */
  lemma {:induction false} OwnOrLost(own: seq<Group>, cs: seq<Cost>, g: Group)
    requires CostsOk(cs) && g in Fallback(own, cs) && GroupsOf(own, g.provider) != []
    ensures var mine := GroupsOf(own, g.provider);
            || g in mine
            || (|mine| == 1 && mine[0].recorded == 0.0 && CostFor(cs, g.provider) == Some(g.recorded)
                && g == mine[0].(recorded := g.recorded))
  {
    FallbackExactly(own, cs, g.provider);
    GroupIsOf(Fallback(own, cs), g);
    GroupsOfHas(own, g.provider);
    assert g in After(own, g.provider, CostFor(cs, g.provider));
  }

  /** An invoked group estimates what its rows estimate; it records what they record, or else its provider's loss. */
  lemma {:induction false} GroupExactly(rows: seq<Row>, cs: seq<Cost>, g: Group)
    requires CostsOk(cs) && g in Fallback(GroupRows(rows), cs) && HasKey(rows, KeyOf(g))
    ensures var own := GroupRows(rows);
            && Find(own, KeyOf(g)).Some?
            && (Find(own, KeyOf(g)) == Some(g)
                || (|GroupsOf(own, g.provider)| == 1 && GroupsOf(own, g.provider)[0] == Find(own, KeyOf(g)).value
                    && CostFor(cs, g.provider) == Some(g.recorded)
                    && Find(own, KeyOf(g)).value.recorded == 0.0 && g == Find(own, KeyOf(g)).value.(recorded := g.recorded)))
  {
    var own := GroupRows(rows);
    GroupsAreSums(rows, KeyOf(g));
    FindIs(own, KeyOf(g));
    GroupIsOf(own, Find(own, KeyOf(g)).value);
    OwnOrLost(own, cs, g);
    OwnGroup(own, g, KeyOf(g));
  }

  /** A line of a provider that was invoked estimates what the rows of its key estimate. It records what they record,
      unless its provider lost balance and has this one key, with nothing recorded: then it records the loss. */
  lemma {:induction false} LineExactly(invs: seq<Invocation>, us: seq<Usage>, snaps: seq<Snapshot>, l: Line)
    requires l in Reconcile(invs, us, snaps).lines && Invoked(invs, us, l)
    ensures var rows := Join(invs, us);
            && l.estimated == Estimates(rows, l.provider, l.capability)
            && (l.recorded == Costed(rows, l.provider, l.capability)
                || (Costed(rows, l.provider, l.capability) == 0.0 && CostFor(BalanceCosts(snaps), l.provider) == Some(l.recorded)
                    && forall r <- rows :: r.invocation.provider == l.provider ==> r.invocation.capability == l.capability))
  {
    var rows, cs := Join(invs, us), BalanceCosts(snaps);
    var g := LineGroup(invs, us, snaps, l);
    CostsAreDrops(Collect(snaps), "");
    GroupExactly(rows, cs, g);
    FindIs(GroupRows(rows), KeyOf(g));
    GroupsAreSums(rows, KeyOf(g));
    SumsAreEstimates(rows, KeyOf(g));
    OneKey(rows, l.provider);
  }

  /** The n-th row is the first of the key. */
  predicate FirstOf(rs: seq<Row>, k: Key, n: nat) {
    n < |rs| && RowKey(rs[n]) == k && forall j :: 0 <= j < n ==> RowKey(rs[j]) != k
  }

  lemma {:induction false} FirstOfStays(rs: seq<Row>, r: Row, k: Key, n: nat)
    ensures FirstOf(rs, k, n) ==> FirstOf(rs + [r], k, n)
    ensures RowKey(r) == k && !HasKey(rs, k) ==> FirstOf(rs + [r], k, |rs|)
  {
    assert forall j :: 0 <= j < |rs| ==> rs[j] in rs;
  }

  lemma {:induction false} FirstCurrency(rs: seq<Row>, k: Key) returns (n: nat)
    requires HasKey(rs, k)
    ensures FirstOf(rs, k, n) && Find(GroupRows(rs), k).Some? && Find(GroupRows(rs), k).value.currency == rs[n].invocation.currency
  {
    var front, r := rs[..|rs| - 1], rs[|rs| - 1];
    assert rs == front + [r];
    AddRowFind(GroupRows(front), r, k);
    if HasKey(front, k) {
      n := FirstCurrency(front, k);
      assert rs[n] == front[n];
    } else {
      GroupsAreSums(front, k);
      n := |front|;
    }
    FirstOfStays(front, r, k, n);
  }

  /** A line of a provider that was invoked is in the currency of the estimate of the first row of its key, an empty one
      standing for yuan. */
  lemma {:induction false} LineCurrencyExactly(invs: seq<Invocation>, us: seq<Usage>, snaps: seq<Snapshot>, l: Line) returns (n: nat)
    requires l in Reconcile(invs, us, snaps).lines && Invoked(invs, us, l)
    ensures var rows := Join(invs, us);
            && FirstOf(rows, (l.provider, l.capability), n)
            && l.currency == if rows[n].invocation.currency == "" then "CNY" else rows[n].invocation.currency
  {
    var rows := Join(invs, us);
    var g := LineGroup(invs, us, snaps, l);
    CostsAreDrops(Collect(snaps), "");
    GroupExactly(rows, BalanceCosts(snaps), g);
    n := FirstCurrency(rows, KeyOf(g));
  }

  /** Any other line is of a provider without rows that lost balance: it estimates nothing and records the loss, in yuan. */
  lemma {:induction false} MadeUpExactly(invs: seq<Invocation>, us: seq<Usage>, snaps: seq<Snapshot>, l: Line)
    requires l in Reconcile(invs, us, snaps).lines && !Invoked(invs, us, l)
    ensures !HasRows(Join(invs, us), l.provider) && l.capability == "balance.snapshot" && l.currency == "CNY"
    ensures l.estimated == 0.0 && CostFor(BalanceCosts(snaps), l.provider) == Some(l.recorded)
  {
    var rows, cs := Join(invs, us), BalanceCosts(snaps);
    var own := GroupRows(rows);
    var g := LineGroup(invs, us, snaps, l);
    GroupCurrency(invs, us, snaps, g);
    OwnExactly(rows, l.provider);
    CostsAreDrops(Collect(snaps), "");
    FallbackExactly(own, cs, l.provider);
    GroupIsOf(Fallback(own, cs), g);
  }

  // ---- balance snapshots --------------------------------------------------

  /** The balances of one account of a provider in one currency, in order: a snapshot without an amount or a currency
      counts for none. */
  function Balances(snaps: seq<Snapshot>, provider: string, group: Option<string>, currency: string): seq<real> {
    if snaps == [] then []
    else (if snaps[0].provider == provider && snaps[0].group == group && snaps[0].currency == currency && currency != "" && snaps[0].amount.Some?
          then [snaps[0].amount.value] else []) + Balances(snaps[1..], provider, group, currency)
  }

  lemma {:induction false} BalancesLast(snaps: seq<Snapshot>, s: Snapshot, a: Account)
    ensures Balances(snaps + [s], a.0, a.1, a.2) == Balances(snaps, a.0, a.1, a.2) + if Usable(s) && AccountOf(s) == a then [s.amount.value] else []
  {
    if snaps == [] {
      assert [] + [s] == [s] && [s][1..] == [];
    } else {
      assert (snaps + [s])[0] == snaps[0] && (snaps + [s])[1..] == snaps[1..] + [s];
      BalancesLast(snaps[1..], s, a);
    }
  }

  lemma {:induction false} AmountsAreBalances(snaps: seq<Snapshot>, a: Account)
    ensures Amounts(snaps, a) == Balances(snaps, a.0, a.1, a.2)
  {
    if snaps != [] {
      var front, last := snaps[..|snaps| - 1], snaps[|snaps| - 1];
      AmountsAreBalances(front, a);
      BalancesLast(front, last, a);
      assert snaps == front + [last];
    }
  }

  /** What an account lost: its first balance less its last, when that is more than nothing. */
  predicate Loses(amounts: seq<real>, loss: real) {
    if |amounts| >= 2 && amounts[0] > amounts[|amounts| - 1] then loss == amounts[0] - amounts[|amounts| - 1] else loss == 0.0
  }

  /** Every account is followed on its own, by provider, group and currency, and loses what its balances say. */
  lemma {:induction false} LossesExactly(snaps: seq<Snapshot>, a: Account)
    ensures DistinctAccounts(Collect(snaps)) && SeriesOf(Collect(snaps), a) == Balances(snaps, a.0, a.1, a.2)
    ensures Loses(Balances(snaps, a.0, a.1, a.2), Drop(SeriesOf(Collect(snaps), a)))
  {
    CollectExactly(snaps, a);
    AmountsAreBalances(snaps, a);
  }
}
