/** What billing reconciliation conserves. */
module BillingLaws {
  import opened Results
  import opened Sequences
  import opened Sorting
  import opened Billing

  // ---- grouping conserves -------------------------------------------------

  function EstimatedOf(rs: seq<Row>, k: Key): real {
    if rs == [] then 0.0 else EstimatedOf(rs[..|rs| - 1], k) + if RowKey(rs[|rs| - 1]) == k then rs[|rs| - 1].invocation.estimated else 0.0
  }

  function RecordedOf(rs: seq<Row>, k: Key): real {
    if rs == [] then 0.0 else RecordedOf(rs[..|rs| - 1], k) + if RowKey(rs[|rs| - 1]) == k then Recorded(rs[|rs| - 1]) else 0.0
  }

  function Find(gs: seq<Group>, k: Key): Option<Group> {
    if gs == [] then None else if KeyOf(gs[0]) == k then Some(gs[0]) else Find(gs[1..], k)
  }

  lemma {:induction false} AddRowFind(gs: seq<Group>, r: Row, k: Key)
    ensures var was, now := Find(gs, k), Find(AddRow(gs, r), k);
            if k != RowKey(r) then now == was
            else
              && now.Some?
              && now.value.estimated == (if was.Some? then was.value.estimated else 0.0) + r.invocation.estimated
              && now.value.recorded == (if was.Some? then was.value.recorded else 0.0) + Recorded(r)
              && now.value.currency == (if was.Some? then was.value.currency else r.invocation.currency)
  {
    if gs != [] && KeyOf(gs[0]) != RowKey(r) { AddRowFind(gs[1..], r, k); }
  }

  lemma {:induction false} AddRowKeys(gs: seq<Group>, r: Row)
    requires DistinctKeys(gs, KeyOf)
    ensures DistinctKeys(AddRow(gs, r), KeyOf)
    ensures forall g <- AddRow(gs, r) :: KeyOf(g) == RowKey(r) || exists h <- gs :: KeyOf(h) == KeyOf(g)
  {
    if gs != [] && KeyOf(gs[0]) != RowKey(r) {
      AddRowKeys(gs[1..], r);
      forall g | g in AddRow(gs[1..], r) ensures KeyOf(g) != KeyOf(gs[0]) {
        if KeyOf(g) != RowKey(r) {
          var h :| h in gs[1..] && KeyOf(h) == KeyOf(g);
        }
      }
    }
  }

  predicate HasKey(rs: seq<Row>, k: Key) { exists r <- rs :: RowKey(r) == k }

  lemma {:induction false} GroupsDistinct(rs: seq<Row>)
    ensures DistinctKeys(GroupRows(rs), KeyOf)
  {
    if rs != [] {
      GroupsDistinct(rs[..|rs| - 1]);
      AddRowKeys(GroupRows(rs[..|rs| - 1]), rs[|rs| - 1]);
    }
  }

  lemma {:induction false} HasKeyNext(rs: seq<Row>, k: Key)
    requires rs != []
    ensures HasKey(rs, k) <==> HasKey(rs[..|rs| - 1], k) || RowKey(rs[|rs| - 1]) == k
  {
    var front, last := rs[..|rs| - 1], rs[|rs| - 1];
    assert rs == front + [last] && last in rs;
    forall r | r in front ensures r in rs { }
  }

  /** Before the fallback there is one group per key that has rows, and it holds exactly the sums of those rows. */
  lemma {:induction false} GroupsAreSums(rs: seq<Row>, k: Key)
    ensures DistinctKeys(GroupRows(rs), KeyOf)
    ensures var g := Find(GroupRows(rs), k);
            if HasKey(rs, k) then g.Some? && g.value.estimated == EstimatedOf(rs, k) && g.value.recorded == RecordedOf(rs, k)
            else g.None? && EstimatedOf(rs, k) == 0.0 && RecordedOf(rs, k) == 0.0
  {
    GroupsDistinct(rs);
    if rs != [] {
      GroupsAreSums(rs[..|rs| - 1], k);
      AddRowFind(GroupRows(rs[..|rs| - 1]), rs[|rs| - 1], k);
      HasKeyNext(rs, k);
    }
  }

  function SumRows(rs: seq<Row>, f: Row -> real): real {
    if rs == [] then 0.0 else SumRows(rs[..|rs| - 1], f) + f(rs[|rs| - 1])
  }

  function Estimated(r: Row): real { r.invocation.estimated }

  function EstimatedRows(rs: seq<Row>): real { SumRows(rs, Estimated) }
  function RecordedRows(rs: seq<Row>): real { SumRows(rs, Recorded) }

  lemma {:induction false} AddRowSums(gs: seq<Group>, r: Row)
    ensures EstimatedSum(AddRow(gs, r)) == EstimatedSum(gs) + r.invocation.estimated
    ensures RecordedSum(AddRow(gs, r)) == RecordedSum(gs) + Recorded(r)
  {
    if gs == [] {
      assert AddRow(gs, r)[1..] == [];
    } else if KeyOf(gs[0]) != RowKey(r) {
      AddRowSums(gs[1..], r);
    }
  }

  lemma {:induction false} GroupingConserves(rs: seq<Row>)
    ensures EstimatedSum(GroupRows(rs)) == EstimatedRows(rs) && RecordedSum(GroupRows(rs)) == RecordedRows(rs)
  {
    if rs != [] {
      GroupingConserves(rs[..|rs| - 1]);
      AddRowSums(GroupRows(rs[..|rs| - 1]), rs[|rs| - 1]);
    }
  }

  // ---- snapshots ----------------------------------------------------------

  /** The balances of an account, in order. */
  function Amounts(snaps: seq<Snapshot>, a: Account): seq<real> {
    if snaps == [] then []
    else
      var s := snaps[|snaps| - 1];
      Amounts(snaps[..|snaps| - 1], a) + if Usable(s) && AccountOf(s) == a then [s.amount.value] else []
  }

  function SeriesOf(ss: seq<Series>, a: Account): seq<real> {
    if ss == [] then [] else if ss[0].account == a then ss[0].amounts else SeriesOf(ss[1..], a)
  }

  predicate DistinctAccounts(ss: seq<Series>) {
    forall j, k :: 0 <= j < k < |ss| ==> ss[j].account != ss[k].account
  }

  lemma {:induction false} AddSnapshotSeries(ss: seq<Series>, s: Snapshot, a: Account)
    ensures SeriesOf(AddSnapshot(ss, s), a) == SeriesOf(ss, a) + if Usable(s) && AccountOf(s) == a then [s.amount.value] else []
  {
    if ss != [] && Usable(s) && ss[0].account != AccountOf(s) { AddSnapshotSeries(ss[1..], s, a); }
  }

  lemma {:induction false} AddSnapshotDistinct(ss: seq<Series>, s: Snapshot)
    requires DistinctAccounts(ss)
    ensures DistinctAccounts(AddSnapshot(ss, s))
    ensures forall x <- AddSnapshot(ss, s) :: (Usable(s) && x.account == AccountOf(s)) || x in ss
  {
    if ss != [] && Usable(s) && ss[0].account != AccountOf(s) { AddSnapshotDistinct(ss[1..], s); }
  }

  lemma {:induction false} CollectExactly(snaps: seq<Snapshot>, a: Account)
    ensures DistinctAccounts(Collect(snaps)) && SeriesOf(Collect(snaps), a) == Amounts(snaps, a)
  {
    if snaps != [] {
      CollectExactly(snaps[..|snaps| - 1], a);
      AddSnapshotSeries(Collect(snaps[..|snaps| - 1]), snaps[|snaps| - 1], a);
      AddSnapshotDistinct(Collect(snaps[..|snaps| - 1]), snaps[|snaps| - 1]);
    }
  }

  function CostOf(cs: seq<Cost>, p: string): real {
    if cs == [] then 0.0 else if cs[0].provider == p then cs[0].amount else CostOf(cs[1..], p)
  }

  function DropsOf(ss: seq<Series>, p: string): real {
    if ss == [] then 0.0 else DropsOf(ss[..|ss| - 1], p) + if ss[|ss| - 1].account.0 == p then Drop(ss[|ss| - 1].amounts) else 0.0
  }

  /** One positive cost per provider. */
  predicate CostsOk(cs: seq<Cost>) {
    && (forall j, k :: 0 <= j < k < |cs| ==> cs[j].provider != cs[k].provider)
    && (forall c <- cs :: c.amount > 0.0)
  }

  lemma {:induction false} AddCostOk(cs: seq<Cost>, p: string, amount: real, q: string)
    requires CostsOk(cs) && amount > 0.0
    ensures CostsOk(AddCost(cs, p, amount))
    ensures CostOf(AddCost(cs, p, amount), q) == CostOf(cs, q) + if p == q then amount else 0.0
    ensures forall c <- AddCost(cs, p, amount) :: c.provider == p || c in cs
  {
    if cs != [] && cs[0].provider != p { AddCostOk(cs[1..], p, amount, q); }
  }

  /** A provider's balance cost is the sum of what its accounts lost from first to last snapshot; gains count
      nothing, and a provider without a loss has no cost at all. */
  lemma {:induction false} CostsAreDrops(ss: seq<Series>, p: string)
    ensures CostsOk(Costs(ss)) && CostOf(Costs(ss), p) == DropsOf(ss, p)
  {
    if ss != [] {
      var front, s := ss[..|ss| - 1], ss[|ss| - 1];
      CostsAreDrops(front, p);
      if Drop(s.amounts) > 0.0 { AddCostOk(Costs(front), s.account.0, Drop(s.amounts), p); }
    }
  }

  // ---- the fallback -------------------------------------------------------

  lemma {:induction false} GroupsOfAppend(gs: seq<Group>, g: Group, p: string)
    ensures GroupsOf(gs + [g], p) == GroupsOf(gs, p) + if g.provider == p then [g] else []
  {
    if gs == [] {
      assert gs + [g] == [g] && [g][1..] == [];
    } else {
      var all := gs + [g];
      assert all[0] == gs[0] && all[1..] == gs[1..] + [g];
      GroupsOfAppend(gs[1..], g, p);
      Associates(if gs[0].provider == p then [gs[0]] else [], GroupsOf(gs[1..], p), if g.provider == p then [g] else []);
    }
  }

  lemma {:induction false} SumAppend(gs: seq<Group>, g: Group)
    ensures RecordedSum(gs + [g]) == RecordedSum(gs) + g.recorded && EstimatedSum(gs + [g]) == EstimatedSum(gs) + g.estimated
  {
    if gs == [] {
      assert gs + [g] == [g] && [g][1..] == [];
    } else {
      assert (gs + [g])[1..] == gs[1..] + [g];
      SumAppend(gs[1..], g);
    }
  }

  lemma {:induction false} SetFirstSums(gs: seq<Group>, p: string, amount: real)
    requires GroupsOf(gs, p) != []
    ensures EstimatedSum(SetFirst(gs, p, amount)) == EstimatedSum(gs)
    ensures RecordedSum(SetFirst(gs, p, amount)) == RecordedSum(gs) - GroupsOf(gs, p)[0].recorded + amount
  {
    if gs[0].provider != p { SetFirstSums(gs[1..], p, amount); }
  }

  lemma {:induction false} GroupsOfFirst(g: Group, gs: seq<Group>, p: string)
    ensures GroupsOf([g] + gs, p) == (if g.provider == p then [g] else []) + GroupsOf(gs, p)
  {
    assert ([g] + gs)[1..] == gs;
  }

  lemma {:induction false} SetFirstGroups(gs: seq<Group>, p: string, amount: real, q: string)
    requires GroupsOf(gs, p) != []
    ensures GroupsOf(SetFirst(gs, p, amount), q) ==
            if q == p then [GroupsOf(gs, p)[0].(recorded := amount)] + GroupsOf(gs, p)[1..] else GroupsOf(gs, q)
  {
    if gs[0].provider != p {
      SetFirstGroups(gs[1..], p, amount, q);
      assert SetFirst(gs, p, amount) == [gs[0]] + SetFirst(gs[1..], p, amount);
      GroupsOfFirst(gs[0], SetFirst(gs[1..], p, amount), q);
      assert GroupsOf(gs, p) == GroupsOf(gs[1..], p);
    } else {
      GroupsOfFirst(gs[0].(recorded := amount), gs[1..], q);
      assert GroupsOf(gs, p) == [gs[0]] + GroupsOf(gs[1..], p);
    }
  }

  /** What the fallback makes of a provider: its own groups, unless it has none, or a single one that recorded
      nothing. */
  function After(own: seq<Group>, p: string, cost: Option<real>): seq<Group> {
    var mine := GroupsOf(own, p);
    if cost.None? then mine
    else if mine == [] then [Group(p, "balance.snapshot", 0.0, cost.value, "CNY")]
    else if |mine| == 1 && mine[0].recorded == 0.0 then [mine[0].(recorded := cost.value)]
    else mine
  }

  function CostFor(cs: seq<Cost>, p: string): Option<real> {
    if cs == [] then None else if cs[|cs| - 1].provider == p then Some(cs[|cs| - 1].amount) else CostFor(cs[..|cs| - 1], p)
  }

  /** The balance cost of a provider counts: it has no groups of its own, or a single one that recorded nothing. */
  predicate Used(own: seq<Group>, p: string) {
    var mine := GroupsOf(own, p);
    mine == [] || (|mine| == 1 && mine[0].recorded == 0.0)
  }

  /** What one cost adds to the recorded total. */
  function Added(own: seq<Group>, c: Cost): real { if Used(own, c.provider) then c.amount else 0.0 }

  function AddedAll(own: seq<Group>, cs: seq<Cost>): real {
    if cs == [] then 0.0 else AddedAll(own, cs[..|cs| - 1]) + Added(own, cs[|cs| - 1])
  }

  lemma {:induction false} CostForAbsent(cs: seq<Cost>, p: string)
    requires forall c <- cs :: c.provider != p
    ensures CostFor(cs, p) == None
  {
    if cs != [] { CostForAbsent(cs[..|cs| - 1], p); }
  }

  lemma {:induction false} SumOfOne(g: Group)
    ensures RecordedSum([g]) == g.recorded
  {
    assert [g][1..] == [];
  }

  lemma {:induction false} OneCost(own: seq<Group>, gs: seq<Group>, c: Cost, p: string)
    requires GroupsOf(gs, c.provider) == GroupsOf(own, c.provider)
    ensures var out := ApplyCost(gs, own, c);
            && GroupsOf(out, p) == (if p == c.provider then After(own, p, Some(c.amount)) else GroupsOf(gs, p))
            && EstimatedSum(out) == EstimatedSum(gs) && RecordedSum(out) == RecordedSum(gs) + Added(own, c)
  {
    var mine := GroupsOf(own, c.provider);
    if mine == [] {
      var g := Group(c.provider, "balance.snapshot", 0.0, c.amount, "CNY");
      GroupsOfAppend(gs, g, p);
      SumAppend(gs, g);
    } else if |mine| == 1 {
      SumOfOne(mine[0]);
      assert mine == [mine[0]];
      if mine[0].recorded == 0.0 {
        SetFirstSums(gs, c.provider, c.amount);
        SetFirstGroups(gs, c.provider, c.amount, p);
      }
    }
  }

  /** The fallback's whole effect, provider by provider and in total: estimates never change, a provider that
      recorded anything or has several groups never changes, and what is added is counted once. */
  lemma {:induction false} FallbackExactly(own: seq<Group>, cs: seq<Cost>, p: string)
    requires CostsOk(cs)
    ensures GroupsOf(Fallback(own, cs), p) == After(own, p, CostFor(cs, p))
    ensures EstimatedSum(Fallback(own, cs)) == EstimatedSum(own)
    ensures RecordedSum(Fallback(own, cs)) == RecordedSum(own) + AddedAll(own, cs)
  {
    if cs != [] {
      var front, c := cs[..|cs| - 1], cs[|cs| - 1];
      FallbackExactly(own, front, p);
      FallbackExactly(own, front, c.provider);
      CostForAbsent(front, c.provider);
      OneCost(own, Fallback(own, front), c, p);
    }
  }

  // ---- the report ---------------------------------------------------------

  lemma {:induction false} LineTotals(gs: seq<Group>)
    ensures var ls := Lines(gs);
            && |ls| == |gs| && (forall n :: 0 <= n < |gs| ==> ls[n] == LineOf(gs[n]))
            && TotalEstimated(ls) == EstimatedSum(gs) && TotalRecorded(ls) == RecordedSum(gs)
            && TotalVariance(ls) == RecordedSum(gs) - EstimatedSum(gs)
  {
    if gs != [] { LineTotals(gs[1..]); }
  }

  lemma {:induction false} InsertSums(gs: seq<Group>, g: Group)
    ensures EstimatedSum(Insert(gs, g, KeyOf)) == EstimatedSum(gs) + g.estimated
    ensures RecordedSum(Insert(gs, g, KeyOf)) == RecordedSum(gs) + g.recorded
  {
    if gs == [] || !KeyLess(KeyOf(g), KeyOf(gs[|gs| - 1])) {
      SumAppend(gs, g);
    } else {
      var front, last := gs[..|gs| - 1], gs[|gs| - 1];
      assert gs == front + [last];
      InsertSums(front, g);
      SumAppend(front, last);
      SumAppend(Insert(front, g, KeyOf), last);
    }
  }

  lemma {:induction false} SortedSums(gs: seq<Group>)
    ensures EstimatedSum(Sorted(gs, KeyOf)) == EstimatedSum(gs) && RecordedSum(Sorted(gs, KeyOf)) == RecordedSum(gs)
  {
    if gs != [] {
      var front, last := gs[..|gs| - 1], gs[|gs| - 1];
      assert gs == front + [last];
      SortedSums(front);
      SumAppend(front, last);
      InsertSums(Sorted(front, KeyOf), last);
    }
  }

  /** Money is conserved from the rows to the report: the totals are those of the line items, the estimate is
      what the joined rows estimated, and the recorded total is what they recorded plus the balance costs of
      providers that recorded nothing of their own. */
  lemma {:induction false} ReconciliationConserves(invs: seq<Invocation>, us: seq<Usage>, snaps: seq<Snapshot>)
    ensures var r, rows := Reconcile(invs, us, snaps), Join(invs, us);
            && r.estimated == EstimatedRows(rows)
            && r.recorded == RecordedRows(rows) + AddedAll(GroupRows(rows), BalanceCosts(snaps))
            && r.variance == r.recorded - r.estimated == TotalVariance(r.lines)
            && r.estimated == TotalEstimated(r.lines) && r.recorded == TotalRecorded(r.lines)
  {
    var rows, gs := Join(invs, us), Groups(invs, us, snaps);
    GroupingConserves(rows);
    CostsAreDrops(Collect(snaps), "");
    FallbackExactly(GroupRows(rows), BalanceCosts(snaps), "");
    SortedSums(gs);
    LineTotals(Sorted(gs, KeyOf));
  }

  // ---- usage records count ------------------------------------------------

  function EstimateOf(i: Invocation): real { i.estimated }

  /** What an invocation costs however much it used: its actual cost, or its price per call. */
  function FlatCost(i: Invocation): Option<real> {
    if i.actual.Some? then i.actual
    else if i.price.Some? && i.price.value.unit.Call? then Some(i.price.value.amount)
    else None
  }

  function FlatOrNothing(i: Invocation): real { if FlatCost(i).Some? then FlatCost(i).value else 0.0 }

  function UsageSum(us: seq<Usage>, p: Option<Price>): real {
    if us == [] then 0.0 else UsageSum(us[..|us| - 1], p) + UsageCost(Some(us[|us| - 1]), p)
  }

  /** What an invocation cost, counting its usage records once each and a flat cost once. */
  function CostOnce(i: Invocation, mine: seq<Usage>): real {
    if FlatCost(i).Some? then FlatCost(i).value else UsageSum(mine, i.price)
  }

  function EstimatedOnce(invs: seq<Invocation>): real {
    if invs == [] then 0.0 else invs[0].estimated + EstimatedOnce(invs[1..])
  }

  function RecordedOnce(invs: seq<Invocation>, us: seq<Usage>): real {
    if invs == [] then 0.0 else CostOnce(invs[0], UsagesOf(us, invs[0].id)) + RecordedOnce(invs[1..], us)
  }

  function Again(n: nat, e: real): real { if n > 1 then (n - 1) as real * e else 0.0 }

  /** What the join counts again: an invocation's amount for each usage record beyond its first. */
  function Repeated(invs: seq<Invocation>, us: seq<Usage>, f: Invocation -> real): real {
    if invs == [] then 0.0
    else
      Again(|UsagesOf(us, invs[0].id)|, f(invs[0])) + Repeated(invs[1..], us, f)
  }

  lemma {:induction false} SumJoin(a: seq<Row>, b: seq<Row>, f: Row -> real)
    ensures SumRows(a + b, f) == SumRows(a, f) + SumRows(b, f)
    decreases |b|
  {
    if b == [] {
      assert a + b == a;
    } else {
      assert (a + b)[..|a + b| - 1] == a + b[..|b| - 1];
      SumJoin(a, b[..|b| - 1], f);
    }
  }

  lemma {:induction false} SumSame(rs: seq<Row>, e: real, f: Row -> real)
    requires forall r <- rs :: f(r) == e
    ensures SumRows(rs, f) == |rs| as real * e
  {
    if rs != [] {
      SumSame(rs[..|rs| - 1], e, f);
      assert |rs| as real * e == (|rs| - 1) as real * e + e;
    }
  }

  /** The rows of an invocation count an amount that they all carry as often as there are rows. */
  lemma {:induction false} RowsCountAgain(i: Invocation, us: seq<Usage>, e: real, f: Row -> real)
    requires forall r <- RowsOf(i, us) :: f(r) == e
    ensures SumRows(RowsOf(i, us), f) == e + Again(|us|, e)
  {
    SumSame(RowsOf(i, us), e, f);
    if |us| > 1 { assert |us| as real * e == (|us| - 1) as real * e + 1.0 * e; }
  }

  lemma {:induction false} RowsSumUsages(i: Invocation, us: seq<Usage>)
    requires FlatCost(i).None?
    ensures RecordedRows(RowsOf(i, us)) == UsageSum(us, i.price)
  {
    var rows := RowsOf(i, us);
    if |us| <= 1 {
      assert rows[..0] == [] && SumRows(rows, Recorded) == SumRows(rows[..0], Recorded) + Recorded(rows[0]);
      if us != [] { assert us[..0] == []; }
    } else {
      RowsSumUsages(i, us[..|us| - 1]);
      assert rows[..|us| - 1] == RowsOf(i, us[..|us| - 1]);
      assert rows[|us| - 1] == Row(i, Some(us[|us| - 1]));
    }
  }

  lemma {:induction false} RowsCost(i: Invocation, us: seq<Usage>)
    ensures RecordedRows(RowsOf(i, us)) == CostOnce(i, us) + Again(|us|, FlatOrNothing(i))
  {
    if FlatCost(i).Some? {
      RowsCountAgain(i, us, FlatCost(i).value, Recorded);
    } else {
      RowsSumUsages(i, us);
    }
  }

  lemma {:induction false} JoinRepeats(invs: seq<Invocation>, us: seq<Usage>)
    ensures EstimatedRows(Join(invs, us)) == EstimatedOnce(invs) + Repeated(invs, us, EstimateOf)
    ensures RecordedRows(Join(invs, us)) == RecordedOnce(invs, us) + Repeated(invs, us, FlatOrNothing)
  {
    if invs != [] {
      var mine := UsagesOf(us, invs[0].id);
      JoinRepeats(invs[1..], us);
      SumJoin(RowsOf(invs[0], mine), Join(invs[1..], us), Estimated);
      SumJoin(RowsOf(invs[0], mine), Join(invs[1..], us), Recorded);
      RowsCountAgain(invs[0], mine, invs[0].estimated, Estimated);
      RowsCost(invs[0], mine);
    }
  }

  /** No invocation with such an amount has several usage records. */
  predicate SingleUsage(invs: seq<Invocation>, us: seq<Usage>, f: Invocation -> real) {
    forall i <- invs :: f(i) == 0.0 || |UsagesOf(us, i.id)| <= 1
  }

  /** No two amounts cancel out: none is negative, or none is positive. */
  predicate OneSign(invs: seq<Invocation>, f: Invocation -> real) {
    (forall i <- invs :: f(i) >= 0.0) || (forall i <- invs :: f(i) <= 0.0)
  }

  lemma {:induction false} AgainSign(n: nat, e: real)
    ensures Again(n, e) == 0.0 <==> e == 0.0 || n <= 1
    ensures e >= 0.0 ==> Again(n, e) >= 0.0
    ensures e <= 0.0 ==> Again(n, e) <= 0.0
  {
  }

  lemma {:induction false} SingleFirst(invs: seq<Invocation>, us: seq<Usage>, f: Invocation -> real)
    requires invs != []
    ensures SingleUsage(invs, us, f) <==> (f(invs[0]) == 0.0 || |UsagesOf(us, invs[0].id)| <= 1) && SingleUsage(invs[1..], us, f)
  {
    assert invs == [invs[0]] + invs[1..];
  }

  lemma {:induction false} RepeatedSign(invs: seq<Invocation>, us: seq<Usage>, f: Invocation -> real, up: bool)
    requires forall i <- invs :: if up then f(i) >= 0.0 else f(i) <= 0.0
    ensures if up then Repeated(invs, us, f) >= 0.0 else Repeated(invs, us, f) <= 0.0
    ensures Repeated(invs, us, f) == 0.0 <==> SingleUsage(invs, us, f)
  {
    if invs != [] {
      RepeatedSign(invs[1..], us, f, up);
      SingleFirst(invs, us, f);
      AgainSign(|UsagesOf(us, invs[0].id)|, f(invs[0]));
    }
  }

  lemma {:induction false} RepeatedNone(invs: seq<Invocation>, us: seq<Usage>, f: Invocation -> real)
    requires SingleUsage(invs, us, f)
    ensures Repeated(invs, us, f) == 0.0
  {
    if invs != [] {
      RepeatedNone(invs[1..], us, f);
      AgainSign(|UsagesOf(us, invs[0].id)|, f(invs[0]));
    }
  }

  lemma {:induction false} RepeatedExactly(invs: seq<Invocation>, us: seq<Usage>, f: Invocation -> real)
    ensures SingleUsage(invs, us, f) ==> Repeated(invs, us, f) == 0.0
    ensures OneSign(invs, f) && !SingleUsage(invs, us, f) ==> Repeated(invs, us, f) != 0.0
  {
    if SingleUsage(invs, us, f) { RepeatedNone(invs, us, f); }
    if forall i <- invs :: f(i) >= 0.0 { RepeatedSign(invs, us, f, true); }
    else if forall i <- invs :: f(i) <= 0.0 { RepeatedSign(invs, us, f, false); }
  }

  /** The estimated total is the sum of the invocations' estimates and of one more for each usage record beyond an
      invocation's first. Unless estimates of either sign cancel out, it counts each estimate once exactly when no
      invocation with one has several usage records. */
  lemma {:induction false} EstimateCountsOnceExactly(invs: seq<Invocation>, us: seq<Usage>, snaps: seq<Snapshot>)
    ensures var over := Reconcile(invs, us, snaps).estimated - EstimatedOnce(invs);
            && over == Repeated(invs, us, EstimateOf)
            && (SingleUsage(invs, us, EstimateOf) ==> over == 0.0)
            && (OneSign(invs, EstimateOf) && !SingleUsage(invs, us, EstimateOf) ==> over != 0.0)
  {
    ReconciliationConserves(invs, us, snaps);
    JoinRepeats(invs, us);
    RepeatedExactly(invs, us, EstimateOf);
  }

  /** The recorded total is what the invocations and the balance costs used come to, each counted once, and one more
      actual cost or price per call for each usage record beyond an invocation's first; costs by usage are never
      counted again. Unless costs of either sign cancel out, it is right exactly when no invocation with such a cost
      has several usage records. */
  lemma {:induction false} CostCountsOnceExactly(invs: seq<Invocation>, us: seq<Usage>, snaps: seq<Snapshot>)
    ensures var once := RecordedOnce(invs, us) + AddedAll(GroupRows(Join(invs, us)), BalanceCosts(snaps));
            var over := Reconcile(invs, us, snaps).recorded - once;
            && over == Repeated(invs, us, FlatOrNothing)
            && (SingleUsage(invs, us, FlatOrNothing) ==> over == 0.0)
            && (OneSign(invs, FlatOrNothing) && !SingleUsage(invs, us, FlatOrNothing) ==> over != 0.0)
  {
    ReconciliationConserves(invs, us, snaps);
    JoinRepeats(invs, us);
    RepeatedExactly(invs, us, FlatOrNothing);
  }

  /** One call with two usage records is estimated and charged twice. */
  lemma {:induction false} TwoUsagesCountTwice(i: Invocation, u: Usage, v: Usage)
    requires u.invocation == i.id && v.invocation == i.id && FlatCost(i).Some?
    ensures var r := Reconcile([i], [u, v], []);
            r.estimated == 2.0 * i.estimated && r.recorded == 2.0 * FlatCost(i).value
  {
    assert [u, v][1..] == [v] && [v][1..] == [] && [i][1..] == [];
    assert UsagesOf([], i.id) == [] && [v] + [] == [v] && [u] + [v] == [u, v];
    assert UsagesOf([v], i.id) == [v] + UsagesOf([v][1..], i.id) == [v];
    assert UsagesOf([u, v], i.id) == [u] + UsagesOf([u, v][1..], i.id) == [u, v];
    JoinRepeats([i], [u, v]);
    ReconciliationConserves([i], [u, v], []);
  }

  // ---- currencies -----------------------------------------------------------

  /** The currency of what a row records; none is known of a reported cost that is a bare number. */
  function RecordedIn(r: Row): Option<string> {
    if r.invocation.actual.Some? then Some(r.invocation.paid)
    else if r.invocation.price.Some? && (r.invocation.price.value.unit.Call? || r.usage.Some?) then Some(r.invocation.price.value.currency)
    else if r.usage.Some? && r.usage.value.raw.Some? then r.usage.value.rawCurrency
    else None
  }

  predicate RowIn(r: Row, c: string) {
    Label(r.invocation.currency) == c && (RecordedIn(r).Some? ==> Label(RecordedIn(r).value) == c)
  }

  /** Every amount added into the report is in currency c: estimates, recorded costs and the drops used. */
  predicate AllIn(invs: seq<Invocation>, us: seq<Usage>, snaps: seq<Snapshot>, c: string) {
    && (forall r <- Join(invs, us) :: RowIn(r, c))
    && (forall s <- Collect(snaps) :: Drop(s.amounts) > 0.0 && Used(GroupRows(Join(invs, us)), s.account.0) ==> s.account.2 == c)
  }

  /** The group of a row stands for it, in the currency of the first row of its key. */
  predicate FromRows(rs: seq<Row>, g: Group) {
    exists r <- rs :: RowKey(r) == KeyOf(g) && r.invocation.currency == g.currency
  }

  lemma {:induction false} AddRowFrom(gs: seq<Group>, r: Row, rs: seq<Row>)
    requires (forall g <- gs :: FromRows(rs, g)) && r in rs
    ensures forall g <- AddRow(gs, r) :: FromRows(rs, g)
  {
    if gs != [] && KeyOf(gs[0]) != RowKey(r) {
      AddRowFrom(gs[1..], r, rs);
    } else if gs != [] {
      assert FromRows(rs, gs[0]);
    }
  }

  lemma {:induction false} MoreRows(rs: seq<Row>, n: nat, g: Group)
    requires n <= |rs| && FromRows(rs[..n], g)
    ensures FromRows(rs, g)
  {
    var r :| r in rs[..n] && RowKey(r) == KeyOf(g) && r.invocation.currency == g.currency;
    assert r in rs;
  }

  lemma {:induction false} GroupsFrom(rs: seq<Row>)
    ensures forall g <- GroupRows(rs) :: FromRows(rs, g)
  {
    if rs != [] {
      var front := rs[..|rs| - 1];
      GroupsFrom(front);
      forall g | g in GroupRows(front) ensures FromRows(rs, g) {
        MoreRows(rs, |front|, g);
      }
      AddRowFrom(GroupRows(front), rs[|rs| - 1], rs);
    }
  }

  /** A group made up for a provider that lost something and has no group of its own. */
  predicate MadeUp(own: seq<Group>, cs: seq<Cost>, g: Group) {
    && g.currency == "CNY" && g.capability == "balance.snapshot" && GroupsOf(own, g.provider) == []
    && exists c <- cs :: c.provider == g.provider
  }

  /** A group of the fallback keeps the key and the currency of one of the own ones, or is made up. */
  predicate Backed(own: seq<Group>, cs: seq<Cost>, g: Group) {
    (exists h <- own :: KeyOf(h) == KeyOf(g) && h.currency == g.currency) || MadeUp(own, cs, g)
  }

  lemma {:induction false} SetFirstBacked(gs: seq<Group>, p: string, amount: real, own: seq<Group>, cs: seq<Cost>)
    requires forall g <- gs :: Backed(own, cs, g)
    ensures forall g <- SetFirst(gs, p, amount) :: Backed(own, cs, g)
  {
    if gs != [] {
      assert Backed(own, cs, gs[0]);
      assert Backed(own, cs, gs[0].(recorded := amount));
      if gs[0].provider != p { SetFirstBacked(gs[1..], p, amount, own, cs); }
    }
  }

  lemma {:induction false} MoreCosts(own: seq<Group>, cs: seq<Cost>, g: Group)
    requires cs != [] && Backed(own, cs[..|cs| - 1], g)
    ensures Backed(own, cs, g)
  {
    if MadeUp(own, cs[..|cs| - 1], g) {
      var c :| c in cs[..|cs| - 1] && c.provider == g.provider;
      assert c in cs;
    }
  }

  lemma {:induction false} FallbackBacked(own: seq<Group>, cs: seq<Cost>)
    ensures forall g <- Fallback(own, cs) :: Backed(own, cs, g)
  {
    if cs != [] {
      var front, c := Fallback(own, cs[..|cs| - 1]), cs[|cs| - 1];
      FallbackBacked(own, cs[..|cs| - 1]);
      forall g | g in front ensures Backed(own, cs, g) {
        MoreCosts(own, cs, g);
      }
      SetFirstBacked(front, c.provider, c.amount, own, cs);
    }
  }

  lemma {:induction false} SetFirstKeys(gs: seq<Group>, p: string, amount: real)
    ensures var out := SetFirst(gs, p, amount); |out| == |gs| && forall n :: 0 <= n < |gs| ==> KeyOf(out[n]) == KeyOf(gs[n])
  {
    if gs != [] && gs[0].provider != p { SetFirstKeys(gs[1..], p, amount); }
  }

  lemma {:induction false} ProviderAbsent(gs: seq<Group>, p: string)
    ensures GroupsOf(gs, p) == [] <==> forall g <- gs :: g.provider != p
  {
    if gs != [] {
      ProviderAbsent(gs[1..], p);
      assert gs == [gs[0]] + gs[1..];
    }
  }

  lemma {:induction false} ApplyCostDistinct(gs: seq<Group>, own: seq<Group>, c: Cost)
    requires DistinctKeys(gs, KeyOf) && GroupsOf(gs, c.provider) == GroupsOf(own, c.provider)
    ensures DistinctKeys(ApplyCost(gs, own, c), KeyOf)
  {
    ProviderAbsent(gs, c.provider);
    SetFirstKeys(gs, c.provider, c.amount);
    if GroupsOf(own, c.provider) == [] {
      assert forall g <- gs :: KeyOf(g).0 != c.provider;
    }
  }

  lemma {:induction false} FallbackDistinct(own: seq<Group>, cs: seq<Cost>)
    requires CostsOk(cs) && DistinctKeys(own, KeyOf)
    ensures DistinctKeys(Fallback(own, cs), KeyOf)
  {
    if cs != [] {
      var front, c := cs[..|cs| - 1], cs[|cs| - 1];
      FallbackDistinct(own, front);
      FallbackExactly(own, front, c.provider);
      CostForAbsent(front, c.provider);
      ApplyCostDistinct(Fallback(own, front), own, c);
    }
  }

  lemma {:induction false} NoGroups(gs: seq<Group>, p: string, k: Key)
    requires GroupsOf(gs, p) == [] && k.0 == p
    ensures Find(gs, k).None?
  {
    if gs != [] { NoGroups(gs[1..], p, k); }
  }

  /** The key of a line has invocations, which is to say that the line was not made up. */
  predicate Invoked(invs: seq<Invocation>, us: seq<Usage>, l: Line) { HasKey(Join(invs, us), (l.provider, l.capability)) }

  lemma {:induction false} GroupCurrency(invs: seq<Invocation>, us: seq<Usage>, snaps: seq<Snapshot>, g: Group)
    requires g in Groups(invs, us, snaps)
    ensures if HasKey(Join(invs, us), KeyOf(g)) then FromRows(Join(invs, us), g)
            else MadeUp(GroupRows(Join(invs, us)), BalanceCosts(snaps), g)
  {
    var rows := Join(invs, us);
    var own := GroupRows(rows);
    FallbackBacked(own, BalanceCosts(snaps));
    if MadeUp(own, BalanceCosts(snaps), g) {
      NoGroups(own, g.provider, KeyOf(g));
      GroupsAreSums(rows, KeyOf(g));
    } else {
      var h :| h in own && KeyOf(h) == KeyOf(g) && h.currency == g.currency;
      GroupsFrom(rows);
      assert FromRows(rows, h);
    }
  }

  lemma {:induction false} LineGroup(invs: seq<Invocation>, us: seq<Usage>, snaps: seq<Snapshot>, l: Line) returns (g: Group)
    requires l in Reconcile(invs, us, snaps).lines
    ensures g in Groups(invs, us, snaps) && l == LineOf(g)
  {
    var sorted := Sorted(Groups(invs, us, snaps), KeyOf);
    LineTotals(sorted);
    SortedElements(Groups(invs, us, snaps), KeyOf);
    var n :| 0 <= n < |sorted| && l == LineOf(sorted[n]);
    g := sorted[n];
    assert g in multiset(sorted);
  }

  /** A line is in the currency of an invocation of its key; one without any is in yuan. */
  lemma {:induction false} LineCurrency(invs: seq<Invocation>, us: seq<Usage>, snaps: seq<Snapshot>, l: Line)
    requires l in Reconcile(invs, us, snaps).lines
    ensures if Invoked(invs, us, l) then exists r <- Join(invs, us) :: RowKey(r) == (l.provider, l.capability) && l.currency == Label(r.invocation.currency)
            else l.currency == "CNY"
  {
    var g := LineGroup(invs, us, snaps, l);
    GroupCurrency(invs, us, snaps, g);
  }

  // ---- which line comes first -----------------------------------------------

  /** The provider has joined rows. */
  predicate HasRows(rs: seq<Row>, p: string) { exists r <- rs :: r.invocation.provider == p }

  predicate HasCost(cs: seq<Cost>, p: string) { exists c <- cs :: c.provider == p }

  lemma {:induction false} HasCostFirst(c: Cost, cs: seq<Cost>, p: string)
    ensures HasCost([c] + cs, p) <==> c.provider == p || HasCost(cs, p)
  {
    assert c in [c] + cs && forall x <- cs :: x in [c] + cs;
  }

  lemma {:induction false} HasCostNext(cs: seq<Cost>, q: string, amount: real, p: string)
    ensures HasCost(AddCost(cs, q, amount), p) <==> HasCost(cs, p) || p == q
  {
    if cs == [] {
      HasCostFirst(Cost(q, amount), [], p);
      assert [Cost(q, amount)] + [] == [Cost(q, amount)];
    } else {
      HasCostFirst(cs[0], cs[1..], p);
      assert cs == [cs[0]] + cs[1..];
      if cs[0].provider == q {
        HasCostFirst(cs[0].(amount := cs[0].amount + amount), cs[1..], p);
      } else {
        HasCostNext(cs[1..], q, amount, p);
        HasCostFirst(cs[0], AddCost(cs[1..], q, amount), p);
      }
    }
  }

  /** The provider lost something in some account. */
  predicate LostIn(ss: seq<Series>, p: string) { exists s <- ss :: s.account.0 == p && Drop(s.amounts) > 0.0 }

  lemma {:induction false} LostNext(front: seq<Series>, s: Series, p: string)
    ensures LostIn(front + [s], p) <==> LostIn(front, p) || (s.account.0 == p && Drop(s.amounts) > 0.0)
  {
    assert s in front + [s] && forall x <- front :: x in front + [s];
  }

  /** A provider has a balance cost exactly when it lost something. */
  lemma {:induction false} CostsExactly(ss: seq<Series>, p: string)
    ensures HasCost(Costs(ss), p) <==> LostIn(ss, p)
  {
    if ss != [] {
      var front, s := ss[..|ss| - 1], ss[|ss| - 1];
      CostsExactly(front, p);
      assert ss == front + [s];
      LostNext(front, s, p);
      if Drop(s.amounts) > 0.0 { HasCostNext(Costs(front), s.account.0, Drop(s.amounts), p); }
    }
  }

  lemma {:induction false} CostForExactly(cs: seq<Cost>, p: string)
    ensures CostFor(cs, p).Some? <==> HasCost(cs, p)
  {
    if cs != [] {
      CostForExactly(cs[..|cs| - 1], p);
      assert cs == cs[..|cs| - 1] + [cs[|cs| - 1]];
    }
  }

  /** The groups a provider has after the fallback are groups. */
  lemma {:induction false} GroupsOfHas(gs: seq<Group>, p: string)
    ensures forall g <- GroupsOf(gs, p) :: g in gs && g.provider == p
  {
    if gs != [] { GroupsOfHas(gs[1..], p); }
  }

  lemma {:induction false} FindIs(gs: seq<Group>, k: Key)
    ensures Find(gs, k).Some? ==> Find(gs, k).value in gs && KeyOf(Find(gs, k).value) == k
    ensures Find(gs, k).None? ==> forall g <- gs :: KeyOf(g) != k
  {
    if gs != [] { FindIs(gs[1..], k); }
  }

  /** The own groups of a provider are none exactly when it has no rows. */
  lemma {:induction false} OwnExactly(rs: seq<Row>, p: string)
    ensures GroupsOf(GroupRows(rs), p) == [] <==> !HasRows(rs, p)
  {
    ProviderAbsent(GroupRows(rs), p);
    GroupsFrom(rs);
    if HasRows(rs, p) {
      var r :| r in rs && r.invocation.provider == p;
      assert HasKey(rs, RowKey(r));
      GroupsAreSums(rs, RowKey(r));
      FindIs(GroupRows(rs), RowKey(r));
    }
  }

  /** A provider that lost something and has no rows gets a group of its own. */
  lemma {:induction false} LossIsGrouped(invs: seq<Invocation>, us: seq<Usage>, snaps: seq<Snapshot>, p: string)
    requires LostIn(Collect(snaps), p) && !HasRows(Join(invs, us), p)
    ensures exists g <- Groups(invs, us, snaps) :: KeyOf(g) == (p, "balance.snapshot")
  {
    var own, cs := GroupRows(Join(invs, us)), BalanceCosts(snaps);
    CostsExactly(Collect(snaps), p);
    CostForExactly(cs, p);
    OwnExactly(Join(invs, us), p);
    CostsAreDrops(Collect(snaps), p);
    FallbackExactly(own, cs, p);
    GroupsOfHas(Fallback(own, cs), p);
    assert After(own, p, CostFor(cs, p))[0] in Groups(invs, us, snaps);
  }

  predicate HasGroup(gs: seq<Group>, k: Key) { exists g <- gs :: KeyOf(g) == k }

  lemma {:induction false} ApplyCostKeys(gs: seq<Group>, own: seq<Group>, c: Cost, k: Key)
    requires HasGroup(gs, k)
    ensures HasGroup(ApplyCost(gs, own, c), k)
  {
    var g :| g in gs && KeyOf(g) == k;
    var n :| 0 <= n < |gs| && gs[n] == g;
    SetFirstKeys(gs, c.provider, c.amount);
    var out := ApplyCost(gs, own, c);
    assert n < |out| && KeyOf(out[n]) == k;
    assert out[n] in out;
  }

  lemma {:induction false} KeysKept(own: seq<Group>, cs: seq<Cost>, k: Key)
    requires HasGroup(own, k)
    ensures HasGroup(Fallback(own, cs), k)
  {
    if cs != [] {
      KeysKept(own, cs[..|cs| - 1], k);
      ApplyCostKeys(Fallback(own, cs[..|cs| - 1]), own, cs[|cs| - 1], k);
    }
  }

  /** The key of a row is that of a group. */
  lemma {:induction false} RowIsGrouped(invs: seq<Invocation>, us: seq<Usage>, snaps: seq<Snapshot>, r: Row)
    requires r in Join(invs, us)
    ensures HasGroup(Groups(invs, us, snaps), RowKey(r))
  {
    var rows, own, cs := Join(invs, us), GroupRows(Join(invs, us)), BalanceCosts(snaps);
    assert HasKey(rows, RowKey(r));
    GroupsAreSums(rows, RowKey(r));
    FindIs(own, RowKey(r));
    assert HasGroup(own, RowKey(r));
    KeysKept(own, cs, RowKey(r));
  }

  /** If the account lost something and its provider has no rows, the row's key sorts before that provider's. */
  predicate Before(r: Row, rs: seq<Row>, s: Series) {
    Drop(s.amounts) > 0.0 && !HasRows(rs, s.account.0) ==> KeyLess(RowKey(r), (s.account.0, "balance.snapshot"))
  }

  /** The key of some row sorts before those of all providers that lost something and have no rows. */
  predicate RowLeads(rs: seq<Row>, snaps: seq<Snapshot>) {
    exists r <- rs :: forall s <- Collect(snaps) :: Before(r, rs, s)
  }

  /** The first group is there, and its key sorts before those of the others. */
  lemma {:induction false} FirstGroup(invs: seq<Invocation>, us: seq<Usage>, snaps: seq<Snapshot>) returns (g: Group)
    requires Reconcile(invs, us, snaps).lines != []
    ensures g in Groups(invs, us, snaps) && Reconcile(invs, us, snaps).lines[0] == LineOf(g)
    ensures forall h <- Groups(invs, us, snaps) :: KeyOf(h) == KeyOf(g) || KeyLess(KeyOf(g), KeyOf(h))
  {
    var gs, rows, cs := Groups(invs, us, snaps), Join(invs, us), BalanceCosts(snaps);
    GroupsDistinct(rows);
    CostsAreDrops(Collect(snaps), "");
    FallbackDistinct(GroupRows(rows), cs);
    SortedIncreasing(gs, KeyOf);
    var sorted := Sorted(gs, KeyOf);
    LineTotals(sorted);
    g := sorted[0];
    assert g in multiset(sorted);
    forall h | h in gs ensures KeyOf(h) == KeyOf(g) || KeyLess(KeyOf(g), KeyOf(h)) {
      assert h in multiset(gs);
      var n :| 0 <= n < |sorted| && sorted[n] == h;
    }
  }

  lemma {:induction false} GroupsMakeLines(invs: seq<Invocation>, us: seq<Usage>, snaps: seq<Snapshot>, g: Group)
    requires g in Groups(invs, us, snaps)
    ensures Reconcile(invs, us, snaps).lines != []
  {
    SortedElements(Groups(invs, us, snaps), KeyOf);
    assert g in multiset(Groups(invs, us, snaps));
    LineTotals(Sorted(Groups(invs, us, snaps), KeyOf));
  }

  lemma {:induction false} LeadingRow(invs: seq<Invocation>, us: seq<Usage>, snaps: seq<Snapshot>)
    requires RowLeads(Join(invs, us), snaps)
    ensures Reconcile(invs, us, snaps).lines != [] && Invoked(invs, us, Reconcile(invs, us, snaps).lines[0])
  {
    var rows := Join(invs, us);
    var r :| r in rows && forall s <- Collect(snaps) :: Before(r, rows, s);
    RowIsGrouped(invs, us, snaps, r);
    var h :| h in Groups(invs, us, snaps) && KeyOf(h) == RowKey(r);
    GroupsMakeLines(invs, us, snaps, h);
    var g := FirstGroup(invs, us, snaps);
    GroupCurrency(invs, us, snaps, g);
    if MadeUp(GroupRows(rows), BalanceCosts(snaps), g) {
      CostsExactly(Collect(snaps), g.provider);
      assert HasCost(BalanceCosts(snaps), g.provider);
      var s :| s in Collect(snaps) && s.account.0 == g.provider && Drop(s.amounts) > 0.0;
      OwnExactly(rows, g.provider);
      assert Before(r, rows, s);
      KeyLessTotal(KeyOf(g), KeyOf(h));
    }
  }

  lemma {:induction false} LeadingLine(invs: seq<Invocation>, us: seq<Usage>, snaps: seq<Snapshot>)
    requires Reconcile(invs, us, snaps).lines != [] && Invoked(invs, us, Reconcile(invs, us, snaps).lines[0])
    ensures RowLeads(Join(invs, us), snaps)
  {
    var rows := Join(invs, us);
    var g := FirstGroup(invs, us, snaps);
    var r :| r in rows && RowKey(r) == KeyOf(g);
    forall s | s in Collect(snaps) ensures Before(r, rows, s) {
      if Drop(s.amounts) > 0.0 && !HasRows(rows, s.account.0) {
        LossIsGrouped(invs, us, snaps, s.account.0);
        var h :| h in Groups(invs, us, snaps) && KeyOf(h) == (s.account.0, "balance.snapshot");
        assert KeyOf(h).0 != RowKey(r).0;
      }
    }
  }

  /** The reported currency is that of every amount added exactly when they are all in one currency, and that is yuan
      or the key of some row sorts before those of all providers that are known by a loss of balance alone: such a
      provider is reported in yuan, and the first line names the currency of the report. */
  lemma {:induction false} ReportedCurrencyExactly(invs: seq<Invocation>, us: seq<Usage>, snaps: seq<Snapshot>)
    ensures AllIn(invs, us, snaps, Reconcile(invs, us, snaps).currency) <==>
            exists c :: AllIn(invs, us, snaps, c) && (c == "CNY" || RowLeads(Join(invs, us), snaps))
  {
    var r := Reconcile(invs, us, snaps);
    if RowLeads(Join(invs, us), snaps) { LeadingRow(invs, us, snaps); }
    if r.lines != [] {
      LineCurrency(invs, us, snaps, r.lines[0]);
      if Invoked(invs, us, r.lines[0]) { LeadingLine(invs, us, snaps); }
    }
    if AllIn(invs, us, snaps, r.currency) { assert r.currency == "CNY" || RowLeads(Join(invs, us), snaps); }
    if c :| AllIn(invs, us, snaps, c) && (c == "CNY" || RowLeads(Join(invs, us), snaps)) {
      assert r.currency == c;
    }
  }

  lemma {:induction false} OneLoss(p: string, was: real, now: real)
    requires was > now
    ensures var snaps := [Snapshot(p, None, "USD", Some(was)), Snapshot(p, None, "USD", Some(now))];
            && Collect(snaps) == [Series((p, None, "USD"), [was, now])]
            && BalanceCosts(snaps) == [Cost(p, was - now)] && AddedAll([], BalanceCosts(snaps)) == was - now
  {
    var a, b := Snapshot(p, None, "USD", Some(was)), Snapshot(p, None, "USD", Some(now));
    var one, two := Series((p, None, "USD"), [was]), Series((p, None, "USD"), [was, now]);
    assert [a, b][..1] == [a] && [a][..0] == [];
    assert Collect([a]) == [one];
    assert [was] + [now] == [was, now];
    assert Collect([a, b]) == [two];
    assert [two][..0] == [] && Drop(two.amounts) == was - now;
    assert Costs([two]) == AddCost([], p, was - now) == [Cost(p, was - now)];
    assert [Cost(p, was - now)][..0] == [];
  }

  /** A provider with a dollar balance and no invocation: what it lost is reported in yuan. */
  lemma {:induction false} DollarsReportedInYuan(p: string, was: real, now: real)
    requires was > now
    ensures var snaps := [Snapshot(p, None, "USD", Some(was)), Snapshot(p, None, "USD", Some(now))];
            var r := Reconcile([], [], snaps);
            r.recorded == was - now && r.currency == "CNY" && AllIn([], [], snaps, "USD") && !AllIn([], [], snaps, "CNY")
  {
    var a, b := Snapshot(p, None, "USD", Some(was)), Snapshot(p, None, "USD", Some(now));
    OneLoss(p, was, now);
    assert Collect([a, b])[0] in Collect([a, b]);
    ReconciliationConserves([], [], [a, b]);
    var r := Reconcile([], [], [a, b]);
    if r.lines != [] { LineCurrency([], [], [a, b], r.lines[0]); }
  }
}
