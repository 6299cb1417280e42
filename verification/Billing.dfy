/** Billing reconciliation: invocation costs grouped, with balance snapshots as a fallback. */
module Billing {
  import opened Results
  import opened Sorting

  datatype Unit = Call | InputToken | OutputToken | MediaSecond | OtherUnit

  datatype Price = Price(unit: Unit, amount: real, currency: string)

  /** A usage record; raw is the cost its provider reported, if any, in a currency if it is money. */
  datatype Usage = Usage(
    invocation: string, inputs: nat, outputs: nat, audio: real, video: real, raw: Option<real>, rawCurrency: Option<string>)

  /** currency is that of the estimate, paid that of the actual cost. */
  datatype Invocation = Invocation(
    id: string, provider: string, capability: string, estimated: real, currency: string, actual: Option<real>, paid: string,
    price: Option<Price>)

  /** A joined row: an invocation with one of its usage records, or with none. */
  datatype Row = Row(invocation: Invocation, usage: Option<Usage>)

  datatype Group = Group(provider: string, capability: string, estimated: real, recorded: real, currency: string)

  function Quantity(u: Usage, unit: Unit): real {
    match unit
    case InputToken => u.inputs as real
    case OutputToken => u.outputs as real
    case MediaSecond => u.audio + u.video
    case _ => 0.0
  }

  function UsageCost(u: Option<Usage>, p: Option<Price>): real {
    if p.Some? && p.value.unit.Call? then p.value.amount
    else if p.Some? && u.Some? then p.value.amount * Quantity(u.value, p.value.unit)
    else if u.Some? && u.value.raw.Some? then u.value.raw.value
    else 0.0
  }

  function Recorded(r: Row): real {
    if r.invocation.actual.Some? then r.invocation.actual.value else UsageCost(r.usage, r.invocation.price)
  }

  // ---- the outer join -----------------------------------------------------

  function UsagesOf(us: seq<Usage>, id: string): seq<Usage> {
    if us == [] then [] else (if us[0].invocation == id then [us[0]] else []) + UsagesOf(us[1..], id)
  }

  function RowsOf(i: Invocation, us: seq<Usage>): seq<Row> {
    if us == [] then [Row(i, None)] else seq(|us|, (n: nat) requires n < |us| => Row(i, Some(us[n])))
  }

  /** Every invocation appears once for each of its usage records, and once if it has none. */
  function Join(invs: seq<Invocation>, us: seq<Usage>): seq<Row> {
    if invs == [] then [] else RowsOf(invs[0], UsagesOf(us, invs[0].id)) + Join(invs[1..], us)
  }

  // ---- grouping -----------------------------------------------------------

  function KeyOf(g: Group): Key { (g.provider, g.capability) }

  function RowKey(r: Row): Key { (r.invocation.provider, r.invocation.capability) }

  /** The groups dictionary, as its values in insertion order. */
  function AddRow(gs: seq<Group>, r: Row): seq<Group> {
    var i := r.invocation;
    if gs == [] then [Group(i.provider, i.capability, i.estimated, Recorded(r), i.currency)]
    else if KeyOf(gs[0]) == RowKey(r) then
      [gs[0].(estimated := gs[0].estimated + i.estimated, recorded := gs[0].recorded + Recorded(r))] + gs[1..]
    else [gs[0]] + AddRow(gs[1..], r)
  }

  function GroupRows(rs: seq<Row>): seq<Group> {
    if rs == [] then [] else AddRow(GroupRows(rs[..|rs| - 1]), rs[|rs| - 1])
  }

  // ---- balance snapshots --------------------------------------------------

  /** A snapshot, in the order the query gives: by provider, account group and time. */
  datatype Snapshot = Snapshot(provider: string, group: Option<string>, currency: string, amount: Option<real>)

  type Account = (string, Option<string>, string)

  datatype Series = Series(account: Account, amounts: seq<real>)

  function AccountOf(s: Snapshot): Account { (s.provider, s.group, s.currency) }

  predicate Usable(s: Snapshot) { s.amount.Some? && s.currency != "" }

  function AddSnapshot(ss: seq<Series>, s: Snapshot): seq<Series> {
    if !Usable(s) then ss
    else if ss == [] then [Series(AccountOf(s), [s.amount.value])]
    else if ss[0].account == AccountOf(s) then [ss[0].(amounts := ss[0].amounts + [s.amount.value])] + ss[1..]
    else [ss[0]] + AddSnapshot(ss[1..], s)
  }

  function Collect(snaps: seq<Snapshot>): seq<Series> {
    if snaps == [] then [] else AddSnapshot(Collect(snaps[..|snaps| - 1]), snaps[|snaps| - 1])
  }

  /** What an account lost between its first and its last snapshot. */
  function Drop(amounts: seq<real>): real {
    if |amounts| < 2 || amounts[0] <= amounts[|amounts| - 1] then 0.0 else amounts[0] - amounts[|amounts| - 1]
  }

  datatype Cost = Cost(provider: string, amount: real)

  function AddCost(cs: seq<Cost>, provider: string, amount: real): seq<Cost> {
    if cs == [] then [Cost(provider, amount)]
    else if cs[0].provider == provider then [cs[0].(amount := cs[0].amount + amount)] + cs[1..]
    else [cs[0]] + AddCost(cs[1..], provider, amount)
  }

  function Costs(ss: seq<Series>): seq<Cost> {
    if ss == [] then []
    else
      var front, s := Costs(ss[..|ss| - 1]), ss[|ss| - 1];
      if Drop(s.amounts) > 0.0 then AddCost(front, s.account.0, Drop(s.amounts)) else front
  }

  function BalanceCosts(snaps: seq<Snapshot>): seq<Cost> { Costs(Collect(snaps)) }

  // ---- the fallback -------------------------------------------------------

  function GroupsOf(gs: seq<Group>, p: string): seq<Group> {
    if gs == [] then [] else (if gs[0].provider == p then [gs[0]] else []) + GroupsOf(gs[1..], p)
  }

  function RecordedSum(gs: seq<Group>): real { if gs == [] then 0.0 else gs[0].recorded + RecordedSum(gs[1..]) }

  function EstimatedSum(gs: seq<Group>): real { if gs == [] then 0.0 else gs[0].estimated + EstimatedSum(gs[1..]) }

  /** Recording an amount on the first group of a provider. */
  function SetFirst(gs: seq<Group>, p: string, amount: real): seq<Group> {
    if gs == [] then [] else if gs[0].provider == p then [gs[0].(recorded := amount)] + gs[1..] else [gs[0]] + SetFirst(gs[1..], p, amount)
  }

  /** One provider's balance cost: used when nothing was invoked, or when a single group recorded nothing. own
      is what the groups were before any fallback. */
  function ApplyCost(gs: seq<Group>, own: seq<Group>, c: Cost): seq<Group> {
    var mine := GroupsOf(own, c.provider);
    if mine == [] then gs + [Group(c.provider, "balance.snapshot", 0.0, c.amount, "CNY")]
    else if |mine| == 1 && RecordedSum(GroupsOf(gs, c.provider)) == 0.0 then SetFirst(gs, c.provider, c.amount)
    else gs
  }

  function Fallback(own: seq<Group>, cs: seq<Cost>): seq<Group> {
    if cs == [] then own else ApplyCost(Fallback(own, cs[..|cs| - 1]), own, cs[|cs| - 1])
  }

  // ---- the report ---------------------------------------------------------

  datatype Line = Line(provider: string, capability: string, estimated: real, recorded: real, variance: real, currency: string)

  /** An empty currency is falsy. */
  function Label(currency: string): string { if currency != "" then currency else "CNY" }

  function LineOf(g: Group): Line {
    Line(g.provider, g.capability, g.estimated, g.recorded, g.recorded - g.estimated, Label(g.currency))
  }

  function Lines(gs: seq<Group>): seq<Line> {
    if gs == [] then [] else [LineOf(gs[0])] + Lines(gs[1..])
  }

  function TotalEstimated(ls: seq<Line>): real { if ls == [] then 0.0 else ls[0].estimated + TotalEstimated(ls[1..]) }
  function TotalRecorded(ls: seq<Line>): real { if ls == [] then 0.0 else ls[0].recorded + TotalRecorded(ls[1..]) }
  function TotalVariance(ls: seq<Line>): real { if ls == [] then 0.0 else ls[0].variance + TotalVariance(ls[1..]) }

  datatype Report = Report(estimated: real, recorded: real, variance: real, currency: string, lines: seq<Line>)

  function Groups(invs: seq<Invocation>, us: seq<Usage>, snaps: seq<Snapshot>): seq<Group> {
    Fallback(GroupRows(Join(invs, us)), BalanceCosts(snaps))
  }

  function ReportOf(ls: seq<Line>): Report {
    Report(TotalEstimated(ls), TotalRecorded(ls), TotalRecorded(ls) - TotalEstimated(ls), if ls == [] then "CNY" else ls[0].currency, ls)
  }

  function Reconcile(invs: seq<Invocation>, us: seq<Usage>, snaps: seq<Snapshot>): Report {
    ReportOf(Lines(Sorted(Groups(invs, us, snaps), KeyOf)))
  }

  // ---- the loops ----------------------------------------------------------

  method GroupInvocations(rows: seq<Row>) returns (groups: seq<Group>)
    ensures groups == GroupRows(rows)
  {
    groups := [];
    for n := 0 to |rows|
      invariant groups == GroupRows(rows[..n])
    {
      assert rows[..n + 1][..n] == rows[..n];
      groups := AddRow(groups, rows[n]);
    }
    assert rows[..|rows|] == rows;
  }

  method BalanceActualCosts(snaps: seq<Snapshot>) returns (totals: seq<Cost>)
    ensures totals == BalanceCosts(snaps)
  {
    var series: seq<Series> := [];
    for n := 0 to |snaps|
      invariant series == Collect(snaps[..n])
    {
      assert snaps[..n + 1][..n] == snaps[..n];
      if Usable(snaps[n]) { series := AddSnapshot(series, snaps[n]); }
    }
    assert snaps[..|snaps|] == snaps;
    totals := [];
    for n := 0 to |series|
      invariant totals == Costs(series[..n])
    {
      assert series[..n + 1][..n] == series[..n];
      var amounts := series[n].amounts;
      if |amounts| < 2 { continue; }
      var delta := amounts[0] - amounts[|amounts| - 1];
      if delta > 0.0 { totals := AddCost(totals, series[n].account.0, delta); }
    }
    assert series[..|series|] == series;
  }

  method ApplyFallback(own: seq<Group>, costs: seq<Cost>) returns (groups: seq<Group>)
    ensures groups == Fallback(own, costs)
  {
    groups := own;
    for n := 0 to |costs|
      invariant groups == Fallback(own, costs[..n])
    {
      assert costs[..n + 1][..n] == costs[..n];
      var c := costs[n];
      var mine := GroupsOf(own, c.provider);
      if mine == [] {
        groups := groups + [Group(c.provider, "balance.snapshot", 0.0, c.amount, "CNY")];
      } else {
        var recorded := RecordedSum(GroupsOf(groups, c.provider));
        if recorded == 0.0 && |mine| == 1 { groups := SetFirst(groups, c.provider, c.amount); }
      }
    }
    assert costs[..|costs|] == costs;
  }

  method LineItems(groups: seq<Group>) returns (lines: seq<Line>, estimated: real, recorded: real)
    ensures lines == Lines(Sorted(groups, KeyOf))
    ensures estimated == TotalEstimated(lines) && recorded == TotalRecorded(lines)
  {
    var sorted := Sorted(groups, KeyOf);
    lines, estimated, recorded := [], 0.0, 0.0;
    for n := 0 to |sorted|
      invariant lines + Lines(sorted[n..]) == Lines(sorted)
    {
      assert sorted[n..][0] == sorted[n] && sorted[n..][1..] == sorted[n + 1..];
      lines := lines + [LineOf(sorted[n])];
    }
    for n := 0 to |lines|
      invariant estimated + TotalEstimated(lines[n..]) == TotalEstimated(lines)
      invariant recorded + TotalRecorded(lines[n..]) == TotalRecorded(lines)
    {
      assert lines[n..][0] == lines[n] && lines[n..][1..] == lines[n + 1..];
      estimated := estimated + lines[n].estimated;
      recorded := recorded + lines[n].recorded;
    }
  }

  method ComputeBillingReconciliation(invs: seq<Invocation>, us: seq<Usage>, snaps: seq<Snapshot>) returns (report: Report)
    ensures report == Reconcile(invs, us, snaps)
  {
    var groups := GroupInvocations(Join(invs, us));
    var costs := BalanceActualCosts(snaps);
    groups := ApplyFallback(groups, costs);
    assert groups == Groups(invs, us, snaps);
    var lines, estimated, recorded := LineItems(groups);
    report := Report(estimated, recorded, recorded - estimated, if lines == [] then "CNY" else lines[0].currency, lines);
    assert report == ReportOf(lines);
  }
}
