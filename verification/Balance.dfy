/** Provider balances shown once per account. */
module Balance {
  import opened Results
  import opened Text
  import opened Sorting

  datatype Status = Available | Pending | Unconfigured | Unauthorized | Failed | Unsupported

  datatype Item = Item(
    provider: string, group: Option<string>, status: Status, balance: Option<real>, quota: Option<real>, checkedAt: int)

  predicate IsSandbox(provider: string) {
    var v := Lower(provider);
    v == "sandbox" || StartsWith(v, "sandbox.") || StartsWith(v, "sandbox-")
  }

  predicate Matches(provider: string, prefix: string) {
    Lower(provider) == prefix || StartsWith(Lower(provider), prefix + ".")
  }

  const ALIYUN := "aliyun.billing"
  const VOLCENGINE := "volcengine.billing"

  predicate IsAliyun(p: string) { Matches(p, "aliyun") || Matches(p, "dashscope") || Matches(p, "qwen") || Matches(p, "bailian") }
  predicate IsVolcengine(p: string) { Matches(p, "volcengine") || Matches(p, "volc") || Matches(p, "ark") }

  function Canonical(p: string): string {
    if IsAliyun(p) then ALIYUN else if IsVolcengine(p) then VOLCENGINE else p
  }

  function SharedGroup(p: string): Option<string> {
    if Canonical(p) == ALIYUN then Some("aliyun.shared") else if Canonical(p) == VOLCENGINE then Some("volcengine.shared") else None
  }

  predicate HasValue(i: Item) { i.balance.Some? || i.quota.Some? }

  function Normalize(i: Item): Item {
    var shared := SharedGroup(i.provider);
    var group :=
      if shared.Some? then shared
      else if (i.status.Unsupported? || i.status.Unconfigured?) && !HasValue(i) then None
      else i.group;
    i.(provider := Canonical(i.provider), group := group)
  }

  function Rank(s: Status): int {
    match s
    case Available => 0
    case Pending => 10
    case Unconfigured => 20
    case Unauthorized => 30
    case Failed => 40
    case Unsupported => 50
  }

  predicate Better(a: Item, b: Item) {
    if Rank(a.status) != Rank(b.status) then Rank(a.status) < Rank(b.status)
    else if HasValue(a) != HasValue(b) then HasValue(a)
    else a.checkedAt > b.checkedAt
  }

  /** An empty group is falsy. */
  function GroupOr(group: Option<string>, other: string): string {
    if group.Some? && group.value != "" then group.value else other
  }

  function KeyOf(i: Item): Key { (i.provider, GroupOr(i.group, "default")) }
  function SortKey(i: Item): Key { (i.provider, GroupOr(i.group, "")) }

  /** The grouped dictionary, as its values in insertion order: one value per key. */
  function Put(g: seq<Item>, i: Item): seq<Item> {
    if g == [] then [i]
    else if KeyOf(g[0]) == KeyOf(i) then [if Better(i, g[0]) then i else g[0]] + g[1..]
    else [g[0]] + Put(g[1..], i)
  }

  function Take(g: seq<Item>, i: Item): seq<Item> {
    var n := Normalize(i);
    if IsSandbox(n.provider) then g else Put(g, n)
  }

  function Group(g: seq<Item>, items: seq<Item>): seq<Item>
    decreases |items|
  {
    if items == [] then g else Group(Take(g, items[0]), items[1..])
  }

  function Coalesce(items: seq<Item>): seq<Item> { Sorted(Group([], items), SortKey) }

  method CoalesceBalanceItems(items: seq<Item>) returns (rows: seq<Item>)
    ensures rows == Coalesce(items)
  {
    var grouped: seq<Item> := [];
    for n := 0 to |items|
      invariant Group([], items) == Group(grouped, items[n..])
    {
      assert items[n..][0] == items[n] && items[n..][1..] == items[n + 1..];
      var i := Normalize(items[n]);
      if !IsSandbox(i.provider) { grouped := Put(grouped, i); }
    }
    rows := Sorted(grouped, SortKey);
  }
}
