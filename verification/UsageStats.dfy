/** How internal/node turns the core's statistics into counters: fetchUserInboundStats,
    fetchGroupedStats and currentUsageCounters. */
module UsageStats {
  import opened Common
  import opened StatName
  import opened UsageStore
  import L = Listeners
  import F = Forwarding

  datatype Stat = Stat(name: string, value: nat)

  datatype Totals = Totals(name: string, inbound: string, up: nat, down: nat)

  const MARKER := ">>>traffic>>>"

  /** Where the last occurrence of the marker starts. */
  function LastIndex(s: string, from: nat): (r: Option<nat>)
    requires from <= |s|
    ensures r.Some? ==> from >= r.value && r.value + |MARKER| <= |s| && s[r.value..r.value + |MARKER|] == MARKER
  {
    if from + |MARKER| <= |s| && s[from..from + |MARKER|] == MARKER then Some(from)
    else if from == 0 then None
    else LastIndex(s, from - 1)
  }

  /** The name and direction (true for uplink) of a traffic statistic of a kind. */
  function Parsed(stat: Stat, kind: string): Option<(string, bool)> {
    var prefix := kind + ">>>";
    if |stat.name| < |prefix| || stat.name[..|prefix|] != prefix then None
    else Directed(stat.name[|prefix|..])
  }

  function Directed(rest: string): Option<(string, bool)> {
    match LastIndex(rest, |rest|)
    case None => None
    case Some(i) =>
      var direction := rest[i + |MARKER|..];
      if i == 0 then None
      else if direction == "uplink" then Some((rest[..i], true))
      else if direction == "downlink" then Some((rest[..i], false))
      else None
  }

  lemma MarkerNotLater(name: string, direction: string, from: nat)
    requires |name| < from && |direction| <= 8 && from + |MARKER| <= |name + MARKER + direction|
    ensures (name + MARKER + direction)[from..from + |MARKER|] != MARKER
  {
    var rest := name + MARKER + direction;
    var o := from - |name|;
    assert MARKER[0] == '>' && MARKER[1] == '>' && MARKER[2] == '>';
    assert rest[from] == MARKER[o] && (o < 3 ==> rest[from + 3 - o] == MARKER[3]);
    assert rest[from] != '>' || rest[from + 3 - o] != '>';
    assert rest[from..from + |MARKER|][0] == rest[from];
    assert o < 3 ==> rest[from..from + |MARKER|][3 - o] == rest[from + 3 - o];
  }

  lemma {:induction false} MarkerIsLast(name: string, direction: string, from: nat)
    requires |name| <= from <= |name + MARKER + direction| && |direction| <= 8
    ensures LastIndex(name + MARKER + direction, from) == Some(|name|)
  {
    var rest := name + MARKER + direction;
    if from == |name| {
      assert rest[from..from + |MARKER|] == MARKER;
    } else {
      MarkerIsLast(name, direction, from - 1);
      if from + |MARKER| <= |rest| {
        MarkerNotLater(name, direction, from);
      }
    }
  }

  lemma DirectedIff(rest: string, name: string, uplink: bool)
    ensures Directed(rest) == Some((name, uplink)) <==>
            name != "" && rest == name + MARKER + if uplink then "uplink" else "downlink"
  {
    var direction := if uplink then "uplink" else "downlink";
    if name != "" && rest == name + MARKER + direction {
      MarkerIsLast(name, direction, |rest|);
      assert rest[..|name|] == name && rest[|name| + |MARKER|..] == direction;
      assert |"uplink"| != |"downlink"|;
    }
    if Directed(rest) == Some((name, uplink)) {
      var i := LastIndex(rest, |rest|).value;
      assert rest == rest[..i] + rest[i..i + |MARKER|] + rest[i + |MARKER|..];
    }
  }

  /** A statistic belongs to a name and a direction exactly when it is called so. */
  lemma ParsedIff(stat: Stat, kind: string, name: string, uplink: bool)
    ensures Parsed(stat, kind) == Some((name, uplink)) <==>
            name != "" && stat.name == kind + ">>>" + (name + ">>>traffic>>>" + if uplink then "uplink" else "downlink")
  {
    var prefix := kind + ">>>";
    var rest := name + MARKER + if uplink then "uplink" else "downlink";
    if |stat.name| >= |prefix| && stat.name[..|prefix|] == prefix {
      assert stat.name == prefix + stat.name[|prefix|..];
      DirectedIff(stat.name[|prefix|..], name, uplink);
    }
    assert (prefix + rest)[..|prefix|] == prefix && (prefix + rest)[|prefix|..] == rest;
  }

  /** Users are split into name and inbound; inbounds and outbounds go by their tag. */
  function Split(raw: string, users: bool): (string, string) {
    if !users then (raw, "")
    else match ParseUserInbound(raw) case Some((user, inbound)) => (user, inbound) case None => (raw, "")
  }

  function GroupKey(fields: (string, string),
                    users: bool): string { if users then fields.0 + [NUL] + fields.1 else fields.0 }

  function Grouped(stats: seq<Stat>, kind: string, users: bool): map<string, Totals> {
    if stats == [] then map[]
    else
      var grouped, stat := Grouped(stats[..|stats| - 1], kind, users), stats[|stats| - 1];
      match Parsed(stat, kind)
      case None => grouped
      case Some((raw, uplink)) => Grown(grouped, Split(raw, users), users, uplink, stat.value)
  }

  function Grown(grouped: map<string, Totals>, fields: (string, string), users: bool, uplink: bool,
                 value: nat): map<string, Totals> {
    var key := GroupKey(fields, users);
    var item := if key in grouped then grouped[key] else Totals(fields.0, fields.1, 0, 0);
    grouped[key := if uplink then item.(up := item.up + value) else item.(down := item.down + value)]
  }

  method Add(grouped: map<string, Totals>, fields: (string, string), users: bool, uplink: bool, value: nat)
    returns (grown: map<string, Totals>)
    ensures grown == Grown(grouped, fields, users, uplink, value)
  {
    var key := GroupKey(fields, users);
    grown := grouped;
    if key !in grown {
      grown := grown[key := Totals(fields.0, fields.1, 0, 0)];
    }
    var item := grown[key];
    grown := grown[key := if uplink then item.(up := item.up + value) else item.(down := item.down + value)];
  }

  method FetchStats(stats: seq<Stat>, kind: string, users: bool) returns (grouped: map<string, Totals>)
    ensures grouped == Grouped(stats, kind, users)
  {
    grouped := map[];
    for i := 0 to |stats|
      invariant grouped == Grouped(stats[..i], kind, users)
    {
      assert stats[..i + 1][..i] == stats[..i];
      var parsed := Parsed(stats[i], kind);
      if parsed.Some? {
        grouped := Add(grouped, Split(parsed.value.0, users), users, parsed.value.1, stats[i].value);
      }
    }
    assert stats[..|stats|] == stats;
  }

  /** The bytes of a kind's statistics in one direction. */
  function Carried(stats: seq<Stat>, kind: string, uplink: bool): nat {
    if stats == [] then 0
    else
      var stat := stats[|stats| - 1];
      Carried(stats[..|stats| - 1], kind, uplink) +
      if Parsed(stat, kind).Some? && Parsed(stat, kind).value.1 == uplink then stat.value else 0
  }

  function Side(uplink: bool): Totals -> nat { (t: Totals) => if uplink then t.up else t.down }

  /** Every group is filed under its own key, and no byte is lost or counted twice. */
  lemma {:induction false} GroupingConserves(stats: seq<Stat>, kind: string, users: bool, uplink: bool)
    ensures var grouped := Grouped(stats, kind, users);
            && (forall k :: k in grouped ==>
                GroupKey((grouped[k].name, grouped[k].inbound), users) == k && (users || grouped[k].inbound == ""))
            && Total(grouped, Side(uplink)) == Carried(stats, kind, uplink)
  {
    if stats != [] {
      var front, stat := stats[..|stats| - 1], stats[|stats| - 1];
      GroupingConserves(front, kind, users, uplink);
      if Parsed(stat, kind).Some? {
        var (raw, up) := Parsed(stat, kind).value;
        var fields := Split(raw, users);
        var key := GroupKey(fields, users);
        var grouped := Grouped(front, kind, users);
        var grown := Grown(grouped, fields, users, up, stat.value);
        assert grown == grouped[key := grown[key]];
        TotalPut(grouped, key, grown[key], Side(uplink));
      }
    }
  }

  /** The group a statistic falls into. */
  function GroupOf(stat: Stat, kind: string, users: bool): Option<string> {
    match Parsed(stat, kind)
    case None => None
    case Some((raw, _)) => Some(GroupKey(Split(raw, users), users))
  }

  /** Names that share a group are added up, and the sum is billed under the first of them: what names
      with NUL bytes can cost is attribution, never bytes. */
  lemma {:induction false} FirstNameWins(stats: seq<Stat>, kind: string, users: bool, k: string) returns (i: nat)
    requires k in Grouped(stats, kind, users)
    ensures i < |stats| && GroupOf(stats[i], kind, users) == Some(k)
    ensures forall j :: 0 <= j < i ==> GroupOf(stats[j], kind, users) != Some(k)
    ensures var t := Grouped(stats, kind, users)[k]; (t.name, t.inbound) == Split(Parsed(stats[i], kind).value.0, users)
  {
    var front, n := stats[..|stats| - 1], |stats| - 1;
    if k in Grouped(front, kind, users) {
      i := FirstNameWins(front, kind, users, k);
      assert front[i] == stats[i];
    } else {
      i := n;
      forall j | 0 <= j < n ensures GroupOf(stats[j], kind, users) != Some(k) {
        assert front[j] == stats[j];
        if GroupOf(front[j], kind, users) == Some(k) {
          StatIsGrouped(front, kind, users, j);
        }
      }
    }
  }

  lemma {:induction false} StatIsGrouped(stats: seq<Stat>, kind: string, users: bool, j: nat)
    requires j < |stats| && GroupOf(stats[j], kind, users).Some?
    ensures GroupOf(stats[j], kind, users).value in Grouped(stats, kind, users)
  {
    if j < |stats| - 1 {
      StatIsGrouped(stats[..|stats| - 1], kind, users, j);
    }
  }

  /** The bytes a group's statistics report in one direction. */
  function OwnBytes(stats: seq<Stat>, kind: string, users: bool, k: string, uplink: bool): nat {
    if stats == [] then 0
    else
      var stat := stats[|stats| - 1];
      OwnBytes(stats[..|stats| - 1], kind, users, k, uplink) +
      if GroupOf(stat, kind, users) == Some(k) && Parsed(stat, kind).value.1 == uplink then stat.value else 0
  }

  /** Every byte is counted in the group of its own statistic. */
  lemma {:induction false} GroupsHoldTheirOwnBytes(stats: seq<Stat>, kind: string, users: bool, k: string)
    ensures var grouped := Grouped(stats, kind, users);
            if k in grouped then grouped[k].up == OwnBytes(stats, kind, users, k, true)
                && grouped[k].down == OwnBytes(stats, kind, users, k, false)
            else OwnBytes(stats, kind, users, k, true) == OwnBytes(stats, kind, users, k, false) == 0
  {
    if stats != [] {
      GroupsHoldTheirOwnBytes(stats[..|stats| - 1], kind, users, k);
    }
  }

  // ---------------------------------------------------------------- one counter per key

  function CounterOf(kind: string, t: Totals, uplink: bool): Counter
    requires t.up <= INT64_MAX && t.down <= INT64_MAX
  {
    Counter(kind, t.name, t.inbound, "", "", if uplink then "uplink" else "downlink", if uplink then t.up else t.down)
  }

  predicate Fits(grouped: map<string,
                 Totals>) { forall k :: k in grouped ==> grouped[k].up <= INT64_MAX && grouped[k].down <= INT64_MAX }

  ghost predicate Filed(grouped: map<string, Totals>, users: bool) {
    Fits(grouped) && forall k :: k in grouped ==>
        GroupKey((grouped[k].name, grouped[k].inbound), users) == k && (users || grouped[k].inbound == "")
  }

  function GroupPart(k: string, users: bool): string { if users then k else k + [NUL] }

  lemma KeyOfCounter(kind: string, t: Totals, uplink: bool, users: bool)
    requires kind != "forwarding" && t.up <= INT64_MAX && t.down <= INT64_MAX && (users || t.inbound == "")
    ensures Key(CounterOf(kind, t, uplink)) ==
            kind + [NUL] + GroupPart(GroupKey((t.name, t.inbound), users), users) + [NUL]
                + (if uplink then "uplink" else "downlink")
  {
    var d := if uplink then "uplink" else "downlink";
    if users {
      assert kind + [NUL] + (t.name + [NUL] + t.inbound) + [NUL] + d ==
               kind + [NUL] + t.name + [NUL] + t.inbound + [NUL] + d;
    } else {
      assert t.inbound == "";
      assert kind + [NUL] + (t.name + [NUL]) + [NUL] + d == kind + [NUL] + t.name + [NUL] + "" + [NUL] + d;
    }
  }

  /** The direction is the text after the last NUL, so keys of one kind agree only for one group and direction. */
  lemma SameCounterKey(kind: string, a: string, b: string, up: bool, up': bool)
    requires kind + [NUL] + a + [NUL] + (if up then "uplink" else "downlink") ==
               kind + [NUL] + b + [NUL] + (if up' then "uplink" else "downlink")
    ensures a == b && up == up'
  {
    var d, d' := if up then "uplink" else "downlink", if up' then "uplink" else "downlink";
    var s, s' := kind + [NUL] + a + [NUL] + d, kind + [NUL] + b + [NUL] + d';
    assert s[|s| - 7] == if up then NUL else 'o';
    assert s'[|s'| - 7] == if up' then NUL else 'o';
    assert up == up';
    assert a == s[|kind| + 1..|s| - |d| - 1] && b == s'[|kind| + 1..|s'| - |d'| - 1];
  }

  /** The groups in the order they are reported in: each key once. */
  ghost predicate Orders(order: seq<string>, grouped: map<string, Totals>) {
    (forall k :: k in grouped <==> k in order) && forall i, j :: 0 <= i < j < |order| ==> order[i] != order[j]
  }

  /** Both directions of every group. */
  function Listing(order: seq<string>, kind: string, grouped: map<string, Totals>): (counters: seq<Counter>)
    requires Fits(grouped) && forall i :: 0 <= i < |order| ==> order[i] in grouped
    ensures |counters| == 2 * |order|
    ensures forall i :: 0 <= i < |order| ==> counters[2 * i] == CounterOf(kind, grouped[order[i]], true)
    ensures forall i :: 0 <= i < |order| ==> counters[2 * i + 1] == CounterOf(kind, grouped[order[i]], false)
  {
    if order == [] then []
    else
      var t := grouped[order[|order| - 1]];
      Listing(order[..|order| - 1], kind, grouped) + [CounterOf(kind, t, true), CounterOf(kind, t, false)]
  }

  method ListCounters(order: seq<string>, kind: string, grouped: map<string, Totals>) returns (counters: seq<Counter>)
    requires Fits(grouped) && forall i :: 0 <= i < |order| ==> order[i] in grouped
    ensures counters == Listing(order, kind, grouped)
  {
    counters := [];
    for i := 0 to |order|
      invariant counters == Listing(order[..i], kind, grouped)
    {
      assert order[..i + 1][..i] == order[..i];
      counters := counters + [CounterOf(kind, grouped[order[i]], true)];
      counters := counters + [CounterOf(kind, grouped[order[i]], false)];
    }
    assert order[..|order|] == order;
  }

  lemma CounterKeysDiffer(kind: string, grouped: map<string, Totals>, users: bool, k: string, up: bool, k': string,
                          up': bool)
    requires kind != "forwarding" && Filed(grouped, users) && k in grouped && k' in grouped && (k != k' || up != up')
    ensures Key(CounterOf(kind, grouped[k], up)) != Key(CounterOf(kind, grouped[k'], up'))
  {
    KeyOfCounter(kind, grouped[k], up, users);
    KeyOfCounter(kind, grouped[k'], up', users);
    PartsDiffer(k, k', users);
    if Key(CounterOf(kind, grouped[k], up)) == Key(CounterOf(kind, grouped[k'], up')) {
      SameCounterKey(kind, GroupPart(k, users), GroupPart(k', users), up, up');
    }
  }

  lemma PartsDiffer(k: string, k': string, users: bool)
    ensures k != k' ==> GroupPart(k, users) != GroupPart(k', users)
  {
    assert (k + [NUL])[..|k|] == k && (k' + [NUL])[..|k'|] == k';
  }

  lemma ListingAt(order: seq<string>, kind: string, grouped: map<string, Totals>, i: nat)
    requires Fits(grouped) && (forall j :: 0 <= j < |order| ==> order[j] in grouped) && i < 2 * |order|
    ensures Listing(order, kind, grouped)[i] == CounterOf(kind, grouped[order[i / 2]], i % 2 == 0)
  {
    assert i == 2 * (i / 2) || i == 2 * (i / 2) + 1;
  }

  /** One counter per key, whatever names the core uses. */
  lemma ListingIsDistinct(order: seq<string>, kind: string, grouped: map<string, Totals>, users: bool)
    requires kind != "forwarding" && Filed(grouped, users) && Orders(order, grouped)
    ensures DistinctKeys(Listing(order, kind, grouped)) && OneKind(Listing(order, kind, grouped), kind)
  {
    var counters := Listing(order, kind, grouped);
    forall i, j | 0 <= i < j < |counters| ensures Key(counters[i]) != Key(counters[j]) {
      ListingAt(order, kind, grouped, i);
      ListingAt(order, kind, grouped, j);
      CounterKeysDiffer(kind, grouped, users, order[i / 2], i % 2 == 0, order[j / 2], j % 2 == 0);
    }
    forall i | 0 <= i < |counters| ensures counters[i].kind == kind {
      ListingAt(order, kind, grouped, i);
    }
  }

  // ---------------------------------------------------------------- forwarding counters

  function Names(protocol: L.Transport): seq<string> {
    match protocol
    case TCP => ["tcp"]
    case UDP => ["udp"]
    case _ => ["tcp", "udp"]
  }

  function ForwardingCounter(id: string, protocol: string, scope: string, uplink: bool, value: UInt64): Counter {
    Counter("forwarding", id, "", protocol, scope, if uplink then "uplink" else "downlink",
        if value > INT64_MAX then INT64_MAX else value)
  }

  lemma ForwardingKey(c: Counter)
    requires c.kind == "forwarding"
    ensures Key(c) == "forwarding" + [NUL] + (c.name + [NUL] + c.protocol + [NUL] + c.scope) + [NUL] + c.direction
  {
  }

  lemma SplitName(a: string, b: string, p: string, q: string, scope: string)
    requires |p| == |q| == 3 && a + [NUL] + p + [NUL] + scope == b + [NUL] + q + [NUL] + scope
    ensures a == b && p == q
  {
    var s, t := a + [NUL] + p + [NUL] + scope, b + [NUL] + q + [NUL] + scope;
    var n := |s| - |scope| - 5;
    assert a == s[..n] && b == t[..n];
    assert p == s[n + 1..n + 4] && q == t[n + 1..n + 4];
  }

  lemma SameForwardingKey(a: Counter, b: Counter, up: bool, up': bool)
    requires a.kind == b.kind == "forwarding" && a.scope == b.scope && |a.protocol| == |b.protocol| == 3
    requires a.direction == (if up then "uplink" else "downlink")
    requires b.direction == (if up' then "uplink" else "downlink")
    requires Key(a) == Key(b)
    ensures a.name == b.name && a.protocol == b.protocol && up == up'
  {
    ForwardingKey(a);
    ForwardingKey(b);
    SameCounterKey("forwarding", a.name + [NUL] + a.protocol + [NUL] + a.scope,
        b.name + [NUL] + b.protocol + [NUL] + b.scope, up, up');
    SplitName(a.name, b.name, a.protocol, b.protocol, a.scope);
  }

  ghost predicate Wellformed(c: Counter, scope: string) {
    c.kind == "forwarding" && c.scope == scope && |c.protocol| == 3
        && (c.direction == "uplink" || c.direction == "downlink")
  }

  lemma DistinctForwarding(a: Counter, b: Counter, scope: string)
    requires Wellformed(a, scope) && Wellformed(b, scope)
    requires a.name != b.name || a.protocol != b.protocol || a.direction != b.direction
    ensures Key(a) != Key(b)
  {
    if Key(a) == Key(b) {
      SameForwardingKey(a, b, a.direction == "uplink", b.direction == "uplink");
    }
  }

  /** Counters of the rules so far. */
  ghost predicate FromRules(counters: seq<Counter>, names: set<string>, scope: string) {
    forall i :: 0 <= i < |counters| ==> Wellformed(counters[i], scope) && counters[i].name in names
  }

  ghost predicate DistinctIDs(rules: seq<F.Rule>) { forall i, j :: 0 <= i < j < |rules| ==> rules[i].id != rules[j].id }

  /** Both directions of every transport of a rule can be read. */
  predicate Readable(rule: F.Rule, read: (string, string, bool) -> Option<UInt64>) {
    forall i :: 0 <= i < |Names(rule.protocol)| ==> ReadableAt(rule.id, Names(rule.protocol)[i], read)
  }

  predicate ReadableAt(id: string, protocol: string, read: (string, string, bool) -> Option<UInt64>) {
    read(id, protocol, true).Some? && read(id, protocol, false).Some?
  }

  /** The counters of the first `n` transports of a rule. */
  function Own(rule: F.Rule, n: nat, scope: string, read: (string, string, bool) -> Option<UInt64>): seq<Counter>
    requires n <= |Names(rule.protocol)|
    requires forall i :: 0 <= i < n ==> ReadableAt(rule.id, Names(rule.protocol)[i], read)
  {
    if n == 0 then []
    else
      var p := Names(rule.protocol)[n - 1];
      assert ReadableAt(rule.id, p, read);
      Own(rule, n - 1, scope, read) +
      [ForwardingCounter(rule.id, p, scope, true, read(rule.id, p, true).value),
       ForwardingCounter(rule.id, p, scope, false, read(rule.id, p, false).value)]
  }

  ghost predicate AllReadable(rules: seq<F.Rule>, read: (string, string, bool) -> Option<UInt64>) {
    forall i :: 0 <= i < |rules| && rules[i].enabled ==> Readable(rules[i], read)
  }

  /** The counters of all enabled rules, in order. */
  ghost function Readout(rules: seq<F.Rule>, scope: string,
                         read: (string, string, bool) -> Option<UInt64>): seq<Counter>
    requires AllReadable(rules, read)
  {
    if rules == [] then []
    else
      var last := rules[|rules| - 1];
      Readout(rules[..|rules| - 1], scope, read) + if last.enabled then Own(last, |Names(last.protocol)|, scope, read)
          else []
  }

  method RuleCounters(rule: F.Rule, scope: string, read: (string, string, bool) -> Option<UInt64>)
    returns (r: Option<seq<Counter>>)
    ensures r.Some? <==> Readable(rule, read)
    ensures r.Some? ==> r.value == Own(rule, |Names(rule.protocol)|, scope, read)
  {
    var names := Names(rule.protocol);
    var counters: seq<Counter> := [];
    for i := 0 to |names|
      invariant forall k :: 0 <= k < i ==> ReadableAt(rule.id, names[k], read)
      invariant counters == Own(rule, i, scope, read)
    {
      var up, down := read(rule.id, names[i], true), read(rule.id, names[i], false);
      if up.None? || down.None? {
        assert !ReadableAt(rule.id, names[i], read);
        return None;
      }
      counters := counters + [ForwardingCounter(rule.id, names[i], scope, true, up.value),
          ForwardingCounter(rule.id, names[i], scope, false, down.value)];
    }
    return Some(counters);
  }

  lemma OwnDistinct(rule: F.Rule, scope: string, read: (string, string, bool) -> Option<UInt64>)
    requires Readable(rule, read)
    ensures var own := Own(rule, |Names(rule.protocol)|, scope, read);
            DistinctKeys(own) && FromRules(own, {rule.id}, scope)
  {
    var n := |Names(rule.protocol)|;
    var own := Own(rule, n, scope, read);
    assert Names(rule.protocol)[0] == "tcp" || Names(rule.protocol)[0] == "udp";
    if n == 1 {
      assert Own(rule, 0, scope, read) == [];
      DistinctForwarding(own[0], own[1], scope);
    } else {
      OwnTwo(rule, scope, read);
    }
  }

  lemma OwnTwo(rule: F.Rule, scope: string, read: (string, string, bool) -> Option<UInt64>)
    requires Names(rule.protocol) == ["tcp", "udp"]
    requires Readable(rule, read)
    ensures DistinctKeys(Own(rule, 2, scope, read)) && FromRules(Own(rule, 2, scope, read), {rule.id}, scope)
  {
    var own := Own(rule, 2, scope, read);
    var first := Own(rule, 1, scope, read);
    assert Own(rule, 0, scope, read) == [];
    assert |first| == 2 && own[..2] == first;
    forall i, j | 0 <= i < j < 4 ensures Key(own[i]) != Key(own[j]) {
      DistinctForwarding(own[i], own[j], scope);
    }
  }

  lemma DistinctConcat(a: seq<Counter>, b: seq<Counter>)
    requires DistinctKeys(a) && DistinctKeys(b)
    requires forall i, j :: 0 <= i < |a| && 0 <= j < |b| ==> Key(a[i]) != Key(b[j])
    ensures DistinctKeys(a + b)
  {
  }

  lemma RulesApart(a: seq<Counter>, names: set<string>, b: seq<Counter>, name: string, scope: string)
    requires FromRules(a, names, scope) && FromRules(b, {name}, scope) && name !in names
    requires DistinctKeys(a) && DistinctKeys(b)
    ensures DistinctKeys(a + b) && FromRules(a + b, names + {name}, scope)
  {
    forall i, j | 0 <= i < |a| && 0 <= j < |b| ensures Key(a[i]) != Key(b[j]) {
      DistinctForwarding(a[i], b[j], scope);
    }
    DistinctConcat(a, b);
  }

  lemma ReadoutNext(rules: seq<F.Rule>, i: nat, scope: string, read: (string, string, bool) -> Option<UInt64>)
    requires i < |rules| && AllReadable(rules[..i], read) && (rules[i].enabled ==> Readable(rules[i], read))
    ensures AllReadable(rules[..i + 1], read)
    ensures Readout(rules[..i + 1], scope, read) == Readout(rules[..i], scope, read) +
            if rules[i].enabled then Own(rules[i], |Names(rules[i].protocol)|, scope, read) else []
  {
    assert rules[..i + 1][..i] == rules[..i];
    assert forall k :: 0 <= k < i + 1 ==> rules[..i + 1][k] == rules[k];
    assert forall k :: 0 <= k < i ==> rules[..i][k] == rules[k];
  }

  /** The loop of UsageCounters over the applied rules. */
  method ReadRules(rules: seq<F.Rule>, scope: string, read: (string, string, bool) -> Option<UInt64>)
    returns (r: Option<seq<Counter>>)
    ensures r.Some? <==> AllReadable(rules, read)
    ensures r.Some? ==> r.value == Readout(rules, scope, read)
  {
    var counters: seq<Counter> := [];
    for i := 0 to |rules|
      invariant AllReadable(rules[..i], read) && counters == Readout(rules[..i], scope, read)
    {
      if rules[i].enabled {
        var own := RuleCounters(rules[i], scope, read);
        if own.None? {
          assert !Readable(rules[i], read);
          return None;
        }
        counters := counters + own.value;
      }
      ReadoutNext(rules, i, scope, read);
    }
    assert rules[..|rules|] == rules;
    return Some(counters);
  }

  /** The state the host reports for the applied rules. */
  datatype RuntimeState = Disabled | Applied | Degraded | Faulty

  /** UsageCounters: nothing while no rules are in effect, otherwise every counter of every enabled rule in
      order, or a failure when the counters or one of them cannot be read. */
  method UsageCounters(applied: F.Config, at: Option<string>, hash: string, state: RuntimeState,
                       values: Option<(string, string, bool) -> Option<UInt64>>)
    returns (r: Result<(seq<Counter>, bool), ()>)
    ensures var idle := !F.Active(applied) || at.None? || (state != Applied && state != Degraded);
            && (idle ==> r == Ok(([], false)))
            && (!idle ==> (r.Ok? <==> values.Some? && AllReadable(applied.rules, values.value)))
            && (!idle && r.Ok? ==> r.value == (Readout(applied.rules, hash + ":" + at.value, values.value), true))
  {
    var any := F.AnyEnabledRule(applied.rules);
    if !applied.enabled || !any || at.None? {
      return Ok(([], false));
    }
    if state != Applied && state != Degraded {
      return Ok(([], false));
    }
    if values.None? {
      return Err(());
    }
    var counters := ReadRules(applied.rules, hash + ":" + at.value, values.value);
    match counters
    case None => return Err(());
    case Some(list) => return Ok((list, true));
  }

  /** One forwarding counter per key, as long as rule IDs are distinct. */
  lemma {:induction false} ReadoutIsDistinct(rules: seq<F.Rule>, scope: string,
                                             read: (string, string, bool) -> Option<UInt64>)
    requires AllReadable(rules, read) && DistinctIDs(rules)
    ensures DistinctKeys(Readout(rules, scope, read)) && FromRules(Readout(rules, scope, read), IDs(rules), scope)
  {
    if rules != [] {
      var front, last := rules[..|rules| - 1], rules[|rules| - 1];
      assert forall k :: 0 <= k < |front| ==> front[k] == rules[k];
      ReadoutIsDistinct(front, scope, read);
      assert IDs(rules) == IDs(front) + {last.id} by { assert rules == front + [last]; }
      if last.enabled {
        OwnDistinct(last, scope, read);
        RulesApart(Readout(front, scope, read), IDs(front), Own(last, |Names(last.protocol)|, scope, read), last.id,
            scope);
      }
    }
  }

  function IDs(rules: seq<F.Rule>): set<string> { set rule | rule in rules :: rule.id }

  // ---------------------------------------------------------------- one sample

  ghost predicate OneKind(counters: seq<Counter>,
                          kind: string) { forall i :: 0 <= i < |counters| ==> counters[i].kind == kind }

  lemma KindsApart(a: Counter, b: Counter)
    requires NUL !in a.kind && NUL !in b.kind && a.kind != b.kind
    ensures Key(a) != Key(b)
  {
    if Key(a) == Key(b) {
      var x := KeyAfterKind(a);
      var y := KeyAfterKind(b);
      SplitAtNul(a.kind, x, b.kind, y);
    }
  }

  lemma KeyAfterKind(c: Counter) returns (rest: string)
    ensures Key(c) == c.kind + [NUL] + rest
  {
    if c.kind != "forwarding" {
      rest := c.name + [NUL] + c.inbound + [NUL] + c.direction;
      assert Key(c) == c.kind + [NUL] + rest;
    } else {
      rest := c.name + [NUL] + c.protocol + [NUL] + c.scope + [NUL] + c.direction;
      assert Key(c) == c.kind + [NUL] + rest;
    }
  }

  lemma {:induction false} KindsConcat(a: seq<Counter>, b: seq<Counter>, kind: string)
    requires DistinctKeys(a) && DistinctKeys(b) && OneKind(b, kind) && NUL !in kind
    requires forall i :: 0 <= i < |a| ==> NUL !in a[i].kind && a[i].kind != kind
    ensures DistinctKeys(a + b)
  {
    forall i, j | 0 <= i < |a| && 0 <= j < |b| ensures Key(a[i]) != Key(b[j]) {
      KindsApart(a[i], b[j]);
    }
    DistinctConcat(a, b);
  }

  /** A kind's statistics, the order its groups are listed in, and totals within int64. */
  ghost predicate Reported(stats: seq<Stat>, order: seq<string>, kind: string, users: bool) {
    Fits(Grouped(stats, kind, users)) && Orders(order, Grouped(stats, kind, users))
  }

  function Counters(stats: seq<Stat>, order: seq<string>, kind: string, users: bool): seq<Counter>
    requires Reported(stats, order, kind, users)
  {
    Listing(order, kind, Grouped(stats, kind, users))
  }

  lemma KindIsDistinct(stats: seq<Stat>, order: seq<string>, kind: string, users: bool)
    requires kind != "forwarding" && Reported(stats, order, kind, users)
    ensures DistinctKeys(Counters(stats, order, kind, users)) && OneKind(Counters(stats, order, kind, users), kind)
  {
    GroupingConserves(stats, kind, users, true);
    ListingIsDistinct(order, kind, Grouped(stats, kind, users), users);
  }

  /** currentUsageCounters never reports two counters under one key, whatever names the core's
      statistics hold and in whatever order the groups are listed. */
  lemma SampledKeysAreDistinct(users: seq<Stat>, inbounds: seq<Stat>, outbounds: seq<Stat>,
                               byUser: seq<string>, byInbound: seq<string>, byOutbound: seq<string>,
                                   forwarding: seq<Counter>)
    requires DistinctKeys(forwarding) && OneKind(forwarding, "forwarding")
    requires Reported(users, byUser, "user", true) && Reported(inbounds, byInbound, "inbound", false)
    requires Reported(outbounds, byOutbound, "outbound", false)
    ensures DistinctKeys(forwarding + Counters(users, byUser, "user", true)
                         + Counters(inbounds, byInbound, "inbound", false)
                         + Counters(outbounds, byOutbound, "outbound", false))
  {
    assert |"user"| == 4 && |"inbound"| == 7 && |"outbound"| == 8 && |"forwarding"| == 10;
    KindIsDistinct(users, byUser, "user", true);
    KindIsDistinct(inbounds, byInbound, "inbound", false);
    KindIsDistinct(outbounds, byOutbound, "outbound", false);
    SampleHasDistinctKeys(forwarding, Counters(users, byUser, "user", true),
                          Counters(inbounds, byInbound, "inbound", false),
                          Counters(outbounds, byOutbound, "outbound", false));
  }

  /** currentCoreUsageCounters: users, inbounds and outbounds in that order, or nothing when a query fails;
      `sorted` is the order the groups are listed in. */
  method CurrentCoreUsageCounters(users: Option<seq<Stat>>, inbounds: Option<seq<Stat>>, outbounds: Option<seq<Stat>>,
                                  sorted: map<string, Totals> -> seq<string>) returns (r: Option<seq<Counter>>)
    requires users.Some? ==> Reported(users.value, sorted(Grouped(users.value, "user", true)), "user", true)
    requires inbounds.Some? ==>
               Reported(inbounds.value, sorted(Grouped(inbounds.value, "inbound", false)), "inbound", false)
    requires outbounds.Some? ==>
               Reported(outbounds.value, sorted(Grouped(outbounds.value, "outbound", false)), "outbound", false)
    ensures r.Some? <==> users.Some? && inbounds.Some? && outbounds.Some?
    ensures r.Some? ==> DistinctKeys(r.value)
    ensures r.Some? ==>
              r.value == Counters(users.value, sorted(Grouped(users.value, "user", true)), "user", true)
                         + Counters(inbounds.value, sorted(Grouped(inbounds.value, "inbound", false)), "inbound", false)
                         + Counters(outbounds.value, sorted(Grouped(outbounds.value, "outbound", false)), "outbound",
                             false)
  {
    if users.None? || inbounds.None? || outbounds.None? {
      return None;
    }
    var byUser := FetchStats(users.value, "user", true);
    var byInbound := FetchStats(inbounds.value, "inbound", false);
    var byOutbound := FetchStats(outbounds.value, "outbound", false);
    var a := ListCounters(sorted(byUser), "user", byUser);
    var b := ListCounters(sorted(byInbound), "inbound", byInbound);
    var c := ListCounters(sorted(byOutbound), "outbound", byOutbound);
    SampledKeysAreDistinct(users.value, inbounds.value, outbounds.value, sorted(byUser), sorted(byInbound),
        sorted(byOutbound), []);
    assert [] + a == a;
    return Some(a + b + c);
  }

  lemma SampleHasDistinctKeys(forwarding: seq<Counter>, users: seq<Counter>, inbounds: seq<Counter>,
                              outbounds: seq<Counter>)
    requires DistinctKeys(forwarding) && OneKind(forwarding, "forwarding")
    requires DistinctKeys(users) && OneKind(users, "user") && DistinctKeys(inbounds) && OneKind(inbounds, "inbound")
    requires DistinctKeys(outbounds) && OneKind(outbounds, "outbound")
    ensures DistinctKeys(forwarding + users + inbounds + outbounds)
  {
    assert |"user"| == 4 && |"inbound"| == 7 && |"outbound"| == 8 && |"forwarding"| == 10;
    KindsConcat(forwarding, users, "user");
    KindsConcat(forwarding + users, inbounds, "inbound");
    KindsConcat(forwarding + users + inbounds, outbounds, "outbound");
  }
}
