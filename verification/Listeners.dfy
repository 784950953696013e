/** internal/forwarding/listeners.go: the ports a core configuration listens on. */
module Listeners {
  import opened Common
  import opened StatName
  import opened CoreConfig

  datatype Transport = TCP | UDP | Both | Other(name: string)

  datatype Listener = Listener(transport: Transport, port: int, source: string)

  // ---------------------------------------------------------------- text

  function ToLower(s: Octets): (r: Octets)
    ensures |r| == |s|
  {
    if s == "" then "" else [Lower(s[0])] + ToLower(s[1..])
  }

  predicate Separator(c: char) { c == ',' || c == ' ' }

  /** strings.FieldsFunc over commas and blanks; `word` is the field being read. */
  function Fields(s: Octets, word: Octets): seq<Octets>
    decreases |s|
  {
    if s == "" then (if word == "" then [] else [word])
    else if Separator(s[0]) then (if word == "" then [] else [word]) + Fields(s[1..], "")
    else Fields(s[1..], word + [s[0]])
  }

  predicate IsDigit(c: char) { '0' <= c <= '9' }

  function Digits(s: string): Option<nat> {
    if s == "" then Some(0)
    else
      match Digits(s[..|s| - 1])
      case None => None
      case Some(n) => if IsDigit(s[|s| - 1]) then Some(10 * n + (s[|s| - 1] as int - 48)) else None
  }

  function Clamp(n: int): Int64 { if n > INT64_MAX then INT64_MAX else if n < INT64_MIN then INT64_MIN else n }

  /** strconv.Atoi with its error ignored. */
  function Atoi(s: string): Int64 {
    if s == "" then 0
    else
      var negative := s[0] == '-';
      var digits := if negative || s[0] == '+' then s[1..] else s;
      if digits == "" then 0
      else match Digits(digits) case None => 0 case Some(n) => Clamp(if negative then 0 - n else n)
  }

  function Truncated(r: real): int { if r >= 0.0 then r.Floor else -((-r).Floor) }

  function IntegerValue(j: Json): int {
    match j
    case Num(r) => Truncated(r)
    case Str(s) => Atoi(s)
    case _ => 0
  }

  // ---------------------------------------------------------------- protocols

  function Named(word: Octets): Option<Transport> {
    if word == "tcp" then Some(TCP) else if word == "udp" then Some(UDP) else None
  }

  function Words(value: Json): seq<Octets> {
    match value
    case Str(s) => Fields(ToLower(s), "")
    case Arr(items) => Texts(items)
    case _ => []
  }

  function Texts(items: seq<Json>): seq<Octets> {
    if items == [] then []
    else Texts(items[..|items| - 1]) + if items[|items| - 1].Str? then [ToLower(items[|items| - 1].text)] else []
  }

  /** The transports named, each once, in the order of first mention. */
  ghost predicate Mentions(words: seq<Octets>, transports: seq<Transport>) {
    && (forall t :: t in transports <==> exists i :: 0 <= i < |words| && Named(words[i]) == Some(t))
    && (forall i, j :: 0 <= i < j < |transports| ==> transports[i] != transports[j])
    && forall t :: t in transports ==> t == TCP || t == UDP
  }

  function Networks(words: seq<Octets>): (r: seq<Transport>)
    ensures Mentions(words, r)
  {
    if words == [] then []
    else
      var front, last := words[..|words| - 1], words[|words| - 1];
      var before := Networks(front);
      assert forall t :: (exists i :: 0 <= i < |words| && Named(words[i]) == Some(t)) <==>
                         (exists i :: 0 <= i < |front| && Named(front[i]) == Some(t)) || Named(last) == Some(t) by {
        assert words == front + [last];
      }
      if Named(last).Some? && Named(last).value !in before then before + [Named(last).value] else before
  }

  /** networkValues */
  method NetworkValues(value: Json) returns (result: seq<Transport>)
    ensures result == Networks(Words(value))
  {
    var values := Words(value);
    result := [];
    var seen: set<Transport> := {};
    for i := 0 to |values|
      invariant result == Networks(values[..i]) && seen == set t | t in result
    {
      assert values[..i + 1][..i] == values[..i];
      var transport := Named(values[i]);
      if transport.Some? && transport.value !in seen {
        seen := seen + {transport.value};
        result := result + [transport.value];
      }
    }
    assert values[..|values|] == values;
  }

  function Kind(inbound: Object): Octets {
    var kind := ToLower(StringValue(Field(inbound, "type")));
    if kind == "" then ToLower(StringValue(Field(inbound, "protocol"))) else kind
  }

  function OfKind(kind: Octets): seq<Transport> {
    match kind
    case "snell" | "anytls" | "trojan" | "vless" | "http" | "naive" | "shadowtls" => [TCP]
    case "hysteria" | "hysteria2" | "tuic" | "quic" => [UDP]
    case _ => [TCP, UDP]
  }

  /** inferProtocols for the SING_BOX core */
  function InferProtocols(inbound: Object): (r: seq<Transport>)
    ensures r != [] && forall t :: t in r ==> t == TCP || t == UDP
  {
    var named := Networks(Words(Field(inbound, "network")));
    if named != [] then named else OfKind(Kind(inbound))
  }

  // ---------------------------------------------------------------- listeners

  function PortOf(inbound: Object): int {
    var a, b := IntegerValue(Field(inbound, "listen_port")), IntegerValue(Field(inbound, "listenPort"));
    if a != 0 then a else if b != 0 then b else IntegerValue(Field(inbound, "port"))
  }

  /** How the host reads a listen address. */
  datatype Host = Host(loopbackOnly: string -> bool, format: nat -> string)

  predicate Listens(item: Json, host: Host) {
    item.Obj? && !host.loopbackOnly(StringValue(Field(item.fields, "listen"))) && 1 <= PortOf(item.fields) <= 65535
  }

  function SourceOf(inbound: Object, index: nat, host: Host): string {
    if Tag(inbound) != "" then Tag(inbound) else host.format(index)
  }

  function ListenersOf(item: Json, index: nat, host: Host): seq<Listener> {
    if Listens(item, host) then Bound(InferProtocols(item.fields), PortOf(item.fields),
        SourceOf(item.fields, index, host)) else []
  }

  function Bound(transports: seq<Transport>, port: int, source: string): seq<Listener> {
    seq(|transports|, i requires 0 <= i < |transports| => Listener(transports[i], port, source))
  }

  function ListenersIn(items: seq<Json>, host: Host): seq<Listener> {
    if items == [] then []
    else ListenersIn(items[..|items| - 1], host) + ListenersOf(items[|items| - 1], |items| - 1, host)
  }

  function CoreListeners(config: Object, host: Host): seq<Listener> { ListenersIn(Inbounds(config), host) }

  method AppendListeners(result: seq<Listener>, transports: seq<Transport>, port: int, source: string)
    returns (result': seq<Listener>)
    ensures result' == result + Bound(transports, port, source)
  {
    result' := result;
    for i := 0 to |transports|
      invariant result' == result + Bound(transports[..i], port, source)
    {
      result' := result' + [Listener(transports[i], port, source)];
    }
    assert transports[..|transports|] == transports;
  }

  method ReadPort(inbound: Object) returns (port: int)
    ensures port == PortOf(inbound)
  {
    port := IntegerValue(Field(inbound, "listen_port"));
    if port == 0 {
      port := IntegerValue(Field(inbound, "listenPort"));
    }
    if port == 0 {
      port := IntegerValue(Field(inbound, "port"));
    }
  }

  method ExtractCoreListeners(config: Object, host: Host) returns (result: seq<Listener>)
    ensures result == CoreListeners(config, host)
  {
    var items := Inbounds(config);
    result := [];
    for i := 0 to |items|
      invariant result == ListenersIn(items[..i], host)
    {
      assert items[..i + 1][..i] == items[..i];
      if items[i].Obj? {
        var inbound := items[i].fields;
        if !host.loopbackOnly(StringValue(Field(inbound, "listen"))) {
          var port := ReadPort(inbound);
          if 1 <= port <= 65535 {
            result := AppendListeners(result, InferProtocols(inbound), port, SourceOf(inbound, i, host));
          }
        }
      }
    }
    assert items[..|items|] == items;
  }

  /** A listener comes from a reachable inbound with that port and transport. */
  ghost predicate Explains(item: Json, l: Listener, host: Host) {
    Listens(item, host) && PortOf(item.fields) == l.port && l.transport in InferProtocols(item.fields)
  }

  lemma OwnListenerExplained(item: Json, index: nat, host: Host, l: Listener)
    requires l in ListenersOf(item, index, host)
    ensures Explains(item, l, host)
  {
  }

  lemma OwnListeners(item: Json, index: nat, host: Host)
    ensures forall t :: Listens(item, host) && t in InferProtocols(item.fields) ==>
              Listener(t, PortOf(item.fields), SourceOf(item.fields, index, host)) in ListenersOf(item, index, host)
  {
    forall t | Listens(item, host) && t in InferProtocols(item.fields)
      ensures Listener(t, PortOf(item.fields), SourceOf(item.fields, index, host)) in ListenersOf(item, index, host)
    {
      var i :| 0 <= i < |InferProtocols(item.fields)| && InferProtocols(item.fields)[i] == t;
      assert ListenersOf(item, index, host)[i] == Listener(t, PortOf(item.fields), SourceOf(item.fields, index, host));
    }
  }

  /** Nothing but reachable inbounds is listed. */
  lemma {:induction false} ListenersAreInbounds(items: seq<Json>, host: Host, l: Listener) returns (i: nat)
    requires l in ListenersIn(items, host)
    ensures i < |items| && Explains(items[i], l, host)
  {
    var front, n := items[..|items| - 1], |items| - 1;
    if l in ListenersIn(front, host) {
      i := ListenersAreInbounds(front, host, l);
      assert front[i] == items[i];
    } else {
      OwnListenerExplained(items[n], n, host, l);
      i := n;
    }
  }

  /** Every reachable inbound is listed, once for each of its transports. */
  lemma InboundsAreListed(items: seq<Json>, host: Host, i: nat, t: Transport)
    requires i < |items| && Listens(items[i], host) && t in InferProtocols(items[i].fields)
    ensures Listener(t, PortOf(items[i].fields), SourceOf(items[i].fields, i, host)) in ListenersIn(items, host)
  {
    OwnListeners(items[i], i, host);
    OwnAreListed(items, host, i, Listener(t, PortOf(items[i].fields), SourceOf(items[i].fields, i, host)));
  }

  lemma {:induction false} OwnAreListed(items: seq<Json>, host: Host, i: nat, l: Listener)
    requires i < |items| && l in ListenersOf(items[i], i, host)
    ensures l in ListenersIn(items, host)
  {
    if i < |items| - 1 {
      OwnAreListed(items[..|items| - 1], host, i, l);
    }
  }

  // ---------------------------------------------------------------- what user edits leave alone

  lemma SamePlace(a: Object, b: Object)
    requires forall key :: key != "users" ==> Field(a, key) == Field(b, key)
    ensures Field(a, "listen") == Field(b, "listen") && Tag(a) == Tag(b) && PortOf(a) == PortOf(b)
  {
    assert Field(a, "listen") == Field(b, "listen") && Field(a, "tag") == Field(b, "tag");
    assert Field(a, "listen_port") == Field(b, "listen_port") && Field(a, "listenPort") == Field(b, "listenPort");
    assert Field(a, "port") == Field(b, "port");
  }

  lemma SameProtocols(a: Object, b: Object)
    requires forall key :: key != "users" ==> Field(a, key) == Field(b, key)
    ensures InferProtocols(a) == InferProtocols(b)
  {
    assert Field(a, "network") == Field(b, "network");
    assert Field(a, "type") == Field(b, "type") && Field(a, "protocol") == Field(b, "protocol");
    assert Kind(a) == Kind(b);
  }

  lemma SameListeners(a: Json, b: Json, index: nat, host: Host)
    requires SameButUsers(a, b)
    ensures ListenersOf(a, index, host) == ListenersOf(b, index, host)
  {
    if a != b {
      SamePlace(a.fields, b.fields);
      SameProtocols(a.fields, b.fields);
    }
  }

  lemma {:induction false} SameListenersIn(a: seq<Json>, b: seq<Json>, host: Host)
    requires AllSameButUsers(a, b)
    ensures ListenersIn(a, host) == ListenersIn(b, host)
  {
    if a != [] {
      SameListenersIn(a[..|a| - 1], b[..|b| - 1], host);
      SameListeners(a[|a| - 1], b[|b| - 1], |a| - 1, host);
    }
  }

  lemma SameShapeListeners(a: Object, b: Object, host: Host)
    requires SameShape(a, b)
    ensures CoreListeners(a, host) == CoreListeners(b, host)
  {
    SameListenersIn(Inbounds(a), Inbounds(b), host);
  }
}
