/** Which ports and transports an inbound takes, told from its text, and which forwarding rules it refuses. */
module InboundPorts {
  import opened Common
  import opened StatName
  import opened CoreConfig
  import opened Listeners
  import F = Forwarding

  /** The type of an inbound in lower case, or its protocol when it has no type. */
  function TypeText(inbound: Object): string {
    var kind := StringValue(Field(inbound, "type"));
    var text := if kind == "" then StringValue(Field(inbound, "protocol")) else kind;
    seq(|text|, i requires 0 <= i < |text| => Lower(text[i]))
  }

  /** The inbound names no transport itself. */
  ghost predicate NamesNone(inbound: Object) {
    forall word :: word in Words(Field(inbound, "network")) ==> word != "tcp" && word != "udp"
  }

  lemma {:induction false} LowerEach(s: Octets)
    ensures ToLower(s) == seq(|s|, i requires 0 <= i < |s| => Lower(s[i]))
  {
    if s != "" {
      LowerEach(s[1..]);
    }
  }

  lemma KindIsTypeText(inbound: Object)
    ensures Kind(inbound) == TypeText(inbound)
  {
    LowerEach(StringValue(Field(inbound, "type")));
    LowerEach(StringValue(Field(inbound, "protocol")));
  }

  lemma {:induction false} NoneNamed(words: seq<Octets>)
    requires forall word :: word in words ==> word != "tcp" && word != "udp"
    ensures Networks(words) == []
  {
    if words != [] {
      var front, last := words[..|words| - 1], words[|words| - 1];
      assert last in words && forall word :: word in front ==> word in words;
      NoneNamed(front);
    }
  }

  ghost predicate TcpOnly(inbound: Object) {
    TypeText(inbound) in {"snell", "anytls", "trojan", "vless", "http", "naive", "shadowtls"}
  }

  ghost predicate UdpOnly(inbound: Object) { TypeText(inbound) in {"hysteria", "hysteria2", "tuic", "quic"} }

  /** The transports of an inbound that names none, type by type. */
  lemma TransportsByType(inbound: Object)
    requires NamesNone(inbound)
    ensures TcpOnly(inbound) ==> InferProtocols(inbound) == [TCP]
    ensures UdpOnly(inbound) ==> InferProtocols(inbound) == [UDP]
    ensures !TcpOnly(inbound) && !UdpOnly(inbound) ==> InferProtocols(inbound) == [TCP, UDP]
  {
    NoneNamed(Words(Field(inbound, "network")));
    KindIsTypeText(inbound);
  }

  /** The transports of an inbound that names some: those it names. */
  lemma TransportsByName(inbound: Object)
    requires !NamesNone(inbound)
    ensures TCP in InferProtocols(inbound) <==> "tcp" in Words(Field(inbound, "network"))
    ensures UDP in InferProtocols(inbound) <==> "udp" in Words(Field(inbound, "network"))
  {
    var words := Words(Field(inbound, "network"));
    var word :| word in words && (word == "tcp" || word == "udp");
    var i :| 0 <= i < |words| && words[i] == word;
    assert Named(words[i]).Some? && Named(words[i]).value in Networks(words);
    assert "tcp" != "udp" by { assert "tcp"[0] != "udp"[0]; }
  }

  /** The port: `listen_port`, else `listenPort`, else `port`; a field that is missing or zero does not count. */
  lemma PortByField(inbound: Object, p: int)
    requires p != 0
    ensures Field(inbound, "listen_port") == Num(p as real) ==> PortOf(inbound) == p
    ensures Field(inbound, "listen_port") == Null && Field(inbound, "listenPort") == Num(p as real) ==>
              PortOf(inbound) == p
    ensures Field(inbound, "listen_port") == Field(inbound, "listenPort") == Null ==>
              Field(inbound, "port") == Num(p as real) ==> PortOf(inbound) == p
  {
    assert Truncated(p as real) == p;
  }

  function Decimal(n: nat): (s: Octets)
    ensures s != "" && forall i :: 0 <= i < |s| ==> IsDigit(s[i])
  {
    if n < 10 then [(n + 48) as char] else Decimal(n / 10) + [(n % 10 + 48) as char]
  }

  lemma {:induction false} DigitsOfDecimal(n: nat)
    ensures Digits(Decimal(n)) == Some(n)
  {
    if n < 10 {
      assert Decimal(n)[..0] == "";
    } else {
      DigitsOfDecimal(n / 10);
      assert Decimal(n)[..|Decimal(n)| - 1] == Decimal(n / 10);
    }
  }

  /** A port may be given as text. */
  lemma PortAsText(n: nat)
    requires n <= INT64_MAX
    ensures IntegerValue(Str(Decimal(n))) == n && IntegerValue(Str("-" + Decimal(n))) == 0 - n
  {
    DigitsOfDecimal(n);
    assert ("-" + Decimal(n))[1..] == Decimal(n);
  }

  ghost predicate Unbroken(word: Octets) { word != "" && forall i :: 0 <= i < |word| ==> !Separator(word[i]) }

  /** Transports listed in one text are separated by commas and blanks. */
  lemma {:induction false} FirstWord(before: Octets, word: Octets, c: char, rest: Octets)
    requires Unbroken(before + word) && Separator(c)
    ensures Fields(word, before) == [before + word]
    ensures Fields(word + [c] + rest, before) == [before + word] + Fields(rest, "")
    decreases |word|
  {
    if word == "" {
      assert before + word == before;
      assert (word + [c] + rest)[1..] == rest;
    } else {
      assert before + [word[0]] + word[1..] == before + word;
      assert (before + word)[|before|] == word[0] && (word + [c] + rest)[0] == word[0];
      FirstWord(before + [word[0]], word[1..], c, rest);
      assert (word + [c] + rest)[1..] == word[1..] + [c] + rest;
    }
  }

  // ---------------------------------------------------------------- in a configuration

  lemma {:induction false} EarlierListeners(items: seq<Json>, n: nat, host: Host)
    requires n <= |items|
    ensures ListenersIn(items[..n], host) <= ListenersIn(items, host)
  {
    if n == |items| {
      assert items[..n] == items;
    } else {
      var front := items[..|items| - 1];
      EarlierListeners(front, n, host);
      assert front[..n] == items[..n];
    }
  }

  lemma OwnStretch(items: seq<Json>, i: nat, host: Host) returns (a: seq<Listener>, b: seq<Listener>)
    requires i < |items|
    ensures ListenersIn(items, host) == a + ListenersOf(items[i], i, host) + b
  {
    var upto := items[..i + 1];
    EarlierListeners(items, i + 1, host);
    a := ListenersIn(upto[..i], host);
    assert ListenersIn(upto, host) == a + ListenersOf(items[i], i, host);
    b := ListenersIn(items, host)[|ListenersIn(upto, host)|..];
  }

  /** What an inbound that names no transport adds to the listeners of its configuration. */
  lemma ListedByType(config: Object, i: nat, host: Host)
    returns (a: seq<Listener>, own: seq<Listener>, b: seq<Listener>, port: int, source: string)
    requires i < |Inbounds(config)| && Listens(Inbounds(config)[i], host) && NamesNone(Inbounds(config)[i].fields)
    ensures CoreListeners(config, host) == a + own + b && (|Inbounds(config)| == 1 ==> a == b == [])
    ensures var inbound := Inbounds(config)[i].fields;
            && port == PortOf(inbound) && source == (if Tag(inbound) != "" then Tag(inbound) else host.format(i))
            && own == if TcpOnly(inbound) then [Listener(TCP, port, source)]
                      else if UdpOnly(inbound) then [Listener(UDP, port, source)]
                      else [Listener(TCP, port, source), Listener(UDP, port, source)]
  {
    var items := Inbounds(config);
    port, source := PortOf(items[i].fields), SourceOf(items[i].fields, i, host);
    own := OwnByType(items[i], i, host);
    if |items| == 1 {
      a, b := [], [];
      OnlyOne(items, host);
    } else {
      a, b := OwnStretch(items, i, host);
    }
  }

  lemma OnlyOne(items: seq<Json>, host: Host)
    requires |items| == 1
    ensures ListenersIn(items, host) == [] + ListenersOf(items[0], 0, host) + []
  {
    assert items[..0] == [];
    assert ListenersIn([], host) == [];
  }

  lemma OwnByType(item: Json, i: nat, host: Host) returns (own: seq<Listener>)
    requires Listens(item, host) && NamesNone(item.fields)
    ensures var port, source := PortOf(item.fields), SourceOf(item.fields, i, host);
            && own == ListenersOf(item, i, host)
            && own == if TcpOnly(item.fields) then [Listener(TCP, port, source)]
                      else if UdpOnly(item.fields) then [Listener(UDP, port, source)]
                      else [Listener(TCP, port, source), Listener(UDP, port, source)]
  {
    TransportsByType(item.fields);
    own := ListenersOf(item, i, host);
  }

  // ---------------------------------------------------------------- rules it refuses

  /** A rule on the port of a TCP-only inbound stays off it exactly when it is for UDP, on that of a UDP-only
      one exactly when it is for TCP, and on that of any other never. */
  ghost predicate StaysOff(protocol: Transport, inbound: Object) {
    if TcpOnly(inbound) then protocol == UDP else if UdpOnly(inbound) then protocol == TCP else false
  }

  lemma OwnTakenIff(rule: F.Rule, inbound: Object, own: seq<Listener>, port: int, source: string)
    requires rule.enabled && F.Known(rule.protocol) && rule.listenPort == port
    requires own == if TcpOnly(inbound) then [Listener(TCP, port, source)]
                    else if UdpOnly(inbound) then [Listener(UDP, port, source)]
                    else [Listener(TCP, port, source), Listener(UDP, port, source)]
    ensures (forall j :: 0 <= j < |own| ==> !F.Takes(rule, own[j])) <==> StaysOff(rule.protocol, inbound)
  {
    assert own[0].port == port;
    if |own| == 2 {
      assert F.Takes(rule, own[0]) || F.Takes(rule, own[1]);
    }
  }

  lemma TakenInside(applied: F.Config, a: seq<Listener>, own: seq<Listener>, b: seq<Listener>, r: nat)
    requires applied.enabled && r < |applied.rules|
    ensures F.Exclusive(applied, a + own + b) ==> forall j :: 0 <= j < |own| ==> !F.Takes(applied.rules[r], own[j])
    ensures |applied.rules| == 1 ==>
              (F.Exclusive(applied, own) <==> forall j :: 0 <= j < |own| ==> !F.Takes(applied.rules[r], own[j]))
  {
    var all := a + own + b;
    assert forall j :: 0 <= j < |own| ==> all[|a| + j] == own[j];
  }

  /** A configuration is refused by the applied rules when one of them takes such a port, whatever else it
      holds; and a configuration of this inbound alone is refused by this rule alone exactly then. */
  lemma RefusedByType(config: Object, i: nat, host: Host, applied: F.Config, r: nat)
    requires i < |Inbounds(config)| && Listens(Inbounds(config)[i], host) && NamesNone(Inbounds(config)[i].fields)
    requires applied.enabled && r < |applied.rules| && applied.rules[r].enabled && F.Known(applied.rules[r].protocol)
    requires applied.rules[r].listenPort == PortOf(Inbounds(config)[i].fields)
    ensures var off := StaysOff(applied.rules[r].protocol, Inbounds(config)[i].fields);
            && (!off ==> !F.Exclusive(applied, CoreListeners(config, host)))
            && (|Inbounds(config)| == 1 && |applied.rules| == 1 ==>
                  (F.Exclusive(applied, CoreListeners(config, host)) <==> off))
  {
    var a, own, b, port, source := ListedByType(config, i, host);
    OwnTakenIff(applied.rules[r], Inbounds(config)[i].fields, own, port, source);
    TakenInside(applied, a, own, b, r);
    assert a == b == [] ==> a + own + b == own;
  }
}
