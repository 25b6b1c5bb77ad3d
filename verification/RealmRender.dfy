/**
 panel/cmd/agent/realm_render.go: the Realm config text, and the parser that recovers from a
 previous text what it listens on. Rolling back restores the firewall from what the parser says, so
 the two must agree: parsing a rendered text gives back the listeners and rules it was rendered for.

 `Syntax` supplies net.ParseIP and the host check of the renderer.
 */
module RealmRender {
  import opened Wrappers
  import opened Text
  import Firewall
  import Sorting

  type Rule = Firewall.Rule

  datatype Relay = Relay(id: int, listenAddress: string, listenPort: int, targetHost: string, targetPort: int, network: string)

  datatype Listener = Listener(address: string, port: int, tcp: bool, udp: bool)

  datatype State = State(listeners: seq<Listener>, rules: seq<Rule>)

  datatype Refusal = UnsupportedManagedConfig

  datatype Syntax = Syntax(isIP: string -> bool, validHost: string -> bool)

  /** An address literal is not empty and has no brackets. */
  ghost predicate Sane(syntax: Syntax) {
    forall s: string :: syntax.isIP(s) ==> s != "" && '[' !in s && ']' !in s
  }

  /** `realmNetworkOptions`: (noTCP, useUDP). */
  function NetworkOptions(network: string): (r: Option<(bool, bool)>) {
    if network == "tcp" then Some((false, false))
    else if network == "udp" then Some((true, true))
    else if network == "tcp,udp" then Some((false, true))
    else None
  }

  predicate Accepted(syntax: Syntax, relay: Relay) {
    && relay.id > 0 && syntax.isIP(relay.listenAddress) && 1 <= relay.listenPort <= 65535
    && 1 <= relay.targetPort <= 65535 && syntax.validHost(relay.targetHost) && relay.network in ["tcp", "udp", "tcp,udp"]
  }

  function OptionsOf(network: string): (o: (bool, bool)) {
    if NetworkOptions(network).Some? then NetworkOptions(network).value else (false, false)
  }

  function IdLine(id: int): (l: string) {
    "# relay_id = " + FormatInt(id)
  }

  function ListenLine(host: string, port: int): (l: string) {
    "listen = " + Quote(JoinHostPort(host, FormatInt(port)))
  }

  function RemoteLine(host: string, port: int): (l: string) {
    "remote = " + Quote(JoinHostPort(host, FormatInt(port)))
  }

  function TcpLine(noTCP: bool): (l: string) {
    if noTCP then "no_tcp = true" else "no_tcp = false"
  }

  function UdpLine(useUDP: bool): (l: string) {
    if useUDP then "use_udp = true" else "use_udp = false"
  }

  function EndpointLines(relay: Relay, validation: bool): (ls: seq<string>) {
    var (noTCP, useUDP) := OptionsOf(relay.network);
    ["", "[[endpoints]]",
     IdLine(relay.id),
     if validation then ListenLine("127.0.0.1", 0) else ListenLine(relay.listenAddress, relay.listenPort),
     RemoteLine(relay.targetHost, relay.targetPort),
     "[endpoints.network]",
     TcpLine(noTCP),
     UdpLine(useUDP)]
  }

  const HEADER: seq<string> := ["[log]", "level = \"warn\"", "output = \"stdout\""]

  predicate Ascending(relays: seq<Relay>) {
    forall i, j :: 0 <= i < j < |relays| ==> relays[i].id <= relays[j].id
  }

  /** sort.Slice by id; equal ids keep their order. */
  function SortById(relays: seq<Relay>): (sorted: seq<Relay>) {
    if relays == [] then [] else InsertById(relays[0], SortById(relays[1..]))
  }

  function InsertById(relay: Relay, sorted: seq<Relay>): (r: seq<Relay>) {
    if sorted == [] || relay.id <= sorted[0].id then [relay] + sorted
    else [sorted[0]] + InsertById(relay, sorted[1..])
  }

  lemma {:induction false} InsertByIdMembers(relay: Relay, sorted: seq<Relay>)
    ensures multiset(InsertById(relay, sorted)) == multiset(sorted) + multiset{relay}
  {
    if sorted != [] && relay.id > sorted[0].id {
      InsertByIdMembers(relay, sorted[1..]);
      assert sorted == [sorted[0]] + sorted[1..];
    }
  }

  lemma {:induction false} InsertByIdSorts(relay: Relay, sorted: seq<Relay>)
    requires Ascending(sorted)
    ensures Ascending(InsertById(relay, sorted))
  {
    if sorted != [] && relay.id > sorted[0].id {
      var rest := InsertById(relay, sorted[1..]);
      InsertByIdSorts(relay, sorted[1..]);
      InsertByIdMembers(relay, sorted[1..]);
      forall k | 0 <= k < |rest|
        ensures sorted[0].id <= rest[k].id
      {
        assert rest[k] in multiset(rest);
        assert rest[k] == relay || rest[k] in sorted[1..];
      }
    }
  }

  /** Rendering order: the same relays, by id. */
  lemma {:induction false} SortByIdSorts(relays: seq<Relay>)
    ensures Ascending(SortById(relays)) && multiset(SortById(relays)) == multiset(relays)
    ensures forall r :: r in SortById(relays) <==> r in relays
  {
    hide InsertById;
    if relays != [] {
      SortByIdSorts(relays[1..]);
      InsertByIdSorts(relays[0], SortById(relays[1..]));
      InsertByIdMembers(relays[0], SortById(relays[1..]));
      assert relays == [relays[0]] + relays[1..];
    }
    assert forall r :: r in SortById(relays) <==> r in multiset(SortById(relays));
  }

  function TextOf(values: seq<Relay>, validation: bool): (text: string) {
    Unlines(HEADER + AllLines(values, validation))
  }

  /** The text for relays already in order; an error when any of them is refused. */
  function RenderSpec(syntax: Syntax, values: seq<Relay>, validation: bool): (r: Result<string, Refusal>) {
    if forall relay :: relay in values ==> Accepted(syntax, relay)
    then Ok(TextOf(values, validation))
    else Err(UnsupportedManagedConfig)
  }

  function AllLines(values: seq<Relay>, validation: bool): (ls: seq<string>) {
    if values == [] then [] else EndpointLines(values[0], validation) + AllLines(values[1..], validation)
  }

  function HeaderLines(): (text: string) {
    HEADER[0] + "\n" + HEADER[1] + "\n" + HEADER[2] + "\n"
  }

  lemma HeaderText(validation: bool)
    ensures TextOf([], validation) == HeaderLines()
  {
    assert HEADER + AllLines([], validation) == [HEADER[0], HEADER[1], HEADER[2]];
    ThreeLines(HEADER[0], HEADER[1], HEADER[2]);
  }

  lemma ThreeLines(a: string, b: string, c: string)
    ensures Unlines([a, b, c]) == a + "\n" + b + "\n" + c + "\n"
  {
    assert [a, b, c][1..] == [b, c] && [b, c][1..] == [c] && [c][1..] == [];
    assert Unlines([c]) == c + "\n" + "";
  }

  /** `renderRealmConfig`. */
  method RenderRealmConfig(syntax: Syntax, relays: seq<Relay>, validation: bool) returns (r: Result<string, Refusal>)
    ensures r == RenderSpec(syntax, SortById(relays), validation)
    ensures r.Ok? <==> forall relay :: relay in relays ==> Accepted(syntax, relay)
  {
    var values := SortById(relays);
    SortByIdSorts(relays);
    hide TextOf, EndpointLines, Unlines, HeaderLines, SortById;
    var output := HeaderLines();
    HeaderText(validation);
    for i := 0 to |values|
      invariant forall relay :: relay in values[..i] ==> Accepted(syntax, relay)
      invariant output == TextOf(values[..i], validation)
    {
      var relay := values[i];
      var options := NetworkOptions(relay.network);
      if relay.id <= 0 || !syntax.isIP(relay.listenAddress) || relay.listenPort < 1 || relay.listenPort > 65535
         || relay.targetPort < 1 || relay.targetPort > 65535 || !syntax.validHost(relay.targetHost) || options.None? {
        OneRefused(syntax, values, relay, validation);
        return Err(UnsupportedManagedConfig);
      }
      output := output + Unlines(EndpointLines(relay, validation));
      assert values[..i + 1] == values[..i] + [relay];
      RenderNext(values[..i], relay, validation);
    }
    assert values[..|values|] == values;
    return Ok(output);
  }

  /** Once one of them is refused, so is the list. */
  lemma OneRefused(syntax: Syntax, values: seq<Relay>, relay: Relay, validation: bool)
    requires relay in values && !Accepted(syntax, relay)
    ensures RenderSpec(syntax, values, validation) == Err(UnsupportedManagedConfig)
  {
  }

  lemma RenderNext(values: seq<Relay>, relay: Relay, validation: bool)
    ensures TextOf(values + [relay], validation) == TextOf(values, validation) + Unlines(EndpointLines(relay, validation))
  {
    AllLinesAppend(values, relay, validation);
    assert HEADER + (AllLines(values, validation) + EndpointLines(relay, validation))
        == (HEADER + AllLines(values, validation)) + EndpointLines(relay, validation);
    UnlinesConcat(HEADER + AllLines(values, validation), EndpointLines(relay, validation));
  }

  lemma {:induction false} AllLinesAppend(values: seq<Relay>, relay: Relay, validation: bool)
    ensures AllLines(values + [relay], validation) == AllLines(values, validation) + EndpointLines(relay, validation)
  {
    hide EndpointLines;
    assert (values + [relay])[|values|] == relay;
    if values == [] {
      assert values + [relay] == [relay];
      assert AllLines([], validation) == [];
    } else {
      assert (values + [relay])[1..] == values[1..] + [relay];
      AllLinesAppend(values[1..], relay, validation);
    }
  }

  /** `expectedRealmListeners` and `expectedRealmFirewallRules`. */
  function ExpectedListener(relay: Relay): (l: Listener) {
    var options := OptionsOf(relay.network);
    Listener(relay.listenAddress, relay.listenPort, !options.0, options.1)
  }

  function ExpectedListeners(relays: seq<Relay>): (ls: seq<Listener>) {
    seq(|relays|, i requires 0 <= i < |relays| => ExpectedListener(relays[i]))
  }

  function ListenerRules(l: Listener): (rules: seq<Rule>) {
    (if l.tcp then [Firewall.Rule(l.port, "tcp")] else []) + (if l.udp then [Firewall.Rule(l.port, "udp")] else [])
  }

  function RulesOf(ls: seq<Listener>): (rules: seq<Rule>) {
    if ls == [] then [] else ListenerRules(ls[0]) + RulesOf(ls[1..])
  }

  function ExpectedRules(relays: seq<Relay>): (rules: seq<Rule>) {
    RulesOf(ExpectedListeners(relays))
  }

  /** The value of a listen line. */
  function ParseListen(syntax: Syntax, current: Listener, quoted: string): (r: Option<Listener>) {
    var address := Unquote(quoted);
    if address.None? then None else
      var pair := SplitHostPort(address.value);
      if pair.None? then None else
        var port := Atoi(pair.value.1);
        if port.None? || !syntax.isIP(pair.value.0) || port.value < 1 || port.value > 65535 then None
        else Some(current.(address := pair.value.0, port := port.value))
  }

  /** One line of the parser's switch; None when it gives up. */
  function ParseLine(syntax: Syntax, listeners: seq<Listener>, raw: string): (r: Option<seq<Listener>>) {
    var line := TrimSpace(raw);
    if line == "[[endpoints]]" then Some(listeners + [Listener("", 0, false, false)])
    else if listeners == [] then Some(listeners)
    else
      var current := listeners[|listeners| - 1];
      var others := listeners[..|listeners| - 1];
      if "listen = " <= line then
        var next := ParseListen(syntax, current, TrimSpace(line[9..]));
        if next.None? then None else Some(others + [next.value])
      else if line == "no_tcp = true" then Some(others + [current.(tcp := false)])
      else if line == "no_tcp = false" then Some(others + [current.(tcp := true)])
      else if line == "use_udp = true" then Some(others + [current.(udp := true)])
      else if line == "use_udp = false" then Some(others + [current.(udp := false)])
      else Some(listeners)
  }

  function ParseLines(syntax: Syntax, listeners: seq<Listener>, lines: seq<string>): (r: Option<seq<Listener>>)
    decreases |lines|
  {
    if lines == [] then Some(listeners) else
      var next := ParseLine(syntax, listeners, lines[0]);
      if next.None? then None else ParseLines(syntax, next.value, lines[1..])
  }

  predicate Complete(l: Listener) {
    l.address != "" && l.port != 0 && (l.tcp || l.udp)
  }

  function ParseSpec(syntax: Syntax, value: string): (r: Option<State>) {
    if value == "" then None else
      var listeners := ParseLines(syntax, [], Lines(value));
      if listeners.None? || exists l :: l in listeners.value && !Complete(l) then None
      else Some(State(listeners.value, RulesOf(listeners.value)))
  }

  /** `parseRenderedRealmState`; None is "not known". */
  method ParseRenderedRealmState(syntax: Syntax, value: string) returns (r: Option<State>)
    ensures r == ParseSpec(syntax, value)
  {
    hide ParseLine, ListenerRules, Lines;
    if |value| == 0 {
      return None;
    }
    var lines := Lines(value);
    var listeners: seq<Listener> := [];
    for i := 0 to |lines|
      invariant ParseLines(syntax, [], lines) == ParseLines(syntax, listeners, lines[i..])
    {
      var next := ParseLine(syntax, listeners, lines[i]);
      if next.None? {
        return None;
      }
      listeners := next.value;
    }
    assert lines[|lines|..] == [] && ParseLines(syntax, [], lines) == Some(listeners);
    var rules: seq<Rule> := [];
    for i := 0 to |listeners|
      invariant forall k :: 0 <= k < i ==> Complete(listeners[k])
      invariant rules + RulesOf(listeners[i..]) == RulesOf(listeners)
    {
      var listener := listeners[i];
      if listener.address == "" || listener.port == 0 || (!listener.tcp && !listener.udp) {
        assert listener in listeners && !Complete(listener);
        return None;
      }
      rules := rules + ListenerRules(listeners[i]);
    }
    assert RulesOf(listeners[|listeners|..]) == [] && rules + [] == rules;
    assert forall l :: l in listeners ==> Complete(l);
    return Some(State(listeners, rules));
  }

  lemma QuoteShape(s: string)
    ensures Quote(s) != "" && Quote(s)[0] == '"' && Quote(s)[|Quote(s)| - 1] == '"'
  {
  }

  lemma LabelledText(tag: string, q: string)
    requires tag != "" && !Space(tag[0]) && q != "" && !Space(q[0]) && !Space(q[|q| - 1])
    ensures TrimSpace(tag + q) == tag + q && TrimSpace(q) == q
    ensures (tag + q)[|tag|..] == q && tag <= tag + q && (tag + q)[0] == tag[0]
  {
  }

  lemma ListenValue(syntax: Syntax, current: Listener, host: string, port: nat)
    requires Sane(syntax) && syntax.isIP(host) && 1 <= port <= 65535
    ensures ParseListen(syntax, current, Quote(JoinHostPort(host, Itoa(port)))) == Some(current.(address := host, port := port))
  {
    UnquoteQuote(JoinHostPort(host, Itoa(port)));
    SplitJoin(host, Itoa(port));
    AtoiItoa(port);
    hide Quote, Unquote, JoinHostPort, SplitHostPort, Itoa, Atoi;
  }

  lemma ListenParses(syntax: Syntax, others: seq<Listener>, current: Listener, host: string, port: nat)
    requires Sane(syntax) && syntax.isIP(host) && 1 <= port <= 65535
    ensures ParseLine(syntax, others + [current], ListenLine(host, port)) == Some(others + [current.(address := host, port := port)])
  {
    var q := Quote(JoinHostPort(host, Itoa(port)));
    QuoteShape(JoinHostPort(host, Itoa(port)));
    LabelledText("listen = ", q);
    ListenValue(syntax, current, host, port);
    hide ParseListen, Quote, JoinHostPort, Itoa, TrimSpace;
    var ls := others + [current];
    assert ls[..|ls| - 1] == others;
  }

  /** A line that starts with another letter changes nothing. */
  lemma IgnoredLine(syntax: Syntax, listeners: seq<Listener>, line: string)
    requires line == "" || (line[0] !in "[lnu" && !Space(line[0]) && !Space(line[|line| - 1]))
    ensures ParseLine(syntax, listeners, line) == Some(listeners)
  {
  }

  lemma SectionIgnored(syntax: Syntax, listeners: seq<Listener>)
    ensures ParseLine(syntax, listeners, "[endpoints.network]") == Some(listeners)
  {
  }

  lemma EndpointOpens(syntax: Syntax, listeners: seq<Listener>)
    ensures ParseLine(syntax, listeners, "[[endpoints]]") == Some(listeners + [Listener("", 0, false, false)])
  {
  }

  lemma IdIgnored(syntax: Syntax, listeners: seq<Listener>, id: int)
    ensures ParseLine(syntax, listeners, IdLine(id)) == Some(listeners)
  {
  }

  lemma RemoteIgnored(syntax: Syntax, listeners: seq<Listener>, host: string, port: int)
    ensures ParseLine(syntax, listeners, RemoteLine(host, port)) == Some(listeners)
  {
  }

  lemma TcpParses(syntax: Syntax, others: seq<Listener>, current: Listener, noTCP: bool)
    ensures ParseLine(syntax, others + [current], TcpLine(noTCP)) == Some(others + [current.(tcp := !noTCP)])
  {
  }

  lemma UdpParses(syntax: Syntax, others: seq<Listener>, current: Listener, useUDP: bool)
    ensures ParseLine(syntax, others + [current], UdpLine(useUDP)) == Some(others + [current.(udp := useUDP)])
  {
  }

  /** Four lines at a time, by what each does to the listeners. */
  lemma FourLines(syntax: Syntax, ls: seq<string>, k: nat, rest: seq<string>,
                  s0: seq<Listener>, s1: seq<Listener>, s2: seq<Listener>, s3: seq<Listener>, s4: seq<Listener>)
    requires k + 4 <= |ls|
    requires ParseLine(syntax, s0, ls[k]) == Some(s1) && ParseLine(syntax, s1, ls[k + 1]) == Some(s2)
    requires ParseLine(syntax, s2, ls[k + 2]) == Some(s3) && ParseLine(syntax, s3, ls[k + 3]) == Some(s4)
    ensures ParseLines(syntax, s0, ls[k..] + rest) == ParseLines(syntax, s4, ls[k + 4..] + rest)
  {
    hide ParseLine, ParseLines;
    StepLine(syntax, s0, s1, ls, rest, k);
    StepLine(syntax, s1, s2, ls, rest, k + 1);
    StepLine(syntax, s2, s3, ls, rest, k + 2);
    StepLine(syntax, s3, s4, ls, rest, k + 3);
  }

  lemma EndpointParses(syntax: Syntax, listeners: seq<Listener>, relay: Relay, rest: seq<string>)
    requires Sane(syntax) && Accepted(syntax, relay)
    ensures ParseLines(syntax, listeners, EndpointLines(relay, false) + rest)
         == ParseLines(syntax, listeners + [ExpectedListener(relay)], rest)
  {
    hide ParseLine, IdLine, ListenLine, RemoteLine, TcpLine, UdpLine;
    var (noTCP, useUDP) := OptionsOf(relay.network);
    var l0 := Listener("", 0, false, false);
    var l1 := l0.(address := relay.listenAddress, port := relay.listenPort);
    var l2 := l1.(tcp := !noTCP);
    var l3 := l2.(udp := useUDP);
    IgnoredLine(syntax, listeners, "");
    EndpointOpens(syntax, listeners);
    IdIgnored(syntax, listeners + [l0], relay.id);
    ListenParses(syntax, listeners, l0, relay.listenAddress, relay.listenPort);
    RemoteIgnored(syntax, listeners + [l1], relay.targetHost, relay.targetPort);
    SectionIgnored(syntax, listeners + [l1]);
    TcpParses(syntax, listeners, l1, noTCP);
    UdpParses(syntax, listeners, l2, useUDP);
    var ls := EndpointLines(relay, false);
    FourLines(syntax, ls, 0, rest, listeners, listeners, listeners + [l0], listeners + [l0], listeners + [l1]);
    FourLines(syntax, ls, 4, rest, listeners + [l1], listeners + [l1], listeners + [l1], listeners + [l2], listeners + [l3]);
    assert ls[0..] == ls && ls[8..] + rest == rest;
  }

  lemma StepLine(syntax: Syntax, before: seq<Listener>, after: seq<Listener>, ls: seq<string>, rest: seq<string>, k: nat)
    requires k < |ls| && ParseLine(syntax, before, ls[k]) == Some(after)
    ensures ParseLines(syntax, before, ls[k..] + rest) == ParseLines(syntax, after, ls[k + 1..] + rest)
  {
    hide ParseLine;
    assert (ls[k..] + rest)[1..] == ls[k + 1..] + rest;
  }

  lemma {:induction false} AllParse(syntax: Syntax, listeners: seq<Listener>, values: seq<Relay>)
    requires Sane(syntax) && forall r :: r in values ==> Accepted(syntax, r)
    ensures ParseLines(syntax, listeners, AllLines(values, false) + [""]) == Some(listeners + ExpectedListeners(values))
    decreases values
  {
    hide EndpointLines, ParseLine, Accepted, ExpectedListener;
    if values == [] {
      assert AllLines(values, false) + [""] == [""] && listeners + ExpectedListeners(values) == listeners;
      IgnoredLine(syntax, listeners, "");
    } else {
      var rest := AllLines(values[1..], false) + [""];
      assert AllLines(values, false) + [""] == EndpointLines(values[0], false) + rest;
      EndpointParses(syntax, listeners, values[0], rest);
      AllParse(syntax, listeners + [ExpectedListener(values[0])], values[1..]);
      assert ExpectedListeners(values) == [ExpectedListener(values[0])] + ExpectedListeners(values[1..]);
      assert (listeners + [ExpectedListener(values[0])]) + ExpectedListeners(values[1..]) == listeners + ExpectedListeners(values);
    }
  }

  lemma QuotedOneLine(host: string, port: int)
    ensures OneLine(ListenLine(host, port)) && OneLine(RemoteLine(host, port))
  {
    UnquoteQuote(JoinHostPort(host, FormatInt(port)));
    OneLineConcat("listen = ", Quote(JoinHostPort(host, FormatInt(port))));
    OneLineConcat("remote = ", Quote(JoinHostPort(host, FormatInt(port))));
  }

  lemma IdOneLine(id: int)
    ensures OneLine(IdLine(id))
  {
  }

  lemma FixedOneLine(noTCP: bool, useUDP: bool)
    ensures OneLine("") && OneLine("[[endpoints]]") && OneLine("[endpoints.network]")
    ensures OneLine(TcpLine(noTCP)) && OneLine(UdpLine(useUDP))
  {
  }

  lemma NoNewlines(relay: Relay)
    ensures forall l :: l in EndpointLines(relay, false) ==> OneLine(l)
  {
    hide IdLine, ListenLine, RemoteLine, TcpLine, UdpLine, OneLine, OptionsOf;
    var (noTCP, useUDP) := OptionsOf(relay.network);
    FixedOneLine(noTCP, useUDP);
    IdOneLine(relay.id);
    QuotedOneLine(relay.listenAddress, relay.listenPort);
    QuotedOneLine(relay.targetHost, relay.targetPort);
  }

  lemma {:induction false} AllNoNewlines(values: seq<Relay>)
    ensures forall l :: l in AllLines(values, false) ==> OneLine(l)
  {
    hide EndpointLines;
    if values != [] {
      NoNewlines(values[0]);
      AllNoNewlines(values[1..]);
    }
  }

  lemma HeaderParses(syntax: Syntax, rest: seq<string>)
    ensures ParseLines(syntax, [], HEADER + rest) == ParseLines(syntax, [], rest)
  {
    hide ParseLine;
    HeaderLine(syntax, HEADER[0]);
    HeaderLine(syntax, HEADER[1]);
    HeaderLine(syntax, HEADER[2]);
    StepLine(syntax, [], [], HEADER, rest, 0);
    StepLine(syntax, [], [], HEADER, rest, 1);
    StepLine(syntax, [], [], HEADER, rest, 2);
    assert HEADER[0..] == HEADER && HEADER[3..] + rest == rest;
  }

  lemma HeaderLine(syntax: Syntax, line: string)
    requires line in HEADER
    ensures ParseLine(syntax, [], line) == Some([]) && OneLine(line)
  {
    assert line == HEADER[0] || line == HEADER[1] || line == HEADER[2];
    TrimmedAlready(line);
    assert |line| != 13;
  }

  lemma TextLines(values: seq<Relay>)
    ensures Lines(TextOf(values, false)) == HEADER + (AllLines(values, false) + [""])
  {
    hide EndpointLines, ParseLine;
    AllNoNewlines(values);
    var syntax := Syntax(s => false, s => false);
    forall l | l in HEADER
      ensures OneLine(l)
    {
      HeaderLine(syntax, l);
    }
    LinesUnlines(HEADER + AllLines(values, false));
  }

  lemma ExpectedComplete(syntax: Syntax, relay: Relay)
    requires Sane(syntax) && Accepted(syntax, relay)
    ensures Complete(ExpectedListener(relay))
  {
  }

  /** The round trip: parsing what was rendered gives the expected listeners and rules, in id order. */
  lemma ParseRendered(syntax: Syntax, relays: seq<Relay>)
    requires Sane(syntax) && forall r :: r in relays ==> Accepted(syntax, r)
    ensures RenderSpec(syntax, SortById(relays), false).Ok?
    ensures ParseSpec(syntax, RenderSpec(syntax, SortById(relays), false).value)
         == Some(State(ExpectedListeners(SortById(relays)), ExpectedRules(SortById(relays))))
  {
    hide EndpointLines, ParseLine, ExpectedListener, Accepted, SortById;
    SortByIdSorts(relays);
    var values := SortById(relays);
    TextLines(values);
    HeaderParses(syntax, AllLines(values, false) + [""]);
    AllParse(syntax, [], values);
    assert [] + ExpectedListeners(values) == ExpectedListeners(values);
    forall l | l in ExpectedListeners(values)
      ensures Complete(l)
    {
      var k :| 0 <= k < |values| && l == ExpectedListener(values[k]);
      ExpectedComplete(syntax, values[k]);
    }
  }

  /** The rules do not depend on the order the relays arrive in. */
  lemma {:induction false} RuleSetByMembers(relays: seq<Relay>, rule: Rule)
    ensures rule in ExpectedRules(relays) <==> exists r :: r in relays && rule in ListenerRules(ExpectedListener(r))
  {
    if relays != [] {
      RuleSetByMembers(relays[1..], rule);
      assert ExpectedListeners(relays)[1..] == ExpectedListeners(relays[1..]);
    }
  }

  /** So the firewall a rollback restores from the old text is the one the old relays were installed with. */
  lemma RestoredRules(syntax: Syntax, relays: seq<Relay>)
    requires Sane(syntax) && forall r :: r in relays ==> Accepted(syntax, r)
    ensures var text := RenderSpec(syntax, SortById(relays), false);
            text.Ok? && ParseSpec(syntax, text.value).Some?
            && Sorting.Elements(ParseSpec(syntax, text.value).value.rules) == Sorting.Elements(ExpectedRules(relays))
  {
    ParseRendered(syntax, relays);
    SortByIdSorts(relays);
    forall rule
      ensures rule in ExpectedRules(SortById(relays)) <==> rule in ExpectedRules(relays)
    {
      RuleSetByMembers(relays, rule);
      RuleSetByMembers(SortById(relays), rule);
    }
  }
}
