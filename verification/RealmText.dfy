/**
 What the rendered Realm config says, apart from the parser of this repository: the text of an endpoint,
 where it sends the traffic, and which ports the relays need open.
 */
module RealmText {
  import opened Wrappers
  import opened Text
  import opened RealmRender
  import Firewall

  // The rules of relays --------------------------------------------------------------------------------

  /** TCP for the networks with TCP, UDP for those with UDP. */
  ghost predicate Needs(relays: seq<Relay>, rule: Rule) {
    exists r :: r in relays && rule.port == r.listenPort
                && ((rule.protocol == "tcp" && r.network in ["tcp", "tcp,udp"]) || (rule.protocol == "udp" && r.network in ["udp", "tcp,udp"]))
  }

  lemma OneNeeds(syntax: Syntax, relay: Relay, rule: Rule)
    requires Accepted(syntax, relay)
    ensures rule in ListenerRules(ExpectedListener(relay)) <==>
              rule.port == relay.listenPort
              && ((rule.protocol == "tcp" && relay.network in ["tcp", "tcp,udp"])
                  || (rule.protocol == "udp" && relay.network in ["udp", "tcp,udp"]))
  {
  }

  /** The rules of the relays are the ports they need. */
  lemma RulesByNetwork(syntax: Syntax, relays: seq<Relay>, rule: Rule)
    requires forall r :: r in relays ==> Accepted(syntax, r)
    ensures rule in ExpectedRules(relays) <==> Needs(relays, rule)
  {
    hide Accepted, ListenerRules, ExpectedListener, ExpectedRules;
    RuleSetByMembers(relays, rule);
    forall r | r in relays
      ensures rule in ListenerRules(ExpectedListener(r)) <==>
                rule.port == r.listenPort
                && ((rule.protocol == "tcp" && r.network in ["tcp", "tcp,udp"])
                    || (rule.protocol == "udp" && r.network in ["udp", "tcp,udp"]))
    {
      OneNeeds(syntax, r, rule);
    }
  }

  // The text of an endpoint ----------------------------------------------------------------------------

  /** Which protocols the two switches leave on: no_tcp turns TCP off and use_udp turns UDP on. */
  lemma SwitchesMean(relay: Relay, validation: bool)
    ensures relay.network == "tcp" ==> EndpointLines(relay, validation)[6..] == ["no_tcp = false", "use_udp = false"]
    ensures relay.network == "udp" ==> EndpointLines(relay, validation)[6..] == ["no_tcp = true", "use_udp = true"]
    ensures relay.network == "tcp,udp" ==> EndpointLines(relay, validation)[6..] == ["no_tcp = false", "use_udp = true"]
  {
    hide IdLine, ListenLine, RemoteLine;
    assert EndpointLines(relay, validation)[6..] == [EndpointLines(relay, validation)[6], EndpointLines(relay, validation)[7]];
  }

  /** The line names this host and port to whoever reads it. */
  ghost predicate Names(line: string, tag: string, host: string, port: int) {
    tag <= line &&
    match Unquote(line[|tag|..])
    case None => false
    case Some(address) =>
      match SplitHostPort(address)
      case None => false
      case Some(pair) => pair.0 == host && Atoi(pair.1) == Some(port)
  }

  lemma SplitKeepsOut(s: string)
    ensures SplitHostPort(s).Some? ==> '[' !in SplitHostPort(s).value.0 && ']' !in SplitHostPort(s).value.0
  {
    if SplitHostPort(s).Some? {
      var host := SplitHostPort(s).value.0;
      var colon := LastIndexOf(s, ':').value;
      if s[0] == '[' {
        var end := IndexOf(s, ']').value;
        assert host == s[1..end];
        forall c | c in host
          ensures c != '[' && c != ']'
        {
          var i :| 0 <= i < |host| && host[i] == c;
          assert s[1..][i] == c && s[..end][i + 1] == c;
        }
      } else {
        assert forall c :: c in s[..colon] ==> c in s;
      }
    }
  }

  /** Brackets in the host are the one thing that spoils an address. */
  lemma AddressNames(tag: string, host: string, port: nat)
    ensures Names(tag + Quote(JoinHostPort(host, FormatInt(port))), tag, host, port) <==> '[' !in host && ']' !in host
  {
    var address := JoinHostPort(host, Itoa(port));
    assert (tag + Quote(address))[|tag|..] == Quote(address);
    UnquoteQuote(address);
    SplitKeepsOut(address);
    AtoiItoa(port);
    hide Quote, Unquote, JoinHostPort, SplitHostPort, Itoa, Atoi;
    if '[' !in host && ']' !in host {
      SplitJoin(host, Itoa(port));
    }
  }

  /** An endpoint sends its traffic to the relay's target, if and only if no bracket is in the target's name. */
  lemma RemoteReadsBack(relay: Relay, validation: bool)
    requires relay.targetPort >= 0
    ensures Names(EndpointLines(relay, validation)[4], "remote = ", relay.targetHost, relay.targetPort) <==>
              '[' !in relay.targetHost && ']' !in relay.targetHost
  {
    AddressNames("remote = ", relay.targetHost, relay.targetPort);
  }

  lemma NoBrackets()
    ensures '[' !in "127.0.0.1" && ']' !in "127.0.0.1"
  {
  }

  lemma EndpointParts(relay: Relay)
    ensures EndpointLines(relay, false)[3] == "listen = " + Quote(JoinHostPort(relay.listenAddress, FormatInt(relay.listenPort)))
    ensures EndpointLines(relay, true)[3] == "listen = " + Quote(JoinHostPort("127.0.0.1", FormatInt(0)))
  {
    hide Quote, JoinHostPort, FormatInt;
  }

  /** It listens where the relay does, and while it is only validated on no port of the outside. */
  lemma ListenReadsBack(syntax: Syntax, relay: Relay)
    requires Sane(syntax) && Accepted(syntax, relay)
    ensures Names(EndpointLines(relay, false)[3], "listen = ", relay.listenAddress, relay.listenPort)
    ensures Names(EndpointLines(relay, true)[3], "listen = ", "127.0.0.1", 0)
  {
    hide Names, Quote, JoinHostPort, FormatInt, EndpointLines;
    EndpointParts(relay);
    NoBrackets();
    AddressNames("listen = ", relay.listenAddress, relay.listenPort);
    AddressNames("listen = ", "127.0.0.1", 0);
  }

  // The host check lets a bracketed address through ----------------------------------------------------

  function SplitOn(s: string, c: char): (parts: seq<string>)
    decreases |s|
  {
    var i := IndexOf(s, c);
    if i.None? then [s] else [s[..i.value]] + SplitOn(s[i.value + 1..], c)
  }

  /** strings.Trim(s, "[]"). */
  function TrimBrackets(s: string): (t: string)
    decreases |s|
  {
    if s != "" && s[0] in "[]" then TrimBrackets(s[1..])
    else if s != "" && s[|s| - 1] in "[]" then TrimBrackets(s[..|s| - 1])
    else s
  }

  predicate LabelChar(c: char) {
    'a' <= c <= 'z' || 'A' <= c <= 'Z' || '0' <= c <= '9' || c == '-'
  }

  predicate HostLabel(part: string) {
    1 <= |part| <= 63 && part[0] != '-' && part[|part| - 1] != '-' && forall c :: c in part ==> LabelChar(c)
  }

  /** `validRealmHost`. Length is counted in characters; with any that is not ASCII the answer is no. */
  predicate ValidRealmHost(isIP: string -> bool, value: string) {
    var host := TrimSpace(value);
    && host != "" && (forall c :: c in host ==> c !in "/?#@")
    && (isIP(TrimBrackets(host))
        || (':' !in host && |host| <= 253 && host[0] != '.' && host[|host| - 1] != '.'
            && forall part :: part in SplitOn(host, '.') ==> HostLabel(part)))
  }

  /** "[::1]" is accepted, and the line it is rendered to names it to nobody. */
  lemma BracketedTarget(isIP: string -> bool)
    requires isIP("::1")
    ensures ValidRealmHost(isIP, "[::1]")
    ensures forall validation: bool, relay: Relay :: relay.targetHost == "[::1]" && relay.targetPort >= 0 ==>
              !Names(EndpointLines(relay, validation)[4], "remote = ", "[::1]", relay.targetPort)
  {
    Brackets();
    forall validation: bool, relay: Relay | relay.targetHost == "[::1]" && relay.targetPort >= 0
      ensures !Names(EndpointLines(relay, validation)[4], "remote = ", "[::1]", relay.targetPort)
    {
      RemoteReadsBack(relay, validation);
    }
  }

  lemma Brackets()
    ensures TrimSpace("[::1]") == "[::1]" && TrimBrackets("[::1]") == "::1"
  {
    var s := "[::1]";
    assert s[1..] == "::1]" && "::1]"[..3] == "::1";
    assert TrimBrackets("::1") == "::1";
    assert TrimBrackets("::1]") == "::1";
  }

  // A text, letter by letter ---------------------------------------------------------------------------

  lemma {:induction false} EscapePlain(s: string)
    requires forall c :: c in s ==> c != '"' && c != '\\' && c != '\n'
    ensures Escape(s) == s
  {
    if s != "" {
      assert s[0] in s && forall c :: c in s[1..] ==> c in s;
      EscapePlain(s[1..]);
      assert Escape(s) == [s[0]] + Escape(s[1..]);
      assert [s[0]] + s[1..] == s;
    }
  }

  lemma Numbers()
    ensures Itoa(1) == "1" && Itoa(80) == "80" && Itoa(9501) == "9501"
  {
    assert Itoa(8) == "8" && Itoa(9) == "9";
    assert Itoa(95) == Itoa(9) + "5";
    assert Itoa(950) == Itoa(95) + "0";
    assert Itoa(9501) == Itoa(950) + "1";
  }

  lemma ExampleAddresses()
    ensures ListenLine("0.0.0.0", 9501) == "listen = \"0.0.0.0:9501\"" && RemoteLine("example.com", 80) == "remote = \"example.com:80\""
  {
    Numbers();
    hide Escape, Itoa;
    var listen, remote := "0.0.0.0:9501", "example.com:80";
    assert JoinHostPort("0.0.0.0", "9501") == listen && JoinHostPort("example.com", "80") == remote;
    EscapePlain(listen);
    EscapePlain(remote);
  }

  lemma ExampleId()
    ensures IdLine(1) == "# relay_id = 1"
  {
    Numbers();
    hide Itoa;
  }

  /** One relay's config, line by line. */
  lemma ExampleText()
    ensures Lines(TextOf([Relay(1, "0.0.0.0", 9501, "example.com", 80, "tcp")], false))
         == ["[log]", "level = \"warn\"", "output = \"stdout\"", "", "[[endpoints]]", "# relay_id = 1", "listen = \"0.0.0.0:9501\"",
             "remote = \"example.com:80\"", "[endpoints.network]", "no_tcp = false", "use_udp = false", ""]
  {
    var relay := Relay(1, "0.0.0.0", 9501, "example.com", 80, "tcp");
    ExampleAddresses();
    ExampleId();
    TextLines([relay]);
    hide IdLine, ListenLine, RemoteLine, Lines, TextOf;
    assert [relay][1..] == [] && AllLines([relay], false) == EndpointLines(relay, false) + [];
  }
}
