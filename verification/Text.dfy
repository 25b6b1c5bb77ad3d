/**
 The string helpers the config texts are made of, each with the inverse the parsers use: decimal
 numbers, quoted strings, host:port pairs, and lines.
 */
module Text {
  import opened Wrappers

  predicate Digit(c: char) {
    '0' <= c <= '9'
  }

  function DigitChar(n: nat): (c: char)
    requires n < 10
    ensures Digit(c) && DigitValue(c) == n
  {
    ('0' as nat + n) as char
  }

  function DigitValue(c: char): (n: nat)
    requires Digit(c)
  {
    c as nat - '0' as nat
  }

  /** strconv.Itoa for a non-negative number. */
  function Itoa(n: nat): (s: string)
    ensures s != "" && forall c :: c in s ==> Digit(c)
    decreases n
  {
    if n < 10 then [DigitChar(n)] else Itoa(n / 10) + [DigitChar(n % 10)]
  }

  /** strconv.FormatInt. */
  function FormatInt(n: int): (s: string) {
    if n < 0 then "-" + Itoa(-n) else Itoa(n)
  }

  /** Value of a digit string; None when another character occurs. */
  function Digits(s: string): (n: Option<nat>)
    decreases |s|
  {
    if s == "" then Some(0) else
      var rest := Digits(s[..|s| - 1]);
      if rest.None? || !Digit(s[|s| - 1]) then None else Some(10 * rest.value + DigitValue(s[|s| - 1]))
  }

  /** strconv.Atoi, signs included. */
  function Atoi(s: string): (n: Option<int>) {
    var unsigned := if s != "" && (s[0] == '+' || s[0] == '-') then s[1..] else s;
    if unsigned == "" || Digits(unsigned).None? then None
    else
      var value: int := Digits(unsigned).value;
      Some(if s[0] == '-' then -value else value)
  }

  lemma DigitsSnoc(s: string, d: nat)
    requires d < 10 && Digits(s).Some?
    ensures Digits(s + [DigitChar(d)]) == Some(10 * Digits(s).value + d)
  {
    assert (s + [DigitChar(d)])[..|s|] == s;
  }

  lemma {:induction false} DigitsItoa(n: nat)
    ensures Digits(Itoa(n)) == Some(n)
  {
    if n < 10 {
      DigitsSnoc("", n);
      assert "" + [DigitChar(n)] == [DigitChar(n)];
    } else {
      DigitsItoa(n / 10);
      DigitsSnoc(Itoa(n / 10), n % 10);
    }
  }

  lemma AtoiItoa(n: nat)
    ensures Atoi(Itoa(n)) == Some(n)
  {
    DigitsItoa(n);
    assert Itoa(n)[0] in Itoa(n);
  }

  /** Signs are read, a plus sign included. */
  lemma AtoiSigned(n: nat)
    ensures Atoi("-" + Itoa(n)) == Some(0 - n) && Atoi("+" + Itoa(n)) == Some(n)
  {
    DigitsItoa(n);
    assert ("-" + Itoa(n))[1..] == Itoa(n) && ("+" + Itoa(n))[1..] == Itoa(n);
  }

  lemma AtoiFormatInt(n: int)
    ensures Atoi(FormatInt(n)) == Some(n)
  {
    if n < 0 {
      AtoiSigned(-n);
    } else {
      AtoiItoa(n);
    }
  }

  /** The escapes that matter for a line-based file; other characters are written as they are. */
  function Escape(s: string): (e: string) {
    if s == "" then "" else
      (if s[0] == '"' then "\\\"" else if s[0] == '\\' then "\\\\" else if s[0] == '\n' then "\\n" else [s[0]]) + Escape(s[1..])
  }

  function Unescape(e: string): (s: Option<string>)
    decreases |e|
  {
    if e == "" then Some("")
    else if e[0] == '"' || e[0] == '\n' then None
    else if e[0] != '\\' then
      var rest := Unescape(e[1..]);
      if rest.None? then None else Some([e[0]] + rest.value)
    else if |e| < 2 || e[1] !in "\"\\n" then None
    else
      var rest := Unescape(e[2..]);
      if rest.None? then None else Some([if e[1] == 'n' then '\n' else e[1]] + rest.value)
  }

  /** strconv.Quote. */
  function Quote(s: string): (q: string) {
    "\"" + Escape(s) + "\""
  }

  /** strconv.Unquote of a double-quoted string. */
  function Unquote(q: string): (s: Option<string>) {
    if |q| < 2 || q[0] != '"' || q[|q| - 1] != '"' then None else Unescape(q[1..|q| - 1])
  }

  /** A backslash and the code of a special character stand for that character. */
  lemma UnescapeSpecial(c: char, code: char, e: string)
    requires Unescape(e).Some?
    requires (c == code == '"') || (c == code == '\\') || (c == '\n' && code == 'n')
    ensures Unescape(['\\', code] + e) == Some([c] + Unescape(e).value)
  {
  }

  lemma UnescapePlain(c: char, e: string)
    requires Unescape(e).Some? && c != '"' && c != '\\' && c != '\n'
    ensures Unescape([c] + e) == Some([c] + Unescape(e).value)
  {
  }

  lemma {:induction false} UnescapeEscape(s: string)
    ensures Unescape(Escape(s)) == Some(s)
    ensures '\n' !in Escape(s)
  {
    hide Unescape;
    if s != "" {
      UnescapeEscape(s[1..]);
      assert [s[0]] + s[1..] == s;
      if s[0] == '"' {
        UnescapeSpecial('"', '"', Escape(s[1..]));
        assert Escape(s) == ['\\', '"'] + Escape(s[1..]);
      } else if s[0] == '\\' {
        UnescapeSpecial('\\', '\\', Escape(s[1..]));
        assert Escape(s) == ['\\', '\\'] + Escape(s[1..]);
      } else if s[0] == '\n' {
        UnescapeSpecial('\n', 'n', Escape(s[1..]));
        assert Escape(s) == ['\\', 'n'] + Escape(s[1..]);
      } else {
        UnescapePlain(s[0], Escape(s[1..]));
        assert Escape(s) == [s[0]] + Escape(s[1..]);
      }
    } else {
      NothingEscaped();
    }
  }

  lemma NothingEscaped()
    ensures Unescape("") == Some("")
  {
  }

  lemma UnquoteQuote(s: string)
    ensures Unquote(Quote(s)) == Some(s)
    ensures '\n' !in Quote(s)
  {
    UnescapeEscape(s);
    assert Quote(s)[1..|Quote(s)| - 1] == Escape(s);
  }

  lemma {:induction false} EscapeUnescape(e: string)
    ensures Unescape(e).Some? ==> Escape(Unescape(e).value) == e
    decreases |e|
  {
    if e != "" && Unescape(e).Some? {
      if e[0] == '\\' {
        EscapeUnescape(e[2..]);
        assert e == [e[0], e[1]] + e[2..];
      } else {
        EscapeUnescape(e[1..]);
        assert e == [e[0]] + e[1..];
      }
    }
  }

  /** What is read as quoted is the quoted form of what is read, so nothing else is. */
  lemma QuoteUnquote(q: string)
    ensures Unquote(q).Some? ==> Quote(Unquote(q).value) == q
  {
    if Unquote(q).Some? {
      EscapeUnescape(q[1..|q| - 1]);
      assert q == "\"" + q[1..|q| - 1] + "\"";
    }
  }

  function IndexOf(s: string, c: char): (i: Option<nat>)
    ensures i.Some? ==> i.value < |s| && s[i.value] == c && c !in s[..i.value]
    ensures i.None? ==> c !in s
  {
    if s == "" then None else if s[0] == c then Some(0) else
      var rest := IndexOf(s[1..], c);
      if rest.None? then None else Some(rest.value + 1)
  }

  function LastIndexOf(s: string, c: char): (i: Option<nat>)
    ensures i.Some? ==> i.value < |s| && s[i.value] == c && c !in s[i.value + 1..]
    ensures i.None? ==> c !in s
    decreases |s|
  {
    if s == "" then None else if s[|s| - 1] == c then Some(|s| - 1) else LastIndexOf(s[..|s| - 1], c)
  }

  lemma IndexIs(s: string, c: char, at: nat)
    requires at < |s| && s[at] == c && c !in s[..at]
    ensures IndexOf(s, c) == Some(at)
  {
  }

  lemma LastIndexIs(s: string, c: char, at: nat)
    requires at < |s| && s[at] == c && c !in s[at + 1..]
    ensures LastIndexOf(s, c) == Some(at)
    decreases |s|
  {
  }

  /** net.JoinHostPort. */
  function JoinHostPort(host: string, port: string): (s: string) {
    if ':' in host then "[" + host + "]:" + port else host + ":" + port
  }

  /** net.SplitHostPort. */
  function SplitHostPort(s: string): (hp: Option<(string, string)>) {
    var colon := LastIndexOf(s, ':');
    if colon.None? then None
    else if s[0] == '[' then
      var end := IndexOf(s, ']');
      if end.None? || end.value + 1 != colon.value || '[' in s[1..] || ']' in s[end.value + 1..] then None
      else Some((s[1..end.value], s[colon.value + 1..]))
    else if ':' in s[..colon.value] || '[' in s || ']' in s then None
    else Some((s[..colon.value], s[colon.value + 1..]))
  }

  lemma PortText(port: string)
    requires forall c :: c in port ==> Digit(c)
    ensures ':' !in port && '[' !in port && ']' !in port
  {
  }

  lemma SplitBracketed(host: string, port: string)
    requires '[' !in host && ']' !in host
    requires forall c :: c in port ==> Digit(c)
    ensures SplitHostPort("[" + host + "]:" + port) == Some((host, port))
  {
    var s := "[" + host + "]:" + port;
    var close := |host| + 1;
    PortText(port);
    hide LastIndexOf, IndexOf, Digit;
    assert s[..close] == "[" + host && s[1..close] == host && s[close] == ']' && s[close + 1] == ':';
    assert s[close + 1..] == ":" + port && s[close + 1 + 1..] == port;
    LastIndexIs(s, ':', close + 1);
    assert ']' !in "[" + host;
    IndexIs(s, ']', close);
    assert s[1..] == host + ("]:" + port);
    assert '[' !in "]:" + port;
  }

  lemma NotIn(a: string, b: string, c: char)
    requires c !in a && c !in b
    ensures c !in a + b
  {
  }

  lemma SplitPlain(host: string, port: string)
    requires '[' !in host && ']' !in host && ':' !in host
    requires forall c :: c in port ==> Digit(c)
    ensures SplitHostPort(host + ":" + port) == Some((host, port))
  {
    hide LastIndexOf, IndexOf, Digit;
    var s := host + ":" + port;
    PortText(port);
    assert s[..|host|] == host && s[|host|] == ':' && s[|host| + 1..] == port;
    LastIndexIs(s, ':', |host|);
    NotIn(host, ":", '[');
    NotIn(host + ":", port, '[');
    NotIn(host, ":", ']');
    NotIn(host + ":", port, ']');
    assert s[0] in s;
  }

  /** Brackets are the only characters a host must not contain. */
  lemma SplitJoin(host: string, port: string)
    requires '[' !in host && ']' !in host
    requires forall c :: c in port ==> Digit(c)
    ensures SplitHostPort(JoinHostPort(host, port)) == Some((host, port))
  {
    if ':' in host {
      SplitBracketed(host, port);
    } else {
      SplitPlain(host, port);
    }
  }

  /** strings.Split(s, "\n"). */
  function Lines(s: string): (ls: seq<string>)
    ensures |ls| > 0
    decreases |s|
  {
    var i := IndexOf(s, '\n');
    if i.None? then [s] else [s[..i.value]] + Lines(s[i.value + 1..])
  }

  /** Each line followed by a newline. */
  function Unlines(ls: seq<string>): (s: string) {
    if ls == [] then "" else ls[0] + "\n" + Unlines(ls[1..])
  }

  lemma FirstLine(a: string, b: string)
    requires OneLine(a)
    ensures Lines(a + "\n" + b) == [a] + Lines(b)
  {
    var s := a + "\n" + b;
    assert s[..|a|] == a && s[|a| + 1..] == b;
    IndexIs(s, '\n', |a|);
  }

  lemma {:induction false} LinesUnlines(ls: seq<string>)
    requires forall l :: l in ls ==> OneLine(l)
    ensures Lines(Unlines(ls)) == ls + [""]
  {
    hide OneLine;
    if ls != [] {
      FirstLine(ls[0], Unlines(ls[1..]));
      LinesUnlines(ls[1..]);
      assert [ls[0]] + (ls[1..] + [""]) == ls + [""];
    }
  }

  lemma {:induction false} UnlinesConcat(a: seq<string>, b: seq<string>)
    ensures Unlines(a + b) == Unlines(a) + Unlines(b)
  {
    if a == [] {
      assert a + b == b;
    } else {
      assert (a + b)[1..] == a[1..] + b;
      UnlinesConcat(a[1..], b);
    }
  }

  /** unicode.IsSpace. */
  predicate Space(c: char) {
    var r := c as int;
    || 0x09 <= r <= 0x0d || r == 0x20 || r == 0x85 || r == 0xa0
    || r == 0x1680 || 0x2000 <= r <= 0x200a || r == 0x2028 || r == 0x2029 || r == 0x202f || r == 0x205f || r == 0x3000
  }

  /** strings.TrimSpace. */
  function TrimSpace(s: string): (t: string)
    decreases |s|
  {
    if s != "" && Space(s[0]) then TrimSpace(s[1..])
    else if s != "" && Space(s[|s| - 1]) then TrimSpace(s[..|s| - 1])
    else s
  }

  /** A text that starts and ends with a visible character is its own trimmed form. */
  lemma TrimmedAlready(s: string)
    requires s == "" || (!Space(s[0]) && !Space(s[|s| - 1]))
    ensures TrimSpace(s) == s
  {
  }

  /** `t` is the part of `s` between its first and its last visible character. */
  ghost predicate Trimmed(s: string, t: string) {
    exists from: nat, to: nat :: TrimmedAt(s, from, to) && t == s[from..to]
  }

  ghost predicate TrimmedAt(s: string, from: nat, to: nat) {
    && from <= to <= |s| && (forall i :: 0 <= i < from || to <= i < |s| ==> Space(s[i]))
    && (from < to ==> !Space(s[from]) && !Space(s[to - 1]))
  }

  lemma {:induction false} TrimSpaceAt(s: string) returns (from: nat, to: nat)
    ensures TrimmedAt(s, from, to) && TrimSpace(s) == s[from..to]
    decreases |s|
  {
    hide Space;
    if s != "" && Space(s[0]) {
      var f, t := TrimSpaceAt(s[1..]);
      from, to := f + 1, t + 1;
      assert s[1..][f..t] == s[from..to];
      forall i | 0 <= i < from || to <= i < |s|
        ensures Space(s[i])
      {
        assert i > 0 ==> s[i] == s[1..][i - 1];
      }
    } else if s != "" && Space(s[|s| - 1]) {
      var init := s[..|s| - 1];
      from, to := TrimSpaceAt(init);
      assert init[from..to] == s[from..to];
      forall i | 0 <= i < from || to <= i < |s|
        ensures Space(s[i])
      {
        assert i < |s| - 1 ==> s[i] == init[i];
      }
    } else {
      from, to := 0, |s|;
    }
  }

  lemma TrimSpaceIs(s: string)
    ensures Trimmed(s, TrimSpace(s))
  {
    var from, to := TrimSpaceAt(s);
  }

  /** One by one: tab, line feed, vertical tab, form feed, carriage return, space, next line, no-break space,
      and the space separators and line terminators of Unicode. */
  lemma SpaceIs(c: char)
    ensures Space(c) <==> c as int in {9, 10, 11, 12, 13, 32, 133, 160, 5760, 8192, 8193, 8194, 8195, 8196, 8197, 8198,
                                       8199, 8200, 8201, 8202, 8232, 8233, 8239, 8287, 12288}
  {
  }

  predicate OneLine(s: string) {
    '\n' !in s
  }

  lemma OneLineConcat(a: string, b: string)
    requires OneLine(a) && OneLine(b)
    ensures OneLine(a + b)
  {
  }
}
