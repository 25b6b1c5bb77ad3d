/**
 web/src/subscriptionRouting.ts, `routingPresetCopyName`: a loop without a bound looks for the first
 unused copy name. Strings are sequences of code points, as `Array.from` yields them.
 */
module CopyName {
  import opened Text
  import opened Wrappers

  const MAX_RUNES: nat := 100

  /** White space and line terminators, what String.prototype.trim removes. */
  predicate Blank(c: char) {
    var r := c as int;
    || 0x09 <= r <= 0x0d || r == 0x20 || r == 0xa0 || r == 0xfeff
    || r == 0x1680 || 0x2000 <= r <= 0x200a || r == 0x2028 || r == 0x2029 || r == 0x202f || r == 0x205f || r == 0x3000
  }

  /** One by one: tab, line feed, vertical tab, form feed, carriage return, space, no-break space, byte order
      mark, and the space separators and line terminators of Unicode. */
  lemma BlankIs(c: char)
    ensures Blank(c) <==> c as int in {9, 10, 11, 12, 13, 32, 160, 65279, 5760, 8192, 8193, 8194, 8195, 8196, 8197, 8198,
                                       8199, 8200, 8201, 8202, 8232, 8233, 8239, 8287, 12288}
  {
  }

  function TrimEnd(s: string): (t: string)
    ensures |t| <= |s| && t == s[..|t|]
    ensures t == "" || !Blank(t[|t| - 1])
    ensures forall i :: |t| <= i < |s| ==> Blank(s[i])
  {
    if s != "" && Blank(s[|s| - 1]) then TrimEnd(s[..|s| - 1]) else s
  }

  function TrimStart(s: string): (t: string) {
    if s != "" && Blank(s[0]) then TrimStart(s[1..]) else s
  }

  function Trim(s: string): (t: string) {
    TrimEnd(TrimStart(s))
  }

  /** `t` is the part of `s` between its first and its last visible character. */
  ghost predicate VisiblePart(s: string, t: string) {
    exists from: nat, to: nat ::
      && from <= to <= |s| && t == s[from..to]
      && (forall i :: 0 <= i < from || to <= i < |s| ==> Blank(s[i]))
      && (from < to ==> !Blank(s[from]) && !Blank(s[to - 1]))
  }

  lemma {:induction false} TrimStartIs(s: string) returns (from: nat)
    ensures from <= |s| && TrimStart(s) == s[from..] && (from < |s| ==> !Blank(s[from]))
    ensures forall i :: 0 <= i < from ==> Blank(s[i])
    decreases |s|
  {
    hide Blank;
    if s != "" && Blank(s[0]) {
      var n := TrimStartIs(s[1..]);
      from := n + 1;
      assert s[1..][n..] == s[from..];
      forall i | 0 <= i < from
        ensures Blank(s[i])
      {
        assert i > 0 ==> s[i] == s[1..][i - 1];
      }
    } else {
      from := 0;
    }
  }

  lemma VisibleBetween(s: string, from: nat, to: nat)
    requires from <= to <= |s| && forall i :: 0 <= i < from || to <= i < |s| ==> Blank(s[i])
    requires from < to ==> !Blank(s[from]) && !Blank(s[to - 1])
    ensures VisiblePart(s, s[from..to])
  {
  }

  lemma TrimIs(s: string)
    ensures VisiblePart(s, Trim(s))
  {
    hide Blank, TrimStart, VisiblePart;
    var from := TrimStartIs(s);
    var rest := s[from..];
    var n := |TrimEnd(rest)|;
    forall i | from + n <= i < |s|
      ensures Blank(s[i])
    {
      assert s[i] == rest[i - from];
    }
    assert n > 0 ==> s[from + n - 1] == rest[n - 1];
    VisibleBetween(s, from, from + n);
    assert s[from..from + n] == rest[..n];
  }

  /** `slice(0, end)`: a negative end counts from the back. */
  function Slice(s: string, end: int): (t: string)
    ensures |t| <= if end >= 0 then end else |s|
  {
    if end >= |s| then s else if end >= 0 then s[..end] else if -end <= |s| then s[..|s| + end] else ""
  }

  const COPY: string := " - 副本"

  function Suffix(number: nat): (s: string) {
    if number == 1 then COPY else COPY + " " + Itoa(number)
  }

  /** The name the loop tries in round `number`, for a trimmed original. */
  function Candidate(name: string, number: nat): (c: string) {
    TrimEnd(Slice(name, MAX_RUNES - |Suffix(number)|)) + Suffix(number)
  }

  // Different rounds try different names -----------------------------------------------------------

  /** A run of digits after a blank can be read off from behind. */
  lemma DigitRun(a: string, x: string, b: string, y: string)
    requires (forall c :: c in x ==> Digit(c)) && (forall c :: c in y ==> Digit(c))
    requires a + " " + x == b + " " + y
    ensures x == y
  {
    var s := a + " " + x;
    assert s[|a|] == ' ' && s[|b|] == ' ';
    assert forall i :: |a| < i < |s| ==> s[i] in x;
    assert forall i :: |b| < i < |s| ==> s[i] in y;
    assert |a| == |b|;
    assert x == s[|a| + 1..] && y == s[|b| + 1..];
  }

  /** However much of the name was cut or trimmed away. */
  lemma CandidatesDiffer(name: string, i: nat, j: nat)
    requires 1 <= i < j
    ensures Candidate(name, i) != Candidate(name, j)
  {
    hide TrimEnd, Slice, Itoa, Suffix;
    var a := TrimEnd(Slice(name, MAX_RUNES - |Suffix(i)|));
    var b := TrimEnd(Slice(name, MAX_RUNES - |Suffix(j)|));
    SuffixesDiffer(a, i, b, j);
  }

  lemma SuffixesDiffer(a: string, i: nat, b: string, j: nat)
    requires 1 <= i < j
    ensures a + Suffix(i) != b + Suffix(j)
  {
    hide Itoa;
    var x, y := a + Suffix(i), b + Suffix(j);
    assert y == (b + COPY) + " " + Itoa(j);
    if i == 1 {
      assert y[|y| - 1] == Itoa(j)[|Itoa(j)| - 1] && Itoa(j)[|Itoa(j)| - 1] in Itoa(j);
      assert x[|x| - 1] == '本';
    } else if x == y {
      assert x == (a + COPY) + " " + Itoa(i);
      DigitRun(a + COPY, Itoa(i), b + COPY, Itoa(j));
      DigitsItoa(i);
      DigitsItoa(j);
    }
  }

  function Tried(name: string, rounds: nat): (tried: set<string>) {
    set i | 1 <= i <= rounds :: Candidate(name, i)
  }

  lemma {:induction false} TriedCount(name: string, rounds: nat)
    ensures |Tried(name, rounds)| == rounds
  {
    hide Candidate;
    if rounds > 0 {
      TriedCount(name, rounds - 1);
      forall i | 1 <= i < rounds
        ensures Candidate(name, i) != Candidate(name, rounds)
      {
        CandidatesDiffer(name, i, rounds);
      }
      assert Tried(name, rounds) == Tried(name, rounds - 1) + {Candidate(name, rounds)};
    } else {
      assert Tried(name, 0) == {};
    }
  }

  lemma SubsetSize<T>(a: set<T>, b: set<T>)
    requires a <= b
    ensures |a| <= |b|
  {
    assert b == a + (b - a);
  }

  /** Pigeonhole: as many rounds as there are names cannot all have failed. */
  lemma RoundsBound(name: string, used: set<string>, rounds: nat)
    requires forall i :: 1 <= i <= rounds ==> Candidate(name, i) in used
    ensures rounds <= |used|
  {
    TriedCount(name, rounds);
    SubsetSize(Tried(name, rounds), used);
  }

  // The length limit -------------------------------------------------------------------------------

  function Pow10(n: nat): (p: nat)
    ensures p >= 1
  {
    if n == 0 then 1 else 10 * Pow10(n - 1)
  }

  lemma {:induction false} ItoaLength(n: nat, digits: nat)
    requires digits >= 1
    ensures |Itoa(n)| <= digits <==> n < Pow10(digits)
  {
    if digits == 1 {
      assert Pow10(1) == 10;
    } else if n < 10 {
      ItoaLength(n, digits - 1);
    } else {
      ItoaLength(n / 10, digits - 1);
    }
  }

  /** A candidate is within the limit exactly up to round 10^94. */
  lemma CandidateLength(name: string, number: nat)
    requires number >= 1
    ensures |Candidate(name, number)| <= MAX_RUNES <==> number < Pow10(94)
  {
    ItoaLength(number, 94);
    assert number == 1 ==> |Itoa(1)| == 1;
  }

  /** What a candidate keeps of the original: the beginning of it, all of it when it fits. */
  lemma CandidateKeeps(name: string, number: nat)
    requires name == "" || !Blank(name[|name| - 1])
    ensures exists n :: 0 <= n <= |name| && Candidate(name, number) == name[..n] + Suffix(number)
    ensures |name| + |Suffix(number)| <= MAX_RUNES ==> Candidate(name, number) == name + Suffix(number)
  {
    var base := TrimEnd(Slice(name, MAX_RUNES - |Suffix(number)|));
    assert base == name[..|base|];
  }

  /** The decimal digits of the number. */
  ghost predicate Numeral(digits: string, number: nat) {
    (forall c :: c in digits ==> '0' <= c <= '9') && Digits(digits) == Some(number)
  }

  /** What is put behind a copy's name in that round: nothing but the word for copy in the first, and the
      number with it in every other. */
  ghost predicate CopyMark(mark: string, number: nat) {
    if number == 1 then mark == " - 副本" else exists digits :: Numeral(digits, number) && mark == " - 副本 " + digits
  }

  /** `copy` is as much of the name as goes in 100 code points with the mark, without blanks before it. */
  ghost predicate CopyOf(copy: string, name: string, mark: string) {
    exists n: nat ::
      && n <= |name| && copy == name[..n] + mark && (n > 0 ==> !Blank(name[n - 1]))
      && (forall i :: n <= i < |name| && i + |mark| < 100 ==> Blank(name[i]))
      && n + |mark| <= 100
  }

  lemma SuffixIs(number: nat)
    requires number >= 1
    ensures CopyMark(Suffix(number), number)
  {
    DigitsItoa(number);
    assert number > 1 ==> Numeral(Itoa(number), number);
  }

  lemma BaseIs(name: string, mark: string)
    requires |mark| <= 100
    ensures CopyOf(TrimEnd(Slice(name, MAX_RUNES - |mark|)) + mark, name, mark)
  {
    hide Blank;
    var part := Slice(name, MAX_RUNES - |mark|);
    var n := |TrimEnd(part)|;
    assert part == name[..|part|] && TrimEnd(part) == name[..n];
    forall i | n <= i < |name| && i + |mark| < 100
      ensures Blank(name[i])
    {
      assert part[i] == name[i];
    }
    assert n > 0 ==> TrimEnd(part)[n - 1] == name[n - 1];
  }

  lemma CandidateIs(name: string, number: nat)
    requires number >= 1
    ensures CopyMark(Suffix(number), number)
    ensures number < Pow10(94) ==> CopyOf(Candidate(name, number), name, Suffix(number))
  {
    hide TrimEnd, Slice, CopyOf, CopyMark, Pow10, Suffix;
    SuffixIs(number);
    if number < Pow10(94) {
      CandidateLength(name, number);
      BaseIs(name, Suffix(number));
    }
  }

  // The loop ---------------------------------------------------------------------------------------

  /** The loop ends, within one round more than there are names, with the first unused candidate. */
  method RoutingPresetCopyName(name: string, existingNames: set<string>) returns (candidate: string)
    ensures candidate !in existingNames
    ensures exists number :: 1 <= number <= |existingNames| + 1 && candidate == Candidate(Trim(name), number)
                             && forall i :: 1 <= i < number ==> Candidate(Trim(name), i) in existingNames
    ensures |existingNames| + 1 < Pow10(94) ==> |candidate| <= 100
    ensures |existingNames| + 1 < Pow10(94) ==>
              exists name', mark, number :: VisiblePart(name, name') && CopyMark(mark, number) && CopyOf(candidate, name', mark)
  {
    TrimIs(name);
    hide Pow10, Trim, TrimEnd, Slice, Itoa, Blank;
    var trimmed := Trim(name);
    var copyNumber := 1;
    while true
      invariant 1 <= copyNumber <= |existingNames| + 1
      invariant forall i :: 1 <= i < copyNumber ==> Candidate(trimmed, i) in existingNames
      decreases |existingNames| - copyNumber
    {
      var suffix := if copyNumber == 1 then COPY else COPY + " " + Itoa(copyNumber);
      var base := TrimEnd(Slice(trimmed, MAX_RUNES - |suffix|));
      candidate := base + suffix;
      assert candidate == Candidate(trimmed, copyNumber);
      hide Candidate;
      if candidate !in existingNames {
        CandidateLength(trimmed, copyNumber);
        CandidateIs(trimmed, copyNumber);
        return;
      }
      RoundsBound(trimmed, existingNames, copyNumber);
      copyNumber := copyNumber + 1;
    }
  }
}
