/**
 The prefix lists of panel/cmd/agent/china_firewall.go: read from registry lines, written to the
 cache, and accepted again when the cache is read. Line splitting and address parsing are done
 before; netip's text form of a network reads back as that network.
 */
module ChinaRegistry {
  import opened Wrappers
  import opened Cidr
  import opened ChinaPrefixes
  import opened Sorting

  /** The number of IPv6 addresses. */
  const SPACE6: nat := SPACE * SPACE * SPACE * SPACE

  /** `hostBits` is 32 or 128 minus the prefix length. */
  datatype Network = Network(v4: bool, addr: nat, hostBits: nat) {
    predicate Masked() {
      Aligned(addr, hostBits)
    }

    /** A prefix netip can hold, without host bits. */
    predicate Real() {
      Masked() && if v4 then hostBits <= 32 && addr < SPACE else hostBits <= 128 && addr < SPACE6
    }
  }

  datatype Address = V4(value: nat) | V6(value: nat) | V4InV6(value: nat)

  /** A trimmed line, split at the bars. */
  type Fields = seq<string>

  /** netip.ParseAddr, strconv.ParseUint with 64 bits, and strconv.Atoi. */
  datatype Readers = Readers(address: string -> Option<Address>, count: string -> Option<nat>, bits: string -> Option<int>)

  predicate Ranged(read: Readers, line: Fields) {
    && (|line| > 3 && read.address(line[3]).Some? && read.address(line[3]).value.V4? ==> read.address(line[3]).value.value < SPACE)
    && (|line| > 3 && read.address(line[3]).Some? && read.address(line[3]).value.V6? ==> read.address(line[3]).value.value < SPACE6)
    && (|line| > 4 && read.count(line[4]).Some? ==> read.count(line[4]).value < SPACE * SPACE)
  }

  /** Some line delegates the `count` IPv4 addresses from `start` on, all of them in the address space. */
  ghost predicate Delegates4(lines: seq<Fields>, read: Readers, start: nat, count: nat) {
    && 0 < count && start + count <= SPACE
    && exists line ::
         && line in lines && |line| >= 7 && line[0] == "apnic" && line[1] == "CN" && line[2] == "ipv4"
         && read.address(line[3]) == Some(V4(start)) && read.count(line[4]) == Some(count)
         && (line[6] == "allocated" || line[6] == "assigned")
  }

  /** Some line delegates the IPv6 network of this length that starts there. */
  ghost predicate Delegates6(lines: seq<Fields>, read: Readers, start: nat, length: int) {
    && 0 <= length <= 128 && start % Pow2(128 - length) == 0
    && exists line ::
         && line in lines && |line| >= 7 && line[0] == "apnic" && line[1] == "CN" && line[2] == "ipv6"
         && read.address(line[3]) == Some(V6(start)) && read.bits(line[4]) == Some(length)
         && (line[6] == "allocated" || line[6] == "assigned")
  }

  /** The address is in one of the networks. */
  ghost predicate Listed(networks: seq<Network>, x: nat) {
    exists n :: n in networks && n.addr <= x < n.addr + Pow2(n.hostBits)
  }

  ghost predicate InOneRange(lines: seq<Fields>, read: Readers, x: nat) {
    exists start: nat, count: nat :: Delegates4(lines, read, start, count) && start <= x < start + count
  }

  /** A block that no larger one inside the range of one line contains. */
  ghost predicate LargestOfOne(lines: seq<Fields>, read: Readers, n: Network) {
    n.v4 && exists start: nat, count: nat :: Delegates4(lines, read, start, count) && Maximal(Prefix(n.addr, n.hostBits), start, start + count)
  }

  // What one line contributes.

  predicate Relevant(line: Fields) {
    |line| >= 7 && line[0] == "apnic" && line[1] == "CN" && (line[6] == "allocated" || line[6] == "assigned")
  }

  /** The maximal blocks of its range. */
  function V4Of(read: Readers): (of: Fields -> set<Network>) {
    (line: Fields) =>
      if Relevant(line) && line[2] == "ipv4" && read.address(line[3]).Some? && read.address(line[3]).value.V4? && read.count(line[4]).Some?
         && read.address(line[3]).value.value + read.count(line[4]).value <= SPACE
      then set p | p in Greedy(read.address(line[3]).value.value, read.count(line[4]).value) :: Network(true, p.addr, p.blockBits)
      else {}
  }

  function V6Of(read: Readers): (of: Fields -> set<Network>) {
    (line: Fields) =>
      if Relevant(line) && line[2] == "ipv6" && read.address(line[3]).Some? && read.address(line[3]).value.V6? && read.bits(line[4]).Some?
         && 0 <= read.bits(line[4]).value <= 128 && Aligned(read.address(line[3]).value.value, 128 - read.bits(line[4]).value)
      then {Network(false, read.address(line[3]).value.value, 128 - read.bits(line[4]).value)}
      else {}
  }

  function AllOf(lines: seq<Fields>, of: Fields -> set<Network>): (s: set<Network>) {
    set i, n | 0 <= i < |lines| && n in of(lines[i]) :: n
  }

  /** The order of `sortedPrefixStrings`: by address, then shorter prefixes first. */
  predicate Before(a: Network, b: Network) {
    a.addr < b.addr || (a.addr == b.addr && a.hostBits > b.hostBits)
  }

  /** Each network once, by address, and the larger of two that start together first. */
  ghost predicate Ascending(networks: seq<Network>) {
    forall i, j :: 0 <= i < j < |networks| ==>
      networks[i].addr < networks[j].addr || (networks[i].addr == networks[j].addr && networks[i].hostBits > networks[j].hostBits)
  }

  /** `parseAPNICChinaPrefixes`. The IPv4 list holds exactly the largest blocks of the delegated ranges, so
      its addresses are exactly the delegated ones; the IPv6 list exactly the delegated networks that have no
      host bits. It is an error when one family has none. */
  method ParseRegistry(lines: seq<Fields>, read: Readers) returns (r: Result<(seq<Network>, seq<Network>), string>)
    requires forall line :: line in lines ==> Ranged(read, line)
    ensures r.Ok? <==> (exists start: nat, count: nat :: Delegates4(lines, read, start, count)) && exists start: nat, length: int :: Delegates6(lines, read, start, length)
    ensures r.Ok? ==> forall n :: n in r.value.0 <==> LargestOfOne(lines, read, n)
    ensures r.Ok? ==> forall x: nat :: Listed(r.value.0, x) <==> InOneRange(lines, read, x)
    ensures r.Ok? ==> forall n :: n in r.value.1 <==> !n.v4 && n.hostBits <= 128 && Delegates6(lines, read, n.addr, 128 - n.hostBits)
    ensures r.Ok? ==> Ascending(r.value.0) && Ascending(r.value.1)
    ensures r.Ok? ==>
              forall format, parse :: Faithful(format, parse) ==>
                Acceptable(parse, Texts(r.value.0, format), true) && Acceptable(parse, Texts(r.value.1, format), false)
  {
    var ipv4, ipv6 := Collect(lines, read);
    Meaning4(lines, read);
    Meaning6(lines, read);
    AllMasked(lines, read);
    hide Greedy, Aligned, AllOf, V4Of, V6Of, Ranged, Delegates4, Delegates6, Maximal;
    if ipv4 == {} || ipv6 == {} {
      return Err("APNIC response contains no usable China prefixes");
    }
    var first := Sorted(ipv4, Before);
    var second := Sorted(ipv6, Before);
    ArrangedAscends(first, true);
    ArrangedAscends(second, false);
    SameElements(first, ipv4);
    SameElements(second, ipv6);
    forall x: nat
      ensures Listed(first, x) <==> InOneRange(lines, read, x)
    {
      ListedMeans(lines, read, first, x);
    }
    assert first != [] && second != [];
    forall format, parse | Faithful(format, parse)
      ensures Acceptable(parse, Texts(first, format), true) && Acceptable(parse, Texts(second, format), false)
    {
      CacheRoundTrip(format, parse, first, true);
      CacheRoundTrip(format, parse, second, false);
    }
    return Ok((first, second));
  }

  /** The loop over the lines. */
  method Collect(lines: seq<Fields>, read: Readers) returns (ipv4: set<Network>, ipv6: set<Network>)
    requires forall line :: line in lines ==> Ranged(read, line)
    ensures ipv4 == AllOf(lines, V4Of(read)) && ipv6 == AllOf(lines, V6Of(read))
  {
    AllOfNone(lines, V4Of(read));
    AllOfNone(lines, V6Of(read));
    hide Greedy, Aligned, AllOf;
    ipv4, ipv6 := {}, {};
    for i := 0 to |lines|
      invariant ipv4 == AllOf(lines[..i], V4Of(read)) && ipv6 == AllOf(lines[..i], V6Of(read))
    {
      var line := lines[i];
      assert line in lines;
      AllOfStep(lines, V4Of(read), i);
      AllOfStep(lines, V6Of(read), i);
      if |line| < 7 || line[0] != "apnic" || line[1] != "CN" || (line[6] != "allocated" && line[6] != "assigned") {
        continue;
      }
      var start := read.address(line[3]);
      if line[2] == "ipv4" {
        var count := read.count(line[4]);
        if start.None? || count.None? || !start.value.V4? || count.value == 0 {
          GreedyOfNone(start, count);
          continue;
        }
        var blocks := Ipv4RangePrefixes(start.value.value, count.value);
        ipv4 := ipv4 + set p | p in blocks :: Network(true, p.addr, p.blockBits);
      } else if line[2] == "ipv6" {
        var bits := read.bits(line[4]);
        if start.None? || bits.None? || !start.value.V6? || bits.value < 0 || bits.value > 128 {
          continue;
        }
        var network := Network(false, start.value.value, 128 - bits.value);
        if network.Masked() {
          ipv6 := ipv6 + {network};
        }
      }
    }
    assert lines[..|lines|] == lines;
  }

  lemma GreedyOfNone(start: Option<Address>, count: Option<nat>)
    requires start.None? || count.None? || !start.value.V4? || count.value == 0
    ensures start.Some? && start.value.V4? && count.Some? && start.value.value <= SPACE ==> Greedy(start.value.value, count.value) == []
  {
  }

  lemma AllOfNone(lines: seq<Fields>, of: Fields -> set<Network>)
    ensures AllOf(lines[..0], of) == {}
  {
  }

  lemma AllOfStep(lines: seq<Fields>, of: Fields -> set<Network>, i: nat)
    requires i < |lines|
    ensures AllOf(lines[..i + 1], of) == AllOf(lines[..i], of) + of(lines[i])
  {
  }

  lemma SameElements(networks: seq<Network>, all: set<Network>)
    requires Elements(networks) == all
    ensures forall n :: n in networks <==> n in all
  {
    assert forall n :: n in networks <==> n in Elements(networks);
  }

  lemma ArrangedAscends(networks: seq<Network>, v4: bool)
    requires InOrder(networks, Before) && forall n :: n in Elements(networks) ==> n.v4 == v4
    ensures Ascending(networks)
  {
    assert forall i :: 0 <= i < |networks| ==> networks[i] in Elements(networks);
  }

  /** The networks that come from the lines are the largest blocks of their ranges. */
  lemma Meaning4(lines: seq<Fields>, read: Readers)
    requires forall line :: line in lines ==> Ranged(read, line)
    ensures forall n :: n in AllOf(lines, V4Of(read)) <==> LargestOfOne(lines, read, n)
    ensures AllOf(lines, V4Of(read)) != {} <==> exists start: nat, count: nat :: Delegates4(lines, read, start, count)
  {
    hide Maximal, Ranged;
    forall n | n in AllOf(lines, V4Of(read))
      ensures LargestOfOne(lines, read, n)
    {
      var line, start, count := ItsLine4(lines, read, n);
      ExactlyTheMaximalBlocks(start, count, Prefix(n.addr, n.hostBits));
    }
    forall n | LargestOfOne(lines, read, n)
      ensures n in AllOf(lines, V4Of(read))
    {
      var start: nat, count: nat :|
        Delegates4(lines, read, start, count) && Maximal(Prefix(n.addr, n.hostBits), start, start + count);
      ExactlyTheMaximalBlocks(start, count, Prefix(n.addr, n.hostBits));
      BlockIsIn(lines, read, start, count, Prefix(n.addr, n.hostBits));
    }
    if start: nat, count: nat :| Delegates4(lines, read, start, count) {
      BlockIsIn(lines, read, start, count, Greedy(start, count)[0]);
    }
    if n :| n in AllOf(lines, V4Of(read)) {
      var line, start, count := ItsLine4(lines, read, n);
    }
  }

  lemma ItsLine4(lines: seq<Fields>, read: Readers, n: Network) returns (line: Fields, start: nat, count: nat)
    requires n in AllOf(lines, V4Of(read))
    ensures n.v4 && Delegates4(lines, read, start, count) && Prefix(n.addr, n.hostBits) in Greedy(start, count)
  {
    var i :| 0 <= i < |lines| && n in V4Of(read)(lines[i]);
    assert Relevant(lines[i]);
    line, start, count := lines[i], read.address(lines[i][3]).value.value, read.count(lines[i][4]).value;
    assert line in lines;
  }

  lemma BlockIsIn(lines: seq<Fields>, read: Readers, start: nat, count: nat, p: Prefix)
    requires Delegates4(lines, read, start, count) && p in Greedy(start, count)
    ensures Network(true, p.addr, p.blockBits) in AllOf(lines, V4Of(read))
  {
    hide Greedy;
    var line :| line in lines && |line| >= 7 && line[0] == "apnic" && line[1] == "CN" && line[2] == "ipv4"
      && read.address(line[3]) == Some(V4(start)) && read.count(line[4]) == Some(count) && (line[6] == "allocated" || line[6] == "assigned");
    assert Network(true, p.addr, p.blockBits) in V4Of(read)(line);
    var i :| 0 <= i < |lines| && lines[i] == line;
  }

  lemma Meaning6(lines: seq<Fields>, read: Readers)
    requires forall line :: line in lines ==> Ranged(read, line)
    ensures forall n :: n in AllOf(lines, V6Of(read)) <==> !n.v4 && n.hostBits <= 128 && Delegates6(lines, read, n.addr, 128 - n.hostBits)
    ensures AllOf(lines, V6Of(read)) != {} <==> exists start: nat, length: int :: Delegates6(lines, read, start, length)
  {
    hide Aligned, Ranged;
    forall n | n in AllOf(lines, V6Of(read))
      ensures !n.v4 && n.hostBits <= 128 && Delegates6(lines, read, n.addr, 128 - n.hostBits)
    {
      var i :| 0 <= i < |lines| && n in V6Of(read)(lines[i]);
      AlignedMeans(n.addr, n.hostBits);
      assert lines[i] in lines;
    }
    forall start: nat, length: int | Delegates6(lines, read, start, length)
      ensures Network(false, start, 128 - length) in AllOf(lines, V6Of(read))
    {
      AlignedMeans(start, 128 - length);
      var line :| line in lines && |line| >= 7 && line[0] == "apnic" && line[1] == "CN" && line[2] == "ipv6"
        && read.address(line[3]) == Some(V6(start)) && read.bits(line[4]) == Some(length) && (line[6] == "allocated" || line[6] == "assigned");
      var i :| 0 <= i < |lines| && lines[i] == line;
      assert Network(false, start, 128 - length) in V6Of(read)(line);
    }
    forall n: Network | !n.v4 && n.hostBits <= 128 && Delegates6(lines, read, n.addr, 128 - n.hostBits)
      ensures n in AllOf(lines, V6Of(read))
    {
      assert n == Network(false, n.addr, 128 - (128 - n.hostBits));
    }
    if start: nat, length: int :| Delegates6(lines, read, start, length) {
      assert Network(false, start, 128 - length) in AllOf(lines, V6Of(read));
    }
  }

  /** Their addresses are the delegated ones. */
  lemma ListedMeans(lines: seq<Fields>, read: Readers, networks: seq<Network>, x: nat)
    requires forall n :: n in networks <==> LargestOfOne(lines, read, n)
    ensures Listed(networks, x) <==> InOneRange(lines, read, x)
  {
    hide Delegates4;
    if Listed(networks, x) {
      var n :| n in networks && n.addr <= x < n.addr + Pow2(n.hostBits);
      var start: nat, count: nat :|
        Delegates4(lines, read, start, count) && Maximal(Prefix(n.addr, n.hostBits), start, start + count);
    }
    if InOneRange(lines, read, x) {
      var start: nat, count: nat :| Delegates4(lines, read, start, count) && start <= x < start + count;
      DelegatedFits(lines, read, start, count);
      ExactCover(start, count);
      assert Covered(Blocks(Greedy(start, count)), x);
      var p :| p in Blocks(Greedy(start, count)) && p.Covers(x);
      ExactlyTheMaximalBlocks(start, count, p);
      assert LargestOfOne(lines, read, Network(true, p.addr, p.blockBits)) by {
        assert Prefix(p.addr, p.blockBits) == p;
      }
      assert Network(true, p.addr, p.blockBits) in networks;
    }
  }

  lemma DelegatedFits(lines: seq<Fields>, read: Readers, start: nat, count: nat)
    requires Delegates4(lines, read, start, count)
    ensures start + count <= SPACE
  {
  }

  lemma AllMasked(lines: seq<Fields>, read: Readers)
    requires forall line :: line in lines ==> Ranged(read, line)
    ensures forall n :: n in AllOf(lines, V4Of(read)) ==> n.v4 && n.Real()
    ensures forall n :: n in AllOf(lines, V6Of(read)) ==> !n.v4 && n.Real()
  {
    forall n | n in AllOf(lines, V4Of(read))
      ensures n.v4 && n.Real()
    {
      var line, start, count := ItsLine4(lines, read, n);
      ExactlyTheMaximalBlocks(start, count, Prefix(n.addr, n.hostBits));
      assert Maximal(Prefix(n.addr, n.hostBits), start, start + count);
    }
    forall n | n in AllOf(lines, V6Of(read))
      ensures !n.v4 && n.Real()
    {
      var i :| 0 <= i < |lines| && n in V6Of(read)(lines[i]);
      assert lines[i] in lines && Ranged(read, lines[i]) && Relevant(lines[i]);
    }
  }

  // The cache holds texts: netip's forms of the networks, which read back as those networks --------

  /** `parse` is netip.ParsePrefix and `format` its String, on the networks they are for. */
  ghost predicate Faithful(format: Network -> string, parse: string -> Option<Network>) {
    forall n: Network :: n.Real() ==> parse(format(n)) == Some(n)
  }

  function Texts(networks: seq<Network>, format: Network -> string): (texts: seq<string>)
    ensures |texts| == |networks| && forall i :: 0 <= i < |texts| ==> texts[i] == format(networks[i])
  {
    seq(|networks|, i requires 0 <= i < |networks| => format(networks[i]))
  }

  /** The text of a network of the family, without host bits. */
  ghost predicate Fits(parse: string -> Option<Network>, text: string, v4: bool) {
    parse(text).Some? && parse(text).value.v4 == v4 && parse(text).value.addr % Pow2(parse(text).value.hostBits) == 0
  }

  /** What one family's list must satisfy to be believed. Repeats are repeated texts: two spellings of
      one network pass. */
  ghost predicate Acceptable(parse: string -> Option<Network>, texts: seq<string>, v4: bool) {
    && texts != []
    && (forall i :: 0 <= i < |texts| ==> Fits(parse, texts[i], v4))
    && forall i, j :: 0 <= i < j < |texts| ==> texts[i] != texts[j]
  }

  /** `validateChinaPrefixes` on the decoded cache: accepted if and only if both lists are acceptable
      and the fetch time is set. */
  method ValidateCache(parse: string -> Option<Network>, fetchedAtZero: bool, ipv4: seq<string>, ipv6: seq<string>) returns (ok: bool)
    ensures ok <==> !fetchedAtZero && Acceptable(parse, ipv4, true) && Acceptable(parse, ipv6, false)
  {
    if fetchedAtZero || |ipv4| == 0 || |ipv6| == 0 {
      return false;
    }
    ok := ValidateGroup(parse, ipv4, true);
    if ok {
      ok := ValidateGroup(parse, ipv6, false);
    }
  }

  method ValidateGroup(parse: string -> Option<Network>, texts: seq<string>, v4: bool) returns (ok: bool)
    requires texts != []
    ensures ok <==> Acceptable(parse, texts, v4)
  {
    hide Fits, Aligned;
    var seen: set<string> := {};
    for i := 0 to |texts|
      invariant seen == Elements(texts[..i])
      invariant forall k :: 0 <= k < i ==> Fits(parse, texts[k], v4)
      invariant forall j, k :: 0 <= j < k < i ==> texts[j] != texts[k]
    {
      var parsed := parse(texts[i]);
      FitsMeans(parse, texts[i], v4);
      if parsed.None? || !parsed.value.Masked() || parsed.value.v4 != v4 || texts[i] in seen {
        if texts[i] in seen {
          var j :| 0 <= j < i && texts[..i][j] == texts[i];
        }
        return false;
      }
      forall j | 0 <= j < i
        ensures texts[j] != texts[i]
      {
        assert texts[..i][j] in seen;
      }
      seen := seen + {texts[i]};
      assert texts[..i + 1] == texts[..i] + [texts[i]];
    }
    return true;
  }

  lemma FitsMeans(parse: string -> Option<Network>, text: string, v4: bool)
    ensures Fits(parse, text, v4) <==> parse(text).Some? && parse(text).value.Masked() && parse(text).value.v4 == v4
  {
    if parse(text).Some? {
      AlignedMeans(parse(text).value.addr, parse(text).value.hostBits);
    }
  }

  /** The round trip through the cache: whatever list of a family's networks a download gives, each
      network once, its texts are acceptable when read back. */
  lemma CacheRoundTrip(format: Network -> string, parse: string -> Option<Network>, networks: seq<Network>, v4: bool)
    requires Faithful(format, parse)
    requires networks != [] && (forall n :: n in networks ==> n.Real() && n.v4 == v4)
    requires forall i, j :: 0 <= i < j < |networks| ==> networks[i] != networks[j]
    ensures Acceptable(parse, Texts(networks, format), v4)
  {
    forall i, j | 0 <= i < j < |networks|
      ensures format(networks[i]) != format(networks[j])
    {
      assert networks[i] in networks && networks[j] in networks;
      assert parse(format(networks[i])) == Some(networks[i]) && parse(format(networks[j])) == Some(networks[j]);
    }
    forall i | 0 <= i < |networks|
      ensures Fits(parse, format(networks[i]), v4)
    {
      assert networks[i] in networks && parse(format(networks[i])) == Some(networks[i]);
      FitsMeans(parse, format(networks[i]), v4);
    }
  }
}
