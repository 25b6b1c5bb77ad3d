/**
 panel/internal/api/login_limiter.go: a fixed-window limiter over two bounded maps, one entry for an
 (ip, identifier) pair and one for an ip. Times and durations are nanoseconds.
 */
module LoginLimiter {
  const WINDOW: int := 60_000_000_000
  const IP_LIMIT: nat := 20
  const MAX_PAIRS: nat := 4096
  const MAX_IPS: nat := 1024

  datatype Failure = Failure(count: nat, startedAt: int)

  /** `remainingLoginWindow`. */
  function Remaining(f: Failure, now: int): (d: int) {
    if f.count == 0 then 0 else WINDOW - (now - f.startedAt)
  }

  /** `nextLoginFailure`; the zero value stands for a missing entry. */
  function Next(f: Failure, now: int): (g: Failure) {
    if f.count == 0 || Remaining(f, now) <= 0 then Failure(1, now) else f.(count := f.count + 1)
  }

  function Get<K>(m: map<K, Failure>, k: K): (f: Failure) {
    if k in m then m[k] else Failure(0, 0)
  }

  function Pruned<K>(m: map<K, Failure>, now: int): (p: map<K, Failure>) {
    map k | k in m && Remaining(m[k], now) > 0 :: m[k]
  }

  /** One half of `pruneExpired`. */
  method Prune<K(==)>(m: map<K, Failure>, now: int) returns (p: map<K, Failure>)
    ensures p == Pruned(m, now)
  {
    p := m;
    var rest := m.Keys;
    while rest != {}
      invariant rest <= m.Keys
      invariant p == map k | k in m && (k in rest || Remaining(m[k], now) > 0) :: m[k]
      decreases |rest|
    {
      var k :| k in rest;
      if Remaining(m[k], now) <= 0 {
        p := p - {k};
      }
      rest := rest - {k};
    }
  }

  /** What one map says about a key: how long to wait, 0 for not at all. */
  function Block<K>(m: map<K, Failure>, k: K, limit: nat, capacity: nat, now: int): (d: int) {
    if k !in m then if |m| >= capacity then WINDOW else 0
    else if m[k].count >= limit then Remaining(m[k], now) else 0
  }

  function Max(a: int, b: int): (m: int) {
    if a < b then b else a
  }

  /** `allowLocked` on pruned maps. */
  function RetryAfter<P, I>(pairs: map<P, Failure>, ips: map<I, Failure>, pair: P, ip: I, pairLimit: nat, now: int): (d: int) {
    Max(Block(pairs, pair, pairLimit, MAX_PAIRS, now), Block(ips, ip, IP_LIMIT, MAX_IPS, now))
  }

  /** Entries counted at least once, in the past, and not more of them than fit. */
  ghost predicate Bounded<K>(m: map<K, Failure>, capacity: nat, now: int) {
    |m| <= capacity && forall k :: k in m ==> m[k].count >= 1 && m[k].startedAt <= now
  }

  lemma {:induction false} SubmapSmaller<K>(a: map<K, Failure>, b: map<K, Failure>)
    requires a.Keys <= b.Keys
    ensures |a| <= |b| && (a.Keys != b.Keys ==> |a| < |b|)
    decreases |b|
  {
    assert |a| == |a.Keys| && |b| == |b.Keys|;
    assert b.Keys == a.Keys + (b.Keys - a.Keys);
    assert |b.Keys| == |a.Keys| + |b.Keys - a.Keys|;
  }

  lemma PrunedBounded<K>(m: map<K, Failure>, capacity: nat, now: int, later: int)
    requires Bounded(m, capacity, now) && now <= later
    ensures Bounded(Pruned(m, later), capacity, later)
  {
    SubmapSmaller(Pruned(m, later), m);
  }

  /** After a block of d has been waited out, the same map blocks no longer. */
  lemma BlockPasses<K>(m: map<K, Failure>, k: K, limit: nat, capacity: nat, now: int, wait: int)
    requires limit >= 1 && capacity >= 1 && Bounded(m, capacity, now) && m == Pruned(m, now)
    requires wait >= Block(m, k, limit, capacity, now) && 0 <= wait
    ensures Block(Pruned(m, now + wait), k, limit, capacity, now + wait) <= 0
  {
    var later := Pruned(m, now + wait);
    if k in m {
      assert k in Pruned(m, now);
    }
    SubmapSmaller(later, m);
    if k !in m && |m| >= capacity {
      forall j | j in m
        ensures Remaining(m[j], now + wait) <= 0
      {
      }
      assert later.Keys == {};
      assert |later| == |later.Keys| == 0;
    } else if k in m && k !in later {
      assert later.Keys != m.Keys;
    }
  }

  lemma BlockRange<K>(m: map<K, Failure>, k: K, limit: nat, capacity: nat, now: int)
    requires Bounded(m, capacity, now) && m == Pruned(m, now)
    ensures 0 <= Block(m, k, limit, capacity, now) <= WINDOW
  {
  }

  /** A refusal names a wait of more than nothing and at most a minute, and waiting exactly that long,
      with nothing recorded in between, is enough. */
  lemma WaitIsEnough<P, I>(pairs: map<P, Failure>, ips: map<I, Failure>, pair: P, ip: I, pairLimit: nat, now: int)
    requires pairLimit >= 1 && Bounded(pairs, MAX_PAIRS, now) && Bounded(ips, MAX_IPS, now)
    requires pairs == Pruned(pairs, now) && ips == Pruned(ips, now)
    ensures var wait := RetryAfter(pairs, ips, pair, ip, pairLimit, now);
            && 0 <= wait <= WINDOW
            && RetryAfter(Pruned(pairs, now + wait), Pruned(ips, now + wait), pair, ip, pairLimit, now + wait) <= 0
  {
    hide Block, Pruned, Bounded, Remaining;
    var wait := RetryAfter(pairs, ips, pair, ip, pairLimit, now);
    BlockRange(pairs, pair, pairLimit, MAX_PAIRS, now);
    BlockRange(ips, ip, IP_LIMIT, MAX_IPS, now);
    BlockPasses(pairs, pair, pairLimit, MAX_PAIRS, now, wait);
    BlockPasses(ips, ip, IP_LIMIT, MAX_IPS, now, wait);
  }

  // The window bound: what the admitted times of one key look like.

  ghost predicate Ascending(times: seq<int>, now: int) {
    (forall i, j :: 0 <= i <= j < |times| ==> times[i] <= times[j]) && forall i :: 0 <= i < |times| ==> times[i] <= now
  }

  /** Any 2 * limit admissions in a row span more than a window. */
  ghost predicate Spread(times: seq<int>, limit: nat)
    requires limit >= 1
  {
    forall j: nat :: j + (2 * limit - 1) < |times| ==> times[j] + WINDOW <= times[j + (2 * limit - 1)]
  }

  /** How the entry of a key relates to its admitted times: the entry counts the last of them from its
      start on, and all but the limit before that start are at least a window older. */
  ghost predicate Follows(times: seq<int>, f: Failure, limit: nat, now: int)
    requires limit >= 1
  {
    && Ascending(times, now) && Spread(times, limit)
    && if f.count == 0 then forall j :: 0 <= j <= |times| - limit && j < |times| ==> times[j] + WINDOW <= now
       else
         && f.count <= limit && f.count <= |times| && times[|times| - f.count] == f.startedAt
         && forall j :: 0 <= j <= |times| - f.count - limit ==> times[j] + WINDOW <= f.startedAt
  }

  lemma ExpiryFollows(times: seq<int>, f: Failure, limit: nat, now: int, later: int)
    requires limit >= 1 && Follows(times, f, limit, now) && now <= later
    ensures Follows(times, if Remaining(f, later) > 0 then f else Failure(0, 0), limit, later)
  {
  }

  lemma AdmissionFollows(times: seq<int>, f: Failure, limit: nat, now: int)
    requires limit >= 1 && Follows(times, f, limit, now) && f.count < limit && (f.count == 0 || Remaining(f, now) > 0)
    ensures Follows(times + [now], Next(f, now), limit, now)
  {
    var all := times + [now];
    var j := |times| - (2 * limit - 1);
    if 0 <= j < |times| {
      if f.count == 0 {
        assert times[j] + WINDOW <= now;
      } else {
        assert j <= |times| - f.count - limit;
        assert times[j] + WINDOW <= f.startedAt == times[|times| - f.count] <= now;
      }
    }
  }

  /** The admissions in the half-open minute from t on. */
  function InWindow(times: seq<int>, t: int): (s: set<int>) {
    set i | 0 <= i < |times| && t <= times[i] < t + WINDOW
  }

  /** So no half-open minute sees more than 2 * limit - 1 of them. */
  lemma WindowBound(times: seq<int>, limit: nat, t: int, now: int)
    requires limit >= 1 && Ascending(times, now) && Spread(times, limit)
    ensures |InWindow(times, t)| <= 2 * limit - 1
  {
    var inside := InWindow(times, t);
    if inside != {} {
      var first := Lowest(inside);
      forall i | first + (2 * limit - 1) <= i < |times|
        ensures times[i] >= times[first] + WINDOW
      {
        assert times[first + (2 * limit - 1)] <= times[i];
      }
      forall i | i in inside
        ensures first <= i < first + 2 * limit - 1
      {
      }
      RangeSize(inside, first, first + 2 * limit - 1);
    }
  }

  lemma {:induction false} Lowest(s: set<int>) returns (least: int)
    requires s != {}
    ensures least in s && forall i :: i in s ==> least <= i
    decreases |s|
  {
    var x :| x in s;
    var below := set i | i in s && i < x;
    if below == {} {
      assert forall i :: i in s && i < x ==> i in below;
      return x;
    }
    SmallerSet(below, s);
    least := Lowest(below);
    assert forall i :: i in s && i < x ==> i in below;
  }

  lemma SmallerSet(a: set<int>, b: set<int>)
    requires a < b
    ensures |a| < |b|
  {
    assert b == a + (b - a) && |b| == |a| + |b - a|;
  }

  lemma {:induction false} RangeSize(s: set<int>, lo: int, hi: int)
    requires lo <= hi && forall i :: i in s ==> lo <= i < hi
    ensures |s| <= hi - lo
    decreases hi - lo
  {
    if lo < hi {
      RangeSize(s - {hi - 1}, lo, hi - 1);
    } else {
      assert s == {};
    }
  }

  function Times<K>(log: map<K, seq<int>>, k: K): (times: seq<int>) {
    if k in log then log[k] else []
  }

  /** What is not blocked can be recorded within the capacity. */
  lemma AdmittedHasRoom<K>(m: map<K, Failure>, k: K, limit: nat, capacity: nat, now: int)
    requires limit >= 1 && m == Pruned(m, now) && Block(m, k, limit, capacity, now) <= 0
    ensures k in m || |m| < capacity
    ensures Get(m, k).count < limit && (Get(m, k).count == 0 || Remaining(Get(m, k), now) > 0)
  {
  }

  lemma AddedBounded<K>(m: map<K, Failure>, k: K, f: Failure, capacity: nat, now: int)
    requires Bounded(m, capacity, now) && (k in m || |m| < capacity) && f.count >= 1 && f.startedAt <= now
    ensures Bounded(m[k := f], capacity, now)
  {
  }

  /** The invariant of one map and the admissions behind it. */
  ghost predicate Tracked<K>(m: map<K, Failure>, log: map<K, seq<int>>, limit: nat, capacity: nat, now: int)
    requires limit >= 1
  {
    && Bounded(m, capacity, now) && m.Keys <= log.Keys
    && forall k :: k in log ==> Follows(log[k], Get(m, k), limit, now)
  }

  lemma TrackedPruned<K>(m: map<K, Failure>, log: map<K, seq<int>>, limit: nat, capacity: nat, now: int, later: int)
    requires limit >= 1 && Tracked(m, log, limit, capacity, now) && now <= later
    ensures Tracked(Pruned(m, later), log, limit, capacity, later) && Pruned(Pruned(m, later), later) == Pruned(m, later)
  {
    PrunedBounded(m, capacity, now, later);
    forall k | k in log
      ensures Follows(log[k], Get(Pruned(m, later), k), limit, later)
    {
      ExpiryFollows(log[k], Get(m, k), limit, now, later);
      hide Follows;
      assert k in m ==> m[k].count >= 1;
    }
  }

  lemma TrackedRecorded<K>(m: map<K, Failure>, log: map<K, seq<int>>, k: K, limit: nat, capacity: nat, now: int)
    requires limit >= 1 && Tracked(m, log, limit, capacity, now) && m == Pruned(m, now)
    requires Block(m, k, limit, capacity, now) <= 0
    ensures k in m || |m| < capacity
    ensures Tracked(m[k := Next(Get(m, k), now)], log[k := Times(log, k) + [now]], limit, capacity, now)
  {
    AdmittedHasRoom(m, k, limit, capacity, now);
    AddedBounded(m, k, Next(Get(m, k), now), capacity, now);
    assert Follows(Times(log, k), Get(m, k), limit, now);
    AdmissionFollows(Times(log, k), Get(m, k), limit, now);
    hide Follows, Block;
  }

  lemma BoundedForgotten<K>(m: map<K, Failure>, k: K, capacity: nat, now: int)
    requires Bounded(m, capacity, now)
    ensures Bounded(m - {k}, capacity, now)
  {
  }

  lemma GetForgotten<K>(m: map<K, Failure>, j: K, k: K)
    requires j != k
    ensures Get(m - {k}, j) == Get(m, j)
  {
  }

  lemma TrackedForgotten<K>(m: map<K, Failure>, log: map<K, seq<int>>, k: K, limit: nat, capacity: nat, now: int)
    requires limit >= 1 && Tracked(m, log, limit, capacity, now)
    ensures Tracked(m - {k}, log - {k}, limit, capacity, now)
  {
    hide Follows, Bounded, Get;
    BoundedForgotten(m, k, capacity, now);
    forall j | j in log - {k}
      ensures Follows((log - {k})[j], Get(m - {k}, j), limit, now)
    {
      GetForgotten(m, j, k);
    }
  }

  class Limiter {
    var pairs: map<(string, string), Failure>
    var ips: map<string, Failure>
    const pairLimit: nat
    const normalize: string -> string

    /** The last time seen (only the model keeps it), and the admitted times of every key; a reset starts a pair's afresh. */
    var clock: int
    ghost var pairTimes: map<(string, string), seq<int>>
    ghost var ipTimes: map<string, seq<int>>

    ghost predicate Valid()
      reads this
    {
      && pairLimit >= 1
      && Tracked(pairs, pairTimes, pairLimit, MAX_PAIRS, clock)
      && Tracked(ips, ipTimes, IP_LIMIT, MAX_IPS, clock)
    }

    constructor (pairLimit: nat, normalize: string -> string, start: int)
      requires pairLimit >= 1
      ensures Valid() && pairs == map[] && ips == map[] && clock == start && this.pairLimit == pairLimit && this.normalize == normalize
      ensures pairTimes == map[] && ipTimes == map[]
    {
      this.pairLimit, this.normalize := pairLimit, normalize;
      pairs, ips, clock, pairTimes, ipTimes := map[], map[], start, map[], map[];
    }

    /** `pruneExpired`. */
    method PruneExpired(now: int)
      requires Valid() && clock <= now
      modifies `pairs, `ips, `clock
      ensures Valid() && clock == now && pairs == Pruned(old(pairs), now) && ips == Pruned(old(ips), now)
      ensures pairs == Pruned(pairs, now) && ips == Pruned(ips, now)
    {
      hide Tracked;
      TrackedPruned(pairs, pairTimes, pairLimit, MAX_PAIRS, clock, now);
      TrackedPruned(ips, ipTimes, IP_LIMIT, MAX_IPS, clock, now);
      pairs := Prune(pairs, now);
      ips := Prune(ips, now);
      clock := now;
    }

    /** `allowLocked`, also the whole of `Allow`. */
    method Allow(ip: string, username: string, now: int) returns (allowed: bool, retry: int)
      requires Valid() && clock <= now
      modifies `pairs, `ips, `clock
      ensures Valid() && clock == now && pairs == Pruned(old(pairs), now) && ips == Pruned(old(ips), now)
      ensures pairs == Pruned(pairs, now) && ips == Pruned(ips, now)
      ensures retry == RetryAfter(pairs, ips, (ip, normalize(username)), ip, pairLimit, now)
      ensures allowed <==> retry <= 0
      ensures 0 <= retry <= WINDOW
    {
      PruneExpired(now);
      WaitIsEnough(pairs, ips, (ip, normalize(username)), ip, pairLimit, now);
      var key := (ip, normalize(username));
      var pair, ipFailure := Get(pairs, key), Get(ips, ip);
      retry := 0;
      if key !in pairs && |pairs| >= MAX_PAIRS {
        retry := WINDOW;
      }
      if pair.count >= pairLimit {
        retry := Remaining(pair, now);
      }
      BlockPasses(pairs, key, pairLimit, MAX_PAIRS, now, WINDOW);
      BlockPasses(ips, ip, IP_LIMIT, MAX_IPS, now, WINDOW);
      if ip !in ips && |ips| >= MAX_IPS {
        retry := WINDOW;
      }
      if ipFailure.count >= IP_LIMIT {
        retry := Max(retry, Remaining(ipFailure, now));
      }
      allowed := retry <= 0;
    }

    /** `Take`: counts what it admits. */
    method Take(ip: string, identifier: string, now: int) returns (allowed: bool, retry: int)
      requires Valid() && clock <= now
      modifies `pairs, `ips, `clock, `pairTimes, `ipTimes
      ensures Valid() && clock == now
      ensures retry == RetryAfter(Pruned(old(pairs), now), Pruned(old(ips), now), (ip, normalize(identifier)), ip, pairLimit, now)
      ensures (allowed <==> retry <= 0) && 0 <= retry <= WINDOW
      ensures var key := (ip, normalize(identifier));
              if allowed then
                && pairs == Pruned(old(pairs), now)[key := Next(Get(Pruned(old(pairs), now), key), now)]
                && ips == Pruned(old(ips), now)[ip := Next(Get(Pruned(old(ips), now), ip), now)]
                && pairTimes == old(pairTimes)[key := Times(old(pairTimes), key) + [now]]
                && ipTimes == old(ipTimes)[ip := Times(old(ipTimes), ip) + [now]]
              else
                && pairs == Pruned(old(pairs), now) && ips == Pruned(old(ips), now)
                && pairTimes == old(pairTimes) && ipTimes == old(ipTimes)
    {
      hide Tracked, RetryAfter, Pruned, Times, Next, Get;
      allowed, retry := Allow(ip, identifier, now);
      if allowed {
        Record(ip, identifier, now);
      }
    }

    /** `recordFailureLocked` right after an admission; the maps have room or the entry. */
    method Record(ip: string, username: string, now: int)
      requires Valid() && clock == now && pairs == Pruned(pairs, now) && ips == Pruned(ips, now)
      requires RetryAfter(pairs, ips, (ip, normalize(username)), ip, pairLimit, now) <= 0
      modifies `pairs, `ips, `pairTimes, `ipTimes
      ensures Valid()
      ensures var key := (ip, normalize(username));
              && pairs == old(pairs)[key := Next(Get(old(pairs), key), now)]
              && ips == old(ips)[ip := Next(Get(old(ips), ip), now)]
              && pairTimes == old(pairTimes)[key := Times(old(pairTimes), key) + [now]]
              && ipTimes == old(ipTimes)[ip := Times(old(ipTimes), ip) + [now]]
    {
      var key := (ip, normalize(username));
      hide Tracked, Block, Pruned, Next, Get, Times;
      TrackedRecorded(pairs, pairTimes, key, pairLimit, MAX_PAIRS, now);
      TrackedRecorded(ips, ipTimes, ip, IP_LIMIT, MAX_IPS, now);
      ghost var pt, it := Times(pairTimes, key), Times(ipTimes, ip);
      if key in pairs || |pairs| < MAX_PAIRS {
        pairs := pairs[key := Next(Get(pairs, key), now)];
      }
      if ip in ips || |ips| < MAX_IPS {
        ips := ips[ip := Next(Get(ips, ip), now)];
      }
      pairTimes := pairTimes[key := pt + [now]];
      ipTimes := ipTimes[ip := it + [now]];
    }

    /** `Reset`: forgets the pair, not the ip. */
    method Reset(ip: string, username: string)
      requires Valid()
      modifies `pairs, `pairTimes
      ensures Valid() && pairs == old(pairs) - {(ip, normalize(username))}
      ensures pairTimes == old(pairTimes) - {(ip, normalize(username))}
    {
      var key := (ip, normalize(username));
      TrackedForgotten(pairs, pairTimes, key, pairLimit, MAX_PAIRS, clock);
      hide Tracked;
      pairs := pairs - {key};
      pairTimes := pairTimes - {key};
    }

    ghost function Now(): (v: View)
      reads this
    {
      View(pairs, ips, pairTimes, ipTimes, clock)
    }

    /** One call; a time before the last one seen does not occur. */
    method Serve(call: Call) returns (admitted: bool)
      requires Valid()
      modifies this
      ensures Valid() && Now() == After(old(Now()), call, normalize, pairLimit)
      ensures admitted == Admits(old(Now()), call, normalize, pairLimit)
    {
      hide Tracked, RetryAfter, Pruned, Times, Next, Get;
      admitted := true;
      match call {
        case ResetOf(ip, name) =>
          Reset(ip, name);
        case AllowAt(ip, name, now) =>
          if clock <= now {
            var retry;
            admitted, retry := Allow(ip, name, now);
          }
        case TakeAt(ip, name, now) =>
          if clock <= now {
            var retry;
            admitted, retry := Take(ip, name, now);
          }
      }
    }

    /** Any calls in any order are a run, with the verdicts the states before them give. */
    method Run(calls: seq<Call>) returns (verdicts: seq<bool>, ghost states: seq<View>)
      requires Valid()
      modifies this
      ensures Valid() && IsRun(states, calls, normalize, pairLimit) && states[0] == old(Now()) && states[|calls|] == Now()
      ensures |verdicts| == |calls| && forall i :: 0 <= i < |calls| ==> verdicts[i] == Admits(states[i], calls[i], normalize, pairLimit)
    {
      hide After, Admits, Tracked;
      verdicts, states := [], [Now()];
      for i := 0 to |calls|
        invariant Valid() && |states| == i + 1 && states[0] == old(Now()) && states[i] == Now() && |verdicts| == i
        invariant forall j :: 0 <= j < i ==> states[j + 1] == After(states[j], calls[j], normalize, pairLimit)
        invariant forall j :: 0 <= j < i ==> verdicts[j] == Admits(states[j], calls[j], normalize, pairLimit)
      {
        var admitted := Serve(calls[i]);
        verdicts, states := verdicts + [admitted], states + [Now()];
      }
    }
  }

  // Whole runs --------------------------------------------------------------------------------------

  datatype Call = ResetOf(ip: string, name: string) | AllowAt(ip: string, name: string, now: int) | TakeAt(ip: string, name: string, now: int)

  datatype View = View(pairs: map<(string, string), Failure>, ips: map<string, Failure>,
                       pairTimes: map<(string, string), seq<int>>, ipTimes: map<string, seq<int>>, clock: int)

  ghost predicate Sound(v: View, pairLimit: nat) {
    pairLimit >= 1 && Tracked(v.pairs, v.pairTimes, pairLimit, MAX_PAIRS, v.clock) && Tracked(v.ips, v.ipTimes, IP_LIMIT, MAX_IPS, v.clock)
  }

  /** What is expired by then is forgotten. */
  function Aged(v: View, now: int): (w: View) {
    v.(pairs := Pruned(v.pairs, now), ips := Pruned(v.ips, now), clock := now)
  }

  function Counted(v: View, key: (string, string), ip: string, now: int): (w: View) {
    v.(pairs := v.pairs[key := Next(Get(v.pairs, key), now)], ips := v.ips[ip := Next(Get(v.ips, ip), now)],
       pairTimes := v.pairTimes[key := Times(v.pairTimes, key) + [now]], ipTimes := v.ipTimes[ip := Times(v.ipTimes, ip) + [now]])
  }

  /** Nothing has to be waited for. */
  predicate Clear(v: View, key: (string, string), ip: string, now: int, pairLimit: nat) {
    RetryAfter(v.pairs, v.ips, key, ip, pairLimit, now) <= 0
  }

  predicate Admits(v: View, call: Call, normalize: string -> string, pairLimit: nat) {
    call.ResetOf? || call.now < v.clock || Clear(Aged(v, call.now), (call.ip, normalize(call.name)), call.ip, call.now, pairLimit)
  }

  function After(v: View, call: Call, normalize: string -> string, pairLimit: nat): (w: View) {
    var key := (call.ip, normalize(call.name));
    match call
    case ResetOf(_, _) => v.(pairs := v.pairs - {key}, pairTimes := v.pairTimes - {key})
    case AllowAt(_, _, now) => if now < v.clock then v else Aged(v, now)
    case TakeAt(ip, _, now) =>
      if now < v.clock then v
      else if Clear(Aged(v, now), key, ip, now, pairLimit) then Counted(Aged(v, now), key, ip, now)
      else Aged(v, now)
  }

  ghost predicate IsRun(states: seq<View>, calls: seq<Call>, normalize: string -> string, pairLimit: nat) {
    |states| == |calls| + 1 && forall i :: 0 <= i < |calls| ==> states[i + 1] == After(states[i], calls[i], normalize, pairLimit)
  }

  lemma AgedSound(v: View, now: int, pairLimit: nat)
    requires Sound(v, pairLimit) && v.clock <= now
    ensures Sound(Aged(v, now), pairLimit)
    ensures Aged(v, now).pairs == Pruned(Aged(v, now).pairs, now) && Aged(v, now).ips == Pruned(Aged(v, now).ips, now)
  {
    hide Tracked, Pruned;
    TrackedPruned(v.pairs, v.pairTimes, pairLimit, MAX_PAIRS, v.clock, now);
    TrackedPruned(v.ips, v.ipTimes, IP_LIMIT, MAX_IPS, v.clock, now);
  }

  lemma CountedSound(v: View, key: (string, string), ip: string, now: int, pairLimit: nat)
    requires Sound(v, pairLimit) && v.clock == now && v.pairs == Pruned(v.pairs, now) && v.ips == Pruned(v.ips, now)
    requires Clear(v, key, ip, now, pairLimit)
    ensures Sound(Counted(v, key, ip, now), pairLimit)
  {
    hide Tracked, Block, Pruned, Next, Get, Times;
    TrackedRecorded(v.pairs, v.pairTimes, key, pairLimit, MAX_PAIRS, now);
    TrackedRecorded(v.ips, v.ipTimes, ip, IP_LIMIT, MAX_IPS, now);
  }

  lemma AfterSound(v: View, call: Call, normalize: string -> string, pairLimit: nat)
    requires Sound(v, pairLimit)
    ensures Sound(After(v, call, normalize, pairLimit), pairLimit)
  {
    hide Tracked, Aged, Counted, Clear;
    var key := (call.ip, normalize(call.name));
    if call.ResetOf? {
      TrackedForgotten(v.pairs, v.pairTimes, key, pairLimit, MAX_PAIRS, v.clock);
    } else if v.clock <= call.now {
      AgedSound(v, call.now, pairLimit);
      AgedClock(v, call.now);
      if call.TakeAt? && Clear(Aged(v, call.now), key, call.ip, call.now, pairLimit) {
        CountedSound(Aged(v, call.now), key, call.ip, call.now, pairLimit);
      }
    }
  }

  lemma AgedClock(v: View, now: int)
    ensures Aged(v, now).clock == now
  {
  }

  lemma {:induction false} StaysSound(states: seq<View>, calls: seq<Call>, normalize: string -> string, pairLimit: nat, i: nat)
    requires IsRun(states, calls, normalize, pairLimit) && Sound(states[0], pairLimit) && i <= |calls|
    ensures Sound(states[i], pairLimit)
    decreases i
  {
    hide Sound, After;
    if i > 0 {
      StaysSound(states, calls, normalize, pairLimit, i - 1);
      AfterSound(states[i - 1], calls[i - 1], normalize, pairLimit);
    }
  }

  /** In every state of every run: at most 2 * pairLimit - 1 admissions of a pair in any half-open minute
      without a reset of it, at most 39 of an ip whatever is reset, and neither map outgrows its bound. */
  lemma AlwaysBounded(states: seq<View>, calls: seq<Call>, normalize: string -> string, pairLimit: nat, i: nat, t: int)
    requires IsRun(states, calls, normalize, pairLimit) && Sound(states[0], pairLimit) && i <= |calls|
    ensures |states[i].pairs| <= MAX_PAIRS && |states[i].ips| <= MAX_IPS
    ensures forall k :: k in states[i].pairTimes ==> |InWindow(states[i].pairTimes[k], t)| <= 2 * pairLimit - 1
    ensures forall k :: k in states[i].ipTimes ==> |InWindow(states[i].ipTimes[k], t)| <= 39
  {
    hide InWindow, After;
    StaysSound(states, calls, normalize, pairLimit, i);
    var v := states[i];
    forall k | k in v.pairTimes
      ensures |InWindow(v.pairTimes[k], t)| <= 2 * pairLimit - 1
    {
      WindowBound(v.pairTimes[k], pairLimit, t, v.clock);
    }
    forall k | k in v.ipTimes
      ensures |InWindow(v.ipTimes[k], t)| <= 39
    {
      WindowBound(v.ipTimes[k], IP_LIMIT, t, v.clock);
    }
  }

  // When a call is admitted, in terms of the entries alone ------------------------------------------

  /** The key has been counted within the last minute. */
  predicate Live<K>(m: map<K, Failure>, k: K, now: int) {
    k in m && now < m[k].startedAt + 60_000_000_000
  }

  function LiveKeys<K>(m: map<K, Failure>, now: int): (keys: set<K>) {
    set k | k in m && Live(m, k, now)
  }

  /** Counted within the minute, it is below its limit; otherwise there is room for it. */
  predicate Passes<K>(m: map<K, Failure>, k: K, limit: nat, capacity: nat, now: int) {
    if Live(m, k, now) then m[k].count < limit else |LiveKeys(m, now)| < capacity
  }

  lemma PassesIs<K>(m: map<K, Failure>, k: K, limit: nat, capacity: nat, now: int)
    requires forall j :: j in m ==> m[j].count >= 1
    ensures Block(Pruned(m, now), k, limit, capacity, now) <= 0 <==> Passes(m, k, limit, capacity, now)
  {
    var p := Pruned(m, now);
    assert p.Keys == LiveKeys(m, now);
    assert |p| == |p.Keys|;
  }

  /** A call is admitted if and only if the pair is below the limit and the address below 20, each counted
      from its first attempt for one minute, and the two maps have room, 4096 and 1024, for what is new in
      them. So any wait shorter than the one until the minute of a blocked entry is over is refused. */
  lemma AdmitsExactly(v: View, ip: string, name: string, now: int, normalize: string -> string, pairLimit: nat)
    requires Sound(v, pairLimit) && v.clock <= now
    ensures Admits(v, TakeAt(ip, name, now), normalize, pairLimit) <==>
              Passes(v.pairs, (ip, normalize(name)), pairLimit, 4096, now) && Passes(v.ips, ip, 20, 1024, now)
    ensures Admits(v, AllowAt(ip, name, now), normalize, pairLimit) == Admits(v, TakeAt(ip, name, now), normalize, pairLimit)
  {
    hide Passes, Pruned, Block, Follows;
    PassesIs(v.pairs, (ip, normalize(name)), pairLimit, 4096, now);
    PassesIs(v.ips, ip, 20, 1024, now);
  }

  /** The wait a refusal names for a blocked entry is the shortest that helps: until then the call is refused,
      whatever else expires. */
  lemma ShorterWaitIsRefused(v: View, ip: string, name: string, now: int, wait: int, normalize: string -> string, pairLimit: nat)
    requires Sound(v, pairLimit) && v.clock <= now && 0 <= wait
    requires var pair := (ip, normalize(name));
             || (pair in v.pairs && v.pairs[pair].count >= pairLimit && now + wait < v.pairs[pair].startedAt + 60_000_000_000)
             || (ip in v.ips && v.ips[ip].count >= 20 && now + wait < v.ips[ip].startedAt + 60_000_000_000)
    ensures !Admits(v, TakeAt(ip, name, now + wait), normalize, pairLimit)
  {
    hide Admits, Sound;
    AdmitsExactly(v, ip, name, now + wait, normalize, pairLimit);
  }
}
