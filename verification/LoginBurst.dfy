/**
 The window bound of the login limiter is met: a caller who spaces the attempts badly enough is
 admitted 2 * pairLimit - 1 times within one minute.
 */
module LoginBurst {
  import opened LoginLimiter

  function OneEntry<K>(k: K, count: nat, since: int): (m: map<K, Failure>) {
    if count == 0 then map[] else map[k := Failure(count, since)]
  }

  /** A single entry below the limit, or past its minute, blocks nobody and counts on. */
  lemma OneEntryNext<K>(k: K, count: nat, since: int, limit: nat, capacity: nat, now: int)
    requires capacity >= 1 && limit >= 1 && (count < limit || since + WINDOW <= now)
    ensures Block(Pruned(OneEntry(k, count, since), now), k, limit, capacity, now) == 0
    ensures Pruned(OneEntry(k, count, since), now)[k := Next(Get(Pruned(OneEntry(k, count, since), now), k), now)]
         == if count == 0 || since + WINDOW <= now then OneEntry(k, 1, now) else OneEntry(k, count + 1, since)
  {
  }

  /** Only this caller has been counted: `count` times since `since`. */
  ghost predicate OnlyCaller(limiter: Limiter, ip: string, name: string, count: nat, since: int)
    reads limiter
  {
    limiter.pairs == OneEntry((ip, limiter.normalize(name)), count, since) && limiter.ips == OneEntry(ip, count, since)
  }

  /** The admissions the limiter has behind the pair's entry. */
  ghost function Admitted(limiter: Limiter, ip: string, name: string): (times: seq<int>)
    reads limiter
  {
    Times(limiter.pairTimes, (ip, limiter.normalize(name)))
  }

  method TakeNext(limiter: Limiter, ip: string, name: string, ghost count: nat, ghost since: int, now: int) returns (allowed: bool)
    requires limiter.Valid() && limiter.pairLimit <= IP_LIMIT && limiter.clock <= now && OnlyCaller(limiter, ip, name, count, since)
    requires count < limiter.pairLimit || since + WINDOW <= now
    modifies limiter
    ensures limiter.Valid() && limiter.clock == now && allowed
    ensures Admitted(limiter, ip, name) == old(Admitted(limiter, ip, name)) + [now]
    ensures if count == 0 || since + WINDOW <= now then OnlyCaller(limiter, ip, name, 1, now) else OnlyCaller(limiter, ip, name, count + 1, since)
  {
    hide Tracked, Pruned, Block, Get, Next, OneEntry;
    OneEntryNext((ip, limiter.normalize(name)), count, since, limiter.pairLimit, MAX_PAIRS, now);
    OneEntryNext(ip, count, since, IP_LIMIT, MAX_IPS, now);
    var retry;
    allowed, retry := limiter.Take(ip, name, now);
  }

  lemma {:induction false} WindowCount(times: seq<int>, t: int, from: nat)
    requires from <= |times|
    requires forall i :: 0 <= i < |times| ==> (t <= times[i] < t + WINDOW <==> i >= from)
    ensures |InWindow(times, t)| == |times| - from
  {
    if from < |times| {
      var init := times[..|times| - 1];
      WindowCount(init, t, from);
      assert InWindow(times, t) == InWindow(init, t) + {|times| - 1};
    } else {
      assert InWindow(times, t) == {};
    }
  }

  /** The rest of the first minute's admissions, just before it ends. */
  method FillFirst(limiter: Limiter, ip: string, name: string)
    requires limiter.Valid() && limiter.pairLimit <= IP_LIMIT && limiter.clock <= WINDOW - 1 && OnlyCaller(limiter, ip, name, 1, 0)
    requires Bursting(Admitted(limiter, ip, name), 1)
    modifies limiter
    ensures limiter.Valid() && limiter.clock <= WINDOW - 1 && OnlyCaller(limiter, ip, name, limiter.pairLimit, 0)
    ensures Bursting(Admitted(limiter, ip, name), limiter.pairLimit)
  {
    hide OnlyCaller, Tracked, Admitted;
    for i := 1 to limiter.pairLimit
      invariant limiter.Valid() && limiter.clock <= WINDOW - 1 && OnlyCaller(limiter, ip, name, i, 0)
      invariant Bursting(Admitted(limiter, ip, name), i)
    {
      var _ := TakeNext(limiter, ip, name, i, 0, WINDOW - 1);
    }
  }

  /** The second minute's admissions, all at its start. */
  method FillSecond(limiter: Limiter, ip: string, name: string)
    requires limiter.Valid() && limiter.pairLimit <= IP_LIMIT && limiter.clock <= WINDOW && OnlyCaller(limiter, ip, name, limiter.pairLimit, 0)
    requires Bursting(Admitted(limiter, ip, name), limiter.pairLimit)
    modifies limiter
    ensures limiter.Valid() && Bursting(Admitted(limiter, ip, name), 2 * limiter.pairLimit)
  {
    hide OnlyCaller, Tracked, Admitted;
    var _ := TakeNext(limiter, ip, name, limiter.pairLimit, 0, WINDOW);
    for i := 1 to limiter.pairLimit
      invariant limiter.Valid() && limiter.clock <= WINDOW && OnlyCaller(limiter, ip, name, i, WINDOW)
      invariant Bursting(Admitted(limiter, ip, name), limiter.pairLimit + i)
    {
      var _ := TakeNext(limiter, ip, name, i, WINDOW, WINDOW);
    }
  }

  /** One admission at time zero and all others around the end of its minute. */
  ghost predicate Bursting(times: seq<int>, count: nat) {
    |times| == count && count >= 1 && times[0] == 0 && forall j :: 1 <= j < count ==> WINDOW - 1 <= times[j] <= WINDOW
  }

  lemma Begun()
    ensures Bursting([0], 1)
  {
  }

  /** One admission, then as many as possible just before and just after its minute ends: the limiter
      has admitted all but the first of them within the minute that starts one nanosecond before that end. */
  method Burst(pairLimit: nat, normalize: string -> string, ip: string, name: string) returns (limiter: Limiter)
    requires 1 <= pairLimit <= IP_LIMIT
    ensures fresh(limiter) && limiter.Valid() && limiter.pairLimit == pairLimit && limiter.normalize == normalize
    ensures |InWindow(Admitted(limiter, ip, name), WINDOW - 1)| == 2 * pairLimit - 1
  {
    limiter := new Limiter(pairLimit, normalize, 0);
    assert OnlyCaller(limiter, ip, name, 0, 0);
    hide OnlyCaller, Tracked, InWindow, Bursting;
    var _ := TakeNext(limiter, ip, name, 0, 0, 0);
    assert Bursting(Admitted(limiter, ip, name), 1) by { Begun(); }
    FillFirst(limiter, ip, name);
    FillSecond(limiter, ip, name);
    BurstCount(Admitted(limiter, ip, name), pairLimit);
  }

  lemma BurstCount(times: seq<int>, limit: nat)
    requires limit >= 1 && Bursting(times, 2 * limit)
    ensures |InWindow(times, WINDOW - 1)| == 2 * limit - 1
  {
    hide InWindow;
    WindowCount(times, WINDOW - 1, 1);
  }
}
