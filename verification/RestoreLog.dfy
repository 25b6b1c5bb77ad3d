/**
 What a history of starts may look like, apart from any disk: a log of what happened to the database,
 and the set that is owned at each point of it. Only an opening of the owned set itself, the panel at
 work on it, and an accepted restore change that set.
 */
module RestoreLog {
  import opened Wrappers
  import opened RestoreVolume

  /** `files` is what an opening found and `after` what it left. A look at `restore/` that failed is
      `Blinked`; an opening of a restore under way that the panel could not see for that reason is blind. */
  datatype Event =
    | Booted
    | Blinked
    | OpenedLive(files: Dir, after: Dir)
    | TriedStaged(files: Dir, after: Dir, up: bool)
    | Validated(passed: bool)
    | Committed
    | OpenedBlind(files: Dir, after: Dir)
    | Imported(marker: Marker)
    | Served(after: Dir)
    | ServedBlind(after: Dir)

  /** `trial` is what the staged set was made into since the last boot, if it was opened at all, and
      `blinked` whether a look has failed since then. */
  datatype Spec = Spec(owned: Dir, pending: Option<Marker>, trial: Option<Dir>, up: bool, validated: bool, blinked: bool)

  /** The live set is opened and served as the owned set; the staged set is opened as exactly that; it
      replaces the owned one only after it was opened and validated; and anything else is opened and served
      only after a look has failed in the same boot. */
  predicate Allowed(s: Spec, e: Event) {
    match e
    case OpenedLive(files, _) => files == s.owned
    case TriedStaged(files, _, _) => !s.blinked && s.pending.Some? && files == Installed(s.owned, s.pending.value)
    case Validated(_) => s.trial.Some?
    case Committed => s.trial.Some? && s.up && s.validated
    case Served(_) => s.trial.None?
    case OpenedBlind(_, _) => s.blinked
    case ServedBlind(_) => s.blinked
    case _ => true
  }

  function Next(s: Spec, e: Event): (next: Spec) {
    match e
    case Booted => s.(trial := None, blinked := false)
    case Blinked => s.(blinked := true)
    case OpenedLive(_, after) => s.(owned := after, trial := None)
    case TriedStaged(_, after, up) => s.(trial := Some(after), up := up, validated := false)
    case Validated(passed) => s.(validated := passed)
    case Committed => if s.trial.Some? then Spec(s.trial.value, None, None, false, false, s.blinked) else s
    case Imported(m) => s.(pending := Some(m))
    case Served(after) => s.(owned := after)
    case ServedBlind(after) => if s.pending.Some? then s.(owned := Recover(after, s.owned, Touched(s.pending.value))) else s
    case OpenedBlind(_, _) => s
  }

  /** Where a history leads, None when one of its events was not allowed. */
  function Run(start: Spec, log: seq<Event>): (end: Option<Spec>)
    decreases |log|
  {
    if log == [] then Some(start)
    else
      var before := Run(start, log[..|log| - 1]);
      var e := log[|log| - 1];
      if before.None? || !Allowed(before.value, e) then None else Some(Next(before.value, e))
  }

  lemma RunNext(start: Spec, log: seq<Event>, e: Event)
    ensures Run(start, log + [e]) ==
            if Run(start, log).Some? && Allowed(Run(start, log).value, e) then Some(Next(Run(start, log).value, e)) else None
  {
    assert (log + [e])[..|log|] == log;
  }

  /** Events that leave the owned set alone. */
  predicate Harmless(e: Event) {
    !e.OpenedLive? && !e.Committed? && !e.Served? && !e.ServedBlind?
  }

  /** Trying a restore any number of times, without committing it, leaves the owned set as it was. */
  lemma {:induction false} OwnedStays(start: Spec, log: seq<Event>, more: seq<Event>)
    requires Run(start, log + more).Some? && forall e :: e in more ==> Harmless(e)
    ensures Run(start, log).Some? && Run(start, log + more).value.owned == Run(start, log).value.owned
    decreases |more|
  {
    if more == [] {
      assert log + more == log;
    } else {
      var init, last := more[..|more| - 1], more[|more| - 1];
      assert log + more == (log + init) + [last];
      assert Harmless(last);
      RunNext(start, log + init, last);
      OwnedStays(start, log, init);
    }
  }

  lemma {:induction false} EachAllowed(start: Spec, log: seq<Event>, i: nat)
    requires Run(start, log).Some? && i < |log|
    ensures Run(start, log[..i]).Some? && Allowed(Run(start, log[..i]).value, log[i])
    decreases |log|
  {
    if i < |log| - 1 {
      assert log[..|log| - 1][..i] == log[..i];
      EachAllowed(start, log[..|log| - 1], i);
    }
  }

  /** A look has failed since the last boot. */
  ghost predicate BlinkedSinceBoot(log: seq<Event>) {
    exists j :: 0 <= j < |log| && log[j].Blinked? && forall n :: j < n < |log| ==> !log[n].Booted?
  }

  lemma {:induction false} BlinkedMeans(start: Spec, log: seq<Event>)
    requires Run(start, log).Some? && !start.blinked
    ensures Run(start, log).value.blinked <==> BlinkedSinceBoot(log)
    decreases |log|
  {
    if log != [] {
      var init, e := log[..|log| - 1], log[|log| - 1];
      BlinkedMeans(start, init);
      if e.Blinked? {
        assert log[|log| - 1].Blinked?;
      } else if BlinkedSinceBoot(init) && !e.Booted? {
        var j :| 0 <= j < |init| && init[j].Blinked? && forall n :: j < n < |init| ==> !init[n].Booted?;
        assert log[j].Blinked? && forall n :: j < n < |log| ==> !log[n].Booted?;
      }
    }
  }

  /** What an opening found: the owned set itself, or exactly the staged set when every look since the boot
      was answered, or anything at all, and then a look had failed since the boot. */
  ghost predicate Unmixed(s: Spec, before: seq<Event>, e: Event) {
    match e
    case OpenedLive(files, _) => files == s.owned
    case TriedStaged(files, _, _) => s.pending.Some? && files == Installed(s.owned, s.pending.value) && !BlinkedSinceBoot(before)
    case OpenedBlind(_, _) => BlinkedSinceBoot(before)
    case _ => true
  }

  /** No opening in an allowed history finds a mixture, unless a look failed in that very boot. */
  lemma {:induction false} NeverMixed(start: Spec, log: seq<Event>, i: nat)
    requires Run(start, log).Some? && i < |log| && !start.blinked
    ensures Run(start, log[..i]).Some? && Unmixed(Run(start, log[..i]).value, log[..i], log[i])
  {
    EachAllowed(start, log, i);
    BlinkedMeans(start, log[..i]);
  }

  /** The j-th event is the trial the state speaks of, in the present boot. */
  ghost predicate TrialAt(s: Spec, log: seq<Event>, j: nat) {
    && j < |log| && s.trial.Some? && log[j].TriedStaged? && log[j].after == s.trial.value && log[j].up == s.up
    && (forall n :: j < n < |log| ==> !log[n].Booted?)
    && (s.validated ==> exists k :: j < k < |log| && log[k] == Validated(true))
  }

  lemma {:induction false} TrialMeans(start: Spec, log: seq<Event>) returns (j: nat)
    requires Run(start, log).Some? && start.trial.None? && Run(start, log).value.trial.Some?
    ensures TrialAt(Run(start, log).value, log, j)
    decreases |log|
  {
    var init, e := log[..|log| - 1], log[|log| - 1];
    if e.TriedStaged? {
      j := |log| - 1;
    } else {
      j := TrialMeans(start, init);
      assert forall n :: 0 <= n < |init| ==> init[n] == log[n];
      if Run(start, init).value.validated && Run(start, log).value.validated && !e.Validated? {
        var k :| j < k < |init| && init[k] == Validated(true);
        assert log[k] == Validated(true);
      }
    }
  }

  /** A restore is only ever committed when the opening and the validation of that very boot went well,
      and what is owned from then on is what that opening made of the staged set. */
  lemma {:induction false} CommitNeedsTrial(start: Spec, log: seq<Event>, i: nat) returns (j: nat, k: nat)
    requires Run(start, log).Some? && i < |log| && log[i].Committed? && start.trial.None?
    ensures j < k < i && log[j].TriedStaged? && log[j].up && log[k] == Validated(true)
    ensures forall n :: j < n < i ==> !log[n].Booted?
    ensures Run(start, log[..i + 1]).Some? && Run(start, log[..i + 1]).value.owned == log[j].after
  {
    var init := log[..i];
    EachAllowed(start, log, i);
    j := TrialMeans(start, init);
    k :| j < k < |init| && init[k] == Validated(true);
    assert forall n :: 0 <= n < i ==> init[n] == log[n];
    assert log[..i + 1] == init + [log[i]];
    RunNext(start, init, log[i]);
  }
}
