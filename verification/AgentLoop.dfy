/**
 The config part of `connectAgentOnce` in panel/cmd/agent/main.go: a reader that coalesces
 `config_changed` messages into a one-token channel, an event loop that starts syncs one at a time,
 and the sync goroutine that reports its end on a channel of capacity one.

 Each method is one step of one of the three; any interleaving of steps is allowed.
 */
module AgentLoop {
  /** The loop, its channels, its goroutine and the Panel at one moment. */
  datatype View = View(token: bool, finished: bool, inProgress: bool, pending: bool, running: bool, clock: nat, lastRead: nat,
                       lastStart: nat, desired: nat, announced: nat, fetchFloor: nat)

  /** `startConfigSync`. */
  function Started(s: View): (t: View) {
    if s.inProgress then s.(clock := s.clock + 1, pending := true)
    else s.(clock := s.clock + 1, inProgress := true, running := true, lastStart := s.clock + 1, fetchFloor := s.desired)
  }

  /** A message for a version already desired is read. */
  function Read(s: View, version: nat): (t: View) {
    s.(clock := s.clock + 1, lastRead := s.clock + 1, token := true, announced := if version > s.announced then version else s.announced)
  }

  /** The end of a sync is taken from its channel. */
  function Ended(s: View): (t: View) {
    var idle := s.(finished := false, inProgress := false, pending := false);
    if s.pending then Started(idle) else idle
  }

  /** A step of the Panel, the reader, the loop (two channels and the ticker) or the sync goroutine. */
  datatype Move = Raises | Reads(version: nat) | TakesToken | TakesFinished | Ticks | Returns

  /** One step; one that cannot be taken changes nothing. */
  function Moved(s: View, m: Move): (t: View) {
    match m
    case Raises => s.(desired := s.desired + 1)
    case Reads(version) => if 0 < version <= s.desired then Read(s, version) else s
    case TakesToken => if s.token then Started(s.(token := false)) else s
    case TakesFinished => if s.finished then Ended(s) else s
    case Ticks => Started(s)
    case Returns => if s.running then s.(clock := s.clock + 1, finished := true, running := false) else s
  }

  /** No lost wake-up: a message read since the last start leaves a token, or a request that the running
      sync's end will honour. */
  predicate Owed(s: View) {
    s.token || (s.pending && s.inProgress)
  }

  predicate Structure(s: View) {
    && (s.inProgress <==> s.running || s.finished) && !(s.running && s.finished)
    && (s.pending ==> s.inProgress)
    && s.lastRead <= s.clock && s.lastStart <= s.clock && s.announced <= s.desired && s.fetchFloor <= s.desired
    && (s.lastRead <= s.lastStart ==> s.announced <= s.fetchFloor)
  }

  predicate Sound(s: View) {
    Structure(s) && (s.lastRead > s.lastStart ==> Owed(s))
  }

  /** What a connection starts with: the first sync runs before the loop is entered. */
  function First(desired: nat): (s: View) {
    View(false, false, true, false, true, 1, 0, 1, desired, 0, desired)
  }

  /** A run of any length, in any interleaving. */
  ghost predicate IsRun(states: seq<View>, moves: seq<Move>) {
    |states| == |moves| + 1 && forall i :: 0 <= i < |moves| ==> states[i + 1] == Moved(states[i], moves[i])
  }

  lemma MovedKeeps(s: View, m: Move)
    requires Sound(s)
    ensures Sound(Moved(s, m))
  {
    ChannelsKeep(s);
    hide Sound, Started, Ended, Read;
    if m.Reads? && m.version <= s.desired {
      ReadKeeps(s, m.version);
    }
  }

  lemma ReadKeeps(s: View, version: nat)
    requires Sound(s) && version <= s.desired
    ensures Sound(Read(s, version))
  {
  }

  lemma StartedKeeps(s: View)
    requires Structure(s)
    ensures Sound(Started(s))
  {
  }

  /** The steps of the loop, the goroutine and the Panel. */
  lemma ChannelsKeep(s: View)
    requires Sound(s)
    ensures Sound(s.(desired := s.desired + 1)) && Sound(Started(s))
    ensures s.token ==> Sound(Started(s.(token := false)))
    ensures s.running ==> Sound(s.(clock := s.clock + 1, finished := true, running := false))
    ensures s.finished ==> Sound(Ended(s))
  {
    StartedKeeps(s);
    StartedKeeps(s.(token := false));
    if s.finished {
      StartedKeeps(s.(finished := false, inProgress := false, pending := false));
    }
    hide Started;
  }

  lemma IdleIsServed(s: View)
    ensures Sound(s) && !s.token && !s.inProgress ==> s.lastRead <= s.lastStart && s.announced <= s.fetchFloor
  {
  }

  lemma FirstIsSound(desired: nat)
    ensures Sound(First(desired))
  {
  }

  /** In every state of every run of a connection: when the loop has nothing left to do, a sync has started
      after the last message was read, at a version no older than any announced; and whenever that is not
      so yet, something is left that will bring it about. */
  lemma {:induction false} NoLostWakeUp(states: seq<View>, moves: seq<Move>, desired: nat, i: nat)
    requires IsRun(states, moves) && states[0] == First(desired) && i < |states|
    ensures Sound(states[i])
    ensures !states[i].token && !states[i].inProgress ==> states[i].lastRead <= states[i].lastStart && states[i].announced <= states[i].fetchFloor
  {
    FirstIsSound(desired);
    IdleIsServed(states[i]);
    hide Moved, Sound, First;
    if i > 0 {
      NoLostWakeUp(states, moves, desired, i - 1);
      MovedKeeps(states[i - 1], moves[i - 1]);
    }
  }

  class Loop {
    /** The channels configChanged and configSyncFinished, both of capacity 1. */
    var token: bool
    var finished: bool
    var inProgress: bool
    var pending: bool
    /** A sync goroutine that has not sent its completion yet. */
    var running: bool

    /** Steps so far, and the steps at which a message was last read and a sync last started. */
    ghost var clock: nat
    ghost var lastRead: nat
    ghost var lastStart: nat
    /** The Panel's desired version, the newest version a read message announced, and the desired
        version when the last sync started, which is the least its fetch can return. */
    var desired: nat
    ghost var announced: nat
    ghost var fetchFloor: nat

    ghost function Now(): (s: View)
      reads this
    {
      View(token, finished, inProgress, pending, running, clock, lastRead, lastStart, desired, announced, fetchFloor)
    }

    ghost predicate Valid()
      reads this
    {
      Sound(Now())
    }

    /** The connection is up: the source starts the first sync before entering the loop. */
    constructor (desired: nat)
      ensures Valid() && Now() == First(desired)
    {
      token, finished, pending := false, false, false;
      inProgress, running := true, true;
      clock, lastRead, lastStart := 1, 0, 1;
      this.desired, announced, fetchFloor := desired, 0, desired;
    }

    /** `startConfigSync`: starts a sync, or leaves the request to the end of the running one. */
    method StartConfigSync()
      requires Structure(Now())
      modifies `clock, `inProgress, `pending, `running, `lastStart, `fetchFloor
      ensures Structure(Now()) && inProgress && Now() == Started(old(Now()))
      ensures if old(inProgress) then pending && running == old(running) && lastStart == old(lastStart) && fetchFloor == old(fetchFloor)
              else running && !pending && lastStart == clock > lastRead && fetchFloor == desired
    {
      clock := clock + 1;
      if inProgress {
        pending := true;
        return;
      }
      inProgress, running := true, true;
      lastStart, fetchFloor := clock, desired;
    }

    /** `case <-configTicker.C`. */
    method Tick()
      requires Valid()
      modifies `clock, `inProgress, `pending, `running, `lastStart, `fetchFloor
      ensures Valid() && inProgress && Now() == Moved(old(Now()), Ticks)
    {
      StartConfigSync();
    }

    /** The Panel raises the desired version; nothing reaches the Agent yet. */
    method Bump()
      requires Valid()
      modifies `desired
      ensures Valid() && desired == old(desired) + 1 && Now() == Moved(old(Now()), Raises)
    {
      desired := desired + 1;
    }

    /** The reader gets `config_changed` for a version already desired and tries to buffer a token. */
    method ReadConfigChanged(version: nat)
      requires Valid() && 0 < version <= desired
      modifies this
      ensures Valid() && token && lastRead == clock == old(clock) + 1 && announced >= version && Now() == Moved(old(Now()), Reads(version))
      ensures lastStart == old(lastStart) && fetchFloor == old(fetchFloor) && running == old(running) && finished == old(finished)
      ensures inProgress == old(inProgress) && pending == old(pending) && desired == old(desired)
    {
      clock := clock + 1;
      lastRead := clock;
      announced := if version > announced then version else announced;
      if !token {
        token := true;
      }
      assert Now() == Read(old(Now()), version);
    }

    /** `case <-configChanged`. */
    method TakeToken()
      requires Valid() && token
      modifies this
      ensures Valid() && !token && inProgress && desired == old(desired) && lastRead == old(lastRead) && announced == old(announced)
      ensures Now() == Moved(old(Now()), TakesToken)
      ensures old(inProgress) ==> pending && running == old(running) && finished == old(finished) && lastStart == old(lastStart)
      ensures !old(inProgress) ==> lastStart > lastRead && running
    {
      token := false;
      StartConfigSync();
    }

    /** The sync goroutine ends; the channel is empty, so the send cannot block. */
    method SyncReturns()
      requires Valid() && running
      modifies this
      ensures !old(finished) && finished && !running && Now() == Moved(old(Now()), Returns)
      ensures Valid() && token == old(token) && pending == old(pending) && inProgress && lastRead == old(lastRead) && lastStart == old(lastStart)
      ensures announced == old(announced) && desired == old(desired)
    {
      clock := clock + 1;
      finished := true;
      running := false;
    }

    /** `case <-configSyncFinished`: a pending request starts the next sync at once. */
    method TakeFinished()
      requires Valid() && finished
      modifies this
      ensures Valid() && !finished && !pending && inProgress == running == old(pending) && token == old(token)
      ensures Now() == Moved(old(Now()), TakesFinished)
      ensures lastRead == old(lastRead) && announced == old(announced) && desired == old(desired)
      ensures old(pending) ==> lastStart > lastRead
      ensures !old(pending) ==> lastStart == old(lastStart)
    {
      finished, inProgress := false, false;
      var again := pending;
      pending := false;
      if again {
        StartConfigSync();
      }
    }

    /** What is owed is delivered: once the loop has handled what is in its channels and the running
        sync has ended, a sync has started after the last message, at a desired version no smaller
        than any announced. */
    method Settle()
      requires Valid()
      modifies this
      ensures Valid() && lastRead <= lastStart && announced == old(announced) && announced <= fetchFloor && desired == old(desired)
    {
      if token {
        TakeToken();
      }
      if running && pending {
        SyncReturns();
      }
      if finished {
        TakeFinished();
      }
    }

    /** Any moves in any order. */
    method Run(moves: seq<Move>) returns (ghost states: seq<View>)
      requires Valid()
      modifies this
      ensures Valid() && IsRun(states, moves) && states[0] == old(Now()) && states[|moves|] == Now()
      ensures !token && !inProgress ==> lastRead <= lastStart && announced <= fetchFloor
    {
      states := [Now()];
      for i := 0 to |moves|
        invariant Valid() && IsRun(states, moves[..i]) && states[0] == old(Now()) && states[i] == Now()
      {
        hide Sound, Moved;
        OneStep(moves[i]);
        states := states + [Now()];
        assert moves[..i + 1] == moves[..i] + [moves[i]];
      }
      assert moves[..|moves|] == moves;
    }

    /** One move, when it can be taken. */
    method OneStep(m: Move)
      requires Valid()
      modifies this
      ensures Valid() && Now() == Moved(old(Now()), m)
    {
      match m {
        case Raises =>
          Bump();
        case Reads(version) =>
          if 0 < version <= desired {
            ReadConfigChanged(version);
          }
        case TakesToken =>
          if token {
            TakeToken();
          }
        case TakesFinished =>
          if finished {
            TakeFinished();
          }
        case Ticks =>
          Tick();
        case Returns =>
          if running {
            SyncReturns();
          }
      }
    }
  }
}
