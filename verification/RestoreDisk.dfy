/**
 The disk as the protocol sees it: file primitives that may succeed, fail, or be cut short by a
 crash. A crash freezes the disk, so whatever the code does afterwards has no effect and the
 volume left behind is exactly what the next start finds. A postcondition on the volume of a
 method built from these primitives therefore speaks of every crash point inside it.
 */
module RestoreDisk {
  import opened Wrappers
  import opened RestoreVolume
  import opened RestoreLog

  datatype Fate = Done | Failed | Stopped

  /** The `n` steps from `from` on all work. */
  ghost predicate Works(plan: nat -> Fate, from: nat, n: nat) {
    forall k: nat :: from <= k < from + n ==> plan(k).Done?
  }

  /** They work, and the process is cut off in the step after them. */
  ghost predicate CutAfter(plan: nat -> Fate, from: nat, n: nat) {
    Works(plan, from, n) && plan(from + n).Stopped?
  }

  /** What a running panel is asked for: serving, or an upload. */
  datatype Request = Serves | Uploads(database: File, key: Option<File>, needsKey: bool)

  /** What a look at a path told: it is there, it is not, or the look itself failed. */
  datatype Sight = There | Missing | Unknown

  class Disk {
    var v: Volume
    var crashed: bool
    /** Which steps work, fail, or are where the process is cut off, in the order they are taken. */
    const plan: nat -> Fate
    var steps: nat
    /** How many steps failed or were cut short. */
    ghost var faults: nat
    /** What happened to the database. */
    ghost var log: seq<Event>
    /** How many looks at `restore/` failed without a crash, in all and before this boot. */
    ghost var blinks: nat
    ghost var seen: nat
    /** How often the panel was started, and what it was asked for. */
    ghost var boots: nat
    ghost var asked: seq<Request>
    const world: World
    /** What was owned when the log began. */
    ghost const origin: Spec

    constructor (v: Volume, world: World, plan: nat -> Fate)
      ensures this.v == v && !crashed && steps == faults == blinks == seen == boots == 0 && log == [] && asked == []
      ensures this.world == world && this.plan == plan && origin == Spec(Logical(v), PendingMarker(v), None, false, false, false)
    {
      this.v, crashed, this.world, this.plan := v, false, world, plan;
      steps, faults, blinks, seen, boots, log, asked := 0, 0, 0, 0, 0, [], [];
      origin := Spec(Logical(v), PendingMarker(v), None, false, false, false);
    }

    /** One step, as planned; after a crash none is taken. */
    twostate predicate Tried(ok: bool)
      reads this
    {
      && (old(crashed) ==> crashed && !ok && v == old(v) && faults == old(faults) && steps == old(steps))
      && (!old(crashed) ==> ok == plan(old(steps)).Done? && crashed == plan(old(steps)).Stopped? && steps == old(steps) + 1
                            && faults == old(faults) + if ok then 0 else 1)
    }

    /** Steps up to the first that does not work. After a crash nothing happens; otherwise they all work or
        one is a fault. */
    twostate predicate Once(ok: bool)
      reads this
    {
      && (old(crashed) ==> crashed && !ok && v == old(v) && faults == old(faults) && steps == old(steps))
      && (!old(crashed) ==> faults == old(faults) + if ok then 0 else 1)
      && (ok ==> !crashed) && log == old(log)
    }

    /** A step that cannot be taken changes nothing, and is not a fault of the disk. */
    twostate predicate Denied(ok: bool)
      reads this
    {
      !ok && v == old(v) && crashed == old(crashed) && faults == old(faults) && steps == old(steps) && log == old(log)
    }

    method Draw() returns (fate: Fate)
      modifies `crashed, `faults, `steps
      ensures Tried(fate.Done?) && v == old(v)
      ensures fate.Stopped? <==> crashed
    {
      if crashed {
        return Stopped;
      }
      fate := plan(steps);
      steps := steps + 1;
      crashed := fate.Stopped?;
      faults := faults + if fate.Done? then 0 else 1;
    }

    /** A power cycle: whatever the crash left is what the next start reads. */
    method Reboot()
      modifies `crashed, `log, `boots, `seen
      ensures !crashed && log == old(log) + [Booted] && boots == old(boots) + 1 && seen == blinks
    {
      crashed := false;
      seen := blinks;
      boots := boots + 1;
      log := log + [Booted];
    }

    function At(place: Place): (d: Option<Dir>)
      reads this
    {
      match place
      case Data => Some(v.data)
      case Restore => Some(v.restore)
      case RollbackTmp => v.rollbackTmp
      case Rollback => v.rollback
    }

    /** A look that failed, unless it was the crash. */
    ghost method Blink()
      modifies `log, `blinks
      ensures blinks == old(blinks) + (if crashed then 0 else 1)
      ensures log == if crashed then old(log) else old(log) + [Blinked]
    {
      if !crashed {
        blinks := blinks + 1;
        log := log + [Blinked];
      }
    }

    /** os.Stat of pending.json, or of `rollback/`. */
    method Look(place: Place) returns (sight: Sight)
      requires place == Restore || place == Rollback
      modifies `crashed, `faults, `steps, `log, `blinks
      ensures Tried(!sight.Unknown?) && v == old(v)
      ensures !sight.Unknown? ==> (sight.There? <==> if place == Restore then Pending in v.restore else v.rollback.Some?)
      ensures blinks == old(blinks) + (if sight.Unknown? && !crashed then 1 else 0)
      ensures log == if sight.Unknown? && !crashed then old(log) + [Blinked] else old(log)
    {
      var fate := Draw();
      if !fate.Done? {
        Blink();
        return Unknown;
      }
      sight := if (if place == Restore then Pending in v.restore else v.rollback.Some?) then There else Missing;
    }

    /** os.ReadFile of pending.json. */
    method ReadMarker() returns (text: Option<File>)
      requires Pending in v.restore
      modifies `crashed, `faults, `steps, `log, `blinks
      ensures Tried(text.Some?) && v == old(v)
      ensures text.Some? ==> text.value == v.restore[Pending]
      ensures blinks == old(blinks) + (if text.None? && !crashed then 1 else 0)
      ensures log == if text.None? && !crashed then old(log) + [Blinked] else old(log)
    {
      var fate := Draw();
      text := if fate.Done? then Some(v.restore[Pending]) else None;
      if text.None? {
        Blink();
      }
    }

    /** The os.Stat at the head of `Rollback`: any error ends it. */
    method FindCopy() returns (ok: bool)
      requires v.rollback.Some?
      modifies `crashed, `faults, `steps
      ensures Tried(ok) && v == old(v)
    {
      var fate := Draw();
      ok := fate.Done?;
    }

    /** os.Remove with "not found" forgiven. */
    method RemoveIfExists(place: Place, name: Name) returns (ok: bool)
      requires place == Data || place == Restore
      modifies `v, `crashed, `faults, `steps
      ensures Tried(ok) && v == if ok then Without(old(v), place, name) else old(v)
    {
      var fate := Draw();
      ok := fate.Done?;
      if ok {
        v := Without(v, place, name);
      }
    }

    /** Copies one file; an interrupted copy can leave any content behind. */
    method CopyIfExists(from: Place, to: Place, name: Name) returns (ok: bool)
      requires (from == Data && to == RollbackTmp) || (from == Rollback && to == Data)
      requires At(from).Some? && At(to).Some?
      modifies `v, `crashed, `faults, `steps
      ensures if !old(crashed) && name in old(At(from).value) && name in old(At(to).value) then Denied(ok) else Tried(ok)
      ensures ok ==> v == if name in old(At(from).value) then With(old(v), to, name, old(At(from).value)[name]) else old(v)
      ensures !ok ==> v == old(v) || (At(to).Some? && name in At(to).value && v == With(old(v), to, name, At(to).value[name]))
    {
      if !crashed && name in At(from).value && name in At(to).value {
        return false;
      }
      var stopped := crashed;
      var fate := Draw();
      ok := fate.Done?;
      if name in At(from).value {
        var begun: bool := *;
        if ok {
          v := With(v, to, name, At(from).value[name]);
        } else if !stopped && begun {
          var junk: File := *;
          v := With(v, to, name, junk);
        }
      }
    }

    /** os.RemoveAll of one of the two rollback directories; an interrupted one leaves a part. */
    method RemoveAll(place: Place) returns (ok: bool)
      requires place == RollbackTmp || place == Rollback
      modifies `v, `crashed, `faults, `steps
      ensures Tried(ok) && v.data == old(v).data && v.restore == old(v).restore
      ensures ok ==> v == Cleared(old(v), place)
      ensures !ok ==> v == old(v) || (old(At(place)).Some? && At(place).Some? && v == Trimmed(old(v), place, At(place).value.Keys))
    {
      var stopped := crashed;
      var fate := Draw();
      ok := fate.Done?;
      if ok {
        v := Cleared(v, place);
      } else if !stopped && At(place).Some? {
        var rest: set<Name> := *;
        ghost var kept := Restrict(At(place).value, rest);
        assert Restrict(At(place).value, kept.Keys) == kept;
        v := Trimmed(v, place, rest);
      }
    }

    /** os.Mkdir of rollback.tmp; it fails when the directory is there. */
    method MakeRollbackTmp() returns (ok: bool)
      modifies `v, `crashed, `faults, `steps
      ensures if !old(crashed) && old(v).rollbackTmp.Some? then Denied(ok) else Tried(ok)
      ensures v == if ok then old(v).(rollbackTmp := Some(map[])) else old(v)
    {
      if !crashed && v.rollbackTmp.Some? {
        return false;
      }
      var fate := Draw();
      ok := fate.Done?;
      if ok {
        v := v.(rollbackTmp := Some(map[]));
      }
    }

    /** The atomic rename that publishes the saved copy. */
    method PublishRollback() returns (ok: bool)
      requires v.rollback.None? && v.rollbackTmp.Some?
      modifies `v, `crashed, `faults, `steps
      ensures Tried(ok) && v == if ok then old(v).(rollback := old(v).rollbackTmp, rollbackTmp := None) else old(v)
    {
      var fate := Draw();
      ok := fate.Done?;
      if ok {
        v := v.(rollback := v.rollbackTmp, rollbackTmp := None);
      }
    }

    /** The atomic rename of a staged file over its place in the data directory. */
    method InstallStaged(name: Name) returns (ok: bool)
      requires name in v.restore
      modifies `v, `crashed, `faults, `steps
      ensures Tried(ok)
      ensures v == if ok then old(v).(restore := old(v).restore - {name}, data := old(v).data[name := old(v).restore[name]]) else old(v)
    {
      var fate := Draw();
      ok := fate.Done?;
      if ok {
        v := v.(restore := v.restore - {name}, data := v.data[name := v.restore[name]]);
      }
    }

    /** Moving a checked upload into `restore/`: os.Rename from the extraction directory. */
    method Stage(name: Name, file: File) returns (ok: bool)
      requires name in {Db, Key}
      modifies `v, `crashed, `faults, `steps
      ensures Tried(ok) && v == if ok then With(old(v), Restore, name, file) else old(v)
    {
      var fate := Draw();
      ok := fate.Done?;
      if ok {
        v := With(v, Restore, name, file);
      }
    }

    /** O_CREATE|O_EXCL of pending.json.tmp: an empty file. */
    method CreateMarkerTmp() returns (ok: bool)
      modifies `v, `crashed, `faults, `steps
      ensures if !old(crashed) && PendingTmp in old(v).restore then Denied(ok) else Tried(ok)
      ensures v == if ok then With(old(v), Restore, PendingTmp, Blob([])) else old(v)
    {
      if !crashed && PendingTmp in v.restore {
        return false;
      }
      var fate := Draw();
      ok := fate.Done?;
      if ok {
        v := With(v, Restore, PendingTmp, Blob([]));
      }
    }

    /** Write, sync and close of pending.json.tmp; cut short it holds anything. */
    method WriteMarkerTmp(m: Marker) returns (ok: bool)
      requires PendingTmp in v.restore && !crashed
      modifies `v, `crashed, `faults, `steps
      ensures Tried(ok) && PendingTmp in v.restore
      ensures v == With(old(v), Restore, PendingTmp, if ok then Json(m) else v.restore[PendingTmp])
    {
      var fate := Draw();
      ok := fate.Done?;
      var junk: File := *;
      v := With(v, Restore, PendingTmp, if ok then Json(m) else junk);
    }

    /** The atomic rename that publishes pending.json. */
    method PublishMarker() returns (ok: bool)
      requires PendingTmp in v.restore && v.restore[PendingTmp].Json?
      modifies `v, `crashed, `faults, `steps, `log
      ensures Tried(ok) && log == if ok then old(log) + [Imported(old(v).restore[PendingTmp].marker)] else old(log)
      ensures v == if ok then old(v).(restore := (old(v).restore - {PendingTmp})[Pending := old(v).restore[PendingTmp]]) else old(v)
    {
      var fate := Draw();
      ok := fate.Done?;
      if ok {
        log := log + [Imported(v.restore[PendingTmp].marker)];
        v := v.(restore := (v.restore - {PendingTmp})[Pending := v.restore[PendingTmp]]);
      }
    }

    /** Hashing the staged files against the marker; a read that fails counts as a mismatch. */
    method CheckStaged(m: Marker) returns (ok: bool)
      modifies `crashed, `faults, `steps
      ensures v == old(v) && log == old(log)
      ensures ok ==> StagedComplete(v, m) && !crashed && faults == old(faults)
      ensures !old(crashed) ==> Tried(plan(old(steps)).Done?) && (ok <==> plan(old(steps)).Done? && StagedComplete(v, m))
      ensures !ok && !old(crashed) ==> faults == old(faults) + 1 || (!StagedComplete(v, m) && faults == old(faults) && !crashed)
    {
      var fate := Draw();
      ok := fate.Done? && StagedComplete(v, m);
    }

    /** `ValidateDatabase` of one database file: reads only, and may also give up on its two minutes. */
    method ValidateFile(database: File) returns (ok: bool)
      modifies `crashed, `faults, `steps
      ensures v == old(v) && log == old(log)
      ensures ok ==> world.Valid(map[Db := database]) && !crashed && faults == old(faults)
      ensures !old(crashed) ==> Tried(plan(old(steps)).Done?) && (ok <==> plan(old(steps)).Done? && world.Valid(map[Db := database]))
      ensures !ok && !old(crashed) ==>
                faults == old(faults) + 1 || (!world.Valid(map[Db := database]) && faults == old(faults) && !crashed)
    {
      var fate := Draw();
      ok := fate.Done? && world.valid(Sqlite(map[Db := database]));
    }

    /** `ValidateDatabase` of the opened restore. */
    method ValidateTrial() returns (ok: bool)
      requires !crashed
      modifies `crashed, `faults, `steps, `log
      ensures v == old(v)
      ensures ok ==> world.Valid(v.data) && !crashed && faults == old(faults)
      ensures !ok ==> faults == old(faults) + 1 || (!world.Valid(v.data) && faults == old(faults) && !crashed)
      ensures log == old(log) + [Validated(ok)]
    {
      var fate := Draw();
      ok := fate.Done? && world.valid(Sqlite(v.data));
      log := log + [Validated(ok)];
    }

    /** `database.Open` and its migrations: rewrites the three SQLite files, may fail. Reaching it with
        anything but the owned or the staged set, when no look has failed in this boot, is what the protocol
        must exclude. */
    method OpenSqlite() returns (ok: bool)
      requires !crashed && UnderWay(v) && blinks == seen ==> v.data == Installed(Logical(v), PendingMarker(v).value)
      modifies `v, `crashed, `faults, `steps, `log
      ensures old(crashed) ==> crashed && !ok && v == old(v) && faults == old(faults) && log == old(log)
      ensures v == old(v).(data := v.data) && v.data - SqliteNames() == old(v).data - SqliteNames()
      ensures !old(crashed) ==> log == old(log) + [OpeningOf(old(v), v, blinks != seen, ok)]
      ensures !old(crashed) && faults == old(faults) ==> !crashed && v.data == world.Opened(old(v).data) && (ok <==> world.Opens(old(v).data))
      ensures ok ==> !crashed && faults == old(faults)
      ensures old(faults) <= faults <= old(faults) + 1
    {
      if crashed {
        return false;
      }
      ghost var before := v;
      var fate := Draw();
      ok := fate.Done? && world.opens(Sqlite(v.data));
      if fate.Done? {
        OpenedKeepsOthers(world, v.data);
        v := v.(data := world.Opened(v.data));
      } else {
        var written: Dir := *;
        OpenedKeepsOthers(World(world.valid, world.opens, d => written), v.data);
        v := v.(data := (v.data - SqliteNames()) + Sqlite(written));
      }
      log := log + [OpeningOf(before, v, blinks != seen, ok)];
    }

    /** os.Remove of pending.json by `Commit`: with the copy still there, this is the commit. */
    method CommitMarker() returns (ok: bool)
      requires UnderWay(v) && !crashed
      modifies `v, `crashed, `faults, `steps, `log
      ensures faults == old(faults) + (if ok then 0 else 1) && (ok ==> !crashed)
      ensures v == if ok then Without(old(v), Restore, Pending) else old(v)
      ensures log == if ok then old(log) + [Committed] else old(log)
    {
      var fate := Draw();
      ok := fate.Done?;
      if ok {
        v := Without(v, Restore, Pending);
        log := log + [Committed];
      }
    }

    /** The panel at work on its own data files; it does not touch `restore/`. */
    method Work()
      requires !crashed
      modifies `v, `crashed, `faults, `steps, `log
      ensures v == old(v).(data := v.data) && faults == old(faults) + (if plan(old(steps)).Done? then 0 else 1)
      ensures crashed == plan(old(steps)).Stopped? && steps == old(steps) + 1
      ensures log == old(log) + [if UnderWay(old(v)) then ServedBlind(v.data) else Served(v.data)]
    {
      var written: Dir := *;
      log := log + [if UnderWay(v) then ServedBlind(written) else Served(written)];
      v := v.(data := written);
      var _ := Draw();
    }
  }

  /** How an opening goes into the log. */
  function OpeningOf(before: Volume, after: Volume, blind: bool, ok: bool): (e: Event) {
    if !UnderWay(before) then OpenedLive(before.data, after.data)
    else if blind then OpenedBlind(before.data, after.data)
    else TriedStaged(before.data, after.data, ok)
  }

  lemma OpenedKeepsOthers(world: World, d: Dir)
    ensures world.Opened(d) - SqliteNames() == d - SqliteNames()
  {
  }

  function Without(v: Volume, place: Place, name: Name): (w: Volume)
    requires place == Data || place == Restore
  {
    if place == Data then v.(data := v.data - {name}) else v.(restore := v.restore - {name})
  }

  function With(v: Volume, place: Place, name: Name, file: File): (w: Volume)
    requires place == RollbackTmp ==> v.rollbackTmp.Some?
    requires place != Rollback
  {
    match place
    case Data => v.(data := v.data[name := file])
    case Restore => v.(restore := v.restore[name := file])
    case RollbackTmp => v.(rollbackTmp := Some(v.rollbackTmp.value[name := file]))
  }

  function Cleared(v: Volume, place: Place): (w: Volume) {
    if place == Rollback then v.(rollback := None) else v.(rollbackTmp := None)
  }

  function Trimmed(v: Volume, place: Place, rest: set<Name>): (w: Volume)
    requires place == RollbackTmp ==> v.rollbackTmp.Some?
    requires place == Rollback ==> v.rollback.Some?
  {
    match place
    case Rollback => v.(rollback := Some(Restrict(v.rollback.value, rest)))
    case RollbackTmp => v.(rollbackTmp := Some(Restrict(v.rollbackTmp.value, rest)))
    case _ => v
  }
}
