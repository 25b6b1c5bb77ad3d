/**
 The restore protocol: staging an uploaded backup, applying it at the next start, committing it or
 rolling it back, and the start-up driver that opens the database in between.

 Every method says what the volume is when it returns, and since a crash freezes the disk, what it
 is after a crash at any step inside. `Logical` never changes except in `Commit`, where it changes
 once, from the old set to the new one.
 */
module RestoreProtocol {
  import opened Wrappers
  import opened RestoreVolume
  import opened RestoreLog
  import opened RestoreDisk

  datatype Failure = InvalidBackup | RecoveryFailed | Other

  datatype StageError = PendingRestore | StageFailed

  /** `restoreKey` of the source's RestoreAttempt; the directories are fixed in the model. */
  datatype Attempt = Attempt(restoreKey: bool)

  /** Nothing but the staging area may differ, and the panel still owns the same set. */
  twostate predicate Kept(disk: Disk)
    reads disk
  {
    WriteAhead(disk.v) && Logical(disk.v) == Logical(old(disk.v))
    && (Pending in disk.v.restore ==> Pending in old(disk.v).restore && disk.v.restore[Pending] == old(disk.v).restore[Pending])
    && (old(disk.crashed) ==> disk.crashed)
  }

  /** `discardPending`: the marker goes first, so the staged files never outlive its promise. */
  method DiscardPending(disk: Disk) returns (ok: bool)
    requires WriteAhead(disk.v) && disk.v.data == Logical(disk.v)
    modifies disk`v, disk`crashed, disk`faults, disk`steps
    ensures Kept(disk) && disk.Once(ok)
    ensures disk.v == old(disk.v).(restore := disk.v.restore)
    ensures disk.v.restore == old(disk.v).restore || Pending !in disk.v.restore
    ensures ok ==> disk.v.restore == old(disk.v).restore - {Pending, Db, Key}
  {
    var names := [Pending, Db, Key];
    ghost var before := disk.v;
    for i := 0 to |names|
      invariant disk.v == before.(restore := before.restore - Names(names[..i]))
      invariant disk.crashed == old(disk.crashed) && disk.faults == old(disk.faults) && disk.log == old(disk.log)
      invariant if i > 0 then Pending !in disk.v.restore && !disk.crashed else disk.steps == old(disk.steps)
      invariant WriteAhead(disk.v) && Logical(disk.v) == Logical(before)
    {
      ok := disk.RemoveIfExists(Restore, names[i]);
      assert names[..i + 1] == names[..i] + [names[i]];
      if !ok {
        return;
      }
      assert disk.v.restore == before.restore - Names(names[..i + 1]);
    }
    assert names[..|names|] == names && names[0] == Pending && names[1] == Db && names[2] == Key;
    assert Names(names) == {Pending, Db, Key};
    ok := true;
  }

  predicate Distinct(names: seq<Name>) {
    forall i, j :: 0 <= i < j < |names| ==> names[i] != names[j]
  }

  /** The removal loop of `Rollback`. */
  method RemoveReplaced(disk: Disk, replaced: seq<Name>, ghost m: Marker) returns (ok: bool)
    requires WriteAhead(disk.v) && PendingMarker(disk.v) == Some(m) && disk.v.rollback.Some? && !disk.crashed
    requires Names(replaced) <= Touched(m)
    modifies disk`v, disk`crashed, disk`faults, disk`steps
    ensures Kept(disk) && Shielded(old(disk.v), disk.v, m) && disk.Once(ok)
    ensures ok ==> disk.v.data == old(disk.v).data - Names(replaced)
    ensures disk.v == old(disk.v).(data := disk.v.data)
    ensures |replaced| > 1 && CutAfter(disk.plan, old(disk.steps), 1) ==>
              !ok && disk.crashed && disk.v.data == old(disk.v).data - {replaced[0]} && disk.steps == old(disk.steps) + 2
  {
    ghost var before := disk.v;
    ok := true;
    for i := 0 to |replaced|
      invariant Shielded(before, disk.v, m)
      invariant disk.v == before.(data := before.data - Names(replaced[..i]))
      invariant ok && !disk.crashed && disk.faults == old(disk.faults)
      invariant disk.steps == old(disk.steps) + i && (i > 1 ==> !disk.plan(old(disk.steps) + 1).Stopped?)
    {
      ok := disk.RemoveIfExists(Data, replaced[i]);
      if !ok {
        break;
      }
      assert replaced[i] in Names(replaced);
      assert replaced[..i + 1] == replaced[..i] + [replaced[i]];
      assert disk.v.data == before.data - Names(replaced[..i + 1]);
    }
    assert replaced[..|replaced|] == replaced;
    ShieldedKeepsLogical(before, disk.v, m);
  }

  lemma SaveStep(data: Dir, names: seq<Name>, i: nat)
    requires i < |names| && Distinct(names)
    ensures names[i] !in Restrict(data, Names(names[..i]))
    ensures Restrict(data, Names(names[..i + 1]))
         == if names[i] in data then Restrict(data, Names(names[..i]))[names[i] := data[names[i]]] else Restrict(data, Names(names[..i]))
  {
  }

  lemma UpdateSum(a: Dir, b: Dir, name: Name, file: File)
    ensures a + b[name := file] == (a + b)[name := file]
  {
  }

  /** Copying the i-th name extends the restored part by exactly that name. */
  lemma CopyStep(emptied: Dir, saved: Dir, replaced: seq<Name>, i: nat)
    requires i < |replaced| && Distinct(replaced)
    requires replaced[i] !in emptied
    ensures replaced[i] !in emptied + Restrict(saved, Names(replaced[..i]))
    ensures emptied + Restrict(saved, Names(replaced[..i + 1]))
         == if replaced[i] in saved then (emptied + Restrict(saved, Names(replaced[..i])))[replaced[i] := saved[replaced[i]]]
            else emptied + Restrict(saved, Names(replaced[..i]))
  {
    SaveStep(saved, replaced, i);
    if replaced[i] in saved {
      UpdateSum(emptied, Restrict(saved, Names(replaced[..i])), replaced[i], saved[replaced[i]]);
    }
  }

  method CopyOneBack(disk: Disk, name: Name, ghost m: Marker) returns (ok: bool)
    requires PendingMarker(disk.v) == Some(m) && disk.v.rollback.Some? && !disk.crashed
    requires name in Touched(m) && name !in disk.v.data
    modifies disk`v, disk`crashed, disk`faults, disk`steps
    ensures Shielded(old(disk.v), disk.v, m) && disk.Once(ok)
    ensures ok ==> disk.v.data == if name in old(disk.v).rollback.value
                                  then old(disk.v).data[name := old(disk.v).rollback.value[name]] else old(disk.v).data
  {
    ok := disk.CopyIfExists(Rollback, Data, name);
  }

  lemma NameListed(names: seq<Name>, i: nat)
    requires i < |names|
    ensures names[i] in Names(names)
  {
  }

  /** All replaced names copied back into an emptied directory: that is the owned set. */
  lemma RecoveredFully(v: Volume, emptied: Dir, m: Marker)
    requires PendingMarker(v) == Some(m) && v.rollback.Some? && emptied.Keys !! Touched(m)
    requires v.data == emptied + Restrict(v.rollback.value, Touched(m))
    ensures v.data == Logical(v)
  {
  }

  /** The copy loop of `Rollback`: from the emptied names to the saved files. */
  method CopyBack(disk: Disk, replaced: seq<Name>, ghost m: Marker) returns (ok: bool)
    requires WriteAhead(disk.v) && PendingMarker(disk.v) == Some(m) && disk.v.rollback.Some? && !disk.crashed
    requires Names(replaced) == Touched(m) && Distinct(replaced) && disk.v.data.Keys !! Touched(m)
    modifies disk`v, disk`crashed, disk`faults, disk`steps
    ensures Kept(disk) && Shielded(old(disk.v), disk.v, m) && disk.Once(ok)
    ensures ok ==> disk.v.data == Logical(disk.v)
  {
    hide Names, Restrict, Touched, Logical, WriteAhead, Distinct;
    ghost var before := disk.v;
    ghost var saved := disk.v.rollback.value;
    ok := true;
    NothingCopied(before.data, saved);
    assert replaced[..0] == [];
    for i := 0 to |replaced|
      invariant Shielded(before, disk.v, m)
      invariant ok && !disk.crashed && disk.faults == old(disk.faults) && disk.log == old(disk.log)
      invariant disk.v.data == before.data + Restrict(saved, Names(replaced[..i]))
    {
      NextName(replaced, m, before.data, i);
      CopyStep(before.data, saved, replaced, i);
      ok := CopyOneBack(disk, replaced[i], m);
      if !ok {
        break;
      }
    }
    ShieldedKeepsLogical(before, disk.v, m);
    if ok {
      assert replaced[..|replaced|] == replaced;
      RecoveredFully(disk.v, before.data, m);
    }
  }

  lemma NothingCopied(data: Dir, saved: Dir)
    ensures data + Restrict(saved, Names([])) == data
  {
  }

  lemma NextName(names: seq<Name>, m: Marker, data: Dir, i: nat)
    requires i < |names| && Names(names) == Touched(m) && data.Keys !! Touched(m)
    ensures names[i] in Touched(m) && names[i] !in data
  {
    NameListed(names, i);
  }

  lemma ReplacedNames(replaced: seq<Name>, m: Marker)
    requires replaced == if m.key.Some? then SQLITE_FILES + [Key] else SQLITE_FILES
    ensures Names(replaced) == Touched(m) && Distinct(replaced)
  {
  }

  /** `Rollback`: restores the saved set from any half-replaced state, and can be re-run after any
      interruption because the marker is dropped only when every file is back. With the copy there it
      works exactly when no step fails. */
  method DoRollback(disk: Disk, attempt: Attempt) returns (ok: bool)
    requires WriteAhead(disk.v) && disk.v.rollback.Some?
    requires PendingMarker(disk.v).Some? && attempt.restoreKey == PendingMarker(disk.v).value.key.Some?
    modifies disk`v, disk`crashed, disk`faults, disk`steps
    ensures Kept(disk) && disk.Once(ok)
    ensures ok ==> disk.v.data == Logical(disk.v) && Pending !in disk.v.restore && disk.v.rollback.None?
  {
    hide Names, Restrict, Recover, Touched, StagedComplete, Distinct;
    ok := disk.FindCopy();
    if !ok {
      return;
    }
    var replaced := if attempt.restoreKey then SQLITE_FILES + [Key] else SQLITE_FILES;
    ghost var m := PendingMarker(disk.v).value;
    ReplacedNames(replaced, m);
    ok := RemoveReplaced(disk, replaced, m);
    if !ok {
      return;
    }
    ok := CopyBack(disk, replaced, m);
    if !ok {
      return;
    }
    ok := DiscardPending(disk);
    if !ok {
      return;
    }
    ok := disk.RemoveAll(Rollback);
  }

  /** `rollbackOnError`: an error either way, and the kind says whether the old set is back. */
  method RollbackOnError(disk: Disk, attempt: Attempt) returns (error: Failure)
    requires WriteAhead(disk.v) && disk.v.rollback.Some?
    requires PendingMarker(disk.v).Some? && attempt.restoreKey == PendingMarker(disk.v).value.key.Some?
    modifies disk`v, disk`crashed, disk`faults, disk`steps
    ensures Kept(disk) && disk.Once(error != RecoveryFailed)
    ensures error != RecoveryFailed ==> disk.v.data == Logical(disk.v) && Pending !in disk.v.restore && disk.v.rollback.None?
  {
    var ok := DoRollback(disk, attempt);
    error := if ok then Other else RecoveryFailed;
  }

  /** A start without a marker: whatever is left in `restore/` was never promised to anyone. */
  method CleanUnpublished(disk: Disk)
    requires Pending !in disk.v.restore && !disk.crashed
    modifies disk`v, disk`crashed, disk`faults, disk`steps
    ensures Kept(disk) && disk.v.data == old(disk.v).data && Pending !in disk.v.restore
    ensures disk.faults >= old(disk.faults)
    ensures disk.faults == old(disk.faults) ==> !disk.crashed && disk.v.rollback.None? && disk.v.rollbackTmp.None?
                                                && disk.v.restore == old(disk.v).restore - {Db, Key, PendingTmp}
  {
    Settled(disk.v);
    hide Logical, WriteAhead, Trimmed;
    var _ := disk.RemoveIfExists(Restore, Db);
    var _ := disk.RemoveIfExists(Restore, Key);
    var _ := disk.RemoveIfExists(Restore, PendingTmp);
    var _ := disk.RemoveAll(RollbackTmp);
    var _ := disk.RemoveAll(Rollback);
    Settled(disk.v);
  }

  lemma Settled(v: Volume)
    ensures Pending !in v.restore ==> WriteAhead(v) && !UnderWay(v)
    ensures !UnderWay(v) ==> Logical(v) == v.data
  {
  }

  lemma RestrictNothing(d: Dir)
    ensures Restrict(d, Names([])) == map[]
  {
  }

  /** The copy loop that saves the old set into rollback.tmp. */
  method SaveOld(disk: Disk, names: seq<Name>) returns (ok: bool)
    requires disk.v.rollbackTmp == Some(map[]) && !disk.crashed
    requires Distinct(names)
    modifies disk`v, disk`crashed, disk`faults, disk`steps
    ensures disk.v == old(disk.v).(rollbackTmp := disk.v.rollbackTmp)
    ensures disk.Once(ok) && (ok ==> disk.v.rollbackTmp == Some(Restrict(disk.v.data, Names(names))))
    ensures Works(disk.plan, old(disk.steps), |names|) ==> ok && disk.steps == old(disk.steps) + |names|
  {
    hide Restrict, Names;
    ghost var before := disk.v;
    ok := true;
    RestrictNothing(before.data);
    assert names[..0] == [];
    for i := 0 to |names|
      invariant ok && !disk.crashed && disk.faults == old(disk.faults) && disk.steps == old(disk.steps) + i
      invariant disk.v == before.(rollbackTmp := Some(Restrict(before.data, Names(names[..i]))))
    {
      SaveStep(before.data, names, i);
      ok := disk.CopyIfExists(Data, RollbackTmp, names[i]);
      if !ok {
        return;
      }
    }
    assert names[..|names|] == names;
  }

  /** How many files are saved before a restore of `m`. */
  function SavedFiles(m: Marker): (n: nat) {
    if m.key.Some? then 4 else 3
  }

  /** From the checked staged files to the published copy of the old set. Only a workspace that cannot
      be cleared leaves the marker for another start to try. */
  method SaveRollback(disk: Disk, attempt: Attempt, ghost m: Marker) returns (ok: bool)
    requires WriteAhead(disk.v) && PendingMarker(disk.v) == Some(m) && disk.v.rollback.None?
    requires StagedComplete(disk.v, m) && attempt.restoreKey == m.key.Some? && !disk.crashed
    modifies disk`v, disk`crashed, disk`faults, disk`steps
    ensures Kept(disk) && disk.v.data == old(disk.v).data
    ensures ok ==> !disk.crashed && disk.v.rollback.Some? && PendingMarker(disk.v) == Some(m) && StagedComplete(disk.v, m)
    ensures !ok ==> disk.v.rollback.None?
    ensures if ok then disk.faults == old(disk.faults) else disk.faults > old(disk.faults)
    ensures Works(disk.plan, old(disk.steps), SavedFiles(m) + 3) ==> ok && disk.steps == old(disk.steps) + SavedFiles(m) + 3
    ensures !ok && disk.plan(old(disk.steps)).Done? && disk.faults == old(disk.faults) + 1 && !disk.crashed ==>
              disk.v.rollbackTmp.None? && disk.v.restore == old(disk.v).restore - {Pending, Db, Key}
  {
    ok := disk.RemoveAll(RollbackTmp);
    if !ok {
      return;
    }
    ok := disk.MakeRollbackTmp();
    if !ok {
      var _ := DiscardPending(disk);
      return;
    }
    ok := SaveInto(disk, attempt, m);
    if !ok {
      var _ := disk.RemoveAll(RollbackTmp);
      var _ := DiscardPending(disk);
    }
  }

  /** The copy into the new workspace, and its publication. */
  method SaveInto(disk: Disk, attempt: Attempt, ghost m: Marker) returns (ok: bool)
    requires WriteAhead(disk.v) && PendingMarker(disk.v) == Some(m) && disk.v.rollback.None? && disk.v.rollbackTmp == Some(map[])
    requires StagedComplete(disk.v, m) && attempt.restoreKey == m.key.Some? && !disk.crashed
    modifies disk`v, disk`crashed, disk`faults, disk`steps
    ensures Kept(disk) && disk.Once(ok) && disk.v.data == old(disk.v).data && disk.v.restore == old(disk.v).restore
    ensures if ok then disk.v.rollback.Some? else disk.v.rollback.None?
    ensures Works(disk.plan, old(disk.steps), SavedFiles(m) + 1) ==> ok && disk.steps == old(disk.steps) + SavedFiles(m) + 1
  {
    var names := if attempt.restoreKey then SQLITE_FILES + [Key] else SQLITE_FILES;
    ReplacedNames(names, m);
    ok := SaveOld(disk, names);
    if ok {
      PublishRollbackKeepsLogical(disk.v, m, disk.v.rollbackTmp.value);
      ok := disk.PublishRollback();
    }
  }

  lemma InstalledInOrder(data: Dir, m: Marker)
    ensures m.key.None? ==> Installed(data, m) == (data - SqliteNames())[Db := m.database.preimage]
    ensures m.key.Some? ==>
              Installed(data, m) == ((data - SqliteNames())[Db := m.database.preimage] - {Key})[Key := m.key.value.preimage]
  {
  }

  /** The mail key is replaced only when the marker names one. */
  method InstallKey(disk: Disk, ghost m: Marker) returns (ok: bool)
    requires PendingMarker(disk.v) == Some(m) && disk.v.rollback.Some? && m.key.Some? && !disk.crashed
    requires Key in disk.v.restore && Sha256(disk.v.restore[Key]) == m.key.value
    modifies disk`v, disk`crashed, disk`faults, disk`steps
    ensures Shielded(old(disk.v), disk.v, m) && disk.Once(ok)
    ensures ok ==> disk.v.data == (old(disk.v).data - {Key})[Key := m.key.value.preimage]
  {
    ok := disk.RemoveIfExists(Data, Key);
    if ok {
      ok := disk.InstallStaged(Key);
    }
  }

  /** From the published rollback to the installed staged files; every step is shielded. */
  method Install(disk: Disk, attempt: Attempt, ghost m: Marker) returns (ok: bool)
    requires WriteAhead(disk.v) && PendingMarker(disk.v) == Some(m) && disk.v.rollback.Some?
    requires StagedComplete(disk.v, m) && attempt.restoreKey == m.key.Some? && !disk.crashed
    modifies disk`v, disk`crashed, disk`faults, disk`steps
    ensures Kept(disk) && Shielded(old(disk.v), disk.v, m) && disk.Once(ok)
    ensures ok ==> disk.v.data == Installed(old(disk.v).data, m)
    ensures CutAfter(disk.plan, old(disk.steps), 1) ==>
              !ok && disk.crashed && disk.v == old(disk.v).(data := old(disk.v).data - {Db}) && disk.steps == old(disk.steps) + 2
  {
    ghost var before := disk.v;
    InstalledInOrder(before.data, m);
    assert Names(SQLITE_FILES) == SqliteNames();
    ok := RemoveReplaced(disk, SQLITE_FILES, m);
    if !ok {
      return;
    }
    ghost var cleared := disk.v;
    ok := disk.InstallStaged(Db);
    ShieldedKeepsLogical(cleared, disk.v, m);
    if !ok || !attempt.restoreKey {
      return;
    }
    ghost var installed := disk.v;
    ok := InstallKey(disk, m);
    ShieldedKeepsLogical(installed, disk.v, m);
  }

  /** A restore is staged and may begin: the marker can be read, nothing is saved yet, and the staged
      database is valid. */
  predicate Restorable(v: Volume, world: World) {
    PendingMarker(v).Some? && v.rollback.None? && world.Valid(map[Db := PendingMarker(v).value.database.preimage])
  }

  /** The restore is under way, the database is removed, and nothing else of the data directory is touched. */
  predicate Torn(before: Volume, v: Volume) {
    UnderWay(v) && PendingMarker(v) == PendingMarker(before) && v.data == before.data - {Db}
  }

  /** From the readable marker on, with nothing saved yet: check, save the old set, install the staged one.
      A single failing step is answered by giving the old set back. */
  method BeginRestore(disk: Disk, m: Marker) returns (attempt: Option<Attempt>, failure: Option<Failure>)
    requires WriteAhead(disk.v) && PendingMarker(disk.v) == Some(m) && disk.v.rollback.None? && !disk.crashed
    modifies disk`v, disk`crashed, disk`faults, disk`steps
    ensures Kept(disk) && disk.faults >= old(disk.faults)
    ensures attempt.Some? ==>
              && failure.None? && !disk.crashed && disk.faults == old(disk.faults) && Restorable(old(disk.v), disk.world)
              && UnderWay(disk.v) && PendingMarker(disk.v) == Some(m) && attempt.value.restoreKey == m.key.Some?
              && disk.v.data == Installed(Logical(disk.v), m)
    ensures attempt.None? && failure != Some(RecoveryFailed) && !disk.crashed ==> disk.v.data == Logical(disk.v) && !UnderWay(disk.v)
    ensures disk.faults == old(disk.faults) ==>
              && !disk.crashed && failure != Some(RecoveryFailed) && (attempt.Some? <==> Restorable(old(disk.v), disk.world))
              && (attempt.None? ==> Pending !in disk.v.restore && disk.v.rollback.None?)
    ensures disk.faults <= old(disk.faults) + 1 && !disk.crashed ==> failure != Some(RecoveryFailed)
    ensures Restorable(old(disk.v), disk.world) && CutAfter(disk.plan, old(disk.steps), SavedFiles(m) + 6) ==>
              && Torn(old(disk.v), disk.v) && disk.crashed && failure == Some(RecoveryFailed)
              && disk.steps == old(disk.steps) + SavedFiles(m) + 7
  {
    var started := Attempt(m.key.Some?);
    var ok := disk.CheckStaged(m);
    if ok {
      ok := disk.ValidateFile(disk.v.restore[Db]);
    }
    if !ok {
      var _ := DiscardPending(disk);
      return None, Some(InvalidBackup);
    }
    ok := SaveRollback(disk, started, m);
    if !ok {
      return None, Some(Other);
    }
    ghost var saved := disk.v;
    ok := Install(disk, started, m);
    if !ok {
      var error := RollbackOnError(disk, started);
      return None, Some(error);
    }
    InstalledIgnoresTouched(saved.data, Logical(disk.v), m);
    return Some(started), None;
  }

  /** Of the three looks with which a start finds a restore under way, one fails after the others worked. */
  predicate Blinded(plan: nat -> Fate, from: nat) {
    || plan(from).Failed?
    || (plan(from).Done? && plan(from + 1).Failed?)
    || (plan(from).Done? && plan(from + 1).Done? && plan(from + 2).Failed?)
  }

  /** A look failed: nothing was done, and the error is not the one that stops the start. */
  twostate predicate OnlyBlinked(disk: Disk, new attempt: Option<Attempt>, new failure: Option<Failure>)
    reads disk
  {
    && disk.v == old(disk.v) && !disk.crashed && disk.faults == old(disk.faults) + 1
    && disk.blinks == old(disk.blinks) + 1 && disk.log == old(disk.log) + [Blinked]
    && attempt.None? && failure == Some(Other)
  }

  /** `ApplyPendingRestore`: the set the panel owns is the same before and after, whatever happens. An
      attempt comes back only with exactly the staged set installed; without one, and unless the recovery
      itself failed, the data directory is the owned set. The exception is a restore under way that the
      looks do not find, which happens if and only if one of the three fails: it is reported like any
      other failure, with the data directory half replaced. With no fault at all the marker is resolved;
      with one, and no interrupted restore to recover, the recovery does not fail. */
  method ApplyPendingRestore(disk: Disk) returns (attempt: Option<Attempt>, failure: Option<Failure>)
    requires WriteAhead(disk.v) && !disk.crashed
    modifies disk`v, disk`crashed, disk`faults, disk`steps, disk`log, disk`blinks
    ensures Kept(disk) && disk.faults >= old(disk.faults)
    ensures if disk.blinks == old(disk.blinks) then disk.log == old(disk.log) else OnlyBlinked(disk, attempt, failure)
    ensures UnderWay(old(disk.v)) ==> (disk.blinks != old(disk.blinks) <==> Blinded(disk.plan, old(disk.steps)))
    ensures attempt.Some? ==>
              && failure.None? && !disk.crashed && disk.faults == old(disk.faults) && Restorable(old(disk.v), disk.world)
              && UnderWay(disk.v) && PendingMarker(disk.v) == PendingMarker(old(disk.v))
              && attempt.value.restoreKey == PendingMarker(disk.v).value.key.Some?
              && disk.v.data == Installed(Logical(disk.v), PendingMarker(disk.v).value)
    ensures attempt.None? && failure != Some(RecoveryFailed) && !disk.crashed && (UnderWay(old(disk.v)) ==> disk.blinks == old(disk.blinks)) ==>
              disk.v.data == Logical(disk.v) && !UnderWay(disk.v)
    ensures disk.faults == old(disk.faults) ==>
              && !disk.crashed && failure != Some(RecoveryFailed) && (attempt.Some? <==> Restorable(old(disk.v), disk.world))
              && (attempt.None? ==> Pending !in disk.v.restore && disk.v.rollback.None?)
    ensures old(disk.v).rollback.None? && disk.faults <= old(disk.faults) + 1 && !disk.crashed ==> failure != Some(RecoveryFailed)
    ensures Restorable(old(disk.v), disk.world)
            && CutAfter(disk.plan, old(disk.steps), SavedFiles(PendingMarker(old(disk.v)).value) + 9) ==>
              && Torn(old(disk.v), disk.v) && disk.crashed && failure == Some(RecoveryFailed)
              && disk.steps == old(disk.steps) + SavedFiles(PendingMarker(old(disk.v)).value) + 10
  {
    hide Logical, StagedComplete, Installed;
    Settled(disk.v);
    var marker := disk.Look(Restore);
    if marker.Unknown? {
      return None, Some(Other);
    }
    if marker.Missing? {
      CleanUnpublished(disk);
      return None, None;
    }
    var text := disk.ReadMarker();
    if text.None? {
      return None, Some(Other);
    }
    if !text.value.Json? {
      var _ := DiscardPending(disk);
      return None, Some(InvalidBackup);
    }
    var copy := disk.Look(Rollback);
    if copy.Unknown? {
      return None, Some(Other);
    }
    if copy.There? {
      var ok := DoRollback(disk, Attempt(text.value.marker.key.Some?));
      return None, if ok then None else Some(RecoveryFailed);
    }
    attempt, failure := BeginRestore(disk, text.value.marker);
  }

  /** The log so far is an allowed history, what it says is owned is what the volume holds, a marker on
      the volume is the one it says is pending, and it knows whether a look failed since the last boot. */
  ghost predicate Agrees(v: Volume, s: Option<Spec>, blinked: bool) {
    && WriteAhead(v) && s.Some? && s.value.owned == Logical(v) && (PendingMarker(v).Some? ==> s.value.pending == PendingMarker(v))
    && s.value.blinked == blinked
  }

  ghost function Now(disk: Disk): (s: Option<Spec>)
    reads disk
  {
    Run(disk.origin, disk.log)
  }

  /** A look has failed since the last boot. */
  ghost predicate Blinking(disk: Disk)
    reads disk
  {
    disk.blinks != disk.seen
  }

  ghost predicate Tracks(disk: Disk)
    reads disk
  {
    disk.seen <= disk.blinks && Agrees(disk.v, Now(disk), Blinking(disk))
  }

  /** What is in place is the opened staged set, and it was accepted. */
  ghost predicate Accepted(disk: Disk, m: Marker)
    reads disk
  {
    && UnderWay(disk.v) && PendingMarker(disk.v) == Some(m) && disk.v.data == disk.world.Opened(Installed(Logical(disk.v), m))
    && Now(disk).Some? && Now(disk).value.trial == Some(disk.v.data) && Now(disk).value.up && Now(disk).value.validated
  }

  lemma RecoverOutside(data: Dir, saved: Dir, names: set<Name>)
    ensures Recover(data, saved, names) - names == data - names
  {
  }

  /** The marker is gone: what SQLite made of the staged set is what is owned, on the volume and in the log. */
  lemma CommitAgrees(disk: Disk, before: Volume, log: seq<Event>, m: Marker)
    requires disk.seen <= disk.blinks && Agrees(before, Run(disk.origin, log), Blinking(disk))
    requires UnderWay(before) && PendingMarker(before) == Some(m) && before.data == disk.world.Opened(Installed(Logical(before), m))
    requires Run(disk.origin, log).value.trial == Some(before.data)
    requires Run(disk.origin, log).value.up && Run(disk.origin, log).value.validated
    requires disk.v == Without(before, Restore, Pending) && disk.log == log + [Committed]
    ensures Tracks(disk) && Now(disk).value.trial.None?
    ensures disk.v.data == Logical(disk.v) == disk.world.Opened(Installed(Logical(before), m))
  {
    hide Restrict, Recover, Touched, Installed, StagedComplete;
    RunNext(disk.origin, log, Committed);
    RecoverOutside(before.data, before.rollback.value, Touched(m));
    RemoveMarkerCommits(before, m, disk.world, Logical(before));
  }

  /** `Commit`: removing the marker is the switch from the old set to the installed one; failing to
      remove the saved copy afterwards does not undo it. */
  method Commit(disk: Disk, ghost m: Marker) returns (ok: bool)
    requires Tracks(disk) && Accepted(disk, m) && !disk.crashed
    modifies disk`v, disk`crashed, disk`faults, disk`steps, disk`log
    ensures Tracks(disk)
    ensures !ok ==> disk.v == old(disk.v) && disk.log == old(disk.log) && disk.faults == old(disk.faults) + 1
    ensures ok ==> Pending !in disk.v.restore && disk.log == old(disk.log) + [Committed] && Now(disk).value.trial.None?
    ensures ok ==> disk.v.data == Logical(disk.v) == disk.world.Opened(Installed(Logical(old(disk.v)), m))
    ensures ok ==> disk.faults >= old(disk.faults) && (disk.faults == old(disk.faults) ==> !disk.crashed && disk.v.rollback.None?)
  {
    hide Logical, WriteAhead, Installed, Next, Allowed, Run;
    ghost var before, log := disk.v, disk.log;
    ok := disk.CommitMarker();
    if ok {
      CommitAgrees(disk, before, log, m);
      Settled(disk.v);
      ghost var owned := disk.v.data;
      var _ := disk.RemoveAll(Rollback);
      Settled(disk.v);
    }
  }

  /** `Refused` exits without serving; `Running` tells whether the staged set was committed. */
  datatype Start = Refused | Running(restored: bool)

  /** `database.Open` on what is in place: the owned set, or, after a look that failed, whatever it is. */
  method OpenExisting(disk: Disk) returns (start: Start)
    requires Tracks(disk) && (UnderWay(disk.v) && !disk.crashed ==> Blinking(disk))
    modifies disk`v, disk`crashed, disk`faults, disk`steps, disk`log
    ensures Tracks(disk) && disk.v == old(disk.v).(data := disk.v.data) && disk.faults >= old(disk.faults)
    ensures start == Refused || (start == Running(false) && !disk.crashed)
    ensures old(disk.crashed) ==> disk.crashed && start.Refused? && disk.log == old(disk.log) && disk.v == old(disk.v)
    ensures !old(disk.crashed) ==> disk.log == old(disk.log) + [OpeningOf(old(disk.v), disk.v, Blinking(disk), start.Running?)]
    ensures UnderWay(old(disk.v)) ==> UnderWay(disk.v) && Logical(disk.v) == Logical(old(disk.v))
    ensures !UnderWay(old(disk.v)) ==> !UnderWay(disk.v) && disk.v.data == Logical(disk.v)
    ensures !old(disk.crashed) && !UnderWay(old(disk.v)) ==> Now(disk).value.trial.None?
    ensures start.Running? && !UnderWay(disk.v) ==> Logical(disk.v) == disk.world.Opened(Logical(old(disk.v)))
    ensures !old(disk.crashed) && disk.faults == old(disk.faults) && !UnderWay(old(disk.v)) ==>
              && !disk.crashed && Logical(disk.v) == disk.world.Opened(Logical(old(disk.v)))
              && start == if disk.world.Opens(Logical(old(disk.v))) then Running(false) else Refused
  {
    ghost var before, log := disk.v, disk.log;
    var ok := disk.OpenSqlite();
    start := if ok then Running(false) else Refused;
    if disk.log != log {
      ExistingAgrees(disk, before, log, ok);
    }
  }

  lemma ExistingAgrees(disk: Disk, before: Volume, log: seq<Event>, ok: bool)
    requires Agrees(before, Run(disk.origin, log), Blinking(disk)) && disk.seen <= disk.blinks
    requires UnderWay(before) ==> Blinking(disk)
    requires disk.v == before.(data := disk.v.data) && disk.v.data - SqliteNames() == before.data - SqliteNames()
    requires disk.log == log + [OpeningOf(before, disk.v, Blinking(disk), ok)]
    ensures Tracks(disk)
    ensures UnderWay(before) ==> UnderWay(disk.v) && Logical(disk.v) == Logical(before)
    ensures !UnderWay(before) ==> Now(disk).value.trial.None?
  {
    RunNext(disk.origin, log, OpeningOf(before, disk.v, Blinking(disk), ok));
    if UnderWay(before) {
      var m := PendingMarker(before).value;
      assert disk.v.data - Touched(m) == (disk.v.data - SqliteNames()) - Touched(m);
      assert before.data - Touched(m) == (before.data - SqliteNames()) - Touched(m);
      ShieldedKeepsLogical(before, disk.v, m);
    }
  }

  /** Lines 221-225 of panel/cmd/panel/main.go: the opened restore is not accepted. When nothing fails any more the old set is back
      and opened as if there had been no restore. */
  method Reject(disk: Disk, attempt: Attempt) returns (start: Start)
    requires Tracks(disk) && UnderWay(disk.v) && attempt.restoreKey == PendingMarker(disk.v).value.key.Some?
    modifies disk`v, disk`crashed, disk`faults, disk`steps, disk`log
    ensures Tracks(disk) && disk.faults >= old(disk.faults) && (old(disk.crashed) ==> disk.crashed)
    ensures disk.log == old(disk.log) || disk.log == old(disk.log) + [OpenedLive(Logical(old(disk.v)), Logical(disk.v))]
    ensures disk.log == old(disk.log) ==> start.Refused? && Logical(disk.v) == Logical(old(disk.v))
    ensures start == Refused || start == Running(false)
    ensures start.Running? ==> !disk.crashed && !UnderWay(disk.v) && Logical(disk.v) == disk.world.Opened(Logical(old(disk.v)))
                               && Now(disk).value.trial.None?
    ensures !old(disk.crashed) && disk.faults == old(disk.faults) ==>
              && !disk.crashed && Pending !in disk.v.restore && disk.v.rollback.None? && disk.log != old(disk.log)
              && Logical(disk.v) == disk.world.Opened(Logical(old(disk.v)))
              && start == if disk.world.Opens(Logical(old(disk.v))) then Running(false) else Refused
  {
    var recovered := DoRollback(disk, attempt);
    if !recovered {
      return Refused;
    }
    Settled(disk.v);
    start := OpenExisting(disk);
  }

  /** The installed staged set is opened and validated. */
  method OpenTrial(disk: Disk, ghost m: Marker) returns (ok: bool)
    requires Tracks(disk) && UnderWay(disk.v) && PendingMarker(disk.v) == Some(m) && !disk.crashed
    requires disk.v.data == Installed(Logical(disk.v), m) && !Blinking(disk)
    modifies disk`v, disk`crashed, disk`faults, disk`steps, disk`log
    ensures Tracks(disk) && UnderWay(disk.v) && PendingMarker(disk.v) == Some(m) && Logical(disk.v) == Logical(old(disk.v))
    ensures old(disk.log) < disk.log && forall i :: |old(disk.log)| <= i < |disk.log| ==> disk.log[i].TriedStaged? || disk.log[i].Validated?
    ensures ok ==> !disk.crashed && disk.faults == old(disk.faults) && Accepted(disk, m)
    ensures old(disk.faults) <= disk.faults <= old(disk.faults) + 1
    ensures disk.faults == old(disk.faults) ==> !disk.crashed && (ok <==> disk.world.Accepts(Installed(Logical(old(disk.v)), m)))
  {
    ghost var before, log := disk.v, disk.log;
    ok := disk.OpenSqlite();
    TrialAgrees(disk, before, log, m, ok);
    if !ok {
      return;
    }
    ghost var tried := disk.log;
    ok := disk.ValidateTrial();
    RunNext(disk.origin, tried, Validated(ok));
  }

  /** Opening the staged set only touches what the saved copy covers. */
  lemma TrialAgrees(disk: Disk, before: Volume, log: seq<Event>, m: Marker, ok: bool)
    requires Agrees(before, Run(disk.origin, log), false) && !Blinking(disk) && UnderWay(before) && PendingMarker(before) == Some(m)
    requires before.data == Installed(Logical(before), m)
    requires disk.v == before.(data := disk.v.data) && disk.v.data - SqliteNames() == before.data - SqliteNames()
    requires disk.log == log + [TriedStaged(before.data, disk.v.data, ok)]
    ensures Tracks(disk) && UnderWay(disk.v) && PendingMarker(disk.v) == Some(m) && Logical(disk.v) == Logical(before)
    ensures Now(disk) == Some(Run(disk.origin, log).value.(trial := Some(disk.v.data), up := ok, validated := false))
  {
    RunNext(disk.origin, log, TriedStaged(before.data, disk.v.data, ok));
    assert disk.v.data - Touched(m) == (disk.v.data - SqliteNames()) - Touched(m);
    assert before.data - Touched(m) == (before.data - SqliteNames()) - Touched(m);
    ShieldedKeepsLogical(before, disk.v, m);
  }

  /** `openDatabase` from an attempt on: open, validate, commit; and whatever goes wrong in that, back. */
  method TryRestore(disk: Disk, attempt: Attempt, ghost m: Marker) returns (start: Start)
    requires Tracks(disk) && UnderWay(disk.v) && PendingMarker(disk.v) == Some(m) && !disk.crashed
    requires disk.v.data == Installed(Logical(disk.v), m) && attempt.restoreKey == m.key.Some? && !Blinking(disk)
    modifies disk`v, disk`crashed, disk`faults, disk`steps, disk`log
    ensures Tracks(disk) && old(disk.log) < disk.log && disk.faults >= old(disk.faults)
    ensures forall i :: |old(disk.log)| <= i < |disk.log| ==> !disk.log[i].OpenedBlind?
    ensures start.Running? ==> !disk.crashed && !UnderWay(disk.v) && Now(disk).value.trial.None?
    ensures start == Running(true) ==>
              && Logical(disk.v) == disk.world.Opened(Installed(Logical(old(disk.v)), m))
              && disk.log[|disk.log| - 1] == Committed
    ensures start == Running(false) ==> Logical(disk.v) == disk.world.Opened(Logical(old(disk.v)))
    ensures disk.faults == old(disk.faults) ==>
              && !disk.crashed && Pending !in disk.v.restore && disk.v.rollback.None?
              && if disk.world.Accepts(Installed(Logical(old(disk.v)), m)) then start == Running(true)
                 else Logical(disk.v) == disk.world.Opened(Logical(old(disk.v)))
                      && start == if disk.world.Opens(Logical(old(disk.v))) then Running(false) else Refused
    ensures disk.faults <= old(disk.faults) + 1 && !disk.crashed && disk.world.Accepts(Installed(Logical(old(disk.v)), m)) && start.Refused? ==>
              disk.log[|disk.log| - 1].OpenedLive?
  {
    var ok := OpenTrial(disk, m);
    if ok {
      ok := Commit(disk, m);
      if ok {
        return if disk.crashed then Refused else Running(true);
      }
    }
    start := Reject(disk, attempt);
  }

  /** What a start without a fault comes to. */
  predicate Commits(v: Volume, world: World) {
    Restorable(v, world) && world.Accepts(Installed(Logical(v), PendingMarker(v).value))
  }

  /** The panel opened a restore under way it could not see, and did nothing else. */
  twostate predicate OpenedUnseen(disk: Disk)
    reads disk
  {
    disk.log == old(disk.log) + [Blinked, OpenedBlind(old(disk.v).data, disk.v.data)]
  }

  /** `openDatabase`, one start of the panel. The log stays an allowed history at every crash point, so
      every opening that was not blind found the owned set or the staged one, and unless the live set was
      opened or a restore committed the owned set is what it was. With a restore under way the opening is
      blind if and only if one of the three looks for it fails; without one, or with the looks answered,
      no opening is. Without a fault the start is determined: an acceptable staged set is committed, a
      rejected one is rolled back and the owned set opened. With one fault, nothing interrupted before and
      an acceptable staged set, the panel at least gets to open the owned set. */
  method OpenDatabase(disk: Disk) returns (start: Start)
    requires Tracks(disk) && !disk.crashed && !Blinking(disk)
    modifies disk`v, disk`crashed, disk`faults, disk`steps, disk`log, disk`blinks
    ensures Tracks(disk) && old(disk.log) <= disk.log && disk.faults >= old(disk.faults) && disk.blinks >= old(disk.blinks)
    ensures (forall i :: |old(disk.log)| <= i < |disk.log| ==> Harmless(disk.log[i])) ==> Logical(disk.v) == Logical(old(disk.v))
    ensures UnderWay(old(disk.v)) ==> (disk.blinks != old(disk.blinks) <==> Blinded(disk.plan, old(disk.steps)))
    ensures if UnderWay(old(disk.v)) && disk.blinks != old(disk.blinks) then OpenedUnseen(disk)
            else forall i :: |old(disk.log)| <= i < |disk.log| ==> !disk.log[i].OpenedBlind?
    ensures start.Running? ==> !disk.crashed && Serving(disk) && (!UnderWay(old(disk.v)) ==> !UnderWay(disk.v))
    ensures start == Running(true) ==>
              PendingMarker(old(disk.v)).Some? && !UnderWay(disk.v) && disk.log != [] && disk.log[|disk.log| - 1] == Committed
              && Logical(disk.v) == disk.world.Opened(Installed(Logical(old(disk.v)), PendingMarker(old(disk.v)).value))
    ensures start == Running(false) && !UnderWay(disk.v) ==> Logical(disk.v) == disk.world.Opened(Logical(old(disk.v)))
    ensures disk.faults == old(disk.faults) ==>
              && !disk.crashed && Pending !in disk.v.restore && disk.v.rollback.None?
              && if Commits(old(disk.v), disk.world) then start == Running(true)
                 else Logical(disk.v) == disk.world.Opened(Logical(old(disk.v)))
                      && start == if disk.world.Opens(Logical(old(disk.v))) then Running(false) else Refused
    ensures old(disk.v).rollback.None? && disk.faults <= old(disk.faults) + 1 && !disk.crashed && start.Refused?
            && (Restorable(old(disk.v), disk.world) ==> Commits(old(disk.v), disk.world)) ==>
              disk.log != [] && disk.log[|disk.log| - 1].OpenedLive?
    ensures Restorable(old(disk.v), disk.world)
            && CutAfter(disk.plan, old(disk.steps), SavedFiles(PendingMarker(old(disk.v)).value) + 9) ==>
              && Torn(old(disk.v), disk.v) && disk.log == old(disk.log)
              && disk.steps == old(disk.steps) + SavedFiles(PendingMarker(old(disk.v)).value) + 10
  {
    hide Logical, Installed, StagedComplete, Touched, Restrict, WriteAhead, Recover, Allowed, Next, Torn, CutAfter, Blinded, SavedFiles;
    ghost var before, log := disk.v, disk.log;
    var attempt, failure := ApplyPendingRestore(disk);
    AppliedAgrees(disk, before, log);
    if failure == Some(RecoveryFailed) {
      return Refused;
    }
    if attempt.None? {
      start := OpenExisting(disk);
    } else {
      start := TryRestore(disk, attempt.value, PendingMarker(disk.v).value);
    }
    HarmlessKeeps(disk, before, log);
  }

  lemma HarmlessKeeps(disk: Disk, before: Volume, log: seq<Event>)
    requires Agrees(before, Run(disk.origin, log), false) && Tracks(disk) && log <= disk.log
    ensures (forall i :: |log| <= i < |disk.log| ==> Harmless(disk.log[i])) ==> Logical(disk.v) == Logical(before)
  {
    hide Logical, WriteAhead, Harmless;
    if forall i :: |log| <= i < |disk.log| ==> Harmless(disk.log[i]) {
      assert disk.log == log + disk.log[|log|..];
      OwnedStays(disk.origin, log, disk.log[|log|..]);
    }
  }

  /** A failed look is in the log, and nothing else. */
  lemma AppliedAgrees(disk: Disk, before: Volume, log: seq<Event>)
    requires Agrees(before, Run(disk.origin, log), false) && disk.seen <= disk.blinks
    requires WriteAhead(disk.v) && Logical(disk.v) == Logical(before) && disk.log == if Blinking(disk) then log + [Blinked] else log
    requires PendingMarker(disk.v).Some? ==> PendingMarker(disk.v) == PendingMarker(before)
    ensures Tracks(disk)
  {
    RunNext(disk.origin, log, Blinked);
  }

  function MarkerFor(database: File, key: Option<File>): (m: Marker) {
    Marker(Sha256(database), if key.Some? then Some(Sha256(key.value)) else None)
  }

  /** How many files an upload brings. */
  function Uploaded(key: Option<File>): (n: nat) {
    if key.Some? then 2 else 1
  }

  /** The two renames of `StageImport` that move the checked files into place. */
  method StageFiles(disk: Disk, database: File, key: Option<File>) returns (ok: bool)
    requires Pending !in disk.v.restore && !disk.crashed
    requires key.Some? ==> KeyFile(key.value)
    modifies disk`v, disk`crashed, disk`faults, disk`steps
    ensures disk.v == old(disk.v).(restore := disk.v.restore) && Pending !in disk.v.restore
    ensures ok ==> !disk.crashed && StagedComplete(disk.v, MarkerFor(database, key))
    ensures disk.log == old(disk.log) && disk.faults >= old(disk.faults)
    ensures PendingTmp in disk.v.restore <==> PendingTmp in old(disk.v).restore
    ensures disk.faults == old(disk.faults) ==> ok && disk.v.restore.Keys <= old(disk.v).restore.Keys + {Db, Key}
    ensures Works(disk.plan, old(disk.steps), Uploaded(key)) ==>
              disk.faults == old(disk.faults) && disk.steps == old(disk.steps) + Uploaded(key)
    ensures !ok && disk.faults == old(disk.faults) + 1 && !disk.crashed ==>
              disk.v.restore == old(disk.v).restore || disk.v.restore == old(disk.v).restore - {Db}
    ensures disk.v.restore - {Db, Key} == old(disk.v).restore - {Db, Key}
    ensures disk.crashed ==> old(disk.crashed) || disk.faults > old(disk.faults)
  {
    ok := disk.Stage(Db, database);
    if ok && key.Some? {
      ok := disk.Stage(Key, key.value);
      if !ok {
        var _ := disk.RemoveIfExists(Restore, Db);
      }
    }
  }

  /** The marker is written beside its final name and renamed over it, so pending.json is never torn. */
  method PublishPending(disk: Disk, m: Marker) returns (ok: bool)
    requires Pending !in disk.v.restore && !disk.crashed && StagedComplete(disk.v, m)
    modifies disk`v, disk`crashed, disk`faults, disk`steps, disk`log
    ensures disk.v == old(disk.v).(restore := disk.v.restore) && disk.faults >= old(disk.faults)
    ensures !ok ==> Pending !in disk.v.restore && disk.log == old(disk.log)
    ensures ok ==> PendingTmp !in old(disk.v).restore
    ensures disk.faults == old(disk.faults) && PendingTmp !in old(disk.v).restore ==> ok
    ensures Works(disk.plan, old(disk.steps), 3) && PendingTmp !in old(disk.v).restore ==>
              disk.faults == old(disk.faults) && disk.steps == old(disk.steps) + 3
    ensures ok ==> !disk.crashed && PendingMarker(disk.v) == Some(m) && StagedComplete(disk.v, m) && WriteAhead(disk.v)
    ensures ok ==> disk.log == old(disk.log) + [Imported(m)]
    ensures ok ==> (Logical(disk.v) == Logical(old(disk.v)) <==>
                     (disk.v.rollback.None? || Restrict(disk.v.rollback.value, Touched(m)) == Restrict(disk.v.data, Touched(m))))
    ensures !ok && disk.faults <= old(disk.faults) + (if PendingTmp in old(disk.v).restore then 0 else 1) && !disk.crashed ==>
              disk.v.restore == old(disk.v).restore - {Db, Key}
    ensures disk.crashed ==> old(disk.crashed) || disk.faults > old(disk.faults)
  {
    var created := disk.CreateMarkerTmp();
    ok := created;
    if ok {
      ok := disk.WriteMarkerTmp(m);
    }
    if ok {
      ok := disk.PublishMarker();
    }
    if ok {
      PublishMarkerKeepsLogical(disk.v.(restore := disk.v.restore - {Pending}), m);
      assert (disk.v.restore - {Pending})[Pending := Json(m)] == disk.v.restore;
      return;
    }
    ghost var begun := disk.v.restore;
    Unstage(disk, created);
    WithoutTmp(old(disk.v).restore, begun);
  }

  /** The temporary marker leaves nothing behind. */
  lemma WithoutTmp(before: Dir, begun: Dir)
    requires begun - {PendingTmp} == before - {PendingTmp}
    ensures PendingTmp !in before ==> begun - {Db, Key, PendingTmp} == before - {Db, Key}
  {
    if PendingTmp !in before {
      assert before - {PendingTmp} == before;
      assert begun - {Db, Key, PendingTmp} == (begun - {PendingTmp}) - {Db, Key};
    }
  }

  /** Nor do the staged files. */
  lemma WithoutStaged(before: Dir, staged: Dir)
    requires Db !in before && Key !in before && staged - {Db, Key} == before - {Db, Key}
    ensures staged - {Db, Key} == before && staged - {Db} - {Key} == before && (Key !in staged ==> staged - {Db} == before)
  {
    assert before - {Db, Key} == before;
    if Key !in staged {
      assert staged - {Db} == staged - {Db, Key};
    }
  }

  /** What is staged is taken away again. */
  method Unstage(disk: Disk, created: bool)
    modifies disk`v, disk`crashed, disk`faults, disk`steps
    ensures disk.v == old(disk.v).(restore := disk.v.restore) && disk.faults >= old(disk.faults)
    ensures Pending in disk.v.restore ==> Pending in old(disk.v).restore
    ensures old(disk.crashed) ==> disk.crashed
    ensures disk.faults == old(disk.faults) && !old(disk.crashed) ==>
              !disk.crashed && disk.v.restore == old(disk.v).restore - (if created then {Db, Key, PendingTmp} else {Db, Key})
    ensures disk.crashed ==> old(disk.crashed) || disk.faults > old(disk.faults)
  {
    var _ := disk.RemoveIfExists(Restore, Db);
    var _ := disk.RemoveIfExists(Restore, Key);
    if created {
      var _ := disk.RemoveIfExists(Restore, PendingTmp);
    }
  }

  /** The upload is good and nothing is staged yet. */
  predicate Stageable(v: Volume, world: World, database: File, key: Option<File>, needsKey: bool) {
    && world.Valid(map[Db := database]) && (if key.Some? then KeyFile(key.value) else !needsKey)
    && v.restore.Keys !! {Pending, PendingTmp, Db, Key}
  }

  /** pending.json names this database, this key when there is one and none when there is not, and both are
      staged. */
  predicate Promises(v: Volume, database: File, key: Option<File>) {
    && Pending in v.restore && v.restore[Pending].Json?
    && v.restore[Pending].marker.database.preimage == database && Db in v.restore && v.restore[Db] == database
    && match v.restore[Pending].marker.key
       case None => key.None?
       case Some(digest) => key == Some(digest.preimage) && Key in v.restore && v.restore[Key] == digest.preimage
  }

  /** `StageImport` from the checked upload on. `database` and `key` are the extracted files, their
      digests those computed while extracting. Every failure leaves the owned set as it was. The published
      marker keeps it if and only if no leftover `rollback` directory disagrees with the live files. */
  method StageImport(disk: Disk, database: File, key: Option<File>, needsKey: bool) returns (error: Option<StageError>)
    requires Tracks(disk) && !disk.crashed
    modifies disk`v, disk`crashed, disk`faults, disk`steps, disk`log, disk`asked
    ensures disk.asked == old(disk.asked) + [Uploads(database, key, needsKey)]
    ensures disk.v == old(disk.v).(restore := disk.v.restore) && old(disk.log) <= disk.log && disk.faults >= old(disk.faults)
    ensures error.Some? ==> Tracks(disk) && Logical(disk.v) == Logical(old(disk.v)) && disk.log == old(disk.log)
    ensures error == Some(PendingRestore) ==> disk.v == old(disk.v)
    ensures error.None? ==> Stageable(old(disk.v), disk.world, database, key, needsKey)
    ensures error.None? ==> Promises(disk.v, database, key)
    ensures disk.faults == old(disk.faults) && Stageable(old(disk.v), disk.world, database, key, needsKey) ==> error.None?
    ensures Works(disk.plan, old(disk.steps), Uploaded(key) + 4) && Stageable(old(disk.v), disk.world, database, key, needsKey) ==>
              disk.faults == old(disk.faults) && disk.steps == old(disk.steps) + Uploaded(key) + 4
    ensures error.None? ==>
              var m := MarkerFor(database, key);
              && !disk.crashed && PendingMarker(disk.v) == Some(m) && StagedComplete(disk.v, m) && disk.log == old(disk.log) + [Imported(m)]
              && (Tracks(disk) <==> Logical(disk.v) == Logical(old(disk.v)))
              && (Logical(disk.v) == Logical(old(disk.v)) <==>
                    (disk.v.rollback.None? || Restrict(disk.v.rollback.value, Touched(m)) == Restrict(disk.v.data, Touched(m))))
    ensures error.Some? && disk.faults <= old(disk.faults) + (if PendingTmp in old(disk.v).restore then 0 else 1) && !disk.crashed ==>
              disk.v == old(disk.v)
    ensures disk.crashed ==> old(disk.crashed) || disk.faults > old(disk.faults)
  {
    hide Logical, WriteAhead, StagedComplete, Restrict, Touched, Installed, Next, Allowed, Run;
    ghost var before, log := disk.v, disk.log;
    disk.asked := disk.asked + [Uploads(database, key, needsKey)];
    var ok := disk.ValidateFile(database);
    if !ok || (if key.Some? then !(key.value.Blob? && |key.value.bytes| == 32) else needsKey) {
      return Some(StageFailed);
    }
    if Pending in disk.v.restore || Db in disk.v.restore || Key in disk.v.restore {
      return Some(PendingRestore);
    }
    ghost var staged: Volume;
    ok := StageFiles(disk, database, key);
    staged := disk.v;
    WithoutStaged(before.restore, staged.restore);
    if ok {
      ok := PublishPending(disk, MarkerFor(database, key));
    }
    if ok {
      StagedPromises(disk.v, database, key);
      StagedIsSame(before, staged, MarkerFor(database, key));
      ImportAgrees(disk, before, log, MarkerFor(database, key));
    } else {
      StagedIsSame(before, disk.v, MarkerFor(database, key));
    }
    return if ok then None else Some(StageFailed);
  }

  lemma StagedPromises(v: Volume, database: File, key: Option<File>)
    requires PendingMarker(v) == Some(MarkerFor(database, key)) && StagedComplete(v, MarkerFor(database, key))
    ensures Promises(v, database, key)
  {
  }

  lemma ImportAgrees(disk: Disk, before: Volume, log: seq<Event>, m: Marker)
    requires disk.seen <= disk.blinks && Agrees(before, Run(disk.origin, log), Blinking(disk))
    requires WriteAhead(disk.v) && PendingMarker(disk.v) == Some(m) && disk.log == log + [Imported(m)]
    ensures Tracks(disk) <==> Logical(disk.v) == Logical(before)
  {
    hide Logical, WriteAhead;
    ImportedNext(disk.origin, log, m);
  }

  /** Files in `restore/` without a marker are nobody's. */
  lemma StagedIsSame(before: Volume, v: Volume, m: Marker)
    requires Pending !in before.restore && Pending !in v.restore && v == before.(restore := v.restore)
    ensures Logical(v) == Logical(before) && WriteAhead(v) && PendingMarker(v).None?
  {
  }

  /** What the panel may be serving from: the owned set, or a restore under way that it could not see. */
  ghost predicate Serving(disk: Disk)
    requires Now(disk).Some?
    reads disk
  {
    if UnderWay(disk.v) then Blinking(disk) else Now(disk).value.trial.None?
  }

  /** Serving requests: the panel writes its own data files, nothing in `restore/`. */
  method Serve(disk: Disk)
    requires Tracks(disk) && !disk.crashed && Serving(disk)
    modifies disk`v, disk`crashed, disk`faults, disk`steps, disk`log, disk`asked
    ensures disk.asked == old(disk.asked) + [Serves]
    ensures Tracks(disk) && disk.v == old(disk.v).(data := disk.v.data) && disk.faults >= old(disk.faults)
    ensures disk.log == old(disk.log) + [if UnderWay(old(disk.v)) then ServedBlind(disk.v.data) else Served(disk.v.data)]
    ensures Serving(disk)
    ensures disk.crashed ==> old(disk.crashed) || disk.faults > old(disk.faults)
  {
    hide Logical, WriteAhead, Run, Next, Allowed, Agrees, Installed, Touched, Restrict;
    ghost var before, log := disk.v, disk.log;
    disk.asked := disk.asked + [Serves];
    disk.Work();
    ServedAgrees(disk, before, log);
  }

  lemma RecoverTwice(data: Dir, was: Dir, saved: Dir, names: set<Name>)
    ensures Recover(data, Recover(was, saved, names), names) == Recover(data, saved, names)
  {
  }

  /** What the panel writes with a restore under way and unseen is lost again where the copy covers it. */
  lemma ServedAgrees(disk: Disk, before: Volume, log: seq<Event>)
    requires Agrees(before, Run(disk.origin, log), Blinking(disk)) && disk.seen <= disk.blinks
    requires if UnderWay(before) then Blinking(disk) else Run(disk.origin, log).value.trial.None?
    requires disk.v == before.(data := disk.v.data)
    requires disk.log == log + [if UnderWay(before) then ServedBlind(disk.v.data) else Served(disk.v.data)]
    ensures Tracks(disk) && Serving(disk)
  {
    hide Restrict, Recover, Touched;
    if UnderWay(before) {
      RecoverTwice(disk.v.data, before.data, before.rollback.value, Touched(PendingMarker(before).value));
    }
    RunNext(disk.origin, log, if UnderWay(before) then ServedBlind(disk.v.data) else Served(disk.v.data));
  }

  // From an upload to the start that accepts it, in terms of the upload alone ----------------------

  /** A file is in one directory as it is in the other, or in neither. */
  predicate SameAt(a: Dir, b: Dir, n: Name) {
    (n in a <==> n in b) && (n in a ==> a[n] == b[n])
  }

  /** The database is what SQLite makes of `database` alone, the key is `key` when one was uploaded and the
      old one otherwise, and everything else is as it was. */
  predicate Replaced(world: World, before: Dir, after: Dir, database: File, key: Option<File>) {
    && SameAt(after, world.migrated(map[Db := database]), Db) && SameAt(after, world.migrated(map[Db := database]), Wal)
    && SameAt(after, world.migrated(map[Db := database]), Shm)
    && (if key.Some? then Key in after && after[Key] == key.value else SameAt(after, before, Key))
    && forall n :: n !in {Db, Wal, Shm, Key} ==> SameAt(after, before, n)
  }

  /** The database is what SQLite makes of the old one, and everything else is as it was. */
  predicate Reopened(world: World, before: Dir, after: Dir) {
    var old3 := map n | n in before && n in {Db, Wal, Shm} :: before[n];
    && SameAt(after, world.migrated(old3), Db) && SameAt(after, world.migrated(old3), Wal) && SameAt(after, world.migrated(old3), Shm)
    && forall n :: n !in {Db, Wal, Shm} ==> SameAt(after, before, n)
  }

  /** The upload is a valid database with the key it needs, of a key's size, and opens to a valid one. */
  predicate Good(world: World, database: File, key: Option<File>, needsKey: bool) {
    && world.valid(map[Db := database]) && (needsKey ==> key.Some?)
    && (key.Some? ==> key.value.Blob? && |key.value.bytes| == 32)
    && world.opens(map[Db := database])
    && world.valid(map n | n in world.migrated(map[Db := database]) && n in {Db, Wal, Shm} :: world.migrated(map[Db := database])[n])
  }

  lemma GoodStages(v: Volume, world: World, database: File, key: Option<File>, needsKey: bool)
    ensures Good(world, database, key, needsKey) && (forall n :: n in {Pending, PendingTmp, Db, Key} ==> n !in v.restore) ==>
              Stageable(v, world, database, key, needsKey)
  {
    OneFile(database);
  }

  lemma OneFile(database: File)
    ensures Sqlite(map[Db := database]) == map[Db := database]
  {
  }

  /** The SQLite part of what is installed is the uploaded database alone. */
  lemma InstalledPart(d: Dir, m: Marker)
    ensures Sqlite(Installed(d, m)) == map[Db := m.database.preimage]
  {
  }

  /** What SQLite leaves is its own. */
  lemma OpenedPart(world: World, d: Dir)
    ensures Sqlite(world.Opened(d)) == map n | n in world.migrated(Sqlite(d)) && n in {Db, Wal, Shm} :: world.migrated(Sqlite(d))[n]
  {
  }

  lemma GoodCommits(v: Volume, world: World, database: File, key: Option<File>, needsKey: bool)
    requires Promises(v, database, key) && v.rollback.None?
    ensures Good(world, database, key, needsKey) ==> Commits(v, world)
  {
    hide Installed, Recover, Restrict, Sqlite;
    var m := PendingMarker(v).value;
    OneFile(database);
    InstalledPart(Logical(v), m);
    OpenedPart(world, Installed(Logical(v), m));
  }

  lemma ReplacedMeans(v: Volume, world: World, database: File, key: Option<File>)
    requires Promises(v, database, key)
    ensures Replaced(world, v.data, world.Opened(Installed(v.data, PendingMarker(v).value)), database, key)
  {
    InstalledPart(v.data, PendingMarker(v).value);
  }

  lemma ReopenedMeans(d: Dir, world: World)
    ensures Reopened(world, d, world.Opened(d))
  {
    assert Sqlite(d) == map n | n in d && n in {Db, Wal, Shm} :: d[n];
  }

  /** An upload and the restart it asks for, with nothing pending or left over before. When the panel runs
      on the restored set that is exactly the upload; when it runs on anything else, and every look was
      answered, that is exactly the old set. With no fault a good upload is what it runs on. */
  method ImportAndStart(disk: Disk, database: File, key: Option<File>, needsKey: bool) returns (error: Option<StageError>, start: Start)
    requires Tracks(disk) && !disk.crashed && disk.v.rollback.None?
    modifies disk
    ensures error.Some? ==> disk.v.data == old(disk.v).data && start.Refused?
    ensures start == Running(true) ==> Replaced(disk.world, old(disk.v).data, disk.v.data, database, key)
    ensures start == Running(false) ==> Reopened(disk.world, old(disk.v).data, disk.v.data)
    ensures disk.faults == old(disk.faults) && Good(disk.world, database, key, needsKey)
            && (forall n :: n in {Pending, PendingTmp, Db, Key} ==> n !in old(disk.v).restore) ==>
              error.None? && start == Running(true)
  {
    hide Logical, WriteAhead, Installed, StagedComplete, Stageable, Commits, Restorable, Replaced, Reopened, Good, Promises,
      World.Opened, World.Accepts, World.Opens, World.Valid;
    ghost var before, log := disk.v, disk.log;
    GoodStages(before, disk.world, database, key, needsKey);
    Settled(before);
    error := StageImport(disk, database, key, needsKey);
    if error.Some? {
      return error, Refused;
    }
    ghost var staged := disk.v;
    Settled(staged);
    GoodCommits(staged, disk.world, database, key, needsKey);
    RunNext(disk.origin, disk.log, Booted);
    disk.Reboot();
    start := OpenDatabase(disk);
    Settled(disk.v);
    ReplacedMeans(staged, disk.world, database, key);
    ReopenedMeans(before.data, disk.world);
  }

  /** Whole runs: any number of starts, each with any failures and crashes, the panel serving in between
      and an administrator staging further restores whenever no `rollback` directory is left over. At
      every point the log is an allowed history that ends in the set the volume holds: what is owned is
      carried from start to start and changes only by the panel's own work, by SQLite on the live set, and
      by an accepted restore. Whatever crashed or failed, no opening is blind as long as every look that did
      not crash was answered. All the starts are made. */
  method Lifetimes(disk: Disk, lives: seq<seq<Request>>) returns (starts: seq<Start>)
    requires Tracks(disk)
    modifies disk
    ensures Tracks(disk) && old(disk.log) <= disk.log && disk.boots == old(disk.boots) + |lives| && |starts| == |lives|
    ensures disk.faults >= old(disk.faults) && disk.blinks >= old(disk.blinks)
    ensures disk.blinks == old(disk.blinks) ==> Sighted(disk.log[|old(disk.log)|..])
    ensures lives != [] && disk.faults == old(disk.faults) && Commits(old(disk.v), disk.world) ==> Committed in disk.log[|old(disk.log)|..]
    ensures disk.faults == old(disk.faults) && (forall start :: start in starts ==> start.Running?) ==>
              disk.asked == old(disk.asked) + Flattened(lives)
  {
    ghost var first := disk.v;
    starts := [];
    for i := 0 to |lives|
      invariant Tracks(disk) && old(disk.log) <= disk.log && disk.boots == old(disk.boots) + i && |starts| == i
      invariant disk.faults >= old(disk.faults) && disk.blinks >= old(disk.blinks) && (i == 0 ==> disk.v == first)
      invariant disk.blinks == old(disk.blinks) ==> Sighted(disk.log[|old(disk.log)|..])
      invariant i > 0 && disk.faults == old(disk.faults) && Commits(first, disk.world) ==> Committed in disk.log[|old(disk.log)|..]
      invariant disk.faults == old(disk.faults) && (forall start :: start in starts ==> start.Running?) ==>
                  disk.asked + Flattened(lives[i..]) == old(disk.asked) + Flattened(lives)
    {
      ghost var log, asked := disk.log, disk.asked;
      var start := OneLife(disk, lives[i]);
      starts := starts + [start];
      assert disk.log[|old(disk.log)|..] == log[|old(disk.log)|..] + disk.log[|log|..];
      assert asked + (lives[i] + Flattened(lives[i + 1..])) == asked + lives[i] + Flattened(lives[i + 1..]);
      assert start in starts && forall earlier :: earlier in starts[..i] ==> earlier in starts;
    }
    assert lives[|lives|..] == [] && disk.asked + [] == disk.asked;
  }

  /** One life after the other. */
  function Flattened(lives: seq<seq<Request>>): (requests: seq<Request>) {
    if lives == [] then [] else lives[0] + Flattened(lives[1..])
  }

  /** No opening among them was blind. */
  ghost predicate Sighted(events: seq<Event>) {
    forall e :: e in events ==> !e.OpenedBlind?
  }

  /** A boot, a start, and what the panel and its administrator do until the next. */
  method OneLife(disk: Disk, requests: seq<Request>) returns (start: Start)
    requires Tracks(disk)
    modifies disk
    ensures Tracks(disk) && old(disk.log) <= disk.log && disk.boots == old(disk.boots) + 1
    ensures disk.faults >= old(disk.faults) && disk.blinks >= old(disk.blinks)
    ensures disk.blinks == old(disk.blinks) ==> Sighted(disk.log[|old(disk.log)|..])
    ensures disk.faults == old(disk.faults) && Commits(old(disk.v), disk.world) ==>
              start == Running(true) && Committed in disk.log[|old(disk.log)|..]
    ensures disk.faults == old(disk.faults) && start.Running? ==> disk.asked == old(disk.asked) + requests
  {
    hide Logical, WriteAhead, PendingMarker;
    ghost var log := disk.log;
    RunNext(disk.origin, log, Booted);
    disk.Reboot();
    start := OpenDatabase(disk);
    assert disk.log == log + disk.log[|log|..];
    if start.Running? {
      ghost var begun := disk.log;
      UpAndRunning(disk, requests);
      assert disk.log[|log|..] == begun[|log|..] + disk.log[|begun|..];
    }
  }

  /** The panel serving and its administrator staging restores, in any order, until it is cut off or ends. */
  method UpAndRunning(disk: Disk, requests: seq<Request>)
    requires Tracks(disk) && !disk.crashed && Serving(disk)
    modifies disk`v, disk`crashed, disk`faults, disk`steps, disk`log, disk`asked
    ensures Tracks(disk) && old(disk.log) <= disk.log && disk.faults >= old(disk.faults)
    ensures Sighted(disk.log[|old(disk.log)|..])
    ensures disk.faults == old(disk.faults) && old(disk.v).rollback.None? ==> disk.asked == old(disk.asked) + requests
  {
    hide Logical, WriteAhead, PendingMarker;
    var i := 0;
    while i < |requests| && !disk.crashed
      invariant i <= |requests| && (disk.crashed ==> disk.faults > old(disk.faults))
      invariant Tracks(disk) && old(disk.log) <= disk.log && disk.faults >= old(disk.faults)
      invariant disk.crashed || Serving(disk)
      invariant Sighted(disk.log[|old(disk.log)|..]) && disk.v.rollback == old(disk.v).rollback
      invariant disk.v.rollback.None? ==> disk.asked == old(disk.asked) + requests[..i]
    {
      match requests[i] {
        case Serves =>
          Serve(disk);
        case Uploads(database, key, needsKey) =>
          if disk.v.rollback.None? {
            Upload(disk, database, key, needsKey);
          }
      }
      i := i + 1;
      assert requests[..i] == requests[..i - 1] + [requests[i - 1]];
    }
    assert requests[..|requests|] == requests;
  }

  /** An upload, with nothing left over from an earlier restore. */
  method Upload(disk: Disk, database: File, key: Option<File>, needsKey: bool)
    requires Tracks(disk) && !disk.crashed && disk.v.rollback.None? && Now(disk).value.trial.None?
    modifies disk`v, disk`crashed, disk`faults, disk`steps, disk`log, disk`asked
    ensures Tracks(disk) && old(disk.log) <= disk.log && disk.faults >= old(disk.faults)
    ensures disk.v.rollback.None? && Now(disk).value.trial.None?
    ensures Sighted(disk.log[|old(disk.log)|..])
    ensures disk.asked == old(disk.asked) + [Uploads(database, key, needsKey)] && (disk.crashed ==> disk.faults > old(disk.faults))
  {
    hide Logical, WriteAhead, PendingMarker, Restrict, Touched, StagedComplete, Stageable, Run;
    ghost var log := disk.log;
    var error := StageImport(disk, database, key, needsKey);
    if error.None? {
      ImportedNext(disk.origin, log, MarkerFor(database, key));
    }
  }

  lemma ImportedNext(origin: Spec, log: seq<Event>, m: Marker)
    requires Run(origin, log).Some?
    ensures Run(origin, log + [Imported(m)]) == Some(Run(origin, log).value.(pending := Some(m)))
  {
    RunNext(origin, log, Imported(m));
  }

  lemma SameParts(a: Dir, b: Dir, names: set<Name>)
    requires a - names == b - names
    ensures a == b <==> Restrict(a, names) == Restrict(b, names)
  {
    assert forall n :: n in a && n !in names ==> n in a - names;
    assert forall n :: n in b && n !in names ==> n in b - names;
    if Restrict(a, names) == Restrict(b, names) {
      assert forall n :: n in a && n in names ==> n in Restrict(a, names);
      assert forall n :: n in b && n in names ==> n in Restrict(b, names);
      assert a == b;
    }
  }

  lemma RecoverInside(data: Dir, saved: Dir, names: set<Name>)
    ensures Restrict(Recover(data, saved, names), names) == Restrict(saved, names)
  {
  }

  lemma InstalledParts(d: Dir, m: Marker)
    ensures Installed(d, m) - Touched(m) == d - Touched(m) && Restrict(Installed(d, m), Touched(m)) == Installed(map[], m)
  {
  }

  /** What an opening of a restore under way would find is the owned set if and only if the replaced files
      are as saved, and the staged set if and only if they are exactly the staged ones. */
  lemma BlindOpeningFinds(v: Volume, m: Marker)
    requires UnderWay(v) && PendingMarker(v) == Some(m)
    ensures v.data == Logical(v) <==> Restrict(v.data, Touched(m)) == Restrict(v.rollback.value, Touched(m))
    ensures v.data == Installed(Logical(v), m) <==> Restrict(v.data, Touched(m)) == Installed(map[], m)
  {
    hide Restrict, Recover, Touched, Installed;
    var names, saved := Touched(m), v.rollback.value;
    RecoverOutside(v.data, saved, names);
    RecoverInside(v.data, saved, names);
    SameParts(v.data, Logical(v), names);
    InstalledParts(Logical(v), m);
    SameParts(v.data, Installed(Logical(v), m), names);
  }

  /** The start that installs the restore is cut off at its second removal, and the first look of the next
      start fails. */
  function Mishap(): (plan: nat -> Fate) {
    (n: nat) => if n == 17 then Stopped else if n == 18 then Failed else Done
  }

  lemma MishapSteps()
    ensures Works(Mishap(), 0, 5) && CutAfter(Mishap(), 5, 12) && Blinded(Mishap(), 18)
  {
  }

  /** An accepting SQLite that changes nothing. */
  function Lenient(): (world: World) {
    World((d: Dir) => true, (d: Dir) => true, (d: Dir) => d)
  }

  /** The upload. */
  method BlindUpload(live: File, staged: File) returns (disk: Disk)
    ensures fresh(disk) && disk.plan == Mishap() && disk.steps == 5 && Tracks(disk) && !disk.crashed
    ensures disk.origin.owned == map[Db := live] && disk.log == [Imported(MarkerFor(staged, None))]
    ensures disk.v.data == map[Db := live] && PendingMarker(disk.v) == Some(MarkerFor(staged, None)) && Restorable(disk.v, disk.world)
  {
    MishapSteps();
    disk := new Disk(Volume(map[Db := live], map[], None, None), Lenient(), Mishap());
    var error := StageImport(disk, staged, None, false);
  }

  /** The restart that is cut off. */
  method BlindCut(disk: Disk)
    requires disk.plan == Mishap() && disk.steps == 5 && Tracks(disk) && Restorable(disk.v, disk.world)
    requires PendingMarker(disk.v).Some? && PendingMarker(disk.v).value.key.None?
    modifies disk
    ensures Tracks(disk) && Torn(old(disk.v), disk.v) && disk.steps == 18 && disk.log == old(disk.log) + [Booted]
  {
    hide Logical, WriteAhead, PendingMarker, Works, Mishap;
    MishapSteps();
    RunNext(disk.origin, disk.log, Booted);
    disk.Reboot();
    var _ := OpenDatabase(disk);
  }

  /** The start whose first look fails. */
  method BlindStart(disk: Disk)
    requires disk.plan == Mishap() && disk.steps == 18 && Tracks(disk) && UnderWay(disk.v)
    modifies disk
    ensures Tracks(disk) && disk.log == old(disk.log) + [Booted, Blinked, OpenedBlind(old(disk.v).data, disk.v.data)]
  {
    hide Logical, WriteAhead, PendingMarker, Works, Mishap;
    MishapSteps();
    RunNext(disk.origin, disk.log, Booted);
    disk.Reboot();
    var _ := OpenDatabase(disk);
  }

  /** A run in which the panel opens neither the owned set nor the staged one: a backup is uploaded, the
      restart is cut off between removing the old database and moving in the new one, and at the next start
      one look fails. */
  method BlindRun(live: File, staged: File) returns (disk: Disk)
    ensures fresh(disk) && disk.plan == Mishap() && disk.origin.owned == map[Db := live] && |disk.log| == 5
    ensures Run(disk.origin, disk.log).Some? && disk.log[4].OpenedBlind?
    ensures var s := Run(disk.origin, disk.log[..4]);
            s.Some? && s.value.pending.Some? && disk.log[4].files != s.value.owned
            && disk.log[4].files != Installed(s.value.owned, s.value.pending.value)
  {
    disk := BlindUpload(live, staged);
    BlindCut(disk);
    BlindStart(disk);
    BlindHistory(disk.origin, disk.log, MarkerFor(staged, None));
  }

  lemma BlindHistory(origin: Spec, log: seq<Event>, m: Marker)
    requires |log| == 5 && log[..4] == [Imported(m), Booted, Booted, Blinked]
    ensures Run(origin, log[..4]) == Some(origin.(pending := Some(m), trial := None, blinked := true))
  {
    RunNext(origin, [], Imported(m));
    RunNext(origin, [Imported(m)], Booted);
    RunNext(origin, [Imported(m), Booted], Booted);
    RunNext(origin, [Imported(m), Booted, Booted], Blinked);
    assert [] + [Imported(m)] == [Imported(m)];
    assert [Imported(m)] + [Booted] == [Imported(m), Booted];
    assert [Imported(m), Booted] + [Booted] == [Imported(m), Booted, Booted];
    assert [Imported(m), Booted, Booted] + [Blinked] == log[..4];
  }
}
