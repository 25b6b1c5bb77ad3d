/**
 The files the restore protocol works on, as values, and the one abstraction the whole
 protocol is judged by: `Logical`, the data set the panel owns at this instant.

 A volume holds the data directory and `restore/`, with its two sub-directories
 `rollback.tmp` and `rollback`.
 */
module RestoreVolume {
  import opened Wrappers

  datatype Name = Db | Wal | Shm | Key | Pending | PendingTmp

  /** SHA-256 is an ideal digest: equal digests mean equal contents. */
  datatype Digest = Sha256(preimage: File)

  datatype Marker = Marker(database: Digest, key: Option<Digest>)

  /** `Json` is a well-formed pending.json; every other content is a `Blob`. */
  datatype File = Blob(bytes: seq<int>) | Json(marker: Marker)

  type Dir = map<Name, File>

  datatype Place = Data | Restore | RollbackTmp | Rollback

  datatype Volume = Volume(data: Dir, restore: Dir, rollbackTmp: Option<Dir>, rollback: Option<Dir>)

  const SQLITE_FILES: seq<Name> := [Db, Wal, Shm]

  function Names(names: seq<Name>): (s: set<Name>) {
    set n | n in names
  }

  function SqliteNames(): (s: set<Name>) {
    {Db, Wal, Shm}
  }

  /** The data files a restore described by `m` replaces. */
  function Touched(m: Marker): (s: set<Name>) {
    if m.key.Some? then SqliteNames() + {Key} else SqliteNames()
  }

  function Restrict(d: Dir, names: set<Name>): (r: Dir) {
    map n | n in d && n in names :: d[n]
  }

  function PendingMarker(v: Volume): (m: Option<Marker>) {
    if Pending in v.restore && v.restore[Pending].Json? then Some(v.restore[Pending].marker) else None
  }

  /** What a rollback from `saved` turns the data directory into. */
  function Recover(data: Dir, saved: Dir, names: set<Name>): (r: Dir) {
    (data - names) + Restrict(saved, names)
  }

  /** What installing the staged files of `m` over `data` gives: no stale WAL, no stale shared memory. */
  function Installed(data: Dir, m: Marker): (r: Dir) {
    (data - Touched(m)) + map[Db := m.database.preimage]
    + (if m.key.Some? then map[Key := m.key.value.preimage] else map[])
  }

  /** A restore is under way exactly when the marker and the saved copy are both there. */
  predicate UnderWay(v: Volume) {
    PendingMarker(v).Some? && v.rollback.Some?
  }

  /** The data set the panel owns: the saved one while a restore is under way, the live one otherwise. */
  function Logical(v: Volume): (d: Dir) {
    if UnderWay(v) then Recover(v.data, v.rollback.value, Touched(PendingMarker(v).value)) else v.data
  }

  function Sqlite(d: Dir): (part: Dir) {
    Restrict(d, SqliteNames())
  }

  /** What SQLite makes of its three files: whether they pass `ValidateDatabase`, whether `database.Open`
      and its migrations get through, and what they leave. */
  datatype World = World(valid: Dir -> bool, opens: Dir -> bool, migrated: Dir -> Dir) {
    /** The directory after `database.Open`. */
    function Opened(d: Dir): (r: Dir) {
      (d - SqliteNames()) + Sqlite(migrated(Sqlite(d)))
    }

    predicate Opens(d: Dir) {
      opens(Sqlite(d))
    }

    predicate Valid(d: Dir) {
      valid(Sqlite(d))
    }

    /** The staged set opens, and what that leaves is valid. */
    predicate Accepts(d: Dir) {
      Opens(d) && Valid(Opened(d))
    }
  }

  predicate KeyFile(f: File) {
    f.Blob? && |f.bytes| == 32
  }

  predicate StagedComplete(v: Volume, m: Marker) {
    && Db in v.restore && Sha256(v.restore[Db]) == m.database
    && (m.key.Some? ==> Key in v.restore && Sha256(v.restore[Key]) == m.key.value && KeyFile(v.restore[Key]))
  }

  /** The write-ahead invariant: a published marker either has its staged files complete or the old
      set saved, and nothing is saved under a marker nobody can read. */
  predicate WriteAhead(v: Volume) {
    Pending in v.restore ==>
      if v.restore[Pending].Json? then v.rollback.None? ==> StagedComplete(v, v.restore[Pending].marker)
      else v.rollback.None?
  }

  /** `v'` differs from `v` only in files that cannot matter while the restore of `m` is under way. */
  predicate Shielded(v: Volume, v': Volume, m: Marker) {
    && PendingMarker(v) == Some(m) == PendingMarker(v')
    && v.rollback.Some? && v'.rollback == v.rollback
    && v'.data - Touched(m) == v.data - Touched(m)
  }

  /** While a restore is under way nothing done to the replaced files can be seen. */
  lemma ShieldedKeepsLogical(v: Volume, v': Volume, m: Marker)
    requires Shielded(v, v', m) && WriteAhead(v)
    ensures Logical(v') == Logical(v) && WriteAhead(v')
  {
  }

  /** Publishing the saved copy starts the restore without changing the logical set if and only if
      the copy agrees with the data directory on every file the restore replaces. */
  lemma PublishRollbackKeepsLogical(v: Volume, m: Marker, saved: Dir)
    requires PendingMarker(v) == Some(m) && v.rollback.None?
    ensures Logical(v.(rollback := Some(saved), rollbackTmp := None)) == Logical(v)
       <==> Restrict(saved, Touched(m)) == Restrict(v.data, Touched(m))
  {
  }

  /** Publishing pending.json keeps the logical set if and only if no leftover `rollback` directory
      would be taken for an interrupted restore, or that leftover equals the live files anyway. */
  lemma PublishMarkerKeepsLogical(v: Volume, m: Marker)
    requires Pending !in v.restore
    ensures Logical(v.(restore := v.restore[Pending := Json(m)])) == Logical(v)
       <==> (v.rollback.None? || Restrict(v.rollback.value, Touched(m)) == Restrict(v.data, Touched(m)))
  {
  }

  /** The single step that changes the logical set: removing the marker switches from the saved set to
      what the data directory holds, which for an opened restore is the opened staged set. */
  lemma RemoveMarkerCommits(v: Volume, m: Marker, world: World, replaced: Dir)
    requires PendingMarker(v) == Some(m) && v.rollback.Some?
    requires v.data == world.Opened(Installed(replaced, m)) && replaced - Touched(m) == v.data - Touched(m)
    ensures Logical(v.(restore := v.restore - {Pending})) == world.Opened(Installed(Logical(v), m))
  {
    InstalledIgnoresTouched(replaced, Logical(v), m);
  }

  /** Installing over the old set or over a half-replaced one gives the same result. */
  lemma InstalledIgnoresTouched(a: Dir, b: Dir, m: Marker)
    requires a - Touched(m) == b - Touched(m)
    ensures Installed(a, m) == Installed(b, m)
  {
  }

  /** Without the "no leftover" guard the protocol hands the panel a foreign data set: a leftover
      copy of another database replaces the live one as soon as a marker is published. */
  lemma LeftoverRollbackResurrects()
    ensures exists v: Volume, m: Marker ::
      && WriteAhead(v) && Pending !in v.restore && StagedComplete(v, m) && v.rollback.Some?
      && Logical(v.(restore := v.restore[Pending := Json(m)])) != Logical(v)
      && Logical(v.(restore := v.restore[Pending := Json(m)])) != Installed(Logical(v), m)
  {
    var live, stale, staged := Blob([1]), Blob([2]), Blob([3]);
    var m := Marker(Sha256(staged), None);
    var v := Volume(map[Db := live], map[Db := staged], None, Some(map[Db := stale]));
    var v' := v.(restore := v.restore[Pending := Json(m)]);
    assert Logical(v')[Db] == stale;
    assert Installed(Logical(v), m)[Db] == staged;
    assert WriteAhead(v) && Pending !in v.restore && StagedComplete(v, m) && v.rollback.Some?;
  }
}
