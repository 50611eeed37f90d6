/** Artifact rows and directories on the server, and their eviction. */
module Artifacts {
  import opened CachePath
  import opened PathWalks

  datatype ArtifactRow = ArtifactRow(run: string, step: string, path: string, size: nat, created: int)

  type Rows = seq<ArtifactRow>

  predicate SameKey(a: ArtifactRow, b: ArtifactRow) {
    a.run == b.run && a.step == b.step && a.path == b.path
  }

  ghost predicate KeysUnique(rows: Rows) {
    forall i, j :: 0 <= i < j < |rows| ==> !SameKey(rows[i], rows[j])
  }

  predicate HasKey(rows: Rows, row: ArtifactRow) {
    exists i :: 0 <= i < |rows| && SameKey(rows[i], row)
  }

  /** `INSERT .. ON CONFLICT (run_id, step, path) DO UPDATE`. */
  function Upsert(rows: Rows, row: ArtifactRow): Rows {
    if HasKey(rows, row) then
      seq(|rows|, i requires 0 <= i < |rows| => if SameKey(rows[i], row) then row else rows[i])
    else rows + [row]
  }

  lemma UpsertKeepsKeys(rows: Rows, row: ArtifactRow)
    requires KeysUnique(rows)
    ensures KeysUnique(Upsert(rows, row)) && row in Upsert(rows, row)
    ensures forall r: ArtifactRow :: (r.run, r.step, r.path) != (row.run, row.step, row.path) ==>
      (r in Upsert(rows, row) <==> r in rows)
    ensures forall r: ArtifactRow :: (r.run, r.step, r.path) == (row.run, row.step, row.path) ==>
      (r in Upsert(rows, row) <==> r == row)
  {
    var t := Upsert(rows, row);
    if HasKey(rows, row) {
      var i :| 0 <= i < |rows| && SameKey(rows[i], row);
      assert t[i] == row;
      forall r | r in rows && !SameKey(r, row) ensures r in t {
        var k :| 0 <= k < |rows| && rows[k] == r;
        assert t[k] == r;
      }
    } else {
      assert t[|rows|] == row;
    }
  }

  predicate HasRun(rows: Rows, run: string) {
    exists i :: 0 <= i < |rows| && rows[i].run == run
  }

  lemma UpsertAddsRun(rows: Rows, row: ArtifactRow)
    ensures forall run :: HasRun(Upsert(rows, row), run) <==> HasRun(rows, run) || run == row.run
  {
    var t := Upsert(rows, row);
    forall run | HasRun(rows, run) ensures HasRun(t, run) {
      var i :| 0 <= i < |rows| && rows[i].run == run;
      assert t[i].run == run;
    }
    if HasKey(rows, row) {
      var i :| 0 <= i < |rows| && SameKey(rows[i], row);
      assert t[i].run == row.run;
    } else {
      assert t[|rows|].run == row.run;
    }
  }

  ghost predicate HasTime(rows: Rows, run: string, time: int) {
    exists i :: 0 <= i < |rows| && rows[i].run == run && rows[i].created == time
  }

  /** `last` is the latest artifact time of `run`. */
  ghost predicate IsLast(rows: Rows, run: string, last: int) {
    && HasTime(rows, run, last)
    && forall i :: 0 <= i < |rows| && rows[i].run == run ==> rows[i].created <= last
  }

  datatype Group = Group(run: string, last: int)

  /**
   An answer to `SELECT run_id, MAX(created_at) AS last .. GROUP BY run_id ORDER BY last DESC`: one group per
   run, latest first, ties in any order.
   */
  ghost predicate Grouped(rows: Rows, groups: seq<Group>) {
    && (forall i :: 0 <= i < |groups| ==> IsLast(rows, groups[i].run, groups[i].last))
    && (forall run :: HasRun(rows, run) ==> exists i :: 0 <= i < |groups| && groups[i].run == run)
    && (forall i, j :: 0 <= i < j < |groups| ==> groups[i].run != groups[j].run && groups[i].last >= groups[j].last)
  }

  const KEPT: nat := 10

  ghost predicate Stale(groups: seq<Group>, i: nat, cutoff: int) {
    i < |groups| && (i >= KEPT || groups[i].last < cutoff)
  }

  /** The runs to evict: beyond the ten most recent, or too old. */
  method EvictOldArtifactRuns(groups: seq<Group>, cutoff: int) returns (evict: seq<string>)
    ensures forall run :: run in evict <==> exists i: nat :: Stale(groups, i, cutoff) && groups[i].run == run
  {
    evict := [];
    for i := 0 to |groups|
      invariant forall run ::
        run in evict <==> exists k: nat :: k < i && Stale(groups, k, cutoff) && groups[k].run == run
    {
      if i >= KEPT || groups[i].last < cutoff {
        evict := evict + [groups[i].run];
        assert Stale(groups, i, cutoff);
      }
    }
  }

  /** `DELETE FROM artifacts WHERE run_id = ?`, for each run to evict. */
  function Without(rows: Rows, evict: set<string>): Rows {
    if rows == [] then []
    else
      var r := rows[|rows| - 1];
      Without(rows[..|rows| - 1], evict) + if r.run in evict then [] else [r]
  }

  lemma {:induction false} WithoutKeeps(rows: Rows, evict: set<string>)
    ensures forall r :: r in Without(rows, evict) <==> r in rows && r.run !in evict
  {
    if rows != [] {
      var n := |rows| - 1;
      WithoutKeeps(rows[..n], evict);
      assert rows == rows[..n] + [rows[n]];
    }
  }

  lemma {:induction false} WithoutTwice(rows: Rows, a: set<string>, b: set<string>)
    ensures Without(Without(rows, a), b) == Without(rows, a + b)
  {
    if rows != [] {
      var n := |rows| - 1;
      WithoutTwice(rows[..n], a, b);
      var rest := Without(rows[..n], a);
      assert (rest + [rows[n]])[..|rest|] == rest;
      assert rest + [] == rest;
    }
  }

  ghost function OrphansOf(rows: Rows, dirs: set<string>): set<string> {
    set d | d in dirs && !HasRun(rows, d)
  }

  /** A path that stays below where it is joined: not absolute and without `..`. */
  predicate SafeRelPath(path: string) {
    !("/" <= path) && ".." !in Split(path)
  }

  /** An upload is refused for its path exactly if the path is absolute or a walk along it meets a parent. */
  lemma SafeExactly(path: string)
    ensures SafeRelPath(path) <==> !IsAbsolute(path) && ".." !in Components(path)
  {
    ParentsAreWalked(Split(path));
  }

  /** The file of an accepted upload lies where the path says, below the directory of its run and step. */
  lemma {:induction false} SafeStays(dir: seq<string>, path: string)
    requires SafeRelPath(path)
    ensures StaysIn(dir, path) && Follow(dir, Components(path)) == dir + Components(path)
  {
    SafeExactly(path);
    NoParentsStays(dir, path);
  }

  /** Rows and the directories on disk. */
  class ArtifactStore {
    var rows: Rows
    var dirs: set<string>

    constructor ()
      ensures rows == [] && dirs == {} && Valid() && Housed()
    {
      rows, dirs := [], {};
    }

    ghost predicate Valid()
      reads this
    {
      KeysUnique(rows)
    }

    /** Every run with rows has its directory. */
    ghost predicate Housed()
      reads this
    {
      forall i :: 0 <= i < |rows| ==> rows[i].run in dirs
    }

    /** Directories no row speaks of. */
    ghost function Orphans(): set<string>
      reads this
    {
      OrphansOf(rows, dirs)
    }

    /**
     An upload: path check, the run's directory (`made`), all below it and the file (`written`), then the row
     (`recorded`). One that fails leaves an orphan exactly if the directory is there and the run has no rows.
     */
    method Upload(row: ArtifactRow, made: bool, written: bool, recorded: bool) returns (ok: bool)
      requires Valid()
      modifies this
      ensures Valid() && (old(Housed()) ==> Housed())
      ensures ok == (!IsAbsolute(row.path) && ".." !in Components(row.path) && made && written && recorded)
      ensures rows == if ok then Upsert(old(rows), row) else old(rows)
      ensures dirs ==
        if !IsAbsolute(row.path) && ".." !in Components(row.path) && made then old(dirs) + {row.run} else old(dirs)
      ensures ok ==> row in rows
      ensures row.run in Orphans() <==>
        !ok && !HasRun(old(rows), row.run) && row.run in dirs
      ensures Orphans() - {row.run} == old(Orphans()) - {row.run}
    {
      SafeExactly(row.path);
      hide SafeRelPath, Components;
      if !SafeRelPath(row.path) || !made {
        return false;
      }
      dirs := dirs + {row.run};
      if !(written && recorded) {
        return false;
      }
      UpsertKeepsKeys(rows, row);
      UpsertAddsRun(rows, row);
      UpsertKeepsHoused(rows, dirs, row);
      rows := Upsert(rows, row);
      return true;
    }

    /**
     Eviction after a terminal status. Where a deletion fails (`stuckDirs`, `stuckRows`) it goes on with the
     next: a directory that stays while its rows go is one orphan more, rows that stay while their directory
     goes are no longer housed.
     */
    method Evict(groups: seq<Group>, cutoff: int, stuckDirs: set<string>, stuckRows: set<string>)
        returns (ghost evict: set<string>)
      requires Valid() && Grouped(rows, groups)
      modifies this
      ensures Valid() && Evicted(groups, cutoff, evict)
      ensures rows == Without(old(rows), evict - stuckRows) && dirs == old(dirs) - (evict - stuckDirs)
      ensures Orphans() == old(Orphans()) + (evict * old(dirs) * stuckDirs - stuckRows)
      ensures old(Housed()) ==> (Housed() <==> evict * stuckRows <= stuckDirs)
    {
      hide Without, KeysUnique, Grouped, OrphansOf;
      var stale := EvictOldArtifactRuns(groups, cutoff);
      WithoutNone(rows);
      assert Elements(stale[..0]) - stuckRows == {};
      for i := 0 to |stale|
        invariant rows == Without(old(rows), Elements(stale[..i]) - stuckRows)
        invariant dirs == old(dirs) - (Elements(stale[..i]) - stuckDirs)
      {
        ElementsOfNext(stale, i);
        var run := stale[i];
        if run !in stuckDirs {
          dirs := dirs - {run};
        }
        if run !in stuckRows {
          WithoutTwice(old(rows), Elements(stale[..i]) - stuckRows, {run});
          rows := Without(rows, {run});
          assert Elements(stale[..i + 1]) - stuckRows == (Elements(stale[..i]) - stuckRows) + {run};
        } else {
          assert Elements(stale[..i + 1]) - stuckRows == Elements(stale[..i]) - stuckRows;
        }
      }
      evict := Elements(stale);
      assert stale[..|stale|] == stale;
      EvictionLeaves(old(rows), old(dirs), groups, cutoff, evict, stuckDirs, stuckRows);
    }
  }

  lemma UpsertKeepsHoused(rows: Rows, dirs: set<string>, row: ArtifactRow)
    requires row.run in dirs
    ensures (forall i :: 0 <= i < |rows| ==> rows[i].run in dirs) ==>
      forall i :: 0 <= i < |Upsert(rows, row)| ==> Upsert(rows, row)[i].run in dirs
  {
  }

  ghost predicate Evicted(groups: seq<Group>, cutoff: int, evict: set<string>) {
    forall run :: run in evict <==> exists i: nat :: Stale(groups, i, cutoff) && groups[i].run == run
  }

  ghost function Elements(s: seq<string>): set<string> {
    set x | x in s
  }

  lemma ElementsOfNext(s: seq<string>, i: nat)
    requires i < |s|
    ensures Elements(s[..i + 1]) == Elements(s[..i]) + {s[i]}
  {
  }

  lemma {:induction false} WithoutNone(rows: Rows)
    ensures Without(rows, {}) == rows
  {
    if rows != [] {
      WithoutNone(rows[..|rows| - 1]);
    }
  }

  lemma {:induction false} WithoutIsSub(rows: Rows, evict: set<string>)
    requires KeysUnique(rows)
    ensures KeysUnique(Without(rows, evict))
    ensures forall i :: 0 <= i < |Without(rows, evict)| ==>
      Without(rows, evict)[i] in rows && Without(rows, evict)[i].run !in evict
  {
    WithoutKeeps(rows, evict);
    if rows != [] {
      var n := |rows| - 1;
      WithoutIsSub(rows[..n], evict);
      WithoutKeeps(rows[..n], evict);
      var rest := Without(rows[..n], evict);
      forall i | 0 <= i < |rest| ensures !SameKey(rest[i], rows[n]) {
        assert rest[i] in rows[..n];
        var k :| 0 <= k < n && rows[k] == rest[i];
      }
    }
    assert forall i :: 0 <= i < |Without(rows, evict)| ==> Without(rows, evict)[i] in Without(rows, evict);
  }

  lemma {:induction false} WithoutKeepsRuns(rows: Rows, gone: set<string>)
    ensures forall run :: HasRun(Without(rows, gone), run) <==> HasRun(rows, run) && run !in gone
  {
    var t := Without(rows, gone);
    WithoutKeeps(rows, gone);
    forall run | HasRun(t, run) ensures HasRun(rows, run) && run !in gone {
      var i :| 0 <= i < |t| && t[i].run == run;
      assert t[i] in rows;
    }
    forall run | HasRun(rows, run) && run !in gone ensures HasRun(t, run) {
      var i :| 0 <= i < |rows| && rows[i].run == run;
      assert rows[i] in t;
    }
  }

  lemma EvictedHaveRows(rows: Rows, groups: seq<Group>, cutoff: int, evict: set<string>)
    requires Grouped(rows, groups) && Evicted(groups, cutoff, evict)
    ensures forall run :: run in evict ==> HasRun(rows, run)
  {
    forall run | run in evict ensures HasRun(rows, run) {
      var i: nat :| Stale(groups, i, cutoff) && groups[i].run == run;
      assert IsLast(rows, groups[i].run, groups[i].last);
    }
  }

  ghost predicate AllHoused(rows: Rows, dirs: set<string>) {
    forall run :: HasRun(rows, run) ==> run in dirs
  }

  lemma HousedRuns(rows: Rows, dirs: set<string>)
    ensures AllHoused(rows, dirs) <==> forall i :: 0 <= i < |rows| ==> rows[i].run in dirs
  {
    if AllHoused(rows, dirs) {
      forall i | 0 <= i < |rows| ensures rows[i].run in dirs {
        assert HasRun(rows, rows[i].run);
      }
    }
  }

  lemma {:induction false} EvictionLeaves(rows: Rows, dirs: set<string>, groups: seq<Group>, cutoff: int,
                                          evict: set<string>, stuckDirs: set<string>, stuckRows: set<string>)
    requires Grouped(rows, groups) && Evicted(groups, cutoff, evict) && KeysUnique(rows)
    ensures var t, kept := Without(rows, evict - stuckRows), dirs - (evict - stuckDirs);
      && KeysUnique(t)
      && OrphansOf(t, kept) == OrphansOf(rows, dirs) + (evict * dirs * stuckDirs - stuckRows)
      && ((forall i :: 0 <= i < |rows| ==> rows[i].run in dirs) ==>
            ((forall i :: 0 <= i < |t| ==> t[i].run in kept) <==> evict * stuckRows <= stuckDirs))
  {
    var t, kept := Without(rows, evict - stuckRows), dirs - (evict - stuckDirs);
    WithoutIsSub(rows, evict - stuckRows);
    WithoutKeepsRuns(rows, evict - stuckRows);
    EvictedHaveRows(rows, groups, cutoff, evict);
    HousedRuns(rows, dirs);
    HousedRuns(t, kept);
    hide HasRun, Without, Evicted, Grouped, KeysUnique;
    if AllHoused(rows, dirs) {
      assert AllHoused(t, kept) <==> evict * stuckRows <= stuckDirs by {
        if AllHoused(t, kept) {
          forall run | run in evict && run in stuckRows ensures run in stuckDirs {
            assert HasRun(t, run);
          }
        }
      }
    }
  }

  // ---- Orphans stay ----

  datatype Change =
    | Uploading(row: ArtifactRow, made: bool, ok: bool)
    | Evicting(groups: seq<Group>, cutoff: int, evict: set<string>, stuckDirs: set<string>, stuckRows: set<string>)

  datatype Shelf = Shelf(rows: Rows, dirs: set<string>)

  /** What one request leaves, as `Upload` and `Evict` do it. */
  function Changed(s: Shelf, c: Change): Shelf {
    match c
    case Uploading(row, made, ok) =>
      Shelf(if ok then Upsert(s.rows, row) else s.rows, if made then s.dirs + {row.run} else s.dirs)
    case Evicting(_, _, evict, stuckDirs, stuckRows) =>
      Shelf(Without(s.rows, evict - stuckRows), s.dirs - (evict - stuckDirs))
  }

  ghost predicate Changes(states: seq<Shelf>, changes: seq<Change>) {
    && |states| == |changes| + 1
    && forall i :: 0 <= i < |changes| ==>
         && states[i + 1] == Changed(states[i], changes[i])
         && (changes[i].Evicting? ==>
               && Grouped(states[i].rows, changes[i].groups)
               && Evicted(changes[i].groups, changes[i].cutoff, changes[i].evict))
  }

  /** A directory without rows is never evicted: only another upload of that run can give it rows again. */
  lemma {:induction false} OrphansStay(states: seq<Shelf>, changes: seq<Change>, run: string, n: nat)
    requires Changes(states, changes) && n < |states| && run in OrphansOf(states[0].rows, states[0].dirs)
    requires forall i :: 0 <= i < |changes| && changes[i].Uploading? && changes[i].ok ==> changes[i].row.run != run
    ensures run in OrphansOf(states[n].rows, states[n].dirs)
  {
    if n > 0 {
      OrphansStay(states, changes, run, n - 1);
      var s, c := states[n - 1], changes[n - 1];
      match c
      case Uploading(row, made, ok) => UpsertAddsRun(s.rows, row);
      case Evicting(groups, cutoff, evict, stuckDirs, stuckRows) =>
        WithoutKeepsRuns(s.rows, evict - stuckRows);
        EvictedHaveRows(s.rows, groups, cutoff, evict);
    }
  }

  // ---- What eviction achieves ----

  /** A run that keeps its rows was among the ten latest and not too old, and none newer was evicted by rank. */
  lemma {:induction false} SurvivorsAreRecent(rows: Rows, groups: seq<Group>, cutoff: int, evict: set<string>,
                                              r: ArtifactRow)
    requires Grouped(rows, groups) && Evicted(groups, cutoff, evict) && r in Without(rows, evict)
    ensures exists i: nat :: Recent(groups, i, cutoff) && groups[i].run == r.run
  {
    WithoutKeeps(rows, evict);
    var k :| 0 <= k < |rows| && rows[k] == r;
    assert HasRun(rows, r.run);
    var i: nat :| i < |groups| && groups[i].run == r.run;
    assert !Stale(groups, i, cutoff);
    assert Recent(groups, i, cutoff);
  }

  ghost predicate Recent(groups: seq<Group>, i: nat, cutoff: int) {
    && i < |groups| && i < KEPT && groups[i].last >= cutoff
    && forall j :: KEPT <= j < |groups| ==> groups[j].last <= groups[i].last
  }

  /** A run left over keeps all its rows, and with them its latest time. */
  lemma {:induction false} LastSurvives(rows: Rows, evict: set<string>, run: string, last: int)
    requires run !in evict
    ensures IsLast(Without(rows, evict), run, last) <==> IsLast(rows, run, last)
  {
    WithoutKeeps(rows, evict);
    var t := Without(rows, evict);
    RunHasTime(rows, t, run, last);
    RunHasTime(t, rows, run, last);
    if IsLast(t, run, last) {
      forall i | 0 <= i < |rows| && rows[i].run == run ensures rows[i].created <= last {
        assert rows[i] in t;
      }
    }
    if IsLast(rows, run, last) {
      forall i | 0 <= i < |t| && t[i].run == run ensures t[i].created <= last {
        assert t[i] in rows;
      }
    }
  }

  lemma RunHasTime(a: Rows, b: Rows, run: string, c: int)
    requires forall r :: r in a && r.run == run ==> r in b
    ensures HasTime(a, run, c) ==> HasTime(b, run, c)
  {
  }

  /** The groups after eviction are groups that were kept before. */
  lemma GroupWasKept(rows: Rows, groups: seq<Group>, cutoff: int, evict: set<string>, later: seq<Group>, i: nat)
      returns (k: nat)
    requires Grouped(rows, groups) && Evicted(groups, cutoff, evict) && Grouped(Without(rows, evict), later)
    requires i < |later|
    ensures k < |groups| && k < KEPT && groups[k] == later[i] && groups[k].last >= cutoff
  {
    var run := later[i].run;
    var t := Without(rows, evict);
    WithoutKeeps(rows, evict);
    assert IsLast(t, run, later[i].last);
    var m :| 0 <= m < |t| && t[m].run == run && t[m].created == later[i].last;
    assert t[m] in t;
    var q :| 0 <= q < |rows| && rows[q] == t[m];
    assert HasRun(rows, run);
    k :| k < |groups| && groups[k].run == run;
    assert !Stale(groups, k, cutoff);
    LastSurvives(rows, evict, run, later[i].last);
    assert IsLast(rows, run, groups[k].last);
  }

  /** Evicting again at the same clock removes nothing, however the database breaks ties. */
  lemma {:induction false} EvictionIsStable(rows: Rows, groups: seq<Group>, cutoff: int, evict: set<string>,
                                            later: seq<Group>)
    requires Grouped(rows, groups) && Evicted(groups, cutoff, evict) && Grouped(Without(rows, evict), later)
    ensures |later| <= 10
    ensures forall i: nat :: !Stale(later, i, cutoff)
  {
    // The later runs all had one of the first ten places, no two the same.
    var places := PlacesOf(rows, groups, cutoff, evict, later, |later|);
    PlacesFit(places, KEPT);
    forall i: nat ensures !Stale(later, i, cutoff) {
      if i < |later| {
        var k := GroupWasKept(rows, groups, cutoff, evict, later, i);
      }
    }
  }

  lemma LastIsNew(rows: Rows, groups: seq<Group>, n: nat)
    requires Grouped(rows, groups) && 0 < n <= |groups|
    ensures groups[n - 1] !in groups[..n - 1]
  {
    hide IsLast, HasRun;
  }

  /** The places the first `n` later groups had before: all different, all below ten. */
  lemma {:induction false} PlacesOf(rows: Rows, groups: seq<Group>, cutoff: int, evict: set<string>,
                                    later: seq<Group>, n: nat) returns (places: set<nat>)
    requires Grouped(rows, groups) && Evicted(groups, cutoff, evict) && Grouped(Without(rows, evict), later)
    requires n <= |later|
    ensures |places| == n && forall k :: k in places ==> k < KEPT
    ensures forall k :: k in places ==> k < |groups| && groups[k] in later[..n]
  {
    hide Evicted, Without, HasRun, IsLast, Grouped;
    if n == 0 {
      places := {};
    } else {
      var before := PlacesOf(rows, groups, cutoff, evict, later, n - 1);
      var k := GroupWasKept(rows, groups, cutoff, evict, later, n - 1);
      assert later[..n] == later[..n - 1] + [later[n - 1]];
      LastIsNew(Without(rows, evict), later, n);
      places := before + {k};
    }
  }

  lemma {:induction false} PlacesFit(places: set<nat>, n: nat)
    requires forall k :: k in places ==> k < n
    ensures |places| <= n
  {
    if n == 0 {
      assert places == {};
    } else {
      var rest := places - {n - 1};
      PlacesFit(rest, n - 1);
      assert places <= rest + {n - 1};
    }
  }
}
