/**
 One cache, commands obeyed: exactly what a commit leaves, when it completes, and what is left if the
 agent dies at any point of it. `u` is the part of the store that belongs to the cache.
 */
module CacheCommit {
  import opened Outcomes
  import opened Zfs
  import opened CacheNames
  import opened CachePath
  import opened CacheProtocol
  import opened CacheShape

  ghost predicate HasLatest(u: Store, base: string) {
    base in u && u[base].snaps != []
  }

  /** Nothing depends on `base@latest`, or there is none. */
  ghost predicate Ready(u: Store, base: string) {
    HasLatest(u, base) ==> forall d :: d in u ==> u[d].origin != Some(Latest(base))
  }

  /** Dataset `x`, left by some crash, still depends on `base@latest`, which holds `files`. */
  ghost predicate Leftover(t: Store, base: string, x: string, files: Files) {
    && Shape(t) && HasLatest(t, base) && t[base].snaps[0].files == files
    && x in t && x != base && t[x].origin == Some(Latest(base))
  }

  /** The run's clone is all that depends on `base@latest`. */
  ghost predicate SoleDependent(u: Store, c: CacheClone) {
    forall d :: d in u && u[d].origin == Some(Latest(c.base)) ==> d == c.clone
  }

  /** A base as a completed commit leaves it: `files`, live and as `@latest`, and no origin. */
  function Committed(files: Files): Dataset {
    Dataset(files, [Snap("latest", files)], None, Inherited)
  }

  /** A dataset of its own, its files alone in `@latest`. */
  function Sealed(d: Dataset): Dataset {
    d.(snaps := [Snap("latest", d.files)], origin := None)
  }

  // ---- The steps of a restored commit ----

  /** After `promote`. */
  function Promotion(u: Store, c: CacheClone): Store
    requires c.base in u
  {
    map d | d in u :: Swapped(u, c.base, c.clone, d)
  }

  /** After both renames: the clone is the base and owns the old `@latest`, the old base hangs off it. */
  function Exchange(u: Store, c: CacheClone, aside: string): Store
    requires c.base in u && c.clone in u
  {
    (u - {c.clone})
    [c.base := u[c.clone].(snaps := u[c.base].snaps, origin := None)]
    [aside := u[c.base].(snaps := [], origin := Some(Latest(c.base)))]
  }

  /** After the old base is destroyed: new files, old `@latest`. */
  function Dropped(u: Store, c: CacheClone): Store
    requires c.base in u && c.clone in u
  {
    (u - {c.clone})[c.base := u[c.clone].(snaps := u[c.base].snaps, origin := None)]
  }

  ghost predicate Restorable(u: Store, c: CacheClone, runId: string) {
    && Shape(u) && InPlace(u, c) && c.restored && DistinctNames3(c, runId)
    && SetAside(c.base, runId) !in u
  }

  lemma PromoteStep(u: Store, c: CacheClone, runId: string)
    requires Restorable(u, c, runId)
    ensures HasLatest(u, c.base)
    ensures Apply(u, Promote(c.clone)) == Some(Promotion(u, c))
  {
    PromoteSucceeds(u, c);
    PromoteInFamily(u, c.clone);
  }

  lemma FirstRename(u: Store, c: CacheClone, runId: string)
    requires Restorable(u, c, runId) && HasLatest(u, c.base)
    ensures var aside := SetAside(c.base, runId);
      Apply(Promotion(u, c), Rename(c.base, aside))
        == Some((Promotion(u, c) - {c.base})[aside := Promotion(u, c)[c.base]])
  {
    var aside := SetAside(c.base, runId);
    var p := Promotion(u, c);
    var t := Renamed(p, c.base, aside).value;
    forall d | d in t ensures t[d] == p[if d == aside then c.base else d] {
      var was := if d == aside then c.base else d;
      assert t[d] == FollowRename(p[was], c.base, aside);
      assert p[was] == Swapped(u, c.base, c.clone, was);
    }
    assert t == (p - {c.base})[aside := p[c.base]];
  }

  lemma SecondRename(u: Store, c: CacheClone, runId: string)
    requires Restorable(u, c, runId) && HasLatest(u, c.base)
    ensures var aside := SetAside(c.base, runId);
      Apply((Promotion(u, c) - {c.base})[aside := Promotion(u, c)[c.base]], Rename(c.clone, c.base))
        == Some(Exchange(u, c, aside))
  {
    var aside := SetAside(c.base, runId);
    var p := (Promotion(u, c) - {c.base})[aside := Promotion(u, c)[c.base]];
    assert c.clone in p && c.base !in p;
    var t := Renamed(p, c.clone, c.base).value;
    var e := Exchange(u, c, aside);
    forall d | d in t ensures t[d] == e[d] {
      if d != c.base && d != aside {
        assert p[d] == Swapped(u, c.base, c.clone, d);
      }
    }
    assert t == e;
  }

  lemma DropStep(u: Store, c: CacheClone, runId: string)
    requires Restorable(u, c, runId) && HasLatest(u, c.base)
    ensures var aside := SetAside(c.base, runId);
      Apply(Exchange(u, c, aside), DestroyAll(aside)) == Some(Dropped(u, c))
  {
    var aside := SetAside(c.base, runId);
    assert !HeldFromOutside(Exchange(u, c, aside), aside);
    assert Exchange(u, c, aside) - {aside} == Dropped(u, c);
  }

  /** The crux: the old `@latest` can be destroyed exactly when nothing else was cloned from it. */
  lemma DestroyLatestStep(u: Store, c: CacheClone, runId: string)
    requires Restorable(u, c, runId) && HasLatest(u, c.base)
    ensures Apply(Dropped(u, c), DestroySnap(Latest(c.base))) ==
      if SoleDependent(u, c) then Some(Dropped(u, c)[c.base := u[c.clone].(snaps := [], origin := None)]) else None
  {
    var t := Dropped(u, c);
    SoleSnapIndex(u, c.base, "latest");
    assert HasSnap(t, Latest(c.base));
    if SoleDependent(u, c) {
      assert !HasDependents(t, Latest(c.base));
      var s := t[c.base].snaps;
      assert s[..0] + s[1..] == [];
    } else {
      var d :| d in u && u[d].origin == Some(Latest(c.base)) && d != c.clone;
      assert d != c.base;
      assert t[d] == u[d];
    }
  }

  // ---- Commits that run to their end ----

  /** A workspace cache is a plain one once its mountpoint is inherited again. */
  lemma CommitInherits(w: World, runId: string, c: CacheClone)
    requires c.inWorkspace
    ensures var r := Issue(w, Inherit(c.clone));
      Commit(w, runId, c) == if r.ok then Commit(r.world, runId, c.(inWorkspace := false)) else r
  {
    var c' := c.(inWorkspace := false);
    var r := Issue(w, Inherit(c.clone));
    HeadRuns(w, c);
    HeadRuns(r.world, c');
    assert forall b :: CommitTail(c, runId, b) == CommitTail(c', runId, b);
  }

  function Calm(s: Store): World { World(s, [], true) }

  /** What a commit of a restored cache leaves, and when it completes. */
  function RestoredEnd(u: Store, c: CacheClone): Store
    requires c.base in u && c.clone in u
  {
    var d := u[c.clone].(mount := if c.inWorkspace then Inherited else u[c.clone].mount, origin := None);
    (u - {c.clone})[c.base := d.(snaps := u[c.base].snaps)]
  }

  lemma RestoredCommitPlain(u: Store, runId: string, c: CacheClone)
    requires Restorable(u, c, runId) && HasLatest(u, c.base) && !c.inWorkspace
    ensures Commit(Calm(u), runId, c) ==
      if SoleDependent(u, c)
      then Reply(Calm(Dropped(u, c)[c.base := Sealed(u[c.clone])]), true)
      else Reply(Calm(Dropped(u, c)), false)
  {
    var aside := SetAside(c.base, runId);
    var p := Promotion(u, c);
    PromoteStep(u, c, runId);
    HeadRuns(Calm(u), c);
    assert RunAll(Calm(u), CommitHead(c)) == Reply(Calm(p), true);
    assert Issue(Calm(p), ListDataset(c.base)) == Reply(Calm(p), true);
    TailRuns(Calm(p), c, runId, true);
    RestoredTail(u, runId, c);
  }

  lemma RestoredTail(u: Store, runId: string, c: CacheClone)
    requires Restorable(u, c, runId) && HasLatest(u, c.base)
    ensures var aside := SetAside(c.base, runId);
      var r := Then(ThenIf(Then(ThenIf(Reply(Calm(Promotion(u, c)), true), true, Rename(c.base, aside)),
                                Rename(c.clone, c.base)),
                           true, DestroyAll(aside)), DestroySnap(Latest(c.base)));
      Then(r, Snapshot(Latest(c.base))) ==
        if SoleDependent(u, c)
        then Reply(Calm(Dropped(u, c)[c.base := Sealed(u[c.clone])]), true)
        else Reply(Calm(Dropped(u, c)), false)
  {
    FirstRename(u, c, runId);
    SecondRename(u, c, runId);
    DropStep(u, c, runId);
    DestroyLatestStep(u, c, runId);
    if SoleDependent(u, c) {
      SnapshotStep(Dropped(u, c), c.base, u[c.clone].(snaps := [], origin := None));
    }
  }

  lemma SnapshotStep(s: Store, base: string, d: Dataset)
    requires d.snaps == []
    ensures Apply(s[base := d], Snapshot(Latest(base))) == Some(s[base := d.(snaps := [Snap("latest", d.files)])])
  {
    var t := s[base := d];
    assert !HasSnap(t, Latest(base));
    assert d.snaps + [Snap("latest", d.files)] == [Snap("latest", d.files)];
    assert t[base := d.(snaps := [Snap("latest", d.files)])] == s[base := d.(snaps := [Snap("latest", d.files)])];
  }

  /**
   Exactness. With no outside failure, committing a restored cache completes exactly when this run's
   clone is the only dependent of `base@latest`. If it is not, the commit stops at destroying the previous
   `@latest`: the base has the run's files, `@latest` its old ones. Other datasets are untouched.
   */
  lemma RestoredCommitExact(u: Store, runId: string, c: CacheClone)
    requires Restorable(u, c, runId)
    ensures HasLatest(u, c.base)
    ensures var r := Commit(Calm(u), runId, c);
      && (r.ok <==> SoleDependent(u, c))
      && r.world == Calm(if r.ok
                         then RestoredEnd(u, c)[c.base := Sealed(RestoredEnd(u, c)[c.base])]
                         else RestoredEnd(u, c))
  {
    PromoteStep(u, c, runId);
    if c.inWorkspace {
      CommitInherits(Calm(u), runId, c);
      InheritedIsRestorable(u, runId, c);
      RestoredCommitPlain(Remounted(u, c), runId, c.(inWorkspace := false));
    } else {
      RestoredCommitPlain(u, runId, c);
      assert Dropped(u, c) == RestoredEnd(u, c);
    }
  }

  function Remounted(u: Store, c: CacheClone): Store
    requires c.clone in u
  {
    u[c.clone := u[c.clone].(mount := Inherited)]
  }

  lemma InheritedIsRestorable(u: Store, runId: string, c: CacheClone)
    requires Restorable(u, c, runId) && HasLatest(u, c.base) && c.inWorkspace
    ensures var v, c' := Remounted(u, c), c.(inWorkspace := false);
      && Restorable(v, c', runId) && HasLatest(v, c'.base)
      && (SoleDependent(v, c') <==> SoleDependent(u, c))
      && Dropped(v, c') == RestoredEnd(u, c)
  {
    var v, c' := Remounted(u, c), c.(inWorkspace := false);
    assert forall d :: d in u ==> v[d].origin == u[d].origin && v[d].snaps == u[d].snaps;
    assert v - {c.clone} == u - {c.clone};
  }

  // ---- Commits of a cache that started empty ----

  ghost predicate Startable(u: Store, c: CacheClone, runId: string) {
    && Shape(u) && InPlace(u, c) && !c.restored && DistinctNames3(c, runId)
    && SetAside(c.base, runId) !in u && !HasLatest(u, c.base)
  }

  /** No dataset depends on `d`: a rename only moves it. */
  lemma RenameAlone(u: Store, d: string, to: string)
    requires d in u && to !in u && forall x :: x in u && u[x].origin.Some? ==> u[x].origin.value.ds != d
    ensures Apply(u, Rename(d, to)) == Some((u - {d})[to := u[d]])
  {
    var t := Renamed(u, d, to).value;
    assert t == (u - {d})[to := u[d]];
  }

  lemma EmptyCommitPlain(u: Store, runId: string, c: CacheClone)
    requires Startable(u, c, runId) && !c.inWorkspace
    ensures Commit(Calm(u), runId, c) ==
      Reply(Calm((u - {c.clone})[c.base := u[c.clone].(snaps := [Snap("latest", u[c.clone].files)])]), true)
  {
    var aside := SetAside(c.base, runId);
    HeadRuns(Calm(u), c);
    TailRuns(Calm(u), c, runId, c.base in u);
    if c.base in u {
      ReplaceBase(u, runId, c);
    } else {
      RenameAlone(u, c.clone, c.base);
    }
    SnapshotStep(u - {c.clone}, c.base, u[c.clone]);
  }

  /** A base that never got its `@latest` makes way. */
  lemma ReplaceBase(u: Store, runId: string, c: CacheClone)
    requires Startable(u, c, runId) && c.base in u
    ensures var aside := SetAside(c.base, runId);
      Then(Then(Issue(Calm(u), Rename(c.base, aside)), Rename(c.clone, c.base)), DestroyAll(aside))
        == Reply(Calm((u - {c.clone})[c.base := u[c.clone]]), true)
  {
    var aside := SetAside(c.base, runId);
    RenameAlone(u, c.base, aside);
    var v := (u - {c.base})[aside := u[c.base]];
    RenameAlone(v, c.clone, c.base);
    var x := (v - {c.clone})[c.base := u[c.clone]];
    assert !HeldFromOutside(x, aside);
    assert x - {aside} == (u - {c.clone})[c.base := u[c.clone]];
  }

  lemma EmptyCommit(u: Store, runId: string, c: CacheClone)
    requires Startable(u, c, runId)
    ensures var d := u[c.clone].(mount := if c.inWorkspace then Inherited else u[c.clone].mount);
      Commit(Calm(u), runId, c) ==
      Reply(Calm((u - {c.clone})[c.base := d.(snaps := [Snap("latest", d.files)])]), true)
  {
    if c.inWorkspace {
      CommitInherits(Calm(u), runId, c);
      var v := u[c.clone := u[c.clone].(mount := Inherited)];
      var c' := c.(inWorkspace := false);
      assert Startable(v, c', runId);
      EmptyCommitPlain(v, runId, c');
      assert v - {c.clone} == u - {c.clone};
    } else {
      EmptyCommitPlain(u, runId, c);
    }
  }

  // ---- A run of one cache from start to end ----

  /** Attach, let the steps work, commit or discard. */
  function LoneRun(t: Store, u: Setup, c: Cache, work: (string, Files) -> Files, success: bool): Reply {
    var a := AttachOne(Calm(t), u, c);
    if !a.ok || a.caches == [] then Reply(a.world, false) else
    var w := Calm(Worked(a.world.store, {a.caches[0].clone}, work));
    if success then Commit(w, u.runId, a.caches[0]) else Issue(w, DestroyAll(a.caches[0].clone))
  }

  /** The run's names are new to the pool. */
  ghost predicate FreshFor(t: Store, u: Setup, c: Cache) {
    && DistinctNames3(CloneFor(u, c, true), u.runId)
    && RunClone(u.Root(), c.name, u.runId) !in t
    && SetAside(Base(u.Root(), c.name), u.runId) !in t
  }

  /** What a run finds in the cache. */
  ghost function Handed(t: Store, base: string): Files {
    if HasLatest(t, base) then t[base].snaps[0].files else map[]
  }

  lemma LoneAttach(t: Store, u: Setup, c: Cache)
    requires Shape(t) && FreshFor(t, u, c)
    ensures var base := Base(u.Root(), c.name);
      var clone := CloneFor(u, c, HasLatest(t, base));
      var origin := if HasLatest(t, base) then Some(Latest(base)) else None;
      AttachOne(Calm(t), u, c) ==
        Attached(Calm(t[clone.clone := Dataset(Handed(t, base), [], origin, MountOption(u, c))]), [clone], true)
  {
    var base := Base(u.Root(), c.name);
    if HasLatest(t, base) {
      SoleSnapIndex(t, base, "latest");
    }
    assert HasSnap(t, Latest(base)) <==> HasLatest(t, base);
    var made := Issue(Calm(t), Provision(u, c, HasLatest(t, base)));
    assert made.ok;
    SettleCalm(made.world.store, CloneFor(u, c, HasLatest(t, base)));
  }

  lemma SettleCalm(s: Store, c: CacheClone)
    requires c.clone in s
    ensures RunAll(Calm(s), Settle(c)) == Reply(Calm(s), true)
  {
    SettleRuns(Calm(s), c);
  }

  /**
   A run with nothing going wrong. It is handed the files of `@latest`, or none. If it fails, the pool is
   as before. If it succeeds, the base holds the run's files; `@latest` follows and the commit completes
   exactly when nothing was left over that still depends on the old one. No other dataset changes.
   */
  lemma LoneRunExact(t: Store, u: Setup, c: Cache, work: (string, Files) -> Files, success: bool)
    requires Shape(t) && FreshFor(t, u, c)
    ensures var base := Base(u.Root(), c.name);
      var files := work(RunClone(u.Root(), c.name, u.runId), Handed(t, base));
      LoneRun(t, u, c, work, success) ==
        if !success then Reply(Calm(t), true)
        else if Ready(t, base) then Reply(Calm(t[base := Committed(files)]), true)
        else Reply(Calm(t[base := Dataset(files, t[base].snaps, None, Inherited)]), false)
  {
    var base := Base(u.Root(), c.name);
    var restored := HasLatest(t, base);
    var clone := CloneFor(u, c, restored);
    var files := work(clone.clone, Handed(t, base));
    var origin := if restored then Some(Latest(base)) else None;
    var d := Dataset(files, [], origin, MountOption(u, c));
    var v := t[clone.clone := d];
    LoneAttach(t, u, c);
    var attached := t[clone.clone := Dataset(Handed(t, base), [], origin, MountOption(u, c))];
    assert Worked(attached, {clone.clone}, work) == v;
    if success {
      LoneCommit(t, v, u, clone, d);
    } else {
      LoneDiscard(t, clone, d);
    }
  }

  lemma LoneDiscard(t: Store, c: CacheClone, d: Dataset)
    requires Shape(t) && c.clone !in t && (d.origin.Some? ==> d.origin.value.ds in t)
    ensures Issue(Calm(t[c.clone := d]), DestroyAll(c.clone)) == Reply(Calm(t), true)
  {
  }

  lemma LoneCommit(t: Store, v: Store, u: Setup, c: CacheClone, d: Dataset)
    requires Shape(t) && DistinctNames3(c, u.runId) && c.clone !in t && SetAside(c.base, u.runId) !in t
    requires c.restored == HasLatest(t, c.base)
    requires v == t[c.clone := d] && d.snaps == [] && d.origin == (if c.restored then Some(Latest(c.base)) else None)
    requires d.mount == Inherited || c.inWorkspace
    ensures Commit(Calm(v), u.runId, c) ==
      if Ready(t, c.base) then Reply(Calm(t[c.base := Committed(d.files)]), true)
      else Reply(Calm(t[c.base := Dataset(d.files, t[c.base].snaps, None, Inherited)]), false)
  {
    assert v - {c.clone} == t;
    assert Shape(v);
    if c.restored {
      assert Restorable(v, c, u.runId);
      RestoredCommitExact(v, u.runId, c);
      assert SoleDependent(v, c) <==> Ready(t, c.base);
    } else {
      assert Startable(v, c, u.runId);
      EmptyCommit(v, u.runId, c);
    }
  }
}
