/**
 All or nothing: whichever commands are refused and wherever the agent dies, a cache comes out of a commit with
 its old `@latest`, with the new one, or with none.
 */
module CacheLatest {
  import opened Zfs
  import opened Families
  import opened CacheNames
  import opened CachePath
  import opened CacheProtocol
  import opened CacheFrames
  import opened CacheShape
  import opened CacheHistory

  function SnapsOf(u: Store, d: string): seq<Snap> {
    if d in u then u[d].snaps else []
  }

  function NewLatest(files: Files): seq<Snap> {
    [Snap("latest", files)]
  }

  ghost predicate OldOrNone(u: Store, d: string, before: seq<Snap>) {
    SnapsOf(u, d) == [] || SnapsOf(u, d) == before
  }

  // ---- Single commands ----

  lemma RenameSnaps(u: Store, from: string, to: string, d: string)
    requires from in u && to !in u
    ensures SnapsOf(Renamed(u, from, to).value, d) ==
      if d == to then SnapsOf(u, from) else if d == from then [] else SnapsOf(u, d)
  {
  }

  /** Renaming, destroying something else, and dropping `@latest` leave a dataset its old snapshot or none. */
  lemma ThenOldOrNone(r: Reply, go: bool, c: Command, d: string, before: seq<Snap>)
    requires Shape(r.world.store) && OldOrNone(r.world.store, d, before)
    requires c.DestroySnap? || (c.DestroyAll? && c.ds != d) || (c.Rename? && c.to != d)
    ensures OldOrNone(ThenIf(r, go, c).world.store, d, before)
  {
    var u := r.world.store;
    if go && Apply(u, c).Some? {
      match c
      case Rename(ds, to) => RenameSnaps(u, ds, to, d);
      case DestroySnap(ref) => SoleSnapIndex(u, ref.ds, ref.snap);
      case DestroyAll(ds) =>
    }
  }

  // ---- A commit ----

  lemma {:induction false} HeadOldOrNone(w: World, c: CacheClone)
    requires Shape(w.store) && InPlace(w.store, c)
    ensures var t, before := RunAll(w, CommitHead(c)).world.store, SnapsOf(w.store, c.base);
      OldOrNone(t, c.base, before) && OldOrNone(t, c.clone, before)
  {
    HeadRuns(w, c);
    InheritKeeps(w, c);
    PromoteOldOrNone(ThenIf(Reply(w, true), c.inWorkspace, Inherit(c.clone)), c);
  }

  lemma InheritKeeps(w: World, c: CacheClone)
    requires Shape(w.store) && InPlace(w.store, c)
    ensures var u := ThenIf(Reply(w, true), c.inWorkspace, Inherit(c.clone)).world.store;
      Shape(u) && InPlace(u, c) && SnapsOf(u, c.base) == SnapsOf(w.store, c.base)
  {
    assert Good(w.store, Contents(w.store));
    hide Clean;
    ThenKeepsGood(Reply(w, true), c.inWorkspace, Inherit(c.clone), Contents(w.store));
    hide Shape;
  }

  lemma PromoteOldOrNone(r: Reply, c: CacheClone)
    requires Shape(r.world.store) && InPlace(r.world.store, c)
    ensures var t, before := ThenIf(r, c.restored, Promote(c.clone)).world.store, SnapsOf(r.world.store, c.base);
      OldOrNone(t, c.base, before) && OldOrNone(t, c.clone, before)
  {
    if c.restored && Promoted(r.world.store, c.clone).Some? {
      PromoteInFamily(r.world.store, c.clone);
    }
  }

  /** The two renames. */
  lemma SwapOldOrNone(r: Reply, c: CacheClone, aside: string, hadBase: bool, delivered: set<Files>, files: Files,
                      before: seq<Snap>)
    requires Good(r.world.store, delivered) && Holds(r.world.store, c.clone, files)
    requires OldOrNone(r.world.store, c.base, before) && OldOrNone(r.world.store, c.clone, before)
    requires c.base != c.clone && aside != c.base && aside != c.clone
    ensures var r2 := Then(ThenIf(r, hadBase, Rename(c.base, aside)), Rename(c.clone, c.base));
      OldOrNone(r2.world.store, c.base, before)
  {
    ThenKeepsGood(r, hadBase, Rename(c.base, aside), delivered);
    ThenOldOrNone(r, hadBase, Rename(c.base, aside), c.base, before);
    ThenOldOrNone(r, hadBase, Rename(c.base, aside), c.clone, before);
    var r1 := ThenIf(r, hadBase, Rename(c.base, aside));
    if Apply(r1.world.store, Rename(c.clone, c.base)).Some? {
      RenameSnaps(r1.world.store, c.clone, c.base, c.base);
    }
  }

  /** Taking the new `@latest`: it works only where there is none. */
  lemma SnapshotIsNew(r: Reply, base: string, files: Files, before: seq<Snap>)
    requires Shape(r.world.store) && (r.ok ==> Holds(r.world.store, base, files))
    requires OldOrNone(r.world.store, base, before)
    ensures var t := Then(r, Snapshot(Latest(base))).world.store;
      OldOrNone(t, base, before) || SnapsOf(t, base) == NewLatest(files)
  {
    var u := r.world.store;
    if r.ok && Apply(u, Snapshot(Latest(base))).Some? {
      if u[base].snaps != [] {
        SoleSnapIndex(u, base, "latest");
      }
    }
  }

  lemma SealNewOrOld(r: Reply, c: CacheClone, aside: string, hadBase: bool, delivered: set<Files>, files: Files,
                     before: seq<Snap>)
    requires Good(r.world.store, delivered) && (r.ok ==> Holds(r.world.store, c.base, files)) && aside != c.base
    requires OldOrNone(r.world.store, c.base, before)
    ensures var r4 := ThenIf(ThenIf(r, hadBase, DestroyAll(aside)), c.restored, DestroySnap(Latest(c.base)));
      var t := Then(r4, Snapshot(Latest(c.base))).world.store;
      OldOrNone(t, c.base, before) || SnapsOf(t, c.base) == NewLatest(files)
  {
    ThenKeepsGood(r, hadBase, DestroyAll(aside), delivered);
    StillHolds(r, hadBase, DestroyAll(aside), c.base, files);
    ThenOldOrNone(r, hadBase, DestroyAll(aside), c.base, before);
    var r3 := ThenIf(r, hadBase, DestroyAll(aside));
    ThenKeepsGood(r3, c.restored, DestroySnap(Latest(c.base)), delivered);
    StillHolds(r3, c.restored, DestroySnap(Latest(c.base)), c.base, files);
    ThenOldOrNone(r3, c.restored, DestroySnap(Latest(c.base)), c.base, before);
    SnapshotIsNew(ThenIf(r3, c.restored, DestroySnap(Latest(c.base))), c.base, files, before);
  }

  /**
   All or nothing. A commit, under any fates: if the base has a snapshot afterwards, it is `@latest` with the
   files of the run's clone, or exactly what the base had before.
   */
  lemma CommitAllOrNothing(w: World, runId: string, c: CacheClone)
    requires Shape(w.store) && InPlace(w.store, c) && DistinctNames3(c, runId)
    ensures var t := Commit(w, runId, c).world.store;
      OldOrNone(t, c.base, SnapsOf(w.store, c.base)) || SnapsOf(t, c.base) == NewLatest(w.store[c.clone].files)
  {
    var before, files := SnapsOf(w.store, c.base), w.store[c.clone].files;
    var delivered := Contents(w.store);
    hide Apply, Shape, Holds, CommitHead, CommitTail, OldOrNone;
    HeadKeepsGood(w, c, delivered);
    HeadOldOrNone(w, c);
    var head := RunAll(w, CommitHead(c));
    if head.ok {
      LookingChangesNothing(head.world, c.base);
      var had := Issue(head.world, ListDataset(c.base));
      TailAllOrNothing(had.world, c, runId, had.ok, delivered, files, before);
    }
  }

  lemma LookingChangesNothing(w: World, ds: string)
    ensures Issue(w, ListDataset(ds)).world.store == w.store
  {
  }

  lemma {:induction false} TailAllOrNothing(w: World, c: CacheClone, runId: string, hadBase: bool,
                                            delivered: set<Files>, files: Files, before: seq<Snap>)
    requires Good(w.store, delivered) && Holds(w.store, c.clone, files) && DistinctNames3(c, runId)
    requires OldOrNone(w.store, c.base, before) && OldOrNone(w.store, c.clone, before)
    ensures var t := RunAll(w, CommitTail(c, runId, hadBase)).world.store;
      OldOrNone(t, c.base, before) || SnapsOf(t, c.base) == NewLatest(files)
  {
    var aside, r := SetAside(c.base, runId), Reply(w, true);
    TailRuns(w, c, runId, hadBase);
    SwapKeepsGood(r, c, aside, hadBase, delivered, files);
    SwapOldOrNone(r, c, aside, hadBase, delivered, files, before);
    var r1 := ThenIf(r, hadBase, Rename(c.base, aside));
    SealNewOrOld(Then(r1, Rename(c.clone, c.base)), c, aside, hadBase, delivered, files, before);
  }

  // ---- The whole loop ----

  /** What the loop may leave of cache `c`: `@latest` as it was, as the run made it, or missing. */
  ghost predicate Settled(s: Store, t: Store, c: CacheClone, success: bool)
    requires c.clone in s
  {
    || SnapsOf(t, c.base) == SnapsOf(s, c.base)
    || (success && (SnapsOf(t, c.base) == [] || SnapsOf(t, c.base) == NewLatest(s[c.clone].files)))
  }

  /** Finishing all caches of a run, under any fates, settles each of them; a failed run leaves every `@latest`. */
  lemma {:induction false} FinishAllOrNothing(f: string -> string, w: World, runId: string, caches: seq<CacheClone>,
                                              success: bool, i: nat)
    requires Local(f, w.store) && AllOwned(f, caches, runId) && DistinctBases(caches) && i < |caches|
    requires DistinctNames3(caches[i], runId)
    requires var u := Sub(f, w.store, caches[i].base); Shape(u) && InPlace(u, caches[i])
    ensures caches[i].clone in w.store
    ensures Settled(w.store, FinishEach(w, runId, caches, success).store, caches[i], success)
  {
    hide FinishEach, Commit, DistinctNames3, Local;
    var c, t := caches[i], FinishEach(w, runId, caches, success).store;
    var w' := FinishEachAt(f, w, runId, caches, success, i);
    assert Owned(f, c, runId);
    if success {
      CommitAllOrNothing(w', runId, c);
    }
    var v := FinishOne(w', runId, c, success).store;
    assert SnapsOf(t, c.base) == SnapsOf(v, c.base) && SnapsOf(w.store, c.base) == SnapsOf(w'.store, c.base);
  }

  // ---- A whole run ----

  lemma SnapsInFamily(f: string -> string, s: Store, t: Store, d: string)
    requires Sub(f, s, f(d)) == Sub(f, t, f(d))
    ensures SnapsOf(s, d) == SnapsOf(t, d)
  {
    assert d in s <==> d in Sub(f, s, f(d));
    assert d in t <==> d in Sub(f, t, f(d));
    assert d in s ==> s[d] == Sub(f, s, f(d))[d];
    assert d in t ==> t[d] == Sub(f, t, f(d))[d];
  }

  lemma {:induction false} AttachKeepsSnaps(f: string -> string, w: World, u: Setup, caches: seq<Cache>, i: nat,
                                            delivered: set<(string, Files)>)
    requires Inv(f, State(w.store, delivered)) && Declared(f, u, caches) && i < |caches|
    ensures var base := Base(u.Root(), caches[i].name);
      SnapsOf(AttachAll(w, u, caches).world.store, base) == SnapsOf(w.store, base)
  {
    var base := Base(u.Root(), caches[i].name);
    assert DeclaredOne(f, u, caches[i]);
    IssueFrame(f, w, CreateParents(u.Root()), "");
    var root := Issue(w, CreateParents(u.Root()));
    SnapsInFamily(f, w.store, root.world.store, base);
    if root.ok {
      AttachEachKeepsSnaps(f, root.world, u, caches, i);
    }
  }

  lemma {:induction false} AttachEachKeepsSnaps(f: string -> string, w: World, u: Setup, caches: seq<Cache>, i: nat)
    requires Local(f, w.store) && Declared(f, u, caches) && i < |caches|
    ensures var base := Base(u.Root(), caches[i].name);
      SnapsOf(AttachEach(w, u, caches).world.store, base) == SnapsOf(w.store, base)
  {
    var base, a := Base(u.Root(), caches[i].name), AttachEach(w, u, caches);
    assert DeclaredOne(f, u, caches[i]);
    AttachEachLeaves(f, w, u, caches);
    if i < |a.caches| {
      var w' := AttachEachAt(f, w, u, caches, i);
      AttachOneKeepsSnaps(w', u, caches[i]);
      SnapsInFamily(f, w.store, Sub(f, w.store, base), base);
      SnapsInFamily(f, a.world.store, Sub(f, a.world.store, base), base);
    } else {
      assert forall k :: 0 <= k < |a.caches| ==> a.caches[k].base != base;
      SnapsInFamily(f, w.store, a.world.store, base);
    }
  }

  lemma AttachOneKeepsSnaps(w: World, u: Setup, c: Cache)
    ensures var base := Base(u.Root(), c.name);
      base != RunClone(u.Root(), c.name, u.runId) ==>
        SnapsOf(AttachOne(w, u, c).world.store, base) == SnapsOf(w.store, base)
  {
    var base := Base(u.Root(), c.name);
    LookingForSnapChangesNothing(w, Latest(base));
    var listed := Issue(w, ListSnap(Latest(base)));
    ProvisionKeepsSnaps(listed.world, u, c, listed.ok);
    hide Issue, Provision;
    var made := Issue(listed.world, Provision(u, c, listed.ok));
    if made.ok {
      SettlingChangesNothing(made.world, CloneFor(u, c, listed.ok));
    }
  }

  lemma LookingForSnapChangesNothing(w: World, ref: SnapRef)
    ensures Issue(w, ListSnap(ref)).world.store == w.store
  {
  }

  lemma ProvisionKeepsSnaps(w: World, u: Setup, c: Cache, restored: bool)
    ensures var base := Base(u.Root(), c.name);
      base != RunClone(u.Root(), c.name, u.runId) ==>
        SnapsOf(Issue(w, Provision(u, c, restored)).world.store, base) == SnapsOf(w.store, base)
  {
  }

  /** The world at the end of the steps, and whether the caches are going to be committed. */
  ghost predicate Finishing(st: State, r: Run, w: World, caches: seq<CacheClone>, success: bool) {
    var p := Prepare(World(st.store, r.fates, true), r.setup, r.head, r.files);
    var a := AttachAll(p.world, r.setup, r.caches);
    p.ok && w == AfterSteps(r, a) && caches == a.caches && success == (a.ok && r.success)
  }

  /**
   From any pool that histories lead to, under any fates: each cache a run declares comes out with the
   `@latest` it had, or, if the run succeeded, with that of its own clone, or with none.
   */
  lemma {:induction false} RunAllOrNothing(f: string -> string, st: State, r: Run, i: nat)
    requires Inv(f, st) && Declared(f, r.setup, r.caches) && i < |r.caches|
    ensures var base, clone := Base(r.setup.Root(), r.caches[i].name),
                               RunClone(r.setup.Root(), r.caches[i].name, r.setup.runId);
      var t := Execute(st, r).store;
      || SnapsOf(t, base) == SnapsOf(st.store, base)
      || exists w, caches :: Finishing(st, r, w, caches, true) && clone in w.store
           && (SnapsOf(t, base) == [] || SnapsOf(t, base) == NewLatest(w.store[clone].files))
  {
    var w0 := World(st.store, r.fates, true);
    PrepareKeepsSnaps(f, st, r, i);
    var p := Prepare(w0, r.setup, r.head, r.files);
    hide Prepare, AttachAll, Inv, Declared, FinishEach, Cleanup, AfterSteps, OnlyTouched;
    if p.ok {
      var a := AttachAll(p.world, r.setup, r.caches);
      AttachKeepsSnaps(f, p.world, r.setup, r.caches, i, st.delivered);
      assert Finishing(st, r, AfterSteps(r, a), a.caches, a.ok && r.success);
      EndKeepsOrRenews(f, p.world, r, st.delivered, i);
    }
  }

  lemma {:induction false} PrepareKeepsSnaps(f: string -> string, st: State, r: Run, i: nat)
    requires Inv(f, st) && Declared(f, r.setup, r.caches) && i < |r.caches|
    ensures var base := Base(r.setup.Root(), r.caches[i].name);
      var p := Prepare(World(st.store, r.fates, true), r.setup, r.head, r.files);
      Inv(f, State(p.world.store, st.delivered)) && SnapsOf(p.world.store, base) == SnapsOf(st.store, base)
  {
    var w0 := World(st.store, r.fates, true);
    assert DeclaredOne(f, r.setup, r.caches[i]);
    PrepareFrame(f, w0, r.setup, r.head, r.files);
    hide Prepare;
    SnapsInFamily(f, st.store, Prepare(w0, r.setup, r.head, r.files).world.store,
                  Base(r.setup.Root(), r.caches[i].name));
  }

  lemma WorkKeepsSnaps(r: Run, a: Attached, d: string)
    ensures SnapsOf(AfterSteps(r, a).store, d) == SnapsOf(a.world.store, d)
  {
  }

  /** From the prepared workspace to the end. */
  lemma {:induction false} EndKeepsOrRenews(f: string -> string, w0: World, r: Run, delivered: set<(string, Files)>,
                                            i: nat)
    requires Inv(f, State(w0.store, delivered)) && Declared(f, r.setup, r.caches) && i < |r.caches|
    ensures var base, clone := Base(r.setup.Root(), r.caches[i].name),
                               RunClone(r.setup.Root(), r.caches[i].name, r.setup.runId);
      var a := AttachAll(w0, r.setup, r.caches);
      var w := AfterSteps(r, a);
      var t := FinishRun(w, r.setup, a.caches, a.ok && r.success).store;
      || SnapsOf(t, base) == SnapsOf(a.world.store, base)
      || (a.ok && r.success && clone in w.store
          && (SnapsOf(t, base) == [] || SnapsOf(t, base) == NewLatest(w.store[clone].files)))
  {
    var u, base := r.setup, Base(r.setup.Root(), r.caches[i].name);
    assert DeclaredOne(f, u, r.caches[i]);
    AttachKeepsInv(f, w0, u, r.caches, delivered);
    AttachAllClones(f, w0, u, r.caches, delivered);
    var a := AttachAll(w0, u, r.caches);
    hide AttachAll;
    StepsKeepUnderway(f, r, a, delivered);
    WorkKeepsSnaps(r, a, base);
    var w, success := AfterSteps(r, a), a.ok && r.success;
    hide AfterSteps;
    FinishKeepsOrRenews(f, w, u, r.caches, a.caches, success, delivered, i);
    FinishEachLeaves(f, w, u.runId, a.caches, success);
    var done := FinishEach(w, u.runId, a.caches, success);
    CleanupFrame(f, done, u);
    hide Cleanup;
    SnapsInFamily(f, done.store, Cleanup(done, u).store, base);
  }

  lemma {:induction false} AttachAllClones(f: string -> string, w: World, u: Setup, caches: seq<Cache>,
                                           delivered: set<(string, Files)>)
    requires Inv(f, State(w.store, delivered)) && Declared(f, u, caches)
    ensures var a := AttachAll(w, u, caches);
      && |a.caches| <= |caches|
      && forall i :: 0 <= i < |a.caches| ==> a.caches[i] == CloneFor(u, caches[i], a.caches[i].restored)
  {
    IssueFrame(f, w, CreateParents(u.Root()), "");
    var root := Issue(w, CreateParents(u.Root()));
    AttachEachLeaves(f, root.world, u, caches);
  }

  lemma {:induction false} FinishKeepsOrRenews(f: string -> string, w: World, u: Setup, declared: seq<Cache>,
                                               caches: seq<CacheClone>, success: bool,
                                               delivered: set<(string, Files)>, i: nat)
    requires Underway(f, w, caches, u, delivered) && Declared(f, u, declared) && i < |declared|
    requires |caches| <= |declared|
    requires forall k :: 0 <= k < |caches| ==> caches[k] == CloneFor(u, declared[k], caches[k].restored)
    ensures var base, clone := Base(u.Root(), declared[i].name), RunClone(u.Root(), declared[i].name, u.runId);
      var t := FinishEach(w, u.runId, caches, success).store;
      || SnapsOf(t, base) == SnapsOf(w.store, base)
      || (success && clone in w.store
          && (SnapsOf(t, base) == [] || SnapsOf(t, base) == NewLatest(w.store[clone].files)))
  {
    var base := Base(u.Root(), declared[i].name);
    assert DeclaredOne(f, u, declared[i]);
    if i < |caches| {
      FinishAllOrNothing(f, w, u.runId, caches, success, i);
    } else {
      FinishEachLeaves(f, w, u.runId, caches, success);
      assert forall k :: 0 <= k < |caches| ==> caches[k].base != base;
      SnapsInFamily(f, w.store, FinishEach(w, u.runId, caches, success).store, base);
    }
  }
}
