/**
 One cache under any failures. `u` is always the part of the store that belongs to the cache: its base,
 the run's clone, and whatever earlier runs left behind. Whatever happens to a commit, no dataset of the
 cache has a snapshot other than `@latest`, every origin is the `@latest` of a dataset of the cache, and
 snapshots hold delivered contents only.
 */
module CacheShape {
  import opened Outcomes
  import opened Zfs
  import opened CacheNames
  import opened CachePath
  import opened CacheProtocol

  /**
   In every reachable state a cache dataset has at most one snapshot, `@latest`; one that has it has no
   origin, and every origin is an existing `@latest`.
   */
  ghost predicate Shape(u: Store) {
    forall d :: d in u ==>
      && (u[d].snaps == [] || (|u[d].snaps| == 1 && u[d].snaps[0].name == "latest" && u[d].origin.None?))
      && (u[d].origin.Some? ==>
            && u[d].origin.value.snap == "latest"
            && u[d].origin.value.ds in u
            && u[u[d].origin.value.ds].snaps != [])
  }

  /** Every snapshot of the cache holds files from `delivered`. */
  ghost predicate Clean(u: Store, delivered: set<Files>) {
    forall d :: d in u && u[d].snaps != [] ==> u[d].snaps[0].files in delivered
  }

  ghost predicate Good(u: Store, delivered: set<Files>) {
    Shape(u) && Clean(u, delivered)
  }

  /** All files under any snapshot of the cache. */
  ghost function Contents(u: Store): (r: set<Files>)
    ensures forall d :: d in u && u[d].snaps != [] ==> u[d].snaps[0].files in r
  {
    set d | d in u && u[d].snaps != [] :: u[d].snaps[0].files
  }

  /** The run's clone is in place, as attaching left it. */
  ghost predicate InPlace(u: Store, c: CacheClone) {
    && c.clone in u && c.clone != c.base
    && u[c.clone].snaps == []
    && u[c.clone].origin == (if c.restored then Some(Latest(c.base)) else None)
  }

  /** Commands other than `snapshot` and foreign clones take no new content into a snapshot. */
  predicate Harmless(c: Command) {
    !c.Snapshot? && (c.Clone? ==> c.from.snap == "latest")
  }

  lemma {:induction false} SoleSnapIndex(u: Store, d: string, name: string)
    requires Shape(u) && d in u && u[d].snaps != []
    ensures SnapIndex(u[d].snaps, name) == if name == "latest" then 0 else 1
    ensures HasName(u[d].snaps, name) <==> name == "latest"
  {
  }

  lemma HarmlessKeepsGood(u: Store, c: Command, delivered: set<Files>)
    requires Good(u, delivered) && Harmless(c) && Apply(u, c).Some?
    ensures Good(Apply(u, c).value, delivered)
  {
    match c
    case Promote(ds) => PromoteKeepsGood(u, ds, delivered);
    case DestroySnap(ref) => DestroySnapKeepsGood(u, ref, delivered);
    case DestroyAll(ds) => DestroyKeepsGood(u, ds, delivered);
    case Rename(ds, to) => RenameKeepsGood(u, ds, to, delivered);
    case Clone(from, ds, mount) => LeafKeepsGood(u, ds, Apply(u, c).value[ds], delivered);
    case Create(ds, mount) => LeafKeepsGood(u, ds, Apply(u, c).value[ds], delivered);
    case CreateParents(ds) => if ds !in u { LeafKeepsGood(u, ds, Apply(u, c).value[ds], delivered); }
    case Inherit(ds) => PutKeepsGood(u, ds, u[ds].(mount := Inherited), delivered);
    case ListDataset(ds) =>
    case ListSnap(ref) =>
    case GetMountpoint(ds) =>
    case Chown(ds) =>
    case Fetch(ds) =>
    case GitClone(ds, files) => PutKeepsGood(u, ds, u[ds].(files := files), delivered);
    case Checkout(ds, files) => PutKeepsGood(u, ds, u[ds].(files := files), delivered);
  }

  lemma PromoteKeepsGood(u: Store, ds: string, delivered: set<Files>)
    requires Good(u, delivered) && Promoted(u, ds).Some?
    ensures Good(Promoted(u, ds).value, delivered)
  {
    PromoteInFamily(u, ds);
  }

  lemma PutKeepsGood(u: Store, ds: string, d: Dataset, delivered: set<Files>)
    requires Good(u, delivered) && ds in u && d.snaps == u[ds].snaps && d.origin == u[ds].origin
    ensures Good(u[ds := d], delivered)
  {
  }

  lemma LeafKeepsGood(u: Store, ds: string, leaf: Dataset, delivered: set<Files>)
    requires Good(u, delivered) && ds !in u && leaf.snaps == []
    requires leaf.origin.Some? ==> leaf.origin.value.snap == "latest" && HasSnap(u, leaf.origin.value)
    ensures Good(u[ds := leaf], delivered)
  {
  }

  lemma DestroyKeepsGood(u: Store, ds: string, delivered: set<Files>)
    requires Good(u, delivered) && ds in u && !HeldFromOutside(u, ds)
    ensures Good(u - {ds}, delivered)
  {
  }

  lemma RenameKeepsGood(u: Store, ds: string, to: string, delivered: set<Files>)
    requires Good(u, delivered) && ds in u && to !in u
    ensures Good(Renamed(u, ds, to).value, delivered)
  {
  }

  lemma DestroySnapKeepsGood(u: Store, ref: SnapRef, delivered: set<Files>)
    requires Good(u, delivered) && Apply(u, DestroySnap(ref)).Some?
    ensures Good(Apply(u, DestroySnap(ref)).value, delivered)
  {
  }

  /** The dataset as promoting `clone` over `base` leaves it. */
  function Swapped(u: Store, base: string, clone: string, d: string): Dataset
    requires d in u && base in u
  {
    if d == clone then u[d].(snaps := u[base].snaps, origin := None)
    else if d == base then u[d].(snaps := [], origin := Some(Latest(clone)))
    else if u[d].origin == Some(Latest(base)) then u[d].(origin := Some(Latest(clone)))
    else u[d]
  }

  /** Inside a cache, promoting moves `@latest` from the origin to the clone, and all dependents with it. */
  lemma PromoteInFamily(u: Store, ds: string)
    requires Shape(u) && Promoted(u, ds).Some?
    ensures u[ds].origin.Some? && u[ds].origin.value == Latest(u[ds].origin.value.ds)
    ensures var base := u[ds].origin.value.ds;
      && base in u && base != ds && u[base].snaps != []
      && Promoted(u, ds).value == map d | d in u :: Swapped(u, base, ds, d)
  {
    var t := Promoted(u, ds).value;
    var base := u[ds].origin.value.ds;
    SoleSnapIndex(u, base, "latest");
    var moved := u[base].snaps[..1];
    assert moved == u[base].snaps;
    forall d | d in u ensures t[d] == Swapped(u, base, ds, d) {
      if d != ds && d != base {
        assert t[d] == Repoint(u[d], base, moved, ds);
        assert HasName(moved, "latest") by { assert moved[0].name == "latest"; }
      }
    }
  }

  lemma PromoteSucceeds(u: Store, c: CacheClone)
    requires Shape(u) && InPlace(u, c) && c.restored
    ensures Promoted(u, c.clone).Some?
  {
  }

  lemma SnapshotKeepsGood(u: Store, base: string, delivered: set<Files>)
    requires Good(u, delivered) && base in u && u[base].origin.None? && Apply(u, Snapshot(Latest(base))).Some?
    ensures Good(Apply(u, Snapshot(Latest(base))).value, delivered + {u[base].files})
  {
  }

  // ---- A whole commit ----

  /** Dataset `d` holds the run's files and depends on nothing. */
  ghost predicate Holds(u: Store, d: string, files: Files) {
    d in u && u[d].files == files && u[d].origin.None?
  }

  /** One more command after `r`, whatever its fate. */
  lemma ThenKeepsGood(r: Reply, go: bool, c: Command, delivered: set<Files>)
    requires Good(r.world.store, delivered) && Harmless(c)
    ensures Good(ThenIf(r, go, c).world.store, delivered)
    ensures ThenIf(r, go, c).ok ==> r.ok
    ensures ThenIf(r, go, c).ok && go ==> Apply(r.world.store, c) == Some(ThenIf(r, go, c).world.store)
  {
    if go && Apply(r.world.store, c).Some? {
      HarmlessKeepsGood(r.world.store, c, delivered);
    }
  }

  predicate DistinctNames3(c: CacheClone, runId: string) {
    var aside := SetAside(c.base, runId);
    c.base != c.clone && c.base != aside && c.clone != aside
  }

  lemma {:induction false} HeadKeepsGood(w: World, c: CacheClone, delivered: set<Files>)
    requires Good(w.store, delivered) && InPlace(w.store, c)
    ensures var r := RunAll(w, CommitHead(c));
      && Good(r.world.store, delivered)
      && (r.ok ==> Holds(r.world.store, c.clone, w.store[c.clone].files))
  {
    HeadRuns(w, c);
    var r0 := Reply(w, true);
    ThenKeepsGood(r0, c.inWorkspace, Inherit(c.clone), delivered);
    var r1 := ThenIf(r0, c.inWorkspace, Inherit(c.clone));
    ThenKeepsGood(r1, c.restored, Promote(c.clone), delivered);
    var r2 := ThenIf(r1, c.restored, Promote(c.clone));
    if r2.ok && c.restored {
      PromoteInFamily(r1.world.store, c.clone);
    }
  }

  lemma {:induction false} TailKeepsGood(w: World, c: CacheClone, runId: string, hadBase: bool,
                                         delivered: set<Files>, files: Files)
    requires Good(w.store, delivered) && Holds(w.store, c.clone, files) && DistinctNames3(c, runId)
    ensures Good(RunAll(w, CommitTail(c, runId, hadBase)).world.store, delivered + {files})
  {
    var aside := SetAside(c.base, runId);
    TailRuns(w, c, runId, hadBase);
    SwapKeepsGood(Reply(w, true), c, aside, hadBase, delivered, files);
    var r1 := ThenIf(Reply(w, true), hadBase, Rename(c.base, aside));
    SealKeepsGood(Then(r1, Rename(c.clone, c.base)), c, aside, hadBase, delivered, files);
  }

  /** The two renames. */
  lemma SwapKeepsGood(r: Reply, c: CacheClone, aside: string, hadBase: bool, delivered: set<Files>, files: Files)
    requires Good(r.world.store, delivered) && Holds(r.world.store, c.clone, files) && c.base != c.clone
    ensures var r2 := Then(ThenIf(r, hadBase, Rename(c.base, aside)), Rename(c.clone, c.base));
      Good(r2.world.store, delivered) && (r2.ok ==> Holds(r2.world.store, c.base, files))
  {
    ThenKeepsGood(r, hadBase, Rename(c.base, aside), delivered);
    StillHolds(r, hadBase, Rename(c.base, aside), c.clone, files);
    var r1 := ThenIf(r, hadBase, Rename(c.base, aside));
    ThenKeepsGood(r1, true, Rename(c.clone, c.base), delivered);
    StillHolds(r1, true, Rename(c.clone, c.base), c.clone, files);
  }

  /** Dropping what was set aside and taking the new `@latest`. */
  lemma SealKeepsGood(r: Reply, c: CacheClone, aside: string, hadBase: bool, delivered: set<Files>, files: Files)
    requires Good(r.world.store, delivered) && (r.ok ==> Holds(r.world.store, c.base, files)) && aside != c.base
    ensures var r4 := ThenIf(ThenIf(r, hadBase, DestroyAll(aside)), c.restored, DestroySnap(Latest(c.base)));
      Good(Then(r4, Snapshot(Latest(c.base))).world.store, delivered + {files})
  {
    ThenKeepsGood(r, hadBase, DestroyAll(aside), delivered);
    StillHolds(r, hadBase, DestroyAll(aside), c.base, files);
    var r3 := ThenIf(r, hadBase, DestroyAll(aside));
    ThenKeepsGood(r3, c.restored, DestroySnap(Latest(c.base)), delivered);
    StillHolds(r3, c.restored, DestroySnap(Latest(c.base)), c.base, files);
    var r4 := ThenIf(r3, c.restored, DestroySnap(Latest(c.base)));
    SealedKeepsGood(r4, c.base, delivered, files);
  }

  lemma SealedKeepsGood(r: Reply, base: string, delivered: set<Files>, files: Files)
    requires Good(r.world.store, delivered) && (r.ok ==> Holds(r.world.store, base, files))
    ensures Good(Then(r, Snapshot(Latest(base))).world.store, delivered + {files})
  {
    if r.ok && Apply(r.world.store, Snapshot(Latest(base))).Some? {
      SnapshotKeepsGood(r.world.store, base, delivered);
    }
  }

  /** A rename carries the run's files along; destroying something else leaves them alone. */
  lemma StillHolds(r: Reply, go: bool, c: Command, d: string, files: Files)
    requires r.ok ==> Holds(r.world.store, d, files)
    requires c.Rename? || c.DestroySnap? || (c.DestroyAll? && c.ds != d)
    ensures ThenIf(r, go, c).ok ==>
      Holds(ThenIf(r, go, c).world.store, if go && c.Rename? && c.ds == d then c.to else d, files)
  {
  }

  /**
   Committing under any failures, or dying anywhere in between, takes nothing into `@latest` but the
   files the run's clone held.
   */
  lemma CommitKeepsGood(w: World, runId: string, c: CacheClone, delivered: set<Files>)
    requires Good(w.store, delivered) && InPlace(w.store, c) && DistinctNames3(c, runId)
    ensures Good(Commit(w, runId, c).world.store, delivered + {w.store[c.clone].files})
  {
    HeadKeepsGood(w, c, delivered);
    var head := RunAll(w, CommitHead(c));
    if head.ok {
      var had := Issue(head.world, ListDataset(c.base));
      TailKeepsGood(had.world, c, runId, had.ok, delivered, w.store[c.clone].files);
    }
  }

  lemma DiscardKeepsGood(w: World, c: CacheClone, delivered: set<Files>)
    requires Good(w.store, delivered)
    ensures Good(Issue(w, DestroyAll(c.clone)).world.store, delivered)
  {
  }

  lemma AttachKeepsGood(w: World, u: Setup, c: Cache, delivered: set<Files>)
    requires Good(w.store, delivered) && Base(u.Root(), c.name) != RunClone(u.Root(), c.name, u.runId)
    ensures var r := AttachOne(w, u, c);
      && Good(r.world.store, delivered)
      && |r.caches| <= 1 && (r.ok ==> |r.caches| == 1)
      && (r.caches != [] ==>
            && r.caches[0] == CloneFor(u, c, r.caches[0].restored)
            && InPlace(r.world.store, r.caches[0]))
  {
    var listed := Issue(w, ListSnap(Latest(Base(u.Root(), c.name))));
    var r0 := Reply(listed.world, true);
    ThenKeepsGood(r0, true, Provision(u, c, listed.ok), delivered);
    var made := Issue(listed.world, Provision(u, c, listed.ok));
    if made.ok {
      var clone := CloneFor(u, c, listed.ok);
      assert InPlace(made.world.store, clone);
      SettlingChangesNothing(made.world, clone);
    }
  }

  lemma {:induction false} SettlingChangesNothing(w: World, c: CacheClone)
    ensures RunAll(w, Settle(c)).world.store == w.store
  {
    SettleRuns(w, c);
  }
}
