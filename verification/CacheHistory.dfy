/**
 Histories: any number of runs of any repositories on one pool, each command obeyed, refused or never
 reached. No failed run ever gets its files into a `@latest`.
 */
module CacheHistory {
  import opened Zfs
  import opened Families
  import opened CacheNames
  import opened CachePath
  import opened CacheProtocol
  import opened CacheFrames
  import opened CacheShape

  /**
   One run: where it works, what git checks out, the caches its pipeline declares, the fates of its
   commands, what its steps make of the files they find (by dataset), and whether they succeed.
   */
  datatype Run = Run(setup: Setup, head: Tree, files: Tree, caches: seq<Cache>, fates: seq<Fate>,
                     work: (string, Files) -> Files, success: bool)

  /** The pool, and for every cache the contents that clones of successful runs had at their finish. */
  datatype State = State(store: Store, delivered: set<(string, Files)>)

  function Delivery(s: Store, caches: seq<CacheClone>): set<(string, Files)> {
    set i | 0 <= i < |caches| && caches[i].clone in s :: (caches[i].base, s[caches[i].clone].files)
  }

  /** The world when the steps are through, after attaching; no step runs if attaching failed. */
  function AfterSteps(r: Run, a: Attached): World {
    if a.ok then a.world.(store := Worked(a.world.store, Clones(a.caches) + {r.setup.RunDs()}, r.work))
    else a.world
  }

  function Execute(st: State, r: Run): State {
    var p := Prepare(World(st.store, r.fates, true), r.setup, r.head, r.files);
    if !p.ok then State(p.world.store, st.delivered) else
    var a := AttachAll(p.world, r.setup, r.caches);
    var w := AfterSteps(r, a);
    var success := a.ok && r.success;
    State(FinishRun(w, r.setup, a.caches, success).store,
          st.delivered + if success then Delivery(w.store, a.caches) else {})
  }

  function ExecuteAll(st: State, runs: seq<Run>): State {
    if runs == [] then st else Execute(ExecuteAll(st, runs[..|runs| - 1]), runs[|runs| - 1])
  }

  /** The contents delivered for cache `g`. */
  function For(delivered: set<(string, Files)>, g: string): set<Files> {
    set p | p in delivered && p.0 == g :: p.1
  }

  ghost predicate Inv(f: string -> string, st: State) {
    && Local(f, st.store)
    && forall g :: g != "" ==> Good(Sub(f, st.store, g), For(st.delivered, g))
  }

  // ---- The parts that do not concern caches ----

  lemma PrepareFrame(f: string -> string, w: World, u: Setup, head: Tree, files: Tree)
    requires Local(f, w.store) && f(u.Repo()) == "" && f(u.RunDs()) == ""
    ensures OnlyTouched(f, w.store, Prepare(w, u, head, files).world.store, "")
  {
    hide Issue, RunAll, Sub, Local;
    IssueFrame(f, w, ListDataset(u.Repo()), "");
    var known := Issue(w, ListDataset(u.Repo()));
    RunAllFrame(f, known.world, [CreateParents(u.Repo()), GetMountpoint(u.Repo()), Chown(u.Repo()),
                                 GitClone(u.Repo(), head), Checkout(u.Repo(), files)], "");
    RunAllFrame(f, known.world, [GetMountpoint(u.Repo()), Fetch(u.Repo()), Checkout(u.Repo(), files)], "");
    var repo := EnsureRepo(w, u, head, files);
    if repo.ok {
      IssueFrame(f, repo.world, Snapshot(u.RunSnap()), "");
      var snap := Issue(repo.world, Snapshot(u.RunSnap()));
      IssueFrame(f, snap.world, Clone(u.RunSnap(), u.RunDs(), Inherited), "");
      var made := Issue(snap.world, Clone(u.RunSnap(), u.RunDs(), Inherited));
      IssueFrame(f, made.world, DestroySnap(u.RunSnap()), "");
      RunAllFrame(f, made.world, [GetMountpoint(u.RunDs()), Chown(u.RunDs())], "");
    }
  }

  lemma CleanupFrame(f: string -> string, w: World, u: Setup)
    requires Local(f, w.store) && f(u.Repo()) == "" && f(u.RunDs()) == ""
    ensures OnlyTouched(f, w.store, Cleanup(w, u).store, "")
  {
    IssueFrame(f, w, DestroyAll(u.RunDs()), "");
    IssueFrame(f, Issue(w, DestroyAll(u.RunDs())).world, DestroySnap(u.RunSnap()), "");
  }

  // ---- One run keeps the invariant ----

  /** Attached clones are in place, each in its own cache; every cache is still good. */
  ghost predicate Underway(f: string -> string, w: World, caches: seq<CacheClone>, u: Setup,
                           delivered: set<(string, Files)>) {
    && Inv(f, State(w.store, delivered))
    && AllOwned(f, caches, u.runId) && DistinctBases(caches)
    && forall i :: 0 <= i < |caches| ==>
         DistinctNames3(caches[i], u.runId) && InPlace(Sub(f, w.store, caches[i].base), caches[i])
  }

  lemma AttachKeepsInv(f: string -> string, w: World, u: Setup, caches: seq<Cache>, delivered: set<(string, Files)>)
    requires Inv(f, State(w.store, delivered)) && Declared(f, u, caches)
    ensures var a := AttachAll(w, u, caches); Underway(f, a.world, a.caches, u, delivered)
  {
    IssueFrame(f, w, CreateParents(u.Root()), "");
    var root := Issue(w, CreateParents(u.Root()));
    if caches != [] && root.ok {
      EachKeepsInv(f, root.world, u, caches, delivered);
    }
  }

  lemma {:induction false} EachKeepsInv(f: string -> string, w: World, u: Setup, caches: seq<Cache>,
                                        delivered: set<(string, Files)>)
    requires Inv(f, State(w.store, delivered)) && Declared(f, u, caches)
    ensures var a := AttachEach(w, u, caches); Underway(f, a.world, a.caches, u, delivered)
  {
    var a := AttachEach(w, u, caches);
    AttachEachLeaves(f, w, u, caches);
    forall i | 0 <= i < |a.caches|
      ensures Good(Sub(f, a.world.store, a.caches[i].base), For(delivered, a.caches[i].base))
      ensures InPlace(Sub(f, a.world.store, a.caches[i].base), a.caches[i])
    {
      var w' := AttachEachAt(f, w, u, caches, i);
      assert DeclaredOne(f, u, caches[i]);
      AttachKeepsGood(w', u, caches[i], For(delivered, a.caches[i].base));
    }
    forall g | g != "" ensures Good(Sub(f, a.world.store, g), For(delivered, g)) {
      if i :| 0 <= i < |a.caches| && a.caches[i].base == g {
      } else {
        assert Sub(f, a.world.store, g) == Sub(f, w.store, g);
      }
    }
    forall i | 0 <= i < |a.caches|
      ensures Owned(f, a.caches[i], u.runId) && DistinctNames3(a.caches[i], u.runId)
    {
      OwnedByDeclaration(f, u, caches[i], a.caches[i]);
    }
  }

  lemma OwnedByDeclaration(f: string -> string, u: Setup, c: Cache, clone: CacheClone)
    requires DeclaredOne(f, u, c) && clone == CloneFor(u, c, clone.restored)
    ensures Owned(f, clone, u.runId) && DistinctNames3(clone, u.runId)
  {
  }

  lemma StepsKeepUnderway(f: string -> string, r: Run, a: Attached, delivered: set<(string, Files)>)
    requires Underway(f, a.world, a.caches, r.setup, delivered)
    ensures Underway(f, AfterSteps(r, a), a.caches, r.setup, delivered)
  {
    var s, t := a.world.store, AfterSteps(r, a).store;
    if a.ok {
      var touched := Clones(a.caches) + {r.setup.RunDs()};
      forall g | g != "" ensures Good(Sub(f, t, g), For(delivered, g)) {
        WorkOnSub(f, s, touched, r.work, g);
        WorkKeepsGood(Sub(f, s, g), touched, r.work, For(delivered, g));
      }
      forall i | 0 <= i < |a.caches|
        ensures InPlace(Sub(f, t, a.caches[i].base), a.caches[i])
      {
        WorkOnSub(f, s, touched, r.work, a.caches[i].base);
      }
    }
  }

  lemma WorkOnSub(f: string -> string, s: Store, touched: set<string>, work: (string, Files) -> Files, g: string)
    ensures Sub(f, Worked(s, touched, work), g) == Worked(Sub(f, s, g), touched, work)
  {
  }

  lemma WorkKeepsGood(u: Store, touched: set<string>, work: (string, Files) -> Files, delivered: set<Files>)
    requires Good(u, delivered)
    ensures Good(Worked(u, touched, work), delivered)
  {
  }

  lemma {:induction false} FinishKeepsInv(f: string -> string, w: World, u: Setup, caches: seq<CacheClone>,
                                          success: bool, delivered: set<(string, Files)>)
    requires Underway(f, w, caches, u, delivered)
    ensures var delivered' := delivered + if success then Delivery(w.store, caches) else {};
      Inv(f, State(FinishEach(w, u.runId, caches, success).store, delivered'))
  {
    var delivered' := delivered + if success then Delivery(w.store, caches) else {};
    var t := FinishEach(w, u.runId, caches, success).store;
    FinishEachLeaves(f, w, u.runId, caches, success);
    forall g | g != "" ensures Good(Sub(f, t, g), For(delivered', g)) {
      if i :| 0 <= i < |caches| && caches[i].base == g {
        var w' := FinishEachAt(f, w, u.runId, caches, success, i);
        FinishOneKeepsGood(f, w, w', u, caches, success, delivered, i);
      } else {
        assert Sub(f, t, g) == Sub(f, w.store, g);
      }
    }
  }

  lemma FinishOneKeepsGood(f: string -> string, w: World, w': World, u: Setup, caches: seq<CacheClone>,
                           success: bool, delivered: set<(string, Files)>, i: nat)
    requires Underway(f, w, caches, u, delivered) && i < |caches|
    requires w'.store == Sub(f, w.store, caches[i].base)
    ensures var delivered' := delivered + if success then Delivery(w.store, caches) else {};
      Good(FinishOne(w', u.runId, caches[i], success).store, For(delivered', caches[i].base))
  {
    var c := caches[i];
    var delivered' := delivered + if success then Delivery(w.store, caches) else {};
    if success {
      CommitKeepsGood(w', u.runId, c, For(delivered, c.base));
      assert (c.base, w.store[c.clone].files) in Delivery(w.store, caches);
      assert For(delivered, c.base) + {w.store[c.clone].files} <= For(delivered', c.base);
    } else {
      DiscardKeepsGood(w', c, For(delivered, c.base));
      assert delivered' == delivered;
    }
  }

  lemma ExecuteKeepsInv(f: string -> string, st: State, r: Run)
    requires Inv(f, st) && Declared(f, r.setup, r.caches)
    ensures Inv(f, Execute(st, r))
  {
    var w0 := World(st.store, r.fates, true);
    PrepareFrame(f, w0, r.setup, r.head, r.files);
    var p := Prepare(w0, r.setup, r.head, r.files);
    if p.ok {
      AttachKeepsInv(f, p.world, r.setup, r.caches, st.delivered);
      var a := AttachAll(p.world, r.setup, r.caches);
      StepsKeepUnderway(f, r, a, st.delivered);
      var w := AfterSteps(r, a);
      FinishKeepsInv(f, w, r.setup, a.caches, a.ok && r.success, st.delivered);
      CleanupFrame(f, FinishEach(w, r.setup.runId, a.caches, a.ok && r.success), r.setup);
    }
  }

  // ---- Over whole histories ----

  /** Which cache a dataset of `pool` belongs to, as a function to split the store with. */
  function FamilyIn(pool: string): string -> string {
    (d: string) => Family(pool, d)
  }

  /** What the pipeline validator and the uuid run ids guarantee. */
  predicate ValidRun(pool: string, r: Run) {
    && r.setup.pool == pool && '/' !in r.setup.slug && '/' !in r.setup.runId
    && (forall i :: 0 <= i < |r.caches| ==> ValidCacheName(r.caches[i].name))
    && (forall i, j :: 0 <= i < j < |r.caches| ==> r.caches[i].name != r.caches[j].name)
  }

  lemma ValidRunIsDeclared(pool: string, r: Run)
    requires ValidRun(pool, r)
    ensures Declared(FamilyIn(pool), r.setup, r.caches)
  {
    var f, u := FamilyIn(pool), r.setup;
    FamilyOfWorkspaceDatasets(pool, u.slug, u.runId);
    forall i | 0 <= i < |r.caches| ensures DeclaredOne(f, u, r.caches[i]) {
      NamesAreDeclared(pool, u, r.caches[i]);
    }
    forall i, j | 0 <= i < j < |r.caches|
      ensures Base(u.Root(), r.caches[i].name) != Base(u.Root(), r.caches[j].name)
    {
      BasesDiffer(u.Root(), r.caches[i].name, r.caches[j].name);
    }
  }

  lemma BasesDiffer(root: string, n: string, m: string)
    requires ValidCacheName(n) && ValidCacheName(m) && n != m
    ensures Base(root, n) != Base(root, m)
  {
    if Base(root, n) == Base(root, m) {
      SlashDecides(root, n, root, m);
    }
  }

  lemma NamesAreDeclared(pool: string, u: Setup, c: Cache)
    requires u.pool == pool && '/' !in u.slug && '/' !in u.runId && ValidCacheName(c.name)
    ensures DeclaredOne(FamilyIn(pool), u, c)
  {
    FamiliesOfRun(pool, u.slug, c.name, u.runId);
    TailsDiffer(Base(u.Root(), c.name), u.runId);
  }

  lemma TailsDiffer(base: string, runId: string)
    ensures base != base + ".run-" + runId
    ensures base != SetAside(base, runId) && SetAside(base, runId) != base + ".run-" + runId
  {
    assert (base + ".run-" + runId)[|base| + 1] == 'r';
    assert (base + ".old-" + runId)[|base| + 1] == 'o';
  }

  lemma {:induction false} ExecuteAllKeepsInv(pool: string, st: State, runs: seq<Run>)
    requires Inv(FamilyIn(pool), st) && forall i :: 0 <= i < |runs| ==> ValidRun(pool, runs[i])
    ensures Inv(FamilyIn(pool), ExecuteAll(st, runs))
  {
    if runs != [] {
      var rest := runs[..|runs| - 1];
      ExecuteAllKeepsInv(pool, st, rest);
      ValidRunIsDeclared(pool, runs[|runs| - 1]);
      ExecuteKeepsInv(FamilyIn(pool), ExecuteAll(st, rest), runs[|runs| - 1]);
    }
  }

  /** `files` is what a clone of cache `g` held when run `i` of the history finished successfully. */
  ghost predicate DeliveredBy(st: State, runs: seq<Run>, i: nat, g: string, files: Files)
    requires i < |runs|
  {
    var before := ExecuteAll(st, runs[..i]);
    var r := runs[i];
    var p := Prepare(World(before.store, r.fates, true), r.setup, r.head, r.files);
    var a := AttachAll(p.world, r.setup, r.caches);
    p.ok && a.ok && r.success && (g, files) in Delivery(AfterSteps(r, a).store, a.caches)
  }

  lemma {:induction false} DeliveredMeansSomeRun(st: State, runs: seq<Run>, g: string, files: Files)
    requires (g, files) in ExecuteAll(st, runs).delivered
    ensures (g, files) in st.delivered || exists i :: 0 <= i < |runs| && DeliveredBy(st, runs, i, g, files)
  {
    hide Prepare, AttachAll, FinishRun, AfterSteps;
    if runs != [] {
      var n := |runs| - 1;
      var rest := runs[..n];
      if (g, files) in ExecuteAll(st, rest).delivered {
        DeliveredMeansSomeRun(st, rest, g, files);
        if i :| 0 <= i < |rest| && DeliveredBy(st, rest, i, g, files) {
          assert rest[..i] == runs[..i];
          assert DeliveredBy(st, runs, i, g, files);
        }
      } else {
        assert DeliveredBy(st, runs, n, g, files);
      }
    }
  }

  /** The cache `d` belongs to, "" if it is no cache dataset. */
  function CacheOf(pool: string, d: string): string {
    FamilyIn(pool)(d)
  }

  ghost predicate NoCacheDatasets(pool: string, s: Store) {
    forall d :: d in s ==> CacheOf(pool, d) == ""
  }

  /**
   No poisoning. Start from any pool without cache datasets; whatever commands are refused and wherever
   agents die, each snapshot of a cache dataset is `@latest`, and its files are what a clone of that very
   cache held when some successful run of the history finished.
   */
  lemma {:induction false} NoPoisoning(pool: string, s: Store, runs: seq<Run>, d: string, i: nat)
    requires Local(FamilyIn(pool), s) && NoCacheDatasets(pool, s)
    requires forall k :: 0 <= k < |runs| ==> ValidRun(pool, runs[k])
    ensures var t := ExecuteAll(State(s, {}), runs).store;
      d in t && CacheOf(pool, d) != "" && i < |t[d].snaps| ==>
        && t[d].snaps[i].name == "latest"
        && exists k :: 0 <= k < |runs| && DeliveredBy(State(s, {}), runs, k, CacheOf(pool, d), t[d].snaps[i].files)
  {
    var st := State(s, {});
    var end := ExecuteAll(st, runs);
    if d in end.store && CacheOf(pool, d) != "" && i < |end.store[d].snaps| {
      HistoryDelivers(FamilyIn(pool), pool, s, runs, end, d);
      DeliveredMeansSomeRun(st, runs, CacheOf(pool, d), end.store[d].snaps[i].files);
    }
  }

  lemma {:induction false} HistoryDelivers(f: string -> string, pool: string, s: Store, runs: seq<Run>, end: State,
                                           d: string)
    requires f == FamilyIn(pool) && end == ExecuteAll(State(s, {}), runs)
    requires Local(f, s) && NoCacheDatasets(pool, s)
    requires forall k :: 0 <= k < |runs| ==> ValidRun(pool, runs[k])
    requires d in end.store && f(d) != ""
    ensures forall i :: 0 <= i < |end.store[d].snaps| ==>
      end.store[d].snaps[i].name == "latest" && (f(d), end.store[d].snaps[i].files) in end.delivered
  {
    assert forall x :: x in s ==> f(x) == CacheOf(pool, x);
    NoCachesYet(f, s);
    ExecuteAllKeepsInv(pool, State(s, {}), runs);
    SnapshotsAreDelivered(f, end, d);
  }

  lemma NoCachesYet(f: string -> string, s: Store)
    requires Local(f, s) && forall x :: x in s ==> f(x) == ""
    ensures Inv(f, State(s, {}))
  {
  }

  lemma SnapshotsAreDelivered(f: string -> string, st: State, d: string)
    requires Inv(f, st) && d in st.store && f(d) != ""
    ensures forall i :: 0 <= i < |st.store[d].snaps| ==>
      st.store[d].snaps[i].name == "latest" && (f(d), st.store[d].snaps[i].files) in st.delivered
  {
    var u := Sub(f, st.store, f(d));
    assert d in u && Good(u, For(st.delivered, f(d)));
  }
}
