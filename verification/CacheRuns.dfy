/**
 Whole runs with nothing going wrong, and what they do to the pool as a whole: the workspace comes and goes, each cache
 goes through the run as if it were alone, the others stay as they are, and the repository keeps its new checkout.
 */
module CacheRuns {
  import opened Outcomes
  import opened Zfs
  import opened Families
  import opened CacheNames
  import opened CachePath
  import opened CacheProtocol
  import opened CacheFrames
  import opened CacheCommit
  import opened CacheHistory

  /** Base and clone of the `i`-th cache of a run. */
  function BaseAt(r: Run, i: nat): string
    requires i < |r.caches|
  {
    Base(r.setup.Root(), r.caches[i].name)
  }

  function CloneAt(r: Run, i: nat): string
    requires i < |r.caches|
  {
    RunClone(r.setup.Root(), r.caches[i].name, r.setup.runId)
  }

  // ---- The workspace ----

  /** The repository's dataset, if there is one, holds a clone. */
  predicate Usable(s: Store, repo: string) {
    repo in s ==> Cloned(s, repo)
  }

  /** Runs of one repository have snapshots of their own, and none is a cache's. */
  lemma RunSnapsDistinct(u: Setup, v: Setup, base: string)
    requires u.pool == v.pool
    ensures u.RunSnap() == v.RunSnap() <==> u.slug == v.slug && u.runId == v.runId
    ensures u.RunSnap() != Latest(base)
  {
    WorkspaceNamesDistinct(u.pool, u.slug, v.slug);
    SameTail("run-", u.runId, v.runId);
    assert ("run-" + u.runId)[0] == 'r' && "latest"[0] == 'l';
  }

  /** Nothing of this run is in the pool yet. */
  ghost predicate FreshWorkspace(s: Store, u: Setup) {
    u.RunDs() !in s && u.RunDs() != u.Repo() && !HasSnap(s, u.RunSnap()) && Usable(s, u.Repo())
  }

  /** The repository dataset with the run's commit checked out. */
  function CheckedOut(s: Store, u: Setup, files: Tree): Store {
    s[u.Repo() := if u.Repo() in s then s[u.Repo()].(files := files) else Dataset(files, [], None, Inherited)]
  }

  /** The pool while the run's workspace exists; `d` is what the workspace has become. */
  function WithWorkspace(s: Store, u: Setup, files: Tree, d: Dataset): Store {
    var t := CheckedOut(s, u, files);
    var repo := t[u.Repo()];
    t[u.Repo() := repo.(snaps := repo.snaps + [Snap("run-" + u.runId, files)])][u.RunDs() := d]
  }

  function WorkspaceClone(u: Setup, files: Tree): Dataset {
    Dataset(files, [], Some(u.RunSnap()), Inherited)
  }

  lemma PutTwice(s: Store, ds: string, d: Dataset, e: Dataset)
    ensures s[ds := d][ds := e] == s[ds := e]
  {
  }

  /** What each of the commands of the first use does. */
  lemma FirstUseSteps(s: Store, repo: string, head: Tree, files: Tree)
    requires repo !in s
    ensures var d := Dataset(map[], [], None, Inherited);
      var t, v := s[repo := d], s[repo := d.(files := head)];
      && Apply(s, CreateParents(repo)) == Some(t) && Apply(t, GetMountpoint(repo)) == Some(t)
      && Apply(t, Chown(repo)) == Some(t) && Apply(t, GitClone(repo, head)) == Some(v)
      && Apply(v, Checkout(repo, files)) == Some(s[repo := d.(files := files)])
  {
    var d := Dataset(map[], [], None, Inherited);
    PutTwice(s, repo, d, d.(files := head));
    PutTwice(s, repo, d.(files := head), d.(files := files));
  }

  lemma CalmIssue(s: Store, c: Command, t: Store)
    requires Apply(s, c) == Some(t)
    ensures Issue(Calm(s), c) == Reply(Calm(t), true)
  {
  }

  lemma FirstUseCalm(s: Store, u: Setup, head: Tree, files: Tree)
    requires u.Repo() !in s
    ensures var repo, w := u.Repo(), Calm(s);
      && Issue(w, ListDataset(repo)) == Reply(w, false)
      && Then(Then(Then(Then(Issue(w, CreateParents(repo)), GetMountpoint(repo)), Chown(repo)), GitClone(repo, head)),
              Checkout(repo, files)) == Reply(Calm(CheckedOut(s, u, files)), true)
  {
    var repo := u.Repo();
    assert Issue(Calm(s), ListDataset(repo)) == Reply(Calm(s), false);
    FirstUseSteps(s, repo, head, files);
    hide Issue, Apply;
    var d := Dataset(map[], [], None, Inherited);
    var t, v := s[repo := d], s[repo := d.(files := head)];
    CalmIssue(s, CreateParents(repo), t);
    CalmIssue(t, GetMountpoint(repo), t);
    CalmIssue(t, Chown(repo), t);
    CalmIssue(t, GitClone(repo, head), v);
    CalmIssue(v, Checkout(repo, files), s[repo := d.(files := files)]);
  }

  lemma EnsureRepoCalm(s: Store, u: Setup, head: Tree, files: Tree)
    requires Usable(s, u.Repo())
    ensures EnsureRepo(Calm(s), u, head, files) == Reply(Calm(CheckedOut(s, u, files)), true)
  {
    hide RunAll, Issue;
    var repo := u.Repo();
    RunFive(Calm(s), CreateParents(repo), GetMountpoint(repo), Chown(repo), GitClone(repo, head),
            Checkout(repo, files));
    RunThree(Calm(s), GetMountpoint(repo), Fetch(repo), Checkout(repo, files));
    var t := CheckedOut(s, u, files);
    if repo in s {
      CalmIssue(s, ListDataset(repo), s);
      CalmIssue(s, GetMountpoint(repo), s);
      CalmIssue(s, Fetch(repo), s);
      CalmIssue(s, Checkout(repo, files), t);
    } else {
      FirstUseCalm(s, u, head, files);
    }
  }

  /** The pool between the snapshot and the clone. */
  function Snapped(s: Store, u: Setup, files: Tree): Store {
    var t := CheckedOut(s, u, files);
    t[u.Repo() := t[u.Repo()].(snaps := t[u.Repo()].snaps + [Snap("run-" + u.runId, files)])]
  }

  lemma SnapshotTaken(s: Store, u: Setup, files: Tree)
    requires FreshWorkspace(s, u)
    ensures Apply(CheckedOut(s, u, files), Snapshot(u.RunSnap())) == Some(Snapped(s, u, files))
  {
  }

  lemma SnapshotCloned(s: Store, u: Setup, files: Tree)
    requires FreshWorkspace(s, u)
    ensures var v, w := Snapped(s, u, files), WithWorkspace(s, u, files, WorkspaceClone(u, files));
      Apply(v, Clone(u.RunSnap(), u.RunDs(), Inherited)) == Some(w) && HasSnap(w, u.RunSnap())
  {
    var snaps := CheckedOut(s, u, files)[u.Repo()].snaps;
    LastSnapIndex(snaps, Snap("run-" + u.runId, files));
    var v := Snapped(s, u, files);
    assert v[u.Repo()].snaps[|snaps|].name == "run-" + u.runId;
    var w := WithWorkspace(s, u, files, WorkspaceClone(u, files));
    assert w[u.Repo()].snaps[|snaps|].name == "run-" + u.runId;
  }

  /** Destroying the latest snapshot undoes taking it if nothing was cloned from it. */
  lemma LastDropped(t: Store, ds: string, snap: Snap)
    requires ds in t && !HasName(t[ds].snaps, snap.name) && !HasDependents(t, SnapRef(ds, snap.name))
    ensures Apply(t[ds := t[ds].(snaps := t[ds].snaps + [snap])], DestroySnap(SnapRef(ds, snap.name))) == Some(t)
  {
    var snaps := t[ds].snaps;
    var all := snaps + [snap];
    var v := t[ds := t[ds].(snaps := all)];
    LastSnapIndex(snaps, snap);
    assert all[|snaps|].name == snap.name;
    assert HasSnap(v, SnapRef(ds, snap.name)) && !HasDependents(v, SnapRef(ds, snap.name));
    assert all[..|snaps|] + all[|snaps| + 1..] == snaps;
    assert v[ds := t[ds]] == t;
  }

  lemma SnapshotDropped(s: Store, u: Setup, files: Tree)
    requires FreshWorkspace(s, u) && Unreferenced(s, u)
    ensures Apply(Snapped(s, u, files), DestroySnap(u.RunSnap())) == Some(CheckedOut(s, u, files))
  {
    assert HasSnap(s, u.RunSnap()) <==> u.Repo() in s && HasName(s[u.Repo()].snaps, "run-" + u.runId);
    LastDropped(CheckedOut(s, u, files), u.Repo(), Snap("run-" + u.runId, files));
  }

  lemma PrepareCalm(s: Store, u: Setup, head: Tree, files: Tree)
    requires FreshWorkspace(s, u)
    ensures Prepare(Calm(s), u, head, files)
         == Reply(Calm(WithWorkspace(s, u, files, WorkspaceClone(u, files))), true)
  {
    EnsureRepoCalm(s, u, head, files);
    SnapshotTaken(s, u, files);
    SnapshotCloned(s, u, files);
    RunTwo(Calm(WithWorkspace(s, u, files, WorkspaceClone(u, files))), GetMountpoint(u.RunDs()), Chown(u.RunDs()));
  }

  lemma {:induction false} LastSnapIndex(snaps: seq<Snap>, snap: Snap)
    requires !HasName(snaps, snap.name)
    ensures SnapIndex(snaps + [snap], snap.name) == |snaps|
  {
    var all := snaps + [snap];
    var i := SnapIndex(all, snap.name);
    assert all[|snaps|].name == snap.name;
    assert forall k :: 0 <= k < |snaps| ==> all[k] == snaps[k] && all[k].name != snap.name;
  }

  /** Nothing points at the run's workspace or its snapshot but the workspace itself. */
  ghost predicate Unreferenced(s: Store, u: Setup) {
    forall d :: d in s && s[d].origin.Some? ==> s[d].origin.value.ds != u.RunDs() && s[d].origin.value != u.RunSnap()
  }

  /** Clone first, then the snapshot it came from: both go, and the pool is as if the run had only fetched. */
  lemma CleanupCalm(s: Store, u: Setup, files: Tree, d: Dataset)
    requires FreshWorkspace(s, u) && Unreferenced(s, u)
    ensures Cleanup(Calm(WithWorkspace(s, u, files, d)), u) == Calm(CheckedOut(s, u, files))
  {
    WorkspaceDropped(s, u, files, d);
    SnapshotDropped(s, u, files);
  }

  lemma WorkspaceDropped(s: Store, u: Setup, files: Tree, d: Dataset)
    requires FreshWorkspace(s, u) && Unreferenced(s, u)
    ensures Apply(WithWorkspace(s, u, files, d), DestroyAll(u.RunDs())) == Some(Snapped(s, u, files))
  {
    var w := WithWorkspace(s, u, files, d);
    assert !HeldFromOutside(w, u.RunDs());
    assert w - {u.RunDs()} == Snapped(s, u, files);
  }

  // ---- All caches of a run ----

  /** Attaching succeeds as long as the clone's name is free. */
  lemma AttachOneCalm(w: World, u: Setup, c: Cache)
    requires Quiet(w) && RunClone(u.Root(), c.name, u.runId) !in w.store
    ensures AttachOne(w, u, c).ok
  {
    var listed := Issue(w, ListSnap(Latest(Base(u.Root(), c.name))));
    var made := Issue(listed.world, Provision(u, c, listed.ok));
    assert made.ok && RunClone(u.Root(), c.name, u.runId) in made.world.store;
    SettleRuns(made.world, CloneFor(u, c, listed.ok));
  }

  lemma SameMembers(f: string -> string, s: Store, t: Store, g: string, d: string)
    requires Sub(f, t, g) == Sub(f, s, g) && f(d) == g
    ensures d in s <==> d in t
  {
    assert d in s <==> d in Sub(f, s, g);
    assert d in t <==> d in Sub(f, t, g);
  }

  lemma {:induction false} AttachEachCalm(f: string -> string, w: World, u: Setup, caches: seq<Cache>)
    requires Quiet(w) && Local(f, w.store) && Declared(f, u, caches)
    requires forall i :: 0 <= i < |caches| ==> RunClone(u.Root(), caches[i].name, u.runId) !in w.store
    ensures AttachEach(w, u, caches).ok && Quiet(AttachEach(w, u, caches).world)
  {
    AttachEachLeaves(f, w, u, caches);
    if caches != [] {
      var n := |caches| - 1;
      var rest := caches[..n];
      assert forall k :: 0 <= k < n ==> rest[k] == caches[k];
      AttachEachCalm(f, w, u, rest);
      AttachEachLeaves(f, w, u, rest);
      var done := AttachEach(w, u, rest);
      var base, clone := Base(u.Root(), caches[n].name), RunClone(u.Root(), caches[n].name, u.runId);
      assert DeclaredOne(f, u, caches[n]);
      assert Sub(f, done.world.store, base) == Sub(f, w.store, base);
      SameMembers(f, w.store, done.world.store, base, clone);
      hide Sub, Local, Declared;
      AttachOneCalm(done.world, u, caches[n]);
    }
  }

  /** Everything a run forms is new to the pool, and nothing in the pool refers to it. */
  ghost predicate FreshRun(f: string -> string, s: Store, r: Run) {
    && Local(f, s) && Declared(f, r.setup, r.caches)
    && FreshWorkspace(s, r.setup) && Unreferenced(s, r.setup)
    && r.setup.Root() != r.setup.Repo() && r.setup.Root() != r.setup.RunDs()
    && FreshCaches(f, s, r)
  }

  function WithRoot(s: Store, r: Run): Store {
    if r.caches == [] || r.setup.Root() in s then s
    else s[r.setup.Root() := Dataset(map[], [], None, Inherited)]
  }

  /** The world once the workspace is there and the cache root exists. */
  function Provisioned(s: Store, r: Run): Store {
    WithRoot(WithWorkspace(s, r.setup, r.files, WorkspaceClone(r.setup, r.files)), r)
  }

  lemma WorkspaceFamilies(f: string -> string, s: Store, u: Setup, files: Tree, d: Dataset)
    requires f(u.Repo()) == "" && f(u.RunDs()) == ""
    ensures Sub(f, WithWorkspace(s, u, files, d), "") == WithWorkspace(Sub(f, s, ""), u, files, d)
  {
  }

  lemma RootFamilies(f: string -> string, s: Store, r: Run)
    requires Local(f, s) && f(r.setup.Root()) == ""
    ensures Local(f, WithRoot(s, r))
    ensures forall g :: g != "" ==> Sub(f, WithRoot(s, r), g) == Sub(f, s, g)
    ensures Sub(f, WithRoot(s, r), "") == WithRoot(Sub(f, s, ""), r)
  {
  }

  lemma RootCommutes(s: Store, r: Run, d: Dataset)
    requires r.setup.Root() != r.setup.Repo() && r.setup.Root() != r.setup.RunDs()
    ensures WithRoot(WithWorkspace(s, r.setup, r.files, d), r) == WithWorkspace(WithRoot(s, r), r.setup, r.files, d)
  {
  }

  lemma ProvisionedFamilies(f: string -> string, s: Store, r: Run)
    requires FreshRun(f, s, r)
    ensures var t := Provisioned(s, r);
      && Local(f, t)
      && (forall g :: g != "" ==> Sub(f, t, g) == Sub(f, s, g))
      && Sub(f, t, "") == WithWorkspace(WithRoot(Sub(f, s, ""), r), r.setup, r.files,
                                        WorkspaceClone(r.setup, r.files))
  {
    var u, d := r.setup, WorkspaceClone(r.setup, r.files);
    var w := WithWorkspace(s, u, r.files, d);
    PrepareCalm(s, u, r.head, r.files);
    PrepareFrame(f, Calm(s), u, r.head, r.files);
    WorkspaceFamilies(f, s, u, r.files, d);
    RootFamilies(f, w, r);
    RootCommutes(Sub(f, s, ""), r, d);
  }

  /** What attaching, the steps and committing or discarding do to the pool. */
  function MiddleWorld(s: Store, r: Run): World {
    var a := AttachEach(Calm(s), r.setup, r.caches);
    FinishEach(AfterSteps(r, a), r.setup.runId, a.caches, r.success)
  }

  function Middle(s: Store, r: Run): Store {
    MiddleWorld(s, r).store
  }

  lemma AttachAllCalm(s: Store, r: Run)
    ensures AttachAll(Calm(s), r.setup, r.caches) == AttachEach(Calm(WithRoot(s, r)), r.setup, r.caches)
  {
  }

  /** From `s` to `t`, each cache of the run went through it as if alone, other caches are untouched. */
  ghost predicate CachesSeen(f: string -> string, s: Store, t: Store, r: Run) {
    && (forall i :: 0 <= i < |r.caches| ==> CacheSeen(f, s, t, r, i))
    && (forall g :: g != "" && NotOf(r, g) ==> Sub(f, t, g) == Sub(f, s, g))
  }

  ghost predicate CacheSeen(f: string -> string, s: Store, t: Store, r: Run, i: nat)
    requires i < |r.caches|
  {
    var base := BaseAt(r, i);
    Sub(f, t, base) == LoneRun(Sub(f, s, base), r.setup, r.caches[i], r.work, r.success).world.store
  }

  ghost predicate NotOf(r: Run, g: string) {
    forall i :: 0 <= i < |r.caches| ==> BaseAt(r, i) != g
  }

  ghost predicate FreshCaches(f: string -> string, s: Store, r: Run) {
    forall i :: 0 <= i < |r.caches| ==>
      FreshFor(Sub(f, s, BaseAt(r, i)), r.setup, r.caches[i])
  }

  /** Attaching a calm run, and what its clones are. */
  lemma AttachedCalm(f: string -> string, s: Store, r: Run)
    requires Local(f, s) && Declared(f, r.setup, r.caches) && FreshCaches(f, s, r)
    ensures var a := AttachEach(Calm(s), r.setup, r.caches);
      && a.ok && Quiet(a.world) && |a.caches| == |r.caches|
      && Local(f, a.world.store) && Local(f, AfterSteps(r, a).store) && Quiet(AfterSteps(r, a))
      && AllOwned(f, a.caches, r.setup.runId) && DistinctBases(a.caches)
      && (forall i :: 0 <= i < |a.caches| ==> a.caches[i].base == BaseAt(r, i) != "")
      && (forall g :: NotOf(r, g) ==> Sub(f, a.world.store, g) == Sub(f, s, g))
  {
    hide Worked, AttachEach;
    var u := r.setup;
    var a := AttachEach(Calm(s), u, r.caches);
    forall i | 0 <= i < |r.caches| ensures RunClone(u.Root(), r.caches[i].name, u.runId) !in s {
      assert DeclaredOne(f, u, r.caches[i]);
    }
    AttachEachCalm(f, Calm(s), u, r.caches);
    AttachEachLeaves(f, Calm(s), u, r.caches);
    ClonesAreOwned(f, u, r.caches, a.caches);
    WorkIsLocal(f, a.world.store, Clones(a.caches) + {u.RunDs()}, r.work);
    forall g | NotOf(r, g) ensures Sub(f, a.world.store, g) == Sub(f, s, g) {
      assert forall i :: 0 <= i < |a.caches| ==> a.caches[i].base != g;
    }
  }

  lemma MiddleFamilies(f: string -> string, s: Store, r: Run)
    requires Local(f, s) && Declared(f, r.setup, r.caches) && FreshCaches(f, s, r)
    ensures AttachEach(Calm(s), r.setup, r.caches).ok
    ensures Local(f, Middle(s, r)) && CachesSeen(f, s, Middle(s, r), r)
    ensures Sub(f, Middle(s, r), "") == Worked(Sub(f, s, ""), {r.setup.RunDs()}, r.work)
    ensures MiddleWorld(s, r) == Calm(Middle(s, r))
  {
    hide Sub, Local, Worked, FreshCaches, AttachEach;
    var u := r.setup;
    var a := AttachEach(Calm(s), u, r.caches);
    AttachedCalm(f, s, r);
    var w := AfterSteps(r, a);
    FinishEachLeaves(f, w, u.runId, a.caches, r.success);
    var t := Middle(s, r);
    forall i | 0 <= i < |r.caches| ensures CacheSeen(f, s, t, r, i) {
      MiddleOfOne(f, s, r, i);
    }
    forall g | NotOf(r, g)
      ensures Sub(f, t, g) == if g == "" then Worked(Sub(f, s, g), {u.RunDs()}, r.work) else Sub(f, s, g)
    {
      assert forall i :: 0 <= i < |a.caches| ==> a.caches[i].base != g;
      WorkElsewhere(f, a.world.store, a.caches, u, r.work, g);
    }
    assert NotOf(r, "") by {
      assert forall i :: 0 <= i < |r.caches| ==> a.caches[i].base == Base(u.Root(), r.caches[i].name);
    }
  }

  lemma ClonesAreOwned(f: string -> string, u: Setup, caches: seq<Cache>, clones: seq<CacheClone>)
    requires Declared(f, u, caches) && |clones| == |caches|
    requires forall i :: 0 <= i < |clones| ==> clones[i] == CloneFor(u, caches[i], clones[i].restored)
    ensures AllOwned(f, clones, u.runId) && DistinctBases(clones)
  {
  }

  lemma WorkIsLocal(f: string -> string, s: Store, touched: set<string>, work: (string, Files) -> Files)
    requires Local(f, s)
    ensures Local(f, Worked(s, touched, work))
  {
  }

  /** The steps write to a family only through its own clone, or through the workspace. */
  lemma WorkElsewhere(f: string -> string, s: Store, caches: seq<CacheClone>, u: Setup,
                      work: (string, Files) -> Files, g: string)
    requires AllOwned(f, caches, u.runId) && f(u.RunDs()) == ""
    requires forall i :: 0 <= i < |caches| ==> caches[i].base != g
    ensures Sub(f, Worked(s, Clones(caches) + {u.RunDs()}, work), g)
         == if g == "" then Worked(Sub(f, s, g), {u.RunDs()}, work) else Sub(f, s, g)
  {
  }

  lemma WorkOnOne(f: string -> string, s: Store, caches: seq<CacheClone>, u: Setup,
                  work: (string, Files) -> Files, i: nat)
    requires AllOwned(f, caches, u.runId) && DistinctBases(caches) && f(u.RunDs()) == "" && i < |caches|
    ensures Sub(f, Worked(s, Clones(caches) + {u.RunDs()}, work), caches[i].base)
         == Worked(Sub(f, s, caches[i].base), {caches[i].clone}, work)
  {
  }

  lemma MiddleOfOne(f: string -> string, s: Store, r: Run, i: nat)
    requires Local(f, s) && Declared(f, r.setup, r.caches) && i < |r.caches|
    requires FreshCaches(f, s, r)
    ensures var base := BaseAt(r, i);
      Sub(f, Middle(s, r), base) == LoneRun(Sub(f, s, base), r.setup, r.caches[i], r.work, r.success).world.store
  {
    hide Issue, Commit, AttachOne, AttachEach, FinishEach, Local, Owned;
    var u := r.setup;
    var base := Base(u.Root(), r.caches[i].name);
    var a := AttachEach(Calm(s), u, r.caches);
    AttachedCalm(f, s, r);
    var w1 := AttachEachAt(f, Calm(s), u, r.caches, i);
    assert w1 == Calm(Sub(f, s, base));
    AttachOneCalm(w1, u, r.caches[i]);
    var w := AfterSteps(r, a);
    WorkOnOne(f, a.world.store, a.caches, u, r.work, i);
    var w2 := FinishEachAt(f, w, u.runId, a.caches, r.success, i);
    assert w2 == Calm(Worked(AttachOne(w1, u, r.caches[i]).world.store, {a.caches[i].clone}, r.work));
  }

  /**
   A run with nothing going wrong, seen from every part of the pool: each of its caches goes through the
   run as if it were alone, every other cache is untouched, and of the workspace nothing remains but the
   repository with the commit checked out and the cache root.
   */
  lemma CalmRun(f: string -> string, st: State, r: Run)
    requires r.fates == [] && FreshRun(f, st.store, r)
    ensures var t := Execute(st, r).store;
      && Local(f, t) && CachesSeen(f, st.store, t, r)
      && Sub(f, t, "") == CheckedOut(WithRoot(Sub(f, st.store, ""), r), r.setup, r.files)
  {
    var q := Provisioned(st.store, r);
    ProvisionedFamilies(f, st.store, r);
    BasesAreNamed(f, r);
    assert FreshCaches(f, q, r);
    MiddleFamilies(f, q, r);
    CalmRunIs(st, r);
    CleanupSeen(f, Calm(Middle(q, r)), r.setup);
    TornDown(f, st.store, r);
    var t := Execute(st, r).store;
    forall i | 0 <= i < |r.caches| ensures CacheSeen(f, st.store, t, r, i) {
      assert CacheSeen(f, q, Middle(q, r), r, i);
    }
  }

  lemma CalmRunIs(st: State, r: Run)
    requires r.fates == [] && FreshWorkspace(st.store, r.setup)
    ensures var q := Provisioned(st.store, r);
      AttachEach(Calm(q), r.setup, r.caches).ok && MiddleWorld(q, r) == Calm(Middle(q, r)) ==>
        Execute(st, r).store == Cleanup(Calm(Middle(q, r)), r.setup).store
  {
    PrepareCalm(st.store, r.setup, r.head, r.files);
    AttachAllCalm(WithWorkspace(st.store, r.setup, r.files, WorkspaceClone(r.setup, r.files)), r);
  }

  lemma BasesAreNamed(f: string -> string, r: Run)
    requires Declared(f, r.setup, r.caches)
    ensures forall i :: 0 <= i < |r.caches| ==> BaseAt(r, i) != ""
  {
  }

  /** The workspace part of the pool after the cleanup. */
  lemma TornDown(f: string -> string, s: Store, r: Run)
    requires FreshRun(f, s, r)
    requires var m := Middle(Provisioned(s, r), r);
      Sub(f, m, "") == Worked(Sub(f, Provisioned(s, r), ""), {r.setup.RunDs()}, r.work)
    ensures Cleanup(Calm(Sub(f, Middle(Provisioned(s, r), r), "")), r.setup).store
         == CheckedOut(WithRoot(Sub(f, s, ""), r), r.setup, r.files)
  {
    var u := r.setup;
    ProvisionedFamilies(f, s, r);
    var s0 := WithRoot(Sub(f, s, ""), r);
    assert FreshWorkspace(s0, u) && Unreferenced(s0, u);
    WorkOnWorkspace(s0, r);
    CleanupCalm(s0, u, r.files, WorkspaceClone(u, r.files).(files := r.work(u.RunDs(), r.files)));
  }

  lemma WorkOnWorkspace(s: Store, r: Run)
    requires FreshWorkspace(s, r.setup)
    ensures var w := WorkspaceClone(r.setup, r.files);
      Worked(WithWorkspace(s, r.setup, r.files, w), {r.setup.RunDs()}, r.work)
        == WithWorkspace(s, r.setup, r.files, w.(files := r.work(r.setup.RunDs(), r.files)))
  {
  }

  lemma CleanupSeen(f: string -> string, w: World, u: Setup)
    requires Local(f, w.store) && f(u.Repo()) == "" && f(u.RunDs()) == ""
    ensures OnlyTouched(f, w.store, Cleanup(w, u).store, "")
    ensures Sub(f, Cleanup(w, u).store, "") == Cleanup(On(f, w, ""), u).store
  {
    IssueFrame(f, w, DestroyAll(u.RunDs()), "");
    IssueFrame(f, Issue(w, DestroyAll(u.RunDs())).world, DestroySnap(u.RunSnap()), "");
  }
}
