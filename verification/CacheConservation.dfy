/** What a failed run leaves in the pool, and what a workspace that could not be prepared leaves. */
module CacheConservation {
  import opened Outcomes
  import opened Zfs
  import opened Families
  import opened CacheNames
  import opened CachePath
  import opened CacheProtocol
  import opened CacheFrames
  import opened CacheShape
  import opened CacheCommit
  import opened CacheCrash
  import opened CacheHistory
  import opened CacheRuns

  /** A store is the sum of its families. */
  lemma FamiliesDetermine(f: string -> string, s: Store, t: Store)
    requires forall g :: Sub(f, s, g) == Sub(f, t, g)
    ensures s == t
  {
    forall d ensures d in s <==> d in t {
      assert d in s <==> d in Sub(f, s, f(d));
      assert d in t <==> d in Sub(f, t, f(d));
    }
    forall d | d in s ensures s[d] == t[d] {
      assert s[d] == Sub(f, s, f(d))[d] && t[d] == Sub(f, t, f(d))[d];
    }
  }

  /** However attaching one cache went, it has added its clone or nothing. */
  lemma AttachAddsLeaf(w: World, u: Setup, c: Cache)
    ensures var r := AttachOne(w, u, c);
      var clone := RunClone(u.Root(), c.name, u.runId);
      r.caches != [] ==>
        && clone !in w.store && clone in r.world.store
        && r.world.store[clone].snaps == []
        && r.world.store == w.store[clone := r.world.store[clone]]
        && r.caches[0].clone == clone && r.caches[0].base == Base(u.Root(), c.name)
  {
    hide RunAll;
    var listed := Issue(w, ListSnap(Latest(Base(u.Root(), c.name))));
    var made := Issue(listed.world, Provision(u, c, listed.ok));
    if made.ok {
      SettlingChangesNothing(made.world, CloneFor(u, c, listed.ok));
    }
  }

  lemma DiscardRestores(t: Store, clone: string, d: Dataset, w: World)
    requires Quiet(w) && w.store == t[clone := d]
    requires clone !in t && forall x :: x in t && t[x].origin.Some? ==> t[x].origin.value.ds != clone
    ensures Issue(w, DestroyAll(clone)).world.store == t
  {
  }

  /** Nothing in the pool was cloned from a dataset of this run. */
  ghost predicate UnreferencedClones(s: Store, r: Run) {
    forall d, i :: d in s && s[d].origin.Some? && 0 <= i < |r.caches| ==> s[d].origin.value.ds != CloneAt(r, i)
  }

  /** Discarding undoes attaching, cache by cache, whatever failed while attaching. */
  lemma {:induction false} DiscardUndoesAttach(f: string -> string, w: World, r: Run, g: string)
    requires Local(f, w.store) && Declared(f, r.setup, r.caches) && UnreferencedClones(w.store, r)
    ensures var a := AttachEach(w, r.setup, r.caches);
      var v := Calm(AfterSteps(r, a).store);
      var t := FinishEach(v, r.setup.runId, a.caches, false);
      && Local(f, t.store) && t == Calm(t.store)
      && Sub(f, t.store, g) == (if g == "" && a.ok then Worked(Sub(f, w.store, g), {r.setup.RunDs()}, r.work)
                                else Sub(f, w.store, g))
  {
    var u := r.setup;
    var a := AttachEach(w, u, r.caches);
    AttachEachLeaves(f, w, u, r.caches);
    OwnedPrefix(f, u, r.caches, a.caches);
    WorkIsLocal(f, a.world.store, Clones(a.caches) + {u.RunDs()}, r.work);
    var v := Calm(AfterSteps(r, a).store);
    FinishEachLeaves(f, v, u.runId, a.caches, false);
    if i :| 0 <= i < |a.caches| && a.caches[i].base == g {
      DiscardOne(f, w, r, i);
    } else {
      assert forall i :: 0 <= i < |a.caches| ==> a.caches[i].base != g;
      WorkElsewhere(f, a.world.store, a.caches, u, r.work, g);
    }
  }

  lemma OwnedPrefix(f: string -> string, u: Setup, caches: seq<Cache>, clones: seq<CacheClone>)
    requires Declared(f, u, caches) && |clones| <= |caches|
    requires forall i :: 0 <= i < |clones| ==> clones[i] == CloneFor(u, caches[i], clones[i].restored)
    ensures AllOwned(f, clones, u.runId) && DistinctBases(clones)
    ensures forall i :: 0 <= i < |clones| ==> clones[i].base != ""
  {
  }

  lemma {:induction false} DiscardOne(f: string -> string, w: World, r: Run, i: nat)
    requires Local(f, w.store) && Declared(f, r.setup, r.caches) && UnreferencedClones(w.store, r)
    requires i < |AttachEach(w, r.setup, r.caches).caches| <= |r.caches|
    ensures var a := AttachEach(w, r.setup, r.caches);
      Sub(f, FinishEach(Calm(AfterSteps(r, a).store), r.setup.runId, a.caches, false).store, a.caches[i].base)
        == Sub(f, w.store, a.caches[i].base)
  {
    var u := r.setup;
    var a := AttachEach(w, u, r.caches);
    AttachEachLeaves(f, w, u, r.caches);
    OwnedPrefix(f, u, r.caches, a.caches);
    var c := a.caches[i];
    var d := LeafOfOne(f, w, r, i);
    var v := Calm(AfterSteps(r, a).store);
    WorkIsLocal(f, a.world.store, Clones(a.caches) + {u.RunDs()}, r.work);
    WorkOnOne(f, a.world.store, a.caches, u, r.work, i);
    var w2 := FinishEachAt(f, v, u.runId, a.caches, false, i);
    LeafWorked(Sub(f, w.store, c.base), c.clone, d, r.work);
    var d' := if a.ok then d.(files := r.work(c.clone, d.files)) else d;
    DiscardRestores(Sub(f, w.store, c.base), c.clone, d', w2);
  }

  lemma LeafWorked(t: Store, clone: string, d: Dataset, work: (string, Files) -> Files)
    requires clone !in t
    ensures Worked(t[clone := d], {clone}, work) == t[clone := d.(files := work(clone, d.files))]
  {
  }

  /** The clone attached for cache `i`: new to the cache, with nothing depending on it. */
  lemma LeafOfOne(f: string -> string, w: World, r: Run, i: nat) returns (d: Dataset)
    requires Local(f, w.store) && Declared(f, r.setup, r.caches) && UnreferencedClones(w.store, r)
    requires i < |AttachEach(w, r.setup, r.caches).caches| <= |r.caches|
    ensures var a := AttachEach(w, r.setup, r.caches);
      var t := Sub(f, w.store, a.caches[i].base);
      && a.caches[i].clone !in t
      && (forall x :: x in t && t[x].origin.Some? ==> t[x].origin.value.ds != a.caches[i].clone)
      && Sub(f, a.world.store, a.caches[i].base) == t[a.caches[i].clone := d]
  {
    var u := r.setup;
    var w1 := AttachEachAt(f, w, u, r.caches, i);
    AttachAddsLeaf(w1, u, r.caches[i]);
    d := AttachOne(w1, u, r.caches[i]).world.store[CloneAt(r, i)];
  }

  // ---- The whole run ----

  /** The pool after attaching (with any `fates`), the steps, and finishing the run as failed. */
  function AfterFailure(p: Store, r: Run, fates: seq<Fate>): Store {
    var a := AttachAll(World(p, fates, true), r.setup, r.caches);
    FinishRun(Calm(AfterSteps(r, a).store), r.setup, a.caches, false).store
  }

  /**
   Conservation. However attaching failed, and whatever the steps did if it did not: a run that ends as a
   failure, its teardown undisturbed, leaves the pool as it was but for the commit checked out in the
   repository and perhaps the new, empty cache root. No clone and no snapshot of it remains.
   */
  lemma FailedRunLeavesNothing(f: string -> string, s: Store, r: Run, fates: seq<Fate>)
    requires FreshRun(f, s, r) && OriginsExist(s)
    ensures var p := WithWorkspace(s, r.setup, r.files, WorkspaceClone(r.setup, r.files));
      var t := AfterFailure(p, r, fates);
      t == CheckedOut(s, r.setup, r.files) || t == CheckedOut(WithRoot(s, r), r.setup, r.files)
  {
    var p := WithWorkspace(s, r.setup, r.files, WorkspaceClone(r.setup, r.files));
    var root := Issue(World(p, fates, true), CreateParents(r.setup.Root()));
    if r.caches == [] {
      FailureWithoutRoot(f, s, r, fates);
    } else if !root.ok {
      StoppedAtRoot(f, s, r, fates);
    } else {
      FailureWithRoot(f, s, r, root.world);
    }
  }

  lemma FailureWithoutRoot(f: string -> string, s: Store, r: Run, fates: seq<Fate>)
    requires FreshRun(f, s, r) && OriginsExist(s) && r.caches == []
    ensures var p := WithWorkspace(s, r.setup, r.files, WorkspaceClone(r.setup, r.files));
      AfterFailure(p, r, fates) == CheckedOut(s, r.setup, r.files)
  {
    var p := WithWorkspace(s, r.setup, r.files, WorkspaceClone(r.setup, r.files));
    ProvisionedFamilies(f, s, r);
    assert Provisioned(s, r) == p;
    NoCloneReferenced(f, s, p, r);
    FailureFrom(f, s, p, s, World(p, fates, true), r);
  }

  lemma {:induction false} FailureWithRoot(f: string -> string, s: Store, r: Run, w: World)
    requires FreshRun(f, s, r) && OriginsExist(s) && r.caches != [] && w.store == Provisioned(s, r)
    ensures var a := AttachEach(w, r.setup, r.caches);
      FinishRun(Calm(AfterSteps(r, a).store), r.setup, a.caches, false).store
        == CheckedOut(WithRoot(s, r), r.setup, r.files)
  {
    var d := WorkspaceClone(r.setup, r.files);
    ProvisionedFamilies(f, s, r);
    NoCloneReferenced(f, s, WithWorkspace(s, r.setup, r.files, d), r);
    RootCommutes(s, r, d);
    RootFamilies(f, s, r);
    FailureFrom(f, s, w.store, WithRoot(s, r), w, r);
  }

  lemma NoCloneReferenced(f: string -> string, s: Store, p: Store, r: Run)
    requires FreshRun(f, s, r) && OriginsExist(s)
    requires p == WithWorkspace(s, r.setup, r.files, WorkspaceClone(r.setup, r.files))
    ensures UnreferencedClones(p, r) && UnreferencedClones(Provisioned(s, r), r)
  {
    forall d, i | d in p && p[d].origin.Some? && 0 <= i < |r.caches|
      ensures p[d].origin.value.ds != CloneAt(r, i)
    {
      CloneIsNew(f, s, r, i);
      OriginsWithWorkspace(s, r.setup, r.files, d);
    }
  }

  lemma CloneIsNew(f: string -> string, s: Store, r: Run, i: nat)
    requires FreshRun(f, s, r) && i < |r.caches|
    ensures CloneAt(r, i) !in s && CloneAt(r, i) != r.setup.Repo()
  {
  }

  lemma OriginsWithWorkspace(s: Store, u: Setup, files: Tree, d: string)
    requires OriginsExist(s)
    ensures var p := WithWorkspace(s, u, files, WorkspaceClone(u, files));
      d in p && p[d].origin.Some? ==> p[d].origin.value.ds in s || p[d].origin.value.ds == u.Repo()
  {
  }

  /** From the world `w` with the workspace `q` over the pool `s1` in place. */
  lemma {:induction false} FailureFrom(f: string -> string, s: Store, q: Store, s1: Store, w: World, r: Run)
    requires FreshRun(f, s, r) && Local(f, q) && UnreferencedClones(q, r) && w.store == q
    requires q == WithWorkspace(s1, r.setup, r.files, WorkspaceClone(r.setup, r.files))
    requires s1 == s || s1 == WithRoot(s, r)
    requires forall g :: g != "" ==> Sub(f, q, g) == Sub(f, s1, g)
    ensures var a := AttachEach(w, r.setup, r.caches);
      FinishRun(Calm(AfterSteps(r, a).store), r.setup, a.caches, false).store == CheckedOut(s1, r.setup, r.files)
  {
    var u := r.setup;
    var a := AttachEach(w, u, r.caches);
    var m := FinishEach(Calm(AfterSteps(r, a).store), u.runId, a.caches, false);
    forall g ensures Sub(f, Cleanup(m, u).store, g) == Sub(f, CheckedOut(s1, u, r.files), g) {
      DiscardUndoesAttach(f, w, r, g);
      AfterDiscard(f, s, q, s1, m, a.ok, r, g);
    }
    FamiliesDetermine(f, Cleanup(m, u).store, CheckedOut(s1, u, r.files));
  }

  /** With its caches discarded (`m`), tearing the workspace down leaves family `g` as it was before the run. */
  lemma AfterDiscard(f: string -> string, s: Store, q: Store, s1: Store, m: World, worked: bool, r: Run, g: string)
    requires FreshRun(f, s, r) && Local(f, m.store) && m == Calm(m.store)
    requires q == WithWorkspace(s1, r.setup, r.files, WorkspaceClone(r.setup, r.files))
    requires s1 == s || s1 == WithRoot(s, r)
    requires g != "" ==> Sub(f, q, g) == Sub(f, s1, g)
    requires Sub(f, m.store, g) ==
      if g == "" && worked then Worked(Sub(f, q, g), {r.setup.RunDs()}, r.work) else Sub(f, q, g)
    ensures Sub(f, Cleanup(m, r.setup).store, g) == Sub(f, CheckedOut(s1, r.setup, r.files), g)
  {
    CleanupSeen(f, m, r.setup);
    if g == "" {
      WorkspaceGone(f, s1, m.store, worked, r);
    }
  }

  lemma WorkspaceGone(f: string -> string, s1: Store, m: Store, worked: bool, r: Run)
    requires f(r.setup.Repo()) == "" && f(r.setup.RunDs()) == ""
    requires FreshWorkspace(s1, r.setup) && Unreferenced(s1, r.setup)
    requires var q := Sub(f, WithWorkspace(s1, r.setup, r.files, WorkspaceClone(r.setup, r.files)), "");
      Sub(f, m, "") == if worked then Worked(q, {r.setup.RunDs()}, r.work) else q
    ensures Cleanup(On(f, Calm(m), ""), r.setup).store == Sub(f, CheckedOut(s1, r.setup, r.files), "")
  {
    var u, d := r.setup, WorkspaceClone(r.setup, r.files);
    var s0 := Sub(f, s1, "");
    assert FreshWorkspace(s0, u) && Unreferenced(s0, u);
    WorkspaceFamilies(f, s1, u, r.files, d);
    WorkOnWorkspace(s0, r);
    CleanupCalm(s0, u, r.files, if worked then d.(files := r.work(u.RunDs(), r.files)) else d);
    assert Sub(f, CheckedOut(s1, u, r.files), "") == CheckedOut(s0, u, r.files);
  }

  lemma StoppedAtRoot(f: string -> string, s: Store, r: Run, fates: seq<Fate>)
    requires FreshRun(f, s, r) && r.caches != []
    requires var p := WithWorkspace(s, r.setup, r.files, WorkspaceClone(r.setup, r.files));
      !Issue(World(p, fates, true), CreateParents(r.setup.Root())).ok
    ensures var p := WithWorkspace(s, r.setup, r.files, WorkspaceClone(r.setup, r.files));
      AfterFailure(p, r, fates) == CheckedOut(s, r.setup, r.files)
  {
    CleanupCalm(s, r.setup, r.files, WorkspaceClone(r.setup, r.files));
  }

  // ---- Workspaces that could not be prepared ----

  /** How many commands it takes to have the commit checked out: on first use the repository is cloned. */
  function RepoCommands(s: Store, u: Setup): nat {
    if u.Repo() in s then 4 else 6
  }

  /**
   After those, commands 0 and 1 snapshot and clone, 2 and 3 read and chown the clone's mountpoint. If the
   clone is refused its snapshot is removed again; if one of the later two is, the clone and its snapshot stay
   behind, since a run whose workspace was not prepared is never finished.
   */
  lemma RefusedWorkspace(s: Store, u: Setup, head: Tree, files: Tree, k: nat)
    requires FreshWorkspace(s, u) && Unreferenced(s, u) && k <= 3
    ensures var r := Prepare(Until(s, RepoCommands(s, u) + k, Refused), u, head, files);
      && !r.ok
      && r.world.store == (if k <= 1 then CheckedOut(s, u, files)
                           else WithWorkspace(s, u, files, WorkspaceClone(u, files)))
      && (u.RunDs() in r.world.store <==> k >= 2)
      && (HasSnap(r.world.store, u.RunSnap()) <==> k >= 2)
  {
    var t := CheckedOut(s, u, files);
    RepoObeyed(s, u, head, files, k);
    IssueUntil(t, k, Refused, Snapshot(u.RunSnap()));
    assert !HasSnap(t, u.RunSnap());
    if k > 0 {
      RefusedAfterSnapshot(s, u, files, k);
    }
  }

  lemma RepoObeyed(s: Store, u: Setup, head: Tree, files: Tree, k: nat)
    requires Usable(s, u.Repo())
    ensures EnsureRepo(Until(s, RepoCommands(s, u) + k, Refused), u, head, files)
         == Reply(Until(CheckedOut(s, u, files), k, Refused), true)
  {
    hide Issue, RunAll;
    IssueUntil(s, RepoCommands(s, u) + k, Refused, ListDataset(u.Repo()));
    if u.Repo() in s {
      FetchObeyed(s, u.Repo(), files, 3 + k);
    } else {
      CloneObeyed(s, u.Repo(), head, files, 5 + k);
    }
  }

  lemma CloneObeyed(s: Store, repo: string, head: Tree, files: Tree, k: nat)
    requires repo !in s && k >= 5
    ensures RunAll(Until(s, k, Refused), [CreateParents(repo), GetMountpoint(repo), Chown(repo), GitClone(repo, head),
                                     Checkout(repo, files)])
         == Reply(Until(s[repo := Dataset(files, [], None, Inherited)], k - 5, Refused), true)
  {
    hide Issue, RunAll, Apply, Until;
    RunFive(Until(s, k, Refused), CreateParents(repo), GetMountpoint(repo), Chown(repo), GitClone(repo, head),
            Checkout(repo, files));
    var d := Dataset(map[], [], None, Inherited);
    var t, v := s[repo := d], s[repo := d.(files := head)];
    FirstUseSteps(s, repo, head, files);
    StepUntil(s, k, Refused, CreateParents(repo), t);
    StepUntil(t, k - 1, Refused, GetMountpoint(repo), t);
    StepUntil(t, k - 2, Refused, Chown(repo), t);
    StepUntil(t, k - 3, Refused, GitClone(repo, head), v);
    StepUntil(v, k - 4, Refused, Checkout(repo, files), s[repo := d.(files := files)]);
  }

  lemma FetchObeyed(s: Store, repo: string, files: Tree, k: nat)
    requires Cloned(s, repo) && k >= 3
    ensures RunAll(Until(s, k, Refused), [GetMountpoint(repo), Fetch(repo), Checkout(repo, files)])
         == Reply(Until(s[repo := s[repo].(files := files)], k - 3, Refused), true)
  {
    hide Issue, RunAll, Until;
    var t := s[repo := s[repo].(files := files)];
    RunThree(Until(s, k, Refused), GetMountpoint(repo), Fetch(repo), Checkout(repo, files));
    StepUntil(s, k, Refused, GetMountpoint(repo), s);
    StepUntil(s, k - 1, Refused, Fetch(repo), s);
    StepUntil(s, k - 2, Refused, Checkout(repo, files), t);
  }

  lemma RefusedAfterSnapshot(s: Store, u: Setup, files: Tree, k: nat)
    requires FreshWorkspace(s, u) && Unreferenced(s, u) && 1 <= k <= 3
    ensures var snap := Issue(Until(CheckedOut(s, u, files), k, Refused), Snapshot(u.RunSnap()));
      var made := Issue(snap.world, Clone(u.RunSnap(), u.RunDs(), Inherited));
      var w := WithWorkspace(s, u, files, WorkspaceClone(u, files));
      && snap.ok
      && (k == 1 ==> !made.ok && Issue(made.world, DestroySnap(u.RunSnap())).world.store == CheckedOut(s, u, files))
      && (k > 1 ==> && made == Reply(Until(w, k - 2, Refused), true)
                    && RunAll(made.world, [GetMountpoint(u.RunDs()), Chown(u.RunDs())]) == Reply(Calm(w), false)
                    && HasSnap(w, u.RunSnap()))
  {
    var t := CheckedOut(s, u, files);
    var v := Snapped(s, u, files);
    SnapshotTaken(s, u, files);
    SnapshotDropped(s, u, files);
    SnapshotCloned(s, u, files);
    IssueUntil(t, k, Refused, Snapshot(u.RunSnap()));
    IssueUntil(v, k - 1, Refused, Clone(u.RunSnap(), u.RunDs(), Inherited));
    if k > 1 {
      SettleRefused(WithWorkspace(s, u, files, WorkspaceClone(u, files)), u.RunDs(), k - 2);
    }
  }

  lemma SettleRefused(w: Store, ds: string, k: nat)
    requires ds in w && k <= 1
    ensures RunAll(Until(w, k, Refused), [GetMountpoint(ds), Chown(ds)]) == Reply(Calm(w), false)
  {
  }

  // ---- Repositories whose first clone failed ----

  /** What first use leaves of the repository when command `k` of it meets a mishap. */
  ghost function FirstUseLeft(s: Store, repo: string, head: Tree, k: nat): Store {
    var d := Dataset(map[], [], None, Inherited);
    if k <= 1 then s else if k <= 4 then s[repo := d] else s[repo := d.(files := head)]
  }

  lemma FirstUseStops(s: Store, u: Setup, head: Tree, files: Tree, k: nat, fate: Mishap)
    requires u.Repo() !in s && 1 <= k <= 5
    ensures var r := EnsureRepo(Until(s, k, fate), u, head, files);
      !r.ok && r.world.store == FirstUseLeft(s, u.Repo(), head, k)
  {
    hide Issue, RunAll;
    IssueUntil(s, k, fate, ListDataset(u.Repo()));
    CloneStops(s, u.Repo(), head, files, k - 1, fate);
  }

  lemma CloneStops(s: Store, repo: string, head: Tree, files: Tree, k: nat, fate: Mishap)
    requires repo !in s && k <= 4
    ensures var r := RunAll(Until(s, k, fate), [CreateParents(repo), GetMountpoint(repo), Chown(repo),
                                                GitClone(repo, head), Checkout(repo, files)]);
      !r.ok && r.world.store == FirstUseLeft(s, repo, head, k + 1)
  {
    hide Issue, RunAll, Apply, Until;
    RunFive(Until(s, k, fate), CreateParents(repo), GetMountpoint(repo), Chown(repo), GitClone(repo, head),
            Checkout(repo, files));
    var d := Dataset(map[], [], None, Inherited);
    var t, v := s[repo := d], s[repo := d.(files := head)];
    FirstUseSteps(s, repo, head, files);
    StepUntil(s, k, fate, CreateParents(repo), t);
    if k >= 1 { StepUntil(t, k - 1, fate, GetMountpoint(repo), t); }
    if k >= 2 { StepUntil(t, k - 2, fate, Chown(repo), t); }
    if k >= 3 { StepUntil(t, k - 3, fate, GitClone(repo, head), v); }
    if k >= 4 { StepUntil(v, k - 4, fate, Checkout(repo, files), s[repo := d.(files := files)]); }
  }

  /**
   On the first use of a repository its dataset is created, looked at, chowned, cloned into and checked out
   (commands 1 to 5). A mishap leaves it unusable exactly if it falls between creation and clone.
   */
  lemma FirstUseExactly(s: Store, u: Setup, head: Tree, files: Tree, k: nat, fate: Mishap)
    requires u.Repo() !in s && 1 <= k <= 5
    ensures Usable(EnsureRepo(Until(s, k, fate), u, head, files).world.store, u.Repo()) <==> !(2 <= k <= 4)
  {
    FirstUseStops(s, u, head, files, k, fate);
  }

  /** The look at the dataset is refused, nothing is in it, and the commands up to the clone meet no mishap. */
  predicate Reclones(w: World, repo: string) {
    && repo in w.store && w.store[repo].files == map[]
    && w.alive && w.fates != [] && w.fates[0] == Refused && Clear(Ahead(w), 4)
  }

  /** A command that ZFS answers without changing anything. */
  lemma LookOn(r: Reply, c: Command)
    requires Apply(r.world.store, c) == Some(r.world.store)
    ensures Then(r, c).world.store == r.world.store
    ensures Then(r, c).ok <==> r.ok && Clear(r.world, 1)
    ensures Then(r, c).ok ==> Then(r, c).world == Ahead(r.world)
  {
    IssueTells(r.world, c);
  }

  /** The clone into a dataset that is there. */
  lemma CloneInto(r: Reply, repo: string, head: Tree)
    requires !Usable(r.world.store, repo)
    ensures var done := r.ok && Clear(r.world, 1) && r.world.store[repo].files == map[];
      Then(r, GitClone(repo, head)).ok == done && (done <==> Usable(Then(r, GitClone(repo, head)).world.store, repo))
    ensures !Then(r, GitClone(repo, head)).ok ==> Then(r, GitClone(repo, head)).world.store == r.world.store
  {
    IssueTells(r.world, GitClone(repo, head));
  }

  lemma CheckoutKeepsUsable(r: Reply, repo: string, files: Tree)
    requires Usable(r.world.store, repo)
    ensures Usable(Then(r, Checkout(repo, files)).world.store, repo)
  {
    IssueTells(r.world, Checkout(repo, files));
  }

  /** What the next run makes of an unusable repository, whatever its commands meet. */
  lemma UnusableNext(w: World, u: Setup, head: Tree, files: Tree)
    requires !Usable(w.store, u.Repo())
    ensures var r := EnsureRepo(w, u, head, files);
      && (Usable(r.world.store, u.Repo()) <==> Reclones(w, u.Repo()))
      && (!Reclones(w, u.Repo()) ==> !r.ok && r.world.store == w.store)
  {
    hide Issue, RunAll;
    var repo := u.Repo();
    var known := Issue(w, ListDataset(repo));
    IssueTells(w, ListDataset(repo));
    if known.ok {
      NothingToFetch(known.world, repo, files);
    } else {
      hide Apply;
      CloningAnew(known.world, repo, head, files);
    }
  }

  lemma {:induction false} NothingToFetch(w: World, repo: string, files: Tree)
    requires !Usable(w.store, repo)
    ensures var r := RunAll(w, [GetMountpoint(repo), Fetch(repo), Checkout(repo, files)]);
      !r.ok && r.world.store == w.store
  {
    hide Issue, RunAll;
    RunThree(w, GetMountpoint(repo), Fetch(repo), Checkout(repo, files));
    IssueTells(w, GetMountpoint(repo));
    IssueTells(Issue(w, GetMountpoint(repo)).world, Fetch(repo));
  }

  lemma {:induction false} CloningAnew(w: World, repo: string, head: Tree, files: Tree)
    requires !Usable(w.store, repo)
    ensures var r := RunAll(w, [CreateParents(repo), GetMountpoint(repo), Chown(repo), GitClone(repo, head),
                                Checkout(repo, files)]);
      && (Usable(r.world.store, repo) <==> w.store[repo].files == map[] && Clear(w, 4))
      && (!Usable(r.world.store, repo) ==> !r.ok && r.world.store == w.store)
  {
    hide Issue, RunAll;
    RunFive(w, CreateParents(repo), GetMountpoint(repo), Chown(repo), GitClone(repo, head), Checkout(repo, files));
    var r0 := Reply(w, true);
    LookOn(r0, CreateParents(repo));
    var r1 := Then(r0, CreateParents(repo));
    LookOn(r1, GetMountpoint(repo));
    var r2 := Then(r1, GetMountpoint(repo));
    LookOn(r2, Chown(repo));
    var r3 := Then(r2, Chown(repo));
    CloneInto(r3, repo, head);
    FourClear(w);
    if Then(r3, GitClone(repo, head)).ok {
      CheckoutKeepsUsable(Then(r3, GitClone(repo, head)), repo, files);
    }
  }

  lemma FourClear(w: World)
    ensures Clear(w, 4) <==>
      Clear(w, 1) && Clear(Ahead(w), 1) && Clear(Ahead(Ahead(w)), 1) && Clear(Ahead(Ahead(Ahead(w))), 1)
  {
    ClearOn(w, 4);
    ClearOn(Ahead(w), 3);
    ClearOn(Ahead(Ahead(w)), 2);
    hide Clear, Ahead;
  }

  /**
   And unusable it stays: runs of that repository, whatever their commands meet, change nothing at all until one
   clones again; it does exactly if its look at the dataset is refused and the commands up to the clone are not.
   */
  lemma {:induction false} UnusableUntilRecloned(st: State, runs: seq<Run>, repo: string)
    requires !Usable(st.store, repo)
    requires forall i :: 0 <= i < |runs| ==>
      runs[i].setup.Repo() == repo && !Reclones(World(st.store, runs[i].fates, true), repo)
    ensures ExecuteAll(st, runs) == st
  {
    if runs != [] {
      var r := runs[|runs| - 1];
      UnusableUntilRecloned(st, runs[..|runs| - 1], repo);
      UnusableNext(World(st.store, r.fates, true), r.setup, r.head, r.files);
      hide EnsureRepo, Reclones;
    }
  }
}
