/** Whatever happens, the pool stays a pool: every history keeps the store well formed. */
module StoreHistory {
  import opened Zfs
  import opened Outcomes
  import opened CachePath
  import opened CacheProtocol
  import opened CacheHistory

  lemma IssueKeepsWellFormed(w: World, c: Command)
    requires WellFormed(w.store)
    ensures WellFormed(Issue(w, c).world.store)
  {
    IssueIsApply(w, c);
    if Issue(w, c).world.store != w.store {
      ApplyKeepsWellFormed(w.store, c);
    }
  }

  lemma IssueIsApply(w: World, c: Command)
    ensures var t := Issue(w, c).world.store; t == w.store || Apply(w.store, c) == Some(t)
  {
  }

  lemma {:induction false} RunAllKeepsWellFormed(w: World, cs: seq<Command>)
    requires WellFormed(w.store)
    ensures WellFormed(RunAll(w, cs).world.store)
    decreases |cs|
  {
    if cs != [] {
      IssueKeepsWellFormed(w, cs[0]);
      RunAllKeepsWellFormed(Issue(w, cs[0]).world, cs[1..]);
    }
  }

  lemma EnsureRepoKeepsWellFormed(w: World, u: Setup, head: Tree, files: Tree)
    requires WellFormed(w.store)
    ensures WellFormed(EnsureRepo(w, u, head, files).world.store)
  {
    IssueKeepsWellFormed(w, ListDataset(u.Repo()));
    var known := Issue(w, ListDataset(u.Repo()));
    RunAllKeepsWellFormed(known.world, [CreateParents(u.Repo()), GetMountpoint(u.Repo()), Chown(u.Repo()),
                                        GitClone(u.Repo(), head), Checkout(u.Repo(), files)]);
    RunAllKeepsWellFormed(known.world, [GetMountpoint(u.Repo()), Fetch(u.Repo()), Checkout(u.Repo(), files)]);
  }

  lemma PrepareKeepsWellFormed(w: World, u: Setup, head: Tree, files: Tree)
    requires WellFormed(w.store)
    ensures WellFormed(Prepare(w, u, head, files).world.store)
  {
    EnsureRepoKeepsWellFormed(w, u, head, files);
    var repo := EnsureRepo(w, u, head, files);
    IssueKeepsWellFormed(repo.world, Snapshot(u.RunSnap()));
    var snap := Issue(repo.world, Snapshot(u.RunSnap()));
    IssueKeepsWellFormed(snap.world, Clone(u.RunSnap(), u.RunDs(), Inherited));
    var made := Issue(snap.world, Clone(u.RunSnap(), u.RunDs(), Inherited));
    IssueKeepsWellFormed(made.world, DestroySnap(u.RunSnap()));
    RunAllKeepsWellFormed(made.world, [GetMountpoint(u.RunDs()), Chown(u.RunDs())]);
  }

  lemma AttachOneKeepsWellFormed(w: World, u: Setup, c: Cache)
    requires WellFormed(w.store)
    ensures WellFormed(AttachOne(w, u, c).world.store)
  {
    var listed := Issue(w, ListSnap(Latest(CacheNames.Base(u.Root(), c.name))));
    IssueKeepsWellFormed(w, ListSnap(Latest(CacheNames.Base(u.Root(), c.name))));
    IssueKeepsWellFormed(listed.world, Provision(u, c, listed.ok));
    var made := Issue(listed.world, Provision(u, c, listed.ok));
    RunAllKeepsWellFormed(made.world, Settle(CloneFor(u, c, listed.ok)));
  }

  lemma {:induction false} AttachEachKeepsWellFormed(w: World, u: Setup, caches: seq<Cache>)
    requires WellFormed(w.store)
    ensures WellFormed(AttachEach(w, u, caches).world.store)
  {
    if caches != [] {
      var rest := caches[..|caches| - 1];
      AttachEachKeepsWellFormed(w, u, rest);
      AttachOneKeepsWellFormed(AttachEach(w, u, rest).world, u, caches[|caches| - 1]);
    }
  }

  lemma {:induction false} FinishEachKeepsWellFormed(w: World, runId: string, caches: seq<CacheClone>, success: bool)
    requires WellFormed(w.store)
    ensures WellFormed(FinishEach(w, runId, caches, success).store)
  {
    if caches != [] {
      var rest, c := caches[..|caches| - 1], caches[|caches| - 1];
      FinishEachKeepsWellFormed(w, runId, rest, success);
      var done := FinishEach(w, runId, rest, success);
      IssueKeepsWellFormed(done, DestroyAll(c.clone));
      RunAllKeepsWellFormed(done, CommitHead(c));
      var head := RunAll(done, CommitHead(c));
      IssueKeepsWellFormed(head.world, ListDataset(c.base));
      var had := Issue(head.world, ListDataset(c.base));
      RunAllKeepsWellFormed(had.world, CommitTail(c, runId, had.ok));
    }
  }

  lemma WorkKeepsWellFormed(s: Store, touched: set<string>, work: (string, Files) -> Files)
    requires WellFormed(s)
    ensures WellFormed(Worked(s, touched, work))
  {
    var t := Worked(s, touched, work);
    var rank :| Ranked(s, rank);
    forall d | d in s ensures t[d].snaps == s[d].snaps && t[d].origin == s[d].origin {
    }
    assert Ranked(t, rank);
    forall d | d in t && t[d].origin.Some? ensures HasSnap(t, t[d].origin.value) {
      assert HasSnap(s, s[d].origin.value);
    }
  }

  lemma ExecuteKeepsWellFormed(st: State, r: Run)
    requires WellFormed(st.store)
    ensures WellFormed(Execute(st, r).store)
  {
    var w0 := World(st.store, r.fates, true);
    var u := r.setup;
    PrepareKeepsWellFormed(w0, u, r.head, r.files);
    var p := Prepare(w0, u, r.head, r.files);
    IssueKeepsWellFormed(p.world, CreateParents(u.Root()));
    AttachEachKeepsWellFormed(Issue(p.world, CreateParents(u.Root())).world, u, r.caches);
    var a := AttachAll(p.world, u, r.caches);
    WorkKeepsWellFormed(a.world.store, Clones(a.caches) + {u.RunDs()}, r.work);
    var w := AfterSteps(r, a);
    FinishEachKeepsWellFormed(w, u.runId, a.caches, a.ok && r.success);
    var done := FinishEach(w, u.runId, a.caches, a.ok && r.success);
    IssueKeepsWellFormed(done, DestroyAll(u.RunDs()));
    IssueKeepsWellFormed(Issue(done, DestroyAll(u.RunDs())).world, DestroySnap(u.RunSnap()));
  }

  /** Whatever commands fail and wherever agents die, origins exist and never form a cycle. */
  lemma {:induction false} HistoryKeepsWellFormed(st: State, runs: seq<Run>)
    requires WellFormed(st.store)
    ensures WellFormed(ExecuteAll(st, runs).store)
  {
    if runs != [] {
      HistoryKeepsWellFormed(st, runs[..|runs| - 1]);
      ExecuteKeepsWellFormed(ExecuteAll(st, runs[..|runs| - 1]), runs[|runs| - 1]);
    }
  }
}
