/**
 Where an agent can die: before any of its commands, as fates have it, or between them, among its posts. The second
 is no new case for the pool: it is a death before the next command. What a part of the protocol does depends only on
 the fates it uses up, so those that come after it can be exchanged for a death.
 */
module AgentDeath {
  import opened Zfs
  import opened CacheNames
  import opened CachePath
  import opened CacheProtocol
  import History = CacheHistory

  /** The next `n` fates, all obeyed past the end of the list, and those after them. */
  function Next(fates: seq<Fate>, n: nat): (r: seq<Fate>)
    ensures |r| == n
  {
    seq(n, i requires 0 <= i < n => if i < |fates| then fates[i] else Obeyed)
  }

  function Rest(fates: seq<Fate>, n: nat): seq<Fate> {
    if n <= |fates| then fates[n..] else []
  }

  lemma NextSplit(fates: seq<Fate>, m: nat, n: nat)
    ensures Next(fates, m + n) == Next(fates, m) + Next(Rest(fates, m), n)
    ensures Rest(fates, m + n) == Rest(Rest(fates, m), n)
  {
  }

  /** The world as it would be if after the next `n` fates came `tail`. */
  function Given(w: World, n: nat, tail: seq<Fate>): World {
    w.(fates := Next(w.fates, n) + tail)
  }

  lemma GivenSplit(w: World, m: nat, n: nat, tail: seq<Fate>)
    ensures Given(w, m + n, tail) == Given(w, m, Next(Rest(w.fates, m), n) + tail)
  {
    hide Next, Rest;
    NextSplit(w.fates, m, n);
    Joined(Next(w.fates, m), Next(Rest(w.fates, m), n), tail);
  }

  lemma Joined(a: seq<Fate>, b: seq<Fate>, c: seq<Fate>)
    ensures a + b + c == a + (b + c)
  {
  }

  // ---- What is done with the next fates does not depend on the later ones ----

  lemma IssueUses(w: World, c: Command, tail: seq<Fate>)
    requires Issue(w, c).world.alive
    ensures Issue(Given(w, 1, tail), c) == Reply(Issue(w, c).world.(fates := tail), Issue(w, c).ok)
    ensures Issue(w, c).world.fates == Rest(w.fates, 1)
  {
    PerformKeepsFates(Ahead(w), c, tail);
    assert (Next(w.fates, 1) + tail)[1..] == tail;
    hide Perform;
  }

  lemma PerformKeepsFates(w: World, c: Command, tail: seq<Fate>)
    ensures Perform(w.(fates := tail), c) == Reply(Perform(w, c).world.(fates := tail), Perform(w, c).ok)
    ensures Perform(w, c).world.fates == w.fates && Perform(w, c).world.alive == w.alive
  {
    hide Apply;
  }

  lemma {:induction false} RunAllUses(w: World, cs: seq<Command>, tail: seq<Fate>) returns (n: nat)
    requires RunAll(w, cs).world.alive
    ensures RunAll(Given(w, n, tail), cs) == Reply(RunAll(w, cs).world.(fates := tail), RunAll(w, cs).ok)
    ensures RunAll(w, cs).world.fates == Rest(w.fates, n)
    decreases |cs|
  {
    if cs == [] {
      n := 0;
      assert Next(w.fates, 0) + tail == tail;
    } else {
      var r := Issue(w, cs[0]);
      if r.ok {
        var m := RunAllUses(r.world, cs[1..], tail);
        StillAlive(r.world, cs[1..]);
        IssueUses(w, cs[0], Next(r.world.fates, m) + tail);
        GivenSplit(w, 1, m, tail);
        NextSplit(w.fates, 1, m);
        n := 1 + m;
      } else {
        IssueUses(w, cs[0], tail);
        n := 1;
      }
    }
  }

  /** The dead stay dead. */
  lemma {:induction false} StillAlive(w: World, cs: seq<Command>)
    requires RunAll(w, cs).world.alive
    ensures w.alive
    decreases |cs|
  {
    if cs != [] && Issue(w, cs[0]).ok {
      StillAlive(Issue(w, cs[0]).world, cs[1..]);
    }
  }

  lemma {:induction false} EnsureUses(w: World, u: Setup, head: Tree, files: Tree, tail: seq<Fate>) returns (n: nat)
    requires EnsureRepo(w, u, head, files).world.alive
    ensures EnsureRepo(Given(w, n, tail), u, head, files)
         == Reply(EnsureRepo(w, u, head, files).world.(fates := tail), EnsureRepo(w, u, head, files).ok)
    ensures EnsureRepo(w, u, head, files).world.fates == Rest(w.fates, n)
  {
    var known := Issue(w, ListDataset(u.Repo()));
    var cs := if known.ok then [GetMountpoint(u.Repo()), Fetch(u.Repo()), Checkout(u.Repo(), files)]
      else [CreateParents(u.Repo()), GetMountpoint(u.Repo()), Chown(u.Repo()), GitClone(u.Repo(), head),
            Checkout(u.Repo(), files)];
    hide Issue, RunAll, Given, Next, Rest;
    var m := RunAllUses(known.world, cs, tail);
    StillAlive(known.world, cs);
    IssueUses(w, ListDataset(u.Repo()), Next(known.world.fates, m) + tail);
    AfterFirst(w, known.world, m, tail);
    n := 1 + m;
  }

  /** One command, and then those that use `m` fates. */
  lemma AfterFirst(w: World, v: World, m: nat, tail: seq<Fate>)
    requires v.fates == Rest(w.fates, 1)
    ensures Given(w, 1 + m, tail) == Given(w, 1, Next(v.fates, m) + tail)
    ensures Rest(v.fates, m) == Rest(w.fates, 1 + m)
    ensures v.(fates := Next(v.fates, m) + tail) == Given(v, m, tail)
  {
    GivenSplit(w, 1, m, tail);
    NextSplit(w.fates, 1, m);
  }

  /** What preparing that succeeds goes through. */
  lemma PrepareGoes(w: World, u: Setup, head: Tree, files: Tree)
    requires Prepare(w, u, head, files).ok && Prepare(w, u, head, files).world.alive
    ensures var repo := EnsureRepo(w, u, head, files);
      var snap := Issue(repo.world, Snapshot(u.RunSnap()));
      var made := Issue(snap.world, Clone(u.RunSnap(), u.RunDs(), Inherited));
      && repo.ok && repo.world.alive && snap.ok && snap.world.alive && made.ok && made.world.alive
      && Prepare(w, u, head, files) == RunAll(made.world, [GetMountpoint(u.RunDs()), Chown(u.RunDs())])
  {
    var repo := EnsureRepo(w, u, head, files);
    var snap := Issue(repo.world, Snapshot(u.RunSnap()));
    var made := Issue(snap.world, Clone(u.RunSnap(), u.RunDs(), Inherited));
    hide Issue, RunAll, EnsureRepo;
    if made.ok {
      StillAlive(made.world, [GetMountpoint(u.RunDs()), Chown(u.RunDs())]);
      IssuedByTheLiving(snap.world, Clone(u.RunSnap(), u.RunDs(), Inherited));
      IssuedByTheLiving(repo.world, Snapshot(u.RunSnap()));
    }
  }

  lemma {:induction false} PrepareUses(w: World, u: Setup, head: Tree, files: Tree, tail: seq<Fate>) returns (n: nat)
    requires Prepare(w, u, head, files).ok && Prepare(w, u, head, files).world.alive
    ensures Prepare(Given(w, n, tail), u, head, files)
         == Reply(Prepare(w, u, head, files).world.(fates := tail), true)
    ensures Prepare(w, u, head, files).world.fates == Rest(w.fates, n)
  {
    hide Prepare, Issue, RunAll, EnsureRepo, Given, Next, Rest;
    PrepareGoes(w, u, head, files);
    var repo := EnsureRepo(w, u, head, files).world;
    var snap := Issue(repo, Snapshot(u.RunSnap())).world;
    var made := Issue(snap, Clone(u.RunSnap(), u.RunDs(), Inherited)).world;
    var k := MakingUses(snap, u, made, tail);
    IssueUses(repo, Snapshot(u.RunSnap()), Next(snap.fates, 1 + k) + tail);
    AfterFirst(repo, snap, 1 + k, tail);
    var m := EnsureUses(w, u, head, files, Next(repo.fates, 2 + k) + tail);
    AfterMany(w, repo, m, 2 + k, tail);
    n := m + (2 + k);
    PrepareBy(Given(w, n, tail), u, head, files, Given(repo, 2 + k, tail), Given(snap, 1 + k, tail),
              Given(made, k, tail), Prepare(w, u, head, files).world.(fates := tail));
  }

  /** The clone and what follows it. */
  lemma {:induction false} MakingUses(w: World, u: Setup, made: World, tail: seq<Fate>) returns (k: nat)
    requires Issue(w, Clone(u.RunSnap(), u.RunDs(), Inherited)) == Reply(made, true)
    requires made.alive && RunAll(made, [GetMountpoint(u.RunDs()), Chown(u.RunDs())]).world.alive
    ensures var done := RunAll(made, [GetMountpoint(u.RunDs()), Chown(u.RunDs())]);
      && Issue(Given(w, 1 + k, tail), Clone(u.RunSnap(), u.RunDs(), Inherited)) == Reply(Given(made, k, tail), true)
      && RunAll(Given(made, k, tail), [GetMountpoint(u.RunDs()), Chown(u.RunDs())])
         == Reply(done.world.(fates := tail), done.ok)
      && done.world.fates == Rest(w.fates, 1 + k)
  {
    hide Issue, RunAll, Given, Next, Rest;
    k := RunAllUses(made, [GetMountpoint(u.RunDs()), Chown(u.RunDs())], tail);
    IssueUses(w, Clone(u.RunSnap(), u.RunDs(), Inherited), Next(made.fates, k) + tail);
    AfterFirst(w, made, k, tail);
  }

  lemma {:induction false} PrepareBy(w: World, u: Setup, head: Tree, files: Tree, repo: World, snap: World,
                                     made: World, done: World)
    requires EnsureRepo(w, u, head, files) == Reply(repo, true)
    requires Issue(repo, Snapshot(u.RunSnap())) == Reply(snap, true)
    requires Issue(snap, Clone(u.RunSnap(), u.RunDs(), Inherited)) == Reply(made, true)
    requires RunAll(made, [GetMountpoint(u.RunDs()), Chown(u.RunDs())]) == Reply(done, true)
    ensures Prepare(w, u, head, files) == Reply(done, true)
  {
    hide EnsureRepo, Issue, RunAll;
  }

  lemma AfterMany(w: World, v: World, m: nat, n: nat, tail: seq<Fate>)
    requires v.fates == Rest(w.fates, m)
    ensures Given(w, m + n, tail) == Given(w, m, Next(v.fates, n) + tail)
    ensures Rest(v.fates, n) == Rest(w.fates, m + n)
    ensures v.(fates := Next(v.fates, n) + tail) == Given(v, n, tail)
  {
    GivenSplit(w, m, n, tail);
    NextSplit(w.fates, m, n);
  }

  lemma IssuedByTheLiving(w: World, c: Command)
    requires Issue(w, c).world.alive
    ensures w.alive
  {
  }

  /** The rest of attaching a cache, once it was looked for. */
  function AttachFrom(w: World, u: Setup, c: Cache, restored: bool): Attached {
    var made := Issue(w, Provision(u, c, restored));
    if !made.ok then Attached(made.world, [], false) else
    var settled := RunAll(made.world, Settle(CloneFor(u, c, restored)));
    Attached(settled.world, [CloneFor(u, c, restored)], settled.ok)
  }

  lemma AttachLooks(w: World, u: Setup, c: Cache)
    ensures var listed := Issue(w, ListSnap(Latest(Base(u.Root(), c.name))));
      AttachOne(w, u, c) == AttachFrom(listed.world, u, c, listed.ok)
  {
    hide Issue, RunAll, Provision, Settle;
  }

  lemma {:induction false} FromUses(w: World, u: Setup, c: Cache, restored: bool, tail: seq<Fate>) returns (n: nat)
    requires AttachFrom(w, u, c, restored).world.alive
    ensures var a := AttachFrom(w, u, c, restored);
      && w.alive && a.world.fates == Rest(w.fates, n)
      && AttachFrom(Given(w, n, tail), u, c, restored) == a.(world := a.world.(fates := tail))
  {
    hide Issue, RunAll, Given, Next, Rest, Provision, Settle;
    var make := Provision(u, c, restored);
    var made := Issue(w, make);
    var k := 0;
    if made.ok {
      StillAlive(made.world, Settle(CloneFor(u, c, restored)));
      k := RunAllUses(made.world, Settle(CloneFor(u, c, restored)), tail);
      IssueUses(w, make, Next(made.world.fates, k) + tail);
      AfterFirst(w, made.world, k, tail);
    } else {
      IssueUses(w, make, tail);
    }
    IssuedByTheLiving(w, make);
    n := 1 + k;
  }

  lemma {:induction false} AttachOneUses(w: World, u: Setup, c: Cache, tail: seq<Fate>) returns (n: nat)
    requires AttachOne(w, u, c).world.alive
    ensures var a := AttachOne(w, u, c);
      && AttachOne(Given(w, n, tail), u, c) == a.(world := a.world.(fates := tail))
      && a.world.fates == Rest(w.fates, n)
  {
    hide AttachOne, AttachFrom, Issue, Given, Next, Rest;
    var look := ListSnap(Latest(Base(u.Root(), c.name)));
    var listed := Issue(w, look);
    AttachLooks(w, u, c);
    var k := FromUses(listed.world, u, c, listed.ok, tail);
    IssueUses(w, look, Next(listed.world.fates, k) + tail);
    AfterFirst(w, listed.world, k, tail);
    n := 1 + k;
    AttachLooks(Given(w, n, tail), u, c);
  }

  function AttachedNext(done: Attached, u: Setup, c: Cache): Attached {
    if !done.ok then done else
    var one := AttachOne(done.world, u, c);
    Attached(one.world, done.caches + one.caches, one.ok)
  }

  lemma {:induction false} AttachLast(w: World, u: Setup, caches: seq<Cache>)
    requires caches != []
    ensures AttachEach(w, u, caches)
         == AttachedNext(AttachEach(w, u, caches[..|caches| - 1]), u, caches[|caches| - 1])
  {
  }

  lemma {:induction false} AttachNone(w: World, u: Setup, tail: seq<Fate>)
    ensures AttachEach(Given(w, 0, tail), u, []) == Attached(w.(fates := tail), [], true)
    ensures AttachEach(w, u, []).world.fates == Rest(w.fates, 0)
  {
    assert Next(w.fates, 0) + tail == tail;
  }

  lemma {:induction false} AttachEachUses(w: World, u: Setup, caches: seq<Cache>, tail: seq<Fate>) returns (n: nat)
    requires AttachEach(w, u, caches).world.alive
    ensures var a := AttachEach(w, u, caches);
      && AttachEach(Given(w, n, tail), u, caches) == a.(world := a.world.(fates := tail))
      && a.world.fates == Rest(w.fates, n)
  {
    hide AttachOne, AttachedNext, Given, Next, Rest;
    if caches == [] {
      n := 0;
      AttachNone(w, u, tail);
    } else {
      hide AttachEach;
      var last := caches[|caches| - 1];
      var done := AttachEach(w, u, caches[..|caches| - 1]);
      AttachLast(w, u, caches);
      var k := LastUses(done, u, last, tail);
      var m := AttachEachUses(w, u, caches[..|caches| - 1], Next(done.world.fates, k) + tail);
      AfterMany(w, done.world, m, k, tail);
      n := m + k;
      AttachLast(Given(w, n, tail), u, caches);
    }
  }

  lemma {:induction false} LastUses(done: Attached, u: Setup, c: Cache, tail: seq<Fate>) returns (k: nat)
    requires AttachedNext(done, u, c).world.alive
    ensures var a := AttachedNext(done, u, c);
      && done.world.alive && a.world.fates == Rest(done.world.fates, k)
      && AttachedNext(done.(world := Given(done.world, k, tail)), u, c) == a.(world := a.world.(fates := tail))
  {
    if done.ok {
      hide AttachOne, Given, Next, Rest;
      OneByTheLiving(done.world, u, c);
      k := AttachOneUses(done.world, u, c, tail);
    } else {
      k := 0;
      assert Next(done.world.fates, 0) + tail == tail;
    }
  }

  lemma OneByTheLiving(w: World, u: Setup, c: Cache)
    requires AttachOne(w, u, c).world.alive
    ensures w.alive
  {
    var listed := Issue(w, ListSnap(Latest(Base(u.Root(), c.name))));
    var made := Issue(listed.world, Provision(u, c, listed.ok));
    if made.ok {
      StillAlive(made.world, Settle(CloneFor(u, c, listed.ok)));
    }
  }

  lemma {:induction false} AttachAllUses(w: World, u: Setup, caches: seq<Cache>, tail: seq<Fate>) returns (n: nat)
    requires AttachAll(w, u, caches).world.alive
    ensures var a := AttachAll(w, u, caches);
      && AttachAll(Given(w, n, tail), u, caches) == a.(world := a.world.(fates := tail))
      && a.world.fates == Rest(w.fates, n)
  {
    if caches == [] {
      n := 0;
      assert Next(w.fates, 0) + tail == tail;
    } else {
      var root := Issue(w, CreateParents(u.Root()));
      hide Issue, AttachEach, Given, Next, Rest;
      if root.ok {
        var k := AttachEachUses(root.world, u, caches, tail);
        EachByTheLiving(root.world, u, caches);
        IssueUses(w, CreateParents(u.Root()), Next(root.world.fates, k) + tail);
        AfterFirst(w, root.world, k, tail);
        n := 1 + k;
      } else {
        IssueUses(w, CreateParents(u.Root()), tail);
        n := 1;
      }
    }
  }

  lemma {:induction false} EachByTheLiving(w: World, u: Setup, caches: seq<Cache>)
    requires AttachEach(w, u, caches).world.alive
    ensures w.alive
  {
    if caches != [] {
      var rest := caches[..|caches| - 1];
      var done := AttachEach(w, u, rest);
      if done.ok {
        OneByTheLiving(done.world, u, caches[|caches| - 1]);
      }
      EachByTheLiving(w, u, rest);
    }
  }

  lemma {:induction false} AllByTheLiving(w: World, u: Setup, caches: seq<Cache>)
    requires AttachAll(w, u, caches).world.alive
    ensures w.alive
  {
    var root := Issue(w, CreateParents(u.Root()));
    if caches != [] {
      if root.ok {
        EachByTheLiving(root.world, u, caches);
      }
      IssuedByTheLiving(w, CreateParents(u.Root()));
    }
  }

  // ---- An agent that dies before its next command ----

  predicate Doomed(w: World) {
    !w.alive || (w.fates != [] && w.fates[0] == Killed)
  }

  lemma DoomedIssue(w: World, c: Command)
    requires Doomed(w)
    ensures var r := Issue(w, c); !r.ok && !r.world.alive && r.world.store == w.store
  {
  }

  lemma {:induction false} DoomedRuns(w: World, cs: seq<Command>)
    requires Doomed(w)
    ensures RunAll(w, cs).world.store == w.store && Doomed(RunAll(w, cs).world)
  {
    if cs != [] {
      DoomedIssue(w, cs[0]);
    }
  }

  lemma {:induction false} DoomedFinishes(w: World, runId: string, caches: seq<CacheClone>, success: bool)
    requires Doomed(w)
    ensures var t := FinishEach(w, runId, caches, success); t.store == w.store && Doomed(t)
  {
    if caches != [] {
      var n := |caches| - 1;
      DoomedFinishes(w, runId, caches[..n], success);
      DoomedCommit(FinishEach(w, runId, caches[..n], success), runId, caches[n]);
      DoomedIssue(FinishEach(w, runId, caches[..n], success), DestroyAll(caches[n].clone));
    }
  }

  lemma DoomedCommit(w: World, runId: string, c: CacheClone)
    requires Doomed(w)
    ensures var t := Commit(w, runId, c).world; t.store == w.store && Doomed(t)
  {
    hide Issue, RunAll, CommitHead, CommitTail;
    DoomedRuns(w, CommitHead(c));
    var head := RunAll(w, CommitHead(c));
    DoomedIssue(head.world, ListDataset(c.base));
    var had := Issue(head.world, ListDataset(c.base));
    DoomedRuns(had.world, CommitTail(c, runId, had.ok));
  }

  lemma DoomedEnd(w: World, u: Setup, caches: seq<CacheClone>, success: bool)
    requires Doomed(w)
    ensures FinishRun(w, u, caches, success).store == w.store
  {
    hide Issue, FinishEach, Doomed;
    DoomedFinishes(w, u.runId, caches, success);
    var done := FinishEach(w, u.runId, caches, success);
    DoomedIssue(done, DestroyAll(u.RunDs()));
    var gone := Issue(done, DestroyAll(u.RunDs())).world;
    Dead(gone);
    DoomedIssue(gone, DestroySnap(u.RunSnap()));
  }

  lemma Dead(w: World)
    requires !w.alive
    ensures Doomed(w)
  {
  }

  /** The dead attach nothing. */
  lemma DeadAttaches(w: World, u: Setup, caches: seq<Cache>)
    requires !w.alive
    ensures var a := AttachAll(w, u, caches); a.world == w && a.caches == []
  {
    hide AttachEach;
  }

  /** The fates of a run whose agent dies after its `n`-th command and before the next. */
  function DiesAfter(fates: seq<Fate>, n: nat): seq<Fate> {
    Next(fates, n) + [Killed]
  }

  /** A death between preparing and attaching: nothing is attached, written or finished. */
  lemma {:induction false} DeathBeforeAttaching(s: Store, record: History.Run, delivered: set<(string, Files)>)
      returns (n: nat)
    requires var p := Prepare(World(s, record.fates, true), record.setup, record.head, record.files);
      p.ok && p.world.alive
    requires forall d, files :: record.work(d, files) == files
    ensures History.Execute(History.State(s, delivered), record.(fates := DiesAfter(record.fates, n))).store
      == Prepare(World(s, record.fates, true), record.setup, record.head, record.files).world.store
  {
    var w := World(s, record.fates, true);
    n := PrepareUses(w, record.setup, record.head, record.files, [Killed]);
    var p := Prepare(w, record.setup, record.head, record.files).world.(fates := [Killed]);
    DoomedIssue(p, CreateParents(record.setup.Root()));
    var a := AttachAll(p, record.setup, record.caches);
    var v := History.AfterSteps(record, a);
    assert v.store == p.store;
    DoomedEnd(v, record.setup, a.caches, a.ok && record.success);
  }

  /** A death between attaching and finishing: what the steps have written stays, and nothing is finished. */
  lemma {:induction false} DeathBeforeFinishing(s: Store, record: History.Run, delivered: set<(string, Files)>)
      returns (n: nat)
    requires var p := Prepare(World(s, record.fates, true), record.setup, record.head, record.files);
      p.ok && p.world.alive && AttachAll(p.world, record.setup, record.caches).world.alive
    ensures var p := Prepare(World(s, record.fates, true), record.setup, record.head, record.files);
      History.Execute(History.State(s, delivered), record.(fates := DiesAfter(record.fates, n))).store
        == History.AfterSteps(record, AttachAll(p.world, record.setup, record.caches)).store
  {
    var w := World(s, record.fates, true);
    var p := Prepare(w, record.setup, record.head, record.files).world;
    var a := AttachAll(p, record.setup, record.caches);
    hide Prepare, AttachAll, FinishRun, Given, Next, Rest;
    var k := AttachAllUses(p, record.setup, record.caches, [Killed]);
    var m := PrepareUses(w, record.setup, record.head, record.files, Next(p.fates, k) + [Killed]);
    AfterMany(w, p, m, k, [Killed]);
    n := m + k;
    var v := History.AfterSteps(record, a.(world := a.world.(fates := [Killed])));
    DoomedEnd(v, record.setup, a.caches, a.ok && record.success);
    GivenDies(w, n);
  }

  lemma GivenDies(w: World, n: nat)
    ensures Given(w, n, [Killed]) == w.(fates := DiesAfter(w.fates, n))
  {
  }
}
