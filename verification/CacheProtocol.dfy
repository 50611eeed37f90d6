/**
 What one run does to the pool: prepare a workspace, attach caches, and at the end commit or discard
 them and tear the workspace down. The functions say what each part does to the outside world; the
 classes do it command by command and are proved to do just that. Any command may be refused, and the
 agent may die before any command.
 */
module CacheProtocol {
  import opened Outcomes
  import opened Zfs
  import opened CacheNames
  import opened CachePath

  /** What happens to one command: it reaches ZFS, fails before it does, or the agent dies first. */
  datatype Fate = Obeyed | Refused | Killed

  /** The pool, the fates of the commands to come (all obeyed once the list is used up), and the agent. */
  datatype World = World(store: Store, fates: seq<Fate>, alive: bool)

  datatype Reply = Reply(world: World, ok: bool)

  /** The world once ZFS answered: `None` is an error, and nothing has changed. */
  function Answered(w: World, answer: Option<Store>): Reply {
    match answer
    case None => Reply(w, false)
    case Some(s) => Reply(w.(store := s), true)
  }

  function Perform(w: World, c: Command): Reply {
    Answered(w, Apply(w.store, c))
  }

  /** A dead agent issues no commands; all it would still have tried counts as failed. */
  function Issue(w: World, c: Command): Reply {
    if !w.alive then Reply(w, false)
    else if w.fates == [] then Perform(w, c)
    else
      var w' := w.(fates := w.fates[1..]);
      match w.fates[0]
      case Obeyed => Perform(w', c)
      case Refused => Reply(w', false)
      case Killed => Reply(w'.(alive := false), false)
  }

  /** The next `n` commands will meet no mishap. */
  predicate Clear(w: World, n: nat) {
    w.alive && forall i :: 0 <= i < n && i < |w.fates| ==> w.fates[i] == Obeyed
  }

  /** The world with its next fate used up. */
  function Ahead(w: World): World {
    w.(fates := if w.fates == [] then [] else w.fates[1..])
  }

  lemma ClearOn(w: World, n: nat)
    requires n > 0
    ensures Clear(w, n) <==> Clear(w, 1) && Clear(Ahead(w), n - 1)
  {
  }

  /** A command takes effect exactly if its fate lets it and ZFS does. */
  lemma IssueTells(w: World, c: Command)
    ensures Clear(w, 1) ==> Issue(w, c) == Perform(Ahead(w), c)
    ensures !Clear(w, 1) ==> !Issue(w, c).ok && Issue(w, c).world.store == w.store
    ensures !Clear(w, 1) && w.alive && w.fates[0] == Refused ==> Issue(w, c).world == Ahead(w)
    ensures !Clear(w, 1) && !(w.alive && w.fates[0] == Refused) ==> !Issue(w, c).world.alive
  {
  }

  /** Commands in order, up to the first that fails. */
  function RunAll(w: World, cs: seq<Command>): Reply
    decreases |cs|
  {
    if cs == [] then Reply(w, true)
    else
      var r := Issue(w, cs[0]);
      if r.ok then RunAll(r.world, cs[1..]) else r
  }

  lemma {:induction false} RunAllConcat(w: World, a: seq<Command>, b: seq<Command>)
    ensures RunAll(w, a + b) == (var r := RunAll(w, a); if r.ok then RunAll(r.world, b) else r)
    decreases |a|
  {
    if a == [] {
      assert a + b == b;
    } else {
      assert (a + b)[1..] == a[1..] + b;
      RunAllConcat(Issue(w, a[0]).world, a[1..], b);
    }
  }

  // ---- Workspaces ----

  datatype Setup = Setup(pool: string, slug: string, runId: string, path: string)
  {
    function Repo(): string { RepoDataset(pool, slug) }
    function RunDs(): string { RunDataset(pool, runId) }
    function Root(): string { CacheRoot(pool, slug) }
    function RunSnap(): SnapRef { SnapRef(Repo(), "run-" + runId) }
  }

  /** First use clones the repository, later runs fetch; either way `files` are checked out. */
  function EnsureRepo(w: World, u: Setup, head: Tree, files: Tree): Reply {
    var known := Issue(w, ListDataset(u.Repo()));
    if !known.ok then
      RunAll(known.world, [CreateParents(u.Repo()), GetMountpoint(u.Repo()), Chown(u.Repo()),
                           GitClone(u.Repo(), head), Checkout(u.Repo(), files)])
    else
      RunAll(known.world, [GetMountpoint(u.Repo()), Fetch(u.Repo()), Checkout(u.Repo(), files)])
  }

  function Prepare(w: World, u: Setup, head: Tree, files: Tree): Reply {
    var repo := EnsureRepo(w, u, head, files);
    if !repo.ok then repo else
    var snap := Issue(repo.world, Snapshot(u.RunSnap()));
    if !snap.ok then snap else
    var made := Issue(snap.world, Clone(u.RunSnap(), u.RunDs(), Inherited));
    if !made.ok then Reply(Issue(made.world, DestroySnap(u.RunSnap())).world, false) else
    RunAll(made.world, [GetMountpoint(u.RunDs()), Chown(u.RunDs())])
  }

  function Cleanup(w: World, u: Setup): World {
    Issue(Issue(w, DestroyAll(u.RunDs())).world, DestroySnap(u.RunSnap())).world
  }

  // ---- Caches ----

  datatype CacheClone = CacheClone(base: string, clone: string, restored: bool, inWorkspace: bool)

  datatype Attached = Attached(world: World, caches: seq<CacheClone>, ok: bool)

  function Latest(base: string): SnapRef { SnapRef(base, "latest") }

  function MountOption(u: Setup, c: Cache): Mountpoint {
    var path := Normalize(c.path);
    if IsAbsolute(path) then Inherited else At(u.path + "/" + path)
  }

  function CloneFor(u: Setup, c: Cache, restored: bool): CacheClone {
    CacheClone(Base(u.Root(), c.name), RunClone(u.Root(), c.name, u.runId), restored,
               !IsAbsolute(Normalize(c.path)))
  }

  function Provision(u: Setup, c: Cache, restored: bool): Command {
    var clone := RunClone(u.Root(), c.name, u.runId);
    if restored then Clone(Latest(Base(u.Root(), c.name)), clone, MountOption(u, c))
    else Create(clone, MountOption(u, c))
  }

  function Settle(c: CacheClone): seq<Command> {
    [GetMountpoint(c.clone)] + if c.inWorkspace then [Chown(c.clone)] else []
  }

  /** One cache: a clone of `base@latest` if that exists, an empty dataset otherwise. */
  function AttachOne(w: World, u: Setup, c: Cache): Attached {
    var listed := Issue(w, ListSnap(Latest(Base(u.Root(), c.name))));
    var made := Issue(listed.world, Provision(u, c, listed.ok));
    if !made.ok then Attached(made.world, [], false) else
    var clone := CloneFor(u, c, listed.ok);
    var settled := RunAll(made.world, Settle(clone));
    Attached(settled.world, [clone], settled.ok)
  }

  /** The loop over the declared caches; it stops at the first that fails. */
  function AttachEach(w: World, u: Setup, caches: seq<Cache>): Attached {
    if caches == [] then Attached(w, [], true) else
    var done := AttachEach(w, u, caches[..|caches| - 1]);
    if !done.ok then done else
    var one := AttachOne(done.world, u, caches[|caches| - 1]);
    Attached(one.world, done.caches + one.caches, one.ok)
  }

  function AttachAll(w: World, u: Setup, caches: seq<Cache>): Attached {
    if caches == [] then Attached(w, [], true) else
    var root := Issue(w, CreateParents(u.Root()));
    if !root.ok then Attached(root.world, [], false) else AttachEach(root.world, u, caches)
  }

  function CommitHead(c: CacheClone): seq<Command> {
    (if c.inWorkspace then [Inherit(c.clone)] else []) + (if c.restored then [Promote(c.clone)] else [])
  }

  function CommitTail(c: CacheClone, runId: string, hadBase: bool): seq<Command> {
    var aside := SetAside(c.base, runId);
    (if hadBase then [Rename(c.base, aside)] else [])
    + [Rename(c.clone, c.base)]
    + (if hadBase then [DestroyAll(aside)] else [])
    + (if c.restored then [DestroySnap(Latest(c.base))] else [])
    + [Snapshot(Latest(c.base))]
  }

  /** Make the run's clone the new base, snapshotted as `@latest`. */
  function Commit(w: World, runId: string, c: CacheClone): Reply {
    var head := RunAll(w, CommitHead(c));
    if !head.ok then head else
    var had := Issue(head.world, ListDataset(c.base));
    RunAll(had.world, CommitTail(c, runId, had.ok))
  }

  function FinishOne(w: World, runId: string, c: CacheClone, success: bool): World {
    if success then Commit(w, runId, c).world else Issue(w, DestroyAll(c.clone)).world
  }

  /** Failures are logged and the next cache is taken up all the same. */
  function FinishEach(w: World, runId: string, caches: seq<CacheClone>, success: bool): World {
    if caches == [] then w else
    var done := FinishEach(w, runId, caches[..|caches| - 1], success);
    FinishOne(done, runId, caches[|caches| - 1], success)
  }

  function FinishRun(w: World, u: Setup, caches: seq<CacheClone>, success: bool): World {
    Cleanup(FinishEach(w, u.runId, caches, success), u)
  }

  // ---- What the steps do in between ----

  function Clones(caches: seq<CacheClone>): set<string> {
    set i | 0 <= i < |caches| :: caches[i].clone
  }

  /** The steps write into the datasets they are given. */
  function Worked(s: Store, touched: set<string>, work: (string, Files) -> Files): Store {
    map d | d in s :: if d in touched then s[d].(files := work(d, s[d].files)) else s[d]
  }

  // ---- The same, command by command ----

  /** The agent's host: every command goes through `Do`. */
  class Host {
    var store: Store
    var fates: seq<Fate>
    var alive: bool

    constructor (store: Store, fates: seq<Fate>)
      ensures Now() == World(store, fates, true)
    {
      this.store, this.fates, this.alive := store, fates, true;
    }

    ghost function Now(): World
      reads this
    {
      World(store, fates, alive)
    }

    /** The steps of a run write into the datasets they were given. */
    method Write(touched: set<string>, work: (string, Files) -> Files)
      modifies this
      ensures Now() == old(Now()).(store := Worked(old(store), touched, work))
    {
      store := Worked(store, touched, work);
    }

    method Do(c: Command) returns (ok: bool)
      modifies this
      ensures Reply(Now(), ok) == Issue(old(Now()), c)
    {
      if !alive {
        return false;
      }
      var fate := Obeyed;
      if fates != [] {
        fate, fates := fates[0], fates[1..];
      }
      match fate
      case Refused => return false;
      case Killed =>
        alive := false;
        return false;
      case Obeyed =>
        match Apply(store, c)
        case None => return false;
        case Some(s) =>
          store := s;
          return true;
    }
  }

  class Workspace {
    const host: Host
    const setup: Setup
    var caches: seq<CacheClone>

    constructor (host: Host, setup: Setup)
      ensures this.host == host && this.setup == setup && caches == []
    {
      this.host, this.setup, this.caches := host, setup, [];
    }

    /** One round of the loop in `AttachCaches`. */
    method AttachCache(c: Cache) returns (ok: bool)
      modifies this`caches, host
      ensures var one := AttachOne(old(host.Now()), setup, c);
        Attached(host.Now(), caches, ok) == Attached(one.world, old(caches) + one.caches, one.ok)
    {
      var base := Base(setup.Root(), c.name);
      var clone := RunClone(setup.Root(), c.name, setup.runId);
      var inWorkspace := !IsAbsolute(Normalize(c.path));
      var mount := if inWorkspace then At(setup.path + "/" + Normalize(c.path)) else Inherited;
      var restored := host.Do(ListSnap(Latest(base)));
      if restored {
        ok := host.Do(Clone(Latest(base), clone, mount));
      } else {
        ok := host.Do(Create(clone, mount));
      }
      if !ok {
        return;
      }
      caches := caches + [CacheClone(base, clone, restored, inWorkspace)];
      ghost var made := host.Now();
      ok := host.Do(GetMountpoint(clone));
      if ok && inWorkspace {
        ok := host.Do(Chown(clone));
      }
      SettleRuns(made, CloneFor(setup, c, restored));
    }

    method AttachCaches(declared: seq<Cache>) returns (ok: bool)
      modifies this`caches, host
      ensures var a := AttachAll(old(host.Now()), setup, declared);
        Attached(host.Now(), caches, ok) == Attached(a.world, old(caches) + a.caches, a.ok)
    {
      if declared == [] {
        return true;
      }
      ok := host.Do(CreateParents(setup.Root()));
      if !ok {
        return;
      }
      ghost var w0 := host.Now();
      for i := 0 to |declared|
        invariant var a := AttachEach(w0, setup, declared[..i]);
          ok && a.ok && Attached(host.Now(), caches, true) == Attached(a.world, old(caches) + a.caches, true)
      {
        assert declared[..i + 1][..i] == declared[..i];
        ghost var before := AttachEach(w0, setup, declared[..i]).caches;
        ghost var one := AttachOne(host.Now(), setup, declared[i]).caches;
        assert old(caches) + before + one == old(caches) + (before + one);
        ok := AttachCache(declared[i]);
        if !ok {
          AttachStops(w0, setup, declared, i + 1);
          return;
        }
      }
      assert declared[..|declared|] == declared;
    }

    method Finish(success: bool)
      modifies host
      ensures host.Now() == FinishRun(old(host.Now()), setup, caches, success)
    {
      ghost var w0 := host.Now();
      for i := 0 to |caches|
        invariant host.Now() == FinishEach(w0, setup.runId, caches[..i], success)
      {
        assert caches[..i + 1][..i] == caches[..i];
        if success {
          var _ := CommitCache(host, setup.runId, caches[i]);
        } else {
          var _ := host.Do(DestroyAll(caches[i].clone));
        }
      }
      assert caches[..|caches|] == caches;
      var _ := host.Do(DestroyAll(setup.RunDs()));
      var _ := host.Do(DestroySnap(setup.RunSnap()));
    }
  }

  method CommitCache(host: Host, runId: string, c: CacheClone) returns (ok: bool)
    modifies host
    ensures Reply(host.Now(), ok) == Commit(old(host.Now()), runId, c)
  {
    ghost var w0 := host.Now();
    ok := true;
    if c.inWorkspace {
      ok := host.Do(Inherit(c.clone));
    }
    if ok && c.restored {
      ok := host.Do(Promote(c.clone));
    }
    HeadRuns(w0, c);
    if !ok {
      return;
    }
    var aside := SetAside(c.base, runId);
    var hadBase := host.Do(ListDataset(c.base));
    ghost var w1 := host.Now();
    if hadBase {
      ok := host.Do(Rename(c.base, aside));
    }
    if ok {
      ok := host.Do(Rename(c.clone, c.base));
    }
    if ok && hadBase {
      ok := host.Do(DestroyAll(aside));
    }
    if ok && c.restored {
      ok := host.Do(DestroySnap(Latest(c.base)));
    }
    if ok {
      ok := host.Do(Snapshot(Latest(c.base)));
    }
    TailRuns(w1, c, runId, hadBase);
  }

  /** Provision a workspace; the repository's first use and later fetches differ in their commands only. */
  method PrepareWorkspace(host: Host, u: Setup, head: Tree, files: Tree) returns (ok: bool)
    modifies host
    ensures Reply(host.Now(), ok) == Prepare(old(host.Now()), u, head, files)
  {
    var known := host.Do(ListDataset(u.Repo()));
    ghost var w1 := host.Now();
    ok := true;
    if !known {
      ok := host.Do(CreateParents(u.Repo()));
      if ok { ok := host.Do(GetMountpoint(u.Repo())); }
      if ok { ok := host.Do(Chown(u.Repo())); }
      if ok { ok := host.Do(GitClone(u.Repo(), head)); }
      if ok { ok := host.Do(Checkout(u.Repo(), files)); }
      RunFive(w1, CreateParents(u.Repo()), GetMountpoint(u.Repo()), Chown(u.Repo()),
              GitClone(u.Repo(), head), Checkout(u.Repo(), files));
    } else {
      ok := host.Do(GetMountpoint(u.Repo()));
      if ok { ok := host.Do(Fetch(u.Repo())); }
      if ok { ok := host.Do(Checkout(u.Repo(), files)); }
      RunThree(w1, GetMountpoint(u.Repo()), Fetch(u.Repo()), Checkout(u.Repo(), files));
    }
    if !ok {
      return;
    }
    ok := host.Do(Snapshot(u.RunSnap()));
    if !ok {
      return;
    }
    ok := host.Do(Clone(u.RunSnap(), u.RunDs(), Inherited));
    if !ok {
      var _ := host.Do(DestroySnap(u.RunSnap()));
      return;
    }
    ghost var w2 := host.Now();
    ok := host.Do(GetMountpoint(u.RunDs()));
    if ok { ok := host.Do(Chown(u.RunDs())); }
    RunTwo(w2, GetMountpoint(u.RunDs()), Chown(u.RunDs()));
  }

  // ---- Command lists, unrolled ----

  /** `b` after `r`, unless `r` failed. */
  function Then(r: Reply, b: Command): Reply {
    if r.ok then Issue(r.world, b) else r
  }

  function ThenIf(r: Reply, go: bool, b: Command): Reply {
    if go then Then(r, b) else r
  }

  lemma {:induction false} RunAllThen(w: World, a: seq<Command>, go: bool, b: Command)
    ensures RunAll(w, a + if go then [b] else []) == ThenIf(RunAll(w, a), go, b)
  {
    if go {
      RunAllConcat(w, a, [b]);
      var r := RunAll(w, a);
      assert [b][1..] == [];
      assert r.ok ==> RunAll(r.world, [b]) == Issue(r.world, b);
    } else {
      assert a + [] == a;
    }
  }

  lemma {:induction false} HeadRuns(w: World, c: CacheClone)
    ensures RunAll(w, CommitHead(c)) ==
      ThenIf(ThenIf(Reply(w, true), c.inWorkspace, Inherit(c.clone)), c.restored, Promote(c.clone))
  {
    var a: seq<Command> := if c.inWorkspace then [Inherit(c.clone)] else [];
    assert [] + a == a;
    RunAllThen(w, [], c.inWorkspace, Inherit(c.clone));
    RunAllThen(w, a, c.restored, Promote(c.clone));
  }

  lemma {:induction false} TailRuns(w: World, c: CacheClone, runId: string, hadBase: bool)
    ensures var aside := SetAside(c.base, runId);
      RunAll(w, CommitTail(c, runId, hadBase)) ==
      Then(ThenIf(ThenIf(Then(ThenIf(Reply(w, true), hadBase, Rename(c.base, aside)),
                              Rename(c.clone, c.base)),
                         hadBase, DestroyAll(aside)),
                  c.restored, DestroySnap(Latest(c.base))),
           Snapshot(Latest(c.base)))
  {
    var aside := SetAside(c.base, runId);
    var a: seq<Command> := if hadBase then [Rename(c.base, aside)] else [];
    assert [] + a == a;
    RunAllThen(w, [], hadBase, Rename(c.base, aside));
    RunAllThen(w, a, true, Rename(c.clone, c.base));
    var b := a + [Rename(c.clone, c.base)];
    RunAllThen(w, b, hadBase, DestroyAll(aside));
    var d := b + if hadBase then [DestroyAll(aside)] else [];
    RunAllThen(w, d, c.restored, DestroySnap(Latest(c.base)));
    var e := d + if c.restored then [DestroySnap(Latest(c.base))] else [];
    RunAllThen(w, e, true, Snapshot(Latest(c.base)));
  }

  lemma {:induction false} SettleRuns(w: World, c: CacheClone)
    ensures RunAll(w, Settle(c)) ==
      ThenIf(Issue(w, GetMountpoint(c.clone)), c.inWorkspace, Chown(c.clone))
  {
    assert [GetMountpoint(c.clone)][1..] == [];
    RunAllThen(w, [GetMountpoint(c.clone)], c.inWorkspace, Chown(c.clone));
  }

  lemma {:induction false} RunTwo(w: World, a: Command, b: Command)
    ensures RunAll(w, [a, b]) == Then(Issue(w, a), b)
  {
    RunAllConcat(w, [a], [b]);
    assert [a] + [b] == [a, b];
    assert [a][1..] == [] && [b][1..] == [];
  }

  lemma {:induction false} RunThree(w: World, a: Command, b: Command, c: Command)
    ensures RunAll(w, [a, b, c]) == Then(Then(Issue(w, a), b), c)
  {
    RunTwo(w, a, b);
    RunAllConcat(w, [a, b], [c]);
    assert [a, b] + [c] == [a, b, c];
    assert [c][1..] == [];
  }

  lemma {:induction false} RunFive(w: World, a: Command, b: Command, c: Command, d: Command, e: Command)
    ensures RunAll(w, [a, b, c, d, e]) == Then(Then(Then(Then(Issue(w, a), b), c), d), e)
  {
    RunThree(w, a, b, c);
    RunAllConcat(w, [a, b, c], [d, e]);
    assert [a, b, c] + [d, e] == [a, b, c, d, e];
    var r := RunAll(w, [a, b, c]);
    RunTwo(r.world, d, e);
  }

  /** Once attaching failed, the caches declared after make no difference. */
  lemma {:induction false} AttachStops(w: World, u: Setup, caches: seq<Cache>, i: nat)
    requires i <= |caches|
    ensures !AttachEach(w, u, caches[..i]).ok ==> AttachEach(w, u, caches) == AttachEach(w, u, caches[..i])
    decreases |caches|
  {
    if i == |caches| {
      assert caches[..i] == caches;
    } else {
      var rest := caches[..|caches| - 1];
      assert rest[..i] == caches[..i];
      AttachStops(w, u, rest, i);
    }
  }
}
