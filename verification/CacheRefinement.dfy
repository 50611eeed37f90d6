/**
 The caches of a pool as a plain map from cache to content: what any sequence of undisturbed runs does to
 it, and what becomes of that once a crash has left a clone behind.
 */
module CacheRefinement {
  import opened Outcomes
  import opened Zfs
  import opened Families
  import opened CacheNames
  import opened CachePath
  import opened CacheProtocol
  import opened CacheFrames
  import opened CacheShape
  import opened CacheCommit
  import opened CacheCrash
  import opened CacheHistory
  import opened CacheRuns

  type Caches = map<string, Files>

  /** All there is of cache `g` when it holds what `caches` says. */
  function Entry(caches: Caches, g: string): Store {
    if g in caches then map[g := Committed(caches[g])] else map[]
  }

  /**
   The pool is at rest and holds exactly `caches`: each is a lone base with a matching `@latest`, without
   origin and without dependents, and no other dataset has an origin or a snapshot.
   */
  ghost predicate Holding(f: string -> string, s: Store, caches: Caches) {
    && (forall d :: d in s ==> s[d].origin == None && (f(d) == "" ==> s[d].snaps == []))
    && (forall g :: g != "" ==> Sub(f, s, g) == Entry(caches, g))
  }

  /** The map after the first `n` caches of a successful run: each gets what the steps made of its old entry. */
  function Update(caches: Caches, r: Run, n: nat): Caches
    requires n <= |r.caches|
  {
    if n == 0 then caches else
    var g := BaseAt(r, n - 1);
    Update(caches, r, n - 1)[g := r.work(CloneAt(r, n - 1), if g in caches then caches[g] else map[])]
  }

  function AbstractRun(caches: Caches, r: Run): Caches {
    if r.success then Update(caches, r, |r.caches|) else caches
  }

  lemma {:induction false} UpdateAt(caches: Caches, r: Run, n: nat, g: string)
    requires n <= |r.caches|
    requires forall i, j :: 0 <= i < j < |r.caches| ==> BaseAt(r, i) != BaseAt(r, j)
    ensures (forall i :: 0 <= i < n ==> BaseAt(r, i) != g) ==> Entry(Update(caches, r, n), g) == Entry(caches, g)
    ensures forall i :: 0 <= i < n && BaseAt(r, i) == g ==>
      && g in Update(caches, r, n)
      && Update(caches, r, n)[g] == r.work(CloneAt(r, i), if g in caches then caches[g] else map[])
  {
    if n > 0 {
      UpdateAt(caches, r, n - 1, g);
      assert BaseAt(r, n - 1) == g ==> forall i :: 0 <= i < n - 1 ==> BaseAt(r, i) != g;
    }
  }

  /** What the names of a run have to satisfy in an otherwise quiet pool. */
  ghost predicate RunsOn(f: string -> string, s: Store, r: Run) {
    && Declared(f, r.setup, r.caches)
    && r.setup.RunDs() !in s && r.setup.RunDs() != r.setup.Repo() && Usable(s, r.setup.Repo())
    && r.setup.Root() != r.setup.Repo() && r.setup.Root() != r.setup.RunDs()
  }

  lemma HoldingIsFresh(f: string -> string, s: Store, caches: Caches, r: Run)
    requires Holding(f, s, caches) && RunsOn(f, s, r)
    ensures FreshRun(f, s, r)
    ensures forall i :: 0 <= i < |r.caches| ==>
      BaseAt(r, i) != "" && Shape(Sub(f, s, BaseAt(r, i))) && Ready(Sub(f, s, BaseAt(r, i)), BaseAt(r, i))
  {
    forall i | 0 <= i < |r.caches|
      ensures BaseAt(r, i) != "" && FreshFor(Sub(f, s, BaseAt(r, i)), r.setup, r.caches[i])
    {
      assert DeclaredOne(f, r.setup, r.caches[i]);
      assert Sub(f, s, BaseAt(r, i)) == Entry(caches, BaseAt(r, i));
    }
  }

  /** One undisturbed run refines one step of the map. */
  lemma RunRefines(f: string -> string, st: State, caches: Caches, r: Run)
    requires Holding(f, st.store, caches) && RunsOn(f, st.store, r) && r.fates == []
    ensures Holding(f, Execute(st, r).store, AbstractRun(caches, r))
    ensures forall d :: d in Execute(st, r).store && f(d) == "" ==> FoundOrMade(st.store, Execute(st, r).store, r, d)
  {
    var s, t := st.store, Execute(st, r).store;
    HoldingIsFresh(f, s, caches, r);
    CalmRun(f, st, r);
    var after := AbstractRun(caches, r);
    forall g | g != "" ensures Sub(f, t, g) == Entry(after, g) {
      FamilyRefines(f, s, t, caches, r, g);
    }
    RestRefines(f, s, t, r);
    forall d | d in t ensures t[d].origin == None && (f(d) == "" ==> t[d].snaps == []) {
      assert d in Sub(f, t, f(d));
    }
  }

  lemma RestRefines(f: string -> string, s: Store, t: Store, r: Run)
    requires forall d :: d in s && f(d) == "" ==> s[d].origin == None && s[d].snaps == []
    requires Sub(f, t, "") == CheckedOut(WithRoot(Sub(f, s, ""), r), r.setup, r.files)
    ensures forall d :: d in t && f(d) == "" ==> t[d].origin == None && t[d].snaps == [] && FoundOrMade(s, t, r, d)
  {
    forall d | d in t && f(d) == ""
      ensures t[d].origin == None && t[d].snaps == [] && FoundOrMade(s, t, r, d)
    {
      assert d in Sub(f, t, "") && t[d] == Sub(f, t, "")[d];
    }
  }

  /** A dataset that is no cache: there before, or the run's repository, cloned, or its cache root. */
  ghost predicate FoundOrMade(s: Store, t: Store, r: Run, d: string)
    requires d in t
  {
    (d in s && t[d].files == s[d].files) || (d == r.setup.Repo() && Cloned(t, d)) || d == r.setup.Root()
  }

  lemma FamilyRefines(f: string -> string, s: Store, t: Store, caches: Caches, r: Run, g: string)
    requires g != "" && CachesSeen(f, s, t, r) && Sub(f, s, g) == Entry(caches, g)
    requires forall i, j :: 0 <= i < j < |r.caches| ==> BaseAt(r, i) != BaseAt(r, j)
    requires forall i :: 0 <= i < |r.caches| ==> FreshFor(Sub(f, s, BaseAt(r, i)), r.setup, r.caches[i])
    ensures Sub(f, t, g) == Entry(AbstractRun(caches, r), g)
  {
    UpdateAt(caches, r, |r.caches|, g);
    if i :| 0 <= i < |r.caches| && BaseAt(r, i) == g {
      assert CacheSeen(f, s, t, r, i);
      LoneRefines(caches, r, i);
    } else {
      assert NotOf(r, g) by { assert forall i :: 0 <= i < |r.caches| ==> BaseAt(r, i) != g; }
    }
  }

  /** A cache that is at rest, through one run. */
  lemma LoneRefines(caches: Caches, r: Run, i: nat)
    requires i < |r.caches| && FreshFor(Entry(caches, BaseAt(r, i)), r.setup, r.caches[i])
    ensures var g := BaseAt(r, i);
      LoneRun(Entry(caches, g), r.setup, r.caches[i], r.work, r.success).world.store ==
        if r.success then map[g := Committed(r.work(CloneAt(r, i), if g in caches then caches[g] else map[]))]
        else Entry(caches, g)
  {
    EntryAtRest(caches, BaseAt(r, i));
    LoneRunExact(Entry(caches, BaseAt(r, i)), r.setup, r.caches[i], r.work, r.success);
  }

  lemma EntryAtRest(caches: Caches, g: string)
    ensures var u := Entry(caches, g);
      && Shape(u) && Ready(u, g)
      && Handed(u, g) == (if g in caches then caches[g] else map[])
      && forall d :: u[g := d] == map[g := d]
  {
  }

  // ---- Sequences of runs ----

  function AbstractRuns(caches: Caches, runs: seq<Run>): Caches {
    if runs == [] then caches
    else AbstractRun(AbstractRuns(caches, runs[..|runs| - 1]), runs[|runs| - 1])
  }

  /** Run workspaces are new and are not taken for repositories, and repositories that exist are clones. */
  predicate WorkspacesFree(s: Store, runs: seq<Run>) {
    && (forall i :: 0 <= i < |runs| ==> runs[i].setup.RunDs() !in s && Usable(s, runs[i].setup.Repo()))
    && (forall i, j :: 0 <= i < |runs| && 0 <= j < |runs| ==> runs[i].setup.RunDs() != runs[j].setup.Repo())
  }

  lemma PathsDiffer(u: Setup, v: Setup)
    requires u.pool == v.pool && '/' !in v.slug && '/' !in u.runId
    ensures u.Root() != v.Repo() && u.Root() != u.RunDs()
    ensures v.Root() != u.RunDs()
  {
    var p := u.pool;
    assert u.Root()[|p| + 6] == '/';
    assert |v.Repo()| > |p| + 6 ==> v.Repo()[|p| + 6] == v.slug[5];
    assert u.Root()[|p| + 1] == 'c' && v.Root()[|p| + 1] == 'c' && u.RunDs()[|p| + 1] == 'r';
  }

  lemma {:induction false} RunsRefineFrom(pool: string, st: State, caches: Caches, runs: seq<Run>)
    requires Holding(FamilyIn(pool), st.store, caches) && WorkspacesFree(st.store, runs)
    requires forall i :: 0 <= i < |runs| ==> runs[i].fates == [] && ValidRun(pool, runs[i])
    ensures Holding(FamilyIn(pool), ExecuteAll(st, runs).store, AbstractRuns(caches, runs))
    ensures forall d :: d in ExecuteAll(st, runs).store && FamilyIn(pool)(d) == "" ==>
      Accounted(st.store, ExecuteAll(st, runs).store, runs, d)
  {
    if runs != [] {
      var f := FamilyIn(pool);
      var rest, r := runs[..|runs| - 1], runs[|runs| - 1];
      assert forall i :: 0 <= i < |rest| ==> rest[i] == runs[i];
      RunsRefineFrom(pool, st, caches, rest);
      var mid := ExecuteAll(st, rest);
      ValidRunIsDeclared(pool, r);
      NextRunsOn(pool, st.store, mid.store, runs);
      hide Holding, RunsOn, FoundOrMade, Accounted;
      RunRefines(f, mid, AbstractRuns(caches, rest), r);
      var t := Execute(mid, r).store;
      hide Execute;
      forall d | d in t && f(d) == "" ensures Accounted(st.store, t, runs, d) {
        assert d in mid.store ==> Accounted(st.store, mid.store, rest, d);
        AccountedNext(st.store, mid.store, t, runs, d);
      }
    }
  }

  /** A dataset that is no cache, over several runs. */
  ghost predicate Accounted(s: Store, t: Store, runs: seq<Run>, d: string)
    requires d in t
  {
    || (d in s && t[d].files == s[d].files)
    || (exists i :: 0 <= i < |runs| && d == runs[i].setup.Repo() && Cloned(t, d))
    || (exists i :: 0 <= i < |runs| && d == runs[i].setup.Root())
  }

  lemma {:induction false} AccountedNext(s: Store, m: Store, t: Store, runs: seq<Run>, d: string)
    requires runs != [] && d in t
    requires d in m ==> Accounted(s, m, runs[..|runs| - 1], d)
    requires FoundOrMade(m, t, runs[|runs| - 1], d)
    ensures Accounted(s, t, runs, d)
  {
    var rest := runs[..|runs| - 1];
    if d in m && t[d].files == m[d].files {
      if i :| 0 <= i < |rest| && (d == rest[i].setup.Repo() || d == rest[i].setup.Root()) {
        assert rest[i] == runs[i];
      }
    }
  }

  /** The last run finds its workspace free and its repository usable. */
  lemma {:induction false} NextRunsOn(pool: string, s: Store, m: Store, runs: seq<Run>)
    requires runs != [] && WorkspacesFree(s, runs) && forall i :: 0 <= i < |runs| ==> ValidRun(pool, runs[i])
    requires forall d :: d in m && FamilyIn(pool)(d) == "" ==> Accounted(s, m, runs[..|runs| - 1], d)
    requires Declared(FamilyIn(pool), runs[|runs| - 1].setup, runs[|runs| - 1].caches)
    ensures RunsOn(FamilyIn(pool), m, runs[|runs| - 1])
  {
    var rest, u := runs[..|runs| - 1], runs[|runs| - 1].setup;
    forall i | 0 <= i < |rest|
      ensures u.RunDs() != rest[i].setup.Repo() && u.RunDs() != rest[i].setup.Root() && u.Repo() != rest[i].setup.Root()
    {
      assert rest[i] == runs[i];
      PathsDiffer(u, rest[i].setup);
      PathsDiffer(rest[i].setup, u);
    }
    PathsDiffer(u, u);
    hide ValidRun, FamilyIn;
    assert u.Repo() in m ==> Accounted(s, m, rest, u.Repo());
  }

  /**
   Refinement. Any sequence of undisturbed runs on an empty pool leaves exactly the caches the plain map
   gets from the successful ones; each run is handed its entry of the map, failed runs change nothing.
   */
  lemma {:induction false} RunsRefineMap(pool: string, runs: seq<Run>)
    requires forall i :: 0 <= i < |runs| ==> runs[i].fates == [] && ValidRun(pool, runs[i])
    requires forall i, j :: 0 <= i < |runs| && 0 <= j < |runs| ==> runs[i].setup.RunDs() != runs[j].setup.Repo()
    ensures Holding(FamilyIn(pool), ExecuteAll(State(map[], {}), runs).store, AbstractRuns(map[], runs))
  {
    RunsRefineFrom(pool, State(map[], {}), map[], runs);
  }

  // ---- A leftover clone ----

  lemma LoneLeftover(t: Store, u: Setup, c: Cache, work: (string, Files) -> Files, success: bool,
                     x: string, files: Files)
    requires Leftover(t, Base(u.Root(), c.name), x, files) && FreshFor(t, u, c)
    ensures Leftover(LoneRun(t, u, c, work, success).world.store, Base(u.Root(), c.name), x, files)
    ensures success ==> !LoneRun(t, u, c, work, success).ok
  {
    LoneRunExact(t, u, c, work, success);
    assert !Ready(t, Base(u.Root(), c.name));
  }

  lemma LeftoverStays(f: string -> string, st: State, r: Run, base: string, x: string, files: Files)
    requires base != "" && Leftover(Sub(f, st.store, base), base, x, files)
    requires r.fates == [] && FreshRun(f, st.store, r)
    ensures Leftover(Sub(f, Execute(st, r).store, base), base, x, files)
  {
    CalmRun(f, st, r);
    LeftoverSeen(f, st.store, Execute(st, r).store, r, base, x, files);
  }

  lemma SeenAt(f: string -> string, s: Store, t: Store, r: Run, i: nat)
    requires CachesSeen(f, s, t, r) && i < |r.caches|
    ensures Sub(f, t, BaseAt(r, i))
         == LoneRun(Sub(f, s, BaseAt(r, i)), r.setup, r.caches[i], r.work, r.success).world.store
  {
    assert CacheSeen(f, s, t, r, i);
  }

  lemma LeftoverSeen(f: string -> string, s: Store, t: Store, r: Run, base: string, x: string, files: Files)
    requires base != "" && Leftover(Sub(f, s, base), base, x, files)
    requires CachesSeen(f, s, t, r) && FreshCaches(f, s, r)
    ensures Leftover(Sub(f, t, base), base, x, files)
  {
    if i :| 0 <= i < |r.caches| && BaseAt(r, i) == base {
      SeenAt(f, s, t, r, i);
      LoneLeftover(Sub(f, s, base), r.setup, r.caches[i], r.work, r.success, x, files);
    } else {
      assert NotOf(r, base) by { assert forall i :: 0 <= i < |r.caches| ==> BaseAt(r, i) != base; }
    }
  }

  /** Run `i` is undisturbed and its names are new to the pool it meets. */
  ghost predicate CalmAt(f: string -> string, st: State, runs: seq<Run>, i: nat)
    requires i < |runs|
  {
    runs[i].fates == [] && FreshRun(f, ExecuteAll(st, runs[..i]).store, runs[i])
  }

  /**
   No self-healing. Once a leftover clone depends on `base@latest`, no number of undisturbed runs under new
   names, successful or not, ever changes what `@latest` holds: every later run starts from the same files.
   */
  lemma {:induction false} LeftoverFreezesCache(f: string -> string, st: State, runs: seq<Run>, base: string,
                                                x: string, files: Files)
    requires base != "" && Leftover(Sub(f, st.store, base), base, x, files)
    requires forall i :: 0 <= i < |runs| ==> CalmAt(f, st, runs, i)
    ensures Leftover(Sub(f, ExecuteAll(st, runs).store, base), base, x, files)
  {
    if runs != [] {
      var n := |runs| - 1;
      CalmBefore(f, st, runs);
      LeftoverFreezesCache(f, st, runs[..n], base, x, files);
      LeftoverStays(f, ExecuteAll(st, runs[..n]), runs[n], base, x, files);
      assert ExecuteAll(st, runs) == Execute(ExecuteAll(st, runs[..n]), runs[n]);
    }
  }

  /**
   So a mishap at a point that does not heal blocks the cache for good: however many undisturbed runs follow,
   `@latest` holds what it held before that commit.
   */
  lemma {:induction false} MishapFreezesCache(f: string -> string, st: State, runs: seq<Run>, u: Store, runId: string,
                                              c: CacheClone, k: nat, fate: Mishap)
    requires Restorable(u, c, runId) && !Heals(u, c, k) && c.base != ""
    requires Sub(f, st.store, c.base) == StoppedAt(u, runId, c, k, fate)
    requires forall i :: 0 <= i < |runs| ==> CalmAt(f, st, runs, i)
    ensures HasLatest(u, c.base)
    ensures var t := Sub(f, ExecuteAll(st, runs).store, c.base);
      HasLatest(t, c.base) && t[c.base].snaps[0].files == u[c.base].snaps[0].files
  {
    hide StoppedAt, ExecuteAll, CalmAt;
    var x := UnhealedIsLeftover(u, runId, c, k, fate);
    LeftoverFreezesCache(f, st, runs, c.base, x, u[c.base].snaps[0].files);
  }

  lemma CalmBefore(f: string -> string, st: State, runs: seq<Run>)
    requires runs != [] && forall i :: 0 <= i < |runs| ==> CalmAt(f, st, runs, i)
    ensures var n := |runs| - 1;
      && runs[n].fates == [] && FreshRun(f, ExecuteAll(st, runs[..n]).store, runs[n])
      && forall i :: 0 <= i < n ==> CalmAt(f, st, runs[..n], i)
  {
    var n := |runs| - 1;
    assert CalmAt(f, st, runs, n);
    forall i | 0 <= i < n ensures CalmAt(f, st, runs[..n], i) {
      assert CalmAt(f, st, runs, i);
      assert runs[..n][..i] == runs[..i] && runs[..n][i] == runs[i];
    }
  }
}
