/**
 Runs handle many caches, one after the other. Seen from one cache, everything a run does to the others
 is invisible: its part of the store evolves as if it were alone. Commands come first, then the parts of
 the protocol for one cache, then the attach loop and the finish loop, each of which is seen from any one
 cache as a single round.
 */
module CacheFrames {
  import opened Outcomes
  import opened Zfs
  import opened Families
  import opened CacheNames
  import opened CachePath
  import opened CacheProtocol

  /** The world with family `g` alone in the pool. */
  function On(f: string -> string, w: World, g: string): World {
    w.(store := Sub(f, w.store, g))
  }

  /** From `s` to `t` only family `g` changed, and `t` is still split cleanly. */
  ghost predicate OnlyTouched(f: string -> string, s: Store, t: Store, g: string) {
    Local(f, t) && forall h :: h != g ==> Sub(f, t, h) == Sub(f, s, h)
  }

  /** `r` is what happened in the whole pool from `w`, `r'` what happened to family `g` alone. */
  ghost predicate SameSeenFrom(f: string -> string, w: World, r: Reply, r': Reply, g: string) {
    r.ok == r'.ok && r'.world == On(f, r.world, g) && OnlyTouched(f, w.store, r.world.store, g)
  }

  lemma IssueFrame(f: string -> string, w: World, c: Command, g: string)
    requires Local(f, w.store) && Within(f, c, g)
    ensures SameSeenFrom(f, w, Issue(w, c), Issue(On(f, w, g), c), g)
  {
    hide Perform, Within, Sub, Local;
    if w.alive && (w.fates == [] || w.fates[0] == Obeyed) {
      var w' := if w.fates == [] then w else w.(fates := w.fates[1..]);
      PerformFrame(f, w', c, g);
    }
  }

  lemma PerformFrame(f: string -> string, w: World, c: Command, g: string)
    requires Local(f, w.store) && Within(f, c, g)
    ensures SameSeenFrom(f, w, Perform(w, c), Perform(On(f, w, g), c), g)
  {
    ApplyIsLocal(f, w.store, c, g);
    AnsweredFrame(f, w, Apply(w.store, c), Apply(Sub(f, w.store, g), c), g);
  }

  lemma AnsweredFrame(f: string -> string, w: World, whole: Option<Store>, part: Option<Store>, g: string)
    requires Local(f, w.store) && SameResult(f, w.store, g, whole, part)
    ensures SameSeenFrom(f, w, Answered(w, whole), Answered(On(f, w, g), part), g)
  {
  }

  lemma {:induction false} RunAllFrame(f: string -> string, w: World, cs: seq<Command>, g: string)
    requires Local(f, w.store) && forall i :: 0 <= i < |cs| ==> Within(f, cs[i], g)
    ensures SameSeenFrom(f, w, RunAll(w, cs), RunAll(On(f, w, g), cs), g)
    decreases |cs|
  {
    if cs != [] {
      IssueFrame(f, w, cs[0], g);
      RunAllFrame(f, Issue(w, cs[0]).world, cs[1..], g);
    }
  }

  /** The clone, its base and the name the base is set aside under all belong to the cache `c.base`. */
  ghost predicate Owned(f: string -> string, c: CacheClone, runId: string) {
    && c.base != ""
    && f(c.base) == c.base && f(c.clone) == c.base && f(SetAside(c.base, runId)) == c.base
  }

  lemma CommitFrame(f: string -> string, w: World, runId: string, c: CacheClone)
    requires Local(f, w.store) && Owned(f, c, runId)
    ensures SameSeenFrom(f, w, Commit(w, runId, c), Commit(On(f, w, c.base), runId, c), c.base)
  {
    var g := c.base;
    RunAllFrame(f, w, CommitHead(c), g);
    var head := RunAll(w, CommitHead(c));
    if head.ok {
      IssueFrame(f, head.world, ListDataset(c.base), g);
      var had := Issue(head.world, ListDataset(c.base));
      TailWithin(f, c, runId, had.ok);
      RunAllFrame(f, had.world, CommitTail(c, runId, had.ok), g);
    }
  }

  lemma TailWithin(f: string -> string, c: CacheClone, runId: string, hadBase: bool)
    requires Owned(f, c, runId)
    ensures forall i :: 0 <= i < |CommitTail(c, runId, hadBase)| ==>
      Within(f, CommitTail(c, runId, hadBase)[i], c.base)
  {
  }

  lemma FinishOneFrame(f: string -> string, w: World, runId: string, c: CacheClone, success: bool)
    requires Local(f, w.store) && Owned(f, c, runId)
    ensures FinishOne(On(f, w, c.base), runId, c, success) == On(f, FinishOne(w, runId, c, success), c.base)
    ensures OnlyTouched(f, w.store, FinishOne(w, runId, c, success).store, c.base)
  {
    if success {
      CommitFrame(f, w, runId, c);
    } else {
      IssueFrame(f, w, DestroyAll(c.clone), c.base);
    }
  }

  /** Nothing fails and nobody is killed from here on. */
  predicate Quiet(w: World) {
    w.alive && w.fates == []
  }

  lemma {:induction false} RunAllQuiet(w: World, cs: seq<Command>)
    requires Quiet(w)
    ensures Quiet(RunAll(w, cs).world)
    decreases |cs|
  {
    if cs != [] {
      RunAllQuiet(Issue(w, cs[0]).world, cs[1..]);
    }
  }

  lemma FinishOneQuiet(w: World, runId: string, c: CacheClone, success: bool)
    requires Quiet(w)
    ensures Quiet(FinishOne(w, runId, c, success))
  {
    if success {
      RunAllQuiet(w, CommitHead(c));
      var head := RunAll(w, CommitHead(c));
      var had := Issue(head.world, ListDataset(c.base));
      RunAllQuiet(had.world, CommitTail(c, runId, had.ok));
    }
  }

  ghost predicate DistinctBases(caches: seq<CacheClone>) {
    forall i, j :: 0 <= i < j < |caches| ==> caches[i].base != caches[j].base
  }

  ghost predicate AllOwned(f: string -> string, caches: seq<CacheClone>, runId: string) {
    forall i :: 0 <= i < |caches| ==> Owned(f, caches[i], runId)
  }

  /** Families other than those of `caches` come out of the loop unchanged. */
  lemma {:induction false} FinishEachLeaves(f: string -> string, w: World, runId: string, caches: seq<CacheClone>,
                                            success: bool)
    requires Local(f, w.store) && AllOwned(f, caches, runId)
    ensures var t := FinishEach(w, runId, caches, success).store;
      && Local(f, t)
      && forall h :: (forall i :: 0 <= i < |caches| ==> caches[i].base != h) ==> Sub(f, t, h) == Sub(f, w.store, h)
    ensures Quiet(w) ==> Quiet(FinishEach(w, runId, caches, success))
  {
    if caches != [] {
      var rest, last := caches[..|caches| - 1], caches[|caches| - 1];
      FinishEachLeaves(f, w, runId, rest, success);
      var done := FinishEach(w, runId, rest, success);
      FinishOneFrame(f, done, runId, last, success);
      if Quiet(w) {
        FinishOneQuiet(done, runId, last, success);
      }
      var t := FinishEach(w, runId, caches, success).store;
      forall h | forall i :: 0 <= i < |caches| ==> caches[i].base != h
        ensures Sub(f, t, h) == Sub(f, w.store, h)
      {
        assert caches[|caches| - 1].base != h;
        assert forall i :: 0 <= i < |rest| ==> rest[i] == caches[i];
      }
    }
  }

  /** What the loop does to cache `i` is one commit or discard of that cache alone, from where it was. */
  lemma {:induction false} FinishEachAt(f: string -> string, w: World, runId: string, caches: seq<CacheClone>,
                                        success: bool, i: nat)
      returns (w': World)
    requires Local(f, w.store) && AllOwned(f, caches, runId) && DistinctBases(caches) && i < |caches|
    ensures w' == On(f, FinishEach(w, runId, caches[..i], success), caches[i].base)
    ensures w'.store == Sub(f, w.store, caches[i].base)
    ensures Quiet(w) ==> Quiet(w')
    ensures Sub(f, FinishEach(w, runId, caches, success).store, caches[i].base)
         == FinishOne(w', runId, caches[i], success).store
  {
    var rest, last := caches[..|caches| - 1], caches[|caches| - 1];
    assert forall k :: 0 <= k < |rest| ==> rest[k] == caches[k];
    FinishEachLeaves(f, w, runId, rest, success);
    var done := FinishEach(w, runId, rest, success);
    FinishOneFrame(f, done, runId, last, success);
    if i == |caches| - 1 {
      w' := On(f, done, last.base);
    } else {
      w' := FinishEachAt(f, w, runId, rest, success, i);
      assert caches[i].base != last.base && rest[..i] == caches[..i];
    }
  }

  // ---- Attaching ----

  /** The names a run forms are where they belong. */
  ghost predicate Declared(f: string -> string, u: Setup, caches: seq<Cache>) {
    && f(u.Root()) == "" && f(u.Repo()) == "" && f(u.RunDs()) == ""
    && (forall i :: 0 <= i < |caches| ==> DeclaredOne(f, u, caches[i]))
    && (forall i, j :: 0 <= i < j < |caches| ==> Base(u.Root(), caches[i].name) != Base(u.Root(), caches[j].name))
  }

  ghost predicate DeclaredOne(f: string -> string, u: Setup, c: Cache) {
    var base := Base(u.Root(), c.name);
    && Owned(f, CloneFor(u, c, true), u.runId)
    && base != RunClone(u.Root(), c.name, u.runId)
    && base != SetAside(base, u.runId)
    && RunClone(u.Root(), c.name, u.runId) != SetAside(base, u.runId)
  }

  lemma AttachOneFrame(f: string -> string, w: World, u: Setup, c: Cache)
    requires Local(f, w.store) && DeclaredOne(f, u, c)
    ensures var base := Base(u.Root(), c.name);
      var r := AttachOne(w, u, c);
      var r' := AttachOne(On(f, w, base), u, c);
      && r.ok == r'.ok && r.caches == r'.caches && r'.world == On(f, r.world, base)
      && OnlyTouched(f, w.store, r.world.store, base)
      && (Quiet(w) ==> Quiet(r.world))
      && (r.caches == [] ==> r.world.store == w.store && !r.ok)
      && (r.caches != [] ==> r.caches == [CloneFor(u, c, r.caches[0].restored)])
  {
    var base := Base(u.Root(), c.name);
    var listed := Issue(w, ListSnap(Latest(base)));
    var made := Issue(listed.world, Provision(u, c, listed.ok));
    MakeFrame(f, w, u, c);
    if made.ok {
      SettleFrame(f, made.world, CloneFor(u, c, listed.ok));
    }
  }

  lemma MakeFrame(f: string -> string, w: World, u: Setup, c: Cache)
    requires Local(f, w.store) && DeclaredOne(f, u, c)
    ensures var base := Base(u.Root(), c.name);
      var listed := Issue(w, ListSnap(Latest(base)));
      var listed' := Issue(On(f, w, base), ListSnap(Latest(base)));
      var made := Issue(listed.world, Provision(u, c, listed.ok));
      && listed'.ok == listed.ok
      && SameSeenFrom(f, w, made, Issue(listed'.world, Provision(u, c, listed.ok)), base)
      && (!made.ok ==> made.world.store == w.store)
      && (Quiet(w) ==> Quiet(made.world))
  {
    var base := Base(u.Root(), c.name);
    var listed := Issue(w, ListSnap(Latest(base)));
    ListFrame(f, w, base);
    ProvisionFrame(f, listed.world, u, c, listed.ok);
  }

  lemma ListFrame(f: string -> string, w: World, base: string)
    requires Local(f, w.store) && f(base) == base
    ensures var listed := Issue(w, ListSnap(Latest(base)));
      && Issue(On(f, w, base), ListSnap(Latest(base))) == Reply(On(f, listed.world, base), listed.ok)
      && listed.world.store == w.store && (Quiet(w) ==> Quiet(listed.world))
  {
    IssueFrame(f, w, ListSnap(Latest(base)), base);
  }

  lemma ProvisionFrame(f: string -> string, w: World, u: Setup, c: Cache, restored: bool)
    requires Local(f, w.store) && DeclaredOne(f, u, c)
    ensures var base := Base(u.Root(), c.name);
      var made := Issue(w, Provision(u, c, restored));
      && SameSeenFrom(f, w, made, Issue(On(f, w, base), Provision(u, c, restored)), base)
      && (!made.ok ==> made.world.store == w.store)
      && (Quiet(w) ==> Quiet(made.world))
  {
    IssueFrame(f, w, Provision(u, c, restored), Base(u.Root(), c.name));
  }

  lemma {:induction false} SettleFrame(f: string -> string, w: World, c: CacheClone)
    requires Local(f, w.store) && f(c.clone) == c.base
    ensures SameSeenFrom(f, w, RunAll(w, Settle(c)), RunAll(On(f, w, c.base), Settle(c)), c.base)
    ensures Quiet(w) ==> Quiet(RunAll(w, Settle(c)).world)
  {
    RunAllFrame(f, w, Settle(c), c.base);
    if Quiet(w) {
      RunAllQuiet(w, Settle(c));
    }
  }

  /** The clones made so far are those of the first declared caches, in order; other families are as before. */
  ghost predicate AttachedCleanly(f: string -> string, w: World, u: Setup, caches: seq<Cache>, r: Attached) {
    && Local(f, r.world.store)
    && |r.caches| <= |caches| && (r.ok ==> |r.caches| == |caches|)
    && (forall i :: 0 <= i < |r.caches| ==> r.caches[i] == CloneFor(u, caches[i], r.caches[i].restored))
    && (forall h :: (forall i :: 0 <= i < |r.caches| ==> r.caches[i].base != h) ==>
                      Sub(f, r.world.store, h) == Sub(f, w.store, h))
    && (Quiet(w) ==> Quiet(r.world))
  }

  lemma CleanStart(f: string -> string, w: World, u: Setup)
    requires Local(f, w.store)
    ensures AttachedCleanly(f, w, u, [], Attached(w, [], true))
  {
  }

  /** The caches after one that failed make no difference. */
  lemma CleanStop(f: string -> string, w: World, u: Setup, caches: seq<Cache>, done: Attached)
    requires caches != [] && AttachedCleanly(f, w, u, caches[..|caches| - 1], done)
    ensures Local(f, done.world.store) && (!done.ok ==> AttachedCleanly(f, w, u, caches, done))
  {
    hide Local, Sub;
  }

  lemma DeclaredOnes(f: string -> string, u: Setup, caches: seq<Cache>)
    requires Declared(f, u, caches) && caches != []
    ensures Declared(f, u, caches[..|caches| - 1]) && DeclaredOne(f, u, caches[|caches| - 1])
  {
    hide DeclaredOne;
  }

  lemma {:induction false} AttachEachLeaves(f: string -> string, w: World, u: Setup, caches: seq<Cache>)
    requires Local(f, w.store) && Declared(f, u, caches)
    ensures AttachedCleanly(f, w, u, caches, AttachEach(w, u, caches))
  {
    hide Sub, Local, AttachOne, OnlyTouched, AttachedCleanly, Declared, DeclaredOne;
    if caches == [] {
      CleanStart(f, w, u);
    } else {
      var n := |caches| - 1;
      DeclaredOnes(f, u, caches);
      AttachEachLeaves(f, w, u, caches[..n]);
      var done := AttachEach(w, u, caches[..n]);
      CleanStop(f, w, u, caches, done);
      if done.ok {
        AttachOneFrame(f, done.world, u, caches[n]);
        AttachNext(f, w, u, caches, done, AttachOne(done.world, u, caches[n]));
      }
    }
  }

  /** `one` is what came of the last cache, after `done` came of those before it. */
  lemma AttachNext(f: string -> string, w: World, u: Setup, caches: seq<Cache>, done: Attached, one: Attached)
    requires caches != [] && AttachedCleanly(f, w, u, caches[..|caches| - 1], done) && done.ok
    requires var last := caches[|caches| - 1];
      && OnlyTouched(f, done.world.store, one.world.store, Base(u.Root(), last.name))
      && (one.caches == [] ==> one.world.store == done.world.store && !one.ok)
      && (one.caches != [] ==> one.caches == [CloneFor(u, last, one.caches[0].restored)])
      && (Quiet(done.world) ==> Quiet(one.world))
    ensures AttachedCleanly(f, w, u, caches, Attached(one.world, done.caches + one.caches, one.ok))
  {
    hide Sub, Local;
    var n := |caches| - 1;
    var all := done.caches + one.caches;
    forall h | forall i :: 0 <= i < |all| ==> all[i].base != h
      ensures Sub(f, one.world.store, h) == Sub(f, w.store, h)
    {
      assert forall i :: 0 <= i < |done.caches| ==> all[i] == done.caches[i];
      if one.caches != [] {
        assert all[n].base != h;
      }
    }
  }

  /** What attaching does to cache `i` is attaching that cache alone. */
  lemma {:induction false} AttachEachAt(f: string -> string, w: World, u: Setup, caches: seq<Cache>, i: nat)
      returns (w': World)
    requires Local(f, w.store) && Declared(f, u, caches) && i < |AttachEach(w, u, caches).caches|
    ensures |AttachEach(w, u, caches).caches| <= |caches|
    ensures w'.store == Sub(f, w.store, Base(u.Root(), caches[i].name))
    ensures Quiet(w) ==> Quiet(w')
    ensures var r := AttachEach(w, u, caches);
      var r' := AttachOne(w', u, caches[i]);
      && r'.caches == [r.caches[i]]
      && r'.world.store == Sub(f, r.world.store, Base(u.Root(), caches[i].name))
  {
    AttachEachLeaves(f, w, u, caches);
    var n := |caches| - 1;
    var rest := caches[..n];
    assert forall k :: 0 <= k < n ==> rest[k] == caches[k];
    AttachEachLeaves(f, w, u, rest);
    var done := AttachEach(w, u, rest);
    var base := Base(u.Root(), caches[i].name);
    if !done.ok {
      w' := AttachEachAt(f, w, u, rest, i);
    } else {
      AttachOneFrame(f, done.world, u, caches[n]);
      if i == n {
        w' := On(f, done.world, base);
      } else {
        w' := AttachEachAt(f, w, u, rest, i);
        assert base != Base(u.Root(), caches[n].name);
      }
    }
  }
}
