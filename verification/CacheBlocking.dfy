/**
 When a run blocks a cache, whatever its commands meet: some dataset then depends on `base@latest`, and undisturbed
 commits stop at it. It matters how far the run comes before its next mishap.
 */
module CacheBlocking {
  import opened Outcomes
  import opened Zfs
  import opened Families
  import opened CacheNames
  import opened CachePath
  import opened CacheProtocol
  import opened CacheFrames
  import opened CacheShape
  import opened CacheCommit
  import opened CacheCrash
  import opened CacheHistory
  import opened CacheLatest
  import opened CacheRefinement

  /** How many of the next `n` commands come before the next mishap. */
  function Luck(w: World, n: nat): (k: nat)
    ensures k <= n
    decreases n
  {
    if n == 0 || !Clear(w, 1) then 0 else 1 + Luck(Ahead(w), n - 1)
  }

  /** A command ZFS would take. */
  lemma Takes(w: World, c: Command, t: Store)
    requires Apply(w.store, c) == Some(t)
    ensures if Clear(w, 1) then Issue(w, c) == Reply(Ahead(w).(store := t), true)
            else !Issue(w, c).ok && Issue(w, c).world.store == w.store
  {
    hide Apply;
    IssueTells(w, c);
  }

  /** A command ZFS would refuse anyway. */
  lemma Fails(w: World, c: Command)
    requires Apply(w.store, c) == None
    ensures !Issue(w, c).ok && Issue(w, c).world.store == w.store
  {
    hide Apply;
    IssueTells(w, c);
  }

  lemma ShowsUp(w: World, ds: string)
    requires ds in w.store
    ensures if Clear(w, 1) then Issue(w, ListDataset(ds)) == Reply(Ahead(w), true)
            else !Issue(w, ListDataset(ds)).ok && Issue(w, ListDataset(ds)).world.store == w.store
  {
    Takes(w, ListDataset(ds), w.store);
  }

  // ---- Commits of restored caches ----

  /** Not seeing a base that is there ends the commit, whatever comes. */
  lemma {:induction false} BlindTail(w: World, runId: string, c: CacheClone)
    requires c.base in w.store
    ensures RunAll(w, CommitTail(c, runId, false)).world.store == w.store
  {
    TailRuns(w, c, runId, false);
    Fails(w, Rename(c.clone, c.base));
  }

  lemma LeftAfterPromote(u: Store, runId: string, c: CacheClone)
    requires Restorable(u, c, runId) && HasLatest(u, c.base)
    ensures c.base in u && c.clone in u && Left(u, runId, c, 1) == Promotion(u, c)
  {
  }

  lemma LeftBeforeSeal(u: Store, runId: string, c: CacheClone)
    requires Restorable(u, c, runId) && HasLatest(u, c.base)
    ensures c.base in u && c.clone in u && c.restored && c.base in Promotion(u, c)
    ensures var aside := SetAside(c.base, runId);
      && Left(u, runId, c, 2) == Promotion(u, c)
      && Left(u, runId, c, 3) == (Promotion(u, c) - {c.base})[aside := Promotion(u, c)[c.base]]
      && Left(u, runId, c, 4) == Exchange(u, c, aside)
  {
  }

  /** The rest of it, once the clone is promoted and the base was seen. */
  lemma {:induction false} TailStopsAt(w: World, u: Store, runId: string, c: CacheClone)
    requires Restorable(u, c, runId) && HasLatest(u, c.base) && w.store == Promotion(u, c)
    ensures RunAll(w, CommitTail(c, runId, true)).world.store == Left(u, runId, c, 2 + Luck(w, 5))
  {
    hide Restorable, HasLatest, Left, Luck, Clear, Ahead, Issue, Apply, Promotion, Exchange, Dropped;
    hide CommitTail, RunAll, SetAside, Shape, InPlace, DistinctNames3;
    LeftBeforeSeal(u, runId, c);
    var aside := SetAside(c.base, runId);
    var p := Promotion(u, c);
    var q, x, y := (p - {c.base})[aside := p[c.base]], Exchange(u, c, aside), Dropped(u, c);
    FirstRename(u, c, runId);
    SecondRename(u, c, runId);
    DropStep(u, c, runId);
    TailRuns(w, c, runId, true);
    var w1 := Ahead(w).(store := q);
    var w2 := Ahead(w1).(store := x);
    var w3 := Ahead(w2).(store := y);
    LuckAhead(w, w1, 5);
    LuckAhead(w1, w2, 4);
    LuckAhead(w2, w3, 3);
    Takes(w, Rename(c.base, aside), q);
    Takes(w1, Rename(c.clone, c.base), x);
    Takes(w2, DestroyAll(aside), y);
    SealStopsAt(w3, u, runId, c);
  }

  lemma {:induction false} LuckAhead(w: World, v: World, n: nat)
    requires n > 0 && v == Ahead(w).(store := v.store)
    ensures Luck(w, n) == if Clear(w, 1) then 1 + Luck(v, n - 1) else 0
  {
    LuckOn(w, n);
    SameLuck(Ahead(w), v, n - 1);
  }

  lemma {:induction false} SealStopsAt(w: World, u: Store, runId: string, c: CacheClone)
    requires Restorable(u, c, runId) && HasLatest(u, c.base) && w.store == Dropped(u, c)
    ensures Then(Issue(w, DestroySnap(Latest(c.base))), Snapshot(Latest(c.base))).world.store
         == Left(u, runId, c, 5 + Luck(w, 2))
  {
    DestroyLatestStep(u, c, runId);
    if SoleDependent(u, c) {
      var d := u[c.clone].(snaps := [], origin := None);
      var t := Dropped(u, c)[c.base := d];
      SnapshotStep(Dropped(u, c), c.base, d);
      hide Issue, Apply;
      Takes(w, DestroySnap(Latest(c.base)), t);
      var v := Ahead(w).(store := t);
      Takes(v, Snapshot(Latest(c.base)), Dropped(u, c)[c.base := d.(snaps := [Snap("latest", d.files)])]);
      SameLuck(Ahead(w), v, 1);
    } else {
      hide Issue, Apply;
      Fails(w, DestroySnap(Latest(c.base)));
    }
  }

  lemma {:induction false} RestoredStopsAt(w: World, runId: string, c: CacheClone)
    requires Restorable(w.store, c, runId) && HasLatest(w.store, c.base) && !c.inWorkspace
    ensures Commit(w, runId, c).world.store == Left(w.store, runId, c, Luck(w, 7))
  {
    hide Commit, Left, Apply, Restorable, HasLatest, Luck, Issue, RunAll, CommitTail, Promotion, Ahead, Clear;
    hide Shape, InPlace, SetAside, DistinctNames3;
    var u, done := w.store, Issue(w, Promote(c.clone));
    LeftAtStart(u, runId, c);
    LuckOn(w, 7);
    PromoteStep(u, c, runId);
    CommitPromotes(w, runId, c);
    Takes(w, Promote(c.clone), Promotion(u, c));
    if Clear(w, 1) {
      LookStopsAt(done.world, u, runId, c);
      SameLuck(done.world, Ahead(w), 6);
    }
  }

  lemma CommitPromotes(w: World, runId: string, c: CacheClone)
    requires c.restored && !c.inWorkspace
    ensures var done := Issue(w, Promote(c.clone));
      var had := Issue(done.world, ListDataset(c.base));
      Commit(w, runId, c) == if done.ok then RunAll(had.world, CommitTail(c, runId, had.ok)) else done
  {
    HeadRuns(w, c);
  }

  lemma LeftAtStart(u: Store, runId: string, c: CacheClone)
    requires Restorable(u, c, runId) && HasLatest(u, c.base)
    ensures c.base in u && c.clone in u && c.restored && Left(u, runId, c, 0) == u
  {
  }

  lemma {:induction false} LookStopsAt(w: World, u: Store, runId: string, c: CacheClone)
    requires Restorable(u, c, runId) && HasLatest(u, c.base) && w.store == Promotion(u, c)
    ensures var had := Issue(w, ListDataset(c.base));
      RunAll(had.world, CommitTail(c, runId, had.ok)).world.store == Left(u, runId, c, 1 + Luck(w, 6))
  {
    hide Restorable, HasLatest, Left, Luck, Clear, Issue, Apply, Promotion, Exchange, Dropped;
    hide CommitTail, RunAll, SetAside, Shape, InPlace, DistinctNames3;
    LeftBeforeSeal(u, runId, c);
    LeftAfterPromote(u, runId, c);
    LuckOn(w, 6);
    ShowsUp(w, c.base);
    if Clear(w, 1) {
      TailStopsAt(Ahead(w), u, runId, c);
    } else {
      BlindTail(Issue(w, ListDataset(c.base)).world, runId, c);
    }
  }

  lemma LuckOn(w: World, n: nat)
    requires n > 0
    ensures Luck(w, n) == if Clear(w, 1) then 1 + Luck(Ahead(w), n - 1) else 0
  {
  }

  lemma {:induction false} SameLuck(w: World, v: World, n: nat)
    requires w.fates == v.fates && w.alive == v.alive
    ensures Luck(w, n) == Luck(v, n)
    decreases n
  {
    if n > 0 {
      SameLuck(Ahead(w), Ahead(v), n - 1);
    }
  }

  /**
   Any fates. A commit of a restored cache ends as one stopped by its first mishap: nothing that its commands meet
   later matters. So its outcome is that of the crash point it reaches.
   */
  lemma {:induction false} RestoredOutcome(w: World, runId: string, c: CacheClone)
    requires Restorable(w.store, c, runId)
    ensures CrashOutcome(w.store, c, Luck(w, Lead(c) + 7), Commit(w, runId, c).world.store)
  {
    var u := w.store;
    PromoteStep(u, c, runId);
    if c.inWorkspace {
      CommitInherits(w, runId, c);
      InheritedIsRestorable(u, runId, c);
      Takes(w, Inherit(c.clone), Remounted(u, c));
      if Clear(w, 1) {
        PlainOutcome(Ahead(w).(store := Remounted(u, c)), runId, c.(inWorkspace := false));
        SameLuck(Ahead(w), Ahead(w).(store := Remounted(u, c)), 7);
      } else {
        assert u[c.clone].origin == Some(Latest(c.base));
      }
    } else {
      PlainOutcome(w, runId, c);
    }
  }

  lemma {:induction false} PlainOutcome(w: World, runId: string, c: CacheClone)
    requires Restorable(w.store, c, runId) && HasLatest(w.store, c.base) && !c.inWorkspace
    ensures CrashOutcome(w.store, c, Luck(w, 7), Commit(w, runId, c).world.store)
  {
    RestoredStopsAt(w, runId, c);
    CommitKeepsGood(w, runId, c, Contents(w.store));
    hide Commit, Left;
    LeftIs(w.store, runId, c, Luck(w, 7));
  }

  // ---- Commits of caches that were not restored ----

  /** No dataset was cloned from a snapshot of `ds`. */
  ghost predicate Childless(u: Store, ds: string) {
    forall d :: d in u && u[d].origin.Some? ==> u[d].origin.value.ds != ds
  }

  lemma ThenChildless(r: Reply, go: bool, c: Command, ds: string)
    requires Childless(r.world.store, ds)
    requires c.DestroyAll? || c.Snapshot? || (c.Rename? && (c.to != ds || Childless(r.world.store, c.ds)))
    ensures Childless(ThenIf(r, go, c).world.store, ds)
  {
  }

  lemma ChildlessIsReady(u: Store, base: string)
    requires Childless(u, base)
    ensures Ready(u, base)
  {
  }

  /** From the second rename on, nothing depends on a snapshot of the base. */
  lemma TailKeepsChildless(r: Reply, runId: string, c: CacheClone, hadBase: bool)
    requires Childless(r.world.store, c.base) && Childless(r.world.store, c.clone)
    ensures var aside := SetAside(c.base, runId);
      var moved := ThenIf(Then(r, Rename(c.clone, c.base)), hadBase, DestroyAll(aside));
      Ready(Then(moved, Snapshot(Latest(c.base))).world.store, c.base)
  {
    hide Issue, Apply;
    var aside := SetAside(c.base, runId);
    ThenChildless(r, true, Rename(c.clone, c.base), c.base);
    var r1 := Then(r, Rename(c.clone, c.base));
    ThenChildless(r1, hadBase, DestroyAll(aside), c.base);
    var r2 := ThenIf(r1, hadBase, DestroyAll(aside));
    ThenChildless(r2, true, Snapshot(Latest(c.base)), c.base);
    ChildlessIsReady(Then(r2, Snapshot(Latest(c.base))).world.store, c.base);
  }

  ghost predicate Unrestored(u: Store, c: CacheClone, runId: string) {
    && Shape(u) && InPlace(u, c) && !c.restored && DistinctNames3(c, runId)
    && SetAside(c.base, runId) !in u
  }

  lemma SettingAside(u: Store, c: CacheClone, runId: string)
    requires Unrestored(u, c, runId) && c.base in u
    ensures var aside := SetAside(c.base, runId);
      && Apply(u, Rename(c.base, aside)) == Renamed(u, c.base, aside) != None
      && Childless(Renamed(u, c.base, aside).value, c.base) && Childless(Renamed(u, c.base, aside).value, c.clone)
  {
  }

  lemma {:induction false} ReplacingOutcome(w: World, runId: string, c: CacheClone)
    requires Unrestored(w.store, c, runId) && c.base in w.store
    ensures var t := RunAll(w, CommitTail(c, runId, true)).world.store;
      if Clear(w, 1) then Ready(t, c.base) else t == w.store
  {
    var aside := SetAside(c.base, runId);
    SettingAside(w.store, c, runId);
    TailRuns(w, c, runId, true);
    hide Apply, Issue, RunAll, CommitTail, Renamed, Ready;
    Takes(w, Rename(c.base, aside), Renamed(w.store, c.base, aside).value);
    if Clear(w, 1) {
      TailKeepsChildless(Issue(w, Rename(c.base, aside)), runId, c, true);
    }
  }

  lemma {:induction false} PlacingOutcome(w: World, runId: string, c: CacheClone)
    requires Unrestored(w.store, c, runId) && c.base !in w.store
    ensures Ready(RunAll(w, CommitTail(c, runId, false)).world.store, c.base)
  {
    TailRuns(w, c, runId, false);
    assert Childless(w.store, c.base) && Childless(w.store, c.clone);
    hide Apply, Issue, RunAll, CommitTail, Ready;
    TailKeepsChildless(Reply(w, true), runId, c, false);
  }

  /** A cache that was not restored is only blocked afterwards if it was before and its base was not set aside. */
  lemma {:induction false} UnrestoredPlain(w: World, runId: string, c: CacheClone)
    requires Unrestored(w.store, c, runId) && !c.inWorkspace
    ensures Ready(Commit(w, runId, c).world.store, c.base) <==> Ready(w.store, c.base) || Luck(w, 2) == 2
  {
    HeadRuns(w, c);
    hide RunAll, CommitTail, Shape;
    var had := Issue(w, ListDataset(c.base));
    if c.base in w.store {
      ShowsUp(w, c.base);
      if Clear(w, 1) {
        ReplacingOutcome(Ahead(w), runId, c);
      } else {
        BlindTail(had.world, runId, c);
      }
    } else {
      Fails(w, ListDataset(c.base));
      PlacingOutcome(had.world, runId, c);
    }
  }

  lemma {:induction false} UnrestoredOutcome(w: World, runId: string, c: CacheClone)
    requires Unrestored(w.store, c, runId)
    ensures Ready(Commit(w, runId, c).world.store, c.base) <==>
      Ready(w.store, c.base) || Luck(w, Lead(c) + 2) == Lead(c) + 2
  {
    if c.inWorkspace {
      var v := Remounted(w.store, c);
      CommitInherits(w, runId, c);
      Takes(w, Inherit(c.clone), v);
      if Clear(w, 1) {
        var c' := c.(inWorkspace := false);
        assert forall d :: d in v ==>
          d in w.store && v[d].origin == w.store[d].origin && v[d].snaps == w.store[d].snaps;
        assert Unrestored(v, c', runId) && (Ready(v, c.base) <==> Ready(w.store, c.base));
        UnrestoredPlain(Ahead(w).(store := v), runId, c');
        SameLuck(Ahead(w), Ahead(w).(store := v), 2);
      }
    } else {
      UnrestoredPlain(w, runId, c);
    }
  }

  // ---- The end of a run, for one cache ----

  /** The pool with the run's clone in it: a new dataset without snapshots. */
  ghost predicate WithClone(t: Store, v: Store, c: CacheClone) {
    && c.clone !in t && c.clone in v && v[c.clone].snaps == [] && v == t[c.clone := v[c.clone]]
    && (v[c.clone].origin == if c.restored then Some(Latest(c.base)) else None)
  }

  /** A clone that stays depends on what it was cloned from. */
  lemma CloneBlocks(t: Store, v: Store, c: CacheClone)
    requires Shape(v) && WithClone(t, v, c) && c.clone != c.base
    ensures Ready(v, c.base) <==> Ready(t, c.base) && !c.restored
    ensures c.restored ==> HasLatest(t, c.base) && (SoleDependent(v, c) <==> Ready(t, c.base))
  {
    assert forall d :: d in t <==> d in v && d != c.clone;
    assert forall d :: d in t ==> t[d] == v[d];
    if c.restored {
      assert v[c.clone].origin == Some(Latest(c.base)) && v[c.base].snaps != [];
    }
  }

  lemma DiscardedOrLeft(w: World, t: Store, c: CacheClone)
    requires Shape(w.store) && WithClone(t, w.store, c)
    ensures Issue(w, DestroyAll(c.clone)).world.store == if Clear(w, 1) then t else w.store
  {
    assert !HeldFromOutside(w.store, c.clone);
    assert w.store - {c.clone} == t;
    Takes(w, DestroyAll(c.clone), t);
  }

  /**
   Whether a cache comes out of a run ready for the next commit: `t` is the cache before the run, `w` the world when
   the run comes to commit or discard its clone `c`.
   */
  ghost predicate Frees(t: Store, w: World, c: CacheClone, success: bool) {
    var k := Luck(w, Lead(c) + 7);
    if !success then Ready(t, c.base) && (k > 0 || !c.restored)
    else if c.restored then Lead(c) + 1 <= k <= Lead(c) + 3 || (k >= Lead(c) + 5 && Ready(t, c.base))
    else Ready(t, c.base) || k >= Lead(c) + 2
  }

  lemma {:induction false} MoreLuck(w: World, m: nat, n: nat)
    requires m <= n
    ensures Luck(w, m) == if Luck(w, n) <= m then Luck(w, n) else m
    decreases m
  {
    if m > 0 {
      MoreLuck(Ahead(w), m - 1, n - 1);
    }
  }

  lemma FinishFrees(w: World, t: Store, runId: string, c: CacheClone, success: bool)
    requires Shape(w.store) && WithClone(t, w.store, c) && DistinctNames3(c, runId) && SetAside(c.base, runId) !in t
    ensures Ready(FinishOne(w, runId, c, success).store, c.base) <==> Frees(t, w, c, success)
  {
    CloneBlocks(t, w.store, c);
    if !success {
      DiscardedOrLeft(w, t, c);
    } else if c.restored {
      RestoredOutcome(w, runId, c);
    } else {
      UnrestoredOutcome(w, runId, c);
      MoreLuck(w, Lead(c) + 2, Lead(c) + 7);
    }
  }

  // ---- Whole runs ----

  lemma AttachMakesClone(w: World, u: Setup, c: Cache)
    requires Shape(w.store) && Base(u.Root(), c.name) != RunClone(u.Root(), c.name, u.runId)
    ensures var r := AttachOne(w, u, c);
      r.caches != [] ==>
      && r.caches == [CloneFor(u, c, r.caches[0].restored)]
      && WithClone(w.store, r.world.store, r.caches[0]) && Shape(r.world.store)
  {
    hide Shape, Clean, Issue, RunAll, Provision;
    AttachIsGood(w, u, c);
    var listed := Issue(w, ListSnap(Latest(Base(u.Root(), c.name))));
    LookingForSnapChangesNothing(w, Latest(Base(u.Root(), c.name)));
    var made := Issue(listed.world, Provision(u, c, listed.ok));
    ProvisionAddsOne(listed.world, u, c, listed.ok);
    if made.ok {
      SettlingChangesNothing(made.world, CloneFor(u, c, listed.ok));
    }
  }

  lemma AttachIsGood(w: World, u: Setup, c: Cache)
    requires Shape(w.store) && Base(u.Root(), c.name) != RunClone(u.Root(), c.name, u.runId)
    ensures var r := AttachOne(w, u, c);
      Shape(r.world.store) && (r.caches != [] ==> r.caches == [CloneFor(u, c, r.caches[0].restored)])
  {
    assert Good(w.store, Contents(w.store));
    hide AttachOne, Shape, Clean;
    AttachKeepsGood(w, u, c, Contents(w.store));
  }

  lemma ProvisionAddsOne(w: World, u: Setup, c: Cache, restored: bool)
    ensures var made := Issue(w, Provision(u, c, restored));
      made.ok ==> WithClone(w.store, made.world.store, CloneFor(u, c, restored))
  {
  }

  /** The steps write into the clone and into nothing else of the cache. */
  lemma WorkKeepsClone(f: string -> string, t: Store, s: Store, caches: seq<CacheClone>, runDs: string,
                       work: (string, Files) -> Files, i: nat, runId: string)
    requires i < |caches| && AllOwned(f, caches, runId) && DistinctBases(caches) && f(runDs) == ""
    requires WithClone(t, Sub(f, s, caches[i].base), caches[i]) && Shape(Sub(f, s, caches[i].base))
    ensures var v := Sub(f, Worked(s, Clones(caches) + {runDs}, work), caches[i].base);
      WithClone(t, v, caches[i]) && Shape(v)
  {
    var c := caches[i];
    var u, touched := Sub(f, s, c.base), Clones(caches) + {runDs};
    WorkOnSub(f, s, touched, work, c.base);
    forall d | d in u && d in touched ensures d == c.clone {
      if d != runDs {
        var k :| 0 <= k < |caches| && caches[k].clone == d;
        assert Owned(f, caches[k], runId);
      }
      assert Owned(f, c, runId);
    }
    assert Worked(u, touched, work) == t[c.clone := Worked(u, touched, work)[c.clone]];
  }

  /** Of a run whose workspace is prepared: cache `i` at the end, if it was attached. */
  lemma {:induction false} AttachedFrees(f: string -> string, w0: World, r: Run, delivered: set<(string, Files)>,
                                         i: nat)
    requires Inv(f, State(w0.store, delivered)) && Declared(f, r.setup, r.caches)
    requires i < |AttachAll(w0, r.setup, r.caches).caches| <= |r.caches|
    requires FreshFor(Sub(f, w0.store, Base(r.setup.Root(), r.caches[i].name)), r.setup, r.caches[i])
    ensures var a := AttachAll(w0, r.setup, r.caches);
      var base := Base(r.setup.Root(), r.caches[i].name);
      var w, success := AfterSteps(r, a), a.ok && r.success;
      Ready(Sub(f, FinishEach(w, r.setup.runId, a.caches, success).store, base), base) <==>
        Frees(Sub(f, w0.store, base), FinishEach(w, r.setup.runId, a.caches[..i], success), a.caches[i], success)
  {
    var u, base := r.setup, Base(r.setup.Root(), r.caches[i].name);
    var a := AttachAll(w0, u, r.caches);
    var t := Sub(f, w0.store, base);
    AttachedWithClone(f, w0, u, r.caches, delivered, i);
    AttachKeepsInv(f, w0, u, r.caches, delivered);
    var w, success := AfterSteps(r, a), a.ok && r.success;
    StepsKeepUnderway(f, r, a, delivered);
    if a.ok {
      WorkKeepsClone(f, t, a.world.store, a.caches, u.RunDs(), r.work, i, u.runId);
    }
    assert WithClone(t, Sub(f, w.store, base), a.caches[i]) && Shape(Sub(f, w.store, base));
    hide AttachAll, AfterSteps, FinishEach, Sub, Shape, Frees, Ready, WithClone;
    FinishSees(f, w, t, u.runId, a.caches, success, i);
  }

  lemma {:induction false} FinishSees(f: string -> string, w: World, t: Store, runId: string,
                                      caches: seq<CacheClone>, success: bool, i: nat)
    requires i < |caches| && Local(f, w.store) && AllOwned(f, caches, runId) && DistinctBases(caches)
    requires DistinctNames3(caches[i], runId) && SetAside(caches[i].base, runId) !in t
    requires WithClone(t, Sub(f, w.store, caches[i].base), caches[i]) && Shape(Sub(f, w.store, caches[i].base))
    ensures Ready(Sub(f, FinishEach(w, runId, caches, success).store, caches[i].base), caches[i].base) <==>
      Frees(t, FinishEach(w, runId, caches[..i], success), caches[i], success)
  {
    hide FinishEach, Sub, Shape, Ready, Clear, FinishOne, Owned, WithClone, Local;
    var w' := FinishEachAt(f, w, runId, caches, success, i);
    FinishFrees(w', t, runId, caches[i], success);
    SameLuck(w', FinishEach(w, runId, caches[..i], success), Lead(caches[i]) + 7);
    hide Luck;
  }

  lemma {:induction false} AttachedWithClone(f: string -> string, w0: World, u: Setup, caches: seq<Cache>,
                                             delivered: set<(string, Files)>, i: nat)
    requires Inv(f, State(w0.store, delivered)) && Declared(f, u, caches)
    requires i < |AttachAll(w0, u, caches).caches| <= |caches|
    ensures var base := Base(u.Root(), caches[i].name);
      var a := AttachAll(w0, u, caches);
      && a.caches[i] == CloneFor(u, caches[i], a.caches[i].restored)
      && WithClone(Sub(f, w0.store, base), Sub(f, a.world.store, base), a.caches[i])
      && Shape(Sub(f, a.world.store, base))
  {
    var base := Base(u.Root(), caches[i].name);
    assert DeclaredOne(f, u, caches[i]);
    IssueFrame(f, w0, CreateParents(u.Root()), "");
    var root := Issue(w0, CreateParents(u.Root()));
    hide Issue, AttachOne, Shape;
    var w' := AttachEachAt(f, root.world, u, caches, i);
    assert w'.store == Sub(f, w0.store, base);
    assert Good(Sub(f, w0.store, base), For(delivered, base));
    AttachMakesClone(w', u, caches[i]);
  }

  lemma ReadyInFamily(f: string -> string, s: Store, base: string)
    requires Local(f, s) && f(base) == base
    ensures Ready(s, base) <==> Ready(Sub(f, s, base), base)
  {
    var u := Sub(f, s, base);
    assert base in s <==> base in u;
    assert forall d :: d in s && s[d].origin == Some(Latest(base)) ==> d in u && u[d] == s[d];
  }

  /**
   Whether cache `i` of a run is ready for the next commit afterwards, by what the run came to with it: nothing if the
   workspace could not be prepared or an earlier cache not attached.
   */
  ghost predicate ReadyAfter(st: State, r: Run, i: nat)
    requires i < |r.caches|
  {
    var p := Prepare(World(st.store, r.fates, true), r.setup, r.head, r.files);
    var a := AttachAll(p.world, r.setup, r.caches);
    var success := a.ok && r.success;
    if !p.ok || i >= |a.caches| then Ready(st.store, Base(r.setup.Root(), r.caches[i].name))
    else Frees(st.store, FinishEach(AfterSteps(r, a), r.setup.runId, a.caches[..i], success), a.caches[i], success)
  }

  /**
   Blocking, over whole runs. From any pool that histories lead to, and whatever the commands of the run meet, this
   is exactly when a cache of the run is ready for the next commit afterwards. In all other cases it is blocked.
   */
  lemma {:induction false} BlockedAfterRun(f: string -> string, st: State, r: Run, i: nat)
    requires Inv(f, st) && Declared(f, r.setup, r.caches) && i < |r.caches|
    requires FreshFor(st.store, r.setup, r.caches[i])
    ensures Ready(Execute(st, r).store, Base(r.setup.Root(), r.caches[i].name)) <==> ReadyAfter(st, r, i)
  {
    var u, base := r.setup, Base(r.setup.Root(), r.caches[i].name);
    var w0 := World(st.store, r.fates, true);
    assert DeclaredOne(f, u, r.caches[i]);
    ExecuteKeepsInv(f, st, r);
    PrepareFrame(f, w0, u, r.head, r.files);
    ReadyInFamily(f, st.store, base);
    ReadyInFamily(f, Execute(st, r).store, base);
    var p := Prepare(w0, u, r.head, r.files);
    FreshInFamily(f, st.store, p.world.store, u, r.caches[i]);
    if p.ok {
      AttachAllClones(f, p.world, u, r.caches, st.delivered);
      hide Prepare, AttachAll, AfterSteps, FinishRun, FinishEach, Ready, Frees, FreshFor, Inv, Sub;
      EndFrees(f, p.world, r, st.delivered, i);
      var a := AttachAll(p.world, u, r.caches);
      if i < |a.caches| {
        FreesInFamily(f, st.store, FinishEach(AfterSteps(r, a), u.runId, a.caches[..i], a.ok && r.success),
                      a.caches[i], a.ok && r.success);
      }
    }
  }

  lemma FreshInFamily(f: string -> string, s: Store, t: Store, u: Setup, c: Cache)
    requires FreshFor(s, u, c) && Sub(f, t, Base(u.Root(), c.name)) == Sub(f, s, Base(u.Root(), c.name))
    ensures FreshFor(Sub(f, t, Base(u.Root(), c.name)), u, c)
  {
  }

  lemma FreesInFamily(f: string -> string, s: Store, w: World, c: CacheClone, success: bool)
    requires Local(f, s) && f(c.base) == c.base
    ensures Frees(s, w, c, success) <==> Frees(Sub(f, s, c.base), w, c, success)
  {
    ReadyInFamily(f, s, c.base);
  }

  /** From the prepared workspace to the end of the run. */
  lemma {:induction false} EndFrees(f: string -> string, w0: World, r: Run, delivered: set<(string, Files)>, i: nat)
    requires Inv(f, State(w0.store, delivered)) && Declared(f, r.setup, r.caches) && i < |r.caches|
    requires FreshFor(Sub(f, w0.store, Base(r.setup.Root(), r.caches[i].name)), r.setup, r.caches[i])
    ensures var a := AttachAll(w0, r.setup, r.caches);
      var base := Base(r.setup.Root(), r.caches[i].name);
      var w, success := AfterSteps(r, a), a.ok && r.success;
      Ready(Sub(f, FinishRun(w, r.setup, a.caches, success).store, base), base) <==>
        if i >= |a.caches| then Ready(Sub(f, w0.store, base), base)
        else Frees(Sub(f, w0.store, base), FinishEach(w, r.setup.runId, a.caches[..i], success), a.caches[i], success)
  {
    hide Local, Good, Shape, Clean, InPlace, AttachEach, Issue;
    var u, base := r.setup, Base(r.setup.Root(), r.caches[i].name);
    var a := AttachAll(w0, u, r.caches);
    assert DeclaredOne(f, u, r.caches[i]);
    AttachAllClones(f, w0, u, r.caches, delivered);
    AttachKeepsInv(f, w0, u, r.caches, delivered);
    StepsKeepUnderway(f, r, a, delivered);
    var w, success := AfterSteps(r, a), a.ok && r.success;
    UnderwayMeans(f, w, a.caches, u, delivered);
    assert i >= |a.caches| ==> forall k :: 0 <= k < |a.caches| ==> a.caches[k].base != base;
    hide AttachAll, AfterSteps, FinishEach, FinishRun, Ready, Frees, Sub, Underway, Inv, FreshFor;
    EndLeaves(f, w, u, a.caches, success, base);
    if i < |a.caches| {
      AttachedFrees(f, w0, r, delivered, i);
    } else {
      NotAttached(f, w0, r, i);
    }
  }

  lemma UnderwayMeans(f: string -> string, w: World, caches: seq<CacheClone>, u: Setup,
                      delivered: set<(string, Files)>)
    requires Underway(f, w, caches, u, delivered)
    ensures Local(f, w.store) && AllOwned(f, caches, u.runId)
  {
    hide Local, Owned;
  }

  /** The end of the run concerns only caches that were attached, and cleaning up none. */
  lemma {:induction false} EndLeaves(f: string -> string, w: World, u: Setup, caches: seq<CacheClone>,
                                     success: bool, base: string)
    requires Local(f, w.store) && AllOwned(f, caches, u.runId) && base != ""
    requires f(u.Repo()) == "" && f(u.RunDs()) == ""
    ensures var t := Sub(f, FinishRun(w, u, caches, success).store, base);
      && t == Sub(f, FinishEach(w, u.runId, caches, success).store, base)
      && ((forall k :: 0 <= k < |caches| ==> caches[k].base != base) ==> t == Sub(f, w.store, base))
  {
    hide FinishEach, Sub, Cleanup, Owned, Local;
    FinishEachLeaves(f, w, u.runId, caches, success);
    CleanupFrame(f, FinishEach(w, u.runId, caches, success), u);
  }

  /** Steps and attaching leave a cache alone that is not attached. */
  lemma {:induction false} NotAttached(f: string -> string, w0: World, r: Run, i: nat)
    requires Local(f, w0.store) && Declared(f, r.setup, r.caches) && i < |r.caches|
    requires i >= |AttachAll(w0, r.setup, r.caches).caches|
    ensures var a := AttachAll(w0, r.setup, r.caches);
      var base := Base(r.setup.Root(), r.caches[i].name);
      Sub(f, AfterSteps(r, a).store, base) == Sub(f, w0.store, base)
  {
    var u, base := r.setup, Base(r.setup.Root(), r.caches[i].name);
    IssueFrame(f, w0, CreateParents(u.Root()), "");
    var root := Issue(w0, CreateParents(u.Root()));
    assert DeclaredOne(f, u, r.caches[i]);
    if root.ok {
      AttachEachLeaves(f, root.world, u, r.caches);
      var a := AttachEach(root.world, u, r.caches);
      assert forall k :: 0 <= k < |a.caches| ==> a.caches[k].base != base;
    }
  }

  /**
   And a blocked cache stays blocked: undisturbed runs under new names, however many, leave it so and leave what
   `@latest` holds.
   */
  lemma {:induction false} BlockedStaysBlocked(f: string -> string, st: State, runs: seq<Run>, base: string)
    requires Inv(f, st) && base != "" && !Ready(Sub(f, st.store, base), base)
    requires forall i :: 0 <= i < |runs| ==> CalmAt(f, st, runs, i)
    ensures var u, t := Sub(f, st.store, base), Sub(f, ExecuteAll(st, runs).store, base);
      HasLatest(u, base) && HasLatest(t, base) && !Ready(t, base) && t[base].snaps[0].files == u[base].snaps[0].files
  {
    var u := Sub(f, st.store, base);
    assert Good(u, For(st.delivered, base));
    var x :| x in u && u[x].origin == Some(Latest(base));
    LeftoverFreezesCache(f, st, runs, base, x, u[base].snaps[0].files);
  }
}
