/**
 Something stops the commit of a cache: a command is refused, or the agent dies. For every point where that can
 happen: is the next run handed a cold cache, and will its commit go through again?
 */
module CacheCrash {
  import opened Outcomes
  import opened Zfs
  import opened CacheNames
  import opened CachePath
  import opened CacheProtocol
  import opened CacheShape
  import opened CacheCommit
  import opened CacheLatest

  type Mishap = f: Fate | f != Obeyed witness Killed

  /** `k` more commands are obeyed, the next one meets a mishap; if that was a refusal, all others are obeyed. */
  function Until(s: Store, k: nat, fate: Mishap): World {
    World(s, seq(k, _ => Obeyed) + [fate], true)
  }

  /** The world right after the mishap. */
  function Struck(s: Store, fate: Mishap): World {
    World(s, [], fate != Killed)
  }

  /** The store when the commit has stopped after `k` commands. */
  function StoppedAt(u: Store, runId: string, c: CacheClone, k: nat, fate: Mishap): Store {
    Commit(Until(u, k, fate), runId, c).world.store
  }

  lemma IssueUntil(s: Store, k: nat, fate: Mishap, c: Command)
    ensures Issue(Until(s, k, fate), c) ==
      if k == 0 then Reply(Struck(s, fate), false) else Perform(Until(s, k - 1, fate), c)
  {
    var fates := seq(k, _ => Obeyed) + [fate];
    if k == 0 {
      assert fates[1..] == [];
    } else {
      assert fates[1..] == seq(k - 1, _ => Obeyed) + [fate];
    }
  }

  /** Before the mishap, a command works as ever. */
  lemma StepUntil(s: Store, k: nat, fate: Mishap, c: Command, t: Store)
    requires Apply(s, c) == Some(t)
    ensures Issue(Until(s, k, fate), c) ==
      if k == 0 then Reply(Struck(s, fate), false) else Reply(Until(t, k - 1, fate), true)
  {
    hide Apply;
    IssueUntil(s, k, fate, c);
  }

  /** What the first `k` commands leave; in `inherit`-less commits, command 2 is the look at the base. */
  ghost function Left(u: Store, runId: string, c: CacheClone, k: nat): Store
    requires c.base in u && c.clone in u
  {
    var aside := SetAside(c.base, runId);
    var p := Promotion(u, c);
    if k == 0 then u
    else if k <= 2 then p
    else if k == 3 then (p - {c.base})[aside := p[c.base]]
    else if k == 4 then Exchange(u, c, aside)
    else if k == 5 || !SoleDependent(u, c) then Dropped(u, c)
    else Dropped(u, c)[c.base := u[c.clone].(origin := None, snaps :=
                         if k == 6 then [] else [Snap("latest", u[c.clone].files)])]
  }

  lemma StoppedLeaves(u: Store, runId: string, c: CacheClone, k: nat, fate: Mishap)
    requires Restorable(u, c, runId) && HasLatest(u, c.base) && !c.inWorkspace
    ensures StoppedAt(u, runId, c, k, fate) == Left(u, runId, c, k)
  {
    PromoteStep(u, c, runId);
    HeadRuns(Until(u, k, fate), c);
    IssueUntil(u, k, fate, Promote(c.clone));
    if k > 0 {
      StoppedAfterHead(u, runId, c, k, fate);
    }
  }

  lemma StoppedAfterHead(u: Store, runId: string, c: CacheClone, k: nat, fate: Mishap)
    requires Restorable(u, c, runId) && HasLatest(u, c.base) && k >= 1
    ensures var had := Issue(Until(Promotion(u, c), k - 1, fate), ListDataset(c.base));
      RunAll(had.world, CommitTail(c, runId, had.ok)).world.store == Left(u, runId, c, k)
  {
    var p := Promotion(u, c);
    IssueUntil(p, k - 1, fate, ListDataset(c.base));
    if k == 1 {
      LookFails(p, runId, c, fate);
    } else {
      assert Perform(Until(p, k - 2, fate), ListDataset(c.base)) == Reply(Until(p, k - 2, fate), true);
      StoppedAfterLook(u, runId, c, k, fate);
    }
  }

  lemma StoppedAfterLook(u: Store, runId: string, c: CacheClone, k: nat, fate: Mishap)
    requires Restorable(u, c, runId) && HasLatest(u, c.base) && k >= 2
    ensures RunAll(Until(Promotion(u, c), k - 2, fate), CommitTail(c, runId, true)).world.store == Left(u, runId, c, k)
  {
    TailRuns(Until(Promotion(u, c), k - 2, fate), c, runId, true);
    StoppedInTail(u, runId, c, k, fate);
  }

  lemma {:induction false} DeadRuns(w: World, cs: seq<Command>)
    requires !w.alive
    ensures RunAll(w, cs).world == w
  {
  }

  /** Taking an existing base for missing, the commit stops at once: the name is taken. */
  lemma LookFails(s: Store, runId: string, c: CacheClone, fate: Mishap)
    requires c.base in s
    ensures RunAll(Struck(s, fate), CommitTail(c, runId, false)).world.store == s
  {
    if fate == Killed {
      DeadRuns(Struck(s, fate), CommitTail(c, runId, false));
    } else {
      TailRuns(Struck(s, fate), c, runId, false);
    }
  }

  lemma StoppedInTail(u: Store, runId: string, c: CacheClone, k: nat, fate: Mishap)
    requires Restorable(u, c, runId) && HasLatest(u, c.base) && k >= 2
    ensures var aside := SetAside(c.base, runId);
      var r := Then(ThenIf(Then(ThenIf(Reply(Until(Promotion(u, c), k - 2, fate), true), true, Rename(c.base, aside)),
                                Rename(c.clone, c.base)),
                           true, DestroyAll(aside)), DestroySnap(Latest(c.base)));
      Then(r, Snapshot(Latest(c.base))).world.store == Left(u, runId, c, k)
  {
    var aside := SetAside(c.base, runId);
    var p := Promotion(u, c);
    var q, x := (p - {c.base})[aside := p[c.base]], Exchange(u, c, aside);
    hide Issue, Apply, Until, Promotion, Exchange;
    FirstRename(u, c, runId);
    SecondRename(u, c, runId);
    DropStep(u, c, runId);
    StepUntil(p, k - 2, fate, Rename(c.base, aside), q);
    if k > 2 {
      StepUntil(q, k - 3, fate, Rename(c.clone, c.base), x);
    }
    if k > 3 {
      StepUntil(x, k - 4, fate, DestroyAll(aside), Dropped(u, c));
    }
    if k > 4 {
      StoppedAtSeal(u, runId, c, k, fate);
    }
  }

  lemma StoppedAtSeal(u: Store, runId: string, c: CacheClone, k: nat, fate: Mishap)
    requires Restorable(u, c, runId) && HasLatest(u, c.base) && k > 4
    ensures
      Then(Issue(Until(Dropped(u, c), k - 5, fate), DestroySnap(Latest(c.base))), Snapshot(Latest(c.base))).world.store
        == Left(u, runId, c, k)
  {
    var t := Dropped(u, c);
    IssueUntil(t, k - 5, fate, DestroySnap(Latest(c.base)));
    DestroyLatestStep(u, c, runId);
    if k > 5 && SoleDependent(u, c) {
      var d := u[c.clone].(snaps := [], origin := None);
      IssueUntil(t[c.base := d], k - 6, fate, Snapshot(Latest(c.base)));
      SnapshotStep(t, c.base, d);
    }
  }

  /** Commands the commit issues before `promote`. */
  function Lead(c: CacheClone): nat {
    if c.inWorkspace then 1 else 0
  }

  /** A mishap between `promote` and the second rename, or once the old base is gone and nothing was left over. */
  ghost predicate Heals(u: Store, c: CacheClone, k: nat) {
    || Lead(c) + 1 <= k <= Lead(c) + 3
    || (k >= Lead(c) + 5 && SoleDependent(u, c))
  }

  /** `@latest` is missing between `promote` and the second rename, and between its removal and its successor. */
  ghost predicate Cold(u: Store, c: CacheClone, k: nat) {
    || Lead(c) + 1 <= k <= Lead(c) + 3
    || (k == Lead(c) + 6 && SoleDependent(u, c))
  }

  /** Every crash point, in terms of what the next run meets. */
  ghost predicate CrashOutcome(u: Store, c: CacheClone, k: nat, t: Store)
    requires c.base in u && c.clone in u
  {
    && Shape(t)
    && (Ready(t, c.base) <==> Heals(u, c, k))
    && (HasLatest(t, c.base) <==> !Cold(u, c, k))
    && (HasLatest(t, c.base) ==>
          t[c.base].snaps == if k >= Lead(c) + 7 && SoleDependent(u, c)
                             then [Snap("latest", u[c.clone].files)] else u[c.base].snaps)
  }

  lemma PlainCrashPoints(u: Store, runId: string, c: CacheClone, k: nat, fate: Mishap)
    requires Restorable(u, c, runId) && HasLatest(u, c.base) && !c.inWorkspace
    ensures CrashOutcome(u, c, k, StoppedAt(u, runId, c, k, fate))
  {
    StoppedLeaves(u, runId, c, k, fate);
    CommitKeepsGood(Until(u, k, fate), runId, c, Contents(u));
    LeftIs(u, runId, c, k);
  }

  lemma LeftIs(u: Store, runId: string, c: CacheClone, k: nat)
    requires Restorable(u, c, runId) && HasLatest(u, c.base) && !c.inWorkspace
    requires Shape(Left(u, runId, c, k))
    ensures CrashOutcome(u, c, k, Left(u, runId, c, k))
  {
    var aside := SetAside(c.base, runId);
    var t := Left(u, runId, c, k);
    if k == 0 {
      assert t[c.clone].origin == Some(Latest(c.base));
    } else if k == 4 {
      assert t[aside].origin == Some(Latest(c.base));
    } else if k >= 5 {
      assert forall d :: d in u && d != c.clone && d != c.base ==> d in t && t[d] == u[d];
    }
  }

  /**
   Crash points. Whatever other datasets earlier mishaps left, and wherever this commit is killed or has a command
   refused: the next commit will go through exactly in the cases of `Heals`, the next run starts cold exactly in
   those of `Cold`, and if it does not start cold, it gets the previous content, or the new one after the last
   command.
   */
  lemma CrashPoints(u: Store, runId: string, c: CacheClone, k: nat, fate: Mishap)
    requires Restorable(u, c, runId)
    ensures CrashOutcome(u, c, k, StoppedAt(u, runId, c, k, fate))
  {
    PromoteStep(u, c, runId);
    if c.inWorkspace {
      CommitInherits(Until(u, k, fate), runId, c);
      IssueUntil(u, k, fate, Inherit(c.clone));
      if k > 0 {
        InheritedIsRestorable(u, runId, c);
        PlainCrashPoints(Remounted(u, c), runId, c.(inWorkspace := false), k - 1, fate);
      } else {
        assert u[c.clone].origin == Some(Latest(c.base));
      }
    } else {
      PlainCrashPoints(u, runId, c, k, fate);
    }
  }

  /**
   Healing. After a mishap at point `k`, the next undisturbed successful run of the cache completes its
   commit and leaves the base settled exactly when `k` is a point that heals. Otherwise `@latest` is still
   what it was before.
   */
  lemma NextRunAfterCrash(u: Store, runId: string, c: CacheClone, k: nat, fate: Mishap,
                          s: Setup, next: Cache, work: (string, Files) -> Files)
    requires Restorable(u, c, runId)
    requires c.base == Base(s.Root(), next.name) && FreshFor(StoppedAt(u, runId, c, k, fate), s, next)
    ensures var t := StoppedAt(u, runId, c, k, fate);
      var r := LoneRun(t, s, next, work, true);
      && (r.ok <==> Heals(u, c, k))
      && c.base in r.world.store
      && (r.ok ==>
            && r.world.store[c.base] == Committed(work(RunClone(s.Root(), next.name, s.runId), Handed(t, c.base)))
            && Ready(r.world.store, c.base)
            && Handed(t, c.base) in {map[], u[c.base].snaps[0].files, u[c.clone].files})
      && (!r.ok ==> r.world.store[c.base].snaps == u[c.base].snaps)
  {
    var t := StoppedAt(u, runId, c, k, fate);
    PromoteStep(u, c, runId);
    CrashPoints(u, runId, c, k, fate);
    LoneRunExact(t, s, next, work, true);
  }

  /**
   Blocking. At every point that does not heal, some dataset is left that depends on `base@latest`, which still
   holds its old files.
   */
  lemma UnhealedIsLeftover(u: Store, runId: string, c: CacheClone, k: nat, fate: Mishap) returns (x: string)
    requires Restorable(u, c, runId) && !Heals(u, c, k)
    ensures HasLatest(u, c.base)
    ensures Leftover(StoppedAt(u, runId, c, k, fate), c.base, x, u[c.base].snaps[0].files)
  {
    PromoteStep(u, c, runId);
    CrashPoints(u, runId, c, k, fate);
    var t := StoppedAt(u, runId, c, k, fate);
    hide StoppedAt;
    x :| x in t && t[x].origin == Some(Latest(c.base));
  }

  // ---- Caches that started empty ----

  /** What the first `k` commands leave; command 0 is the look at the base. */
  ghost function EmptyLeft(u: Store, runId: string, c: CacheClone, k: nat, fate: Mishap): Store
    requires c.clone in u
  {
    var aside, d := SetAside(c.base, runId), u[c.clone];
    var bare := (u - {c.clone})[c.base := d];
    var full := (u - {c.clone})[c.base := d.(snaps := NewLatest(d.files))];
    if c.base in u then
      if k <= 1 then u
      else if k == 2 then (u - {c.base})[aside := u[c.base]]
      else if k == 3 then bare[aside := u[c.base]]
      else if k == 4 then bare
      else full
    else if k == 0 && fate == Refused then full
    else if k <= 1 then u
    else if k == 2 then bare
    else full
  }

  lemma EmptyStops(u: Store, runId: string, c: CacheClone, k: nat, fate: Mishap)
    requires Startable(u, c, runId) && !c.inWorkspace
    ensures StoppedAt(u, runId, c, k, fate) == EmptyLeft(u, runId, c, k, fate)
  {
    var w := Until(u, k, fate);
    HeadRuns(w, c);
    IssueUntil(u, k, fate, ListDataset(c.base));
    if c.base in u {
      if k == 0 {
        LookFails(u, runId, c, fate);
      } else {
        ReplacingStops(u, runId, c, k, fate);
      }
    } else if k == 0 {
      EmptyBlindStops(u, runId, c, fate);
    } else {
      PlacingStops(u, runId, c, k, fate);
    }
  }

  /** Without a base it does no harm not to see it. */
  lemma EmptyBlindStops(u: Store, runId: string, c: CacheClone, fate: Mishap)
    requires Startable(u, c, runId) && !c.inWorkspace && c.base !in u
    ensures RunAll(Struck(u, fate), CommitTail(c, runId, false)).world.store == EmptyLeft(u, runId, c, 0, fate)
  {
    if fate == Killed {
      DeadRuns(Struck(u, fate), CommitTail(c, runId, false));
    } else {
      EmptyCommitPlain(u, runId, c);
      HeadRuns(Calm(u), c);
    }
  }

  lemma PlacingStops(u: Store, runId: string, c: CacheClone, k: nat, fate: Mishap)
    requires Startable(u, c, runId) && !c.inWorkspace && c.base !in u && k >= 1
    ensures RunAll(Until(u, k - 1, fate), CommitTail(c, runId, false)).world.store == EmptyLeft(u, runId, c, k, fate)
  {
    TailRuns(Until(u, k - 1, fate), c, runId, false);
    IssueUntil(u, k - 1, fate, Rename(c.clone, c.base));
    RenameAlone(u, c.clone, c.base);
    if k >= 2 {
      SnapshotStops(u - {c.clone}, c.base, u[c.clone], k - 2, fate);
    }
  }

  lemma SnapshotStops(s: Store, base: string, d: Dataset, k: nat, fate: Mishap)
    requires d.snaps == []
    ensures Issue(Until(s[base := d], k, fate), Snapshot(Latest(base))).world.store ==
      if k == 0 then s[base := d] else s[base := d.(snaps := NewLatest(d.files))]
  {
    IssueUntil(s[base := d], k, fate, Snapshot(Latest(base)));
    SnapshotStep(s, base, d);
  }

  lemma ReplacingStops(u: Store, runId: string, c: CacheClone, k: nat, fate: Mishap)
    requires Startable(u, c, runId) && !c.inWorkspace && c.base in u && k >= 1
    ensures RunAll(Until(u, k - 1, fate), CommitTail(c, runId, true)).world.store == EmptyLeft(u, runId, c, k, fate)
  {
    var aside := SetAside(c.base, runId);
    TailRuns(Until(u, k - 1, fate), c, runId, true);
    IssueUntil(u, k - 1, fate, Rename(c.base, aside));
    RenameAlone(u, c.base, aside);
    if k >= 2 {
      ReplacedStops(u, runId, c, k, fate);
    }
  }

  lemma ReplacedDrops(u: Store, runId: string, c: CacheClone)
    requires Startable(u, c, runId) && c.base in u
    ensures var aside, d := SetAside(c.base, runId), u[c.clone];
      var x := ((u - {c.base})[aside := u[c.base]] - {c.clone})[c.base := d];
      && x == (u - {c.clone})[c.base := d][aside := u[c.base]]
      && Apply(x, DestroyAll(aside)) == Some((u - {c.clone})[c.base := d])
  {
    var aside, d := SetAside(c.base, runId), u[c.clone];
    var x := ((u - {c.base})[aside := u[c.base]] - {c.clone})[c.base := d];
    assert !HeldFromOutside(x, aside);
    assert x - {aside} == (u - {c.clone})[c.base := d];
  }

  lemma ReplacedStops(u: Store, runId: string, c: CacheClone, k: nat, fate: Mishap)
    requires Startable(u, c, runId) && c.base in u && k >= 2
    ensures var aside := SetAside(c.base, runId);
      var v := (u - {c.base})[aside := u[c.base]];
      Then(Then(Issue(Until(v, k - 2, fate), Rename(c.clone, c.base)), DestroyAll(aside)), Snapshot(Latest(c.base)))
        .world.store == EmptyLeft(u, runId, c, k, fate)
  {
    var aside, d := SetAside(c.base, runId), u[c.clone];
    var v := (u - {c.base})[aside := u[c.base]];
    var x := (v - {c.clone})[c.base := d];
    RenameAlone(v, c.clone, c.base);
    ReplacedDrops(u, runId, c);
    hide Issue, Apply, Until;
    StepUntil(v, k - 2, fate, Rename(c.clone, c.base), x);
    if k >= 3 {
      StepUntil(x, k - 3, fate, DestroyAll(aside), (u - {c.clone})[c.base := d]);
    }
    if k >= 4 {
      SnapshotStops(u - {c.clone}, c.base, d, k - 4, fate);
    }
  }

  /** Whether the new `@latest` was reached. */
  ghost predicate Reached(u: Store, c: CacheClone, k: nat, fate: Mishap) {
    if c.base in u then k >= Lead(c) + 5 else k >= Lead(c) + 3 || (k == Lead(c) && fate == Refused)
  }

  ghost predicate EmptyOutcome(u: Store, c: CacheClone, k: nat, fate: Mishap, t: Store)
    requires c.clone in u
  {
    && Shape(t) && Ready(t, c.base)
    && (HasLatest(t, c.base) <==> Reached(u, c, k, fate))
    && (HasLatest(t, c.base) ==> t[c.base].snaps == NewLatest(u[c.clone].files))
  }

  lemma PlainEmptyCrash(u: Store, runId: string, c: CacheClone, k: nat, fate: Mishap)
    requires Startable(u, c, runId) && !c.inWorkspace
    ensures EmptyOutcome(u, c, k, fate, StoppedAt(u, runId, c, k, fate))
  {
    EmptyStops(u, runId, c, k, fate);
    CommitKeepsGood(Until(u, k, fate), runId, c, Contents(u));
  }

  /**
   The same for a cache that started empty. It never blocks: wherever its commit is killed or has a command
   refused, the next one will go through, and the next run starts cold unless the last command was reached.
   */
  lemma EmptyCrashPoints(u: Store, runId: string, c: CacheClone, k: nat, fate: Mishap)
    requires Startable(u, c, runId)
    ensures EmptyOutcome(u, c, k, fate, StoppedAt(u, runId, c, k, fate))
  {
    if c.inWorkspace {
      CommitInherits(Until(u, k, fate), runId, c);
      IssueUntil(u, k, fate, Inherit(c.clone));
      if k > 0 {
        PlainEmptyCrash(Remounted(u, c), runId, c.(inWorkspace := false), k - 1, fate);
      }
    } else {
      PlainEmptyCrash(u, runId, c, k, fate);
    }
  }

  lemma NextRunAfterEmptyCrash(u: Store, runId: string, c: CacheClone, k: nat, fate: Mishap,
                               s: Setup, next: Cache, work: (string, Files) -> Files)
    requires Startable(u, c, runId)
    requires c.base == Base(s.Root(), next.name) && FreshFor(StoppedAt(u, runId, c, k, fate), s, next)
    ensures var r := LoneRun(StoppedAt(u, runId, c, k, fate), s, next, work, true);
      var handed := if Reached(u, c, k, fate) then u[c.clone].files else map[];
      && r.ok && c.base in r.world.store
      && r.world.store[c.base] == Committed(work(RunClone(s.Root(), next.name, s.runId), handed))
  {
    EmptyCrashPoints(u, runId, c, k, fate);
    LoneRunExact(StoppedAt(u, runId, c, k, fate), s, next, work, true);
  }
}
