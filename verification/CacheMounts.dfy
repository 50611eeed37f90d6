/** What attaching gives a run: clones mounted where the cache paths say, holding what `@latest` held, or nothing. */
module CacheMounts {
  import opened Zfs
  import opened Families
  import opened CacheNames
  import opened CachePath
  import opened CacheProtocol
  import opened CacheFrames
  import opened CacheShape
  import opened CacheCommit
  import opened Pipeline

  /** A relative cache is mounted in the workspace, at the pieces of its path; an absolute one anywhere. */
  ghost predicate Placed(u: Setup, path: string, mount: Mountpoint) {
    if IsAbsolute(Normalize(path)) then mount == Inherited
    else mount.At? && Components(mount.path) == Components(u.path) + Components(Normalize(path))
  }

  /** The clone holds the files of `@latest` if it was restored from it, and none otherwise. */
  ghost predicate Filled(t: Store, c: CacheClone, d: Dataset) {
    if c.restored then HasLatest(t, c.base) && d.files == t[c.base].snaps[0].files else d.files == map[]
  }

  lemma {:induction false} ProvidedAt(w: World, u: Setup, c: Cache, restored: bool)
    requires Shape(w.store)
    ensures var clone := CloneFor(u, c, restored);
      var made := Issue(w, Provision(u, c, restored));
      made.ok ==>
        && clone.clone in made.world.store
        && Placed(u, c.path, made.world.store[clone.clone].mount)
        && Filled(w.store, clone, made.world.store[clone.clone])
  {
    hide Components, Normalize, SnapIndex, HasDependents, Clear;
    var base := Base(u.Root(), c.name);
    InnerComponents(u.path, Normalize(c.path));
    if base in w.store && w.store[base].snaps != [] {
      SoleSnapIndex(w.store, base, "latest");
    }
  }

  lemma {:induction false} OneProvided(w: World, u: Setup, c: Cache)
    requires Shape(w.store)
    ensures var r := AttachOne(w, u, c);
      r.caches != [] ==>
        && r.caches == [CloneFor(u, c, r.caches[0].restored)]
        && r.caches[0].clone in r.world.store
        && Placed(u, c.path, r.world.store[r.caches[0].clone].mount)
        && Filled(w.store, r.caches[0], r.world.store[r.caches[0].clone])
  {
    hide Issue, RunAll, Provision, Shape, Placed, Filled;
    var look := ListSnap(Latest(Base(u.Root(), c.name)));
    LookChangesNothing(w, Latest(Base(u.Root(), c.name)));
    var listed := Issue(w, look);
    ProvidedAt(listed.world, u, c, listed.ok);
    var made := Issue(listed.world, Provision(u, c, listed.ok));
    if made.ok {
      SettlingChangesNothing(made.world, CloneFor(u, c, listed.ok));
    }
  }

  lemma LookChangesNothing(w: World, ref: SnapRef)
    ensures Issue(w, ListSnap(ref)).world.store == w.store
  {
  }

  /** Attaching many: each clone is there, where it belongs, with what its cache held. */
  lemma {:induction false} AttachedProvided(f: string -> string, w: World, u: Setup, caches: seq<Cache>, i: nat)
    requires Local(f, w.store) && Declared(f, u, caches) && i < |AttachEach(w, u, caches).caches| <= |caches|
    requires Shape(Sub(f, w.store, Base(u.Root(), caches[i].name)))
    ensures var a := AttachEach(w, u, caches);
      var c := a.caches[i];
      && c == CloneFor(u, caches[i], c.restored)
      && (c.inWorkspace <==> !IsAbsolute(Normalize(caches[i].path)))
      && c.clone in a.world.store
      && Placed(u, caches[i].path, a.world.store[c.clone].mount)
      && Filled(Sub(f, w.store, c.base), c, a.world.store[c.clone])
  {
    hide Placed, Filled, Shape, AttachOne, Local, AttachEach;
    assert DeclaredOne(f, u, caches[i]);
    var w' := AttachEachAt(f, w, u, caches, i);
    OneProvided(w', u, caches[i]);
  }

  /** On a pool nobody disturbs, restored means that there was an `@latest`. */
  lemma {:induction false} RestoredTells(f: string -> string, s: Store, u: Setup, caches: seq<Cache>, i: nat)
    requires Local(f, s) && Declared(f, u, caches) && i < |AttachEach(Calm(s), u, caches).caches| <= |caches|
    requires Shape(Sub(f, s, Base(u.Root(), caches[i].name)))
    requires FreshFor(Sub(f, s, Base(u.Root(), caches[i].name)), u, caches[i])
    ensures var base := Base(u.Root(), caches[i].name);
      AttachEach(Calm(s), u, caches).caches[i].restored <==> HasLatest(Sub(f, s, base), base)
  {
    hide Shape, AttachOne, Local, AttachEach, FreshFor, HasLatest;
    var w' := AttachEachAt(f, Calm(s), u, caches, i);
    LoneAttach(w'.store, u, caches[i]);
  }

  lemma {:induction false} AllRestoredTells(f: string -> string, s: Store, u: Setup, caches: seq<Cache>, i: nat)
    requires Local(f, s) && Declared(f, u, caches) && i < |AttachAll(Calm(s), u, caches).caches| <= |caches|
    requires Shape(Sub(f, s, Base(u.Root(), caches[i].name)))
    requires FreshFor(Sub(f, s, Base(u.Root(), caches[i].name)), u, caches[i])
    ensures var base := Base(u.Root(), caches[i].name);
      AttachAll(Calm(s), u, caches).caches[i].restored <==> HasLatest(Sub(f, s, base), base)
  {
    assert DeclaredOne(f, u, caches[i]);
    IssueFrame(f, Calm(s), CreateParents(u.Root()), "");
    var root := Issue(Calm(s), CreateParents(u.Root()));
    assert root.world == Calm(root.world.store);
    hide Shape, AttachEach, Local, FreshFor, HasLatest, Issue, Sub, Declared;
    RestoredTells(f, root.world.store, u, caches, i);
  }

  /**
   What mounting is for. Of caches that lead to separate directories, the relative ones are mounted at different
   directories of the workspace on the host, none at the workspace itself, and each where its mount in the jail is.
   */
  lemma {:induction false} MountedApart(f: string -> string, w: World, u: Setup, caches: seq<Cache>, i: nat, j: nat)
    requires Local(f, w.store) && Declared(f, u, caches) && Separate(caches)
    requires i != j && i < |AttachEach(w, u, caches).caches| <= |caches| && j < |AttachEach(w, u, caches).caches|
    requires Shape(Sub(f, w.store, Base(u.Root(), caches[i].name)))
    requires Shape(Sub(f, w.store, Base(u.Root(), caches[j].name)))
    requires !IsAbsolute(Normalize(caches[i].path)) && !IsAbsolute(Normalize(caches[j].path))
    ensures var a := AttachEach(w, u, caches);
      && a.caches[i].clone in a.world.store && a.caches[j].clone in a.world.store
      && var m, n := a.world.store[a.caches[i].clone].mount, a.world.store[a.caches[j].clone].mount;
      && m.At? && n.At?
      && Components(m.path) != Components(n.path)
      && Components(m.path) != Components(u.path)
      && Components(TargetAt(caches, i)) != []
      && Components(m.path) == Components(u.path) + Components(TargetAt(caches, i))[1..]
  {
    AttachedProvided(f, w, u, caches, i);
    AttachedProvided(f, w, u, caches, j);
    hide Shape, AttachEach, Local, Normalize, Sub, Declared;
    RelativeTarget(caches, i);
    RelativeTarget(caches, j);
    WorkspaceIsTidy();
    var top, p, q := Components(u.path), Components(Normalize(caches[i].path)), Components(Normalize(caches[j].path));
    hide Components;
    assert i < j ==> Components(TargetAt(caches, i)) != Components(TargetAt(caches, j));
    assert j < i ==> Components(TargetAt(caches, j)) != Components(TargetAt(caches, i));
    assert !OnTop(TargetAt(caches, i), WORKSPACE);
    BehindTop(top, p, q);
  }

  lemma RelativeTarget(caches: seq<Cache>, i: nat)
    requires i < |caches| && !IsAbsolute(Normalize(caches[i].path))
    ensures Components(TargetAt(caches, i)) == ["workspace"] + Components(Normalize(caches[i].path))
  {
    ComponentsOfRelative(Normalize(caches[i].path));
  }

  lemma BehindTop(top: seq<string>, p: seq<string>, q: seq<string>)
    ensures top + p == top + q <==> p == q
    ensures top + p == top <==> p == []
    ensures (["workspace"] + p)[1..] == p
  {
    assert p == (top + p)[|top|..] && q == (top + q)[|top|..];
  }

  // ---- What attaching one cache takes ----

  /** Every command but the look must be obeyed: the clone, its mountpoint, and for a relative cache its owner. */
  lemma {:induction false} AttachExactly(w: World, u: Setup, c: Cache)
    requires Shape(w.store) && RunClone(u.Root(), c.name, u.runId) !in w.store
    ensures var a := AttachOne(w, u, c);
      var looked := w.alive && (w.fates == [] || w.fates[0] != Killed);
      && (a.caches != [] <==> looked && Clear(Ahead(w), 1))
      && (a.ok <==> looked && Clear(Ahead(w), if IsAbsolute(Normalize(c.path)) then 2 else 3))
  {
    var look := ListSnap(Latest(Base(u.Root(), c.name)));
    var clone := RunClone(u.Root(), c.name, u.runId);
    IssueTells(w, look);
    LookChangesNothing(w, Latest(Base(u.Root(), c.name)));
    var listed := Issue(w, look);
    var make := Provision(u, c, listed.ok);
    var made := Issue(listed.world, make);
    IssueTells(listed.world, make);
    ThreeClear(Ahead(w));
    if made.ok {
      SettleExactly(made.world, CloneFor(u, c, listed.ok));
    }
    hide Settle, Apply, Clear, Normalize, HasSnap, MountOption;
  }

  lemma {:induction false} SettleExactly(w: World, c: CacheClone)
    requires c.clone in w.store
    ensures RunAll(w, Settle(c)).ok <==> Clear(w, if c.inWorkspace then 2 else 1)
  {
    SettleRuns(w, c);
    IssueTells(w, GetMountpoint(c.clone));
    IssueTells(Ahead(w), Chown(c.clone));
    ClearOn(w, 2);
    hide Clear, Settle;
  }

  lemma ThreeClear(w: World)
    ensures Clear(w, 2) <==> Clear(w, 1) && Clear(Ahead(w), 1)
    ensures Clear(w, 3) <==> Clear(w, 1) && Clear(Ahead(w), 2)
  {
    ClearOn(w, 3);
    ClearOn(w, 2);
    hide Clear, Ahead;
  }
}
