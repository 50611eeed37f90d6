/**
 The frame rule: a function `f` splits the store's datasets into families (one per cache, one for
 everything else), no origin crosses from one family to another, and a command on one family neither
 sees nor touches the rest. It succeeds exactly if it would with that family alone in the store, and
 does the same to it.
 */
module Families {
  import opened Outcomes
  import opened Zfs

  /** The part of the store that belongs to family `g`. */
  function Sub(f: string -> string, s: Store, g: string): Store {
    map d | d in s && f(d) == g :: s[d]
  }

  ghost predicate Local(f: string -> string, s: Store) {
    forall d :: d in s && s[d].origin.Some? ==> f(s[d].origin.value.ds) == f(d)
  }

  /** Every dataset `c` names is in family `g`. */
  predicate Within(f: string -> string, c: Command, g: string) {
    match c
    case Clone(from, ds, _) => f(from.ds) == g && f(ds) == g
    case Rename(ds, to) => f(ds) == g && f(to) == g
    case DestroySnap(ref) => f(ref.ds) == g
    case Snapshot(ref) => f(ref.ds) == g
    case ListSnap(ref) => f(ref.ds) == g
    case _ => f(c.ds) == g
  }

  /** `whole` is what a command did to `s`, `part` what it did to family `g` alone: they agree. */
  ghost predicate SameResult(f: string -> string, s: Store, g: string, whole: Option<Store>, part: Option<Store>) {
    match (whole, part)
    case (None, None) => true
    case (Some(t), Some(u)) =>
      && Local(f, t)
      && Sub(f, t, g) == u
      && forall h :: h != g ==> Sub(f, t, h) == Sub(f, s, h)
    case _ => false
  }

  ghost predicate SameOnSub(f: string -> string, s: Store, c: Command, g: string) {
    SameResult(f, s, g, Apply(s, c), Apply(Sub(f, s, g), c))
  }

  lemma ApplyIsLocal(f: string -> string, s: Store, c: Command, g: string)
    requires Local(f, s) && Within(f, c, g)
    ensures SameOnSub(f, s, c, g)
  {
    match c
    case Promote(ds) => PromoteIsLocal(f, s, ds, g);
    case Rename(ds, to) => RenameIsLocal(f, s, ds, to, g);
    case DestroyAll(ds) => DestroyIsLocal(f, s, ds, g);
    case DestroySnap(ref) => DestroySnapIsLocal(f, s, ref, g);
    case CreateParents(ds) =>
      if ds !in s { PutIsLocal(f, s, ds, Dataset(map[], [], None, Inherited), g); }
    case Create(ds, _) => PutIsLocal(f, s, ds, Dataset(map[], [], None, c.mount), g);
    case Clone(from, ds, mount) => CloneIsLocal(f, s, from, ds, mount, g);
    case Inherit(ds) => if ds in s { PutIsLocal(f, s, ds, s[ds].(mount := Inherited), g); }
    case GitClone(ds, files) => if ds in s { PutIsLocal(f, s, ds, s[ds].(files := files), g); }
    case Checkout(ds, files) => if ds in s { PutIsLocal(f, s, ds, s[ds].(files := files), g); }
    case Snapshot(ref) => SnapshotIsLocal(f, s, ref, g);
    case ListDataset(_) =>
    case ListSnap(_) =>
    case GetMountpoint(_) =>
    case Chown(_) =>
    case Fetch(_) =>
  }

  /** Writing one dataset of family `g`, its origin in `g` too. */
  lemma PutIsLocal(f: string -> string, s: Store, ds: string, d: Dataset, g: string)
    requires Local(f, s) && f(ds) == g && (d.origin.Some? ==> f(d.origin.value.ds) == g)
    ensures Local(f, s[ds := d])
    ensures Sub(f, s[ds := d], g) == Sub(f, s, g)[ds := d]
    ensures forall h :: h != g ==> Sub(f, s[ds := d], h) == Sub(f, s, h)
  {
  }

  lemma CloneIsLocal(f: string -> string, s: Store, from: SnapRef, ds: string, mount: Mountpoint, g: string)
    requires Local(f, s) && f(from.ds) == g && f(ds) == g
    ensures SameOnSub(f, s, Clone(from, ds, mount), g)
  {
  }

  lemma SnapshotIsLocal(f: string -> string, s: Store, ref: SnapRef, g: string)
    requires Local(f, s) && f(ref.ds) == g
    ensures SameOnSub(f, s, Snapshot(ref), g)
  {
  }

  lemma DestroyIsLocal(f: string -> string, s: Store, ds: string, g: string)
    requires Local(f, s) && f(ds) == g
    ensures SameOnSub(f, s, DestroyAll(ds), g)
  {
    var u := Sub(f, s, g);
    if HeldFromOutside(s, ds) {
      var d :| d in s && d != ds && s[d].origin.Some? && s[d].origin.value.ds == ds;
      assert d in u;
    } else if ds in s {
      assert Sub(f, s - {ds}, g) == u - {ds};
      forall h | h != g ensures Sub(f, s - {ds}, h) == Sub(f, s, h) {
      }
    }
  }

  lemma DestroySnapIsLocal(f: string -> string, s: Store, ref: SnapRef, g: string)
    requires Local(f, s) && f(ref.ds) == g
    ensures SameOnSub(f, s, DestroySnap(ref), g)
  {
    var u := Sub(f, s, g);
    assert HasSnap(u, ref) <==> HasSnap(s, ref);
    assert HasDependents(u, ref) <==> HasDependents(s, ref) by {
      assert forall d :: d in s && s[d].origin == Some(ref) ==> d in u;
    }
    if HasSnap(s, ref) && !HasDependents(s, ref) {
      PutIsLocal(f, s, ref.ds, Apply(s, DestroySnap(ref)).value[ref.ds], g);
    }
  }

  lemma RenameIsLocal(f: string -> string, s: Store, ds: string, to: string, g: string)
    requires Local(f, s) && f(ds) == g && f(to) == g
    ensures SameOnSub(f, s, Rename(ds, to), g)
  {
    var u := Sub(f, s, g);
    if ds in s && to !in s {
      RenameInSub(f, s, ds, to, g);
      RenameElsewhere(f, s, ds, to, g);
    }
  }

  lemma RenameInSub(f: string -> string, s: Store, ds: string, to: string, g: string)
    requires Local(f, s) && f(ds) == g && f(to) == g && ds in s && to !in s
    ensures Some(Sub(f, Renamed(s, ds, to).value, g)) == Renamed(Sub(f, s, g), ds, to)
  {
    var t := Renamed(s, ds, to).value;
    assert Sub(f, t, g) == Renamed(Sub(f, s, g), ds, to).value;
  }

  lemma RenameElsewhere(f: string -> string, s: Store, ds: string, to: string, g: string)
    requires Local(f, s) && f(ds) == g && f(to) == g && ds in s && to !in s
    ensures Local(f, Renamed(s, ds, to).value)
    ensures forall h :: h != g ==> Sub(f, Renamed(s, ds, to).value, h) == Sub(f, s, h)
  {
  }

  lemma PromoteIsLocal(f: string -> string, s: Store, ds: string, g: string)
    requires Local(f, s) && f(ds) == g
    ensures SameOnSub(f, s, Promote(ds), g)
  {
    if Promoted(s, ds).Some? {
      PromoteInSub(f, s, ds, g);
      PromoteElsewhere(f, s, ds, g);
    }
  }

  lemma PromoteInSub(f: string -> string, s: Store, ds: string, g: string)
    requires Local(f, s) && f(ds) == g && Promoted(s, ds).Some?
    ensures Some(Sub(f, Promoted(s, ds).value, g)) == Promoted(Sub(f, s, g), ds)
  {
    var t := Promoted(s, ds).value;
    assert Sub(f, t, g) == Promoted(Sub(f, s, g), ds).value;
  }

  lemma PromoteElsewhere(f: string -> string, s: Store, ds: string, g: string)
    requires Local(f, s) && f(ds) == g && Promoted(s, ds).Some?
    ensures Local(f, Promoted(s, ds).value)
    ensures forall h :: h != g ==> Sub(f, Promoted(s, ds).value, h) == Sub(f, s, h)
  {
    hide Local, Sub;
    PromoteStaysLocal(f, s, ds);
    var t := Promoted(s, ds).value;
    forall h | h != g ensures Sub(f, t, h) == Sub(f, s, h) {
      PromoteLeaves(f, s, ds, h);
    }
  }

  lemma PromoteStaysLocal(f: string -> string, s: Store, ds: string)
    requires Local(f, s) && Promoted(s, ds).Some?
    ensures Local(f, Promoted(s, ds).value)
  {
    hide HasName;
  }

  lemma PromoteLeaves(f: string -> string, s: Store, ds: string, h: string)
    requires Local(f, s) && f(ds) != h && Promoted(s, ds).Some?
    ensures Sub(f, Promoted(s, ds).value, h) == Sub(f, s, h)
  {
    hide HasName;
    var t := Promoted(s, ds).value;
    forall d | d in s && f(d) == h ensures t[d] == s[d] {
    }
  }
}
