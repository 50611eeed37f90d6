/**
 The part of ZFS the agent relies on: datasets with files, ordered snapshots, an
 optional origin and a mountpoint setting, and the commands the agent issues.
 A command either succeeds with the effect below or fails and changes nothing.
 */
module Zfs {
  import opened Outcomes

  type Files = map<string, string>

  const GIT: string := ".git"

  /** The files of a clone of a repository. */
  type Tree = f: Files | GIT in f witness map[GIT := ""]

  datatype SnapRef = SnapRef(ds: string, snap: string)

  datatype Snap = Snap(name: string, files: Files)

  datatype Mountpoint = Inherited | At(path: string)

  datatype Dataset = Dataset(files: Files, snaps: seq<Snap>, origin: Option<SnapRef>, mount: Mountpoint)

  type Store = map<string, Dataset>

  datatype Command =
    | CreateParents(ds: string)
    | Create(ds: string, mount: Mountpoint)
    | Clone(from: SnapRef, ds: string, mount: Mountpoint)
    | Inherit(ds: string)
    | Promote(ds: string)
    | Rename(ds: string, to: string)
    | DestroyAll(ds: string)
    | DestroySnap(ref: SnapRef)
    | Snapshot(ref: SnapRef)
    | ListDataset(ds: string)
    | ListSnap(ref: SnapRef)
    | GetMountpoint(ds: string)
    | Chown(ds: string)
    | Fetch(ds: string)
    | GitClone(ds: string, files: Tree)
    | Checkout(ds: string, files: Tree)

  /** Position of the first snapshot called `name`, or the length if there is none. */
  function SnapIndex(snaps: seq<Snap>, name: string): (i: nat)
    ensures i <= |snaps|
    ensures i < |snaps| ==> snaps[i].name == name
    ensures forall j :: 0 <= j < i ==> snaps[j].name != name
  {
    if snaps == [] || snaps[0].name == name then 0 else 1 + SnapIndex(snaps[1..], name)
  }

  predicate HasName(snaps: seq<Snap>, name: string) {
    exists i :: 0 <= i < |snaps| && snaps[i].name == name
  }

  predicate HasSnap(s: Store, ref: SnapRef) {
    ref.ds in s && HasName(s[ref.ds].snaps, ref.snap)
  }

  /** Some dataset was cloned from `ref` and still depends on it. */
  predicate HasDependents(s: Store, ref: SnapRef) {
    exists d :: d in s && s[d].origin == Some(ref)
  }

  /** Some dataset other than `ds` depends on a snapshot of `ds`. */
  predicate HeldFromOutside(s: Store, ds: string) {
    exists d :: d in s && d != ds && s[d].origin.Some? && s[d].origin.value.ds == ds
  }

  /** The dataset as seen after the snapshots `moved` of `from` changed owner to `to`. */
  function Repoint(d: Dataset, from: string, moved: seq<Snap>, to: string): Dataset {
    if d.origin.Some? && d.origin.value.ds == from && HasName(moved, d.origin.value.snap)
    then d.(origin := Some(SnapRef(to, d.origin.value.snap)))
    else d
  }

  /** The dataset as seen after `from` was renamed to `to`. */
  function FollowRename(d: Dataset, from: string, to: string): Dataset {
    if d.origin.Some? && d.origin.value.ds == from
    then d.(origin := Some(SnapRef(to, d.origin.value.snap)))
    else d
  }

  /**
   `zfs promote`: the snapshots of the origin up to and including the one the clone came from
   move to the clone, parent and clone swap roles, and every dataset whose origin moved follows it.
   */
  function Promoted(s: Store, ds: string): Option<Store> {
    if ds !in s || s[ds].origin.None? then None else
    var ref := s[ds].origin.value;
    if ref.ds !in s || ref.ds == ds then None else
    var parent := s[ref.ds];
    var i := SnapIndex(parent.snaps, ref.snap);
    if i == |parent.snaps| then None else
    var moved := parent.snaps[..i + 1];
    if exists j :: 0 <= j < |moved| && HasName(s[ds].snaps, moved[j].name) then None else
    Some(map d | d in s ::
           if d == ds then s[ds].(snaps := moved + s[ds].snaps, origin := parent.origin)
           else if d == ref.ds then parent.(snaps := parent.snaps[i + 1..], origin := Some(SnapRef(ds, ref.snap)))
           else Repoint(s[d], ref.ds, moved, ds))
  }

  function Renamed(s: Store, ds: string, to: string): Option<Store> {
    if ds !in s || to in s then None else
    Some(map d | d in (s.Keys - {ds}) + {to} :: FollowRename(if d == to then s[ds] else s[d], ds, to))
  }

  /** The dataset holds a repository; git works in it, and refuses to clone into it. */
  predicate Cloned(s: Store, ds: string) {
    ds in s && GIT in s[ds].files
  }

  /** One command on the store; `None` means that it failed. */
  function Apply(s: Store, c: Command): Option<Store> {
    match c
    case CreateParents(ds) => Some(if ds in s then s else s[ds := Dataset(map[], [], None, Inherited)])
    case Create(ds, mount) => if ds in s then None else Some(s[ds := Dataset(map[], [], None, mount)])
    case Clone(from, ds, mount) =>
      if ds in s || !HasSnap(s, from) then None else
      var snaps := s[from.ds].snaps;
      Some(s[ds := Dataset(snaps[SnapIndex(snaps, from.snap)].files, [], Some(from), mount)])
    case Inherit(ds) => if ds !in s then None else Some(s[ds := s[ds].(mount := Inherited)])
    case Promote(ds) => Promoted(s, ds)
    case Rename(ds, to) => Renamed(s, ds, to)
    case DestroyAll(ds) => if ds !in s || HeldFromOutside(s, ds) then None else Some(s - {ds})
    case DestroySnap(ref) =>
      if !HasSnap(s, ref) || HasDependents(s, ref) then None else
      var snaps := s[ref.ds].snaps;
      var i := SnapIndex(snaps, ref.snap);
      Some(s[ref.ds := s[ref.ds].(snaps := snaps[..i] + snaps[i + 1..])])
    case Snapshot(ref) =>
      if ref.ds !in s || HasSnap(s, ref) then None else
      Some(s[ref.ds := s[ref.ds].(snaps := s[ref.ds].snaps + [Snap(ref.snap, s[ref.ds].files)])])
    case ListDataset(ds) => if ds in s then Some(s) else None
    case ListSnap(ref) => if HasSnap(s, ref) then Some(s) else None
    case GetMountpoint(ds) => if ds in s then Some(s) else None
    case Chown(ds) => if ds in s then Some(s) else None
    case Fetch(ds) => if Cloned(s, ds) then Some(s) else None
    case GitClone(ds, files) =>
      if ds in s && s[ds].files == map[] then Some(s[ds := s[ds].(files := files)]) else None
    case Checkout(ds, files) => if Cloned(s, ds) then Some(s[ds := s[ds].(files := files)]) else None
  }

  // ---- Well-formed stores ----

  ghost predicate DistinctNames(snaps: seq<Snap>) {
    forall i, j :: 0 <= i < j < |snaps| ==> snaps[i].name != snaps[j].name
  }

  /** `rank` strictly falls along every origin link. */
  ghost predicate Ranked(s: Store, rank: map<string, nat>) {
    forall d :: d in s ==>
      && d in rank
      && (s[d].origin.Some? ==> s[d].origin.value.ds in rank && rank[s[d].origin.value.ds] < rank[d])
  }

  ghost predicate OriginsExist(s: Store) {
    forall d :: d in s && s[d].origin.Some? ==> HasSnap(s, s[d].origin.value)
  }

  /** Snapshot names are unique per dataset, each origin exists, and origins never form a cycle. */
  ghost predicate WellFormed(s: Store) {
    && (forall d :: d in s ==> DistinctNames(s[d].snaps))
    && OriginsExist(s)
    && exists rank :: Ranked(s, rank)
  }

  /** `chain` follows origin links of `s` from its first to its last dataset. */
  ghost predicate OriginChain(s: Store, chain: seq<string>) {
    forall i :: 0 <= i < |chain| - 1 ==>
      && chain[i] in s && s[chain[i]].origin.Some?
      && s[chain[i]].origin.value.ds == chain[i + 1]
  }

  /** What well-formedness is for: following origins never leads back. */
  lemma {:induction false} NoOriginCycle(s: Store, chain: seq<string>)
    requires WellFormed(s) && OriginChain(s, chain) && |chain| >= 2
    ensures chain[0] != chain[|chain| - 1]
  {
    var rank :| Ranked(s, rank);
    RankFalls(s, rank, chain);
  }

  lemma {:induction false} RankFalls(s: Store, rank: map<string, nat>, chain: seq<string>)
    requires Ranked(s, rank) && OriginChain(s, chain) && |chain| >= 2
    ensures chain[0] in rank && chain[|chain| - 1] in rank && rank[chain[|chain| - 1]] < rank[chain[0]]
  {
    assert chain[0] in s && s[chain[0]].origin.Some? && s[chain[0]].origin.value.ds == chain[1];
    if |chain| > 2 {
      forall i | 0 <= i < |chain[1..]| - 1
        ensures
          && chain[1..][i] in s && s[chain[1..][i]].origin.Some?
          && s[chain[1..][i]].origin.value.ds == chain[1..][i + 1]
      {
        assert chain[1..][i] == chain[i + 1];
      }
      RankFalls(s, rank, chain[1..]);
    }
  }

  /** Every command the agent issues keeps the store well formed. */
  lemma ApplyKeepsWellFormed(s: Store, c: Command)
    requires WellFormed(s) && Apply(s, c).Some?
    ensures WellFormed(Apply(s, c).value)
  {
    var rank :| Ranked(s, rank);
    var t := Apply(s, c).value;
    match c
    case CreateParents(ds) => if ds !in s { NewLeaf(s, rank, ds, t[ds]); }
    case Create(ds, mount) => NewLeaf(s, rank, ds, t[ds]);
    case Clone(from, ds, mount) => NewLeaf(s, rank, ds, t[ds]);
    case Inherit(ds) => PutKeepsWellFormed(s, rank, ds, t[ds]);
    case Promote(ds) => PromoteKeepsWellFormed(s, rank, ds);
    case Rename(ds, to) => RenameKeepsWellFormed(s, rank, ds, to);
    case DestroyAll(ds) => DestroyKeepsWellFormed(s, rank, ds);
    case DestroySnap(ref) => DestroySnapKeepsWellFormed(s, rank, ref);
    case Snapshot(ref) => PutKeepsWellFormed(s, rank, ref.ds, t[ref.ds]);
    case ListDataset(ds) =>
    case ListSnap(ref) =>
    case GetMountpoint(ds) =>
    case Chown(ds) =>
    case Fetch(ds) =>
    case GitClone(ds, files) => PutKeepsWellFormed(s, rank, ds, t[ds]);
    case Checkout(ds, files) => PutKeepsWellFormed(s, rank, ds, t[ds]);
  }

  /** A new version of a dataset with its snapshots (perhaps one more) and its origin kept. */
  lemma PutKeepsWellFormed(s: Store, rank: map<string, nat>, ds: string, d: Dataset)
    requires WellFormed(s) && Ranked(s, rank) && ds in s
    requires d.origin == s[ds].origin && s[ds].snaps <= d.snaps && DistinctNames(d.snaps)
    ensures WellFormed(s[ds := d])
  {
    var t := s[ds := d];
    assert Ranked(t, rank);
    forall x | x in t && t[x].origin.Some? ensures HasSnap(t, t[x].origin.value) {
      var o := t[x].origin.value;
      assert HasSnap(s, o);
      var i :| 0 <= i < |s[o.ds].snaps| && s[o.ds].snaps[i].name == o.snap;
      assert t[o.ds].snaps[i].name == o.snap;
    }
  }

  lemma DestroyKeepsWellFormed(s: Store, rank: map<string, nat>, ds: string)
    requires WellFormed(s) && Ranked(s, rank) && ds in s && !HeldFromOutside(s, ds)
    ensures WellFormed(s - {ds})
  {
    var t := s - {ds};
    assert Ranked(t, rank);
    forall d | d in t && t[d].origin.Some? ensures HasSnap(t, t[d].origin.value) {
      assert HasSnap(s, s[d].origin.value);
    }
  }

  lemma NewLeaf(s: Store, rank: map<string, nat>, ds: string, leaf: Dataset)
    requires WellFormed(s) && Ranked(s, rank) && ds !in s
    requires leaf.snaps == [] && (leaf.origin.Some? ==> HasSnap(s, leaf.origin.value))
    ensures WellFormed(s[ds := leaf])
  {
    var t := s[ds := leaf];
    // Nothing can point at `ds` yet, so any rank above the origin's will do.
    var top := if leaf.origin.Some? then rank[leaf.origin.value.ds] + 1 else 0;
    var rank' := rank[ds := top];
    assert Ranked(t, rank') by {
      forall d | d in t && t[d].origin.Some?
        ensures t[d].origin.value.ds in rank' && rank'[t[d].origin.value.ds] < rank'[d]
      {
        assert d in s ==> HasSnap(s, s[d].origin.value);
      }
    }
  }

  lemma DestroySnapKeepsWellFormed(s: Store, rank: map<string, nat>, ref: SnapRef)
    requires WellFormed(s) && Ranked(s, rank) && Apply(s, DestroySnap(ref)).Some?
    ensures WellFormed(Apply(s, DestroySnap(ref)).value)
  {
    var t := Apply(s, DestroySnap(ref)).value;
    assert Ranked(t, rank);
    var i := SnapIndex(s[ref.ds].snaps, ref.snap);
    forall d | d in t && t[d].origin.Some? ensures HasSnap(t, t[d].origin.value) {
      var o := t[d].origin.value;
      assert s[d].origin == Some(o) && o != ref;
      var k :| 0 <= k < |s[o.ds].snaps| && s[o.ds].snaps[k].name == o.snap;
      if o.ds == ref.ds {
        assert t[o.ds].snaps[if k < i then k else k - 1].name == o.snap;
      }
    }
  }

  lemma RenameKeepsWellFormed(s: Store, rank: map<string, nat>, ds: string, to: string)
    requires WellFormed(s) && Ranked(s, rank) && ds in s && to !in s
    ensures WellFormed(Renamed(s, ds, to).value)
  {
    var t := Renamed(s, ds, to).value;
    var rank' := rank[to := rank[ds]];
    forall d | d in t
      ensures DistinctNames(t[d].snaps)
      ensures t[d].origin.Some? ==> HasSnap(t, t[d].origin.value)
      ensures d in rank'
      ensures t[d].origin.Some? ==>
        t[d].origin.value.ds in rank' && rank'[t[d].origin.value.ds] < rank'[d]
    {
      var was := if d == to then ds else d;
      assert t[d] == FollowRename(s[was], ds, to);
      if t[d].origin.Some? {
        assert HasSnap(s, s[was].origin.value);
      }
    }
    assert Ranked(t, rank');
  }

  lemma PromoteKeepsWellFormed(s: Store, rank: map<string, nat>, ds: string)
    requires WellFormed(s) && Ranked(s, rank) && Promoted(s, ds).Some?
    ensures WellFormed(Promoted(s, ds).value)
  {
    var t := Promoted(s, ds).value;
    var ref := s[ds].origin.value;
    var rank' := map d | d in rank ::
      if d == ds then 2 * rank[ref.ds] else if d == ref.ds then 2 * rank[ref.ds] + 1 else 2 * rank[d];
    PromotedRanks(s, rank, ds);
    assert Ranked(t, rank');
    forall d | d in t && t[d].origin.Some? ensures HasSnap(t, t[d].origin.value) {
      PromotedOriginExists(s, rank, ds, t, d);
    }
    PromotedNames(s, ds);
  }

  /** The promoted clone takes its parent's place and the parent goes right below it. */
  lemma PromotedRanks(s: Store, rank: map<string, nat>, ds: string)
    requires OriginsExist(s) && Ranked(s, rank) && Promoted(s, ds).Some?
    ensures var ref := s[ds].origin.value;
      Ranked(Promoted(s, ds).value, map d | d in rank ::
        if d == ds then 2 * rank[ref.ds] else if d == ref.ds then 2 * rank[ref.ds] + 1 else 2 * rank[d])
  {
  }

  lemma PromotedNames(s: Store, ds: string)
    requires Promoted(s, ds).Some? && forall d :: d in s ==> DistinctNames(s[d].snaps)
    ensures forall d :: d in s ==> DistinctNames(Promoted(s, ds).value[d].snaps)
  {
  }

  /** A snapshot is still there after a promotion: with the clone if it is one of those that moved. */
  lemma PromotedKeepsSnap(s: Store, ds: string, o: SnapRef)
    requires Promoted(s, ds).Some? && HasSnap(s, o)
    ensures var ref := s[ds].origin.value;
      var moved := s[ref.ds].snaps[..SnapIndex(s[ref.ds].snaps, ref.snap) + 1];
      HasSnap(Promoted(s, ds).value, if o.ds == ref.ds && HasName(moved, o.snap) then SnapRef(ds, o.snap) else o)
  {
    var t, ref := Promoted(s, ds).value, s[ds].origin.value;
    var i := SnapIndex(s[ref.ds].snaps, ref.snap);
    var moved := s[ref.ds].snaps[..i + 1];
    var k :| 0 <= k < |s[o.ds].snaps| && s[o.ds].snaps[k].name == o.snap;
    if o.ds == ref.ds {
      assert k < |moved| ==> moved[k].name == o.snap && HasName(moved, o.snap);
      if HasName(moved, o.snap) {
        var m :| 0 <= m < |moved| && moved[m].name == o.snap;
        assert t[ds].snaps[m].name == o.snap;
      } else {
        assert t[o.ds].snaps[k - i - 1].name == o.snap;
      }
    } else if o.ds == ds {
      assert t[ds].snaps[|moved| + k].name == o.snap;
    } else {
      assert t[o.ds].snaps == s[o.ds].snaps;
    }
  }

  lemma PromotedOriginExists(s: Store, rank: map<string, nat>, ds: string, t: Store, d: string)
    requires OriginsExist(s) && Ranked(s, rank) && Promoted(s, ds) == Some(t)
    requires d in t && t[d].origin.Some?
    ensures HasSnap(t, t[d].origin.value)
  {
    hide HasSnap;
    var ref := s[ds].origin.value;
    var was := if d == ds then ref.ds else d;
    if d == ref.ds {
      var moved := s[ref.ds].snaps[..SnapIndex(s[ref.ds].snaps, ref.snap) + 1];
      assert moved[|moved| - 1].name == ref.snap;
      PromotedKeepsSnap(s, ds, ref);
    } else {
      PromotedKeepsSnap(s, ds, s[was].origin.value);
    }
  }

  /** Renaming is undone by renaming back. */
  lemma RenameUndone(s: Store, ds: string, to: string)
    requires WellFormed(s) && Renamed(s, ds, to).Some?
    ensures Renamed(Renamed(s, ds, to).value, to, ds) == Some(s)
  {
    var t := Renamed(s, ds, to).value;
    forall d | d in s
      ensures FollowRename(FollowRename(s[d], ds, to), to, ds) == s[d]
    {
      if s[d].origin.Some? {
        assert HasSnap(s, s[d].origin.value);
      }
    }
    assert Renamed(t, to, ds).value == s;
  }

  /** Promoting is undone by promoting the dataset that was the parent. */
  lemma PromoteUndone(s: Store, ds: string)
    requires WellFormed(s) && Promoted(s, ds).Some?
    ensures Promoted(Promoted(s, ds).value, s[ds].origin.value.ds) == Some(s)
  {
    var rank :| Ranked(s, rank);
    var t, ref := Promoted(s, ds).value, s[ds].origin.value;
    var moved := s[ref.ds].snaps[..SnapIndex(s[ref.ds].snaps, ref.snap) + 1];
    MovedIsFound(moved, s[ds].snaps, ref.snap);
    SnapsBack(s, ds, moved, ref);
    forall d | d in s && d != ds && d != ref.ds ensures Repoint(t[d], ds, moved, ref.ds) == s[d] {
      RepointedBack(s, d, ref.ds, moved, ds);
    }
    hide HasName, SnapIndex, DistinctNames, Repoint, OriginsExist;
    var u := Promoted(t, ref.ds);
    assert u.Some?;
    assert u.value[ds] == s[ds];
    assert u.value[ref.ds] == s[ref.ds];
    assert u.value == s;
  }

  /** Cutting off what moved gives each of the two its own snapshots back. */
  lemma SnapsBack(s: Store, ds: string, moved: seq<Snap>, ref: SnapRef)
    requires Promoted(s, ds).Some? && s[ds].origin == Some(ref) && DistinctNames(s[ref.ds].snaps)
    requires moved == s[ref.ds].snaps[..SnapIndex(s[ref.ds].snaps, ref.snap) + 1]
    ensures var t := Promoted(s, ds).value;
      && t[ds].snaps == moved + s[ds].snaps
      && t[ds].snaps[..|moved|] == moved && t[ds].snaps[|moved|..] == s[ds].snaps
      && moved + t[ref.ds].snaps == s[ref.ds].snaps
      && forall j :: 0 <= j < |moved| ==> !HasName(t[ref.ds].snaps, moved[j].name)
  {
  }

  lemma {:induction false} MovedIsFound(moved: seq<Snap>, rest: seq<Snap>, name: string)
    requires moved != [] && moved[|moved| - 1].name == name
    requires forall k :: 0 <= k < |moved| - 1 ==> moved[k].name != name
    ensures SnapIndex(moved + rest, name) == |moved| - 1
  {
    assert (moved + rest)[|moved| - 1].name == name;
  }

  /** The snapshots that moved bear names the clone had none of, so nothing pointed at the clone by those. */
  lemma RepointedBack(s: Store, d: string, from: string, moved: seq<Snap>, to: string)
    requires OriginsExist(s) && d in s && to in s && from != to
    requires forall j :: 0 <= j < |moved| ==> !HasName(s[to].snaps, moved[j].name)
    ensures Repoint(Repoint(s[d], from, moved, to), to, moved, from) == s[d]
  {
    if s[d].origin.Some? {
      assert HasSnap(s, s[d].origin.value);
    }
  }
}
