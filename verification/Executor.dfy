/** Running one step: what is mounted into its jail and which lines it hands on. */
module Executor {
  import opened Outcomes
  import opened CachePath
  import opened Masking

  datatype Mount = Mount(host: string, target: string)

  /** A cache as the agent passes it on: host path and normalized path. */
  datatype CacheMount = CacheMount(host: string, path: string)

  /** The `--mount` arguments, in order: the workspace first, the caches on top of it. */
  method BuildMounts(workspace: string, caches: seq<CacheMount>) returns (mounts: seq<Mount>)
    ensures |mounts| == |caches| + 1
    ensures mounts[0] == Mount(workspace, WORKSPACE)
    ensures forall i :: 0 <= i < |caches| ==> mounts[i + 1].host == caches[i].host
    ensures forall i :: 0 <= i < |caches| ==> mounts[i + 1].target == MountTarget(caches[i].path)
    ensures AcceptedPaths(caches) ==>
      forall i, j :: 0 <= i < j < |mounts| ==> mounts[i].target != mounts[j].target
    ensures (forall i: nat :: i < |mounts| ==> !Covered(mounts, i)) <==> NoneOnTop(caches)
  {
    mounts := [Mount(workspace, WORKSPACE)];
    for i := 0 to |caches|
      invariant |mounts| == i + 1 && mounts[0] == Mount(workspace, WORKSPACE)
      invariant forall k :: 0 <= k < i ==> mounts[k + 1] == Mount(caches[k].host, MountTarget(caches[k].path))
    {
      var path := caches[i].path;
      var target := if IsAbsolute(path) then path else WORKSPACE + "/" + path;
      mounts := mounts + [Mount(caches[i].host, target)];
    }
    if AcceptedPaths(caches) {
      forall i, j | 0 <= i < j < |mounts| ensures mounts[i].target != mounts[j].target {
        TargetsDiffer(caches, i, j);
      }
    }
    NoneCoveredExactly(mounts, caches);
  }

  /** The text of a `--mount` argument. */
  function MountArgument(m: Mount): string {
    m.host + ":" + m.target
  }

  /** Accepted targets have no colon, so host path and target can be read back from the argument. */
  lemma ArgumentsTell(m: Mount, n: Mount, p: string, q: string)
    requires !BadPath(p) && !BadPath(q) && m.target == MountTarget(p) && n.target == MountTarget(q)
    requires MountArgument(m) == MountArgument(n)
    ensures m == n
  {
    NoColon(p);
    NoColon(q);
    LastColon(m.host, m.target, n.host, n.target);
  }

  lemma NoColon(p: string)
    requires !BadPath(p)
    ensures ':' !in MountTarget(p)
  {
    hide Components;
    ColonIn(WORKSPACE + "/", p);
  }

  lemma LastColon(a: string, x: string, b: string, y: string)
    requires ':' !in x && ':' !in y && a + ":" + x == b + ":" + y
    ensures a == b && x == y
  {
    var s := a + ":" + x;
    assert s[|a|] == ':' && s[|b|] == ':';
    assert forall i :: |a| < i < |s| ==> s[i] == x[i - |a| - 1];
    assert forall i :: |b| < i < |s| ==> s[i] == y[i - |b| - 1];
    assert |a| == |b|;
    assert a == s[..|a|] && b == s[..|b|] && x == s[|a| + 1..] && y == s[|b| + 1..];
  }

  /** The directory `path` of the jail is found in mount `i`: the last one made at that directory or above it. */
  ghost predicate Serves(mounts: seq<Mount>, i: nat, path: seq<string>) {
    && i < |mounts| && Components(mounts[i].target) <= path
    && forall j :: i < j < |mounts| ==> !(Components(mounts[j].target) <= path)
  }

  /** Nothing of mount `i` can be reached. */
  ghost predicate Covered(mounts: seq<Mount>, i: nat) {
    forall path :: !Serves(mounts, i, path)
  }

  /** No target leads to an earlier one or above it, as the validator could see on tidied texts. */
  ghost predicate NoneOnTop(caches: seq<CacheMount>) {
    forall i, j :: 0 <= i < j <= |caches| ==> !SeenOnTop(TargetAt(caches, j), TargetAt(caches, i))
  }

  /** A mount is out of reach exactly if a later one is made at its target or above. */
  lemma CoveredExactly(mounts: seq<Mount>, i: nat)
    requires i < |mounts|
    ensures Covered(mounts, i) <==> exists j :: i < j < |mounts| && OnTop(mounts[j].target, mounts[i].target)
  {
    if !Covered(mounts, i) {
      var path :| Serves(mounts, i, path);
      forall j | i < j < |mounts| ensures !OnTop(mounts[j].target, mounts[i].target) {
      }
    } else {
      assert !Serves(mounts, i, Components(mounts[i].target));
    }
  }

  /** Every mount can be reached exactly if no target is seen on top of an earlier one. */
  lemma NoneCoveredExactly(mounts: seq<Mount>, caches: seq<CacheMount>)
    requires |mounts| == |caches| + 1
    requires forall i :: 0 <= i < |mounts| ==> mounts[i].target == TargetAt(caches, i)
    ensures (forall i: nat :: i < |mounts| ==> !Covered(mounts, i)) <==> NoneOnTop(caches)
  {
    forall i: nat | i < |mounts|
      ensures Covered(mounts, i) <==> exists j :: i < j < |mounts| && OnTop(mounts[j].target, mounts[i].target)
    {
      CoveredExactly(mounts, i);
    }
    forall i, j | 0 <= i < j < |mounts|
      ensures OnTop(mounts[j].target, mounts[i].target) <==> SeenOnTop(TargetAt(caches, j), TargetAt(caches, i))
    {
      OnTopExactly(mounts[j].target, mounts[i].target);
    }
    hide Covered, OnTop, SeenOnTop, TargetAt;
  }

  /** If an inner cache is declared before the outer one, all of it is out of reach. */
  lemma InnerIsCovered(mounts: seq<Mount>, i: nat, j: nat, x: string, y: string)
    requires i < j < |mounts| && !BadPath(x) && !BadPath(y) && !IsAbsolute(y)
    requires mounts[i].target == MountTarget(x + "/" + y) && mounts[j].target == MountTarget(x)
    ensures !BadPath(x + "/" + y) && Covered(mounts, i)
  {
    OuterCoversInner(x, y);
    CoveredExactly(mounts, i);
  }

  /** The paths of caches the validator accepted. */
  ghost predicate AcceptedPaths(caches: seq<CacheMount>) {
    && (forall i :: 0 <= i < |caches| ==> !BadPath(caches[i].path))
    && (forall i, j :: 0 <= i < j < |caches| ==> caches[i].path != caches[j].path)
  }

  function TargetAt(caches: seq<CacheMount>, i: nat): string
    requires i <= |caches|
  {
    if i == 0 then WORKSPACE else MountTarget(caches[i - 1].path)
  }

  lemma TargetsDiffer(caches: seq<CacheMount>, i: nat, j: nat)
    requires AcceptedPaths(caches) && i < j <= |caches|
    ensures TargetAt(caches, i) != TargetAt(caches, j)
  {
    MountTargetsDistinct(caches[j - 1].path, caches[if i == 0 then j - 1 else i - 1].path);
  }

  /** What a process does: whether it starts, stdout as it is read, the wait for it, stderr as its thread got it. */
  datatype Process = Process(spawned: Result<(), Bytes>, stdout: seq<Result<Bytes, Bytes>>,
                             waited: Result<(), Bytes>, stderr: Result<seq<Bytes>, Bytes>, code: int, success: bool)

  datatype Ended = Exited(code: int, success: bool) | Failed(error: Bytes)

  predicate Readable(p: Process) {
    forall i :: 0 <= i < |p.stdout| ==> p.stdout[i].Ok?
  }

  /** Started, read and waited for without trouble. */
  predicate Smooth(p: Process) {
    p.spawned.Ok? && Readable(p) && p.waited.Ok?
  }

  /**
   All of stdout before all of stderr. A process that cannot be started, a line of stdout that cannot be read and
   a wait that fails end the step as an executor error, with what was read of stdout so far; stderr that cannot
   be read is dropped as a whole and the exit counts.
   */
  method RunStep(p: Process) returns (lines: seq<Bytes>, end: Ended)
    ensures Smooth(p) <==> end.Exited?
    ensures Smooth(p) ==>
      && end == Exited(p.code, p.success)
      && |lines| == |p.stdout| + (if p.stderr.Ok? then |p.stderr.value| else 0)
      && (p.stderr.Ok? ==> lines[|p.stdout|..] == p.stderr.value)
    ensures forall i :: 0 <= i < |lines| && i < |p.stdout| ==> p.stdout[i] == Ok(lines[i])
    ensures p.spawned.Err? ==> lines == [] && end == Failed(p.spawned.error)
    ensures p.spawned.Ok? && !Readable(p) ==>
      |lines| < |p.stdout| && p.stdout[|lines|].Err? && end == Failed(p.stdout[|lines|].error)
    ensures p.spawned.Ok? && Readable(p) && p.waited.Err? ==> |lines| == |p.stdout| && end == Failed(p.waited.error)
  {
    lines := [];
    if p.spawned.Err? {
      return lines, Failed(p.spawned.error);
    }
    for i := 0 to |p.stdout|
      invariant |lines| == i && forall k :: 0 <= k < i ==> p.stdout[k] == Ok(lines[k])
    {
      if p.stdout[i].Err? {
        return lines, Failed(p.stdout[i].error);
      }
      lines := lines + [p.stdout[i].value];
    }
    if p.waited.Err? {
      return lines, Failed(p.waited.error);
    }
    if p.stderr.Ok? {
      ghost var before := lines;
      for i := 0 to |p.stderr.value|
        invariant lines == before + p.stderr.value[..i]
      {
        lines := lines + [p.stderr.value[i]];
      }
    }
    end := Exited(p.code, p.success);
  }
}
