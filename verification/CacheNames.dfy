/** Dataset names: which cache a dataset belongs to, and why names never collide. */
module CacheNames {
  predicate IsNameChar(c: char) {
    'a' <= c <= 'z' || 'A' <= c <= 'Z' || '0' <= c <= '9' || c == '_' || c == '-'
  }

  predicate ValidCacheName(name: string) {
    name != "" && forall i :: 0 <= i < |name| ==> IsNameChar(name[i])
  }

  /** `owner/repo` as a single dataset component. */
  function Sanitize(repo: string): (slug: string)
    ensures |slug| == |repo|
    ensures forall i :: 0 <= i < |repo| ==>
      slug[i] == if IsNameChar(repo[i]) || repo[i] == '.' then repo[i] else '_'
    ensures '/' !in slug
  {
    seq(|repo|, i requires 0 <= i < |repo| => if IsNameChar(repo[i]) || repo[i] == '.' then repo[i] else '_')
  }

  function RepoDataset(pool: string, slug: string): string { pool + "/" + slug }

  function RunDataset(pool: string, runId: string): string { pool + "/run-" + runId }

  function CacheRoot(pool: string, slug: string): string { pool + "/cache/" + slug }

  function Base(root: string, name: string): string { root + "/" + name }

  function RunClone(root: string, name: string, runId: string): string { Base(root, name) + ".run-" + runId }

  function SetAside(base: string, runId: string): string { base + ".old-" + runId }

  /** Start of the component after the last slash. */
  function LastComponent(d: string): (i: nat)
    ensures i <= |d|
    ensures forall j :: i <= j < |d| ==> d[j] != '/'
    ensures i > 0 ==> d[i - 1] == '/'
  {
    if d == "" then 0
    else if d[|d| - 1] == '/' then |d|
    else LastComponent(d[..|d| - 1])
  }

  function DotFrom(d: string, i: nat): (j: nat)
    requires i <= |d|
    ensures i <= j <= |d|
    ensures j < |d| ==> d[j] == '.'
    ensures forall k :: i <= k < j ==> d[k] != '.'
    decreases |d| - i
  {
    if i == |d| || d[i] == '.' then i else DotFrom(d, i + 1)
  }

  /**
   The cache a dataset belongs to, named by its base: the dataset name up to the first dot of its
   last component. Datasets outside `<pool>/cache/<repo>/` all count as one family, "".
   */
  function Family(pool: string, d: string): string {
    var prefix := pool + "/cache/";
    if prefix <= d && '/' in d[|prefix|..] then d[..DotFrom(d, LastComponent(d))] else ""
  }

  lemma {:induction false} LastComponentOf(root: string, c: string)
    requires '/' !in c
    ensures LastComponent(root + "/" + c) == |root| + 1
  {
    var d := root + "/" + c;
    LastSlashIs(d, LastComponent(d), |root|, c);
  }

  lemma LastSlashIs(d: string, i: nat, slash: nat, c: string)
    requires slash < |d| && d[slash] == '/' && d[slash + 1..] == c && '/' !in c
    requires i <= |d| && (i > 0 ==> d[i - 1] == '/')
    requires forall j :: i <= j < |d| ==> d[j] != '/'
    ensures i == slash + 1
  {
  }

  lemma FirstDotOf(root: string, name: string, tail: string)
    requires '/' !in name && '.' !in name
    requires tail == "" || (tail[0] == '.' && '/' !in tail)
    ensures var d := root + "/" + name + tail;
      d[..DotFrom(d, LastComponent(d))] == root + "/" + name
  {
    var d := root + "/" + name + tail;
    var base := root + "/" + name;
    var c := name + tail;
    assert d == root + "/" + c;
    LastComponentOf(root, c);
    forall k | |root| + 1 <= k < |base| ensures d[k] != '.' {
      assert d[k] == name[k - |root| - 1];
    }
    if tail != "" {
      assert d[|base|] == tail[0];
    }
    assert DotFrom(d, |root| + 1) == |base|;
    assert d[..|base|] == base;
  }

  /** `tail` is what the agent appends to a base name: nothing, or `.run-<id>`, or `.old-<id>`. */
  lemma FamilyOfCacheDataset(pool: string, slug: string, name: string, tail: string)
    requires '/' !in slug && ValidCacheName(name)
    requires tail == "" || (tail[0] == '.' && '/' !in tail)
    ensures Family(pool, Base(CacheRoot(pool, slug), name) + tail) == Base(CacheRoot(pool, slug), name)
  {
    var root := CacheRoot(pool, slug);
    var prefix := pool + "/cache/";
    var d := root + "/" + name + tail;
    FirstDotOf(root, name, tail);
    assert d[..|prefix|] == prefix;
    assert d[|prefix| + |slug|] == '/';
    assert d[|prefix|..][|slug|] == '/';
  }

  lemma FamiliesOfRun(pool: string, slug: string, name: string, runId: string)
    requires '/' !in slug && ValidCacheName(name) && '/' !in runId
    ensures var base := Base(CacheRoot(pool, slug), name);
      && base != ""
      && Family(pool, base) == base
      && Family(pool, RunClone(CacheRoot(pool, slug), name, runId)) == base
      && Family(pool, SetAside(base, runId)) == base
  {
    hide Family, ValidCacheName;
    var root := CacheRoot(pool, slug);
    FamilyOfCacheDataset(pool, slug, name, "");
    assert Base(root, name) + "" == Base(root, name);
    FamilyOfCacheDataset(pool, slug, name, ".run-" + runId);
    assert Base(root, name) + (".run-" + runId) == RunClone(root, name, runId);
    FamilyOfCacheDataset(pool, slug, name, ".old-" + runId);
    assert Base(root, name) + (".old-" + runId) == SetAside(Base(root, name), runId);
  }

  /** Repositories, run workspaces and cache roots are not cache datasets. */
  lemma FamilyOfWorkspaceDatasets(pool: string, slug: string, runId: string)
    requires '/' !in slug && '/' !in runId
    ensures Family(pool, RepoDataset(pool, slug)) == ""
    ensures Family(pool, RunDataset(pool, runId)) == ""
    ensures Family(pool, CacheRoot(pool, slug)) == ""
  {
  }

  // ---- Names never collide ----

  lemma SlashDecides(a: string, x: string, b: string, y: string)
    requires '/' !in x && '/' !in y
    requires a + "/" + x == b + "/" + y
    ensures a == b && x == y
  {
    LastComponentOf(a, x);
    LastComponentOf(b, y);
    assert a == (a + "/" + x)[..|a|] && b == (b + "/" + y)[..|b|];
    assert x == (a + "/" + x)[|a| + 1..] && y == (b + "/" + y)[|b| + 1..];
  }

  /** The three kinds of dataset name the cache protocol forms. */
  datatype Role = BaseOf | CloneOf(runId: string) | OldOf(runId: string)

  function TailOf(role: Role): string {
    match role
    case BaseOf => ""
    case CloneOf(id) => ".run-" + id
    case OldOf(id) => ".old-" + id
  }

  /** The name of the dataset that plays `role` for cache `name` of repository `slug`. */
  function DatasetName(pool: string, slug: string, name: string, role: Role): string {
    Base(CacheRoot(pool, slug), name) + TailOf(role)
  }

  predicate RunIdOk(role: Role) {
    role == BaseOf || '/' !in role.runId
  }

  /** Repository, cache, role and run id can all be read back from a dataset name. */
  lemma DatasetNamesDistinct(pool: string, slug: string, name: string, role: Role,
                             slug': string, name': string, role': Role)
    requires '/' !in slug && '/' !in slug' && ValidCacheName(name) && ValidCacheName(name')
    requires RunIdOk(role) && RunIdOk(role')
    requires DatasetName(pool, slug, name, role) == DatasetName(pool, slug', name', role')
    ensures slug == slug' && name == name' && role == role'
  {
    var tail, tail' := TailOf(role), TailOf(role');
    var root, root' := CacheRoot(pool, slug), CacheRoot(pool, slug');
    FamilyOfCacheDataset(pool, slug, name, tail);
    FamilyOfCacheDataset(pool, slug', name', tail');
    SlashDecides(root, name, root', name');
    SamePrefix(pool + "/cache/", slug, slug');
    SamePrefix(Base(root, name), tail, tail');
    TailsDistinct(role, role');
  }

  lemma SamePrefix(p: string, x: string, y: string)
    requires p + x == p + y
    ensures x == y
  {
    assert x == (p + x)[|p|..] && y == (p + y)[|p|..];
  }

  lemma TailsDistinct(role: Role, role': Role)
    requires TailOf(role) == TailOf(role')
    ensures role == role'
  {
    var t := TailOf(role);
    if role != BaseOf {
      assert t[1] == if role.CloneOf? then 'r' else 'o';
      assert t[5..] == role.runId;
    }
    if role' != BaseOf {
      assert t[1] == if role'.CloneOf? then 'r' else 'o';
      assert t[5..] == role'.runId;
    }
  }

  /** `child` is a dataset somewhere below `parent`. */
  predicate Below(child: string, parent: string) {
    parent + "/" <= child
  }

  /** Past the pool and "/cache/", the name of a cache dataset has one slash; what lies below it has two. */
  lemma TwoSlashes(p: string, slug: string, x: string, child: string)
    requires (p + slug) + "/" + x + "/" <= child
    ensures var n, m := |p + slug|, |p + slug| + 1 + |x|; |p| <= n < m < |child| && child[n] == child[m] == '/'
  {
    var c := (p + slug) + "/" + x + "/";
    assert c[|p + slug|] == '/' && c[|p + slug| + 1 + |x|] == '/';
  }

  /** No cache dataset lies below another one, so `destroy -r` and `rename` meet no children. */
  lemma CacheDatasetsDoNotNest(pool: string, slug: string, name: string, role: Role,
                               slug': string, name': string, role': Role)
    requires '/' !in slug && '/' !in slug' && ValidCacheName(name) && ValidCacheName(name')
    requires RunIdOk(role) && RunIdOk(role')
    ensures !Below(DatasetName(pool, slug', name', role'), DatasetName(pool, slug, name, role))
  {
    var root, child, tail := CacheRoot(pool, slug), DatasetName(pool, slug', name', role'), TailOf(role);
    OneSlash(pool, slug', child, name' + TailOf(role'));
    assert root + "/" + (name + tail) == DatasetName(pool, slug, name, role);
    if Below(child, root + "/" + (name + tail)) {
      TwoSlashes(pool + "/cache/", slug, name + tail, child);
    }
  }

  lemma OneSlash(pool: string, slug: string, d: string, c: string)
    requires '/' !in slug && '/' !in c && d == CacheRoot(pool, slug) + "/" + c
    ensures forall i :: |pool| + 7 <= i < |d| && d[i] == '/' ==> i == |CacheRoot(pool, slug)|
  {
  }

  // ---- Repository slugs ----

  /** Characters that become an underscore, or are one. */
  predicate Folds(c: char) {
    c == '_' || !(IsNameChar(c) || c == '.')
  }

  /** Repositories share a slug, and with it a dataset and all caches, exactly when they differ in such places only. */
  lemma SlugsCollideExactly(r: string, r': string)
    ensures Sanitize(r) == Sanitize(r') <==>
      |r| == |r'| && forall i :: 0 <= i < |r| ==> r[i] == r'[i] || (Folds(r[i]) && Folds(r'[i]))
  {
  }

  /** Such as `a/b_c` and `a_b/c`. */
  lemma SlugsCanCollide(a: string, b: string, c: string)
    ensures Sanitize(a + "/" + b + "_" + c) == Sanitize(a + "_" + b + "/" + c)
    ensures a + "/" + b + "_" + c != a + "_" + b + "/" + c
  {
    var r, r' := a + "/" + b + "_" + c, a + "_" + b + "/" + c;
    SlugsCollideExactly(r, r');
    assert r[|a|] == '/' && r'[|a|] == '_';
  }

  predicate HubOwner(owner: string) {
    forall i :: 0 <= i < |owner| ==> IsNameChar(owner[i]) && owner[i] != '_'
  }

  predicate HubName(name: string) {
    forall i :: 0 <= i < |name| ==> IsNameChar(name[i]) || name[i] == '.'
  }

  /** Slugs are unique for `owner/name` repositories whose owner has no underscore. */
  lemma SlugsUnique(owner: string, name: string, owner': string, name': string)
    requires HubOwner(owner) && HubOwner(owner') && HubName(name) && HubName(name')
    requires Sanitize(owner + "/" + name) == Sanitize(owner' + "/" + name')
    ensures owner == owner' && name == name'
  {
    var r, r' := owner + "/" + name, owner' + "/" + name';
    var s := Sanitize(r);
    assert s[|owner|] == '_' && s[|owner'|] == '_';
    assert forall i :: 0 <= i < |owner| ==> s[i] == owner[i];
    assert forall i :: 0 <= i < |owner'| ==> s[i] == owner'[i];
    forall i | 0 <= i < |r| ensures r[i] == r'[i] {
      if i < |owner| {
        assert s[i] == owner[i] == owner'[i];
      } else if i > |owner| {
        assert s[i] == name[i - |owner| - 1] == name'[i - |owner| - 1];
      }
    }
    assert r == r';
    SlashSplits(owner, name, owner', name');
  }

  lemma SlashSplits(a: string, x: string, b: string, y: string)
    requires |a| == |b| && a + "/" + x == b + "/" + y
    ensures a == b && x == y
  {
    assert a == (a + "/" + x)[..|a|] && b == (b + "/" + y)[..|b|];
    assert x == (a + "/" + x)[|a| + 1..] && y == (b + "/" + y)[|b| + 1..];
  }

  // ---- Workspace datasets ----

  /** Repositories and runs have datasets of their own, unless a slug looks like a run. */
  lemma WorkspaceNamesDistinct(pool: string, a: string, b: string)
    ensures RepoDataset(pool, a) == RepoDataset(pool, b) <==> a == b
    ensures RunDataset(pool, a) == RunDataset(pool, b) <==> a == b
    ensures RepoDataset(pool, a) == RunDataset(pool, b) <==> a == "run-" + b
  {
    var top, run := pool + "/", pool + "/run-";
    assert run == top + "run-" && RunDataset(pool, b) == top + ("run-" + b);
    SameTail(top, a, b);
    SameTail(run, a, b);
    SameTail(top, a, "run-" + b);
  }

  lemma SameTail(p: string, x: string, y: string)
    ensures p + x == p + y <==> x == y
  {
    assert x == (p + x)[|p|..] && y == (p + y)[|p|..];
  }

  /** They lie right below the pool, so neither below one another nor among the caches. */
  lemma WorkspaceNamesAreTops(pool: string, slug: string, runId: string)
    requires '/' !in slug && '/' !in runId
    ensures LastComponent(RepoDataset(pool, slug)) == LastComponent(RunDataset(pool, runId)) == |pool| + 1
  {
    LastComponentOf(pool, slug);
    var run := "run-" + runId;
    LastComponentOf(pool, run);
    assert RunDataset(pool, runId) == pool + "/" + run;
  }

  /** ASCII letters and digits, low line and hyphen, by code point. */
  predicate NameCode(n: int) {
    0x30 <= n <= 0x39 || 0x41 <= n <= 0x5A || 0x61 <= n <= 0x7A || n == 0x5F || n == 0x2D
  }

  /** Cache names match `[A-Za-z0-9_-]+`. */
  lemma ValidNamesExactly(name: string)
    ensures ValidCacheName(name) <==> name != "" && forall c :: c in name ==> NameCode(c as int)
  {
    if ValidCacheName(name) {
      forall c | c in name ensures NameCode(c as int) {
        var i :| 0 <= i < |name| && name[i] == c;
      }
    }
    if forall c :: c in name ==> NameCode(c as int) {
      forall i | 0 <= i < |name| ensures IsNameChar(name[i]) {
        assert name[i] in name;
      }
    }
  }

  /** No cache dataset lies in a checkout: only a repository whose slug is `cache` could have caches below it. */
  lemma CachesAreNotCheckedOut(pool: string, slug: string, name: string, role: Role, repo: string, runId: string)
    requires '/' !in slug && '/' !in repo && '/' !in runId
    ensures Below(DatasetName(pool, slug, name, role), RepoDataset(pool, repo)) ==> repo == "cache"
    ensures !Below(DatasetName(pool, slug, name, role), RunDataset(pool, runId))
  {
    var d, rest := DatasetName(pool, slug, name, role), slug + "/" + name + TailOf(role);
    var run := "run-" + runId;
    assert d == pool + "/" + "cache" + "/" + rest;
    assert RunDataset(pool, runId) == pool + "/" + run && run[0] == 'r';
    if Below(d, pool + "/" + repo) {
      SecondPiece(pool, "cache", rest, repo, d);
    }
    if Below(d, pool + "/" + run) {
      SecondPiece(pool, "cache", rest, run, d);
    }
  }

  lemma SecondPiece(pool: string, x: string, rest: string, y: string, d: string)
    requires '/' !in x && '/' !in y && d == pool + "/" + x + "/" + rest && Below(d, pool + "/" + y)
    ensures x == y
  {
    var n := |pool| + 1;
    assert d[n + |x|] == '/' && d[n + |y|] == '/';
    assert forall i :: 0 <= i < |x| ==> d[n + i] == x[i];
    assert forall i :: 0 <= i < |y| ==> d[n + i] == y[i];
    assert x == d[n..n + |x|] && y == d[n..n + |y|];
  }
}
