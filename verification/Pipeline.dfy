/** The pipeline file and its validation. */
module Pipeline {
  import opened Outcomes
  import opened CachePath
  import opened PathWalks
  import opened CacheNames
  import opened StepGraph
  import opened Masking

  datatype SecretsConfig = SecretsConfig(provider: string, project: string, configurations: map<string, string>)

  datatype Only = Only(branch: Option<string>)

  datatype Step = Step(name: string, run: Option<string>, exec: Option<string>, needs: seq<string>,
                       only: Option<Only>, env: seq<(string, Bytes)>, secrets: Option<string>,
                       artifacts: seq<string>)

  /** Steps and caches keep their order in the file; their names are keys. */
  datatype PipelineFile = PipelineFile(version: nat, env: seq<(string, Bytes)>, secrets: Option<SecretsConfig>,
                                       cache: seq<Cache>, steps: seq<Step>)

  ghost predicate Keyed(pf: PipelineFile) {
    && (forall i, j :: 0 <= i < j < |pf.steps| ==> pf.steps[i].name != pf.steps[j].name)
    && (forall i, j :: 0 <= i < j < |pf.cache| ==> pf.cache[i].name != pf.cache[j].name)
  }

  datatype PipelineError =
    | UnsupportedVersion(version: nat)
    | UnknownDependency(step: string, dep: string)
    | CycleDetected(step: string)
    | InvalidRunPath(step: string, path: string)
    | InvalidArtifactPath(step: string, path: string)
    | MissingAction(step: string)
    | AmbiguousAction(step: string)
    | UnsupportedSecretsProvider(provider: string)
    | EmptySecretsProject
    | SecretsWithoutProvider(step: string)
    | InvalidCacheName(name: string)
    | InvalidCachePath(name: string, path: string)
    | DuplicateCachePath(name: string)

  // ---- What a valid file is ----

  predicate Contains(s: string, part: string) {
    exists i :: 0 <= i <= |s| && part <= s[i..]
  }

  /** The check of run and artifact paths: absolute, or with a parent in it, as far as the text shows. */
  predicate RefusedPath(path: string) {
    "/" <= path || Contains(path, "../")
  }

  ghost predicate ValidSecrets(pf: PipelineFile) {
    pf.secrets.Some? ==> pf.secrets.value.provider == "cfgy" && Trim(pf.secrets.value.project) != ""
  }

  predicate ValidCache(c: Cache) {
    ValidCacheName(c.name) && !BadPath(Normalize(c.path))
  }

  ghost predicate ValidCaches(caches: seq<Cache>) {
    && (forall i :: 0 <= i < |caches| ==> ValidCache(caches[i]))
    && Distinct(Norms(caches))
  }

  function Norms(caches: seq<Cache>): (r: seq<string>)
    ensures |r| == |caches| && forall i :: 0 <= i < |r| ==> r[i] == Normalize(caches[i].path)
  {
    seq(|caches|, i requires 0 <= i < |caches| => Normalize(caches[i].path))
  }

  ghost predicate Distinct(paths: seq<string>) {
    forall i, j :: 0 <= i < j < |paths| ==> paths[i] != paths[j]
  }

  ghost predicate IsStep(pf: PipelineFile, name: string) {
    exists i :: 0 <= i < |pf.steps| && pf.steps[i].name == name
  }

  ghost predicate ValidStep(pf: PipelineFile, step: Step) {
    && (step.run.Some? <==> step.exec.None?)
    && (step.run.Some? ==> !RefusedPath(step.run.value))
    && (forall a :: a in step.artifacts ==> !RefusedPath(a))
    && (step.secrets.Some? ==> pf.secrets.Some?)
    && (forall dep :: dep in step.needs ==> IsStep(pf, dep))
  }

  ghost predicate ValidSteps(pf: PipelineFile, n: nat)
    requires n <= |pf.steps|
  {
    forall i :: 0 <= i < n ==> ValidStep(pf, pf.steps[i])
  }

  predicate LastOfItsName(steps: seq<Step>, i: nat)
    requires i < |steps|
  {
    forall j :: i < j < |steps| ==> steps[j].name != steps[i].name
  }

  function Needs(pf: PipelineFile): Graph {
    map i | 0 <= i < |pf.steps| && LastOfItsName(pf.steps, i) :: pf.steps[i].name := pf.steps[i].needs
  }

  ghost predicate Valid(pf: PipelineFile) {
    && pf.version == 1 && ValidSecrets(pf) && ValidCaches(pf.cache)
    && ValidSteps(pf, |pf.steps|)
    && forall n :: !OnCycle(Needs(pf), n)
  }

  /** A project is empty for the check exactly if it consists of white space only. */
  lemma ProjectExactly(pf: PipelineFile)
    requires pf.secrets.Some?
    ensures ValidSecrets(pf) <==>
      && pf.secrets.value.provider == "cfgy"
      && exists c :: c in pf.secrets.value.project && c as int !in WHITE_SPACE
    ensures Explains(pf, EmptySecretsProject) ==>
      forall c :: c in pf.secrets.value.project ==> c as int in WHITE_SPACE
  {
    BlankExactly(pf.secrets.value.project);
  }

  // ---- What an error says about the file ----

  ghost predicate FirstBadCache(caches: seq<Cache>, e: PipelineError) {
    exists i :: 0 <= i < |caches| && ValidCaches(caches[..i]) && BadCache(caches, i, e)
  }

  /** `e` is what is wrong with cache `i`, in the order the checks are made. */
  ghost predicate BadCache(caches: seq<Cache>, i: nat, e: PipelineError)
    requires i < |caches|
  {
    var c := caches[i];
    match e
    case InvalidCacheName(name) => name == c.name && !ValidCacheName(c.name)
    case InvalidCachePath(name, path) =>
      name == c.name && path == c.path && ValidCacheName(c.name) && BadPath(Normalize(c.path))
    case DuplicateCachePath(name) =>
      && name == c.name && ValidCache(c)
      && Normalize(c.path) in Norms(caches[..i])
    case _ => false
  }

  ghost predicate FirstBadStep(pf: PipelineFile, e: PipelineError) {
    exists i :: 0 <= i < |pf.steps| && ValidSteps(pf, i) && BadStep(pf, pf.steps[i], e)
  }

  ghost predicate BadStep(pf: PipelineFile, s: Step, e: PipelineError) {
    match e
    case MissingAction(step) => step == s.name && s.run.None? && s.exec.None?
    case AmbiguousAction(step) => step == s.name && s.run.Some? && s.exec.Some?
    case InvalidRunPath(step, path) => step == s.name && s.run == Some(path) && RefusedPath(path)
    case InvalidArtifactPath(step, path) => step == s.name && path in s.artifacts && RefusedPath(path)
    case SecretsWithoutProvider(step) => step == s.name && s.secrets.Some? && pf.secrets.None?
    case UnknownDependency(step, dep) => step == s.name && dep in s.needs && !IsStep(pf, dep)
    case _ => false
  }

  /** The error is true of the file, and everything checked before it was in order. */
  ghost predicate Explains(pf: PipelineFile, e: PipelineError) {
    match e
    case UnsupportedVersion(v) => v == pf.version && v != 1
    case UnsupportedSecretsProvider(p) =>
      pf.version == 1 && pf.secrets.Some? && p == pf.secrets.value.provider && p != "cfgy"
    case EmptySecretsProject =>
      && pf.version == 1 && pf.secrets.Some? && pf.secrets.value.provider == "cfgy"
      && Trim(pf.secrets.value.project) == ""
    case InvalidCacheName(_) => pf.version == 1 && ValidSecrets(pf) && FirstBadCache(pf.cache, e)
    case InvalidCachePath(_, _) => pf.version == 1 && ValidSecrets(pf) && FirstBadCache(pf.cache, e)
    case DuplicateCachePath(_) => pf.version == 1 && ValidSecrets(pf) && FirstBadCache(pf.cache, e)
    case CycleDetected(step) =>
      && pf.version == 1 && ValidSecrets(pf) && ValidCaches(pf.cache) && ValidSteps(pf, |pf.steps|)
      && IsStep(pf, step) && OnCycle(Needs(pf), step)
    case _ => pf.version == 1 && ValidSecrets(pf) && ValidCaches(pf.cache) && FirstBadStep(pf, e)
  }

  // ---- The checks ----

  method ValidateCache(caches: seq<Cache>) returns (r: Result<(), PipelineError>)
    ensures r.Ok? <==> ValidCaches(caches)
    ensures r.Err? ==> FirstBadCache(caches, r.error)
  {
    var seen: set<string> := {};
    for i := 0 to |caches|
      invariant ValidCaches(caches[..i]) && forall p :: p in seen <==> p in Norms(caches[..i])
    {
      r := CheckCache(caches, i);
      if r.Err? {
        return;
      }
      var norm := Normalize(caches[i].path);
      if norm in seen {
        BadCacheRefuses(caches, i, DuplicateCachePath(caches[i].name));
        return Err(DuplicateCachePath(caches[i].name));
      }
      AcceptNext(caches, i);
      seen := seen + {norm};
    }
    assert caches[..|caches|] == caches;
    return Ok(());
  }

  lemma AcceptNext(caches: seq<Cache>, i: nat)
    requires i < |caches| && ValidCaches(caches[..i]) && ValidCache(caches[i])
    requires Normalize(caches[i].path) !in Norms(caches[..i])
    ensures ValidCaches(caches[..i + 1])
    ensures Norms(caches[..i + 1]) == Norms(caches[..i]) + [Normalize(caches[i].path)]
  {
    hide Normalize, ValidCache;
    assert caches[..i + 1] == caches[..i] + [caches[i]];
    assert forall k :: 0 <= k < i ==> Norms(caches[..i + 1])[k] == Norms(caches[..i])[k];
  }

  /** Name and path of one cache. */
  method CheckCache(caches: seq<Cache>, i: nat) returns (r: Result<(), PipelineError>)
    requires i < |caches| && ValidCaches(caches[..i])
    ensures r.Ok? <==> ValidCache(caches[i])
    ensures r.Err? ==> FirstBadCache(caches, r.error) && !ValidCaches(caches)
  {
    var c := caches[i];
    if !ValidCacheName(c.name) {
      BadCacheRefuses(caches, i, InvalidCacheName(c.name));
      return Err(InvalidCacheName(c.name));
    }
    if BadPath(Normalize(c.path)) {
      BadCacheRefuses(caches, i, InvalidCachePath(c.name, c.path));
      return Err(InvalidCachePath(c.name, c.path));
    }
    return Ok(());
  }

  lemma BadCacheRefuses(caches: seq<Cache>, i: nat, e: PipelineError)
    requires i < |caches| && ValidCaches(caches[..i]) && BadCache(caches, i, e)
    ensures !ValidCaches(caches) && FirstBadCache(caches, e)
  {
  }

  method ValidateStep(pf: PipelineFile, names: set<string>, step: Step) returns (r: Result<(), PipelineError>)
    requires forall n :: n in names <==> IsStep(pf, n)
    ensures r.Ok? <==> ValidStep(pf, step)
    ensures r.Err? ==> BadStep(pf, step, r.error)
  {
    if step.run.None? && step.exec.None? {
      return Err(MissingAction(step.name));
    }
    if step.run.Some? && step.exec.Some? {
      return Err(AmbiguousAction(step.name));
    }
    if step.run.Some? && RefusedPath(step.run.value) {
      return Err(InvalidRunPath(step.name, step.run.value));
    }
    for i := 0 to |step.artifacts|
      invariant forall k :: 0 <= k < i ==> !RefusedPath(step.artifacts[k])
    {
      if RefusedPath(step.artifacts[i]) {
        return Err(InvalidArtifactPath(step.name, step.artifacts[i]));
      }
    }
    if step.secrets.Some? && pf.secrets.None? {
      return Err(SecretsWithoutProvider(step.name));
    }
    for i := 0 to |step.needs|
      invariant forall k :: 0 <= k < i ==> step.needs[k] in names
    {
      if step.needs[i] !in names {
        return Err(UnknownDependency(step.name, step.needs[i]));
      }
    }
    return Ok(());
  }

  /**
   Accepts exactly the valid files. On acceptance `order` lists all steps, each after everything it needs;
   on refusal the error is the first thing wrong, and a reported cycle step is a step on a cycle. `keys` is
   the sequence in which the hash map of the graph happens to yield the steps.
   */
  method Validate(pf: PipelineFile, keys: seq<string>) returns (r: Result<(), PipelineError>, ghost order: seq<string>)
    requires Keyed(pf) && forall k :: k in keys <==> k in Needs(pf)
    ensures r.Ok? <==> Valid(pf)
    ensures r.Ok? ==> Topological(Needs(pf), order) && forall i :: 0 <= i < |pf.steps| ==> pf.steps[i].name in order
    ensures r.Err? ==> Explains(pf, r.error)
  {
    hide ValidCaches, ValidStep, BadStep, FirstBadStep, FirstBadCache, Needs, OnCycle, Topological;
    order := [];
    if pf.version != 1 {
      return Err(UnsupportedVersion(pf.version)), order;
    }
    if pf.secrets.Some? {
      if pf.secrets.value.provider != "cfgy" {
        return Err(UnsupportedSecretsProvider(pf.secrets.value.provider)), order;
      }
      if Trim(pf.secrets.value.project) == "" {
        return Err(EmptySecretsProject), order;
      }
    }
    r := ValidateCache(pf.cache);
    if r.Err? {
      CacheErrorExplains(pf, r.error);
      return;
    }
    var names := set i | 0 <= i < |pf.steps| :: pf.steps[i].name;
    for i := 0 to |pf.steps|
      invariant ValidSteps(pf, i)
    {
      r := ValidateStep(pf, names, pf.steps[i]);
      if r.Err? {
        StepErrorExplains(pf, i, r.error);
        return;
      }
    }
    var c;
    c, order := DetectCycle(Needs(pf), keys);
    NeedsOfSteps(pf);
    if c.Err? {
      CycleIsOfSteps(pf, c.error);
      return Err(CycleDetected(c.error)), order;
    }
    r := Ok(());
  }

  lemma CacheErrorExplains(pf: PipelineFile, e: PipelineError)
    requires pf.version == 1 && ValidSecrets(pf)
    ensures FirstBadCache(pf.cache, e) ==> Explains(pf, e)
  {
  }

  lemma StepErrorExplains(pf: PipelineFile, i: nat, e: PipelineError)
    requires pf.version == 1 && ValidSecrets(pf) && ValidCaches(pf.cache)
    requires i < |pf.steps| && ValidSteps(pf, i) && BadStep(pf, pf.steps[i], e)
    ensures Explains(pf, e)
  {
  }

  lemma NeedsOfSteps(pf: PipelineFile)
    requires Keyed(pf)
    ensures forall i :: 0 <= i < |pf.steps| ==>
      pf.steps[i].name in Needs(pf) && Needs(pf)[pf.steps[i].name] == pf.steps[i].needs
    ensures forall n :: n in Needs(pf) ==> IsStep(pf, n)
  {
    forall i | 0 <= i < |pf.steps| ensures LastOfItsName(pf.steps, i) {
    }
    hide LastOfItsName;
    forall n | n in Needs(pf) ensures IsStep(pf, n) {
      var i :| 0 <= i < |pf.steps| && pf.steps[i].name == n;
    }
  }

  /** Only steps have needs, so whatever lies on a cycle is a step. */
  lemma CycleIsOfSteps(pf: PipelineFile, n: string)
    requires Keyed(pf) && OnCycle(Needs(pf), n)
    ensures IsStep(pf, n)
  {
    NeedsOfSteps(pf);
    var p :| IsPath(Needs(pf), p) && |p| >= 2 && p[0] == n && p[|p| - 1] == n;
    assert p[1] in NeedsOf(Needs(pf), p[0]);
  }

  // ---- What acceptance is good for ----

  /**
   Mount targets of an accepted file: no two caches share one, none is the workspace mount, and a cache
   declared relative to the workspace never meets an absolute one.
   */
  lemma AcceptedTargetsDistinct(pf: PipelineFile, i: nat, j: nat)
    requires Valid(pf) && i < |pf.cache| && j < |pf.cache| && i != j
    ensures MountTarget(Normalize(pf.cache[i].path)) != MountTarget(Normalize(pf.cache[j].path))
    ensures MountTarget(Normalize(pf.cache[i].path)) != WORKSPACE
  {
    assert ValidCache(pf.cache[i]) && ValidCache(pf.cache[j]);
    assert Norms(pf.cache)[i] != Norms(pf.cache)[j];
    MountTargetsDistinct(Normalize(pf.cache[i].path), Normalize(pf.cache[j].path));
  }

  function TargetAt(caches: seq<Cache>, i: nat): string
    requires i < |caches|
  {
    MountTarget(Normalize(caches[i].path))
  }

  /**
   What the path checks are for: different directories, none the workspace itself or above it, and those
   declared by absolute paths outside it.
   */
  ghost predicate Separate(caches: seq<Cache>) {
    && (forall i, j :: 0 <= i < j < |caches| ==> Components(TargetAt(caches, i)) != Components(TargetAt(caches, j)))
    && (forall i :: 0 <= i < |caches| ==> !OnTop(TargetAt(caches, i), WORKSPACE))
    && (forall i :: 0 <= i < |caches| && ["workspace"] <= Components(TargetAt(caches, i)) ==>
          !IsAbsolute(Normalize(caches[i].path)))
  }

  /**
   The validator's checks of duplicates, of the root, of the workspace and of what is below it, made on tidied
   mount targets.
   */
  ghost predicate TidiedApart(caches: seq<Cache>) {
    && (forall i, j :: 0 <= i < j < |caches| ==> Tidied(TargetAt(caches, i)) != Tidied(TargetAt(caches, j)))
    && (forall i :: 0 <= i < |caches| ==> Tidied(TargetAt(caches, i)) != "/")
    && (forall i :: 0 <= i < |caches| ==> Tidied(TargetAt(caches, i)) != WORKSPACE)
    && (forall i :: 0 <= i < |caches| && WORKSPACE + "/" <= Tidied(TargetAt(caches, i)) ==>
          !IsAbsolute(Normalize(caches[i].path)))
  }

  /**
   The promise holds of the caches of a file exactly when their mount targets would have passed the checks tidied.
   */
  lemma {:induction false} SeparateExactly(caches: seq<Cache>)
    ensures Separate(caches) <==> TidiedApart(caches)
  {
    hide Components, Tidied, MountTarget, Normalize, OnTop;
    forall i | 0 <= i < |caches|
      ensures ["workspace"] <= Components(TargetAt(caches, i)) <==>
        Tidied(TargetAt(caches, i)) == WORKSPACE || WORKSPACE + "/" <= Tidied(TargetAt(caches, i))
      ensures OnTop(TargetAt(caches, i), WORKSPACE) <==>
        Tidied(TargetAt(caches, i)) == "/" || Tidied(TargetAt(caches, i)) == WORKSPACE
    {
      TidiedInside(TargetAt(caches, i));
      TidiedAbove(TargetAt(caches, i));
    }
    forall i, j | 0 <= i < j < |caches|
      ensures Components(TargetAt(caches, i)) == Components(TargetAt(caches, j)) <==>
        Tidied(TargetAt(caches, i)) == Tidied(TargetAt(caches, j))
    {
      TidiedTells(TargetAt(caches, i), TargetAt(caches, j));
    }
  }

  // ---- Needs, as they stand in the file ----

  /** Each name is a step's that needs the next. */
  ghost predicate Chain(pf: PipelineFile, names: seq<string>) {
    forall k :: 0 <= k < |names| - 1 ==> NeedsIt(pf, names[k], names[k + 1])
  }

  ghost predicate NeedsIt(pf: PipelineFile, name: string, dep: string) {
    exists i :: 0 <= i < |pf.steps| && pf.steps[i].name == name && dep in pf.steps[i].needs
  }

  lemma NeedsAsWritten(pf: PipelineFile, name: string, dep: string)
    requires Keyed(pf)
    ensures NeedsIt(pf, name, dep) <==> dep in NeedsOf(Needs(pf), name)
  {
    NeedsOfSteps(pf);
    hide Needs;
    if dep in NeedsOf(Needs(pf), name) {
      var i :| 0 <= i < |pf.steps| && pf.steps[i].name == name;
    }
  }

  /** A file is free of cycles exactly if no chain of needs written in it comes back to where it began. */
  lemma {:induction false} CyclesAsWritten(pf: PipelineFile)
    requires Keyed(pf)
    ensures (forall n :: !OnCycle(Needs(pf), n)) <==>
      forall names :: Chain(pf, names) && |names| >= 2 ==> names[0] != names[|names| - 1]
  {
    forall names ensures Chain(pf, names) <==> IsPath(Needs(pf), names) {
      forall k | 0 <= k < |names| - 1
        ensures NeedsIt(pf, names[k], names[k + 1]) <==> names[k + 1] in NeedsOf(Needs(pf), names[k])
      {
        NeedsAsWritten(pf, names[k], names[k + 1]);
      }
    }
    hide Chain, IsPath, Needs;
    if names :| Chain(pf, names) && |names| >= 2 && names[0] == names[|names| - 1] {
      assert OnCycle(Needs(pf), names[0]);
    }
  }

  /** The order that comes with acceptance: every step of the file after all that it needs. */
  lemma OrderAsWritten(pf: PipelineFile, order: seq<string>, k: nat, dep: string)
    requires Keyed(pf) && Topological(Needs(pf), order) && k < |order| && NeedsIt(pf, order[k], dep)
    ensures dep in order[..k]
  {
    NeedsAsWritten(pf, order[k], dep);
    hide Needs, NeedsOf;
  }

  // ---- Run and artifact paths ----

  /** A piece that ends like a parent directory. */
  predicate EndsInDots(piece: string) {
    |piece| >= 2 && piece[|piece| - 2] == piece[|piece| - 1] == '.'
  }

  /** What the check looks for: a leading slash, or a piece, other than the last, that ends in two dots. */
  lemma {:induction false} RefusedExactly(path: string)
    ensures RefusedPath(path) <==> IsAbsolute(path) || DotsInside(Split(path))
  {
    DotsBeforeSlash(path);
  }

  lemma {:induction false} DotsBeforeSlash(s: string)
    ensures Contains(s, "../") <==> DotsInside(Split(s))
  {
    if s != "" {
      DotsBeforeSlash(s[1..]);
      ContainsOn(s, "../");
      StartsWithDot(s[1..]);
      var rest := Split(s[1..]);
      if s[0] == '/' {
        DotsLater("", rest);
      } else {
        assert rest == [rest[0]] + rest[1..];
        DotsFirst(s[0], rest[0], rest[1..]);
        assert "../" <= s <==> s[0] == '.' && "./" <= s[1..];
      }
    }
  }

  predicate DotsInside(pieces: seq<string>) {
    exists i :: 0 <= i < |pieces| - 1 && EndsInDots(pieces[i])
  }

  lemma ContainsOn(s: string, part: string)
    requires s != "" && part != ""
    ensures Contains(s, part) <==> part <= s || Contains(s[1..], part)
  {
    if Contains(s, part) {
      var i :| 0 <= i <= |s| && part <= s[i..];
      assert i > 0 ==> s[1..][i - 1..] == s[i..];
      assert s[0..] == s;
    }
    if part <= s {
      assert part <= s[0..];
    }
    if Contains(s[1..], part) {
      var i :| 0 <= i <= |s[1..]| && part <= s[1..][i..];
      assert s[1..][i..] == s[i + 1..];
    }
  }

  lemma {:induction false} StartsWithDot(s: string)
    ensures "./" <= s <==> |Split(s)| > 1 && Split(s)[0] == "."
  {
    JoinSplit(s);
    var dot := ".";
    if "./" <= s {
      assert s == dot + "/" + s[2..];
      SplitAtSlash(dot, s[2..]);
      PlainPiece(dot);
    }
  }

  lemma DotsLater(piece: string, rest: seq<string>)
    requires rest != []
    ensures DotsInside([piece] + rest) <==> EndsInDots(piece) || DotsInside(rest)
  {
    if DotsInside(rest) {
      var i :| 0 <= i < |rest| - 1 && EndsInDots(rest[i]);
      assert ([piece] + rest)[i + 1] == rest[i];
    }
    if EndsInDots(piece) {
      assert ([piece] + rest)[0] == piece;
    }
  }

  lemma DotsFirst(c: char, piece: string, rest: seq<string>)
    ensures DotsInside([[c] + piece] + rest) <==>
      DotsInside([piece] + rest) || (rest != [] && c == '.' && piece == ".")
  {
    if rest != [] {
      DotsLater([c] + piece, rest);
      DotsLater(piece, rest);
      LongerEndsInDots(c, piece);
      hide EndsInDots, DotsInside;
    }
  }

  lemma LongerEndsInDots(c: char, piece: string)
    ensures EndsInDots([c] + piece) <==> EndsInDots(piece) || (c == '.' && piece == ".")
  {
    assert piece == "." <==> |piece| == 1 && piece[0] == '.';
  }

  /**
   So the check agrees with looking for a leading slash and a parent among the pieces unless the only parent is the
   last piece, which passes, or a name that ends in two dots stands before the last piece, which does not.
   */
  lemma {:induction false} PathCheckAgrees(path: string)
    ensures (RefusedPath(path) <==> IsAbsolute(path) || ".." in Split(path)) <==>
      || IsAbsolute(path)
      || (if DotsInside(Split(path)) then ".." in Split(path) else Split(path)[|Split(path)| - 1] != "..")
  {
    RefusedExactly(path);
    var pieces := Split(path);
    hide Split, RefusedPath;
    if i :| 0 <= i < |pieces| - 1 && pieces[i] == ".." {
      assert EndsInDots(pieces[i]);
    }
  }

  lemma {:induction false} WalkFront(pieces: seq<string>)
    requires pieces != []
    ensures var n := |pieces| - 1;
      Walk(pieces) == Walk(pieces[..n]) + if pieces[n] == "" || pieces[n] == "." then [] else [pieces[n]]
  {
    var n := |pieces| - 1;
    WalkConcat(pieces[..n], [pieces[n]]);
    assert pieces == pieces[..n] + [pieces[n]];
    assert [pieces[n]][1..] == [];
  }

  lemma NoneBeforeLast(pieces: seq<string>)
    requires pieces != [] && !DotsInside(pieces)
    ensures ".." !in pieces[..|pieces| - 1]
  {
    assert forall piece :: piece == ".." ==> EndsInDots(piece);
  }

  /** No parent but perhaps the last. */
  lemma {:induction false} AcceptedParents(path: string)
    requires !RefusedPath(path)
    ensures !IsAbsolute(path)
    ensures var names, pieces := Components(path), Split(path);
      if pieces[|pieces| - 1] == ".."
      then names != [] && names[|names| - 1] == ".." && ".." !in names[..|names| - 1]
      else ".." !in names
  {
    RefusedExactly(path);
    var pieces := Split(path);
    var n := |pieces| - 1;
    WalkFront(pieces);
    ParentsAreWalked(pieces[..n]);
    hide Split, Walk, RefusedPath;
    NoneBeforeLast(pieces);
    var front := Walk(pieces[..n]);
    assert (front + [".."])[..|front + [".."]| - 1] == front;
  }

  /**
   What acceptance is good for: the path is relative, and whatever directory it is joined to, following it, parents
   going up, never leaves that directory, unless it is nothing but a parent.
   */
  lemma {:induction false} AcceptedStays(dir: seq<string>, path: string)
    requires !RefusedPath(path) && dir != []
    ensures !IsAbsolute(path) && (StaysIn(dir, path) <==> Components(path) != [".."])
    ensures Split(path)[|Split(path)| - 1] != ".." ==>
      StaysIn(dir, path) && Follow(dir, Components(path)) == dir + Components(path)
  {
    AcceptedParents(path);
    hide Split, RefusedPath, StaysIn, Follow;
    if ".." !in Components(path) {
      NoParentsStays(dir, path);
    } else {
      ParentLastStays(dir, path);
    }
    hide Components;
  }

  /** So in a valid file for every script and every artifact. */
  lemma {:induction false} ValidPathsStay(pf: PipelineFile, i: nat, dir: seq<string>, path: string)
    requires Valid(pf) && i < |pf.steps| && dir != []
    requires pf.steps[i].run == Some(path) || path in pf.steps[i].artifacts
    ensures !IsAbsolute(path) && (StaysIn(dir, path) <==> Components(path) != [".."])
  {
    hide OnCycle, ValidCaches, ValidSecrets, Components, StaysIn, RefusedPath, IsStep;
    assert ValidStep(pf, pf.steps[i]);
    AcceptedStays(dir, path);
  }
}
