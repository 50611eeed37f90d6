/**
 The agent at work: the loops of a run, posting message by message, proved to post the run's report,
 and the run as a whole, which composes that report with the cache protocol: it prepares a workspace,
 attaches caches, takes the steps, and finishes the workspace. The agent may die at any command and at
 any post; then the server hears no more of the run.
 */
module AgentRun {
  import opened Outcomes
  import opened Masking
  import opened Model
  import opened Pipeline
  import opened Secrets
  import opened LogChannel
  import opened Zfs
  import opened CachePath
  import opened CacheProtocol
  import opened Families
  import opened CacheFrames
  import opened CacheShape
  import opened CacheCommit
  import opened CacheMounts
  import opened Agent
  import opened AgentDeath

  /** What has been sent, how many more posts the agent lives to make, and whether it lives. */
  datatype Line = Line(sent: seq<Message>, life: nat, alive: bool)

  /** The line once the agent has posted `posts`, or died over them. */
  function Said(l: Line, posts: seq<Message>): Line {
    if !l.alive then l
    else if |posts| <= l.life then Line(l.sent + posts, l.life - |posts|, true)
    else Line(l.sent + posts[..l.life], 0, false)
  }

  lemma SaidTwice(l: Line, a: seq<Message>, b: seq<Message>)
    ensures Said(Said(l, a), b) == Said(l, a + b)
  {
    if l.alive && |a| <= l.life {
      assert l.sent + a + b == l.sent + (a + b);
      if |a + b| > l.life {
        assert (a + b)[..l.life] == a + b[..l.life - |a|];
        assert l.sent + a + b[..l.life - |a|] == l.sent + (a + b[..l.life - |a|]);
      }
    } else if l.alive {
      assert (a + b)[..l.life] == a[..l.life];
    }
  }

  lemma SaidThrice(l: Line, a: seq<Message>, b: seq<Message>, c: seq<Message>)
    ensures Said(Said(Said(l, a), b), c) == Said(l, a + b + c)
  {
    hide Said;
    SaidTwice(l, a, b);
    SaidTwice(l, a + b, c);
  }

  lemma SaidNothing(l: Line)
    ensures Said(l, []) == l
  {
    assert l.sent + [] == l.sent;
  }

  /** The connection to the server. Posts are made in order and arrive, as long as the agent lives. */
  class Session {
    const host: Host
    var sent: seq<Message>
    var life: nat

    constructor (host: Host, life: nat)
      ensures this.host == host && sent == [] && this.life == life
    {
      this.host, sent, this.life := host, [], life;
    }

    ghost function Now(): Line
      reads this, host
    {
      Line(sent, life, host.alive)
    }

    method Post(m: Message)
      modifies this, host`alive
      ensures Now() == Said(old(Now()), [m])
    {
      if host.alive {
        if life == 0 {
          host.alive := false;
        } else {
          sent, life := sent + [m], life - 1;
        }
      }
    }
  }

  lemma {:induction false} PreflightStops(provider: Provider, pf: PipelineFile, branch: string, i: nat, n: nat)
    requires i <= n <= |pf.steps| && Preflight(provider, pf, branch, i).failed.Some?
    ensures Preflight(provider, pf, branch, n) == Preflight(provider, pf, branch, i)
  {
    if i < n {
      PreflightStops(provider, pf, branch, i, n - 1);
    }
  }

  method CheckStep(resolver: SecretsResolver, pf: PipelineFile, branch: string, i: nat)
      returns (failed: Option<(nat, Bytes)>)
    requires resolver.Valid() && i < |pf.steps|
    modifies resolver, resolver.masker
    ensures resolver.Valid()
    ensures Checked(resolver.State(), failed) == CheckOne(resolver.provider, pf, branch, i, old(resolver.State()))
  {
    if SkippedByBranch(pf.steps[i], branch) {
      return None;
    }
    var configuration := ConfigurationFor(pf, pf.steps[i], branch);
    if configuration.None? {
      return None;
    }
    var l := resolver.Load(configuration.value);
    return if l.Err? then Some((i, l.error)) else None;
  }

  /** Load every configuration the run will need, up front. */
  method CheckSecrets(resolver: SecretsResolver, pf: PipelineFile, branch: string)
      returns (failed: Option<(nat, Bytes)>)
    requires resolver.Valid() && resolver.State() == FRESH
    modifies resolver, resolver.masker
    ensures resolver.Valid()
    ensures Checked(resolver.State(), failed) == Preflight(resolver.provider, pf, branch, |pf.steps|)
  {
    for i := 0 to |pf.steps|
      invariant resolver.Valid()
      invariant Checked(resolver.State(), None) == Preflight(resolver.provider, pf, branch, i)
    {
      failed := CheckStep(resolver, pf, branch, i);
      if failed.Some? {
        PreflightStops(resolver.provider, pf, branch, i + 1, |pf.steps|);
        return;
      }
    }
    return None;
  }

  /** One batch of the log consumer. */
  method MaskBatch(masker: Masker, batch: seq<Bytes>) returns (masked: seq<Bytes>)
    requires masker.Valid()
    ensures [] !in masker.values && masked == MaskAll(batch, masker.values)
  {
    assert forall v :: v in masker.values ==> |v| >= 4;
    masked := [];
    for k := 0 to |batch|
      invariant |masked| == k && forall i :: 0 <= i < k ==> masked[i] == MaskWith(batch[i], masker.values)
    {
      var line := masker.Mask(batch[k]);
      masked := masked + [line];
    }
  }

  /** The log consumer of one step: each batch masked and posted. */
  method PostOutput(session: Session, masker: Masker, step: string, batches: seq<seq<Bytes>>)
    requires masker.Valid()
    modifies session, session.host`alive
    ensures [] !in masker.values
    ensures session.Now() == Said(old(session.Now()), Outputs(step, batches, masker.values))
  {
    assert forall v :: v in masker.values ==> |v| >= 4;
    ghost var line := session.Now();
    SaidNothing(line);
    for i := 0 to |batches|
      invariant session.Now() == Said(line, Outputs(step, batches[..i], masker.values))
    {
      var batch := MaskBatch(masker, batches[i]);
      session.Post(Output(step, batch));
      OutputsOfNext(step, batches, i, masker.values);
      SaidTwice(line, Outputs(step, batches[..i], masker.values), [Output(step, batch)]);
    }
    assert batches[..|batches|] == batches;
  }

  lemma OutputsOfNext(step: string, batches: seq<seq<Bytes>>, i: nat, values: seq<Bytes>)
    requires i < |batches| && [] !in values
    ensures Outputs(step, batches[..i + 1], values)
         == Outputs(step, batches[..i], values) + [Output(step, MaskAll(batches[i], values))]
  {
  }

  method PostUploads(session: Session, step: string, paths: seq<string>)
    modifies session, session.host`alive
    ensures session.Now() == Said(old(session.Now()), Uploads(step, paths))
  {
    ghost var line := session.Now();
    SaidNothing(line);
    for i := 0 to |paths|
      invariant session.Now() == Said(line, Uploads(step, paths[..i]))
    {
      session.Post(Upload(step, paths[i]));
      SaidTwice(line, Uploads(step, paths[..i]), [Upload(step, paths[i])]);
      assert Uploads(step, paths[..i + 1]) == Uploads(step, paths[..i]) + [Upload(step, paths[i])];
    }
    assert paths[..|paths|] == paths;
  }

  /** What follows the output: the marker, the artifacts of a passed step, the outcome. */
  method PostTail(session: Session, step: string, run: StepRun) returns (stop: Stop)
    modifies session, session.host`alive
    ensures session.Now() == Said(old(session.Now()), StepTail(step, run)) && stop == StopOf(run)
  {
    ghost var line := session.Now();
    match run.end
    case Exited(code, success) =>
      session.Post(Remark(step, Exit(code, success)));
      if success {
        PostUploads(session, step, run.uploads);
      } else {
        SaidNothing(session.Now());
      }
      session.Post(StepIs(step, if success then Passed else Broken));
      stop := if success then Going else Failing;
      SaidThrice(line, [Remark(step, Exit(code, success))], if success then Uploads(step, run.uploads) else [],
                 [StepIs(step, if success then Passed else Broken)]);
    case NotExecuted(e) =>
      session.Post(Remark(step, ExecutorFailed(e)));
      session.Post(StepIs(step, Broken));
      stop := Failing;
      SaidTwice(line, [Remark(step, ExecutorFailed(e))], [StepIs(step, Broken)]);
    case Lost(e) =>
      stop := Breaking(e);
      SaidNothing(line);
  }

  /** One step that is not skipped and has its secrets. */
  method ExecuteStep(session: Session, masker: Masker, step: string, run: StepRun) returns (stop: Stop)
    requires masker.Valid()
    modifies session, session.host`alive
    ensures [] !in masker.values
    ensures session.Now() == Said(old(session.Now()), StepPosts(step, run, masker.values)) && stop == StopOf(run)
  {
    hide Outputs, StepTail, StopOf, Said;
    session.Post(StepIs(step, InProgress));
    PostOutput(session, masker, step, run.batches);
    stop := PostTail(session, step, run);
    SaidThrice(old(session.Now()), [StepIs(step, InProgress)], Outputs(step, run.batches, masker.values),
               StepTail(step, run));
  }

  lemma {:induction false} LoopStops(provider: Provider, pf: PipelineFile, job: Job, runs: seq<StepRun>, s: Resolver,
                                     i: nat, n: nat)
    requires i <= n <= |pf.steps| == |runs| && [] !in s.values && Loop(provider, pf, job, runs, s, i).stop != Going
    ensures Loop(provider, pf, job, runs, s, n) == Loop(provider, pf, job, runs, s, i)
  {
    if i < n {
      LoopStops(provider, pf, job, runs, s, i, n - 1);
    }
  }

  /** `pairs` set in an environment. */
  method SetAll(env: Env, pairs: Pairs) returns (merged: Env)
    ensures merged == Overlay(env, pairs)
  {
    merged := env;
    for i := 0 to |pairs|
      invariant merged == Overlay(env, pairs[..i])
    {
      assert pairs[..i + 1][..i] == pairs[..i];
      merged := merged[pairs[i].0 := pairs[i].1];
    }
    assert pairs[..|pairs|] == pairs;
  }

  /** What the executor is handed for a step. */
  method MakeGiven(pf: PipelineFile, step: Step, secrets: Pairs) returns (given: Given)
    ensures given == GivenTo(pf, step, secrets)
  {
    var env := SetAll(map[], pf.env);
    env := SetAll(env, secrets);
    env := SetAll(env, step.env);
    var script := "";
    if step.run.Some? {
      script := step.run.value;
    } else if step.exec.Some? {
      script := step.exec.value;
    }
    given := Given(step.name, script, step.run.None?, env);
  }

  /**
   One round of the step loop, from the progress `before`; `start` is what was posted before the loop, `given` what
   earlier steps were started with.
   */
  method TakeStep(session: Session, resolver: SecretsResolver, pf: PipelineFile, job: Job, i: nat, run: StepRun,
                  given: seq<Given>, ghost start: Line, ghost before: Progress)
      returns (stop: Stop, all: seq<Given>, ghost after: Progress)
    requires resolver.Valid() && i < |pf.steps| && [] !in before.state.values
    requires before.state == resolver.State() && before.stop == Going && session.Now() == Said(start, before.posts)
    requires given == before.given
    modifies session, session.host`alive, resolver, resolver.masker
    ensures resolver.Valid() && resolver.State() == after.state && stop == after.stop
    ensures session.Now() == Said(start, after.posts) && all == after.given
    ensures after == Advance(resolver.provider, pf, job, before, i, run)
  {
    var step := pf.steps[i];
    SaidTwice(start, before.posts, [StepIs(step.name, Skipped)]);
    SaidTwice(start, before.posts, [StepIs(step.name, InProgress)]);
    hide Said;
    if SkippedByBranch(step, job.branch) {
      session.Post(StepIs(step.name, Skipped));
      return Going, given, before.(posts := before.posts + [StepIs(step.name, Skipped)]);
    }
    var secrets: Pairs := [];
    var configuration := ConfigurationFor(pf, step, job.branch);
    if configuration.Some? {
      var l := resolver.Load(configuration.value);
      if l.Err? {
        session.Post(StepIs(step.name, InProgress));
        return Breaking(l.error), given,
               Progress(resolver.State(), before.posts + [StepIs(step.name, InProgress)], Breaking(l.error), given);
      }
      secrets := l.value;
    }
    var next := MakeGiven(pf, step, secrets);
    all := given + [next];
    stop, after := Proceed(session, resolver, next, run, start, before.(state := resolver.State()));
  }

  /** The step itself, its secrets loaded. */
  method Proceed(session: Session, resolver: SecretsResolver, given: Given, run: StepRun,
                 ghost start: Line, ghost before: Progress)
      returns (stop: Stop, ghost after: Progress)
    requires resolver.Valid() && [] !in before.state.values
    requires before.state == resolver.State() && session.Now() == Said(start, before.posts)
    modifies session, session.host`alive
    ensures resolver.Valid() && resolver.State() == after.state && stop == after.stop
    ensures session.Now() == Said(start, after.posts) && after == Execute(before, given, run)
  {
    ghost var posts := StepPosts(given.step, run, resolver.masker.values);
    stop := ExecuteStep(session, resolver.masker, given.step, run);
    SaidTwice(start, before.posts, posts);
    after := Execute(before, given, run);
  }

  /** All steps in declared order; the first failure ends the loop. */
  method TakeSteps(session: Session, resolver: SecretsResolver, pf: PipelineFile, job: Job, runs: seq<StepRun>)
      returns (stop: Stop, given: seq<Given>, ghost all: Progress)
    requires resolver.Valid() && |runs| == |pf.steps| && [] !in resolver.masker.values
    modifies session, session.host`alive, resolver, resolver.masker
    ensures session.Now() == Said(old(session.Now()), all.posts) && stop == all.stop && given == all.given
    ensures all == Loop(resolver.provider, pf, job, runs, old(resolver.State()), |pf.steps|)
  {
    hide Advance, Said;
    ghost var provider, s, start := resolver.provider, resolver.State(), session.Now();
    SaidNothing(start);
    stop, given, all := Going, [], Progress(s, [], Going, []);
    for i := 0 to |pf.steps|
      invariant resolver.Valid() && resolver.State() == all.state && stop == all.stop == Going
      invariant session.Now() == Said(start, all.posts) && given == all.given
      invariant all == Loop(provider, pf, job, runs, s, i)
    {
      LoopGoes(provider, pf, job, runs, s, i);
      stop, given, all := TakeStep(session, resolver, pf, job, i, runs[i], given, start, all);
      if stop != Going {
        LoopStops(provider, pf, job, runs, s, i + 1, |pf.steps|);
        return;
      }
    }
  }

  lemma LoopGoes(provider: Provider, pf: PipelineFile, job: Job, runs: seq<StepRun>, s: Resolver, i: nat)
    requires i < |pf.steps| == |runs| && [] !in s.values && Loop(provider, pf, job, runs, s, i).stop == Going
    ensures Loop(provider, pf, job, runs, s, i + 1)
         == Advance(provider, pf, job, Loop(provider, pf, job, runs, s, i), i, runs[i])
  {
  }

  method PostVerdict(session: Session, job: Job, success: bool)
    modifies session, session.host`alive
    ensures session.Now() == Said(old(session.Now()), Verdict(job, success))
  {
    SaidTwice(session.Now(), [RunIs(if success then Succeeded else Failed)], [CommitIs(success)]);
    session.Post(RunIs(if success then Succeeded else Failed));
    if job.hasToken {
      session.Post(CommitIs(success));
    }
  }

  /** Preflight and steps of an accepted pipeline. `ran` says whether any step could write anywhere. */
  method DoSteps(session: Session, resolver: SecretsResolver, pf: PipelineFile, job: Job, runs: seq<StepRun>)
      returns (r: Result<bool, Bytes>, ran: bool, given: seq<Given>)
    requires resolver.Valid() && resolver.State() == FRESH && |runs| == |pf.steps|
    modifies session, session.host`alive, resolver, resolver.masker
    ensures var report := RunSteps(resolver.provider, pf, job, runs);
      session.Now() == Said(old(session.Now()), report.posts) && r == report.result
    ensures given == StepsGiven(resolver.provider, pf, job, runs)
    ensures r == Ok(true) ==> ran
  {
    var failed := CheckSecrets(resolver, pf, job.branch);
    if failed.Some? {
      PostNoSecrets(session, pf.steps[failed.value.0].name, failed.value.1);
      PostVerdict(session, job, false);
      SaidTwice(old(session.Now()), NoSecretsPosts(pf.steps[failed.value.0].name, failed.value.1),
                Verdict(job, false));
      return Ok(false), false, [];
    }
    r, given := StepsAndVerdict(session, resolver, pf, job, runs);
    ran := true;
  }

  /** The step loop and what is made of its outcome. */
  method StepsAndVerdict(session: Session, resolver: SecretsResolver, pf: PipelineFile, job: Job, runs: seq<StepRun>)
      returns (r: Result<bool, Bytes>, given: seq<Given>)
    requires resolver.Valid() && |runs| == |pf.steps| && [] !in resolver.masker.values
    modifies session, session.host`alive, resolver, resolver.masker
    ensures var all := Loop(resolver.provider, pf, job, runs, old(resolver.State()), |pf.steps|);
      var report := LoopReport(job, all);
      session.Now() == Said(old(session.Now()), report.posts) && r == report.result && given == all.given
  {
    hide Said;
    var stop;
    ghost var all;
    stop, given, all := TakeSteps(session, resolver, pf, job, runs);
    if stop.Breaking? {
      return Err(stop.error), given;
    }
    PostVerdict(session, job, stop == Going);
    SaidTwice(old(session.Now()), all.posts, Verdict(job, stop == Going));
    return Ok(stop == Going), given;
  }

  method PostNoSecrets(session: Session, step: string, e: Bytes)
    modifies session, session.host`alive
    ensures session.Now() == Said(old(session.Now()), NoSecretsPosts(step, e))
  {
    SaidThrice(session.Now(), [StepIs(step, InProgress)], [Remark(step, NoSecrets(e))], [StepIs(step, Broken)]);
    session.Post(StepIs(step, InProgress));
    session.Post(Remark(step, NoSecrets(e)));
    session.Post(StepIs(step, Broken));
  }

  // ---- The whole run ----

  /** What a run meets: its pipeline file, the provider's answers, its job, and what its steps do. */
  datatype RunInput = RunInput(parsed: Result<PipelineFile, Bytes>, provider: Provider, job: Job,
                               runs: seq<StepRun>, work: (string, Files) -> Files)
  {
    predicate Valid() {
      parsed.Ok? ==> |runs| == |parsed.value.steps|
    }
  }

  function Untouched(ds: string, files: Files): Files { files }

  lemma UntouchedIsNothing(s: Store, touched: set<string>)
    ensures Worked(s, touched, Untouched) == s
  {
  }

  /** Which caches were restored; reported when all are attached. */
  function Restored(caches: seq<CacheClone>): (r: seq<bool>)
    ensures |r| == |caches|
  {
    seq(|caches|, i requires 0 <= i < |caches| => caches[i].restored)
  }

  const ATTACH_ERROR: Bytes := []

  /** How attaching went, for the report. */
  function AttachResult(a: Attached): Result<seq<bool>, Bytes> {
    if a.ok then Ok(Restored(a.caches)) else Err(ATTACH_ERROR)
  }

  /** On a pool nobody disturbs, what is reported of a cache is whether it had an `@latest`. */
  lemma {:induction false} ReportTells(f: string -> string, s: Store, u: Setup, caches: seq<Cache>, told: seq<bool>,
                                       i: nat)
    requires Local(f, s) && Declared(f, u, caches) && AttachResult(AttachAll(Calm(s), u, caches)) == Ok(told)
    requires i < |told| <= |caches| && Shape(Sub(f, s, CacheNames.Base(u.Root(), caches[i].name)))
    requires FreshFor(Sub(f, s, CacheNames.Base(u.Root(), caches[i].name)), u, caches[i])
    ensures var base := CacheNames.Base(u.Root(), caches[i].name);
      told[i] <==> HasLatest(Sub(f, s, base), base)
  {
    hide AttachAll, Local, Declared, FreshFor, HasLatest, Sub;
    AllRestoredTells(f, s, u, caches, i);
  }

  /** Provision the declared caches, if any, and report their state. */
  method AttachDeclared(session: Session, ws: Workspace, cache: seq<Cache>) returns (ok: bool, ghost a: Attached)
    requires ws.caches == [] && session.host == ws.host
    modifies session, ws`caches, ws.host
    ensures a == AttachAll(old(ws.host.Now()), ws.setup, cache)
    ensures ws.caches == a.caches && ok == a.ok && ws.host.store == a.world.store && ws.host.fates == a.world.fates
    ensures session.Now() == Said(old(session.Now()).(alive := a.world.alive), CachePosts(cache, a))
  {
    a := AttachAll(ws.host.Now(), ws.setup, cache);
    SaidNothing(session.Now().(alive := a.world.alive));
    if cache == [] {
      return true, a;
    }
    ok := ws.AttachCaches(cache);
    if ok {
      session.Post(Remark("agent", CacheStates(Restored(ws.caches))));
    }
  }

  /** What is posted about the caches, once all are attached. */
  function CachePosts(cache: seq<Cache>, a: Attached): seq<Message> {
    if cache != [] && a.ok then [Remark("agent", CacheStates(Restored(a.caches)))] else []
  }

  /** Attaching is only completed by an agent that lives. */
  lemma {:induction false} AttachedAlive(w: World, u: Setup, caches: seq<Cache>)
    requires w.alive
    ensures AttachAll(w, u, caches).ok ==> AttachAll(w, u, caches).world.alive
  {
    if caches != [] {
      var root := Issue(w, CreateParents(u.Root()));
      if root.ok {
        IssuedAlive(w, CreateParents(u.Root()));
        AttachedEachAlive(root.world, u, caches);
      }
    }
  }

  lemma {:induction false} AttachedEachAlive(w: World, u: Setup, caches: seq<Cache>)
    requires w.alive
    ensures AttachEach(w, u, caches).ok ==> AttachEach(w, u, caches).world.alive
  {
    if caches != [] {
      AttachedEachAlive(w, u, caches[..|caches| - 1]);
      var done := AttachEach(w, u, caches[..|caches| - 1]);
      if done.ok {
        SettledAlive(done.world, u, caches[|caches| - 1]);
      }
    }
  }

  lemma SettledAlive(w: World, u: Setup, c: Cache)
    ensures AttachOne(w, u, c).ok ==> AttachOne(w, u, c).world.alive
  {
    var listed := Issue(w, ListSnap(Latest(CacheNames.Base(u.Root(), c.name))));
    var made := Issue(listed.world, Provision(u, c, listed.ok));
    IssuedAlive(listed.world, Provision(u, c, listed.ok));
    if made.ok {
      RanAlive(made.world, Settle(CloneFor(u, c, listed.ok)));
    }
  }

  lemma IssuedAlive(w: World, c: Command)
    ensures Issue(w, c).ok ==> Issue(w, c).world.alive
  {
  }

  lemma {:induction false} RanAlive(w: World, cs: seq<Command>)
    requires w.alive
    ensures RunAll(w, cs).ok ==> RunAll(w, cs).world.alive
    decreases |cs|
  {
    if cs != [] && Issue(w, cs[0]).ok {
      IssuedAlive(w, cs[0]);
      RanAlive(Issue(w, cs[0]).world, cs[1..]);
    }
  }

  /** The pool once the steps have written what they write, if they ran. */
  function AfterWriting(s: Store, caches: seq<CacheClone>, u: Setup, input: RunInput, ran: bool): Store {
    if ran then Worked(s, Clones(caches) + {u.RunDs()}, input.work) else s
  }

  /** Preflight and steps, and what they write; steps are not started by the dead. */
  method DoWork(session: Session, ws: Workspace, pf: PipelineFile, input: RunInput)
      returns (r: Result<bool, Bytes>, ghost ran: bool)
    requires |input.runs| == |pf.steps| && session.host == ws.host
    modifies session, ws.host
    ensures var report := RunSteps(input.provider, pf, input.job, input.runs);
      session.Now() == Said(old(session.Now()), report.posts) && r == report.result
    ensures ws.host.store == AfterWriting(old(ws.host.store), ws.caches, ws.setup, input, ran)
    ensures ws.host.fates == old(ws.host.fates)
    ensures (ran ==> old(ws.host.alive)) && (r == Ok(true) && old(ws.host.alive) ==> ran)
  {
    var resolver := new SecretsResolver(input.provider);
    var started, wrote := ws.host.alive, false;
    var given;
    r, wrote, given := DoSteps(session, resolver, pf, input.job, input.runs);
    ran := wrote && started;
    if wrote && started {
      ws.host.Write(Clones(ws.caches) + {ws.setup.RunDs()}, input.work);
    }
  }

  function DeclaredCaches(input: RunInput): seq<Cache> {
    if input.parsed.Ok? then input.parsed.value.cache else []
  }

  /** The report of preflight and steps, if the file can be read at all. */
  function StepsReport(input: RunInput): Report
    requires input.Valid()
  {
    if input.parsed.Ok? then RunSteps(input.provider, input.parsed.value, input.job, input.runs)
    else Report([], Err([]))
  }

  /** Pipeline file, caches, preflight and steps, in the workspace `ws`. */
  method DoExecute(session: Session, ws: Workspace, input: RunInput, ghost steps: Report)
      returns (r: Result<bool, Bytes>, ghost a: Attached, ghost ran: bool)
    requires input.Valid() && ws.caches == [] && steps == StepsReport(input) && session.host == ws.host
    modifies session, ws`caches, ws.host
    ensures a == AttachAll(old(ws.host.Now()), ws.setup, DeclaredCaches(input)) && ws.caches == a.caches
    ensures var report := RunPipeline(input.parsed, AttachResult(a), steps);
      session.Now() == Said(old(session.Now()).(alive := a.world.alive), report.posts) && r == report.result
    ensures ws.host.store == AfterWriting(a.world.store, a.caches, ws.setup, input, ran)
    ensures ws.host.fates == a.world.fates
    ensures (ran ==> a.ok && a.world.alive) && (r == Ok(true) ==> a.ok)
    ensures r == Ok(true) && session.host.alive ==> ran
  {
    hide AttachAll;
    ghost var line := session.Now();
    SaidNothing(line);
    if input.parsed.Err? {
      NoCaches(ws.host.Now(), ws.setup);
      return Err(input.parsed.error), AttachAll(ws.host.Now(), ws.setup, []), false;
    }
    var ok;
    ok, a := AttachDeclared(session, ws, input.parsed.value.cache);
    ghost var after := line.(alive := a.world.alive);
    SaidNothing(after);
    if !ok {
      NoCaches(old(ws.host.Now()), ws.setup);
      return Err(ATTACH_ERROR), a, false;
    }
    SaidByTheLiving(after, CachePosts(input.parsed.value.cache, a));
    r, ran := DoWork(session, ws, input.parsed.value, input);
    SaidTwice(after, CachePosts(input.parsed.value.cache, a), steps.posts);
    SaidByTheLiving(after, CachePosts(input.parsed.value.cache, a) + steps.posts);
    SaidByTheLiving(Said(after, CachePosts(input.parsed.value.cache, a)), steps.posts);
    AssembledPipeline(input.parsed.value, a, steps);
  }

  lemma NoCaches(w: World, u: Setup)
    ensures AttachAll(w, u, []) == Attached(w, [], true)
  {
  }

  lemma SaidByTheLiving(l: Line, posts: seq<Message>)
    ensures Said(l, posts).alive <==> l.alive && |posts| <= l.life
  {
  }

  lemma AssembledPipeline(pf: PipelineFile, a: Attached, steps: Report)
    requires a.ok
    ensures CachePosts(pf.cache, a) + steps.posts == RunPipeline(Ok(pf), AttachResult(a), steps).posts
    ensures steps.result == RunPipeline(Ok(pf), AttachResult(a), steps).result
  {
  }

  /** The run's workspace is there: run, report an error if there was one, finish. */
  method RunPrepared(session: Session, host: Host, u: Setup, input: RunInput, ghost steps: Report)
      returns (r: Result<bool, Bytes>, ghost a: Attached, ghost ran: bool)
    requires input.Valid() && steps == StepsReport(input) && session.host == host && host.alive
    modifies session, host
    ensures a == AttachAll(Alive(old(host.Now()), old(session.life) > 0), u, DeclaredCaches(input))
    ensures var report := RunReport(Ok(()), RunPipeline(input.parsed, AttachResult(a), steps));
      var lives := a.world.alive && |report.posts| <= old(session.life);
      && r == report.result
      && session.sent == old(session.sent) + Heard(a, old(session.life), report)
      && host.store == FinishRun(World(AfterWriting(a.world.store, a.caches, u, input, ran), a.world.fates, lives),
                                 u, a.caches, r == Ok(true)).store
      && (r == Ok(true) && lives ==> ran)
    ensures (ran ==> a.ok && a.world.alive) && (r == Ok(true) ==> a.ok)
  {
    hide AttachAll, FinishRun, RunPipeline, AfterWriting;
    ghost var line := session.Now();
    session.Post(Remark("agent", Prepared));
    var ws := new Workspace(host, u);
    r, a, ran := DoExecute(session, ws, input, steps);
    if a.world.alive {
      AllByTheLiving(Alive(old(host.Now()), old(session.life) > 0), u, DeclaredCaches(input));
    }
    PostError(session, r);
    PreparedHeard(line, a, RunPipeline(input.parsed, AttachResult(a), steps));
    ws.Finish(r == Ok(true));
  }

  /** The world with an agent that dies unless `lives`. */
  function Alive(w: World, lives: bool): World {
    w.(alive := w.alive && lives)
  }

  /** All that is heard of a run whose agent dies while it attaches caches. */
  const LAST_WORDS: seq<Message> := [Remark("agent", Prepared)]

  /** The first `n` messages, or all. */
  function First(posts: seq<Message>, n: nat): seq<Message> {
    if n <= |posts| then posts[..n] else posts
  }

  /** What is heard of a prepared run: its report, unless the agent dies over a command or a post. */
  function Heard(a: Attached, life: nat, report: Report): seq<Message> {
    First(if a.world.alive then report.posts else LAST_WORDS, life)
  }

  /** What the caller of the pipeline adds. */
  method PostError(session: Session, r: Result<bool, Bytes>)
    modifies session, session.host`alive
    ensures session.Now() == Said(old(session.Now()), ErrorPosts(r))
  {
    SaidNothing(session.Now());
    if r.Err? {
      SaidTwice(session.Now(), [Remark("agent", RunError(r.error))], [RunIs(Failed)]);
      session.Post(Remark("agent", RunError(r.error)));
      session.Post(RunIs(Failed));
    }
  }

  lemma PreparedHeard(line: Line, a: Attached, q: Report)
    requires line.alive && (a.world.alive ==> line.life > 0)
    ensures var next := Said(line, LAST_WORDS).(alive := a.world.alive);
      var end := Said(Said(next, q.posts), ErrorPosts(q.result));
      var report := RunReport(Ok(()), q);
      && end.sent == line.sent + Heard(a, line.life, report)
      && end.alive == (a.world.alive && |report.posts| <= line.life)
  {
    if a.world.alive {
      SaidThrice(line, LAST_WORDS, q.posts, ErrorPosts(q.result));
    }
  }

  /** The run as the pool sees it: nothing is written unless steps ran, nothing committed unless it passed. */
  function RecordOf(u: Setup, head: Tree, files: Tree, fates: seq<Fate>, input: RunInput, ran: bool,
                    success: bool): History.Run {
    History.Run(u, head, files, DeclaredCaches(input), fates, if ran then input.work else Untouched, success)
  }

  /** What the run makes of a pool, its steps included. */
  lemma RecordedRun(s: Store, record: History.Run, input: RunInput, ran: bool, success: bool,
                    delivered: set<(string, Files)>)
    requires record == RecordOf(record.setup, record.head, record.files, record.fates, input, ran, success)
    requires var p := Prepare(World(s, record.fates, true), record.setup, record.head, record.files);
      p.ok && (ran ==> AttachAll(p.world, record.setup, record.caches).ok) && (success ==> ran)
    ensures var p := Prepare(World(s, record.fates, true), record.setup, record.head, record.files);
      var a := AttachAll(p.world, record.setup, record.caches);
      var w := a.world.(store := AfterWriting(a.world.store, a.caches, record.setup, input, ran));
      && History.AfterSteps(record, a) == w
      && History.Execute(History.State(s, delivered), record).store
         == FinishRun(w, record.setup, a.caches, success).store
  {
    var p := Prepare(World(s, record.fates, true), record.setup, record.head, record.files);
    var a := AttachAll(p.world, record.setup, record.caches);
    UntouchedIsNothing(a.world.store, Clones(a.caches) + {record.setup.RunDs()});
    hide Prepare, AttachAll, FinishRun, Worked;
  }

  /**
   A run from claim to cleanup, or to the agent's death over a command or a post. What is heard of it is its report or
   the beginning of it, and it does to the pool what `record` does in the histories of runs; `record` commits its
   caches exactly when the outcome is a success and all of the report was posted. Its fates are those of the run's
   commands, unless the agent dies over a post: then they end with that death.
   */
  method ExecuteRun(session: Session, host: Host, u: Setup, head: Tree, files: Tree, input: RunInput)
      returns (r: Result<bool, Bytes>, ghost record: History.Run, ghost ran: bool,
               ghost prepared: Result<(), Bytes>, ghost a: Attached)
    requires input.Valid() && session.host == host && host.alive
    modifies session, host
    ensures var p := Prepare(old(host.Now()), u, head, files);
      && (prepared.Ok? <==> p.ok)
      && (p.ok ==> a == AttachAll(Alive(p.world, old(session.life) > 0), u, DeclaredCaches(input)))
    ensures var report := RunReport(prepared, RunPipeline(input.parsed, AttachResult(a), StepsReport(input)));
      var p := Prepare(old(host.Now()), u, head, files);
      && r == report.result
      && session.sent == old(session.sent) + (if p.ok then Heard(a, old(session.life), report)
                                              else if p.world.alive then First(report.posts, old(session.life)) else [])
      && record == RecordOf(u, head, files, record.fates, input, ran,
                            r == Ok(true) && |report.posts| <= old(session.life))
      && (record.fates == old(host.fates)
          || (|report.posts| > old(session.life) && exists n :: record.fates == DiesAfter(old(host.fates), n)))
    ensures record.success ==> ran
    ensures forall delivered ::
      host.store == History.Execute(History.State(old(host.store), delivered), record).store
  {
    hide AttachAll, Prepare, FinishRun, RunPipeline, History.Execute;
    ghost var w0, steps, life := host.Now(), StepsReport(input), session.life;
    var ok := PrepareWorkspace(host, u, head, files);
    if !ok {
      ghost var line := session.Now();
      SaidTwice(line, [Remark("agent", RunError([]))], [RunIs(Failed)]);
      session.Post(Remark("agent", RunError([])));
      session.Post(RunIs(Failed));
      r, ran, prepared, a := Err([]), false, Err([]), Attached(w0, [], false);
      record := RecordOf(u, head, files, w0.fates, input, false, false);
      NothingPrepared(w0.store, record);
      return;
    }
    PreparedAlive(w0, u, head, files);
    ghost var p := host.Now();
    r, a, ran := RunPrepared(session, host, u, input, steps);
    prepared := Ok(());
    ghost var report := RunReport(prepared, RunPipeline(input.parsed, AttachResult(a), steps));
    ghost var lives := |report.posts| <= life;
    if r == Ok(true) && lives {
      AttachedAlive(p, u, DeclaredCaches(input));
    }
    record := RecordOf(u, head, files, w0.fates, input, ran, r == Ok(true) && lives);
    record := Recorded(w0, p, life, a, record, input, ran, report, host.store, r == Ok(true));
  }

  /** The record of a run whose workspace was prepared. */
  lemma {:induction false} Recorded(w0: World, p: World, life: nat, a: Attached, plain: History.Run, input: RunInput,
                                    ran: bool, report: Report, t: Store, success: bool)
      returns (record: History.Run)
    requires w0.alive && plain == RecordOf(plain.setup, plain.head, plain.files, w0.fates, input, ran,
                                           success && |report.posts| <= life)
    requires Prepare(w0, plain.setup, plain.head, plain.files) == Reply(p, true) && p.alive
    requires a == AttachAll(Alive(p, life > 0), plain.setup, plain.caches)
    requires (ran ==> a.ok && a.world.alive) && (plain.success ==> ran) && report.posts != []
    requires var lives := a.world.alive && |report.posts| <= life;
      t == FinishRun(World(AfterWriting(a.world.store, a.caches, plain.setup, input, ran), a.world.fates, lives),
                     plain.setup, a.caches, success).store
    ensures record == plain.(fates := record.fates)
    ensures record.fates == w0.fates || (|report.posts| > life && exists n :: record.fates == DiesAfter(w0.fates, n))
    ensures forall delivered :: t == History.Execute(History.State(w0.store, delivered), record).store
  {
    hide AttachAll, Prepare, FinishRun, History.Execute;
    var wrote := AfterWriting(a.world.store, a.caches, plain.setup, input, ran);
    record := plain;
    if life == 0 {
      DeadAttaches(Alive(p, false), plain.setup, plain.caches);
      DoomedEnd(World(wrote, a.world.fates, false), plain.setup, a.caches, success);
      var n := DeathBeforeAttaching(w0.store, plain, {});
      record := plain.(fates := DiesAfter(w0.fates, n));
      ForAnyDelivered(w0.store, record);
    } else {
      RecordedRun(w0.store, plain, input, ran, plain.success, {});
      if !a.world.alive {
        DoomedEnd(World(wrote, a.world.fates, false), plain.setup, a.caches, success);
        DoomedEnd(World(wrote, a.world.fates, false), plain.setup, a.caches, plain.success);
      } else if |report.posts| > life {
        DoomedEnd(World(wrote, a.world.fates, false), plain.setup, a.caches, success);
        var n := DeathBeforeFinishing(w0.store, plain, {});
        record := plain.(fates := DiesAfter(w0.fates, n));
      }
      ForAnyDelivered(w0.store, record);
    }
  }

  lemma ForAnyDelivered(s: Store, record: History.Run)
    ensures forall delivered ::
      History.Execute(History.State(s, delivered), record).store == History.Execute(History.State(s, {}), record).store
  {
    hide Prepare, AttachAll, FinishRun;
  }

  /** A run without a workspace does what its failed preparation does. */
  lemma NothingPrepared(s: Store, record: History.Run)
    requires !Prepare(World(s, record.fates, true), record.setup, record.head, record.files).ok
    ensures forall delivered ::
      History.Execute(History.State(s, delivered), record).store
        == Prepare(World(s, record.fates, true), record.setup, record.head, record.files).world.store
  {
    hide Prepare, AttachAll, FinishRun;
  }

  lemma PreparedAlive(w: World, u: Setup, head: Tree, files: Tree)
    ensures Prepare(w, u, head, files).ok ==> Prepare(w, u, head, files).world.alive
  {
    var repo := EnsureRepo(w, u, head, files);
    var snap := Issue(repo.world, Snapshot(u.RunSnap()));
    var made := Issue(snap.world, Clone(u.RunSnap(), u.RunDs(), Inherited));
    IssuedAlive(snap.world, Clone(u.RunSnap(), u.RunDs(), Inherited));
    if made.ok {
      RanAlive(made.world, [GetMountpoint(u.RunDs()), Chown(u.RunDs())]);
    }
  }

  /** What is heard of a run is the beginning of its report, and any beginning may be all that is heard. */
  lemma HeardIsPrefix(a: Attached, life: nat, q: Report)
    ensures Heard(a, life, RunReport(Ok(()), q)) <= RunReport(Ok(()), q).posts
    ensures a.world.alive && life <= |RunReport(Ok(()), q).posts| ==>
      |Heard(a, life, RunReport(Ok(()), q))| == life
  {
  }
}
