/** One run on the agent: what it posts, and in which order. */
module Agent {
  import opened Outcomes
  import opened Masking
  import opened Model
  import opened Pipeline
  import opened Secrets
  import opened LogChannel

  /** The branch and whether a token for commit statuses came with the job. */
  datatype Job = Job(branch: string, hasToken: bool)

  datatype StepEnd =
    | Exited(code: int, success: bool)
    | NotExecuted(error: Bytes)
    | Lost(error: Bytes)

  /** What executing a step brings: its lines as the channel batches them, its end, its artifact files. */
  datatype StepRun = StepRun(batches: seq<seq<Bytes>>, end: StepEnd, uploads: seq<string>)

  predicate SkippedByBranch(step: Step, branch: string) {
    step.only.Some? && step.only.value.branch.Some? && step.only.value.branch.value != branch
  }

  /** An explicit configuration wins over the branch's; a branch without one gets no secrets. */
  function ConfigurationFor(pf: PipelineFile, step: Step, branch: string): Option<string> {
    if pf.secrets.None? then None
    else if step.secrets.Some? then step.secrets
    else if branch in pf.secrets.value.configurations then Some(pf.secrets.value.configurations[branch])
    else None
  }

  /** The configuration the run will need for a step, if it runs at all. */
  function Wanted(pf: PipelineFile, i: nat, branch: string): Option<string>
    requires i < |pf.steps|
  {
    if SkippedByBranch(pf.steps[i], branch) then None else ConfigurationFor(pf, pf.steps[i], branch)
  }

  // ---- What is posted, as functions ----

  /** Resolver after the preflight of the first `n` steps, and the step that could not get its secrets. */
  datatype Checked = Checked(state: Resolver, failed: Option<(nat, Bytes)>)

  function Preflight(provider: Provider, pf: PipelineFile, branch: string, n: nat): (r: Checked)
    requires n <= |pf.steps|
    ensures r.failed.Some? ==> r.failed.value.0 < n
    ensures [] !in r.state.values
  {
    if n == 0 then Checked(FRESH, None) else
    var before := Preflight(provider, pf, branch, n - 1);
    if before.failed.Some? then before else CheckOne(provider, pf, branch, n - 1, before.state)
  }

  /** Load what step `i` wants, if it runs and wants anything. */
  function CheckOne(provider: Provider, pf: PipelineFile, branch: string, i: nat, s: Resolver): (r: Checked)
    requires i < |pf.steps|
    ensures r.failed.Some? ==> r.failed.value.0 == i
    ensures [] !in s.values ==> [] !in r.state.values
  {
    var wanted := Wanted(pf, i, branch);
    if wanted.None? then Checked(s, None) else
    var l := LoadFrom(provider, s, wanted.value);
    Checked(l.state, if l.result.Ok? then None else Some((i, l.result.error)))
  }

  function Outputs(step: string, batches: seq<seq<Bytes>>, values: seq<Bytes>): (r: seq<Message>)
    requires [] !in values
    ensures |r| == |batches|
    ensures forall i :: 0 <= i < |r| ==> r[i] == Output(step, MaskAll(batches[i], values))
  {
    seq(|batches|, i requires 0 <= i < |batches| => Output(step, MaskAll(batches[i], values)))
  }

  function Uploads(step: string, paths: seq<string>): (r: seq<Message>)
    ensures |r| == |paths| && forall i :: 0 <= i < |r| ==> r[i] == Upload(step, paths[i])
  {
    seq(|paths|, i requires 0 <= i < |paths| => Upload(step, paths[i]))
  }

  /** Everything posted for a step from its start on. */
  function StepPosts(step: string, run: StepRun, values: seq<Bytes>): seq<Message>
    requires [] !in values
  {
    [StepIs(step, InProgress)] + Outputs(step, run.batches, values) + StepTail(step, run)
  }

  function StepTail(step: string, run: StepRun): seq<Message> {
    match run.end
    case Exited(code, success) =>
      [Remark(step, Exit(code, success))] + (if success then Uploads(step, run.uploads) else [])
      + [StepIs(step, if success then Passed else Broken)]
    case NotExecuted(e) => [Remark(step, ExecutorFailed(e)), StepIs(step, Broken)]
    case Lost(_) => []
  }

  datatype Stop = Going | Failing | Breaking(error: Bytes)

  type Env = map<string, Bytes>

  /** What a step is started with: its script, on the host or in the jail, and its environment. */
  datatype Given = Given(step: string, script: string, onHost: bool, env: Env)

  /** The environment once `pairs` are set in it, one after the other. */
  function Overlay(env: Env, pairs: Pairs): Env {
    if pairs == [] then env
    else Overlay(env, pairs[..|pairs| - 1])[pairs[|pairs| - 1].0 := pairs[|pairs| - 1].1]
  }

  /** The file's environment, the secrets over it, and the step's own over both. */
  function EnvFor(pf: PipelineFile, step: Step, secrets: Pairs): Env {
    Overlay(Overlay(Overlay(map[], pf.env), secrets), step.env)
  }

  /** An accepted step has either a script to run in the jail or one to execute on the host. */
  function GivenTo(pf: PipelineFile, step: Step, secrets: Pairs): Given {
    var script := if step.run.Some? then step.run.value else if step.exec.Some? then step.exec.value else "";
    Given(step.name, script, step.run.None?, EnvFor(pf, step, secrets))
  }

  datatype Progress = Progress(state: Resolver, posts: seq<Message>, stop: Stop, given: seq<Given>)

  function StopOf(run: StepRun): Stop {
    match run.end
    case Exited(_, success) => if success then Going else Failing
    case NotExecuted(_) => Failing
    case Lost(e) => Breaking(e)
  }

  /** One more step, in declared order, unless the run stopped. */
  function Advance(provider: Provider, pf: PipelineFile, job: Job, p: Progress, i: nat, run: StepRun): (r: Progress)
    requires i < |pf.steps| && [] !in p.state.values
    ensures [] !in r.state.values
  {
    var step := pf.steps[i];
    if SkippedByBranch(step, job.branch) then p.(posts := p.posts + [StepIs(step.name, Skipped)]) else
    var wanted := Wanted(pf, i, job.branch);
    if wanted.None? then Execute(p, GivenTo(pf, step, []), run) else
    var l := LoadFrom(provider, p.state, wanted.value);
    if l.result.Err?
    then Progress(l.state, p.posts + [StepIs(step.name, InProgress)], Breaking(l.result.error), p.given)
    else Execute(p.(state := l.state), GivenTo(pf, step, l.result.value), run)
  }

  function Execute(p: Progress, given: Given, run: StepRun): Progress
    requires [] !in p.state.values
  {
    Progress(p.state, p.posts + StepPosts(given.step, run, p.state.values), StopOf(run), p.given + [given])
  }

  function Loop(provider: Provider, pf: PipelineFile, job: Job, runs: seq<StepRun>, s: Resolver, n: nat): (r: Progress)
    requires n <= |pf.steps| == |runs| && [] !in s.values
    ensures [] !in r.state.values
  {
    if n == 0 then Progress(s, [], Going, []) else
    var before := Loop(provider, pf, job, runs, s, n - 1);
    if before.stop != Going then before else Advance(provider, pf, job, before, n - 1, runs[n - 1])
  }

  /** Posts and the outcome: success, failure, or an error the caller still has to report. */
  datatype Report = Report(posts: seq<Message>, result: Result<bool, Bytes>)

  function Verdict(job: Job, success: bool): seq<Message> {
    [RunIs(if success then Succeeded else Failed)] + if job.hasToken then [CommitIs(success)] else []
  }

  function NoSecretsPosts(step: string, e: Bytes): seq<Message> {
    [StepIs(step, InProgress), Remark(step, NoSecrets(e)), StepIs(step, Broken)]
  }

  /** Preflight, then the steps. */
  function RunSteps(provider: Provider, pf: PipelineFile, job: Job, runs: seq<StepRun>): Report
    requires |runs| == |pf.steps|
  {
    var c := Preflight(provider, pf, job.branch, |pf.steps|);
    if c.failed.Some? then
      Report(NoSecretsPosts(pf.steps[c.failed.value.0].name, c.failed.value.1) + Verdict(job, false), Ok(false))
    else LoopReport(job, Loop(provider, pf, job, runs, c.state, |pf.steps|))
  }

  /** What the steps of the run were started with, in order. */
  function StepsGiven(provider: Provider, pf: PipelineFile, job: Job, runs: seq<StepRun>): seq<Given>
    requires |runs| == |pf.steps|
  {
    var c := Preflight(provider, pf, job.branch, |pf.steps|);
    if c.failed.Some? then [] else Loop(provider, pf, job, runs, c.state, |pf.steps|).given
  }

  /** What the step loop and the verdict after it post. */
  function LoopReport(job: Job, p: Progress): Report {
    if p.stop.Breaking? then Report(p.posts, Err(p.stop.error))
    else Report(p.posts + Verdict(job, p.stop == Going), Ok(p.stop == Going))
  }

  /**
   The pipeline: `attached` says how provisioning the caches went and which of them had content, `steps` is
   the report of preflight and steps, which a broken file or a failed attach never comes to.
   */
  function RunPipeline(parsed: Result<PipelineFile, Bytes>, attached: Result<seq<bool>, Bytes>, steps: Report): Report {
    if parsed.Err? then Report([], Err(parsed.error))
    else if parsed.value.cache == [] then steps
    else if attached.Err? then Report([], Err(attached.error))
    else Report([Remark("agent", CacheStates(attached.value))] + steps.posts, steps.result)
  }

  /** The whole run, from a workspace that could or could not be prepared. */
  function RunReport(prepared: Result<(), Bytes>, pipeline: Report): Report {
    if prepared.Err? then
      Report([Remark("agent", RunError(prepared.error)), RunIs(Failed)], Err(prepared.error))
    else
      Report([Remark("agent", Prepared)] + pipeline.posts + ErrorPosts(pipeline.result), pipeline.result)
  }

  function ErrorPosts(result: Result<bool, Bytes>): seq<Message> {
    if result.Err? then [Remark("agent", RunError(result.error)), RunIs(Failed)] else []
  }

  // ---- What the preflight is for ----

  lemma {:induction false} PreflightLoads(provider: Provider, pf: PipelineFile, branch: string, n: nat)
    requires n <= |pf.steps|
    ensures var c := Preflight(provider, pf, branch, n);
      Sound(c.state) && (c.failed.None? ==> LoadedUpTo(c.state, pf, branch, n))
  {
    if n > 0 {
      hide Sound, LoadFrom, LoadedUpTo;
      PreflightLoads(provider, pf, branch, n - 1);
      var before := Preflight(provider, pf, branch, n - 1);
      if before.failed.None? {
        CheckOneLoads(provider, pf, branch, n - 1, before.state);
      }
    }
  }

  /** Every configuration the first `n` steps will want is loaded. */
  ghost predicate LoadedUpTo(s: Resolver, pf: PipelineFile, branch: string, n: nat)
    requires n <= |pf.steps|
  {
    forall i :: 0 <= i < n && Wanted(pf, i, branch).Some? ==> Wanted(pf, i, branch).value in s.cache
  }

  lemma CheckOneLoads(provider: Provider, pf: PipelineFile, branch: string, i: nat, s: Resolver)
    requires i < |pf.steps| && Sound(s) && LoadedUpTo(s, pf, branch, i)
    ensures var c := CheckOne(provider, pf, branch, i, s);
      Sound(c.state) && (c.failed.None? ==> LoadedUpTo(c.state, pf, branch, i + 1))
  {
    if Wanted(pf, i, branch).Some? {
      LoadKeepsSound(provider, s, Wanted(pf, i, branch).value);
    }
  }

  /**
   After a successful preflight the step loop asks the provider for nothing and cannot fail over secrets:
   the resolver, and with it the values masked, stay what the preflight made them.
   */
  lemma {:induction false} LoopLoadsNothing(provider: Provider, pf: PipelineFile, job: Job, runs: seq<StepRun>, n: nat)
    requires n <= |pf.steps| == |runs|
    requires Preflight(provider, pf, job.branch, |pf.steps|).failed.None?
    ensures var s := Preflight(provider, pf, job.branch, |pf.steps|).state;
      var p := Loop(provider, pf, job, runs, s, n);
      && p.state == s
      && (p.stop.Breaking? ==> exists i :: 0 <= i < n && runs[i].end == Lost(p.stop.error))
  {
    PreflightLoads(provider, pf, job.branch, |pf.steps|);
    LoopKeeps(provider, pf, job, runs, Preflight(provider, pf, job.branch, |pf.steps|).state, n);
  }

  /** Every configuration the steps will want is loaded. */
  ghost predicate Covers(s: Resolver, pf: PipelineFile, branch: string) {
    [] !in s.values && LoadedUpTo(s, pf, branch, |pf.steps|)
  }

  lemma {:induction false} LoopKeeps(provider: Provider, pf: PipelineFile, job: Job, runs: seq<StepRun>, s: Resolver,
                                     n: nat)
    requires n <= |pf.steps| == |runs| && Covers(s, pf, job.branch)
    ensures var p := Loop(provider, pf, job, runs, s, n);
      && p.state == s
      && (p.stop.Breaking? ==> exists i :: 0 <= i < n && runs[i].end == Lost(p.stop.error))
  {
    if n > 0 {
      LoopKeeps(provider, pf, job, runs, s, n - 1);
      assert Loop(provider, pf, job, runs, s, n - 1).stop == Going && runs[n - 1].end.Lost? ==>
        StopOf(runs[n - 1]) == Breaking(runs[n - 1].end.error);
    }
  }

  // ---- No secret leaves the agent in step output ----

  ghost predicate Discreet(posts: seq<Message>, values: seq<Bytes>) {
    forall i, k, v :: 0 <= i < |posts| && posts[i].Output? && 0 <= k < |posts[i].lines| && v in values && Robust(v) ==>
      !Occurs(v, posts[i].lines[k])
  }

  lemma StepPostsDiscreet(step: string, run: StepRun, values: seq<Bytes>)
    requires [] !in values
    ensures Discreet(StepPosts(step, run, values), values)
  {
    var outs, tail := Outputs(step, run.batches, values), StepTail(step, run);
    forall i, k, v | 0 <= i < |outs| && 0 <= k < |outs[i].lines| && v in values && Robust(v)
      ensures !Occurs(v, outs[i].lines[k])
    {
      OutputDiscreet(step, run, values, i, k, v);
    }
    DiscreetConcat([StepIs(step, InProgress)], outs, values);
    DiscreetConcat([StepIs(step, InProgress)] + outs, tail, values);
  }

  lemma DiscreetConcat(a: seq<Message>, b: seq<Message>, values: seq<Bytes>)
    requires Discreet(a, values) && Discreet(b, values)
    ensures Discreet(a + b, values)
  {
  }

  lemma {:induction false} OutputDiscreet(step: string, run: StepRun, values: seq<Bytes>, i: nat, k: nat, v: Bytes)
    requires [] !in values && i < |run.batches| && k < |run.batches[i]| && v in values && Robust(v)
    ensures Outputs(step, run.batches, values)[i].Output? && k < |Outputs(step, run.batches, values)[i].lines|
    ensures !Occurs(v, Outputs(step, run.batches, values)[i].lines[k])
  {
    NothingLeft(run.batches[i][k], values, v);
  }

  lemma {:induction false} LoopDiscreet(provider: Provider, pf: PipelineFile, job: Job, runs: seq<StepRun>,
                                        s: Resolver, n: nat)
    requires n <= |pf.steps| == |runs| && Covers(s, pf, job.branch)
    ensures Discreet(Loop(provider, pf, job, runs, s, n).posts, s.values)
  {
    hide Advance;
    if n > 0 {
      LoopDiscreet(provider, pf, job, runs, s, n - 1);
      LoopKeeps(provider, pf, job, runs, s, n - 1);
      var before := Loop(provider, pf, job, runs, s, n - 1);
      if before.stop == Going {
        AdvanceDiscreet(provider, pf, job, before, n - 1, runs[n - 1]);
      }
    }
  }

  lemma AdvanceDiscreet(provider: Provider, pf: PipelineFile, job: Job, p: Progress, i: nat, run: StepRun)
    requires i < |pf.steps| && Covers(p.state, pf, job.branch) && Discreet(p.posts, p.state.values)
    ensures Discreet(Advance(provider, pf, job, p, i, run).posts, p.state.values)
  {
    var step, values := pf.steps[i].name, p.state.values;
    if SkippedByBranch(pf.steps[i], job.branch) {
      DiscreetConcat(p.posts, [StepIs(step, Skipped)], values);
    } else {
      StepPostsDiscreet(step, run, values);
      DiscreetConcat(p.posts, StepPosts(step, run, values), values);
    }
  }

  /**
   Secrecy. In whatever the agent posts of a step's own output, no value of four or more bytes of any
   configuration the run loaded occurs, provided the mask itself cannot recreate it.
   */
  lemma {:induction false} NoSecretInOutput(provider: Provider, pf: PipelineFile, job: Job, runs: seq<StepRun>,
                         m: Message, line: Bytes, secret: Bytes)
    requires |runs| == |pf.steps|
    requires m in RunSteps(provider, pf, job, runs).posts && m.Output? && line in m.lines
    requires IsSecret(Preflight(provider, pf, job.branch, |pf.steps|).state, secret) && |secret| >= 4 && Robust(secret)
    ensures !Occurs(secret, line)
  {
    var c := Preflight(provider, pf, job.branch, |pf.steps|);
    PreflightLoads(provider, pf, job.branch, |pf.steps|);
    if c.failed.None? {
      LoopDiscreet(provider, pf, job, runs, c.state, |pf.steps|);
      var posts := Loop(provider, pf, job, runs, c.state, |pf.steps|).posts;
      assert m in posts;
      var i :| 0 <= i < |posts| && posts[i] == m;
      var k :| 0 <= k < |m.lines| && m.lines[k] == line;
    }
  }

  // ---- The log channel inside a step ----

  function BatchPosts(step: string, posted: seq<seq<Bytes>>): (r: seq<Message>)
    ensures |r| == |posted| && forall i :: 0 <= i < |r| ==> r[i] == Output(step, posted[i])
  {
    seq(|posted|, i requires 0 <= i < |posted| => Output(step, posted[i]))
  }

  /**
   However sender and consumer of a step's lines take turns, once neither can go on the step has posted, before
   its exit marker, what `StepPosts` says for some way to cut exactly these lines into non-empty batches.
   */
  lemma {:induction false} ChannelOutput(states: seq<Channel>, moves: seq<Move>, lines: seq<Bytes>,
                                         values: seq<Bytes>, step: string, end: StepEnd, uploads: seq<string>)
      returns (run: StepRun)
    requires [] !in values && Behaviour(states, moves, lines, values)
    requires forall m :: !Enabled(states[|moves|], m)
    ensures run.end == end && run.uploads == uploads
    ensures Flatten(run.batches) == lines && forall b :: b in run.batches ==> b != []
    ensures StepPosts(step, run, values)
         == [StepIs(step, InProgress)] + BatchPosts(step, states[|moves|].posted) + StepTail(step, run)
  {
    ChannelDelivers(states, moves, lines, values, |moves|);
    var posted := states[|moves|].posted;
    CutIsBatches(lines, posted, values);
    run := StepRun(Cut(lines, posted), end, uploads);
    assert Outputs(step, run.batches, values) == BatchPosts(step, posted);
    forall b | b in run.batches ensures b != [] {
      var i :| 0 <= i < |run.batches| && run.batches[i] == b;
      assert posted[i] in posted && |MaskAll(b, values)| == |b|;
    }
  }

  // ---- Order of statuses ----

  predicate SaysRun(m: Message) {
    m.RunIs? || m.CommitIs?
  }

  ghost predicate NoVerdict(posts: seq<Message>) {
    forall m :: m in posts ==> !SaysRun(m)
  }

  lemma {:induction false} LoopNoVerdict(provider: Provider, pf: PipelineFile, job: Job, runs: seq<StepRun>,
                                         s: Resolver, n: nat)
    requires n <= |pf.steps| == |runs| && [] !in s.values
    ensures NoVerdict(Loop(provider, pf, job, runs, s, n).posts)
  {
    hide Advance;
    if n > 0 {
      LoopNoVerdict(provider, pf, job, runs, s, n - 1);
      var before := Loop(provider, pf, job, runs, s, n - 1);
      if before.stop == Going {
        AdvanceNoVerdict(provider, pf, job, before, n - 1, runs[n - 1]);
      }
    }
  }

  lemma AdvanceNoVerdict(provider: Provider, pf: PipelineFile, job: Job, p: Progress, i: nat, run: StepRun)
    requires i < |pf.steps| && [] !in p.state.values && NoVerdict(p.posts)
    ensures NoVerdict(Advance(provider, pf, job, p, i, run).posts)
  {
    assert forall values | [] !in values :: NoVerdict(StepPosts(pf.steps[i].name, run, values));
  }

  /** What a complete report looks like: one terminal status, last of all that goes to the server. */
  ghost predicate OneVerdict(posts: seq<Message>, status: RunStatus) {
    exists k :: 0 <= k < |posts|
      && posts[k] == RunIs(status)
      && NoVerdict(posts[..k])
      && forall j :: k < j < |posts| ==> posts[j].CommitIs?
  }

  lemma RunStepsVerdict(provider: Provider, pf: PipelineFile, job: Job, runs: seq<StepRun>)
    requires |runs| == |pf.steps|
    ensures var r := RunSteps(provider, pf, job, runs);
      && (r.result.Err? ==> NoVerdict(r.posts))
      && (r.result.Ok? ==> OneVerdict(r.posts, if r.result.value then Succeeded else Failed))
  {
    var c := Preflight(provider, pf, job.branch, |pf.steps|);
    var r := RunSteps(provider, pf, job, runs);
    var body: seq<Message>;
    if c.failed.Some? {
      body := NoSecretsPosts(pf.steps[c.failed.value.0].name, c.failed.value.1);
    } else {
      LoopNoVerdict(provider, pf, job, runs, c.state, |pf.steps|);
      body := Loop(provider, pf, job, runs, c.state, |pf.steps|).posts;
    }
    if r.result.Ok? {
      assert r.posts == body + Verdict(job, r.result.value);
      VerdictAfter(body, job, r.result.value);
    }
  }

  lemma VerdictAfter(body: seq<Message>, job: Job, success: bool)
    requires NoVerdict(body)
    ensures OneVerdict(body + Verdict(job, success), if success then Succeeded else Failed)
  {
    var posts := body + Verdict(job, success);
    assert posts[|body|] == RunIs(if success then Succeeded else Failed);
    assert posts[..|body|] == body;
  }

  lemma FrontKeepsVerdict(front: seq<Message>, posts: seq<Message>, status: RunStatus)
    requires NoVerdict(front)
    ensures OneVerdict(posts, status) ==> OneVerdict(front + posts, status)
    ensures NoVerdict(posts) ==> NoVerdict(front + posts)
  {
    if OneVerdict(posts, status) {
      var k :| 0 <= k < |posts| && posts[k] == RunIs(status) && NoVerdict(posts[..k])
               && forall j :: k < j < |posts| ==> posts[j].CommitIs?;
      var all := front + posts;
      assert all[|front| + k] == RunIs(status);
      assert all[..|front| + k] == front + posts[..k];
      forall j | |front| + k < j < |all| ensures all[j].CommitIs? {
        assert all[j] == posts[j - |front|];
      }
    }
  }

  /** A report without verdict on errors, and with one verdict, that of its result, otherwise. */
  ghost predicate Judged(r: Report) {
    && (r.result.Err? ==> NoVerdict(r.posts))
    && (r.result.Ok? ==> OneVerdict(r.posts, if r.result.value then Succeeded else Failed))
  }

  lemma PipelineJudged(parsed: Result<PipelineFile, Bytes>, attached: Result<seq<bool>, Bytes>, steps: Report)
    requires Judged(steps)
    ensures Judged(RunPipeline(parsed, attached, steps))
  {
    if attached.Ok? {
      var front := [Remark("agent", CacheStates(attached.value))];
      FrontKeepsVerdict(front, steps.posts, if steps.result == Ok(true) then Succeeded else Failed);
    }
  }

  /**
   On every path, failed preparation, broken file, failed attach, missing secrets and lost steps included,
   exactly one terminal run status is posted; it is the last message to the server, and it is `Succeeded`
   exactly when the run's outcome is a success.
   */
  lemma ExactlyOneVerdict(prepared: Result<(), Bytes>, parsed: Result<PipelineFile, Bytes>,
                          attached: Result<seq<bool>, Bytes>, provider: Provider, job: Job, runs: seq<StepRun>)
    requires parsed.Ok? ==> |runs| == |parsed.value.steps|
    ensures var steps := if parsed.Ok? then RunSteps(provider, parsed.value, job, runs) else Report([], Err([]));
      var r := RunReport(prepared, RunPipeline(parsed, attached, steps));
      OneVerdict(r.posts, if r.result == Ok(true) then Succeeded else Failed)
  {
    if parsed.Ok? {
      RunStepsVerdict(provider, parsed.value, job, runs);
    }
    var steps := if parsed.Ok? then RunSteps(provider, parsed.value, job, runs) else Report([], Err([]));
    PipelineJudged(parsed, attached, steps);
    ReportHasVerdict(prepared, RunPipeline(parsed, attached, steps));
  }

  lemma ReportHasVerdict(prepared: Result<(), Bytes>, q: Report)
    requires Judged(q)
    ensures var r := RunReport(prepared, q); OneVerdict(r.posts, if r.result == Ok(true) then Succeeded else Failed)
  {
    var r := RunReport(prepared, q);
    var plain := Job("", false);
    if prepared.Err? {
      VerdictAfter([Remark("agent", RunError(prepared.error))], plain, false);
      assert r.posts == [Remark("agent", RunError(prepared.error))] + Verdict(plain, false);
    } else if q.result.Ok? {
      FrontKeepsVerdict([Remark("agent", Prepared)], q.posts, if q.result.value then Succeeded else Failed);
      assert r.posts == [Remark("agent", Prepared)] + q.posts;
    } else {
      var body := [Remark("agent", Prepared)] + q.posts + [Remark("agent", RunError(q.result.error))];
      VerdictAfter(body, plain, false);
      assert r.posts == body + Verdict(plain, false);
    }
  }

  /** The step statuses among what is posted. */
  function StepStatuses(posts: seq<Message>): seq<(string, StepStatus)> {
    if posts == [] then [] else
    var m := posts[|posts| - 1];
    StepStatuses(posts[..|posts| - 1]) + if m.StepIs? then [(m.step, m.status)] else []
  }

  lemma {:induction false} StatusesConcat(a: seq<Message>, b: seq<Message>)
    ensures StepStatuses(a + b) == StepStatuses(a) + StepStatuses(b)
  {
    if b == [] {
      assert a + b == a;
    } else {
      var n := |b| - 1;
      StatusesConcat(a, b[..n]);
      assert (a + b)[..|a| + n] == a + b[..n];
    }
  }

  lemma {:induction false} NoStatuses(posts: seq<Message>)
    requires forall m :: m in posts ==> !m.StepIs?
    ensures StepStatuses(posts) == []
  {
    if posts != [] {
      NoStatuses(posts[..|posts| - 1]);
    }
  }

  lemma OneStatus(m: Message)
    ensures StepStatuses([m]) == if m.StepIs? then [(m.step, m.status)] else []
  {
  }

  /** The statuses of one executed step. */
  function StepVerdict(step: string, run: StepRun): seq<(string, StepStatus)> {
    match StopOf(run)
    case Going => [(step, InProgress), (step, Passed)]
    case Failing => [(step, InProgress), (step, Broken)]
    case Breaking(_) => [(step, InProgress)]
  }

  lemma StatusesOfStep(step: string, run: StepRun, values: seq<Bytes>)
    requires [] !in values
    ensures StepStatuses(StepPosts(step, run, values)) == StepVerdict(step, run)
  {
    var outs, tail := Outputs(step, run.batches, values), StepTail(step, run);
    var start := [StepIs(step, InProgress)];
    OneStatus(start[0]);
    NoStatuses(outs);
    StatusesConcat(start, outs);
    StatusesConcat(start + outs, tail);
    StatusesOfTail(step, run);
  }

  lemma StatusesOfTail(step: string, run: StepRun)
    ensures [(step, InProgress)] + StepStatuses(StepTail(step, run)) == StepVerdict(step, run)
  {
    var tail := StepTail(step, run);
    if tail != [] {
      var n := |tail| - 1;
      assert tail == tail[..n] + [tail[n]];
      StatusesConcat(tail[..n], [tail[n]]);
      NoStatuses(tail[..n]);
      OneStatus(tail[n]);
    }
  }

  /** The statuses of the first `n` steps when none of them fails. */
  function Passing(pf: PipelineFile, branch: string, n: nat): seq<(string, StepStatus)>
    requires n <= |pf.steps|
  {
    if n == 0 then [] else
    var step := pf.steps[n - 1];
    Passing(pf, branch, n - 1)
    + if SkippedByBranch(step, branch) then [(step.name, Skipped)] else [(step.name, InProgress), (step.name, Passed)]
  }

  /** Where a run that did not pass stopped, and with which statuses. */
  ghost predicate StoppedAt(pf: PipelineFile, branch: string, statuses: seq<(string, StepStatus)>, k: nat,
                            last: seq<StepStatus>)
    requires k < |pf.steps|
  {
    && !SkippedByBranch(pf.steps[k], branch)
    && statuses == Passing(pf, branch, k) + Tagged(pf.steps[k].name, last)
  }

  function Tagged(step: string, statuses: seq<StepStatus>): (r: seq<(string, StepStatus)>)
    ensures |r| == |statuses| && forall i :: 0 <= i < |r| ==> r[i] == (step, statuses[i])
  {
    seq(|statuses|, i requires 0 <= i < |statuses| => (step, statuses[i]))
  }

  /** Statuses so far, after `n` steps or where the loop stopped. */
  ghost predicate InOrder(pf: PipelineFile, branch: string, statuses: seq<(string, StepStatus)>, stop: Stop, n: nat)
    requires n <= |pf.steps|
  {
    match stop
    case Going => statuses == Passing(pf, branch, n)
    case Failing => exists k :: 0 <= k < n && StoppedAt(pf, branch, statuses, k, [InProgress, Broken])
    case Breaking(_) => exists k :: 0 <= k < n && StoppedAt(pf, branch, statuses, k, [InProgress])
  }

  lemma {:induction false} LoopStatuses(provider: Provider, pf: PipelineFile, job: Job, runs: seq<StepRun>,
                                        s: Resolver, n: nat)
    requires n <= |pf.steps| == |runs| && Covers(s, pf, job.branch)
    ensures var p := Loop(provider, pf, job, runs, s, n);
      InOrder(pf, job.branch, StepStatuses(p.posts), p.stop, n)
  {
    hide Advance;
    if n == 0 {
      assert StepStatuses([]) == Passing(pf, job.branch, 0);
    } else {
      LoopStatuses(provider, pf, job, runs, s, n - 1);
      NextStatuses(provider, pf, job, runs, s, n - 1);
    }
  }

  lemma {:induction false} NextStatuses(provider: Provider, pf: PipelineFile, job: Job, runs: seq<StepRun>,
                                        s: Resolver, n: nat)
    requires n < |pf.steps| == |runs| && Covers(s, pf, job.branch)
    requires var p := Loop(provider, pf, job, runs, s, n); InOrder(pf, job.branch, StepStatuses(p.posts), p.stop, n)
    ensures var p := Loop(provider, pf, job, runs, s, n + 1);
      InOrder(pf, job.branch, StepStatuses(p.posts), p.stop, n + 1)
  {
    var before := Loop(provider, pf, job, runs, s, n);
    if before.stop == Going {
      LoopKeeps(provider, pf, job, runs, s, n);
      AdvanceStatuses(provider, pf, job, before, n, runs[n]);
    } else {
      InOrderLater(pf, job.branch, StepStatuses(before.posts), before.stop, n);
    }
  }

  lemma InOrderLater(pf: PipelineFile, branch: string, statuses: seq<(string, StepStatus)>, stop: Stop, n: nat)
    requires n < |pf.steps| && stop != Going && InOrder(pf, branch, statuses, stop, n)
    ensures InOrder(pf, branch, statuses, stop, n + 1)
  {
  }

  lemma {:induction false} AdvanceStatuses(provider: Provider, pf: PipelineFile, job: Job, p: Progress, i: nat,
                                           run: StepRun)
    requires i < |pf.steps| && Covers(p.state, pf, job.branch) && p.stop == Going
    requires StepStatuses(p.posts) == Passing(pf, job.branch, i)
    ensures var q := Advance(provider, pf, job, p, i, run);
      InOrder(pf, job.branch, StepStatuses(q.posts), q.stop, i + 1)
  {
    var step := pf.steps[i];
    var statuses := StepStatuses(Advance(provider, pf, job, p, i, run).posts);
    if SkippedByBranch(step, job.branch) {
      StatusesConcat(p.posts, [StepIs(step.name, Skipped)]);
      OneStatus(StepIs(step.name, Skipped));
    } else {
      var values := p.state.values;
      StatusesConcat(p.posts, StepPosts(step.name, run, values));
      StatusesOfStep(step.name, run, values);
      assert Tagged(step.name, [InProgress, Broken]) == [(step.name, InProgress), (step.name, Broken)];
      assert Tagged(step.name, [InProgress]) == [(step.name, InProgress)];
      assert StopOf(run).Failing? ==> StoppedAt(pf, job.branch, statuses, i, [InProgress, Broken]);
      assert StopOf(run).Breaking? ==> StoppedAt(pf, job.branch, statuses, i, [InProgress]);
    }
  }

  function StopFor(result: Result<bool, Bytes>): Stop {
    match result
    case Ok(success) => if success then Going else Failing
    case Err(e) => Breaking(e)
  }

  /**
   Step statuses come in declared order: skipped, or in progress and then the outcome; after the first
   failure there are none, and a run passes only if every step did or was skipped. A run whose secrets
   could not be had reports just the one step that lacked them.
   */
  lemma {:induction false} StatusesInOrder(provider: Provider, pf: PipelineFile, job: Job, runs: seq<StepRun>)
    requires |runs| == |pf.steps|
    ensures var c := Preflight(provider, pf, job.branch, |pf.steps|);
      var r := RunSteps(provider, pf, job, runs);
      var statuses := StepStatuses(r.posts);
      if c.failed.Some? then
        && r.result == Ok(false)
        && statuses == [(pf.steps[c.failed.value.0].name, InProgress), (pf.steps[c.failed.value.0].name, Broken)]
      else InOrder(pf, job.branch, statuses, StopFor(r.result), |pf.steps|)
  {
    var c := Preflight(provider, pf, job.branch, |pf.steps|);
    if c.failed.Some? {
      var name, e := pf.steps[c.failed.value.0].name, c.failed.value.1;
      NoSecretsStatuses(name, e);
      StatusesConcat(NoSecretsPosts(name, e), Verdict(job, false));
      NoStatuses(Verdict(job, false));
    } else {
      PreflightLoads(provider, pf, job.branch, |pf.steps|);
      PassedStatuses(provider, pf, job, runs, c.state);
    }
  }

  lemma {:induction false} PassedStatuses(provider: Provider, pf: PipelineFile, job: Job, runs: seq<StepRun>,
                                          s: Resolver)
    requires |runs| == |pf.steps| && Covers(s, pf, job.branch)
    requires var c := Preflight(provider, pf, job.branch, |pf.steps|); c.failed.None? && c.state == s
    ensures var r := RunSteps(provider, pf, job, runs);
      InOrder(pf, job.branch, StepStatuses(r.posts), StopFor(r.result), |pf.steps|)
  {
    var p := Loop(provider, pf, job, runs, s, |pf.steps|);
    LoopStatuses(provider, pf, job, runs, s, |pf.steps|);
    StatusesConcat(p.posts, Verdict(job, p.stop == Going));
    NoStatuses(Verdict(job, p.stop == Going));
    assert StepStatuses(p.posts) + [] == StepStatuses(p.posts);
  }

  lemma NoSecretsStatuses(step: string, e: Bytes)
    ensures StepStatuses(NoSecretsPosts(step, e)) == [(step, InProgress), (step, Broken)]
  {
    var a, b, c := [StepIs(step, InProgress)], [Remark(step, NoSecrets(e))], [StepIs(step, Broken)];
    assert NoSecretsPosts(step, e) == a + b + c;
    StatusesConcat(a, b);
    StatusesConcat(a + b, c);
    OneStatus(a[0]);
    OneStatus(b[0]);
    OneStatus(c[0]);
  }
}
