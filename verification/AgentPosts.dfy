/** What single posts of a run say: exit markers, uploads, restored caches, the commit's status, steps that start. */
module AgentPosts {
  import opened Outcomes
  import opened Masking
  import opened Model
  import opened Pipeline
  import opened Secrets
  import opened LogChannel
  import opened Agent

  // ---- A step ----

  /** A post of the step is true of how it ended. */
  ghost predicate Says(step: string, run: StepRun, m: Message) {
    match m
    case Output(s, _) => s == step
    case Remark(s, Exit(code, success)) => s == step && run.end == Exited(code, success)
    case Remark(s, ExecutorFailed(e)) => s == step && run.end == NotExecuted(e)
    case Upload(s, path) => s == step && run.end.Exited? && run.end.success && path in run.uploads
    case StepIs(s, InProgress) => s == step
    case StepIs(s, Passed) => s == step && run.end.Exited? && run.end.success
    case StepIs(s, Broken) => s == step && (run.end.NotExecuted? || (run.end.Exited? && !run.end.success))
    case _ => false
  }

  /** The paths uploaded in `posts`, in order. */
  function Uploaded(posts: seq<Message>): seq<string> {
    if posts == [] then [] else
    var m := posts[|posts| - 1];
    Uploaded(posts[..|posts| - 1]) + if m.Upload? then [m.path] else []
  }

  lemma {:induction false} UploadedConcat(a: seq<Message>, b: seq<Message>)
    ensures Uploaded(a + b) == Uploaded(a) + Uploaded(b)
  {
    if b == [] {
      assert a + b == a;
    } else {
      var n := |b| - 1;
      UploadedConcat(a, b[..n]);
      assert (a + b)[..|a + b| - 1] == a + b[..n];
    }
  }

  lemma {:induction false} NoneUploaded(posts: seq<Message>)
    requires forall m :: m in posts ==> !m.Upload?
    ensures Uploaded(posts) == []
  {
    if posts != [] {
      NoneUploaded(posts[..|posts| - 1]);
    }
  }

  lemma {:induction false} AllUploaded(step: string, paths: seq<string>)
    ensures Uploaded(Uploads(step, paths)) == paths
  {
    if paths != [] {
      var n := |paths| - 1;
      AllUploaded(step, paths[..n]);
      assert Uploads(step, paths)[..n] == Uploads(step, paths[..n]);
    }
  }

  /**
   What is posted for a step is true of it; the exit is told of every step that exited, and the artifacts of a step
   are uploaded, each once and in order, exactly if it passed.
   */
  lemma {:induction false} StepPostsSay(step: string, run: StepRun, values: seq<Bytes>)
    requires [] !in values
    ensures var posts := StepPosts(step, run, values);
      && (forall m :: m in posts ==> Says(step, run, m))
      && (run.end.Exited? ==> Remark(step, Exit(run.end.code, run.end.success)) in posts)
      && Uploaded(posts) == if run.end.Exited? && run.end.success then run.uploads else []
  {
    hide Uploaded, StepTail, MaskAll;
    var start, outs, tail := [StepIs(step, InProgress)], Outputs(step, run.batches, values), StepTail(step, run);
    TailSays(step, run);
    assert forall m :: m in start + outs ==> Says(step, run, m) && !m.Upload?;
    NoneUploaded(start + outs);
    UploadedConcat(start + outs, tail);
  }

  lemma {:induction false} TailSays(step: string, run: StepRun)
    ensures var tail := StepTail(step, run);
      && (forall m :: m in tail ==> Says(step, run, m))
      && (run.end.Exited? ==> Remark(step, Exit(run.end.code, run.end.success)) in tail)
      && Uploaded(tail) == if run.end.Exited? && run.end.success then run.uploads else []
  {
    match run.end
    case Exited(code, success) =>
      ExitUploads(step, run);
    case NotExecuted(_) => NoneUploaded(StepTail(step, run));
    case Lost(_) =>
  }

  lemma {:induction false} ExitUploads(step: string, run: StepRun)
    requires run.end.Exited?
    ensures Uploaded(StepTail(step, run)) == if run.end.success then run.uploads else []
  {
    hide Uploaded;
    var success := run.end.success;
    var mark := [Remark(step, Exit(run.end.code, success))];
    var outcome := [StepIs(step, if success then Passed else Broken)];
    var uploads := if success then Uploads(step, run.uploads) else [];
    NoneUploaded(mark);
    NoneUploaded(outcome);
    NoneUploaded([]);
    AllUploaded(step, run.uploads);
    UploadedConcat(mark, uploads);
    UploadedConcat(mark + uploads, outcome);
  }

  // ---- The commit ----

  /** The commit's status is set if the job came with a token, and it is the run's. */
  lemma {:induction false} CommitFollowsRun(provider: Provider, pf: PipelineFile, job: Job, runs: seq<StepRun>)
    requires |runs| == |pf.steps|
    ensures var r := RunSteps(provider, pf, job, runs);
      && (forall success :: CommitIs(success) in r.posts <==> job.hasToken && r.result == Ok(success))
      && (forall status :: RunIs(status) in r.posts <==>
            (r.result == Ok(true) && status == Succeeded) || (r.result == Ok(false) && status == Failed))
  {
    var c := Preflight(provider, pf, job.branch, |pf.steps|);
    hide Preflight, Loop;
    if c.failed.None? {
      LoopNoVerdict(provider, pf, job, runs, c.state, |pf.steps|);
    }
  }

  // ---- Caches ----

  /** The state of the caches is posted once they are attached, before all that steps post, and at no other time. */
  lemma {:induction false} CachesAreTold(prepared: Result<(), Bytes>, parsed: Result<PipelineFile, Bytes>,
                                         attached: Result<seq<bool>, Bytes>, provider: Provider, job: Job,
                                         runs: seq<StepRun>, steps: Report)
    requires parsed.Ok? ==> |runs| == |parsed.value.steps| && steps == RunSteps(provider, parsed.value, job, runs)
    ensures var posts := RunReport(prepared, RunPipeline(parsed, attached, steps)).posts;
      var told := prepared.Ok? && parsed.Ok? && parsed.value.cache != [] && attached.Ok?;
      && (prepared.Ok? ==> posts[0] == Remark("agent", Prepared))
      && (told ==> |posts| > 1 && posts[1] == Remark("agent", CacheStates(attached.value)))
      && (told ==> posts[2..] == steps.posts + ErrorPosts(steps.result))
      && (forall step, states :: Remark(step, CacheStates(states)) in posts ==> told && states == attached.value)
  {
    if parsed.Ok? {
      NoStatesInSteps(provider, parsed.value, job, runs);
    }
    hide RunSteps;
    if prepared.Ok? && parsed.Ok? && parsed.value.cache != [] && attached.Ok? {
      var posts := RunReport(prepared, RunPipeline(parsed, attached, steps)).posts;
      assert posts == [Remark("agent", Prepared), Remark("agent", CacheStates(attached.value))]
                      + (steps.posts + ErrorPosts(steps.result));
    }
  }

  ghost predicate NoStates(posts: seq<Message>) {
    forall m :: m in posts ==> !(m.Remark? && m.note.CacheStates?)
  }

  lemma {:induction false} NoStatesInSteps(provider: Provider, pf: PipelineFile, job: Job, runs: seq<StepRun>)
    requires |runs| == |pf.steps|
    ensures NoStates(RunSteps(provider, pf, job, runs).posts)
  {
    var c := Preflight(provider, pf, job.branch, |pf.steps|);
    hide Preflight, Loop;
    if c.failed.None? {
      NoStatesInLoop(provider, pf, job, runs, c.state, |pf.steps|);
    }
  }

  lemma {:induction false} NoStatesInLoop(provider: Provider, pf: PipelineFile, job: Job, runs: seq<StepRun>,
                                          s: Resolver, n: nat)
    requires n <= |pf.steps| == |runs| && [] !in s.values
    ensures NoStates(Loop(provider, pf, job, runs, s, n).posts)
  {
    hide Advance;
    if n > 0 {
      NoStatesInLoop(provider, pf, job, runs, s, n - 1);
      var before := Loop(provider, pf, job, runs, s, n - 1);
      if before.stop == Going {
        AdvancePosts(provider, pf, job, before, n - 1, runs[n - 1]);
      }
    }
  }

  // ---- Steps that start ----

  /** The steps said to be in progress, in order. */
  function Started(posts: seq<Message>): seq<string> {
    if posts == [] then [] else
    var m := posts[|posts| - 1];
    Started(posts[..|posts| - 1]) + if m.StepIs? && m.status == InProgress then [m.step] else []
  }

  lemma {:induction false} StartedConcat(a: seq<Message>, b: seq<Message>)
    ensures Started(a + b) == Started(a) + Started(b)
  {
    if b == [] {
      assert a + b == a;
    } else {
      var n := |b| - 1;
      StartedConcat(a, b[..n]);
      assert (a + b)[..|a + b| - 1] == a + b[..n];
    }
  }

  lemma {:induction false} NoneStarted(posts: seq<Message>)
    requires forall m :: m in posts ==> !(m.StepIs? && m.status == InProgress)
    ensures Started(posts) == []
  {
    if posts != [] {
      NoneStarted(posts[..|posts| - 1]);
    }
  }

  function NamesOf(given: seq<Given>): seq<string> {
    seq(|given|, i requires 0 <= i < |given| => given[i].step)
  }

  lemma {:induction false} StepStarts(step: string, run: StepRun, values: seq<Bytes>)
    requires [] !in values
    ensures Started(StepPosts(step, run, values)) == [step]
    ensures NoStates(StepPosts(step, run, values))
  {
    OneStarts(step);
    hide Started;
    var start, outs, tail := [StepIs(step, InProgress)], Outputs(step, run.batches, values), StepTail(step, run);
    NoneStarted(outs);
    NoneStarted(tail);
    hide Outputs, StepTail;
    StartedConcat(start, outs);
    StartedConcat(start + outs, tail);
  }

  lemma OneStarts(step: string)
    ensures Started([StepIs(step, InProgress)]) == [step]
  {
    assert [StepIs(step, InProgress)][..0] == [];
  }

  /** One round of the loop posts no states of caches. */
  lemma {:induction false} AdvancePosts(provider: Provider, pf: PipelineFile, job: Job, p: Progress, i: nat,
                                        run: StepRun)
    requires i < |pf.steps| && [] !in p.state.values && NoStates(p.posts)
    ensures NoStates(Advance(provider, pf, job, p, i, run).posts)
  {
    var step := pf.steps[i];
    hide StepPosts, EnvFor, Wanted, SkippedByBranch;
    if !SkippedByBranch(step, job.branch) {
      var wanted := Wanted(pf, i, job.branch);
      var state := if wanted.Some? then LoadFrom(provider, p.state, wanted.value).state else p.state;
      hide LoadFrom;
      StepStarts(step.name, run, state.values);
    }
  }

  /** A round of the loop first says that its step starts, even if its secrets cannot be had; or that it is skipped. */
  lemma AdvanceSaysFirst(provider: Provider, pf: PipelineFile, job: Job, p: Progress, i: nat, run: StepRun)
    requires i < |pf.steps| && [] !in p.state.values
    ensures var step, q := pf.steps[i], Advance(provider, pf, job, p, i, run);
      var starts := !SkippedByBranch(step, job.branch);
      && p.posts + [StepIs(step.name, if starts then InProgress else Skipped)] <= q.posts
      && (!starts ==> q == p.(posts := p.posts + [StepIs(step.name, Skipped)]))
      && (starts && q.given == p.given ==>
            q.stop.Breaking? && q.posts == p.posts + [StepIs(step.name, InProgress)])
  {
    var step := pf.steps[i];
    hide StepTail, Outputs, EnvFor, LoadFrom, Wanted;
    if !SkippedByBranch(step, job.branch) {
      var q := Advance(provider, pf, job, p, i, run);
      assert q.posts[|p.posts|] == StepIs(step.name, InProgress);
    }
  }

  /** A skipped step starts nothing, any other starts itself. */
  lemma {:induction false} AdvanceStarts(provider: Provider, pf: PipelineFile, job: Job, p: Progress, i: nat,
                                         run: StepRun)
    requires i < |pf.steps| && Covers(p.state, pf, job.branch) && Started(p.posts) == NamesOf(p.given)
    ensures var q := Advance(provider, pf, job, p, i, run); Started(q.posts) == NamesOf(q.given)
  {
    var step, q := pf.steps[i], Advance(provider, pf, job, p, i, run);
    hide StepPosts, EnvFor, Started, SkippedByBranch;
    if SkippedByBranch(step, job.branch) {
      NoneStarted([StepIs(step.name, Skipped)]);
      StartedConcat(p.posts, [StepIs(step.name, Skipped)]);
    } else {
      StepStarts(step.name, run, p.state.values);
      StartedConcat(p.posts, StepPosts(step.name, run, p.state.values));
      assert q.given == p.given + [q.given[|p.given|]] && q.given[|p.given|].step == step.name;
      hide Advance;
      assert NamesOf(q.given) == NamesOf(p.given) + [step.name];
    }
  }

  /** After a successful preflight, the steps said to start are those that were handed something, in this order. */
  lemma {:induction false} StartedAreHanded(provider: Provider, pf: PipelineFile, job: Job, runs: seq<StepRun>,
                                            s: Resolver, n: nat)
    requires n <= |pf.steps| == |runs| && Covers(s, pf, job.branch)
    ensures var p := Loop(provider, pf, job, runs, s, n); Started(p.posts) == NamesOf(p.given)
  {
    hide Advance, Started;
    if n == 0 {
      NoneStarted([]);
    } else {
      StartedAreHanded(provider, pf, job, runs, s, n - 1);
      LoopKeeps(provider, pf, job, runs, s, n - 1);
      AdvanceStarts(provider, pf, job, Loop(provider, pf, job, runs, s, n - 1), n - 1, runs[n - 1]);
    }
  }
}
