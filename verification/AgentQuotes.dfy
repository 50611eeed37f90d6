/** What the agent posts besides step output: no mask is laid over it, and one text in it comes from elsewhere. */
module AgentQuotes {
  import opened Outcomes
  import opened Masking
  import opened Model
  import opened Pipeline
  import opened Secrets
  import opened Agent

  /** The error a post repeats word by word. */
  function Quoted(m: Message): Option<Bytes> {
    match m
    case Remark(_, NoSecrets(e)) => Some(e)
    case Remark(_, ExecutorFailed(e)) => Some(e)
    case Remark(_, RunError(e)) => Some(e)
    case _ => None
  }

  function AsList(o: Option<Bytes>): seq<Bytes> {
    if o.None? then [] else [o.value]
  }

  /** All errors repeated in `posts`, in order. */
  function Quotes(posts: seq<Message>): seq<Bytes> {
    if posts == [] then [] else Quotes(posts[..|posts| - 1]) + AsList(Quoted(posts[|posts| - 1]))
  }

  lemma {:induction false} QuotesConcat(a: seq<Message>, b: seq<Message>)
    ensures Quotes(a + b) == Quotes(a) + Quotes(b)
  {
    if b == [] {
      assert a + b == a;
    } else {
      var n := |b| - 1;
      QuotesConcat(a, b[..n]);
      assert (a + b)[..|a + b| - 1] == a + b[..n];
    }
  }

  lemma {:induction false} NoQuotes(posts: seq<Message>)
    requires forall m :: m in posts ==> Quoted(m) == None
    ensures Quotes(posts) == []
  {
    if posts != [] {
      NoQuotes(posts[..|posts| - 1]);
    }
  }

  lemma OneQuote(m: Message)
    ensures Quotes([m]) == AsList(Quoted(m))
  {
    assert [m][..0] == [];
  }

  /** The step among the first `n` that ended the run: the first that was not skipped and did not pass. */
  function Culprit(pf: PipelineFile, branch: string, runs: seq<StepRun>, n: nat): (k: Option<nat>)
    requires n <= |pf.steps| == |runs|
    ensures k.Some? ==> k.value < n && !SkippedByBranch(pf.steps[k.value], branch) && StopOf(runs[k.value]) != Going
    ensures forall i :: 0 <= i < (if k.Some? then k.value else n) ==>
      SkippedByBranch(pf.steps[i], branch) || StopOf(runs[i]) == Going
  {
    if n == 0 then None else
    var before := Culprit(pf, branch, runs, n - 1);
    if before.Some? then before
    else if SkippedByBranch(pf.steps[n - 1], branch) || StopOf(runs[n - 1]) == Going then None
    else Some(n - 1)
  }

  /** The error with which a step did not run, or got lost. */
  function ErrorOf(run: StepRun): Option<Bytes> {
    match run.end
    case Exited(_, _) => None
    case NotExecuted(e) => Some(e)
    case Lost(e) => Some(e)
  }

  /** The error a run ended with, if it was not the exit of a step that ended it. */
  function Complaint(prepared: Result<(), Bytes>, parsed: Result<PipelineFile, Bytes>,
                     attached: Result<seq<bool>, Bytes>, provider: Provider, job: Job, runs: seq<StepRun>)
      : Option<Bytes>
    requires parsed.Ok? ==> |runs| == |parsed.value.steps|
  {
    if prepared.Err? then Some(prepared.error)
    else if parsed.Err? then Some(parsed.error)
    else if parsed.value.cache != [] && attached.Err? then Some(attached.error)
    else StepsComplaint(provider, parsed.value, job, runs)
  }

  /** The same for preflight and steps alone: the provider's error, or that of the step that ended the run. */
  function StepsComplaint(provider: Provider, pf: PipelineFile, job: Job, runs: seq<StepRun>): Option<Bytes>
    requires |runs| == |pf.steps|
  {
    var c, k := Preflight(provider, pf, job.branch, |runs|), Culprit(pf, job.branch, runs, |runs|);
    if c.failed.Some? then Some(c.failed.value.1)
    else if k.Some? then ErrorOf(runs[k.value])
    else None
  }

  // ---- The steps ----

  /** What a step quotes itself; that it got lost is told by the caller. */
  function StepQuote(run: StepRun): Option<Bytes> {
    if run.end.NotExecuted? then Some(run.end.error) else None
  }

  lemma {:induction false} StepQuotes(step: string, run: StepRun, values: seq<Bytes>)
    requires [] !in values
    ensures Quotes(StepPosts(step, run, values)) == AsList(StepQuote(run))
  {
    hide Quotes;
    var start, outs := [StepIs(step, InProgress)], Outputs(step, run.batches, values);
    NoQuotes(start);
    NoQuotes(outs);
    QuotesConcat(start, outs);
    TailQuotes(step, run);
    hide Outputs, StepTail;
    QuotesConcat(start + outs, StepTail(step, run));
  }

  lemma {:induction false} TailQuotes(step: string, run: StepRun)
    ensures Quotes(StepTail(step, run)) == AsList(StepQuote(run))
  {
    hide Quotes;
    var tail := StepTail(step, run);
    if run.end.NotExecuted? {
      var e := run.end.error;
      QuotesConcat([Remark(step, ExecutorFailed(e))], [StepIs(step, Broken)]);
      OneQuote(Remark(step, ExecutorFailed(e)));
      NoQuotes([StepIs(step, Broken)]);
      assert tail == [Remark(step, ExecutorFailed(e))] + [StepIs(step, Broken)];
    } else {
      NoQuotes(tail);
    }
  }

  lemma {:induction false} LoopQuotes(provider: Provider, pf: PipelineFile, job: Job, runs: seq<StepRun>, s: Resolver,
                                      n: nat)
    requires n <= |pf.steps| == |runs| && Covers(s, pf, job.branch)
    ensures var p, k := Loop(provider, pf, job, runs, s, n), Culprit(pf, job.branch, runs, n);
      if k.None? then p.stop == Going && Quotes(p.posts) == []
      else p.stop == StopOf(runs[k.value]) && Quotes(p.posts) == AsList(StepQuote(runs[k.value]))
  {
    hide Advance, Quotes;
    if n > 0 {
      LoopQuotes(provider, pf, job, runs, s, n - 1);
      LoopKeeps(provider, pf, job, runs, s, n - 1);
      var before := Loop(provider, pf, job, runs, s, n - 1);
      if before.stop == Going {
        AdvanceQuotes(provider, pf, job, before, n - 1, runs[n - 1]);
      }
    } else {
      NoQuotes([]);
    }
  }

  lemma {:induction false} AdvanceQuotes(provider: Provider, pf: PipelineFile, job: Job, p: Progress, i: nat,
                                         run: StepRun)
    requires i < |pf.steps| && Covers(p.state, pf, job.branch) && p.stop == Going && Quotes(p.posts) == []
    ensures var q := Advance(provider, pf, job, p, i, run);
      if SkippedByBranch(pf.steps[i], job.branch) then q.stop == Going && Quotes(q.posts) == []
      else q.stop == StopOf(run) && Quotes(q.posts) == AsList(StepQuote(run))
  {
    var step := pf.steps[i].name;
    if SkippedByBranch(pf.steps[i], job.branch) {
      QuotesConcat(p.posts, [StepIs(step, Skipped)]);
      NoQuotes([StepIs(step, Skipped)]);
    } else {
      StepQuotes(step, run, p.state.values);
      QuotesConcat(p.posts, StepPosts(step, run, p.state.values));
    }
  }

  function Failure(result: Result<bool, Bytes>): Option<Bytes> {
    if result.Err? then Some(result.error) else None
  }

  /** What preflight and steps quote, and the error they leave to the caller. */
  lemma {:induction false} StepsQuote(provider: Provider, pf: PipelineFile, job: Job, runs: seq<StepRun>)
    requires |runs| == |pf.steps|
    ensures var r := RunSteps(provider, pf, job, runs);
      Quotes(r.posts) + AsList(Failure(r.result)) == AsList(StepsComplaint(provider, pf, job, runs))
  {
    hide Quotes, Preflight, Culprit, Loop;
    var c := Preflight(provider, pf, job.branch, |pf.steps|);
    if c.failed.Some? {
      var name, e := pf.steps[c.failed.value.0].name, c.failed.value.1;
      NoSecretsQuote(name, e);
      QuotesConcat(NoSecretsPosts(name, e), Verdict(job, false));
      NoQuotes(Verdict(job, false));
    } else {
      PreflightLoads(provider, pf, job.branch, |pf.steps|);
      LoopQuotes(provider, pf, job, runs, c.state, |pf.steps|);
      var p := Loop(provider, pf, job, runs, c.state, |pf.steps|);
      QuotesConcat(p.posts, Verdict(job, p.stop == Going));
      NoQuotes(Verdict(job, p.stop == Going));
    }
  }

  lemma NoSecretsQuote(step: string, e: Bytes)
    ensures Quotes(NoSecretsPosts(step, e)) == [e]
  {
    var a, b, c := [StepIs(step, InProgress)], [Remark(step, NoSecrets(e))], [StepIs(step, Broken)];
    assert NoSecretsPosts(step, e) == a + b + c;
    QuotesConcat(a, b);
    QuotesConcat(a + b, c);
    NoQuotes(a);
    NoQuotes(c);
    OneQuote(b[0]);
  }

  // ---- The whole run ----

  /**
   Outside step output, a run's report repeats one text from elsewhere, the error the run ended with, or none if it
   ended by success or by the exit of a step.
   */
  lemma {:induction false} QuotesComplaint(prepared: Result<(), Bytes>, parsed: Result<PipelineFile, Bytes>,
                                           attached: Result<seq<bool>, Bytes>, provider: Provider, job: Job,
                                           runs: seq<StepRun>, steps: Report)
    requires parsed.Ok? ==> |runs| == |parsed.value.steps| && steps == RunSteps(provider, parsed.value, job, runs)
    ensures Quotes(RunReport(prepared, RunPipeline(parsed, attached, steps)).posts)
         == AsList(Complaint(prepared, parsed, attached, provider, job, runs))
  {
    hide Quotes, RunSteps, StepsComplaint;
    var q := RunPipeline(parsed, attached, steps);
    if prepared.Err? {
      ErrorQuotes(Err(prepared.error));
    } else {
      PipelineQuotes(parsed, attached, provider, job, runs, steps);
      NoQuotes([Remark("agent", Prepared)]);
      QuotesConcat([Remark("agent", Prepared)], q.posts);
      QuotesConcat([Remark("agent", Prepared)] + q.posts, ErrorPosts(q.result));
      ErrorQuotes(q.result);
    }
  }

  lemma ErrorQuotes(result: Result<bool, Bytes>)
    ensures Quotes(ErrorPosts(result)) == AsList(Failure(result))
  {
    hide Quotes;
    NoQuotes([]);
    if result.Err? {
      QuotesConcat([Remark("agent", RunError(result.error))], [RunIs(Failed)]);
      OneQuote(Remark("agent", RunError(result.error)));
      NoQuotes([RunIs(Failed)]);
      assert ErrorPosts(result) == [Remark("agent", RunError(result.error))] + [RunIs(Failed)];
    }
  }

  lemma PipelineQuotes(parsed: Result<PipelineFile, Bytes>, attached: Result<seq<bool>, Bytes>, provider: Provider,
                       job: Job, runs: seq<StepRun>, steps: Report)
    requires parsed.Ok? ==> |runs| == |parsed.value.steps| && steps == RunSteps(provider, parsed.value, job, runs)
    ensures var q := RunPipeline(parsed, attached, steps);
      Quotes(q.posts) + AsList(Failure(q.result)) == AsList(Complaint(Ok(()), parsed, attached, provider, job, runs))
  {
    hide Quotes, RunSteps, StepsComplaint;
    NoQuotes([]);
    if parsed.Ok? {
      StepsQuote(provider, parsed.value, job, runs);
      if parsed.value.cache != [] && attached.Ok? {
        QuotesConcat([Remark("agent", CacheStates(attached.value))], steps.posts);
        NoQuotes([Remark("agent", CacheStates(attached.value))]);
      }
    }
  }

  lemma {:induction false} InQuotes(posts: seq<Message>, e: Bytes)
    ensures e in Quotes(posts) <==> exists m :: m in posts && Quoted(m) == Some(e)
  {
    if posts != [] {
      var n := |posts| - 1;
      InQuotes(posts[..n], e);
      assert posts == posts[..n] + [posts[n]];
    }
  }

  /**
   So a secret is repeated outside step output exactly if it occurs in that error. No mask is laid over it, as the
   masker sees output only.
   */
  lemma {:induction false} SecretQuoted(prepared: Result<(), Bytes>, parsed: Result<PipelineFile, Bytes>,
                                        attached: Result<seq<bool>, Bytes>, provider: Provider, job: Job,
                                        runs: seq<StepRun>, steps: Report, secret: Bytes)
    requires parsed.Ok? ==> |runs| == |parsed.value.steps| && steps == RunSteps(provider, parsed.value, job, runs)
    ensures var posts := RunReport(prepared, RunPipeline(parsed, attached, steps)).posts;
      var complaint := Complaint(prepared, parsed, attached, provider, job, runs);
      (exists m :: m in posts && Quoted(m).Some? && Occurs(secret, Quoted(m).value)) <==>
        complaint.Some? && Occurs(secret, complaint.value)
  {
    QuotesComplaint(prepared, parsed, attached, provider, job, runs, steps);
    var posts := RunReport(prepared, RunPipeline(parsed, attached, steps)).posts;
    var complaint := Complaint(prepared, parsed, attached, provider, job, runs);
    hide Quotes, Complaint, RunReport, RunPipeline, Occurs;
    if m :| m in posts && Quoted(m).Some? && Occurs(secret, Quoted(m).value) {
      InQuotes(posts, Quoted(m).value);
    }
    if complaint.Some? {
      InQuotes(posts, complaint.value);
    }
  }
}
