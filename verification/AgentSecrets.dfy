/** Which configurations a run asks for, and which secrets its steps are handed. */
module AgentSecrets {
  import opened Outcomes
  import opened Masking
  import opened Pipeline
  import opened Secrets
  import opened Agent

  /** No filter of the step names another branch. */
  ghost predicate RunsOn(step: Step, branch: string) {
    forall b :: step.only == Some(Only(Some(b))) ==> b == branch
  }

  /** The step names the configuration, or names none and the run's branch is mapped to it. */
  ghost predicate AsksFor(pf: PipelineFile, step: Step, branch: string, configuration: string) {
    && pf.secrets.Some?
    && (|| step.secrets == Some(configuration)
        || (step.secrets == None && (branch, configuration) in pf.secrets.value.configurations.Items))
  }

  /** What the run wants for a step: nothing if it is skipped, else what the step asks for. */
  lemma WantedExactly(pf: PipelineFile, i: nat, branch: string, configuration: string)
    requires i < |pf.steps|
    ensures SkippedByBranch(pf.steps[i], branch) <==> !RunsOn(pf.steps[i], branch)
    ensures Wanted(pf, i, branch) == Some(configuration) <==>
      RunsOn(pf.steps[i], branch) && AsksFor(pf, pf.steps[i], branch, configuration)
  {
    var step := pf.steps[i];
    if step.only.Some? && step.only.value.branch.Some? {
      assert step.only == Some(Only(Some(step.only.value.branch.value)));
    }
  }

  /** In an accepted file what a step names is wanted whenever the step runs; no name is passed over. */
  lemma AcceptedIsWanted(pf: PipelineFile, i: nat, branch: string)
    requires Valid(pf) && i < |pf.steps| && RunsOn(pf.steps[i], branch) && pf.steps[i].secrets.Some?
    ensures Wanted(pf, i, branch) == pf.steps[i].secrets
  {
    assert ValidStep(pf, pf.steps[i]);
    WantedExactly(pf, i, branch, pf.steps[i].secrets.value);
  }

  // ---- Calls to the provider ----

  /** Every configuration asked for is one that some step that runs asks for. */
  ghost predicate OnlyAskedFor(pf: PipelineFile, branch: string, s: Resolver) {
    forall k :: 0 <= k < |s.calls| ==> SomeoneAsks(pf, branch, s.calls[k].0)
  }

  ghost predicate SomeoneAsks(pf: PipelineFile, branch: string, configuration: string) {
    exists i :: 0 <= i < |pf.steps| && RunsOn(pf.steps[i], branch) && AsksFor(pf, pf.steps[i], branch, configuration)
  }

  /** Every configuration a step that runs asks for is there. */
  ghost predicate AllLoaded(pf: PipelineFile, branch: string, s: Resolver, n: nat)
    requires n <= |pf.steps|
  {
    forall i, configuration ::
      0 <= i < n && RunsOn(pf.steps[i], branch) && AsksFor(pf, pf.steps[i], branch, configuration) ==>
      configuration in s.cache
  }

  lemma {:induction false} PreflightAsks(provider: Provider, pf: PipelineFile, branch: string, n: nat)
    requires n <= |pf.steps|
    ensures var c := Preflight(provider, pf, branch, n);
      && Sound(c.state) && Answered(provider, c.state) && OnlyAskedFor(pf, branch, c.state)
      && (c.failed.None? ==> AllLoaded(pf, branch, c.state, n))
      && ((forall configuration :: !SomeoneAsks(pf, branch, configuration)) ==> c == Checked(FRESH, None))
  {
    hide Sound, Answered, OnlyAskedFor, AllLoaded, SomeoneAsks, CheckOne, LoadedUpTo;
    PreflightLoads(provider, pf, branch, n);
    if n == 0 {
      NothingAsked(provider, pf, branch);
    } else {
      PreflightAsks(provider, pf, branch, n - 1);
      PreflightLoads(provider, pf, branch, n - 1);
      var before := Preflight(provider, pf, branch, n - 1);
      if before.failed.None? {
        OneAsks(provider, pf, branch, n - 1, before.state);
      }
    }
  }

  lemma NothingAsked(provider: Provider, pf: PipelineFile, branch: string)
    ensures Answered(provider, FRESH) && OnlyAskedFor(pf, branch, FRESH) && AllLoaded(pf, branch, FRESH, 0)
  {
  }

  lemma {:induction false} OneAsks(provider: Provider, pf: PipelineFile, branch: string, i: nat, s: Resolver)
    requires i < |pf.steps| && Sound(s) && Answered(provider, s) && OnlyAskedFor(pf, branch, s)
    requires AllLoaded(pf, branch, s, i)
    ensures var c := CheckOne(provider, pf, branch, i, s);
      && Answered(provider, c.state) && OnlyAskedFor(pf, branch, c.state)
      && (c.failed.None? ==> AllLoaded(pf, branch, c.state, i + 1))
      && ((forall configuration :: !SomeoneAsks(pf, branch, configuration)) ==> c == Checked(s, None))
  {
    forall configuration
      ensures Wanted(pf, i, branch) == Some(configuration) <==>
        RunsOn(pf.steps[i], branch) && AsksFor(pf, pf.steps[i], branch, configuration)
    {
      WantedExactly(pf, i, branch, configuration);
    }
    var wanted := Wanted(pf, i, branch);
    hide RunsOn, AsksFor, Wanted, Sound, Answered;
    if wanted.Some? {
      LoadGives(provider, s, wanted.value);
      assert SomeoneAsks(pf, branch, wanted.value);
      LoadKeepsCache(provider, s, wanted.value);
    }
  }

  lemma LoadKeepsCache(provider: Provider, s: Resolver, configuration: string)
    ensures var t := LoadFrom(provider, s, configuration).state;
      && (forall c :: c in s.cache ==> c in t.cache)
      && (t.calls == s.calls || exists ok :: t.calls == s.calls + [(configuration, ok)])
  {
  }

  /**
   What a run asks the provider for: nothing but what a step that runs on its branch names, or, for one that names
   none, what the branch is mapped to. Then a branch without a mapping, whose steps name nothing, is never given
   secrets.
   */
  lemma {:induction false} RunAsks(provider: Provider, pf: PipelineFile, job: Job, runs: seq<StepRun>, n: nat)
    requires n <= |pf.steps| == |runs|
    requires Preflight(provider, pf, job.branch, |pf.steps|).failed.None?
    ensures var s := Loop(provider, pf, job, runs, Preflight(provider, pf, job.branch, |pf.steps|).state, n).state;
      && OnlyAskedFor(pf, job.branch, s) && AllLoaded(pf, job.branch, s, |pf.steps|)
      && ((forall configuration :: !SomeoneAsks(pf, job.branch, configuration)) ==> s.calls == [] && s.values == [])
  {
    LoopLoadsNothing(provider, pf, job, runs, n);
    PreflightAsks(provider, pf, job.branch, |pf.steps|);
  }

  // ---- Environments ----

  ghost predicate Names(pairs: Pairs, key: string) {
    exists i :: 0 <= i < |pairs| && pairs[i].0 == key
  }

  /** The last of `pairs` for the key gives it the value. */
  ghost predicate LastSets(pairs: Pairs, key: string, value: Bytes) {
    exists i :: 0 <= i < |pairs| && pairs[i] == (key, value) && forall j :: i < j < |pairs| ==> pairs[j].0 != key
  }

  lemma NamesNext(pairs: Pairs, key: string)
    requires pairs != []
    ensures var n := |pairs| - 1;
      Names(pairs, key) <==> Names(pairs[..n], key) || pairs[n].0 == key
  {
    var n := |pairs| - 1;
    if Names(pairs[..n], key) {
      var i :| 0 <= i < n && pairs[..n][i].0 == key;
      assert pairs[i].0 == key;
    }
    if i :| 0 <= i < |pairs| && pairs[i].0 == key && i < n {
      assert pairs[..n][i].0 == key;
    }
  }

  lemma LastSetsNext(pairs: Pairs, key: string, value: Bytes)
    requires pairs != []
    ensures var n := |pairs| - 1;
      && (pairs[n] == (key, value) ==> LastSets(pairs, key, value))
      && (pairs[n].0 != key && LastSets(pairs[..n], key, value) ==> LastSets(pairs, key, value))
  {
    var n := |pairs| - 1;
    if pairs[n].0 != key && LastSets(pairs[..n], key, value) {
      var rest := pairs[..n];
      var i :| 0 <= i < n && rest[i] == (key, value) && forall j :: i < j < n ==> rest[j].0 != key;
      assert pairs[i] == rest[i];
      forall j | i < j < |pairs| ensures pairs[j].0 != key {
        assert j < n ==> pairs[j] == rest[j];
      }
    }
  }

  lemma {:induction false} OverlayMeans(env: Env, pairs: Pairs, key: string)
    ensures var merged := Overlay(env, pairs);
      if Names(pairs, key) then key in merged && LastSets(pairs, key, merged[key])
      else (key in merged <==> key in env) && (key in env ==> merged[key] == env[key])
  {
    if pairs != [] {
      OverlayMeans(env, pairs[..|pairs| - 1], key);
      NamesNext(pairs, key);
      var merged := Overlay(env, pairs);
      hide Names, LastSets;
      if key in merged {
        LastSetsNext(pairs, key, merged[key]);
      }
    }
  }

  /** Precedence: what the step itself says, then the secrets, then what the file says. */
  ghost predicate Ranks(pf: PipelineFile, step: Step, secrets: Pairs, env: Env, key: string) {
    && (key in env <==> Names(step.env, key) || Names(secrets, key) || Names(pf.env, key))
    && (key in env ==>
          LastSets(if Names(step.env, key) then step.env else if Names(secrets, key) then secrets else pf.env,
                   key, env[key]))
  }

  lemma EnvRanks(pf: PipelineFile, step: Step, secrets: Pairs, key: string)
    ensures Ranks(pf, step, secrets, EnvFor(pf, step, secrets), key)
  {
    var base := Overlay(map[], pf.env);
    hide Overlay, Names, LastSets;
    OverlayMeans(map[], pf.env, key);
    OverlayMeans(base, secrets, key);
    OverlayMeans(Overlay(base, secrets), step.env, key);
  }

  // ---- What the steps are handed ----

  /**
   Step `i` was started with its own script and with an environment in which the pairs rank between the file's and
   its own; they are the provider's answer for the configuration the step asks for, or none if it asks for none.
   */
  ghost predicate HandedTo(provider: Provider, pf: PipelineFile, branch: string, s: Resolver, i: nat, g: Given) {
    && i < |pf.steps| && RunsOn(pf.steps[i], branch)
    && var step := pf.steps[i];
    && g.step == step.name
    && (step.run.Some? ==> g.script == step.run.value && !g.onHost)
    && (step.run.None? && step.exec.Some? ==> g.script == step.exec.value && g.onHost)
    && exists secrets :: FromProvider(provider, pf, branch, s, step, secrets)
         && forall key :: Ranks(pf, step, secrets, g.env, key)
  }

  ghost predicate FromProvider(provider: Provider, pf: PipelineFile, branch: string, s: Resolver, step: Step,
                               secrets: Pairs) {
    || (secrets == [] && forall configuration :: !AsksFor(pf, step, branch, configuration))
    || exists configuration, k: nat ::
         AsksFor(pf, step, branch, configuration) && GivenBy(provider, s, k, configuration, secrets)
  }

  /** After a successful preflight, every step that was started was handed just that. */
  lemma {:induction false} StepsAreHanded(provider: Provider, pf: PipelineFile, job: Job, runs: seq<StepRun>,
                                          s: Resolver, n: nat, g: Given)
    requires n <= |pf.steps| == |runs| && Covers(s, pf, job.branch) && Sound(s) && Answered(provider, s)
    requires AllLoaded(pf, job.branch, s, |pf.steps|)
    requires g in Loop(provider, pf, job, runs, s, n).given
    ensures exists i: nat :: i < n && HandedTo(provider, pf, job.branch, s, i, g)
  {
    hide Advance, HandedTo, Sound, Answered, AllLoaded;
    if n > 0 {
      var before := Loop(provider, pf, job, runs, s, n - 1);
      LoopKeeps(provider, pf, job, runs, s, n - 1);
      if g in before.given {
        StepsAreHanded(provider, pf, job, runs, s, n - 1, g);
      } else {
        AdvanceHands(provider, pf, job, before, n - 1, runs[n - 1], g);
      }
    }
  }

  lemma {:induction false} AdvanceHands(provider: Provider, pf: PipelineFile, job: Job, p: Progress, i: nat,
                                        run: StepRun, g: Given)
    requires i < |pf.steps| && Covers(p.state, pf, job.branch) && Sound(p.state) && Answered(provider, p.state)
    requires AllLoaded(pf, job.branch, p.state, |pf.steps|)
    requires g in Advance(provider, pf, job, p, i, run).given && g !in p.given
    ensures HandedTo(provider, pf, job.branch, p.state, i, g)
  {
    var step, s := pf.steps[i], p.state;
    forall configuration
      ensures Wanted(pf, i, job.branch) == Some(configuration) <==>
        RunsOn(step, job.branch) && AsksFor(pf, step, job.branch, configuration)
      ensures SkippedByBranch(step, job.branch) <==> !RunsOn(step, job.branch)
    {
      WantedExactly(pf, i, job.branch, configuration);
    }
    WantedExactly(pf, i, job.branch, "");
    var wanted := Wanted(pf, i, job.branch);
    hide RunsOn, AsksFor, Wanted, Sound, Answered, SkippedByBranch, Ranks, EnvFor;
    var secrets: Pairs := if wanted.Some? then LoadFrom(provider, s, wanted.value).result.value else [];
    if wanted.Some? {
      LoadGives(provider, s, wanted.value);
    }
    assert g == GivenTo(pf, step, secrets);
    forall key ensures Ranks(pf, step, secrets, g.env, key) {
      EnvRanks(pf, step, secrets, key);
    }
    assert FromProvider(provider, pf, job.branch, s, step, secrets);
  }

  /** So of a whole run. */
  lemma {:induction false} RunIsHanded(provider: Provider, pf: PipelineFile, job: Job, runs: seq<StepRun>, g: Given)
    requires |runs| == |pf.steps| && g in StepsGiven(provider, pf, job, runs)
    ensures var s := Preflight(provider, pf, job.branch, |pf.steps|).state;
      exists i: nat :: HandedTo(provider, pf, job.branch, s, i, g)
  {
    hide HandedTo, AllLoaded, Sound, Answered;
    PreflightLoads(provider, pf, job.branch, |pf.steps|);
    PreflightAsks(provider, pf, job.branch, |pf.steps|);
    var s := Preflight(provider, pf, job.branch, |pf.steps|).state;
    StepsAreHanded(provider, pf, job, runs, s, |pf.steps|, g);
  }
}
