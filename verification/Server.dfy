/**
 The server's run table with one agent working for it. Its handlers check nothing: they write what they
 are told. That every run nevertheless goes forward, is claimed once and keeps its terminal status is a
 property of the system as a whole: of the claim, of the order in which the agent posts, and of what its
 report can be.
 */
module Server {
  import opened Outcomes
  import opened Model
  import opened Agent
  import opened Masking
  import opened Pipeline
  import opened Secrets
  import opened Artifacts

  datatype RunRow = RunRow(id: string, created: nat, status: RunStatus)

  type Table = seq<RunRow>

  /** `UPDATE runs SET status = ? WHERE id = ?`: no guard on the old status. */
  function SetStatus(t: Table, id: string, status: RunStatus): (r: Table)
    ensures |r| == |t|
    ensures forall i :: 0 <= i < |t| ==> r[i] == if t[i].id == id then t[i].(status := status) else t[i]
  {
    seq(|t|, i requires 0 <= i < |t| => if t[i].id == id then t[i].(status := status) else t[i])
  }

  /** What `ORDER BY created_at LIMIT 1` over the queued runs may return. */
  predicate OldestQueued(t: Table, i: nat) {
    && i < |t| && t[i].status == Queued
    && forall j :: 0 <= j < |t| && t[j].status == Queued ==> t[i].created <= t[j].created
  }

  ghost predicate DistinctIds(t: Table) {
    forall i, j :: 0 <= i < j < |t| ==> t[i].id != t[j].id
  }

  class RunTable {
    var rows: Table
    var steps: StepTable

    constructor ()
      ensures rows == [] && steps == map[]
    {
      rows, steps := [], map[];
    }

    /** Takes an oldest queued run, if there is one, and marks it running. */
    method ClaimNextJob() returns (claimed: Option<string>)
      modifies this
      ensures claimed.None? ==> rows == old(rows) && forall i :: 0 <= i < |rows| ==> rows[i].status != Queued
      ensures claimed.Some? ==> exists i: nat :: OldestQueued(old(rows), i) && old(rows)[i].id == claimed.value
      ensures claimed.Some? ==> rows == SetStatus(old(rows), claimed.value, Running)
    {
      var best: nat := |rows|;
      for i := 0 to |rows|
        invariant best <= |rows| && (best < |rows| ==> best < i && rows[best].status == Queued)
        invariant best == |rows| ==> forall j :: 0 <= j < i ==> rows[j].status != Queued
        invariant best < |rows| ==>
          forall j :: 0 <= j < i && rows[j].status == Queued ==> rows[best].created <= rows[j].created
      {
        if rows[i].status == Queued && (best == |rows| || rows[i].created < rows[best].created) {
          best := i;
        }
      }
      if best == |rows| {
        return None;
      }
      assert OldestQueued(rows, best);
      var id := rows[best].id;
      rows := SetStatus(rows, id, Running);
      return Some(id);
    }

    /** `UPDATE steps`: a row that exists is written, none is inserted. */
    method UpdateStepStatus(id: string, step: string, status: StepStatus)
      modifies this`steps
      ensures steps.Keys == old(steps.Keys)
      ensures forall k :: k in steps ==> steps[k] == if k == (id, step) then status else old(steps)[k]
    {
      if (id, step) in steps {
        steps := steps[(id, step) := status];
      }
    }

    /**
     The status handler. Whatever it is told it writes: the step's status first, if there is one, then the run's,
     which is `running` with a step status. A terminal status sets off an eviction of artifacts.
     */
    method UpdateRunStatus(id: string, m: Message, artifacts: ArtifactStore, groups: seq<Group>, cutoff: int,
                           stuckDirs: set<string>, stuckRows: set<string>)
        returns (ghost evict: set<string>)
      requires m.RunIs? || m.StepIs?
      requires artifacts.Valid() && Grouped(artifacts.rows, groups)
      modifies this, artifacts
      ensures rows == Told(old(rows), id, m) && steps == StepsTold(old(steps), id, m)
      ensures steps.Keys == old(steps.Keys)
      ensures |rows| == |old(rows)| && forall i :: 0 <= i < |rows| ==>
        rows[i] == if old(rows)[i].id != id then old(rows)[i]
                   else old(rows)[i].(status := if m.RunIs? then m.run else Running)
      ensures forall k :: k in steps ==>
        steps[k] == if m.StepIs? && k == (id, m.step) then m.status else old(steps)[k]
      ensures artifacts.Valid()
      ensures m.RunIs? && m.run != Queued && m.run != Running ==>
        && Evicted(groups, cutoff, evict)
        && artifacts.rows == Without(old(artifacts.rows), evict - stuckRows)
        && artifacts.dirs == old(artifacts.dirs) - (evict - stuckDirs)
      ensures m.StepIs? || m.run == Queued || m.run == Running ==> unchanged(artifacts)
    {
      hide Evicted, Without, Grouped;
      var status := Running;
      if m.StepIs? {
        UpdateStepStatus(id, m.step, m.status);
      } else {
        status := m.run;
      }
      rows := SetStatus(rows, id, status);
      evict := {};
      if Terminal(status) {
        evict := artifacts.Evict(groups, cutoff, stuckDirs, stuckRows);
      }
    }
  }

  type StepTable = map<(string, string), StepStatus>

  /** The table after a post about run `id` arrived. */
  function Told(t: Table, id: string, m: Message): Table {
    match m
    case RunIs(status) => SetStatus(t, id, status)
    case StepIs(_, _) => SetStatus(t, id, Running)
    case _ => t
  }

  // ---- The system ----

  datatype Worker = Idle | Busy(id: string, todo: seq<Message>)

  /**
   Runs, step rows, the agent, the runs claimed so far, and for every run the statuses it has had.
   */
  datatype System = System(runs: Table, steps: StepTable, worker: Worker,
                           claims: seq<string>, past: map<string, seq<RunStatus>>)

  const EMPTY: System := System([], map[], Idle, [], map[])

  datatype Event =
    | Submit(id: string, now: nat)
    | Claim(row: nat, posts: seq<Message>)
    | Arrive
    | AgentDies

  predicate HasId(t: Table, id: string) {
    exists i :: 0 <= i < |t| && t[i].id == id
  }

  /** Ids are new, the clock does not go back, and a claimed run is reported the way the agent reports. */
  ghost predicate Enabled(s: System, e: Event) {
    match e
    case Submit(id, now) => !HasId(s.runs, id) && forall i :: 0 <= i < |s.runs| ==> s.runs[i].created <= now
    case Claim(row, posts) =>
      s.worker == Idle && OldestQueued(s.runs, row) && exists status :: Terminal(status) && OneVerdict(posts, status)
    case Arrive => s.worker.Busy? && s.worker.todo != []
    case AgentDies => s.worker.Busy?
  }

  /** The status is noted when it changes. */
  function Noted(past: map<string, seq<RunStatus>>, id: string, status: RunStatus): map<string, seq<RunStatus>> {
    var before := if id in past then past[id] else [];
    if before != [] && before[|before| - 1] == status then past else past[id := before + [status]]
  }

  function NotedPost(past: map<string, seq<RunStatus>>, id: string, m: Message): map<string, seq<RunStatus>> {
    match m
    case RunIs(status) => Noted(past, id, status)
    case StepIs(_, _) => Noted(past, id, Running)
    case _ => past
  }

  /** `UPDATE steps`: rows that exist are updated, none is inserted. */
  function StepsTold(steps: StepTable, id: string, m: Message): StepTable {
    if m.StepIs? && (id, m.step) in steps then steps[(id, m.step) := m.status] else steps
  }

  ghost function Next(s: System, e: Event): System
    requires Enabled(s, e)
  {
    match e
    case Submit(id, now) =>
      s.(runs := s.runs + [RunRow(id, now, Queued)], past := Noted(s.past, id, Queued))
    case Claim(row, posts) =>
      var id := s.runs[row].id;
      s.(runs := SetStatus(s.runs, id, Running), worker := Busy(id, posts), claims := s.claims + [id],
         past := Noted(s.past, id, Running))
    case Arrive =>
      var id, m, rest := s.worker.id, s.worker.todo[0], s.worker.todo[1..];
      s.(runs := Told(s.runs, id, m), steps := StepsTold(s.steps, id, m), past := NotedPost(s.past, id, m),
         worker := if rest == [] then Idle else Busy(id, rest))
    case AgentDies => s.(worker := Idle)
  }

  /** The statuses a run can have had. */
  predicate Lawful(past: seq<RunStatus>) {
    || past == [Queued]
    || past == [Queued, Running]
    || (|past| == 3 && past[..2] == [Queued, Running] && Terminal(past[2]))
  }

  ghost predicate RowOk(s: System, r: RunRow) {
    && r.id in s.past && Lawful(s.past[r.id]) && s.past[r.id][|s.past[r.id]| - 1] == r.status
    && (r.id in s.claims <==> r.status != Queued)
  }

  ghost predicate Reporting(status: RunStatus, todo: seq<Message>) {
    || (status == Running && exists v :: Terminal(v) && OneVerdict(todo, v))
    || (Terminal(status) && forall i :: 0 <= i < |todo| ==> todo[i].CommitIs?)
  }

  ghost predicate RowsOk(s: System) {
    && DistinctIds(s.runs)
    && (forall i :: 0 <= i < |s.runs| ==> RowOk(s, s.runs[i]))
    && (forall id :: id in s.past ==> HasId(s.runs, id))
  }

  ghost predicate ClaimsOk(s: System) {
    && (forall k :: 0 <= k < |s.claims| ==> HasId(s.runs, s.claims[k]))
    && (forall k, l :: 0 <= k < l < |s.claims| ==> s.claims[k] != s.claims[l])
  }

  /** Nothing that was claimed came after something that is still waiting. */
  ghost predicate OldestFirst(t: Table) {
    forall i, j :: 0 <= i < |t| && 0 <= j < |t| && t[i].status != Queued && t[j].status == Queued ==>
      t[i].created <= t[j].created
  }

  ghost predicate WorkerOk(s: System) {
    s.worker.Busy? ==>
      exists i :: 0 <= i < |s.runs| && s.runs[i].id == s.worker.id && Reporting(s.runs[i].status, s.worker.todo)
  }

  ghost predicate Inv(s: System) {
    RowsOk(s) && ClaimsOk(s) && OldestFirst(s.runs) && WorkerOk(s) && s.steps == map[]
  }

  lemma InvStart()
    ensures Inv(EMPTY)
  {
  }

  lemma SubmitKeepsRows(s: System, e: Event)
    requires RowsOk(s) && e.Submit? && Enabled(s, e) && e.id !in s.claims
    ensures RowsOk(Next(s, e))
  {
    var t := Next(s, e);
    assert e.id !in s.past;
    forall i | 0 <= i < |t.runs| ensures RowOk(t, t.runs[i]) {
      if i < |s.runs| {
        assert RowOk(s, s.runs[i]) && s.runs[i].id != e.id;
      }
    }
    MoreIds(s.runs, t.runs);
    assert t.runs[|s.runs|].id == e.id;
  }

  lemma MoreIds(t: Table, u: Table)
    requires t <= u
    ensures forall id :: HasId(t, id) ==> HasId(u, id)
  {
  }

  lemma SubmitInOrder(t: Table, row: RunRow)
    requires OldestFirst(t) && row.status == Queued && forall i :: 0 <= i < |t| ==> t[i].created <= row.created
    ensures OldestFirst(t + [row])
  {
  }

  lemma WorkerStaysOk(s: System, t: System)
    requires WorkerOk(s) && t.worker == s.worker && s.runs <= t.runs
    ensures WorkerOk(t)
  {
  }

  lemma ClaimsStayOk(s: System, t: System)
    requires ClaimsOk(s) && t.claims == s.claims && forall id :: HasId(s.runs, id) ==> HasId(t.runs, id)
    ensures ClaimsOk(t)
  {
  }

  lemma SubmitKeepsInv(s: System, e: Event)
    requires Inv(s) && e.Submit? && Enabled(s, e)
    ensures Inv(Next(s, e))
  {
    var t := Next(s, e);
    assert e.id !in s.claims;
    SubmitKeepsRows(s, e);
    MoreIds(s.runs, t.runs);
    ClaimsStayOk(s, t);
    SubmitInOrder(s.runs, RunRow(e.id, e.now, Queued));
    WorkerStaysOk(s, t);
  }

  lemma SameIds(t: Table, u: Table)
    requires |t| == |u| && forall i :: 0 <= i < |t| ==> t[i].id == u[i].id
    ensures forall id :: HasId(t, id) <==> HasId(u, id)
  {
  }

  /** Only the row of `id` is written. */
  ghost predicate Rewritten(t: Table, u: Table, id: string) {
    && |t| == |u|
    && forall i :: 0 <= i < |t| ==>
         u[i].id == t[i].id && u[i].created == t[i].created && (t[i].id != id ==> u[i] == t[i])
  }

  lemma OthersStayOk(s: System, t: System, id: string, w: nat)
    requires Inv(s) && w < |s.runs| && s.runs[w].id == id && Rewritten(s.runs, t.runs, id)
    requires forall x :: x != id ==> (x in t.past <==> x in s.past) && (x in s.past ==> t.past[x] == s.past[x])
    requires forall x :: x != id ==> (x in t.claims <==> x in s.claims)
    requires RowOk(t, t.runs[w]) && id in s.past
    ensures RowsOk(t)
  {
  }

  lemma ClaimKeepsRows(s: System, e: Event)
    requires Inv(s) && e.Claim? && Enabled(s, e)
    ensures RowsOk(Next(s, e)) && s.runs[e.row].id !in s.claims
  {
    var t := Next(s, e);
    var id := s.runs[e.row].id;
    assert RowOk(s, s.runs[e.row]);
    assert id !in s.claims && s.past[id] == [Queued];
    assert t.past[id] == [Queued, Running];
    assert id in t.claims by { assert t.claims[|s.claims|] == id; }
    OthersStayOk(s, t, id, e.row);
  }

  lemma ClaimKeepsInv(s: System, e: Event)
    requires Inv(s) && e.Claim? && Enabled(s, e)
    ensures Inv(Next(s, e))
  {
    hide RowsOk, OldestFirst;
    var t := Next(s, e);
    ClaimKeepsRows(s, e);
    ClaimsInOrder(s, e.row);
    SameIds(s.runs, t.runs);
    NewClaimOk(s, t, s.runs[e.row].id);
    assert t.runs[e.row].id == t.worker.id && Reporting(t.runs[e.row].status, t.worker.todo);
  }

  lemma NewClaimOk(s: System, t: System, id: string)
    requires ClaimsOk(s) && t.claims == s.claims + [id] && id !in s.claims && HasId(t.runs, id)
    requires forall x :: HasId(s.runs, x) ==> HasId(t.runs, x)
    ensures ClaimsOk(t)
  {
  }

  lemma ClaimsInOrder(s: System, row: nat)
    requires Inv(s) && OldestQueued(s.runs, row)
    ensures var u := SetStatus(s.runs, s.runs[row].id, Running);
      OldestFirst(u)
  {
  }

  /** What the next post does to a report under way. */
  lemma PostAdvances(status: RunStatus, todo: seq<Message>)
    requires Reporting(status, todo) && todo != []
    ensures var m := todo[0];
      match m
      case RunIs(v) => status == Running && Terminal(v) && Reporting(v, todo[1..])
      case StepIs(_, _) => status == Running && Reporting(Running, todo[1..])
      case _ => Reporting(status, todo[1..])
  {
    var rest := todo[1..];
    assert forall i :: 0 <= i < |rest| ==> rest[i] == todo[i + 1];
    if status == Running {
      var v :| Terminal(v) && OneVerdict(todo, v);
      var k :| 0 <= k < |todo| && todo[k] == RunIs(v) && NoVerdict(todo[..k])
               && forall j :: k < j < |todo| ==> todo[j].CommitIs?;
      if k > 0 {
        assert todo[..k][0] == todo[0] && todo[0] in todo[..k];
        assert rest[k - 1] == RunIs(v);
        assert rest[..k - 1] == todo[..k][1..];
        assert OneVerdict(rest, v);
      }
    }
  }

  lemma ArriveKeepsInv(s: System, e: Event)
    requires Inv(s) && e.Arrive? && Enabled(s, e)
    ensures Inv(Next(s, e))
  {
    hide RowsOk, OldestFirst;
    var t := Next(s, e);
    var w :| 0 <= w < |s.runs| && s.runs[w].id == s.worker.id && Reporting(s.runs[w].status, s.worker.todo);
    ArriveAtRow(s, w);
    SameIds(s.runs, t.runs);
    NoneGoesBack(s, t, w);
    if t.worker.Busy? {
      assert t.runs[w].id == t.worker.id && Reporting(t.runs[w].status, t.worker.todo);
    }
  }

  /** The row of the run being reported, when one more post about it arrives. */
  lemma ArriveAtRow(s: System, w: nat)
    requires Inv(s) && Enabled(s, Arrive)
    requires w < |s.runs| && s.runs[w].id == s.worker.id && Reporting(s.runs[w].status, s.worker.todo)
    ensures var t := Next(s, Arrive);
      && RowsOk(t) && Rewritten(s.runs, t.runs, s.worker.id)
      && s.runs[w].status != Queued && t.runs[w].status != Queued
      && Reporting(t.runs[w].status, s.worker.todo[1..])
  {
    var t := Next(s, Arrive);
    var id, m := s.worker.id, s.worker.todo[0];
    assert RowOk(s, s.runs[w]);
    PostAdvances(s.runs[w].status, s.worker.todo);
    OneMoreStatus(s.past, id, m, s.runs[w].status);
    OthersStayOk(s, t, id, w);
  }

  /** The row written was claimed before, and is not queued afterwards. */
  lemma NoneGoesBack(s: System, t: System, w: nat)
    requires Inv(s) && w < |s.runs| && Rewritten(s.runs, t.runs, s.runs[w].id)
    requires s.runs[w].status != Queued && t.runs[w].status != Queued
    ensures OldestFirst(t.runs)
  {
  }

  /** A lawful past stays lawful under a post the agent may make. */
  lemma OneMoreStatus(past: map<string, seq<RunStatus>>, id: string, m: Message, status: RunStatus)
    requires id in past && Lawful(past[id]) && past[id][|past[id]| - 1] == status
    requires m.RunIs? ==> status == Running && Terminal(m.run)
    requires m.StepIs? ==> status == Running
    ensures var p := NotedPost(past, id, m);
      var now := match m case RunIs(v) => v case StepIs(_, _) => Running case _ => status;
      id in p && Lawful(p[id]) && p[id][|p[id]| - 1] == now
  {
  }

  /** Whatever becomes of a run on the agent, its report is one the claim of that run allows for. */
  lemma {:induction false} ReportsAreClaimable(s: System, row: nat, prepared: Result<(), Bytes>,
                            parsed: Result<PipelineFile, Bytes>, attached: Result<seq<bool>, Bytes>,
                            provider: Provider, job: Job, runs: seq<StepRun>)
    requires s.worker == Idle && OldestQueued(s.runs, row) && (parsed.Ok? ==> |runs| == |parsed.value.steps|)
    ensures var steps := if parsed.Ok? then RunSteps(provider, parsed.value, job, runs) else Report([], Err([]));
      Enabled(s, Claim(row, RunReport(prepared, RunPipeline(parsed, attached, steps)).posts))
  {
    hide RunSteps, RunPipeline, RunReport, OneVerdict;
    ExactlyOneVerdict(prepared, parsed, attached, provider, job, runs);
    assert Terminal(Succeeded) && Terminal(Failed);
  }

  lemma NextKeepsInv(s: System, e: Event)
    requires Inv(s) && Enabled(s, e)
    ensures Inv(Next(s, e))
  {
    match e
    case Submit(_, _) => SubmitKeepsInv(s, e);
    case Claim(_, _) => ClaimKeepsInv(s, e);
    case Arrive => ArriveKeepsInv(s, e);
    case AgentDies =>
      var t := Next(s, e);
      forall i | 0 <= i < |t.runs| ensures RowOk(t, t.runs[i]) {
        assert RowOk(s, s.runs[i]);
      }
  }

  ghost predicate Behaviour(states: seq<System>, events: seq<Event>) {
    && |states| == |events| + 1 && states[0] == EMPTY
    && forall i :: 0 <= i < |events| ==> Enabled(states[i], events[i]) && states[i + 1] == Next(states[i], events[i])
  }

  lemma {:induction false} BehaviourKeepsInv(states: seq<System>, events: seq<Event>, n: nat)
    requires Behaviour(states, events) && n < |states|
    ensures Inv(states[n])
  {
    if n == 0 {
      InvStart();
    } else {
      BehaviourKeepsInv(states, events, n - 1);
      NextKeepsInv(states[n - 1], events[n - 1]);
    }
  }

  /**
   Over every behaviour: each run goes queued, then running, then at most one terminal status, no run is
   claimed twice, and whatever was claimed was submitted no later than anything still waiting. No step ever
   has a row.
   */
  lemma RunsGoForward(states: seq<System>, events: seq<Event>, n: nat, i: nat)
    requires Behaviour(states, events) && n < |states| && i < |states[n].runs|
    ensures var s := states[n];
      && s.runs[i].id in s.past && Lawful(s.past[s.runs[i].id])
      && s.past[s.runs[i].id][|s.past[s.runs[i].id]| - 1] == s.runs[i].status
      && (forall k, l :: 0 <= k < l < |s.claims| ==> s.claims[k] != s.claims[l])
      && (s.runs[i].status == Queued ==>
            forall j :: 0 <= j < |s.runs| && s.runs[j].status != Queued ==> s.runs[j].created <= s.runs[i].created)
      && s.steps == map[]
  {
    BehaviourKeepsInv(states, events, n);
    assert RowOk(states[n], states[n].runs[i]);
  }

  lemma StepKeepsTerminal(s: System, e: Event, i: nat)
    requires Inv(s) && Enabled(s, e) && i < |s.runs| && Terminal(s.runs[i].status)
    ensures i < |Next(s, e).runs| && Next(s, e).runs[i] == s.runs[i]
  {
  }

  /** A terminal status is final. */
  lemma {:induction false} TerminalIsFinal(states: seq<System>, events: seq<Event>, m: nat, n: nat, i: nat)
    requires Behaviour(states, events) && m <= n < |states|
    requires i < |states[m].runs| && Terminal(states[m].runs[i].status)
    ensures i < |states[n].runs| && states[n].runs[i] == states[m].runs[i]
  {
    hide Inv, Next, Enabled;
    if m < n {
      TerminalIsFinal(states, events, m, n - 1, i);
      BehaviourKeepsInv(states, events, n - 1);
      StepKeepsTerminal(states[n - 1], events[n - 1], i);
    }
  }
}
