/** The stored log and the live stream of one run's lines, under every interleaving with appends. */
module LogStream {
  import opened Outcomes
  import opened Masking
  import opened Model

  /** Ids are assigned by the table, ever increasing. */
  datatype LogRow = LogRow(id: nat, run: string, step: string, line: Bytes)

  ghost predicate Increasing(t: seq<LogRow>) {
    && (forall i :: 0 <= i < |t| ==> t[i].id > 0)
    && forall i, j :: 0 <= i < j < |t| ==> t[i].id < t[j].id
  }

  /** The rows of `run` with ids above `after`, in id order. */
  function LogsFrom(t: seq<LogRow>, run: string, after: nat): seq<LogRow> {
    if t == [] then []
    else
      var r := t[|t| - 1];
      LogsFrom(t[..|t| - 1], run, after) + if r.run == run && r.id > after then [r] else []
  }

  /** All lines of a run so far. */
  function LogOf(t: seq<LogRow>, run: string): seq<LogRow> {
    LogsFrom(t, run, 0)
  }

  /** A stream has sent `sent` and will next ask for what comes after `lastId`. */
  class Stream {
    const run: string
    var lastId: nat
    var sent: seq<LogRow>
    var done: bool

    constructor (run: string)
      ensures this.run == run && lastId == 0 && sent == [] && !done
    {
      this.run, lastId, sent, done := run, 0, [], false;
    }

    /** One query and the events for what it returned. */
    method Fetch(t: seq<LogRow>)
      requires Increasing(t)
      modifies this`lastId, this`sent
      ensures sent == old(sent) + LogsFrom(t, run, old(lastId))
      ensures lastId == CursorAfter(LogsFrom(t, run, old(lastId)), old(lastId))
    {
      var rows: seq<LogRow> := [];
      for i := 0 to |t|
        invariant rows == LogsFrom(t[..i], run, lastId)
      {
        assert t[..i + 1][..i] == t[..i];
        if t[i].run == run && t[i].id > lastId {
          rows := rows + [t[i]];
        }
      }
      assert t[..|t|] == t;
      ghost var before := lastId;
      for i := 0 to |rows|
        invariant lastId == CursorAfter(rows[..i], before) && sent == old(sent) + rows[..i]
      {
        assert rows[..i + 1][..i] == rows[..i];
        lastId := if rows[i].id > lastId then rows[i].id else lastId;
        sent := sent + [rows[i]];
      }
      assert rows[..|rows|] == rows;
    }

    /**
     One turn of the loop: `t` is the table it queries, `status` what it then finds the run's status to be, if it
     finds the run.
     */
    method Turn(t: seq<LogRow>, status: Option<RunStatus>)
      requires Increasing(t) && !done
      modifies this`lastId, this`sent, this`done
      ensures var s := Next(Next(Live(t, old(lastId), old(sent), [], false), run, Query), run, Look(status));
        lastId == s.lastId && sent == s.sent && done == s.done
    {
      Fetch(t);
      Check(status);
    }

    /** The look at the run's status that ends the stream. */
    method Check(status: Option<RunStatus>)
      modifies this`done
      ensures done == (status != Some(Queued) && status != Some(Running))
    {
      done := status.None? || (status.value != Queued && status.value != Running);
    }
  }

  /** The cursor after sending `rows`: the largest id seen. */
  function CursorAfter(rows: seq<LogRow>, before: nat): nat {
    if rows == [] then before
    else
      var c := CursorAfter(rows[..|rows| - 1], before);
      if rows[|rows| - 1].id > c then rows[|rows| - 1].id else c
  }

  // ---- Every interleaving ----

  /** The table, the cursor, what was sent, and the log as it was at the last query. */
  datatype Live = Live(table: seq<LogRow>, lastId: nat, sent: seq<LogRow>, seen: seq<LogRow>, done: bool)

  datatype Event = Append(run: string, step: string, line: Bytes, gap: nat) | Query | Look(status: Option<RunStatus>)

  function LastIdOf(t: seq<LogRow>): nat {
    if t == [] then 0 else t[|t| - 1].id
  }

  predicate Enabled(s: Live, e: Event) {
    e.Append? || !s.done
  }

  function Next(s: Live, run: string, e: Event): Live
    requires Enabled(s, e)
  {
    match e
    case Append(r, step, line, gap) => s.(table := s.table + [LogRow(LastIdOf(s.table) + 1 + gap, r, step, line)])
    case Query =>
      var rows := LogsFrom(s.table, run, s.lastId);
      s.(sent := s.sent + rows, lastId := CursorAfter(rows, s.lastId), seen := s.table)
    case Look(status) => s.(done := status != Some(Queued) && status != Some(Running))
  }

  const START: Live := Live([], 0, [], [], false)

  ghost predicate Behaviour(states: seq<Live>, run: string, events: seq<Event>) {
    && |states| == |events| + 1 && states[0] == START
    && forall i :: 0 <= i < |events| ==>
         Enabled(states[i], events[i]) && states[i + 1] == Next(states[i], run, events[i])
  }

  /** Sent is the run's log at the last query, whole; the cursor stands on its last line. */
  ghost predicate Inv(s: Live, run: string) {
    && Increasing(s.table) && s.seen <= s.table
    && s.sent == LogOf(s.seen, run)
    && s.lastId == LastIdOf(s.sent)
  }

  lemma {:induction false} LogsAreRows(t: seq<LogRow>, run: string, after: nat)
    ensures forall r :: r in LogsFrom(t, run, after) ==> r in t && r.run == run && r.id > after
  {
    if t != [] {
      LogsAreRows(t[..|t| - 1], run, after);
    }
  }

  /** Rows appended later come after all earlier ones, so a log only grows at its end. */
  lemma {:induction false} LogGrows(t: seq<LogRow>, u: seq<LogRow>, run: string, after: nat)
    requires t <= u
    ensures LogsFrom(t, run, after) <= LogsFrom(u, run, after)
    decreases |u|
  {
    if |t| < |u| {
      LogGrows(t, u[..|u| - 1], run, after);
    } else {
      assert t == u;
    }
  }

  lemma {:induction false} LogIncreasing(t: seq<LogRow>, run: string, after: nat)
    requires Increasing(t)
    ensures Increasing(LogsFrom(t, run, after))
  {
    if t != [] {
      LogIncreasing(t[..|t| - 1], run, after);
      LogsAreRows(t[..|t| - 1], run, after);
      var rest := LogsFrom(t[..|t| - 1], run, after);
      forall i | 0 <= i < |rest| ensures rest[i].id < t[|t| - 1].id {
        assert rest[i] in t[..|t| - 1];
      }
    }
  }

  /** What comes after the last line of the earlier log is exactly what the log has gained since. */
  lemma {:induction false} LogSplits(t: seq<LogRow>, u: seq<LogRow>, run: string)
    requires Increasing(u) && t <= u
    ensures LogOf(u, run) == LogOf(t, run) + LogsFrom(u, run, LastIdOf(LogOf(t, run)))
    decreases |u|
  {
    var cursor := LastIdOf(LogOf(t, run));
    if |t| == |u| {
      assert t == u;
      NothingAfter(u, run);
    } else {
      var n := |u| - 1;
      LogSplits(t, u[..n], run);
      CursorBehind(t, u, run);
    }
  }

  lemma CursorBehind(t: seq<LogRow>, u: seq<LogRow>, run: string)
    requires Increasing(u) && t < u
    ensures LastIdOf(LogOf(t, run)) < u[|u| - 1].id
  {
    LogsAreRows(t, run, 0);
    if LogOf(t, run) != [] {
      assert LogOf(t, run)[|LogOf(t, run)| - 1] in t;
    }
  }

  lemma {:induction false} NoneAbove(t: seq<LogRow>, run: string, cursor: nat)
    requires forall r :: r in t && r.run == run ==> r.id <= cursor
    ensures LogsFrom(t, run, cursor) == []
  {
    if t != [] {
      NoneAbove(t[..|t| - 1], run, cursor);
    }
  }

  lemma {:induction false} LogHasAll(t: seq<LogRow>, run: string, r: LogRow)
    requires r in t && r.run == run && r.id > 0
    ensures r in LogOf(t, run)
  {
    if r != t[|t| - 1] {
      assert r in t[..|t| - 1];
      LogHasAll(t[..|t| - 1], run, r);
    }
  }

  lemma {:induction false} NothingAfter(t: seq<LogRow>, run: string)
    requires Increasing(t)
    ensures LogsFrom(t, run, LastIdOf(LogOf(t, run))) == []
  {
    LogIncreasing(t, run, 0);
    var log := LogOf(t, run);
    forall r | r in t && r.run == run ensures r.id <= LastIdOf(log) {
      LogHasAll(t, run, r);
      var i :| 0 <= i < |log| && log[i] == r;
    }
    NoneAbove(t, run, LastIdOf(log));
  }

  lemma {:induction false} CursorIsLast(rows: seq<LogRow>, before: nat)
    requires Increasing(rows) && (rows != [] ==> rows[0].id > before)
    ensures CursorAfter(rows, before) == if rows == [] then before else LastIdOf(rows)
  {
    if rows != [] {
      var n := |rows| - 1;
      CursorIsLast(rows[..n], before);
    }
  }

  lemma QueryKeepsInv(s: Live, run: string)
    requires Inv(s, run) && Enabled(s, Query)
    ensures Inv(Next(s, run, Query), run)
  {
    var rows := LogsFrom(s.table, run, s.lastId);
    LogSplits(s.seen, s.table, run);
    LogIncreasing(s.table, run, s.lastId);
    LogsAreRows(s.table, run, s.lastId);
    assert rows != [] ==> rows[0] in rows;
    CursorIsLast(rows, s.lastId);
  }

  lemma {:induction false} BehaviourKeepsInv(states: seq<Live>, run: string, events: seq<Event>, n: nat)
    requires Behaviour(states, run, events) && n < |states|
    ensures Inv(states[n], run)
  {
    if n > 0 {
      BehaviourKeepsInv(states, run, events, n - 1);
      if events[n - 1].Query? {
        QueryKeepsInv(states[n - 1], run);
      }
    }
  }

  /**
   For every interleaving of appends with the stream: what was sent is a gap-free, duplicate-free prefix,
   in id order, of the run's log; precisely, the whole log as of the last query. It is the whole log exactly if
   no line of the run was appended since.
   */
  lemma {:induction false} StreamSendsPrefix(states: seq<Live>, run: string, events: seq<Event>, n: nat)
    requires Behaviour(states, run, events) && n < |states|
    ensures var s := states[n];
      && s.sent <= LogOf(s.table, run)
      && Increasing(s.sent)
      && s.seen <= s.table && s.sent == LogOf(s.seen, run)
      && LogOf(s.table, run)[|s.sent|..] == LogsFrom(s.table, run, s.lastId)
      && (s.sent == LogOf(s.table, run) <==> forall r :: r in s.table[|s.seen|..] ==> r.run != run)
  {
    BehaviourKeepsInv(states, run, events, n);
    var s := states[n];
    LogGrows(s.seen, s.table, run, 0);
    LogSplits(s.seen, s.table, run);
    assert Increasing(s.seen);
    LogIncreasing(s.seen, run, 0);
    LogOfMore(s.seen, s.table, run);
  }

  lemma {:induction false} LogOfMore(t: seq<LogRow>, u: seq<LogRow>, run: string)
    requires t <= u && Increasing(u)
    ensures LogOf(u, run) == LogOf(t, run) <==> forall r :: r in u[|t|..] ==> r.run != run
    decreases |u|
  {
    if |t| == |u| {
      assert t == u;
    } else {
      var n := |u| - 1;
      LastLine(u, run);
      LogGrows(t, u[..n], run, 0);
      assert Increasing(u[..n]);
      hide LogsFrom, Increasing;
      LogOfMore(t, u[..n], run);
      OneMoreRow(u, |t|);
    }
  }

  lemma OneMoreRow(u: seq<LogRow>, i: nat)
    requires i < |u|
    ensures u[i..] == u[..|u| - 1][i..] + [u[|u| - 1]]
  {
  }

  lemma {:induction false} LastLine(u: seq<LogRow>, run: string)
    requires u != [] && Increasing(u)
    ensures var n := |u| - 1;
      LogOf(u, run) == LogOf(u[..n], run) + if u[n].run == run then [u[n]] else []
  {
  }

  /** The run is gone, or has come to its end. */
  predicate Over(status: Option<RunStatus>) {
    status.None? || status.value.Succeeded? || status.value.Failed? || status.value.Cancelled?
  }

  /** A stream ends at the first look that finds the run gone, succeeded, failed or cancelled, and at no other. */
  lemma {:induction false} StreamEndsWithRun(states: seq<Live>, run: string, events: seq<Event>, n: nat)
    requires Behaviour(states, run, events) && n < |states|
    ensures states[n].done <==> exists k :: 0 <= k < n && events[k].Look? && Over(events[k].status)
  {
    if n > 0 {
      StreamEndsWithRun(states, run, events, n - 1);
      var k := n - 1;
      var e := events[k];
      assert Enabled(states[k], e) && states[k + 1] == Next(states[k], run, e);
      assert e.Look? && Over(e.status) <==> states[n].done && !states[n - 1].done;
    }
  }

  /** A stream that reports the end with a line of its run unsent: the line and the status came after its query. */
  lemma {:induction false} StreamCanEndEarly(run: string, step: string, line: Bytes)
      returns (states: seq<Live>, events: seq<Event>)
    ensures Behaviour(states, run, events)
    ensures var s := states[|events|]; s.done && s.sent == [] && |LogOf(s.table, run)| == 1
  {
    events := [Query, Append(run, step, line, 0), Look(Some(Failed))];
    var s1 := Next(START, run, Query);
    var s2 := Next(s1, run, events[1]);
    var s3 := Next(s2, run, events[2]);
    states := [START, s1, s2, s3];
    assert s1 == START;
    OneLine(LogRow(1, run, step, line));
    hide LogsFrom, CursorAfter;
    assert s2.table == [LogRow(1, run, step, line)];
  }

  lemma {:induction false} OneLine(row: LogRow)
    requires row.id > 0
    ensures LogOf([row], row.run) == [row]
  {
    assert [row][..0] == [] && [row][0] == row;
    assert LogsFrom([row], row.run, 0) == LogsFrom([], row.run, 0) + [row];
  }
}
