/**
 The log channel of a running step: the executor sends lines into a bounded queue while a consumer takes
 them out, masks them, and posts them in batches. The two run concurrently; a behaviour is any interleaving
 of their steps.
 */
module LogChannel {
  import opened Masking

  const CAPACITY: nat := 256

  /**
   Lines still to be sent; the queue; the batch in hand, already masked; whether the consumer is still
   draining the queue into it; the batches posted; whether the sender has hung up and the consumer finished.
   */
  datatype Channel = Channel(todo: seq<Bytes>, queue: seq<Bytes>, hand: seq<Bytes>, draining: bool,
                             posted: seq<seq<Bytes>>, closed: bool, done: bool)

  function Start(lines: seq<Bytes>): Channel {
    Channel(lines, [], [], false, [], false, false)
  }

  datatype Move = Send | HangUp | Receive | TryReceive | FindEmpty | Post | Leave

  predicate Enabled(s: Channel, m: Move) {
    match m
    case Send => s.todo != [] && |s.queue| < CAPACITY
    case HangUp => s.todo == [] && !s.closed
    case Receive => s.hand == [] && s.queue != []
    case TryReceive => s.draining && s.queue != []
    case FindEmpty => s.draining && s.queue == []
    case Post => s.hand != [] && !s.draining
    case Leave => s.closed && s.queue == [] && s.hand == [] && !s.done
  }

  function Step(s: Channel, m: Move, values: seq<Bytes>): Channel
    requires Enabled(s, m) && [] !in values
  {
    match m
    case Send => s.(todo := s.todo[1..], queue := s.queue + [s.todo[0]])
    case HangUp => s.(closed := true)
    case Receive => s.(hand := [MaskWith(s.queue[0], values)], queue := s.queue[1..], draining := true)
    case TryReceive => s.(hand := s.hand + [MaskWith(s.queue[0], values)], queue := s.queue[1..])
    case FindEmpty => s.(draining := false)
    case Post => s.(posted := s.posted + [s.hand], hand := [])
    case Leave => s.(done := true)
  }

  function MaskAll(lines: seq<Bytes>, values: seq<Bytes>): (r: seq<Bytes>)
    requires [] !in values
    ensures |r| == |lines| && forall i :: 0 <= i < |lines| ==> r[i] == MaskWith(lines[i], values)
  {
    seq(|lines|, i requires 0 <= i < |lines| => MaskWith(lines[i], values))
  }

  function Flatten(batches: seq<seq<Bytes>>): seq<Bytes> {
    if batches == [] then [] else Flatten(batches[..|batches| - 1]) + batches[|batches| - 1]
  }

  /** Posted, in hand, queued and still to come: together always the masked output, in order. */
  ghost predicate Conserved(s: Channel, lines: seq<Bytes>, values: seq<Bytes>)
    requires [] !in values
  {
    && Flatten(s.posted) + s.hand + MaskAll(s.queue, values) + MaskAll(s.todo, values) == MaskAll(lines, values)
    && |s.queue| <= CAPACITY
    && (forall b :: b in s.posted ==> b != [])
    && (s.draining ==> s.hand != [])
    && (s.closed ==> s.todo == [])
    && (s.done ==> s.closed && s.queue == [] && s.hand == [])
  }

  lemma MaskAllConcat(a: seq<Bytes>, b: seq<Bytes>, values: seq<Bytes>)
    requires [] !in values
    ensures MaskAll(a + b, values) == MaskAll(a, values) + MaskAll(b, values)
  {
  }

  lemma StepConserves(s: Channel, m: Move, lines: seq<Bytes>, values: seq<Bytes>)
    requires [] !in values && Conserved(s, lines, values) && Enabled(s, m)
    ensures Conserved(Step(s, m, values), lines, values)
  {
    hide MaskAll, MaskWith, Flatten;
    match m
    case Send => SendToQueue(s, lines, values);
    case Receive => TakeFromQueue(s, lines, values);
    case TryReceive => TakeFromQueue(s, lines, values);
    case Post => PostFromHand(s, lines, values);
    case HangUp =>
    case FindEmpty =>
    case Leave =>
  }

  lemma {:induction false} SendToQueue(s: Channel, lines: seq<Bytes>, values: seq<Bytes>)
    requires [] !in values && Conserved(s, lines, values) && s.todo != []
    ensures Flatten(s.posted) + s.hand + MaskAll(s.queue + [s.todo[0]], values) + MaskAll(s.todo[1..], values)
         == MaskAll(lines, values)
  {
  }

  lemma {:induction false} TakeFromQueue(s: Channel, lines: seq<Bytes>, values: seq<Bytes>)
    requires [] !in values && Conserved(s, lines, values) && s.queue != []
    ensures Flatten(s.posted) + (s.hand + [MaskWith(s.queue[0], values)]) + MaskAll(s.queue[1..], values)
            + MaskAll(s.todo, values) == MaskAll(lines, values)
  {
  }

  lemma {:induction false} PostFromHand(s: Channel, lines: seq<Bytes>, values: seq<Bytes>)
    requires [] !in values && Conserved(s, lines, values)
    ensures Flatten(s.posted + [s.hand]) == Flatten(s.posted) + s.hand
    ensures Flatten(s.posted + [s.hand]) + [] + MaskAll(s.queue, values) + MaskAll(s.todo, values)
         == MaskAll(lines, values)
  {
    hide MaskAll;
    assert (s.posted + [s.hand])[..|s.posted|] == s.posted;
  }

  // ---- Every interleaving ----

  /** The states an interleaving goes through. */
  ghost predicate Behaviour(states: seq<Channel>, moves: seq<Move>, lines: seq<Bytes>, values: seq<Bytes>)
    requires [] !in values
  {
    && |states| == |moves| + 1 && states[0] == Start(lines)
    && forall i :: 0 <= i < |moves| ==>
         Enabled(states[i], moves[i]) && states[i + 1] == Step(states[i], moves[i], values)
  }

  lemma {:induction false} BehaviourConserves(states: seq<Channel>, moves: seq<Move>, lines: seq<Bytes>,
                                              values: seq<Bytes>, n: nat)
    requires [] !in values && Behaviour(states, moves, lines, values) && n < |states|
    ensures Conserved(states[n], lines, values)
  {
    if n > 0 {
      BehaviourConserves(states, moves, lines, values, n - 1);
      StepConserves(states[n - 1], moves[n - 1], lines, values);
    }
  }

  /** What is left to do; every move lowers it. */
  function Work(s: Channel): nat {
    6 * |s.todo| + 5 * |s.queue| + (if s.draining then 1 else 0) + (if s.hand != [] then 2 else 0)
    + (if s.closed then 0 else 1) + (if s.done then 0 else 1)
  }

  lemma StepLowersWork(s: Channel, m: Move, values: seq<Bytes>)
    requires [] !in values && Enabled(s, m) && (s.draining ==> s.hand != [])
    ensures Work(Step(s, m, values)) < Work(s)
  {
  }

  /** Nobody ever waits for the other in vain. */
  lemma SomeMoveEnabled(s: Channel, lines: seq<Bytes>, values: seq<Bytes>)
    requires [] !in values && Conserved(s, lines, values) && !s.done
    ensures exists m :: Enabled(s, m)
  {
    if s.hand != [] {
      assert Enabled(s, Post) || Enabled(s, TryReceive) || Enabled(s, FindEmpty);
    } else if s.queue != [] {
      assert Enabled(s, Receive);
    } else if s.todo != [] {
      assert Enabled(s, Send);
    } else {
      assert Enabled(s, HangUp) || Enabled(s, Leave);
    }
  }

  lemma {:induction false} BehaviourIsBounded(states: seq<Channel>, moves: seq<Move>, lines: seq<Bytes>,
                                              values: seq<Bytes>, n: nat)
    requires [] !in values && Behaviour(states, moves, lines, values) && n < |states|
    ensures Work(states[n]) + n <= 6 * |lines| + 2
  {
    if n > 0 {
      BehaviourIsBounded(states, moves, lines, values, n - 1);
      BehaviourConserves(states, moves, lines, values, n - 1);
      StepLowersWork(states[n - 1], moves[n - 1], values);
    }
  }

  /**
   For every interleaving: at each point, what was posted, is in hand and is queued is the masked image of
   the lines sent so far, in order, nothing lost and nothing twice. None goes on for more than
   6 lines + 2 moves, and one that cannot go on has posted everything, in non-empty batches.
   */
  lemma ChannelDelivers(states: seq<Channel>, moves: seq<Move>, lines: seq<Bytes>, values: seq<Bytes>, n: nat)
    requires [] !in values && Behaviour(states, moves, lines, values) && n < |states|
    ensures |moves| <= 6 * |lines| + 2
    ensures var s := states[n];
      && |s.todo| <= |lines| && s.todo == lines[|lines| - |s.todo|..] && |s.queue| <= 256
      && Flatten(s.posted) + s.hand + MaskAll(s.queue, values) == MaskAll(lines[..|lines| - |s.todo|], values)
      && (forall b :: b in s.posted ==> b != [])
      && ((forall m :: !Enabled(s, m)) ==> s.done && Flatten(s.posted) == MaskAll(lines, values))
  {
    BehaviourIsBounded(states, moves, lines, values, |moves|);
    BehaviourConserves(states, moves, lines, values, n);
    SentInOrder(states, moves, lines, values, n);
    var s := states[n];
    var sent := lines[..|lines| - |s.todo|];
    assert lines == sent + s.todo;
    MaskAllConcat(sent, s.todo, values);
    var before := Flatten(s.posted) + s.hand + MaskAll(s.queue, values);
    assert before == (before + MaskAll(s.todo, values))[..|before|];
    assert |before| == |lines| - |s.todo|;
    if forall m :: !Enabled(s, m) {
      if !s.done {
        SomeMoveEnabled(s, lines, values);
      }
      assert s.done && s.hand == [] && s.queue == [] && s.todo == [];
      assert MaskAll(s.queue, values) == [] && lines[..|lines|] == lines;
      assert before == Flatten(s.posted);
    }
  }

  /** The lines as sent, cut where the posted batches end. */
  function Cut(lines: seq<Bytes>, posted: seq<seq<Bytes>>): (r: seq<seq<Bytes>>)
    requires |Flatten(posted)| == |lines|
    ensures |r| == |posted|
    decreases |posted|
  {
    if posted == [] then [] else
    var n := |posted| - 1;
    var k := |lines| - |posted[n]|;
    Cut(lines[..k], posted[..n]) + [lines[k..]]
  }

  lemma {:induction false} CutIsBatches(lines: seq<Bytes>, posted: seq<seq<Bytes>>, values: seq<Bytes>)
    requires [] !in values && Flatten(posted) == MaskAll(lines, values)
    ensures Flatten(Cut(lines, posted)) == lines
    ensures forall i :: 0 <= i < |posted| ==> MaskAll(Cut(lines, posted)[i], values) == posted[i]
    decreases |posted|
  {
    if posted != [] {
      var n := |posted| - 1;
      var k := |lines| - |posted[n]|;
      assert lines == lines[..k] + lines[k..];
      MaskAllConcat(lines[..k], lines[k..], values);
      assert Flatten(posted)[..k] == Flatten(posted[..n]) && Flatten(posted)[k..] == posted[n];
      CutIsBatches(lines[..k], posted[..n], values);
      var before := Cut(lines[..k], posted[..n]);
      assert (before + [lines[k..]])[..n] == before;
    }
  }

  lemma {:induction false} SentInOrder(states: seq<Channel>, moves: seq<Move>, lines: seq<Bytes>,
                                       values: seq<Bytes>, n: nat)
    requires [] !in values && Behaviour(states, moves, lines, values) && n < |states|
    ensures |states[n].todo| <= |lines| && states[n].todo == lines[|lines| - |states[n].todo|..]
  {
    if n > 0 {
      SentInOrder(states, moves, lines, values, n - 1);
      assert states[n] == Step(states[n - 1], moves[n - 1], values);
    }
  }
}
