/** The whole evaluation with reports that arrive in any order: the engine's reports travel
    on separate connections, the consumer parks them by sequence id and processes the next
    one whenever it is there, and bots go on sending and registering orders in between. */
module Evaluation {
  import opened Orders
  import opened Log
  import opened FlatBook
  import opened FlatEngine
  import C = CorrectEngine
  import Judge
  import Ledger

  datatype Sys = Sys(
    waiting: map<int, seq<Order>>,   // per bot: on its connection, in sending order
    engine: Engine,
    transit: seq<ExecReport>,        // emitted, not yet taken from the event channel
    buffer: map<int, ExecReport>,    // parked by sequence id
    next: int,                       // the id to be processed next
    events: seq<Event>,              // everything the judge was told
    accepted: set<Id>)

  datatype Action =
    | Send(order: Order)
    | Serve(bot: int)
    | Arrive(i: nat)                 // any report under way may come next
    | Process

  const START: Sys := Sys(map[], Engine([], [], 0), [], map[], 1, [], {})

  /** The evaluation as it looks once the outstanding reports are put in order. */
  function Ordered(s: Sys, queue: seq<ExecReport>): C.Sys {
    C.Sys(s.waiting, s.engine, queue, s.events, s.accepted)
  }

  predicate Enabled(s: Sys, a: Action) {
    match a
    case Send(o) => C.Enabled(Ordered(s, []), C.Send(o))
    case Serve(bot) => C.Enabled(Ordered(s, []), C.Serve(bot))
    case Arrive(i) => i < |s.transit| && s.next !in s.buffer
    case Process => s.next in s.buffer
  }

  function Next(s: Sys, a: Action): Sys
    requires Enabled(s, a)
  {
    match a
    case Send(o) =>
      var t := C.Next(Ordered(s, []), C.Send(o));
      s.(waiting := t.waiting, events := t.events)
    case Serve(bot) =>
      var t := C.Next(Ordered(s, []), C.Serve(bot));
      s.(waiting := t.waiting, engine := t.engine, transit := s.transit + t.queue)
    case Arrive(i) =>
      var r := s.transit[i];
      s.(transit := Without(s.transit, i), buffer := s.buffer[r.seqId := r])
    case Process =>
      var r := C.ProcessEvent(s.accepted, s.buffer[s.next], true);
      s.(buffer := s.buffer - {s.next}, next := s.next + 1, events := s.events + r.events, accepted := r.accepted)
  }

  predicate Legal(run: seq<Action>)
    decreases run, 0
  {
    run == [] || (Legal(run[..|run| - 1]) && Enabled(Exec(run[..|run| - 1]), run[|run| - 1]))
  }

  function Exec(run: seq<Action>): Sys
    requires Legal(run)
    decreases run, 1
  {
    if run == [] then START else Next(Exec(run[..|run| - 1]), run[|run| - 1])
  }

  /** Everything has arrived and the consumer waits for more. */
  predicate Quiet(s: Sys) { s.transit == [] && s.next !in s.buffer }

  // ---------------------------------------------------------------- outstanding reports

  /** The outstanding reports in order, numbered from the next id to the engine's last. */
  predicate InOrder(queue: seq<ExecReport>, next: int, last: int) {
    |queue| == last - next + 1 && forall j :: 0 <= j < |queue| ==> queue[j].seqId == next + j
  }

  predicate Keyed(buffer: map<int, ExecReport>) { forall k :: k in buffer ==> buffer[k].seqId == k }

  predicate Distinct(transit: seq<ExecReport>) {
    forall i, j :: 0 <= i < j < |transit| ==> transit[i].seqId != transit[j].seqId
  }

  /** A report is outstanding if it is under way or parked, and never both. */
  ghost predicate Outstanding(s: Sys, queue: seq<ExecReport>) {
    && Keyed(s.buffer) && Distinct(s.transit) && (forall r :: r in s.transit ==> r.seqId !in s.buffer)
    && (forall r :: r in queue <==> r in s.transit || (r.seqId in s.buffer && s.buffer[r.seqId] == r))
  }

  ghost predicate Inv(s: Sys, queue: seq<ExecReport>) {
    InOrder(queue, s.next, s.engine.seqId) && Outstanding(s, queue)
  }

  function Without(transit: seq<ExecReport>, i: nat): seq<ExecReport>
    requires i < |transit|
  {
    transit[..i] + transit[i + 1..]
  }

  lemma TakenOut(transit: seq<ExecReport>, i: nat)
    requires Distinct(transit) && i < |transit|
    ensures Distinct(Without(transit, i))
    ensures forall x :: x in transit <==> x == transit[i] || x in Without(transit, i)
    ensures forall x :: x in Without(transit, i) ==> x.seqId != transit[i].seqId
  {
    var rest := Without(transit, i);
    assert forall j :: 0 <= j < |rest| ==> rest[j] == transit[if j < i then j else j + 1];
    forall j | 0 <= j < |transit| && j != i ensures transit[j] in rest {
      assert transit[j] == rest[if j < i then j else j - 1];
    }
  }

  lemma ArriveKeeps(s: Sys, queue: seq<ExecReport>, i: nat)
    requires Outstanding(s, queue) && i < |s.transit|
    ensures var r := s.transit[i];
            Outstanding(s.(transit := Without(s.transit, i), buffer := s.buffer[r.seqId := r]), queue)
  {
    assert s.transit[i] in s.transit;
    TakenOut(s.transit, i);
    hide Without, Distinct;
  }

  lemma ServeKeeps(s: Sys, queue: seq<ExecReport>, reports: seq<ExecReport>)
    requires InOrder(queue, s.next, s.engine.seqId) && Outstanding(s, queue)
    requires forall i :: 0 <= i < |reports| ==> reports[i].seqId == s.engine.seqId + 1 + i
    ensures InOrder(queue + reports, s.next, s.engine.seqId + |reports|)
    ensures Outstanding(s.(transit := s.transit + reports), queue + reports)
  {
    forall r | r in queue ensures r.seqId <= s.engine.seqId { }
    forall k | k in s.buffer ensures k <= s.engine.seqId { assert s.buffer[k] in queue; }
    forall r | r in s.transit ensures r.seqId <= s.engine.seqId { assert r in queue; }
  }

  lemma ProcessKeeps(s: Sys, queue: seq<ExecReport>)
    requires InOrder(queue, s.next, s.engine.seqId) && Outstanding(s, queue) && s.next in s.buffer
    ensures queue != [] && queue[0] == s.buffer[s.next]
    ensures InOrder(queue[1..], s.next + 1, s.engine.seqId)
    ensures Outstanding(s.(buffer := s.buffer - {s.next}, next := s.next + 1), queue[1..])
  {
    assert s.buffer[s.next] in queue;
    var rest := queue[1..];
    forall r ensures r in queue <==> r == queue[0] || r in rest { assert queue == [queue[0]] + rest; }
    assert queue[0] !in rest;
  }

  /** Each step is a step of the evaluation in order, or leaves it as it is. */
  lemma StepSimulates(s: Sys, a: Action, queue: seq<ExecReport>) returns (steps: seq<C.Action>, queue': seq<ExecReport>)
    requires Enabled(s, a) && Inv(s, queue)
    ensures Inv(Next(s, a), queue') && |steps| <= 1
    ensures steps == [] ==> Ordered(Next(s, a), queue') == Ordered(s, queue)
    ensures |steps| == 1 ==> C.Enabled(Ordered(s, queue), steps[0])
                             && C.Next(Ordered(s, queue), steps[0]) == Ordered(Next(s, a), queue')
  {
    hide Outstanding, InOrder, Handle, C.ProcessEvent;
    match a
    case Send(o) =>
      steps, queue' := [C.Send(o)], queue;
      SameOutstanding(s, Next(s, a), queue);
    case Serve(bot) =>
      var h := Handle(s.engine, C.WaitingOf(Ordered(s, []), bot)[0]);
      Numbering(s.engine, C.WaitingOf(Ordered(s, []), bot)[0]);
      steps, queue' := [C.Serve(bot)], queue + h.reports;
      ServeKeeps(s, queue, h.reports);
      assert [] + h.reports == h.reports;
      SameOutstanding(s.(transit := s.transit + h.reports), Next(s, a), queue');
    case Arrive(i) =>
      steps, queue' := [], queue;
      ArriveKeeps(s, queue, i);
    case Process =>
      ProcessKeeps(s, queue);
      steps, queue' := [C.Deliver], queue[1..];
      SameOutstanding(s.(buffer := s.buffer - {s.next}, next := s.next + 1), Next(s, a), queue');
  }

  lemma SameOutstanding(s: Sys, t: Sys, queue: seq<ExecReport>)
    requires Outstanding(s, queue) && t.transit == s.transit && t.buffer == s.buffer
    ensures Outstanding(t, queue)
  {
  }

  lemma Numbering(e: Engine, o: Order)
    requires Handle.requires(e, o)
    ensures var h := Handle(e, o);
            h.engine.seqId == e.seqId + |h.reports|
            && forall i :: 0 <= i < |h.reports| ==> h.reports[i].seqId == e.seqId + 1 + i
  {
    var h := Handle(e, o);
    forall i | 0 <= i < |h.reports| ensures h.reports[i].seqId == e.seqId + 1 + i { HandleNumbered(e, o, i); }
    HandleNumbered(e, o, 0);
  }

  lemma StartInv()
    ensures Inv(START, []) && Ordered(START, []) == C.START
  {
  }

  /** Parking refines delivery in order: what the judge is told in any run is what it is
      told in some run whose reports arrive in engine order. */
  lemma {:induction false} RunSimulates(run: seq<Action>) returns (inOrder: seq<C.Action>, queue: seq<ExecReport>)
    requires Legal(run)
    ensures Inv(Exec(run), queue) && C.Legal(inOrder) && C.Exec(inOrder) == Ordered(Exec(run), queue)
  {
    hide Inv, Enabled, Next, C.Enabled, C.Next, Ordered;
    if run == [] {
      inOrder, queue := [], [];
      StartInv();
    } else {
      var prev, a := run[..|run| - 1], run[|run| - 1];
      var done, q := RunSimulates(prev);
      var steps;
      steps, queue := StepSimulates(Exec(prev), a, q);
      inOrder := done + steps;
      if steps == [] {
        assert inOrder == done;
      } else {
        assert inOrder[..|inOrder| - 1] == done && inOrder[|inOrder| - 1] == steps[0];
      }
    }
  }

  lemma QuietIsDone(s: Sys, queue: seq<ExecReport>)
    requires Inv(s, queue) && Quiet(s)
    ensures queue == [] && s.buffer == map[]
  {
    forall k | k in s.buffer ensures s.buffer[k] in queue { assert s.buffer[k].seqId == k; }
    if queue != [] { FirstIsParked(s, queue); }
  }

  lemma FirstIsParked(s: Sys, queue: seq<ExecReport>)
    requires Inv(s, queue) && s.transit == [] && queue != []
    ensures s.next in s.buffer
  {
    assert queue[0] in queue && queue[0].seqId == s.next;
  }

  /** The judge never penalises a correct engine, in whatever order its reports arrive and
      whatever is sent and registered meanwhile: once all have arrived and the consumer has
      nothing to do, nothing is parked and the score is 100. */
  lemma AnyArrivalScores100(run: seq<Action>)
    requires Legal(run) && Quiet(Exec(run))
    ensures Exec(run).buffer == map[]
    ensures var log := Run(Exec(run).events).log;
            && Ledger.Judgement(Judge.Books(log)) == 100.0
            && Count(log, BadAck) == 0 && Count(log, Duplicate) == 0 && Count(log, UnknownAck) == 0
            && Fills(log, true) == Fills(log, false)
  {
    hide Inv, Exec, Quiet, C.Exec, C.Legal, Run, Judge.Books, Ledger.Judgement;
    var inOrder, queue := RunSimulates(run);
    QuietIsDone(Exec(run), queue);
    C.CorrectEngineScores100(inOrder);
  }
}
