/** The whole evaluation as a state machine: bots send orders over their own
    connections and register them with the judge, the engine handles them in any
    interleaving, and its reports reach the judge in sequence order. A correct
    engine always ends with a score of 100. */
module CorrectEngine {
  import opened Orders
  import opened Matching
  import opened Log
  import opened FlatBook
  import opened BookRuns
  import opened FlatEngine
  import Ledger
  import Judge

  // ---------------------------------------------------------------- processEvent

  datatype Reaction = Reaction(accepted: set<Id>, events: seq<Event>)

  function FillOf(r: ExecReport): Fill { Fill(r.orderId, r.qty, r.price, r.matchedWith) }

  predicate IsFillReport(r: ExecReport) { r.status.FilledX? || r.status.PartialX? }

  /** How one report is turned into calls on the judge. */
  function ProcessEvent(accepted: set<Id>, r: ExecReport, isOwn: bool): Reaction {
    if !isOwn then Reaction(accepted, if IsFillReport(r) then [Report(FillOf(r))] else [])
    else if r.status.AcceptedX? then Reaction(accepted + {r.orderId}, [Ack(r.orderId, Accepted)])
    else if IsFillReport(r) then
      if r.orderId in accepted then Reaction(accepted, [Report(FillOf(r))])
      else Reaction(accepted + {r.orderId}, [Ack(r.orderId, Accepted), Report(FillOf(r))])
    else if r.status.CancelledX? then Reaction(accepted, [Ack(r.orderId, Cancelled)])
    else Reaction(accepted, [Ack(r.orderId, Rejected)])
  }

  // ---------------------------------------------------------------- the system

  datatype Sys = Sys(
    waiting: map<int, seq<Order>>,   // per bot: on its connection, in sending order
    engine: Engine,
    queue: seq<ExecReport>,          // reports the judge has not processed yet
    events: seq<Event>,              // everything the judge was told
    accepted: set<Id>)               // acceptedOrders of the consumer

  datatype Action = Send(order: Order) | Serve(bot: int) | Deliver

  const START: Sys := Sys(map[], Engine([], [], 0), [], [], {})

  function WaitingOf(s: Sys, bot: int): seq<Order> { if bot in s.waiting then s.waiting[bot] else [] }

  /** Limit, market or cancel, buy or sell, from a bot numbered at least 1. */
  predicate Legit(o: Order) {
    !o.kind.OtherKind? && !o.side.OtherSide? && BotId(o.id) >= 1
  }

  predicate Enabled(s: Sys, a: Action) {
    match a
    case Send(o) =>
      // non-cancel ids are new; a bot cancels only orders it has sent before
      Legit(o) && (if o.kind.Cancel? then o.id in Submitted(s.events) else o.id !in Submitted(s.events))
    case Serve(bot) =>
      // the lists hold positive quantities in every reachable state: see ServeNeedsOnlyAnOrder
      WaitingOf(s, bot) != [] && Positive(s.engine.buys) && Positive(s.engine.sells)
    case Deliver => s.queue != []
  }

  function Next(s: Sys, a: Action): Sys
    requires Enabled(s, a)
  {
    match a
    case Send(o) =>
      s.(events := s.events + [Submit(o)],
         waiting := s.waiting[BotId(o.id) := WaitingOf(s, BotId(o.id)) + [o]])
    case Serve(bot) =>
      var line := WaitingOf(s, bot);
      var h := Handle(s.engine, line[0]);
      s.(engine := h.engine, queue := s.queue + h.reports, waiting := s.waiting[bot := line[1..]])
    case Deliver =>
      // a bot's reports come back on its own connection and carry its number
      var r := ProcessEvent(s.accepted, s.queue[0], true);
      s.(queue := s.queue[1..], events := s.events + r.events, accepted := r.accepted)
  }

  predicate Legal(run: seq<Action>)
    decreases run, 0
  {
    run == [] || (Legal(run[..|run| - 1]) && Enabled(Exec(run[..|run| - 1]), run[|run| - 1]))
  }

  function Exec(run: seq<Action>): Sys
    requires Legal(run)
    decreases run, 1
  {
    if run == [] then START else Next(Exec(run[..|run| - 1]), run[|run| - 1])
  }

  // ---------------------------------------------------------------- one engine order, seen by both

  function FillsOf(rs: seq<ExecReport>): seq<Fill> {
    if rs == [] then [] else [FillOf(rs[0])] + FillsOf(rs[1..])
  }

  predicate AllFillReports(rs: seq<ExecReport>) { forall i :: 0 <= i < |rs| ==> IsFillReport(rs[i]) }

  /** A log without violations. */
  predicate Spotless(log: seq<Emit>) {
    forall i :: 0 <= i < |log| ==> !log[i].Duplicate? && !log[i].UnknownAck? && !log[i].BadAck?
  }

  lemma SpotlessAppend(a: seq<Emit>, b: seq<Emit>)
    ensures Spotless(a + b) <==> Spotless(a) && Spotless(b)
  {
    assert forall i :: 0 <= i < |a| ==> (a + b)[i] == a[i];
    assert forall i :: 0 <= i < |b| ==> (a + b)[|a| + i] == b[i];
  }

  lemma {:induction false} SpotlessCounts(log: seq<Emit>)
    requires Spotless(log)
    ensures Count(log, BadAck) == 0 && Count(log, Duplicate) == 0 && Count(log, UnknownAck) == 0
  {
    if log != [] { SpotlessCounts(log[..|log| - 1]); }
  }

  lemma {:induction false} TradeLogSpotless(taker: Id, trades: seq<Trade>)
    ensures Spotless(TradeLog(taker, trades))
  {
    if trades != [] { TradeLogSpotless(taker, trades[1..]); }
  }

  lemma {:induction false} ReportsAreExpected(seqId: int, taker: Id, trades: seq<Trade>, rem: int)
    ensures FillsOf(FillReports(seqId, taker, trades, rem)) == ExpectedFills(taker, trades)
    ensures AllFillReports(FillReports(seqId, taker, trades, rem))
    decreases trades
  {
    if trades != [] {
      var t := trades[0];
      var a, b := TakerReport(seqId + 1, taker, t, rem - t.qty), MakerReport(seqId + 2, taker, t);
      var rest := FillReports(seqId + 2, taker, trades[1..], rem - t.qty);
      ReportsAreExpected(seqId + 2, taker, trades[1..], rem - t.qty);
      assert ([a, b] + rest)[1..] == [b] + rest && ([b] + rest)[1..] == rest;
    }
  }

  /** What the engine does with an order is what the judge does on its acknowledgement:
      same lists afterwards, and the reported fills are the expected fills. */
  lemma HandleIsMatch(f: Flats, o: Order, k: int)
    requires BookOk(f) && Legit(o) && !o.kind.Cancel?
    ensures var h, m := Handle(Engine(f.bids, f.asks, k), o), Match(f, o);
            && h.engine.buys == m.book.bids && h.engine.sells == m.book.asks
            && h.reports != [] && h.reports[0] == ExecReport(k + 1, o.id, AcceptedX, 0, 0, 0)
            && AllFillReports(h.reports[1..]) && FillsOf(h.reports[1..]) == Fills(m.log, true)
            && Fills(m.log, false) == [] && Spotless(m.log)
  {
    hide Rescan, Sweep, FillReports, TradeLog, Fills, Sorted, Distinct, Uncrossed, Insert;
    var e := Engine(f.bids, f.asks, k);
    var t, book := TakerOf(o), SideOf(f, Opposite(o.side));
    assert EngineTaker(o) == t && Book(e, Opposite(EngineSide(o))) == book;
    RescanIsSweep(t, book, o.qty);
    var s := Sweep(t, book, o.qty);
    ReportsAreExpected(k + 1, o.id, s.trades, o.qty);
    TradeLogFills(o.id, s.trades);
    TradeLogSpotless(o.id, s.trades);
    var fr := FillReports(k + 1, o.id, s.trades, o.qty);
    assert ([ExecReport(k + 1, o.id, AcceptedX, 0, 0, 0)] + fr)[1..] == fr;
    MatchFills(f, o);
    var tail := [Drop(o.id, s.rem), Clean(o.id)];
    TailFills(o.id, s.rem);
    HistAppend(TradeLog(o.id, s.trades), tail, 0, false);
  }

  lemma TailFills(id: Id, q: int)
    ensures Fills([Drop(id, q), Clean(id)], false) == []
  {
    HistOne(Drop(id, q), 0, false);
    HistOne(Clean(id), 0, false);
    HistAppend([Drop(id, q)], [Clean(id)], 0, false);
    assert [Drop(id, q)] + [Clean(id)] == [Drop(id, q), Clean(id)];
  }

  /** Cancels agree: the engine removes an order exactly when it rests in the judge's book. */
  lemma HandleIsCancel(f: Flats, id: Id, k: int)
    ensures var h := HandleCancel(Engine(f.bids, f.asks, k), id);
            && |h.reports| == 1 && h.reports[0].orderId == id
            && (if Rests(f, id) then
                  h.reports[0].status.CancelledX?
                  && h.engine.buys == CancelResting(f, id).bids && h.engine.sells == CancelResting(f, id).asks
                else h.reports[0].status.RejectedX? && h.engine.buys == f.bids && h.engine.sells == f.asks)
  {
  }

  /** Bot 0 is why bots must be numbered from 1: a buy of bot 0 at the price of its own
      resting sell trades in the judge's book and rests in the engine's. */
  lemma BotZeroDisagrees() returns (f: Flats, o: Order)
    ensures BookOk(f) && BotId(o.id) == 0 && o.kind.Limit? && !o.side.OtherSide? && !Rests(f, o.id)
    ensures var h, m := Handle(Engine(f.bids, f.asks, 0), o), Match(f, o);
            && h.engine.sells == f.asks && m.book.asks == [] && h.engine.buys == [Resting(o.id, o.price, o.qty)]
               && m.book.bids == []
    ensures !OwnOutOfReach(EngineTaker(o), f.asks, o.qty)
  {
    f, o := Flats(map[], [], [Resting(7, 100, 10)]), Order(8, Limit, Buy, 100, 10);
    var t, book := EngineTaker(o), f.asks;
    assert FirstMatch(t, book[1..]).None?;
    assert Own(t, book[0]) && InLimit(t, book[0].price) && Ahead(Unskipped(t), book, 0) == 0;
    assert Sweep(TakerOf(o), book[1..], 0) == Swept([], [], 0);
  }

  // ---------------------------------------------------------------- the engine over many orders

  function EngineRun(e: Engine, os: seq<Order>): Handled
    requires Positive(e.buys) && Positive(e.sells)
    decreases os
  {
    if os == [] then Handled(e, [])
    else
      var h := Handle(e, os[0]);
      HandleKeepsPositive(e, os[0]);
      var r := EngineRun(h.engine, os[1..]);
      Handled(r.engine, h.reports + r.reports)
  }

  lemma {:induction false} EngineRunSnoc(e: Engine, os: seq<Order>, o: Order)
    requires Positive(e.buys) && Positive(e.sells)
    ensures var r := EngineRun(e, os);
            && Positive(r.engine.buys) && Positive(r.engine.sells)
            && var h := Handle(r.engine, o);
            EngineRun(e, os + [o]) == Handled(h.engine, r.reports + h.reports)
    decreases os
  {
    hide Handle, Positive;
    HandleKeepsPositive(e, o);
    if os == [] {
      assert os + [o] == [o] && [o][1..] == [];
      assert EngineRun(Handle(e, o).engine, []) == Handled(Handle(e, o).engine, []);
      assert Handle(e, o).reports + [] == [] + Handle(e, o).reports;
    } else {
      var h := Handle(e, os[0]);
      HandleKeepsPositive(e, os[0]);
      EngineRunSnoc(h.engine, os[1..], o);
      assert (os + [o])[1..] == os[1..] + [o];
      var r := EngineRun(h.engine, os[1..]);
      assert h.reports + (r.reports + Handle(r.engine, o).reports)
          == h.reports + r.reports + Handle(r.engine, o).reports;
    }
  }

  /** Over any sequence of orders the engine numbers its reports consecutively. */
  lemma {:induction false} EngineNumbersReports(e: Engine, os: seq<Order>, i: nat)
    requires Positive(e.buys) && Positive(e.sells)
    requires i < |EngineRun(e, os).reports|
    ensures EngineRun(e, os).reports[i].seqId == e.seqId + 1 + i
    decreases os
  {
    if os != [] {
      var h := Handle(e, os[0]);
      HandleKeepsPositive(e, os[0]);
      HandleNumbered(e, os[0], i);
      if i >= |h.reports| { EngineNumbersReports(h.engine, os[1..], i - |h.reports|); }
    }
  }

  // ---------------------------------------------------------------- orders on their way to the judge

  /** The orders of one bot, in sending order, that the judge has not acknowledged:
      processing them one after the other finds each non-cancel pending and each
      cancel's target no longer pending, and leaves nothing of this bot pending. */
  predicate LineOk(bot: int, line: seq<Order>, p: map<Id, Order>)
    decreases line
  {
    if line == [] then forall id :: id in p ==> BotId(id) != bot
    else if line[0].kind.Cancel? then line[0].id !in p && LineOk(bot, line[1..], p)
    else line[0].id in p && p[line[0].id] == line[0] && LineOk(bot, line[1..], p - {line[0].id})
  }

  predicate LineOf(bot: int, line: seq<Order>, m: map<Id, Order>) {
    forall i :: 0 <= i < |line| ==> Legit(line[i]) && BotId(line[i].id) == bot && line[i].id in m
  }

  lemma {:induction false} LineCancel(bot: int, line: seq<Order>, p: map<Id, Order>, c: Order)
    requires LineOk(bot, line, p) && c.kind.Cancel? && BotId(c.id) == bot
    ensures LineOk(bot, line + [c], p)
    decreases line
  {
    if line == [] {
      assert line + [c] == [c] && [c][1..] == [];
    } else {
      assert (line + [c])[1..] == line[1..] + [c];
      LineCancel(bot, line[1..], if line[0].kind.Cancel? then p else p - {line[0].id}, c);
    }
  }

  lemma {:induction false} LineNew(bot: int, line: seq<Order>, p: map<Id, Order>, o: Order)
    requires LineOk(bot, line, p) && !o.kind.Cancel? && o.id !in p
    requires forall i :: 0 <= i < |line| ==> line[i].id != o.id
    ensures LineOk(bot, line + [o], p[o.id := o])
    decreases line
  {
    var q := p[o.id := o];
    if line == [] {
      assert line + [o] == [o] && [o][1..] == [];
      assert q - {o.id} == p;
    } else {
      assert (line + [o])[1..] == line[1..] + [o];
      if line[0].kind.Cancel? {
        LineNew(bot, line[1..], p, o);
      } else {
        LineNew(bot, line[1..], p - {line[0].id}, o);
        assert (p - {line[0].id})[o.id := o] == q - {line[0].id};
      }
    }
  }

  lemma {:induction false} LineElsewhere(bot: int, line: seq<Order>, p: map<Id, Order>, q: map<Id, Order>)
    requires LineOk(bot, line, p) && forall i :: 0 <= i < |line| ==> BotId(line[i].id) == bot
    requires forall id :: BotId(id) == bot ==> (id in p <==> id in q) && (id in p ==> p[id] == q[id])
    ensures LineOk(bot, line, q)
    decreases line
  {
    hide BotId;
    if line != [] {
      if line[0].kind.Cancel? {
        LineElsewhere(bot, line[1..], p, q);
      } else {
        LineElsewhere(bot, line[1..], p - {line[0].id}, q - {line[0].id});
      }
    }
  }

  function Mine(todo: seq<Order>, bot: int): seq<Order> {
    if todo == [] then []
    else (if BotId(todo[0].id) == bot then [todo[0]] else []) + Mine(todo[1..], bot)
  }

  lemma {:induction false} MineSnoc(todo: seq<Order>, o: Order, bot: int)
    ensures Mine(todo + [o], bot) == Mine(todo, bot) + if BotId(o.id) == bot then [o] else []
  {
    hide BotId;
    if todo == [] {
      assert todo + [o] == [o] && [o][1..] == [];
    } else {
      assert (todo + [o])[1..] == todo[1..] + [o];
      MineSnoc(todo[1..], o, bot);
      var head, last := if BotId(todo[0].id) == bot then [todo[0]] else [], if BotId(o.id) == bot then [o] else [];
      assert head + (Mine(todo[1..], bot) + last) == head + Mine(todo[1..], bot) + last;
    }
  }

  function Line(s: Sys, todo: seq<Order>, bot: int): seq<Order> { Mine(todo, bot) + WaitingOf(s, bot) }

  ghost predicate LinesOk(s: Sys, todo: seq<Order>, p: map<Id, Order>, m: map<Id, Order>) {
    forall bot :: LineOk(bot, Line(s, todo, bot), p) && LineOf(bot, Line(s, todo, bot), m)
  }

  // ---------------------------------------------------------------- the invariant

  /** Engine and judge in step: `todo` are the orders the engine has handled and the
      judge has not seen acknowledged, `rest` the fill reports still owed for the
      last acknowledged one, `k` the engine's counter at that point. */
  ghost predicate InStep(f: Flats, s: Sys, todo: seq<Order>, rest: seq<ExecReport>, k: int) {
    && BookOk(f)
    && var r := EngineRun(Engine(f.bids, f.asks, k), todo);
       s.engine == r.engine && s.queue == rest + r.reports
  }

  ghost predicate LogOk(f: Flats, log: seq<Emit>, rest: seq<ExecReport>, accepted: set<Id>) {
    && Spotless(log) && AllFillReports(rest)
    && Fills(log, true) == Fills(log, false) + FillsOf(rest)
    && Ids(f.bids) + Ids(f.asks) + ExpIds(log) <= accepted
  }

  ghost predicate Inv(s: Sys, todo: seq<Order>, rest: seq<ExecReport>, k: int) {
    var r := Run(s.events);
    && FreshIds(s.events) && PositiveReports(s.events)
    && InStep(r.book, s, todo, rest, k) && LogOk(r.book, r.log, rest, s.accepted)
    && LinesOk(s, todo, r.book.pending, Submitted(s.events))
  }

  lemma EventSnoc(evs: seq<Event>, ev: Event)
    ensures var r := Run(evs);
            Run(evs + [ev]) == Outcome(Step(r.book, ev).book, r.log + Step(r.book, ev).log)
    ensures Submitted(evs + [ev])
         == if ev.Submit? && !ev.order.kind.Cancel? then Submitted(evs)[ev.order.id := ev.order] else Submitted(evs)
    ensures FreshIds(evs + [ev])
         == (FreshIds(evs) && (ev.Submit? && !ev.order.kind.Cancel? ==> ev.order.id !in Submitted(evs)))
    ensures PositiveReports(evs) && (ev.Report? ==> ev.fill.qty > 0) ==> PositiveReports(evs + [ev])
  {
    assert (evs + [ev])[..|evs|] == evs;
  }

  // ---- Send

  lemma SendLine(line: seq<Order>, bot: int, o: Order, p: map<Id, Order>, m: map<Id, Order>)
    requires LineOk(bot, line, p) && LineOf(bot, line, m) && Legit(o)
    requires if o.kind.Cancel? then o.id in m else o.id !in p && o.id !in m
    ensures var l := if bot == BotId(o.id) then line + [o] else line;
            && LineOk(bot, l, if o.kind.Cancel? then p else p[o.id := o])
            && LineOf(bot, l, if o.kind.Cancel? then m else m[o.id := o])
  {
    hide LineOk;
    if bot != BotId(o.id) {
      LineElsewhere(bot, line, p, if o.kind.Cancel? then p else p[o.id := o]);
    } else if o.kind.Cancel? {
      LineCancel(bot, line, p, o);
    } else {
      LineNew(bot, line, p, o);
    }
  }

  lemma SendLines(s: Sys, o: Order, todo: seq<Order>, p: map<Id, Order>, m: map<Id, Order>)
    requires Enabled(s, Send(o)) && LinesOk(s, todo, p, m)
    requires if o.kind.Cancel? then o.id in m else o.id !in p && o.id !in m
    ensures LinesOk(Next(s, Send(o)), todo, if o.kind.Cancel? then p else p[o.id := o],
                    if o.kind.Cancel? then m else m[o.id := o])
  {
    hide LineOk, LineOf, Mine, Submitted;
    var s' := Next(s, Send(o));
    var p', m' := if o.kind.Cancel? then p else p[o.id := o], if o.kind.Cancel? then m else m[o.id := o];
    forall bot ensures LineOk(bot, Line(s', todo, bot), p') && LineOf(bot, Line(s', todo, bot), m') {
      var line := Line(s, todo, bot);
      SendLine(line, bot, o, p, m);
      if bot == BotId(o.id) { assert Line(s', todo, bot) == line + [o]; }
    }
  }

  lemma SendInv(s: Sys, o: Order, todo: seq<Order>, rest: seq<ExecReport>, k: int)
    requires Inv(s, todo, rest, k) && Enabled(s, Send(o))
    ensures Inv(Next(s, Send(o)), todo, rest, k)
  {
    hide LineOk, LineOf, Spotless, Fills, ExpIds, EngineRun, Run, Submitted, FreshIds, PositiveReports, Sorted,
        Positive, Uncrossed;
    var r, m := Run(s.events), Submitted(s.events);
    EventSnoc(s.events, Submit(o));
    RunTrack(s.events);
    SendLines(s, o, todo, r.book.pending, m);
    assert r.log + [] == r.log;
    assert Step(r.book, Submit(o)).log == [];
    var f' := Step(r.book, Submit(o)).book;
    assert f'.bids == r.book.bids && f'.asks == r.book.asks;
    RunTrack(s.events + [Submit(o)]);
  }

  // ---- Serve

  lemma ServeLines(s: Sys, bot: int, todo: seq<Order>, p: map<Id, Order>, m: map<Id, Order>)
    requires Enabled(s, Serve(bot)) && LinesOk(s, todo, p, m)
    ensures LinesOk(Next(s, Serve(bot)), todo + [WaitingOf(s, bot)[0]], p, m)
  {
    hide LineOk, LineOf, Handle;
    var s', o := Next(s, Serve(bot)), WaitingOf(s, bot)[0];
    assert BotId(o.id) == bot by { MineWaiting(s, todo, bot, p, m); }
    forall b ensures LineOk(b, Line(s', todo + [o], b), p) && LineOf(b, Line(s', todo + [o], b), m) {
      MineSnoc(todo, o, b);
      assert LineOk(b, Line(s, todo, b), p) && LineOf(b, Line(s, todo, b), m);
      if b == bot {
        assert Line(s', todo + [o], b) == Mine(todo, b) + ([o] + WaitingOf(s, b)[1..]);
        assert [o] + WaitingOf(s, b)[1..] == WaitingOf(s, b);
      } else {
        assert Mine(todo, b) + [] == Mine(todo, b);
      }
    }
  }

  lemma MineWaiting(s: Sys, todo: seq<Order>, bot: int, p: map<Id, Order>, m: map<Id, Order>)
    requires LinesOk(s, todo, p, m) && WaitingOf(s, bot) != []
    ensures BotId(WaitingOf(s, bot)[0].id) == bot
  {
    var line := Line(s, todo, bot);
    assert LineOf(bot, line, m);
    assert line[|Mine(todo, bot)|] == WaitingOf(s, bot)[0];
  }

  lemma ServeInv(s: Sys, bot: int, todo: seq<Order>, rest: seq<ExecReport>, k: int)
    requires Inv(s, todo, rest, k) && Enabled(s, Serve(bot))
    ensures Inv(Next(s, Serve(bot)), todo + [WaitingOf(s, bot)[0]], rest, k)
  {
    hide LinesOk, Spotless, Fills, ExpIds, EngineRun, Run, Submitted, FreshIds, PositiveReports, Sorted, Uncrossed,
        Handle;
    var r, o := Run(s.events), WaitingOf(s, bot)[0];
    var e := Engine(r.book.bids, r.book.asks, k);
    ServeLines(s, bot, todo, r.book.pending, Submitted(s.events));
    EngineRunSnoc(e, todo, o);
    var er := EngineRun(e, todo);
    assert rest + er.reports + Handle(s.engine, o).reports == rest + (er.reports + Handle(s.engine, o).reports);
  }

  // ---- Deliver

  lemma {:induction false} FillsPositive(log: seq<Emit>)
    ensures PositiveFills(log) ==>
              forall i :: 0 <= i < |Fills(log, true)| ==> Fills(log, true)[i].qty > 0
  {
    if log != [] {
      FillsPositive(log[..|log| - 1]);
      LogSnoc(log[..|log| - 1], log[|log| - 1]);
      assert log[..|log| - 1] + [log[|log| - 1]] == log;
    }
  }

  lemma OwedIsExpected(f: Flats, log: seq<Emit>, rest: seq<ExecReport>, accepted: set<Id>)
    requires LogOk(f, log, rest, accepted) && PositiveFills(log) && rest != []
    ensures rest[0].orderId in accepted && rest[0].qty > 0
  {
    FillsAreExpIds(log);
    FillsPositive(log);
    var i := |Fills(log, false)|;
    assert Fills(log, true)[i] == FillOf(rest[0]);
  }

  lemma ReportFills(fill: Fill, tail: seq<Emit>, x: bool)
    requires tail == [] || tail == [Clean(fill.orderId)]
    ensures Fills([Act(fill)] + tail, x) == if x then [] else [fill]
  {
    hide Fills;
    HistOne(Act(fill), 0, x);
    if tail == [] {
      assert [Act(fill)] + tail == [Act(fill)];
    } else {
      HistOne(Clean(fill.orderId), 0, x);
      HistAppend([Act(fill)], tail, 0, x);
    }
  }

  lemma ActSpotless(fill: Fill, tail: seq<Emit>)
    requires tail == [] || tail == [Clean(fill.orderId)]
    ensures Spotless([Act(fill)] + tail)
  {
  }

  lemma FirstFill(fills: seq<Fill>, rest: seq<ExecReport>)
    requires rest != []
    ensures fills + FillsOf(rest) == fills + [FillOf(rest[0])] + FillsOf(rest[1..])
  {
  }

  lemma ReportLog(f: Flats, log: seq<Emit>, rest: seq<ExecReport>, accepted: set<Id>)
    requires LogOk(f, log, rest, accepted) && rest != []
    ensures LogOk(f, log + Step(f, Report(FillOf(rest[0]))).log, rest[1..], accepted)
  {
    hide Fills, ExpIds, Ids, Spotless, FillsOf;
    var fill := FillOf(rest[0]);
    var more := [Act(fill)] + CleanIf(f, fill.orderId);
    ActSpotless(fill, CleanIf(f, fill.orderId));
    SpotlessAppend(log, more);
    ReportFills(fill, CleanIf(f, fill.orderId), true);
    ReportFills(fill, CleanIf(f, fill.orderId), false);
    HistAppend(log, more, 0, true);
    HistAppend(log, more, 0, false);
    NoNewExp(log, more);
    FirstFill(Fills(log, false), rest);
    assert Fills(log, true) + [] == Fills(log, true);
  }

  lemma {:induction false} NoNewExp(log: seq<Emit>, tail: seq<Emit>)
    requires forall i :: 0 <= i < |tail| ==> !tail[i].Exp?
    ensures ExpIds(log + tail) == ExpIds(log)
  {
    if tail == [] {
      assert log + tail == log;
    } else {
      var n := |tail| - 1;
      assert (log + tail)[..|log + tail| - 1] == log + tail[..n];
      NoNewExp(log, tail[..n]);
    }
  }

  lemma DeliverFill(s: Sys, todo: seq<Order>, rest: seq<ExecReport>, k: int)
    requires Inv(s, todo, rest, k) && rest != []
    ensures Inv(Next(s, Deliver), todo, rest[1..], k)
  {
    hide LinesOk, LogOk, Spotless, Fills, ExpIds, EngineRun, Run, Submitted, FreshIds, PositiveReports, Positive,
        Sorted, Uncrossed, Distinct;
    var r := Run(s.events);
    RunTrack(s.events);
    OwedIsExpected(r.book, r.log, rest, s.accepted);
    assert s.queue[0] == rest[0];
    FirstIsFill(r.book, r.log, rest, s.accepted);
    var ev := Report(FillOf(rest[0]));
    EventSnoc(s.events, ev);
    ReportLog(r.book, r.log, rest, s.accepted);
    var s' := Next(s, Deliver);
    assert s'.queue == rest[1..] + EngineRun(Engine(r.book.bids, r.book.asks, k), todo).reports;
    SameLines(s, s', todo, r.book.pending, Submitted(s.events));
  }

  lemma FirstIsFill(f: Flats, log: seq<Emit>, rest: seq<ExecReport>, accepted: set<Id>)
    requires LogOk(f, log, rest, accepted) && rest != []
    ensures IsFillReport(rest[0])
  {
  }

  lemma SameLines(s: Sys, s': Sys, todo: seq<Order>, p: map<Id, Order>, m: map<Id, Order>)
    requires LinesOk(s, todo, p, m) && s'.waiting == s.waiting
    ensures LinesOk(s', todo, p, m)
  {
    forall bot ensures LineOk(bot, Line(s', todo, bot), p) && LineOf(bot, Line(s', todo, bot), m) {
      assert Line(s', todo, bot) == Line(s, todo, bot);
      assert LineOk(bot, Line(s, todo, bot), p);
    }
  }

  /** The head of `todo` leaves its bot's line; the other lines do not notice. */
  lemma PopLines(s: Sys, todo: seq<Order>, p: map<Id, Order>, m: map<Id, Order>)
    requires LinesOk(s, todo, p, m) && todo != []
    ensures Legit(todo[0]) && todo[0].id in m
    ensures if todo[0].kind.Cancel? then todo[0].id !in p else todo[0].id in p && p[todo[0].id] == todo[0]
    ensures LinesOk(s, todo[1..], if todo[0].kind.Cancel? then p else p - {todo[0].id}, m)
  {
    hide LineOk, LineOf, Line, BotId, Legit;
    var o := todo[0];
    var q := if o.kind.Cancel? then p else p - {o.id};
    forall bot ensures LineOk(bot, Line(s, todo[1..], bot), q) && LineOf(bot, Line(s, todo[1..], bot), m) {
      LinePop(s, todo, bot);
      if bot == BotId(o.id) {
        PopHome(bot, Line(s, todo, bot), p, m);
      } else {
        PopElsewhere(bot, Line(s, todo, bot), p, m, o.id, q);
      }
    }
    LinePop(s, todo, BotId(o.id));
    PopHome(BotId(o.id), Line(s, todo, BotId(o.id)), p, m);
  }

  lemma LinePop(s: Sys, todo: seq<Order>, bot: int)
    requires todo != []
    ensures if BotId(todo[0].id) == bot then
              Line(s, todo, bot) != [] && Line(s, todo, bot)[0] == todo[0]
              && Line(s, todo, bot)[1..] == Line(s, todo[1..], bot)
            else Line(s, todo, bot) == Line(s, todo[1..], bot)
  {
    hide BotId, WaitingOf;
    var line, head := Mine(todo[1..], bot) + WaitingOf(s, bot), todo[0];
    if BotId(head.id) == bot {
      assert Mine(todo, bot) == [head] + Mine(todo[1..], bot);
      hide Mine;
      assert Line(s, todo, bot) == [head] + line;
      assert ([head] + line)[1..] == line;
    } else {
      assert Mine(todo, bot) == [] + Mine(todo[1..], bot);
    }
  }

  lemma PopHome(bot: int, line: seq<Order>, p: map<Id, Order>, m: map<Id, Order>)
    requires LineOk(bot, line, p) && LineOf(bot, line, m) && line != []
    ensures Legit(line[0]) && line[0].id in m
    ensures if line[0].kind.Cancel? then line[0].id !in p else line[0].id in p && p[line[0].id] == line[0]
    ensures LineOk(bot, line[1..], if line[0].kind.Cancel? then p else p - {line[0].id}) && LineOf(bot, line[1..], m)
  {
  }

  lemma PopElsewhere(bot: int, line: seq<Order>, p: map<Id, Order>, m: map<Id, Order>, id: Id, q: map<Id, Order>)
    requires LineOk(bot, line, p) && LineOf(bot, line, m) && BotId(id) != bot && (q == p || q == p - {id})
    ensures LineOk(bot, line, q)
  {
    hide LineOk;
    LineElsewhere(bot, line, p, q);
  }

  lemma MatchLogOk(f: Flats, log: seq<Emit>, m: map<Id, Order>, o: Order, accepted: set<Id>, k: int)
    requires LogOk(f, log, [], accepted) && BookOk(f) && Track(f, log, m)
    requires Legit(o) && !o.kind.Cancel? && o.id !in f.pending && !Rests(f, o.id) && o.id !in ExpIds(log)
    ensures var out := Match(f, o);
            LogOk(out.book, log + out.log, Handle(Engine(f.bids, f.asks, k), o).reports[1..], accepted + {o.id})
  {
    hide Match, Handle, Fills, ExpIds, Retired, Tidy, Makers, DoneMakers, Sweep, Sorted, Distinct, Uncrossed;
    var out := Match(f, o);
    HandleIsMatch(f, o, k);
    ExpBeforeRetired(log);
    MatchLog(f, o, log);
    MatchKeepsBook(f, o);
    HistAppend(log, out.log, 0, true);
    HistAppend(log, out.log, 0, false);
    assert Fills(log, true) == Fills(log, false) + [] == Fills(log, false);
    assert Fills(log, false) + [] == Fills(log, false);
    forall id | id in Ids(out.book.bids) + Ids(out.book.asks) ensures id in accepted + {o.id} {
      assert Rests(out.book, id);
    }
  }

  lemma BookSides(f: Flats)
    requires BookOk(f)
    ensures Positive(f.bids) && Positive(f.asks)
  {
  }

  /** The report to be delivered next is the first one about the head of `todo`. */
  lemma QueueStarts(s: Sys, f: Flats, todo: seq<Order>, k: int)
    requires InStep(f, s, todo, [], k) && todo != []
    ensures BookOk(f) && Positive(f.bids) && Positive(f.asks)
    ensures var h := Handle(Engine(f.bids, f.asks, k), todo[0]);
            h.reports != [] ==> s.queue != [] && s.queue[0] == h.reports[0]
  {
    hide Handle, Positive, BookOk, EngineRun;
    BookSides(f);
    RunOne(Engine(f.bids, f.asks, k), todo);
  }

  /** Once it is delivered, the reports still owed are the others about that order. */
  lemma HeadServed(s: Sys, n: Sys, f: Flats, g: Flats, todo: seq<Order>, k: int)
    requires InStep(f, s, todo, [], k) && todo != [] && s.queue != [] && n.engine == s.engine && n.queue == s.queue[1..]
    requires Positive(f.bids) && Positive(f.asks) && BookOk(g)
    requires var h := Handle(Engine(f.bids, f.asks, k), todo[0]);
             h.reports != [] && h.engine == Engine(g.bids, g.asks, h.engine.seqId)
    ensures var h := Handle(Engine(f.bids, f.asks, k), todo[0]);
            InStep(g, n, todo[1..], h.reports[1..], h.engine.seqId)
  {
    hide Handle, Positive, BookOk, EngineRun;
    var e := Engine(f.bids, f.asks, k);
    var h := Handle(e, todo[0]);
    RunOne(e, todo);
    var later := EngineRun(h.engine, todo[1..]).reports;
    WithoutFirst(h.reports, later);
  }

  lemma RunOne(e: Engine, os: seq<Order>)
    requires Positive(e.buys) && Positive(e.sells) && os != []
    ensures var h := Handle(e, os[0]);
            && Positive(h.engine.buys) && Positive(h.engine.sells)
            && var r := EngineRun(h.engine, os[1..]);
               EngineRun(e, os) == Handled(r.engine, h.reports + r.reports)
  {
    hide Handle, Positive;
    HandleKeepsPositive(e, os[0]);
  }

  lemma WithoutFirst(reports: seq<ExecReport>, later: seq<ExecReport>)
    requires reports != []
    ensures ([] + (reports + later))[1..] == reports[1..] + later
    ensures ([] + (reports + later))[0] == reports[0]
  {
  }

  lemma DeliverAccepted(s: Sys, todo: seq<Order>, k: int)
    requires Inv(s, todo, [], k) && todo != [] && !todo[0].kind.Cancel?
    ensures s.queue != []
    ensures var f := Run(s.events).book;
            var h := Handle(Engine(f.bids, f.asks, k), todo[0]);
            h.reports != [] && Inv(Next(s, Deliver), todo[1..], h.reports[1..], h.engine.seqId)
  {
    hide LinesOk, LogOk, Track, Match, Handle, Run, Submitted, FreshIds, PositiveReports, Positive, Sorted, Uncrossed,
        Distinct, InStep, BookOk;
    var r, o, m := Run(s.events), todo[0], Submitted(s.events);
    var f := r.book;
    QueueStarts(s, f, todo, k);
    var e := Engine(f.bids, f.asks, k);
    var h := Handle(e, o);
    RunTrack(s.events);
    PopLines(s, todo, f.pending, m);
    PendingUntraded(f, r.log, m, o.id);
    var g := f.(pending := f.pending - {o.id});
    AcceptStep(f, o);
    EventSnoc(s.events, Ack(o.id, Accepted));
    PendingGone(f, r.log, m, o.id, s.accepted);
    HandleIsMatch(g, o, k);
    var out := Match(g, o);
    MatchLogOk(g, r.log, m, o, s.accepted, k);
    MatchKeepsBook(g, o);
    var n := Next(s, Deliver);
    assert n.events == s.events + [Ack(o.id, Accepted)];
    assert h.engine == Engine(out.book.bids, out.book.asks, h.engine.seqId);
    HeadServed(s, n, f, out.book, todo, k);
    SameLines(s, n, todo[1..], g.pending, m);
  }

  lemma AcceptStep(f: Flats, o: Order)
    requires o.id in f.pending && f.pending[o.id] == o && (o.kind.Limit? || o.kind.Market?)
    ensures Step(f, Ack(o.id, Accepted)) == Match(f.(pending := f.pending - {o.id}), o)
  {
  }

  lemma PendingUntraded(f: Flats, log: seq<Emit>, m: map<Id, Order>, id: Id)
    requires Track(f, log, m) && id in f.pending
    ensures id !in ExpIds(log)
  {
  }

  /** Taking an order out of `pending` disturbs nothing else. */
  lemma PendingGone(f: Flats, log: seq<Emit>, m: map<Id, Order>, id: Id, accepted: set<Id>)
    requires BookOk(f) && Track(f, log, m) && LogOk(f, log, [], accepted) && id in f.pending
    ensures var g := f.(pending := f.pending - {id});
            BookOk(g) && !Rests(g, id) && Track(g, log, m) && LogOk(g, log, [], accepted)
  {
  }

  lemma CancelLogOk(f: Flats, log: seq<Emit>, ev: Event, accepted: set<Id>)
    requires LogOk(f, log, [], accepted) && BookOk(f) && ev.Ack? && ev.id !in f.pending
    requires ev.status == if Rests(f, ev.id) then Cancelled else Rejected
    ensures LogOk(Step(f, ev).book, log + Step(f, ev).log, [], accepted)
    ensures BookOk(Step(f, ev).book) && Step(f, ev).book.pending == f.pending
    ensures Step(f, ev).book == if Rests(f, ev.id) then CancelResting(f, ev.id) else f
  {
    CancelStep(f, ev);
    hide LogOk, BookOk, Step, CancelResting, Rests;
    QuietLogOk(f, Step(f, ev).book, log, Step(f, ev).log, accepted);
  }

  /** A tail that only drops and cleans, on a book that only loses orders. */
  lemma QuietLogOk(f: Flats, g: Flats, log: seq<Emit>, tail: seq<Emit>, accepted: set<Id>)
    requires LogOk(f, log, [], accepted)
    requires forall id :: Rests(g, id) ==> Rests(f, id)
    requires forall i :: 0 <= i < |tail| ==> tail[i].Drop? || tail[i].Clean?
    ensures LogOk(g, log + tail, [], accepted)
  {
    hide Fills, ExpIds, Ids;
    SpotlessAppend(log, tail);
    NoNewExp(log, tail);
    QuietFills(tail);
    HistAppend(log, tail, 0, true);
    HistAppend(log, tail, 0, false);
    assert Fills(log, true) + [] == Fills(log, true) && Fills(log, false) + [] == Fills(log, false);
    forall id | id in Ids(g.bids) + Ids(g.asks) ensures id in accepted {
      assert Rests(g, id) && Rests(f, id);
    }
  }

  lemma CancelStep(f: Flats, ev: Event)
    requires BookOk(f) && ev.Ack? && ev.id !in f.pending
    requires ev.status == if Rests(f, ev.id) then Cancelled else Rejected
    ensures var out := Step(f, ev);
            && out.book == (if Rests(f, ev.id) then CancelResting(f, ev.id) else f)
            && BookOk(out.book) && out.book.pending == f.pending
            && (forall id :: Rests(out.book, id) ==> Rests(f, id))
            && (forall i :: 0 <= i < |out.log| ==> out.log[i].Drop? || out.log[i].Clean?)
  {
    hide BookOk, RestQty;
    CancelKeepsBook(f, ev.id);
  }

  lemma {:induction false} QuietFills(tail: seq<Emit>)
    requires forall i :: 0 <= i < |tail| ==> !tail[i].Exp? && !tail[i].Act?
    ensures Fills(tail, true) == [] == Fills(tail, false)
  {
    if tail != [] { QuietFills(tail[..|tail| - 1]); }
  }

  lemma DeliverCancel(s: Sys, todo: seq<Order>, k: int)
    requires Inv(s, todo, [], k) && todo != [] && todo[0].kind.Cancel?
    ensures s.queue != [] && Inv(Next(s, Deliver), todo[1..], [], k + 1)
  {
    hide LinesOk, LogOk, Track, Run, Submitted, FreshIds, PositiveReports, Positive, Sorted, Uncrossed, Distinct, Step,
        CancelResting, InStep, BookOk;
    var r, o, m := Run(s.events), todo[0], Submitted(s.events);
    var f := r.book;
    QueueStarts(s, f, todo, k);
    var e := Engine(f.bids, f.asks, k);
    var h := HandleCancel(e, o.id);
    assert Handle(e, o) == h;
    HandleIsCancel(f, o.id, k);
    PopLines(s, todo, f.pending, m);
    var ev := Ack(o.id, if Rests(f, o.id) then Cancelled else Rejected);
    EventSnoc(s.events, ev);
    CancelLogOk(f, r.log, ev, s.accepted);
    var out := Step(f, ev);
    var n := Next(s, Deliver);
    assert n.events == s.events + [ev];
    assert h.engine == Engine(out.book.bids, out.book.asks, k + 1);
    HeadServed(s, n, f, out.book, todo, k);
    assert h.reports[1..] == [];
    SameLines(s, n, todo[1..], f.pending, m);
  }

  /** Every reachable state is in step. */
  lemma {:induction false} ReachableInStep(run: seq<Action>) returns (todo: seq<Order>, rest: seq<ExecReport>, k: int)
    requires Legal(run)
    ensures Inv(Exec(run), todo, rest, k)
  {
    hide Inv, Next;
    if run == [] {
      todo, rest, k := [], [], 0;
      StartInv();
    } else {
      var prev, a := run[..|run| - 1], run[|run| - 1];
      todo, rest, k := ReachableInStep(prev);
      var s := Exec(prev);
      match a
      case Send(o) => SendInv(s, o, todo, rest, k);
      case Serve(bot) =>
        ServeInv(s, bot, todo, rest, k);
        todo := todo + [WaitingOf(s, bot)[0]];
      case Deliver =>
        todo, rest, k := DeliverInv(s, todo, rest, k);
    }
  }

  lemma StartBook()
    ensures InStep(EMPTY, START, [], [], 0)
  {
  }

  lemma StartLog()
    ensures LogOk(EMPTY, [], [], {})
  {
  }

  lemma StartLines()
    ensures LinesOk(START, [], map[], map[])
  {
    assert forall bot :: Line(START, [], bot) == [];
  }

  lemma StartInv()
    ensures Inv(START, [], [], 0)
  {
    hide InStep, LogOk, LinesOk;
    StartBook();
    StartLog();
    StartLines();
    assert Run(START.events) == Outcome(EMPTY, []);
  }

  lemma DeliverInv(s: Sys, todo: seq<Order>, rest: seq<ExecReport>, k: int)
    returns (todo': seq<Order>, rest': seq<ExecReport>, k': int)
    requires Inv(s, todo, rest, k) && s.queue != []
    ensures Inv(Next(s, Deliver), todo', rest', k')
  {
    hide LinesOk, LogOk, Run, Submitted, FreshIds, PositiveReports, BookOk, Next, Handle;
    if rest != [] {
      DeliverFill(s, todo, rest, k);
      todo', rest', k' := todo, rest[1..], k;
    } else if todo != [] && todo[0].kind.Cancel? {
      DeliverCancel(s, todo, k);
      todo', rest', k' := todo[1..], [], k + 1;
    } else {
      assert todo != [];
      DeliverAccepted(s, todo, k);
      var f := Run(s.events).book;
      BookIsPositive(f, s, todo, rest, k);
      var h := Handle(Engine(f.bids, f.asks, k), todo[0]);
      todo', rest', k' := todo[1..], h.reports[1..], h.engine.seqId;
    }
  }

  lemma BookIsPositive(f: Flats, s: Sys, todo: seq<Order>, rest: seq<ExecReport>, k: int)
    requires InStep(f, s, todo, rest, k)
    ensures Positive(f.bids) && Positive(f.asks)
  {
  }

  lemma SameStreamsAreExact(log: seq<Emit>, id: Id)
    requires Fills(log, true) == Fills(log, false)
    ensures Judge.Exact(log, id)
  {
    HistIsFilter(log, id, true);
    HistIsFilter(log, id, false);
  }

  /** In every reachable state the engine can serve any bot that has an order waiting. */
  lemma ServeNeedsOnlyAnOrder(run: seq<Action>, bot: int)
    requires Legal(run)
    ensures Enabled(Exec(run), Serve(bot)) <==> WaitingOf(Exec(run), bot) != []
  {
    hide Exec, Run, LinesOk, LogOk, EngineRun, Handle;
    var todo, rest, k := ReachableInStep(run);
    var f := Run(Exec(run).events).book;
    BookIsPositive(f, Exec(run), todo, rest, k);
    RunIsPositive(Engine(f.bids, f.asks, k), todo);
  }

  lemma RunIsPositive(e: Engine, os: seq<Order>)
    requires Positive(e.buys) && Positive(e.sells)
    ensures Positive(EngineRun(e, os).engine.buys) && Positive(EngineRun(e, os).engine.sells)
  {
    EngineRunSnoc(e, os, Order(0, Limit, Buy, 0, 0));
  }

  /** The judge never penalises a correct engine: whatever the orders and however
      sending, matching and reporting interleave, once all reports are processed
      the score is 100 and nothing counts as misacknowledged. */
  lemma CorrectEngineScores100(run: seq<Action>)
    requires Legal(run) && Exec(run).queue == []
    ensures var log := Run(Exec(run).events).log;
            && Ledger.Judgement(Judge.Books(log)) == 100.0
            && Count(log, BadAck) == 0 && Count(log, Duplicate) == 0 && Count(log, UnknownAck) == 0
            && Fills(log, true) == Fills(log, false)
  {
    hide Hist, Fills, Exec, Run, LinesOk, BookOk, EngineRun, Judge.Exact, Judge.Books, Ledger.Judgement;
    var todo, rest, k := ReachableInStep(run);
    var evs := Exec(run).events;
    var log := Run(evs).log;
    assert rest == [];
    assert Fills(log, false) + [] == Fills(log, false);
    SpotlessCounts(log);
    forall id ensures Judge.Exact(log, id) { SameStreamsAreExact(log, id); }
    Judge.RunScoreMeansExact(evs);
  }
}
