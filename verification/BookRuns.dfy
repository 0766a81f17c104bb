/** What holds of the judge's book and log over every run of events. */
module BookRuns {
  import opened Orders
  import opened Matching
  import opened Log
  import opened FlatBook

  // ---------------------------------------------------------------- trades of one sweep

  function Makers(trades: seq<Trade>): set<Id> {
    if trades == [] then {} else {trades[0].maker} + Makers(trades[1..])
  }

  function DoneMakers(trades: seq<Trade>): set<Id> {
    if trades == [] then {}
    else (if trades[0].done then {trades[0].maker} else {}) + DoneMakers(trades[1..])
  }

  /** Every maker trades once, and for a positive quantity. */
  predicate Separate(trades: seq<Trade>) {
    trades == [] || (trades[0].maker !in Makers(trades[1..]) && trades[0].qty > 0 && Separate(trades[1..]))
  }

  lemma {:induction false} SweepTrades(t: Taker, book: seq<Resting>, rem: int)
    requires Positive(book) && Distinct(book)
    ensures var s := Sweep(t, book, rem);
            Separate(s.trades) && Makers(s.trades) <= Ids(book) && DoneMakers(s.trades) !! Ids(s.book)
  {
    if book == [] || rem <= 0 || !InLimit(t, book[0].price) {
    } else {
      var q := Min(rem, book[0].qty);
      var rest := if Own(t, book[0]) then rem else rem - q;
      var u := Sweep(t, book[1..], rest);
      SweepTrades(t, book[1..], rest);
      SweepIds(t, book[1..], rest);
      IdsCons(book);
      DoneAreMakers(u.trades);
      if Own(t, book[0]) {
        IdsPlus([book[0]], u.book);
      } else {
        assert ([TradeWith(book[0], q)] + u.trades)[1..] == u.trades;
        IdsPlus(Leftover(book[0], q), u.book);
      }
    }
  }

  /** Every order that leaves the book is used up. */
  lemma {:induction false} SweepKeepsRest(t: Taker, book: seq<Resting>, rem: int)
    ensures var s := Sweep(t, book, rem); Ids(book) <= Ids(s.book) + DoneMakers(s.trades)
  {
    hide Ids;
    if book == [] || rem <= 0 || !InLimit(t, book[0].price) {
    } else {
      var q := Min(rem, book[0].qty);
      var rest := if Own(t, book[0]) then rem else rem - q;
      var u := Sweep(t, book[1..], rest);
      SweepKeepsRest(t, book[1..], rest);
      assert book == [book[0]] + book[1..];
      IdsPlus([book[0]], book[1..]);
      IdsOne(book[0]);
      if Own(t, book[0]) {
        IdsPlus([book[0]], u.book);
      } else {
        assert ([TradeWith(book[0], q)] + u.trades)[1..] == u.trades;
        IdsPlus(Leftover(book[0], q), u.book);
        IdsOne(book[0].(qty := book[0].qty - q));
      }
    }
  }

  /** The orders that leave the book are exactly those used up. */
  lemma SweepRemovesDone(t: Taker, book: seq<Resting>, rem: int)
    requires Positive(book) && Distinct(book)
    ensures var s := Sweep(t, book, rem); Ids(s.book) == Ids(book) - DoneMakers(s.trades)
  {
    hide Sweep, Ids, DoneMakers, Positive, Distinct;
    SweepKeepsRest(t, book, rem);
    SweepTrades(t, book, rem);
    SweepIds(t, book, rem);
  }

  lemma IdsOne(r: Resting)
    ensures Ids([r]) == {r.id}
  {
    assert r in [r];
  }

  lemma IdsPlus(a: seq<Resting>, b: seq<Resting>)
    ensures Ids(a + b) == Ids(a) + Ids(b)
  {
    assert forall r :: r in a ==> r in a + b;
    assert forall r :: r in b ==> r in a + b;
  }

  lemma {:induction false} DoneAreMakers(trades: seq<Trade>)
    ensures DoneMakers(trades) <= Makers(trades)
  {
    if trades != [] { DoneAreMakers(trades[1..]); }
  }

  lemma IdsCons(book: seq<Resting>)
    requires book != [] && Distinct(book)
    ensures Ids(book) == {book[0].id} + Ids(book[1..]) && book[0].id !in Ids(book[1..])
  {
    assert book == [book[0]] + book[1..];
  }

  /** Logging the trades of one match keeps the log tidy. */
  lemma {:induction false} TradeLogTidy(log: seq<Emit>, taker: Id, trades: seq<Trade>)
    requires Tidy(log) && Separate(trades) && taker !in Makers(trades)
    requires taker !in Retired(log) && Makers(trades) !! Retired(log)
    ensures var l := log + TradeLog(taker, trades);
            && Tidy(l) && Retired(l) <= Retired(log) + DoneMakers(trades)
            && ExpIds(l) <= ExpIds(log) + {taker} + Makers(trades)
            && (PositiveFills(log) ==> PositiveFills(l))
    decreases trades
  {
    hide Tidy, Retired, ExpIds, PositiveFills, TradeEmits;
    if trades == [] {
      assert log + TradeLog(taker, trades) == log;
    } else {
      var t := trades[0];
      var l := log + TradeEmits(taker, t);
      OneTradeTidy(log, taker, t);
      TradeLogTidy(l, taker, trades[1..]);
      assert l + TradeLog(taker, trades[1..]) == log + TradeLog(taker, trades);
    }
  }

  lemma OneTradeTidy(log: seq<Emit>, taker: Id, t: Trade)
    requires Tidy(log) && taker !in Retired(log) && t.maker !in Retired(log) && t.qty > 0
    ensures var l := log + TradeEmits(taker, t);
            && Tidy(l) && Retired(l) <= Retired(log) + (if t.done then {t.maker} else {})
            && ExpIds(l) == ExpIds(log) + {taker, t.maker} && (PositiveFills(log) ==> PositiveFills(l))
  {
    hide Tidy, Retired, ExpIds, PositiveFills;
    var e1, e2 := Exp(Fill(taker, t.qty, t.price, t.maker)), Exp(Fill(t.maker, t.qty, t.price, taker));
    var l1 := log + [e1];
    var l2 := l1 + [e2];
    LogSnoc(log, e1);
    LogSnoc(l1, e2);
    LogSnoc(l2, Clean(t.maker));
    assert log + TradeEmits(taker, t) == if t.done then l2 + [Clean(t.maker)] else l2;
  }

  lemma {:induction false} TradesSnoc(taker: Id, trades: seq<Trade>, t: Trade)
    ensures TradeLog(taker, trades + [t]) == TradeLog(taker, trades) + TradeEmits(taker, t)
    ensures DoneMakers(trades + [t]) == DoneMakers(trades) + if t.done then {t.maker} else {}
  {
    if trades == [] {
      assert trades + [t] == [t] && [t][1..] == [];
    } else {
      assert (trades + [t])[1..] == trades[1..] + [t];
      TradesSnoc(taker, trades[1..], t);
      var e := TradeEmits(taker, trades[0]);
      assert e + (TradeLog(taker, trades[1..]) + TradeEmits(taker, t))
          == e + TradeLog(taker, trades[1..]) + TradeEmits(taker, t);
    }
  }

  lemma {:induction false} TradesAppend(taker: Id, a: seq<Trade>, b: seq<Trade>)
    ensures TradeLog(taker, a + b) == TradeLog(taker, a) + TradeLog(taker, b)
    ensures DoneMakers(a + b) == DoneMakers(a) + DoneMakers(b)
  {
    if a == [] {
      assert a + b == b;
    } else {
      assert (a + b)[1..] == a[1..] + b;
      TradesAppend(taker, a[1..], b);
      var e := TradeEmits(taker, a[0]);
      assert e + (TradeLog(taker, a[1..]) + TradeLog(taker, b)) == e + TradeLog(taker, a[1..]) + TradeLog(taker, b);
    }
  }

  // ---------------------------------------------------------------- the run invariant

  /** Book, log and submitted orders fit together. */
  ghost predicate Track(f: Flats, log: seq<Emit>, m: map<Id, Order>) {
    && Tidy(log) && ExpIds(log) <= m.Keys
    && (forall id :: id in f.pending ==> id in m && f.pending[id] == m[id] && id !in ExpIds(log))
    && (forall id :: Rests(f, id) ==> id !in Retired(log))
    && (forall id :: id in Ids(f.bids) ==> id in m && m[id].side.Buy?)
    && (forall id :: id in Ids(f.asks) ==> id in m && m[id].side.Sell?)
  }

  /** Emits that expect no fill and offer only departed orders for cleanup. */
  lemma {:induction false} QuietTail(log: seq<Emit>, tail: seq<Emit>)
    requires Tidy(log) && forall i :: 0 <= i < |tail| ==> !tail[i].Exp?
    ensures Tidy(log + tail) && ExpIds(log + tail) == ExpIds(log)
    ensures forall id :: id in Retired(log + tail) ==> id in Retired(log) || Clean(id) in tail
    ensures Retired(log) <= Retired(log + tail) <= Retired(log) + ExpIds(log)
    ensures PositiveFills(log) && (forall i :: 0 <= i < |tail| && tail[i].Act? ==> tail[i].fill.qty > 0)
            ==> PositiveFills(log + tail)
  {
    hide Tidy, Retired, ExpIds, PositiveFills;
    if tail == [] {
      assert log + tail == log;
    } else {
      var n := |tail| - 1;
      QuietTail(log, tail[..n]);
      assert log + tail == (log + tail[..n]) + [tail[n]];
      LogSnoc(log + tail[..n], tail[n]);
      assert tail == tail[..n] + [tail[n]];
    }
  }

  lemma ExpBeforeRetired(log: seq<Emit>)
    ensures Retired(log) <= ExpIds(log)
  {
  }

  /** An event that trades nothing: pending may shrink, lists may shrink. */
  lemma QuietTrack(f: Flats, g: Flats, log: seq<Emit>, tail: seq<Emit>, m: map<Id, Order>)
    requires Track(f, log, m)
    requires forall i :: 0 <= i < |tail| ==> !tail[i].Exp?
    requires forall id :: id in g.pending ==> id in f.pending && g.pending[id] == f.pending[id]
    requires Ids(g.bids) <= Ids(f.bids) && Ids(g.asks) <= Ids(f.asks)
    requires forall id :: Clean(id) in tail ==> !Rests(g, id)
    ensures Track(g, log + tail, m)
    ensures PositiveFills(log) && (forall i :: 0 <= i < |tail| && tail[i].Act? ==> tail[i].fill.qty > 0)
            ==> PositiveFills(log + tail)
  {
    QuietTail(log, tail);
  }

  lemma MatchTrackEnd(f: Flats, g: Flats, o: Order, log: seq<Emit>, l: seq<Emit>, trades: seq<Trade>, m: map<Id, Order>)
    requires Track(f, log, m) && o.id in m && m[o.id] == o && !o.side.OtherSide?
    requires Apart(f.bids, f.asks) && forall id :: id in f.pending ==> !Rests(f, id)
    requires o.id !in f.pending && !Rests(f, o.id) && o.id !in ExpIds(log)
    requires Tidy(l) && g.pending == f.pending
    requires Makers(trades) <= Ids(SideOf(f, Opposite(o.side)))
    requires DoneMakers(trades) !! Ids(SideOf(g, Opposite(o.side)))
    requires Retired(l) <= Retired(log) + DoneMakers(trades) + {o.id}
    requires o.id in Retired(l) ==> !Rests(g, o.id)
    requires ExpIds(l) <= ExpIds(log) + {o.id} + Makers(trades)
    requires Ids(SideOf(g, o.side)) <= Ids(SideOf(f, o.side)) + {o.id}
    requires Ids(SideOf(g, Opposite(o.side))) <= Ids(SideOf(f, Opposite(o.side)))
    ensures Track(g, l, m)
  {
    hide Makers, DoneMakers, Tidy, Retired, ExpIds;
    DoneAreMakers(trades);
    assert DoneMakers(trades) !! Ids(SideOf(g, o.side));
  }

  /** The log of a match, extended to the run. */
  lemma MatchLog(f: Flats, o: Order, log: seq<Emit>)
    requires BookOk(f) && Tidy(log) && !o.side.OtherSide? && !Rests(f, o.id)
    requires o.id !in Retired(log) && forall id :: Rests(f, id) ==> id !in Retired(log)
    ensures var s := Sweep(TakerOf(o), SideOf(f, Opposite(o.side)), o.qty);
            var l := log + Match(f, o).log;
            && Tidy(l) && Retired(l) <= Retired(log) + DoneMakers(s.trades) + {o.id}
            && ExpIds(l) <= ExpIds(log) + {o.id} + Makers(s.trades)
            && (o.kind.Limit? && s.rem > 0 ==> o.id !in Retired(l))
            && (PositiveFills(log) ==> PositiveFills(l))
            && Makers(s.trades) <= Ids(SideOf(f, Opposite(o.side))) && DoneMakers(s.trades) !! Ids(s.book)
  {
    hide Tidy, Retired, ExpIds, PositiveFills, Sorted, Uncrossed, Sweep, Makers, DoneMakers;
    var book := SideOf(f, Opposite(o.side));
    var s := Sweep(TakerOf(o), book, o.qty);
    SweepTrades(TakerOf(o), book, o.qty);
    DoneAreMakers(s.trades);
    var tl := TradeLog(o.id, s.trades);
    TradeLogTidy(log, o.id, s.trades);
    if !(o.kind.Limit? && s.rem > 0) {
      var tail := [Drop(o.id, s.rem), Clean(o.id)];
      QuietTail(log + tl, tail);
      assert log + tl + tail == log + (tl + tail);
      var l := log + tl + tail;
      forall id | id in Retired(l) ensures id in Retired(log) + DoneMakers(s.trades) + {o.id} {
        assert id in Retired(log + tl) || Clean(id) in tail;
      }
    }
  }

  lemma MatchTrack(f: Flats, o: Order, log: seq<Emit>, m: map<Id, Order>)
    requires BookOk(f) && Track(f, log, m) && o.id in m && m[o.id] == o
    requires o.id !in f.pending && !Rests(f, o.id) && o.id !in ExpIds(log)
    ensures Track(Match(f, o).book, log + Match(f, o).log, m)
  {
    hide Tidy, Retired, ExpIds, PositiveFills, Sorted, Positive, Uncrossed, Sweep, Makers, DoneMakers, TradeLog;
    ExpBeforeRetired(log);
    var out := Match(f, o);
    if o.side.OtherSide? {
      QuietTrack(f, f, log, out.log, m);
    } else {
      MatchLog(f, o, log);
      MatchKeepsLists(f, o);
      var s := Sweep(TakerOf(o), SideOf(f, Opposite(o.side)), o.qty);
      MatchTrackEnd(f, out.book, o, log, log + out.log, s.trades, m);
    }
  }

  lemma MatchPositive(f: Flats, o: Order, log: seq<Emit>)
    requires BookOk(f) && Tidy(log) && !Rests(f, o.id)
    requires o.id !in Retired(log) && forall id :: Rests(f, id) ==> id !in Retired(log)
    ensures PositiveFills(log) ==> PositiveFills(log + Match(f, o).log)
  {
    hide Tidy, Retired, Uncrossed, Sorted, Sweep, TradeLog;
    if o.side.OtherSide? { QuietTail(log, Match(f, o).log); } else { MatchLog(f, o, log); }
  }

  lemma AckTrack(f: Flats, id: Id, status: Status, log: seq<Emit>, m: map<Id, Order>)
    requires BookOk(f) && Track(f, log, m) && id in f.pending && !status.Cancelled?
    ensures Track(StepAck(f, id, status).book, log + StepAck(f, id, status).log, m)
    ensures PositiveFills(log) ==> PositiveFills(log + StepAck(f, id, status).log)
  {
    hide Match, PositiveFills, Uncrossed, Sorted, Positive;
    var out := StepAck(f, id, status);
    var g := f.(pending := f.pending - {id});
    var o := f.pending[id];
    if (o.kind.Limit? || o.kind.Market?) && status.Accepted? {
      QuietTrack(f, g, log, [], m);
      assert log + [] == log;
      assert BookOk(g);
      MatchTrack(g, o, log, m);
      ExpBeforeRetired(log);
      MatchPositive(g, o, log);
    } else {
      QuietTrack(f, g, log, out.log, m);
    }
  }

  lemma CancelTrack(f: Flats, id: Id, log: seq<Emit>, m: map<Id, Order>)
    requires BookOk(f) && Track(f, log, m)
    ensures Track(StepCancelled(f, id).book, log + StepCancelled(f, id).log, m)
    ensures PositiveFills(log) ==> PositiveFills(log + StepCancelled(f, id).log)
  {
    hide Track, PositiveFills, Sorted, Positive, Uncrossed;
    WithoutIds(f.bids, id);
    WithoutIds(f.asks, id);
    var out := StepCancelled(f, id);
    QuietTrack(f, out.book, log, out.log, m);
  }

  lemma SubmitTrack(f: Flats, o: Order, log: seq<Emit>, m: map<Id, Order>)
    requires BookOk(f) && Track(f, log, m) && !o.kind.Cancel? && o.id !in m
    ensures Track(StepSubmit(f, o).book, log + StepSubmit(f, o).log, m[o.id := o])
    ensures PositiveFills(log) ==> PositiveFills(log + StepSubmit(f, o).log)
  {
    QuietTail(log, StepSubmit(f, o).log);
  }

  lemma StepTrack(f: Flats, ev: Event, log: seq<Emit>, m: map<Id, Order>)
    requires BookOk(f) && Track(f, log, m)
    requires ev.Submit? && !ev.order.kind.Cancel? ==> ev.order.id !in m
    ensures var m' := if ev.Submit? && !ev.order.kind.Cancel? then m[ev.order.id := ev.order] else m;
            Track(Step(f, ev).book, log + Step(f, ev).log, m')
    ensures PositiveFills(log) && (ev.Report? ==> ev.fill.qty > 0) ==> PositiveFills(log + Step(f, ev).log)
  {
    hide Track, PositiveFills;
    match ev
    case Submit(o) =>
      if o.kind.Cancel? { assert log + Step(f, ev).log == log; } else { SubmitTrack(f, o, log, m); }
    case Report(fill) =>
      QuietTrack(f, f, log, Step(f, ev).log, m);
    case Ack(id, status) =>
      if status.Cancelled? {
        CancelTrack(f, id, log, m);
      } else if id in f.pending {
        AckTrack(f, id, status, log, m);
      } else {
        QuietTrack(f, f, log, StepAck(f, id, status).log, m);
      }
  }

  /** In every run with fresh ids: the book is well formed and uncrossed between
      different bots, the log is tidy, and fills are positive. */
  lemma {:induction false} RunTrack(evs: seq<Event>)
    requires FreshIds(evs)
    ensures BookOk(Run(evs).book)
    ensures Track(Run(evs).book, Run(evs).log, Submitted(evs))
    ensures PositiveReports(evs) ==> PositiveFills(Run(evs).log)
  {
    if evs != [] {
      var prev, ev := evs[..|evs| - 1], evs[|evs| - 1];
      RunTrack(prev);
      StepKeepsBook(Run(prev).book, ev);
      StepTrack(Run(prev).book, ev, Run(prev).log, Submitted(prev));
      assert PositiveReports(evs) ==> PositiveReports(prev);
    }
  }

  // ---------------------------------------------------------------- conservation

  /** Quantity of an order that has traded or can no longer trade. */
  function Spent(log: seq<Emit>, id: Id): int { Qty(Hist(log, id, true)) + Dropped(log, id) }

  function Open(f: Flats, id: Id): int { RestQty(f.bids, id) + RestQty(f.asks, id) }

  /** What the book has taken responsibility for: the order's quantity once acknowledged. */
  function Owed(f: Flats, m: map<Id, Order>, id: Id): int {
    if id in m && id !in f.pending then m[id].qty else 0
  }

  lemma SpentAppend(a: seq<Emit>, b: seq<Emit>, id: Id)
    ensures Spent(a + b, id) == Spent(a, id) + Spent(b, id)
  {
    HistAppend(a, b, id, true);
    QtyAppend(Hist(a, id, true), Hist(b, id, true));
  }

  lemma SpentOne(e: Emit, id: Id)
    ensures Spent([e], id) == (if e.Exp? && e.fill.orderId == id then e.fill.qty else 0)
                              + (if e.Drop? && e.id == id then e.qty else 0)
  {
    HistOne(e, id, true);
    if e.Exp? { QtyOne(e.fill); }
  }

  lemma {:induction false} TradeLogSpent(taker: Id, trades: seq<Trade>, id: Id)
    ensures Spent(TradeLog(taker, trades), id)
         == (if id == taker then TradedQty(trades) else 0) + TradedWith(trades, id)
  {
    if trades != [] {
      var t := trades[0];
      var e1, e2 := Exp(Fill(taker, t.qty, t.price, t.maker)), Exp(Fill(t.maker, t.qty, t.price, taker));
      TradeLogSpent(taker, trades[1..], id);
      SpentAppend(TradeEmits(taker, t), TradeLog(taker, trades[1..]), id);
      SpentAppend([e1, e2], if t.done then [Clean(t.maker)] else [], id);
      SpentAppend([e1], [e2], id);
      assert [e1] + [e2] == [e1, e2];
      SpentOne(e1, id);
      SpentOne(e2, id);
      SpentOne(Clean(t.maker), id);
    }
  }

  lemma QuietSpent(tail: seq<Emit>, id: Id)
    requires forall i :: 0 <= i < |tail| ==> !tail[i].Exp? && !tail[i].Drop?
    ensures Spent(tail, id) == 0
  {
    if tail != [] {
      QuietSpent(tail[..|tail| - 1], id);
      assert Hist(tail, id, true) == Hist(tail[..|tail| - 1], id, true);
    }
  }

  lemma DropSpent(pre: seq<Emit>, x: Id, q: int, post: seq<Emit>, id: Id)
    requires forall i :: 0 <= i < |pre| ==> !pre[i].Exp? && !pre[i].Drop?
    requires forall i :: 0 <= i < |post| ==> !post[i].Exp? && !post[i].Drop?
    ensures Spent(pre + ([Drop(x, q)] + post), id) == if id == x then q else 0
  {
    SpentAppend(pre, [Drop(x, q)] + post, id);
    SpentAppend([Drop(x, q)], post, id);
    SpentOne(Drop(x, q), id);
    QuietSpent(pre, id);
    QuietSpent(post, id);
  }

  lemma MatchSpends(f: Flats, o: Order, id: Id)
    ensures Open(Match(f, o).book, id) + Spent(Match(f, o).log, id)
         == Open(f, id) + (if id == o.id then o.qty else 0)
  {
    hide Spent, RestQty, Sweep, TradedQty, TradedWith;
    if o.side.OtherSide? {
      DropSpent([], o.id, o.qty, [Clean(o.id)], id);
      assert [] + ([Drop(o.id, o.qty)] + [Clean(o.id)]) == [Drop(o.id, o.qty), Clean(o.id)];
    } else {
      var t, book := TakerOf(o), SideOf(f, Opposite(o.side));
      var s := Sweep(t, book, o.qty);
      SweepConserves(t, book, o.qty);
      SweepConservesEach(t, book, o.qty, id);
      TradeLogSpent(o.id, s.trades, id);
      if o.kind.Limit? && s.rem > 0 {
        InsertQty(o.side, SideOf(f, o.side), Resting(o.id, o.price, s.rem), id);
      } else {
        SpentAppend(TradeLog(o.id, s.trades), [Drop(o.id, s.rem), Clean(o.id)], id);
        DropSpent([], o.id, s.rem, [Clean(o.id)], id);
        assert [] + ([Drop(o.id, s.rem)] + [Clean(o.id)]) == [Drop(o.id, s.rem), Clean(o.id)];
      }
    }
  }

  lemma CancelSpends(f: Flats, x: Id, id: Id)
    requires BookOk(f)
    ensures Open(StepCancelled(f, x).book, id) + Spent(StepCancelled(f, x).log, id) == Open(f, id)
  {
    var out := StepCancelled(f, x);
    hide BookOk, Open, Rests, Spent, CancelResting;
    if Rests(f, x) {
      CancelOpen(f, x, id);
      var clean := CleanIf(out.book, x);
      DropSpent([], x, Open(f, x), clean, id);
      assert [] + ([Drop(x, Open(f, x))] + clean) == out.log;
    } else {
      QuietSpent(out.log, id);
    }
  }

  lemma CancelOpen(f: Flats, x: Id, id: Id)
    requires BookOk(f) && Rests(f, x)
    ensures Open(CancelResting(f, x), id) == Open(f, id) - if id == x then Open(f, x) else 0
    ensures Open(f, x) == RestQty(f.bids, x) + RestQty(f.asks, x)
  {
    hide Sorted, Uncrossed, Distinct, Without;
    WithoutQty(f.bids, x, id);
    WithoutQty(f.asks, x, id);
  }

  lemma AckSpends(f: Flats, x: Id, status: Status, id: Id)
    requires BookOk(f) && x in f.pending && !status.Cancelled?
    ensures Open(StepAck(f, x, status).book, id) + Spent(StepAck(f, x, status).log, id)
         == Open(f, id) + (if id == x then f.pending[x].qty else 0)
  {
    var o := f.pending[x];
    var g := f.(pending := f.pending - {x});
    var out := StepAck(f, x, status);
    if (o.kind.Limit? || o.kind.Market?) && status.Accepted? {
      MatchSpends(g, o, id);
    } else {
      var bad := if (o.kind.Limit? || o.kind.Market?) || !status.Rejected? then [BadAck] else [];
      DropSpent(bad, x, o.qty, [Clean(x)], id);
      assert out.log == bad + ([Drop(x, o.qty)] + [Clean(x)]);
    }
  }

  lemma StepSpends(f: Flats, ev: Event, m: map<Id, Order>, id: Id)
    requires BookOk(f)
    requires forall x :: x in f.pending ==> x in m && f.pending[x] == m[x]
    requires ev.Submit? && !ev.order.kind.Cancel? ==> ev.order.id !in m
    ensures var m' := if ev.Submit? && !ev.order.kind.Cancel? then m[ev.order.id := ev.order] else m;
            Open(Step(f, ev).book, id) + Spent(Step(f, ev).log, id) - Open(f, id)
            == Owed(Step(f, ev).book, m', id) - Owed(f, m, id)
  {
    hide Spent, RestQty, Match;
    match ev
    case Submit(o) => QuietSpent(Step(f, ev).log, id);
    case Report(fill) => QuietSpent(Step(f, ev).log, id);
    case Ack(x, status) =>
      if status.Cancelled? {
        CancelSpends(f, x, id);
        assert StepCancelled(f, x).book.pending == f.pending;
      } else if x !in f.pending {
        QuietSpent(StepAck(f, x, status).log, id);
      } else {
        AckSpends(f, x, status, id);
        AckPending(f, x, status);
      }
  }

  lemma AckPending(f: Flats, x: Id, status: Status)
    requires x in f.pending && !status.Cancelled?
    ensures StepAck(f, x, status).book.pending == f.pending - {x}
  {
  }

  /** Quantity conservation over whole runs: for every order the judge has seen
      acknowledged, original quantity = resting + expected fills + dropped remainder. */
  lemma {:induction false} QuantityConserved(evs: seq<Event>, id: Id)
    requires FreshIds(evs)
    ensures var r := Run(evs);
            Open(r.book, id) + Qty(Hist(r.log, id, true)) + Dropped(r.log, id)
            == Owed(r.book, Submitted(evs), id)
  {
    if evs != [] {
      var prev, ev := evs[..|evs| - 1], evs[|evs| - 1];
      QuantityConserved(prev, id);
      RunTrack(prev);
      var r := Run(prev);
      StepSpends(r.book, ev, Submitted(prev), id);
      SpentAppend(r.log, Step(r.book, ev).log, id);
    }
  }

  // ---------------------------------------------------------------- both sides of every trade

  /** Quantity order `x` is expected to trade with order `y` at price `p`. */
  function Between(fills: seq<Fill>, x: Id, y: Id, p: int): int {
    if fills == [] then 0
    else
      var f := fills[|fills| - 1];
      Between(fills[..|fills| - 1], x, y, p)
      + if f.orderId == x && f.matchedWith == y && f.price == p then f.qty else 0
  }

  /** Expected quantity of the orders on one side. */
  function Volume(fills: seq<Fill>, m: map<Id, Order>, side: Side): int {
    if fills == [] then 0
    else
      var f := fills[|fills| - 1];
      Volume(fills[..|fills| - 1], m, side)
      + if f.orderId in m && m[f.orderId].side == side then f.qty else 0
  }

  lemma {:induction false} BetweenAppend(a: seq<Fill>, b: seq<Fill>, x: Id, y: Id, p: int)
    ensures Between(a + b, x, y, p) == Between(a, x, y, p) + Between(b, x, y, p)
  {
    if b == [] {
      assert a + b == a;
    } else {
      assert (a + b)[..|a + b| - 1] == a + b[..|b| - 1];
      BetweenAppend(a, b[..|b| - 1], x, y, p);
    }
  }

  lemma {:induction false} VolumeAppend(a: seq<Fill>, b: seq<Fill>, m: map<Id, Order>, side: Side)
    ensures Volume(a + b, m, side) == Volume(a, m, side) + Volume(b, m, side)
  {
    if b == [] {
      assert a + b == a;
    } else {
      assert (a + b)[..|a + b| - 1] == a + b[..|b| - 1];
      VolumeAppend(a, b[..|b| - 1], m, side);
    }
  }

  function TwoSides(taker: Id, t: Trade): seq<Fill> {
    [Fill(taker, t.qty, t.price, t.maker), Fill(t.maker, t.qty, t.price, taker)]
  }

  /** The fills a match expects: two per trade, taker first. */
  function ExpectedFills(taker: Id, trades: seq<Trade>): seq<Fill> {
    if trades == [] then [] else TwoSides(taker, trades[0]) + ExpectedFills(taker, trades[1..])
  }

  lemma {:induction false} TradeLogFills(taker: Id, trades: seq<Trade>)
    ensures Fills(TradeLog(taker, trades), true) == ExpectedFills(taker, trades)
    ensures Fills(TradeLog(taker, trades), false) == []
  {
    if trades != [] {
      var t := trades[0];
      var e1, e2 := Exp(Fill(taker, t.qty, t.price, t.maker)), Exp(Fill(t.maker, t.qty, t.price, taker));
      TradeLogFills(taker, trades[1..]);
      TwoFills(e1, e2, if t.done then [Clean(t.maker)] else [], true);
      TwoFills(e1, e2, if t.done then [Clean(t.maker)] else [], false);
      HistAppend(TradeEmits(taker, t), TradeLog(taker, trades[1..]), 0, true);
      HistAppend(TradeEmits(taker, t), TradeLog(taker, trades[1..]), 0, false);
    }
  }

  lemma TwoFills(e1: Emit, e2: Emit, tail: seq<Emit>, x: bool)
    requires e1.Exp? && e2.Exp? && |tail| <= 1 && (tail != [] ==> tail[0].Clean?)
    ensures Fills([e1, e2] + tail, x) == if x then [e1.fill, e2.fill] else []
  {
    hide Fills, Hist, Dropped;
    HistOne(e1, 0, x);
    HistOne(e2, 0, x);
    HistAppend([e1], [e2], 0, x);
    assert [e1] + [e2] == [e1, e2];
    if tail == [] {
      assert [e1, e2] + tail == [e1, e2];
    } else {
      HistAppend([e1, e2], tail, 0, x);
      assert tail == [tail[0]];
      HistOne(tail[0], 0, x);
    }
  }

  lemma TwoSums(a: Fill, b: Fill, x: Id, y: Id, p: int, m: map<Id, Order>, side: Side)
    ensures Between([a, b], x, y, p)
         == (if a.orderId == x && a.matchedWith == y && a.price == p then a.qty else 0)
            + (if b.orderId == x && b.matchedWith == y && b.price == p then b.qty else 0)
    ensures Volume([a, b], m, side)
         == (if a.orderId in m && m[a.orderId].side == side then a.qty else 0)
            + (if b.orderId in m && m[b.orderId].side == side then b.qty else 0)
    ensures Qty([a, b]) == a.qty + b.qty
  {
    assert [a] + [b] == [a, b];
    BetweenAppend([a], [b], x, y, p);
    VolumeAppend([a], [b], m, side);
    QtyAppend([a], [b]);
    QtyOne(a);
    QtyOne(b);
    assert [a][..0] == [] && [b][..0] == [];
  }

  lemma {:induction false} ExpectedMirror(taker: Id, trades: seq<Trade>, x: Id, y: Id, p: int)
    ensures Between(ExpectedFills(taker, trades), x, y, p) == Between(ExpectedFills(taker, trades), y, x, p)
  {
    if trades != [] {
      var two := TwoSides(taker, trades[0]);
      ExpectedMirror(taker, trades[1..], x, y, p);
      BetweenAppend(two, ExpectedFills(taker, trades[1..]), x, y, p);
      BetweenAppend(two, ExpectedFills(taker, trades[1..]), y, x, p);
      TwoSums(two[0], two[1], x, y, p, map[], Buy);
      TwoSums(two[0], two[1], y, x, p, map[], Buy);
    }
  }

  lemma {:induction false} ExpectedVolume(taker: Id, trades: seq<Trade>, m: map<Id, Order>, side: Side)
    requires taker in m && !m[taker].side.OtherSide? && !side.OtherSide?
    requires forall id :: id in Makers(trades) ==> id in m && m[id].side == Opposite(m[taker].side)
    ensures Volume(ExpectedFills(taker, trades), m, side) == TradedQty(trades)
    ensures Qty(ExpectedFills(taker, trades)) == 2 * TradedQty(trades)
  {
    if trades != [] {
      var two, rest := TwoSides(taker, trades[0]), ExpectedFills(taker, trades[1..]);
      ExpectedVolume(taker, trades[1..], m, side);
      VolumeAppend(two, rest, m, side);
      QtyAppend(two, rest);
      TwoSums(two[0], two[1], 0, 0, 0, m, side);
      assert trades[0].maker in Makers(trades);
    }
  }

  /** What a step expects is exactly what its match trades. */
  function StepTrades(f: Flats, ev: Event): seq<Trade> {
    if ev.Ack? && ev.status.Accepted? && ev.id in f.pending && !f.pending[ev.id].side.OtherSide?
       && (f.pending[ev.id].kind.Limit? || f.pending[ev.id].kind.Market?)
    then
      var o := f.pending[ev.id];
      Sweep(TakerOf(o), SideOf(f, Opposite(o.side)), o.qty).trades
    else []
  }

  lemma {:induction false} NoFills(tail: seq<Emit>)
    requires forall i :: 0 <= i < |tail| ==> !tail[i].Exp?
    ensures Fills(tail, true) == []
  {
    if tail != [] { NoFills(tail[..|tail| - 1]); }
  }

  lemma MatchFills(f: Flats, o: Order)
    requires !o.side.OtherSide?
    ensures Fills(Match(f, o).log, true)
         == ExpectedFills(o.id, Sweep(TakerOf(o), SideOf(f, Opposite(o.side)), o.qty).trades)
  {
    var s := Sweep(TakerOf(o), SideOf(f, Opposite(o.side)), o.qty);
    var tl, tail := TradeLog(o.id, s.trades), [Drop(o.id, s.rem), Clean(o.id)];
    TradeLogFills(o.id, s.trades);
    NoFills(tail);
    HistAppend(tl, tail, 0, true);
  }

  lemma StepFills(f: Flats, ev: Event)
    requires forall id :: id in f.pending ==> f.pending[id].id == id
    ensures Fills(Step(f, ev).log, true) == ExpectedFills(if ev.Ack? then ev.id else 0, StepTrades(f, ev))
  {
    hide Fills, Sweep, ExpectedFills, TakerOf;
    if ev.Ack? && ev.status.Accepted? && ev.id in f.pending && !f.pending[ev.id].side.OtherSide?
       && (f.pending[ev.id].kind.Limit? || f.pending[ev.id].kind.Market?)
    {
      var o, g := f.pending[ev.id], f.(pending := f.pending - {ev.id});
      hide Match;
      assert Step(f, ev).log == Match(g, o).log;
      MatchFills(g, o);
    } else {
      QuietStep(f, ev);
      NoFills(Step(f, ev).log);
      NothingExpected(if ev.Ack? then ev.id else 0);
    }
  }

  lemma NothingExpected(taker: Id)
    ensures ExpectedFills(taker, []) == []
  {
  }

  /** A step that matches nothing expects nothing. */
  lemma QuietStep(f: Flats, ev: Event)
    requires !(ev.Ack? && ev.status.Accepted? && ev.id in f.pending && !f.pending[ev.id].side.OtherSide?
               && (f.pending[ev.id].kind.Limit? || f.pending[ev.id].kind.Market?))
    ensures forall i :: 0 <= i < |Step(f, ev).log| ==> !Step(f, ev).log[i].Exp?
  {
    if ev.Ack? { QuietAck(f, ev.id, ev.status); }
    hide StepAck, Rests;
  }

  lemma QuietAck(f: Flats, id: Id, status: Status)
    requires !(status.Accepted? && id in f.pending && !f.pending[id].side.OtherSide?
               && (f.pending[id].kind.Limit? || f.pending[id].kind.Market?))
    ensures forall i :: 0 <= i < |StepAck(f, id, status).log| ==> !StepAck(f, id, status).log[i].Exp?
  {
    hide Sweep, TradeLog, RestQty, Rests, CancelResting;
    if status.Cancelled? {
      assert StepAck(f, id, status) == StepCancelled(f, id);
    } else if id in f.pending && status.Accepted? && (f.pending[id].kind.Limit? || f.pending[id].kind.Market?) {
      assert f.pending[id].side.OtherSide?;
    }
  }

  /** Every trade is recorded on both sides with the counterparties swapped. */
  lemma {:induction false} TradesMirrored(evs: seq<Event>, x: Id, y: Id, p: int)
    requires FreshIds(evs)
    ensures Between(Fills(Run(evs).log, true), x, y, p) == Between(Fills(Run(evs).log, true), y, x, p)
  {
    if evs != [] {
      var prev, ev := evs[..|evs| - 1], evs[|evs| - 1];
      TradesMirrored(prev, x, y, p);
      RunTrack(prev);
      var r := Run(prev);
      var s := Step(r.book, ev);
      StepFills(r.book, ev);
      ExpectedMirror(if ev.Ack? then ev.id else 0, StepTrades(r.book, ev), x, y, p);
      HistAppend(r.log, s.log, 0, true);
      BetweenAppend(Fills(r.log, true), Fills(s.log, true), x, y, p);
      BetweenAppend(Fills(r.log, true), Fills(s.log, true), y, x, p);
    }
  }

  lemma {:induction false} VolumeExtend(fills: seq<Fill>, m: map<Id, Order>, o: Order, side: Side)
    requires forall i :: 0 <= i < |fills| ==> fills[i].orderId != o.id
    ensures Volume(fills, m[o.id := o], side) == Volume(fills, m, side)
  {
    if fills != [] { VolumeExtend(fills[..|fills| - 1], m, o, side); }
  }

  lemma {:induction false} FillsAreExpIds(log: seq<Emit>)
    ensures forall i :: 0 <= i < |Fills(log, true)| ==> Fills(log, true)[i].orderId in ExpIds(log)
  {
    if log != [] { FillsAreExpIds(log[..|log| - 1]); }
  }

  lemma StepVolume(f: Flats, ev: Event, log: seq<Emit>, m: map<Id, Order>, side: Side)
    requires BookOk(f) && Track(f, log, m) && !side.OtherSide?
    ensures Volume(Fills(Step(f, ev).log, true), m, side) == TradedQty(StepTrades(f, ev))
    ensures Qty(Fills(Step(f, ev).log, true)) == 2 * TradedQty(StepTrades(f, ev))
  {
    StepFills(f, ev);
    if ev.Ack? && StepTrades(f, ev) != [] {
      var o := f.pending[ev.id];
      SweepTrades(TakerOf(o), SideOf(f, Opposite(o.side)), o.qty);
      ExpectedVolume(ev.id, StepTrades(f, ev), m, side);
    }
  }

  lemma NeverFilled(f: Flats, log: seq<Emit>, m: map<Id, Order>, id: Id)
    requires Track(f, log, m) && id !in m
    ensures forall i :: 0 <= i < |Fills(log, true)| ==> Fills(log, true)[i].orderId != id
  {
    FillsAreExpIds(log);
  }

  lemma SubmitFills(f: Flats, o: Order)
    requires BookOk(f)
    ensures Fills(Step(f, Submit(o)).log, true) == []
  {
    hide Fills, Step;
    StepFills(f, Submit(o));
  }

  lemma VolumeNone(m: map<Id, Order>, side: Side)
    ensures Volume([], m, side) == 0 && Qty([]) == 0
  {
  }

  /** Bought volume equals sold volume, and the expected quantity is twice that. */
  lemma {:induction false} VolumesBalance(evs: seq<Event>)
    requires FreshIds(evs)
    ensures var fills := Fills(Run(evs).log, true);
            var m := Submitted(evs);
            Volume(fills, m, Buy) == Volume(fills, m, Sell) && Qty(fills) == 2 * Volume(fills, m, Buy)
  {
    if evs != [] {
      var prev, ev := evs[..|evs| - 1], evs[|evs| - 1];
      VolumesBalance(prev);
      RunTrack(prev);
      hide Step, Track, BookOk, Fills, Volume, Qty;
      var r, m := Run(prev), Submitted(prev);
      var s := Step(r.book, ev);
      assert Run(evs).log == r.log + s.log;
      hide Run;
      HistAppend(r.log, s.log, 0, true);
      var before, now := Fills(r.log, true), Fills(s.log, true);
      QtyAppend(before, now);
      StepVolume(r.book, ev, r.log, m, Buy);
      StepVolume(r.book, ev, r.log, m, Sell);
      VolumeAppend(before, now, Submitted(evs), Buy);
      VolumeAppend(before, now, Submitted(evs), Sell);
      if ev.Submit? && !ev.order.kind.Cancel? {
        NeverFilled(r.book, r.log, m, ev.order.id);
        VolumeExtend(before, m, ev.order, Buy);
        VolumeExtend(before, m, ev.order, Sell);
        assert Submitted(evs) == m[ev.order.id := ev.order];
        hide Submitted;
        SubmitFills(r.book, ev.order);
        VolumeNone(Submitted(evs), Buy);
        VolumeNone(Submitted(evs), Sell);
        VolumeNone(m, Buy);
      }
    }
  }
}
