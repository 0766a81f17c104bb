/** Price-time priority in terms of when orders were accepted. The flat lists rank orders by
    price and, within a price, by position; over every run position is age. */
module TimePriority {
  import opened Orders
  import opened Matching
  import opened Log
  import opened FlatBook
  import opened BookRuns

  /** When an order was accepted: how many events came before the first accepting
      acknowledgement after its submission. The book plays no part in this. */
  function Since(evs: seq<Event>): map<Id, nat> {
    if evs == [] then map[]
    else
      var prev, ev := evs[..|evs| - 1], evs[|evs| - 1];
      Accepting(Since(prev), Submitted(prev).Keys, ev, |prev|)
  }

  function Accepting(since: map<Id, nat>, submitted: set<Id>, ev: Event, now: nat): map<Id, nat> {
    if ev.Ack? && ev.status.Accepted? && ev.id in submitted && ev.id !in since then since[ev.id := now] else since
  }

  predicate Older(since: map<Id, nat>, a: Id, b: Id) { a in since && b in since && since[a] < since[b] }

  /** Orders at one price stand in the order in which they were accepted. */
  predicate Aged(book: seq<Resting>, since: map<Id, nat>) {
    forall i, j :: 0 <= i < j < |book| && book[i].price == book[j].price ==> Older(since, book[i].id, book[j].id)
  }

  /** Everything on the list was accepted before `now`. */
  predicate Dated(book: seq<Resting>, since: map<Id, nat>, now: nat) {
    forall r :: r in book ==> r.id in since && since[r.id] < now
  }

  // ---------------------------------------------------------------- one list

  lemma AgedTail(book: seq<Resting>, since: map<Id, nat>)
    requires Aged(book, since) && book != []
    ensures Aged(book[1..], since)
    ensures forall r :: r in book[1..] && r.price == book[0].price ==> Older(since, book[0].id, r.id)
  {
  }

  lemma AgedCons(r: Resting, rest: seq<Resting>, since: map<Id, nat>)
    requires Aged(rest, since) && forall x :: x in rest && x.price == r.price ==> Older(since, r.id, x.id)
    ensures Aged([r] + rest, since)
  {
    var book := [r] + rest;
    forall i, j | 0 <= i < j < |book| && book[i].price == book[j].price ensures Older(since, book[i].id, book[j].id) {
      assert book[j] == rest[j - 1];
      if i > 0 { assert book[i] == rest[i - 1]; }
    }
  }

  /** Trading shrinks and removes orders, and moves none. */
  lemma {:induction false} SweepAged(t: Taker, book: seq<Resting>, rem: int, since: map<Id, nat>)
    requires Aged(book, since)
    ensures Aged(Sweep(t, book, rem).book, since)
  {
    if book == [] || rem <= 0 || !InLimit(t, book[0].price) {
    } else {
      var r, one := book[0], SweepOne(t, book[0], rem);
      assert book == [r] + book[1..];
      SweepCons(t, r, book[1..], rem);
      AgedTail(book, since);
      SweepAged(t, book[1..], one.rem, since);
      var u := Sweep(t, book[1..], one.rem).book;
      hide Sweep, Aged;
      if one.book == [] {
        assert one.book + u == u;
      } else {
        forall x | x in u && x.price == r.price ensures Older(since, r.id, x.id) {
          SweepRest(t, book[1..], one.rem, x);
        }
        AgedCons(one.book[0], u, since);
        assert one.book == [one.book[0]];
      }
    }
  }

  lemma {:induction false} WithoutAged(book: seq<Resting>, id: Id, since: map<Id, nat>)
    requires Aged(book, since)
    ensures Aged(Without(book, id), since)
  {
    if book != [] {
      AgedTail(book, since);
      if book[0].id != id {
        WithoutAged(book[1..], id, since);
        var u := Without(book[1..], id);
        hide Aged;
        forall x | x in u && x.price == book[0].price ensures Older(since, book[0].id, x.id) {
          WithoutMember(book[1..], id, x);
        }
        AgedCons(book[0], u, since);
      }
    }
  }

  /** What was just accepted stands behind everything accepted before at its price. */
  lemma {:induction false} InsertAged(side: Side, book: seq<Resting>, r: Resting, since: map<Id, nat>, now: nat)
    requires !side.OtherSide? && Sorted(side, book) && Aged(book, since) && Dated(book, since, now)
    requires r.id in since && since[r.id] == now
    ensures Aged(Insert(side, book, r), since)
  {
    if book == [] || Key(side, r.price) < Key(side, book[0].price) {
      forall x | x in book ensures x.price != r.price {
        var i :| 0 <= i < |book| && book[i] == x;
        assert i > 0 ==> Key(side, book[0].price) <= Key(side, book[i].price);
      }
      AgedCons(r, book, since);
    } else {
      AgedTail(book, since);
      assert book[0] in book && forall x :: x in book[1..] ==> x in book;
      InsertAged(side, book[1..], r, since, now);
      var u := Insert(side, book[1..], r);
      hide Aged;
      forall x | x in u && x.price == book[0].price ensures Older(since, book[0].id, x.id) {
        InsertMember(side, book[1..], r, x);
      }
      AgedCons(book[0], u, since);
    }
  }

  /** Accepting another order leaves the ages of those on the list. */
  lemma SameAges(book: seq<Resting>, since: map<Id, nat>, later: map<Id, nat>)
    requires Aged(book, since) && forall r :: r in book ==> r.id in later && r.id in since && later[r.id] == since[r.id]
    ensures Aged(book, later)
  {
    forall i, j | 0 <= i < j < |book| && book[i].price == book[j].price ensures Older(later, book[i].id, book[j].id) {
      assert book[i] in book && book[j] in book && Older(since, book[i].id, book[j].id);
    }
  }

  // ---------------------------------------------------------------- the whole book, over runs

  ghost predicate InTime(f: Flats, since: map<Id, nat>, submitted: set<Id>, now: nat) {
    && Aged(f.bids, since) && Aged(f.asks, since)
    && Dated(f.bids, since, now) && Dated(f.asks, since, now)
    && since.Keys <= submitted && (forall id :: id in f.pending ==> id in submitted && id !in since)
  }

  /** The order whose acknowledgement is event number `now` is matched, and may rest. */
  lemma MatchAged(f: Flats, o: Order, since: map<Id, nat>, now: nat)
    requires BookOk(f) && Aged(f.bids, since) && Aged(f.asks, since)
    requires Dated(f.bids, since, now) && Dated(f.asks, since, now)
    requires o.id in since && since[o.id] == now && !Rests(f, o.id)
    ensures var g := Match(f, o).book;
            Aged(g.bids, since) && Aged(g.asks, since) && Dated(g.bids, since, now + 1) && Dated(g.asks, since, now + 1)
  {
    hide Aged, Sweep, Sorted, Positive, Uncrossed, Distinct;
    if !o.side.OtherSide? {
      var t, m := TakerOf(o), Opposite(o.side);
      var s := Sweep(t, SideOf(f, m), o.qty);
      SweepAged(t, SideOf(f, m), o.qty, since);
      forall x | x in s.book ensures x.id in since && since[x.id] < now { SweepRest(t, SideOf(f, m), o.qty, x); }
      if o.kind.Limit? && s.rem > 0 {
        var r := Resting(o.id, o.price, s.rem);
        InsertAged(o.side, SideOf(f, o.side), r, since, now);
        forall x | x in Insert(o.side, SideOf(f, o.side), r) ensures x.id in since && since[x.id] < now + 1 {
          InsertMember(o.side, SideOf(f, o.side), r, x);
        }
      }
    }
  }

  lemma CancelAged(f: Flats, id: Id, since: map<Id, nat>, now: nat)
    requires Aged(f.bids, since) && Aged(f.asks, since) && Dated(f.bids, since, now) && Dated(f.asks, since, now)
    ensures var g := CancelResting(f, id);
            Aged(g.bids, since) && Aged(g.asks, since) && Dated(g.bids, since, now) && Dated(g.asks, since, now)
  {
    hide Aged, Without;
    WithoutAged(f.bids, id, since);
    WithoutAged(f.asks, id, since);
    forall x | x in Without(f.bids, id) ensures x in f.bids { WithoutMember(f.bids, id, x); }
    forall x | x in Without(f.asks, id) ensures x in f.asks { WithoutMember(f.asks, id, x); }
  }

  lemma StepInTime(f: Flats, ev: Event, since: map<Id, nat>, submitted: set<Id>, now: nat)
    requires BookOk(f) && InTime(f, since, submitted, now)
    requires ev.Submit? && !ev.order.kind.Cancel? ==> ev.order.id !in submitted
    ensures InTime(Step(f, ev).book, Accepting(since, submitted, ev, now),
                   if ev.Submit? && !ev.order.kind.Cancel? then submitted + {ev.order.id} else submitted, now + 1)
  {
    hide Aged;
    match ev
    case Submit(o) =>
    case Report(fill) =>
    case Ack(id, status) => AckInTime(f, id, status, since, submitted, now);
  }

  lemma AckInTime(f: Flats, id: Id, status: Status, since: map<Id, nat>, submitted: set<Id>, now: nat)
    requires BookOk(f) && InTime(f, since, submitted, now)
    ensures InTime(StepAck(f, id, status).book, Accepting(since, submitted, Ack(id, status), now), submitted, now + 1)
  {
    hide Match, CancelResting, Aged, Sorted, Positive, Uncrossed, Distinct;
    var later := Accepting(since, submitted, Ack(id, status), now);
    SameAges(f.bids, since, later);
    SameAges(f.asks, since, later);
    if status.Cancelled? {
      CancelAged(f, id, since, now);
      assert CancelResting(f, id).pending == f.pending by { CancelKeepsBook(f, id); }
    } else if id in f.pending {
      var o, g := f.pending[id], f.(pending := f.pending - {id});
      if (o.kind.Limit? || o.kind.Market?) && status.Accepted? {
        assert BookOk(g);
        MatchAged(g, o, later, now);
        assert Match(g, o).book.pending == g.pending by { MatchKeepsBook(g, o); }
      }
    }
  }

  /** In every run in which ids are submitted once, orders of one price rest in the order in
      which they were accepted, on both sides. */
  lemma {:induction false} RunInTime(evs: seq<Event>)
    requires FreshIds(evs)
    ensures InTime(Run(evs).book, Since(evs), Submitted(evs).Keys, |evs|)
  {
    if evs != [] {
      var prev, ev := evs[..|evs| - 1], evs[|evs| - 1];
      RunInTime(prev);
      RunTrack(prev);
      hide InTime, Track, BookOk, Step, Accepting;
      StepInTime(Run(prev).book, ev, Since(prev), Submitted(prev).Keys, |prev|);
    }
  }

  // ---------------------------------------------------------------- who trades first

  /** Better price, or the same price and accepted earlier. */
  predicate Before(side: Side, since: map<Id, nat>, a: Resting, b: Resting) {
    Key(side, a.price) < Key(side, b.price) || (a.price == b.price && Older(since, a.id, b.id))
  }

  /** In every run the flat lists are exactly in price-time order. */
  lemma PositionIsAge(evs: seq<Event>, side: Side, i: nat, j: nat)
    requires FreshIds(evs) && !side.OtherSide?
    requires i < |SideOf(Run(evs).book, side)| && j < |SideOf(Run(evs).book, side)|
    ensures var book := SideOf(Run(evs).book, side); i < j <==> Before(side, Since(evs), book[i], book[j])
  {
    RunTrack(evs);
    RunInTime(evs);
    hide Run, Track;
    BeforeIsAhead(side, SideOf(Run(evs).book, side), Since(evs), i, j);
  }

  lemma BeforeIsAhead(side: Side, book: seq<Resting>, since: map<Id, nat>, i: nat, j: nat)
    requires Sorted(side, book) && Aged(book, since) && i < |book| && j < |book|
    ensures Before(side, since, book[i], book[j]) ==> i < j
    ensures i < j && !side.OtherSide? ==> Before(side, since, book[i], book[j])
  {
    if i < j {
      assert Key(side, book[i].price) <= Key(side, book[j].price);
    } else if j < i {
      assert Key(side, book[j].price) <= Key(side, book[i].price);
    }
  }

  lemma {:induction false} FillOfTrade(taker: Id, trades: seq<Trade>, f: Fill)
    requires taker !in Makers(trades)
    ensures f in ExpectedFills(taker, trades) && f.orderId == taker <==>
            f.orderId == taker && exists tr :: tr in trades && f == Fill(taker, tr.qty, tr.price, tr.maker)
  {
    if trades != [] {
      var two, rest := TwoSides(taker, trades[0]), trades[1..];
      FillOfTrade(taker, rest, f);
      assert trades == [trades[0]] + rest;
      assert f in ExpectedFills(taker, trades) <==> f == two[0] || f == two[1] || f in ExpectedFills(taker, rest);
    }
  }

  /** Price-time priority over whole runs. Let an acknowledgement accept the order `id`. If it
      makes `id` trade with `b`, then every resting order of another bot within the limit that
      has a better price than `b`, or the same price and was accepted earlier, trades all it
      has at its own price and is gone. */
  lemma PriceTimePriority(evs: seq<Event>, id: Id, a: Resting, b: Resting, fill: Fill)
    requires FreshIds(evs) && id in Run(evs).book.pending
    requires var f := Run(evs).book;
             var o := f.pending[id];
             var ev := Ack(id, Accepted);
             && (o.kind.Limit? || o.kind.Market?) && !o.side.OtherSide?
             && var book, t := SideOf(f, Opposite(o.side)), TakerOf(o);
                && a in book && b in book && Eligible(t, a) && Before(t.makers, Since(evs), a, b)
                && fill in Fills(Step(f, ev).log, true) && fill.orderId == id && fill.matchedWith == b.id
    ensures var f := Run(evs).book;
            && Fill(id, a.qty, a.price, a.id) in Fills(Step(f, Ack(id, Accepted)).log, true)
            && !Rests(Run(evs + [Ack(id, Accepted)]).book, a.id)
            && fill.price == b.price && 0 < fill.qty <= b.qty
  {
    var f := Run(evs).book;
    RunTrack(evs);
    RunInTime(evs);
    hide Run, Track;
    var o, ev := f.pending[id], Ack(id, Accepted);
    var book, t := SideOf(f, Opposite(o.side)), TakerOf(o);
    var i: nat, j: nat :| i < |book| && j < |book| && book[i] == a && book[j] == b;
    BeforeIsAhead(t.makers, book, Since(evs), i, j);
    assert id !in Ids(book);
    hide Since, InTime, Uncrossed, Sweep, ExpectedFills, Fills, Makers, Step, Aged, Sorted, Positive, Distinct;
    StepFills(f, ev);
    SweepTrades(t, book, o.qty);
    var trades := StepTrades(f, ev);
    FillOfTrade(id, trades, fill);
    var tr :| tr in trades && fill == Fill(id, tr.qty, tr.price, tr.maker);
    PriorityIsRespected(t, book, o.qty, i, j, tr);
    FillOfTrade(id, trades, Fill(id, a.qty, a.price, a.id));
    GoneAfterMatch(f, o, a);
    NextRun(evs, ev);
  }

  lemma NextRun(evs: seq<Event>, ev: Event)
    ensures Run(evs + [ev]).book == Step(Run(evs).book, ev).book
  {
    assert (evs + [ev])[..|evs|] == evs;
  }

  /** An order the pass removes rests nowhere after the match. */
  lemma GoneAfterMatch(f: Flats, o: Order, a: Resting)
    requires BookOk(f) && o.id in f.pending && f.pending[o.id] == o && (o.kind.Limit? || o.kind.Market?)
    requires !o.side.OtherSide? && a in SideOf(f, Opposite(o.side))
    requires a.id !in Ids(Sweep(TakerOf(o), SideOf(f, Opposite(o.side)), o.qty).book)
    ensures !Rests(Step(f, Ack(o.id, Accepted)).book, a.id)
  {
    var g := f.(pending := f.pending - {o.id});
    assert a.id in Ids(SideOf(f, Opposite(o.side))) && a.id !in Ids(SideOf(f, o.side)) && a.id != o.id;
    var s := Sweep(TakerOf(o), SideOf(f, Opposite(o.side)), o.qty);
    InsertIds(o.side, SideOf(f, o.side), Resting(o.id, o.price, s.rem));
    assert Step(f, Ack(o.id, Accepted)) == Match(g, o);
  }
}
