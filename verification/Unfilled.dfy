/** Which orders leave quantity unfilled, and when: the dropped quantity of the conservation
    law, explained by the events of the run. */
module Unfilled {
  import opened Orders
  import opened Matching
  import opened Log
  import opened FlatBook
  import opened BookRuns

  /** This event takes what is open of the order off the market: a cancellation while it
      rests, an answer other than an acceptance, a kind or side nobody matches, or a market
      order that finds too little. */
  predicate GivesUp(f: Flats, ev: Event, id: Id) {
    && ev.Ack? && ev.id == id
    && if ev.status.Cancelled? then Rests(f, id)
       else
         && id in f.pending
         && var o := f.pending[id];
            || !ev.status.Accepted? || !(o.kind.Limit? || o.kind.Market?) || o.side.OtherSide?
            || (o.kind.Market? && Sweep(TakerOf(o), SideOf(f, Opposite(o.side)), o.qty).rem > 0)
  }

  lemma {:induction false} NothingDropped(tail: seq<Emit>, id: Id)
    requires forall i :: 0 <= i < |tail| ==> !tail[i].Drop? || tail[i].id != id
    ensures Dropped(tail, id) == 0
  {
    if tail != [] { NothingDropped(tail[..|tail| - 1], id); }
  }

  lemma {:induction false} TradesDropNothing(taker: Id, trades: seq<Trade>)
    ensures forall i :: 0 <= i < |TradeLog(taker, trades)| ==> !TradeLog(taker, trades)[i].Drop?
  {
    if trades != [] { TradesDropNothing(taker, trades[1..]); }
  }

  lemma OneDrop(pre: seq<Emit>, x: Id, q: int, post: seq<Emit>, id: Id)
    requires forall i :: 0 <= i < |pre| ==> !pre[i].Drop?
    requires forall i :: 0 <= i < |post| ==> !post[i].Drop?
    ensures Dropped(pre + ([Drop(x, q)] + post), id) == if id == x then q else 0
  {
    hide Dropped;
    NothingDropped(pre, id);
    NothingDropped(post, id);
    HistOne(Drop(x, q), id, true);
    HistAppend([Drop(x, q)], post, id, true);
    HistAppend(pre, [Drop(x, q)] + post, id, true);
  }

  lemma {:induction false} RemNotNegative(t: Taker, book: seq<Resting>, rem: int)
    requires rem >= 0
    ensures 0 <= Sweep(t, book, rem).rem
  {
    if book == [] || rem <= 0 || !InLimit(t, book[0].price) {
    } else {
      RemNotNegative(t, book[1..], if Own(t, book[0]) then rem else rem - Min(rem, book[0].qty));
    }
  }

  lemma MatchDropped(f: Flats, o: Order, id: Id)
    requires (id == o.id ==> o.qty > 0) && (o.kind.Limit? || o.kind.Market?)
    ensures var d := Dropped(Match(f, o).log, id);
            if id != o.id then d == 0
            else
              && d >= 0
              && (d > 0 <==> o.side.OtherSide?
                             || (o.kind.Market? && Sweep(TakerOf(o), SideOf(f, Opposite(o.side)), o.qty).rem > 0))
  {
    hide Dropped, Sweep, TradeLog;
    if o.side.OtherSide? {
      OneDrop([], o.id, o.qty, [Clean(o.id)], id);
      assert [] + ([Drop(o.id, o.qty)] + [Clean(o.id)]) == [Drop(o.id, o.qty), Clean(o.id)];
    } else {
      var s := Sweep(TakerOf(o), SideOf(f, Opposite(o.side)), o.qty);
      if o.qty > 0 { RemNotNegative(TakerOf(o), SideOf(f, Opposite(o.side)), o.qty); }
      TradesDropNothing(o.id, s.trades);
      if o.kind.Limit? && s.rem > 0 {
        NothingDropped(TradeLog(o.id, s.trades), id);
      } else {
        OneDrop(TradeLog(o.id, s.trades), o.id, s.rem, [Clean(o.id)], id);
        assert [Drop(o.id, s.rem)] + [Clean(o.id)] == [Drop(o.id, s.rem), Clean(o.id)];
      }
    }
  }

  lemma CancelDropped(f: Flats, id: Id)
    requires BookOk(f)
    ensures var d := Dropped(StepCancelled(f, id).log, id); d >= 0 && (d > 0 <==> Rests(f, id))
  {
    hide Dropped, Sorted, Uncrossed;
    var out := StepCancelled(f, id);
    WithoutQty(f.bids, id, id);
    WithoutQty(f.asks, id, id);
    if Rests(f, id) {
      var clean := CleanIf(out.book, id);
      OneDrop([], id, RestQty(f.bids, id) + RestQty(f.asks, id), clean, id);
      assert [] + ([Drop(id, RestQty(f.bids, id) + RestQty(f.asks, id))] + clean) == out.log;
    } else {
      NothingDropped(out.log, id);
    }
  }

  lemma SubmitDropsNothing(f: Flats, o: Order)
    ensures forall i :: 0 <= i < |StepSubmit(f, o).log| ==> !StepSubmit(f, o).log[i].Drop?
  {
    hide Rests;
  }

  lemma CancelDropsOwn(f: Flats, x: Id, id: Id)
    requires x != id
    ensures Dropped(StepCancelled(f, x).log, id) == 0
  {
    hide Rests, RestQty, CancelResting, Dropped;
    NothingDropped(StepCancelled(f, x).log, id);
  }

  /** What a step drops: something of the order it names, if that gives up, and nothing else. */
  lemma StepDropped(f: Flats, ev: Event, id: Id)
    requires BookOk(f) && (id in f.pending ==> f.pending[id].qty > 0)
    ensures var d := Dropped(Step(f, ev).log, id); d >= 0 && (d > 0 <==> GivesUp(f, ev, id))
  {
    match ev
    case Submit(o) =>
      SubmitDropsNothing(f, o);
      NothingDropped(StepSubmit(f, o).log, id);
    case Report(fill) => NothingDropped(Step(f, ev).log, id);
    case Ack(x, status) =>
      if status.Cancelled? {
        if x == id { CancelDropped(f, id); } else { CancelDropsOwn(f, x, id); }
      } else if x !in f.pending {
        NothingDropped(Step(f, ev).log, id);
      } else {
        AnswerDropped(f, x, status, id);
      }
  }

  lemma AnswerDropped(f: Flats, x: Id, status: Status, id: Id)
    requires BookOk(f) && x in f.pending && (x == id ==> f.pending[x].qty > 0) && !status.Cancelled?
    ensures var d := Dropped(StepAck(f, x, status).log, id); d >= 0 && (d > 0 <==> GivesUp(f, Ack(x, status), id))
  {
    hide Dropped, Sweep, Match, Sorted, Positive, Distinct, Uncrossed;
    var o, g := f.pending[x], f.(pending := f.pending - {x});
    if (o.kind.Limit? || o.kind.Market?) && status.Accepted? {
      MatchDropped(g, o, id);
    } else {
      var bad := if (o.kind.Limit? || o.kind.Market?) || !status.Rejected? then [BadAck] else [];
      OneDrop(bad, x, o.qty, [Clean(x)], id);
      assert StepAck(f, x, status).log == bad + ([Drop(x, o.qty)] + [Clean(x)]);
    }
  }

  /** When the run up to event `p` meets event `p`. */
  predicate GaveUpAt(evs: seq<Event>, id: Id, p: nat) { p < |evs| && GivesUp(Run(evs[..p]).book, evs[p], id) }

  ghost predicate GaveUp(evs: seq<Event>, id: Id) { exists p: nat :: GaveUpAt(evs, id, p) }

  /** Over whole runs an order of positive quantity has dropped quantity if and only if some
      event took it off the market. */
  lemma {:induction false} DroppedIff(evs: seq<Event>, id: Id)
    requires FreshIds(evs) && (id in Submitted(evs) ==> Submitted(evs)[id].qty > 0)
    ensures var d := Dropped(Run(evs).log, id); d >= 0 && (d > 0 <==> GaveUp(evs, id))
  {
    if evs == [] {
      HistNone(id, true);
    } else {
      var prev, ev := evs[..|evs| - 1], evs[|evs| - 1];
      DroppedIff(prev, id);
      RunTrack(prev);
      PendingPositive(Run(prev).book, Run(prev).log, Submitted(prev), id);
      hide Track, BookOk, Dropped, Run, GaveUp, FreshIds, Submitted;
      assert evs == prev + [ev];
      DroppedNext(prev, ev, id);
    }
  }

  lemma DroppedNext(prev: seq<Event>, ev: Event, id: Id)
    requires var f := Run(prev).book; BookOk(f) && (id in f.pending ==> f.pending[id].qty > 0)
    requires var d := Dropped(Run(prev).log, id); d >= 0 && (d > 0 <==> GaveUp(prev, id))
    ensures var d := Dropped(Run(prev + [ev]).log, id); d >= 0 && (d > 0 <==> GaveUp(prev + [ev], id))
  {
    assert (prev + [ev])[..|prev|] == prev;
    var r := Run(prev);
    assert Run(prev + [ev]).log == r.log + Step(r.book, ev).log;
    hide BookOk, GivesUp, Dropped, Step, GaveUp, Run;
    StepDropped(r.book, ev, id);
    HistAppend(r.log, Step(r.book, ev).log, id, true);
    GaveUpSnoc(prev, ev, id);
  }

  lemma PendingPositive(f: Flats, log: seq<Emit>, m: map<Id, Order>, id: Id)
    requires Track(f, log, m) && (id in m ==> m[id].qty > 0)
    ensures id in f.pending ==> f.pending[id].qty > 0
  {
  }

  lemma GaveUpSnoc(prev: seq<Event>, ev: Event, id: Id)
    ensures GaveUp(prev + [ev], id) <==> GaveUp(prev, id) || GivesUp(Run(prev).book, ev, id)
  {
    var evs := prev + [ev];
    hide Run, GivesUp;
    assert evs[..|prev|] == prev;
    forall p: nat | p < |prev| ensures GaveUpAt(evs, id, p) <==> GaveUpAt(prev, id, p) {
      assert evs[..p] == prev[..p];
    }
    if GivesUp(Run(prev).book, ev, id) { assert GaveUpAt(evs, id, |prev|); }
  }

  lemma {:induction false} EarlierSubmit(evs: seq<Event>, p: nat, id: Id)
    requires FreshIds(evs) && p <= |evs|
    ensures FreshIds(evs[..p])
    ensures id in Submitted(evs[..p]) ==> id in Submitted(evs) && Submitted(evs)[id] == Submitted(evs[..p])[id]
  {
    if p == |evs| {
      assert evs[..p] == evs;
    } else {
      var prev := evs[..|evs| - 1];
      assert prev[..p] == evs[..p];
      EarlierSubmit(prev, p, id);
    }
  }

  /** So a limit order on a known side whose acknowledgements all accept it drops nothing:
      once acknowledged, what it was submitted with rests or is expected to be filled. */
  lemma AcceptedLimitDropsNothing(evs: seq<Event>, id: Id)
    requires FreshIds(evs) && id in Submitted(evs)
    requires var o := Submitted(evs)[id]; o.kind.Limit? && !o.side.OtherSide? && o.qty > 0
    requires forall i :: 0 <= i < |evs| && evs[i].Ack? && evs[i].id == id ==> evs[i].status.Accepted?
    ensures var r := Run(evs);
            && Dropped(r.log, id) == 0
            && (id !in r.book.pending ==> Open(r.book, id) + Qty(Hist(r.log, id, true)) == Submitted(evs)[id].qty)
  {
    DroppedIff(evs, id);
    QuantityConserved(evs, id);
    if p: nat :| GaveUpAt(evs, id, p) {
      EarlierSubmit(evs, p, id);
      RunTrack(evs[..p]);
      assert false;
    }
  }
}
