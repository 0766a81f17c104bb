/** The reference engine: one sorted slice per side, rescanned from the front for
    every trade, and the execution reports it sends. */
module FlatEngine {
  import opened Orders
  import opened Matching
  import opened FlatBook

  datatype ExecStatus = AcceptedX | FilledX | PartialX | RejectedX | CancelledX

  datatype ExecReport = ExecReport(seqId: int, orderId: Id, status: ExecStatus, qty: int, price: int, matchedWith: Id)

  datatype Engine = Engine(buys: seq<Resting>, sells: seq<Resting>, seqId: int)

  datatype Handled = Handled(engine: Engine, reports: seq<ExecReport>)

  /** Anything that is not a buy is treated as a sell. */
  function EngineSide(o: Order): Side { if o.side.Buy? then Buy else Sell }

  /** The engine skips the taker's bot always, bot 0 included. */
  function EngineTaker(o: Order): Taker {
    Taker(o.id, Opposite(EngineSide(o)), if o.kind.Limit? then Some(o.price) else None, Some(BotId(o.id)))
  }

  function Book(e: Engine, s: Side): seq<Resting> { if s.Buy? then e.buys else e.sells }

  function WithBook(e: Engine, s: Side, b: seq<Resting>): Engine {
    if s.Buy? then e.(buys := b) else e.(sells := b)
  }

  function TakerReport(seqId: int, taker: Id, t: Trade, left: int): ExecReport {
    ExecReport(seqId, taker, if left == 0 then FilledX else PartialX, t.qty, t.price, t.maker)
  }

  function MakerReport(seqId: int, taker: Id, t: Trade): ExecReport {
    ExecReport(seqId, t.maker, if t.done then FilledX else PartialX, t.qty, t.price, taker)
  }

  /** Two reports per trade, taker first; `rem` is what the taker had before. */
  function FillReports(seqId: int, taker: Id, trades: seq<Trade>, rem: int): seq<ExecReport>
    decreases trades
  {
    if trades == [] then []
    else
      var t := trades[0];
      [TakerReport(seqId + 1, taker, t, rem - t.qty), MakerReport(seqId + 2, taker, t)]
      + FillReports(seqId + 2, taker, trades[1..], rem - t.qty)
  }

  function HandleCancel(e: Engine, id: Id): Handled {
    var e' := e.(seqId := e.seqId + 1);
    if id in Ids(e.buys) then
      Handled(e'.(buys := Without(e.buys, id)), [ExecReport(e.seqId + 1, id, CancelledX, 0, 0, 0)])
    else if id in Ids(e.sells) then
      Handled(e'.(sells := Without(e.sells, id)), [ExecReport(e.seqId + 1, id, CancelledX, 0, 0, 0)])
    else Handled(e', [ExecReport(e.seqId + 1, id, RejectedX, 0, 0, 0)])
  }

  function HandleTrade(e: Engine, o: Order): Handled
    requires Positive(e.buys) && Positive(e.sells)
  {
    var side := EngineSide(o);
    var s := Rescan(EngineTaker(o), Book(e, Opposite(side)), o.qty);
    var fills := FillReports(e.seqId + 1, o.id, s.trades, o.qty);
    var e' := WithBook(e, Opposite(side), s.book).(seqId := e.seqId + 1 + |fills|);
    Handled(
      if s.rem > 0 && o.kind.Limit? then
        WithBook(e', side, Insert(side, Book(e', side), Resting(o.id, o.price, s.rem)))
      else e',
      [ExecReport(e.seqId + 1, o.id, AcceptedX, 0, 0, 0)] + fills)
  }

  function Handle(e: Engine, o: Order): Handled
    requires Positive(e.buys) && Positive(e.sells)
  {
    if o.kind.Cancel? then HandleCancel(e, o.id) else HandleTrade(e, o)
  }

  lemma {:induction false} FillReportsNumbered(seqId: int, taker: Id, trades: seq<Trade>, rem: int, i: nat)
    ensures |FillReports(seqId, taker, trades, rem)| == 2 * |trades|
    ensures i < 2 * |trades| ==> FillReports(seqId, taker, trades, rem)[i].seqId == seqId + 1 + i
    decreases trades
  {
    if trades != [] {
      FillReportsNumbered(seqId + 2, taker, trades[1..], rem - trades[0].qty, if i >= 2 then i - 2 else 0);
    }
  }

  /** Reports carry consecutive sequence ids. */
  lemma HandleNumbered(e: Engine, o: Order, i: nat)
    requires Positive(e.buys) && Positive(e.sells)
    ensures var h := Handle(e, o);
            h.engine.seqId == e.seqId + |h.reports| && (i < |h.reports| ==> h.reports[i].seqId == e.seqId + 1 + i)
  {
    if !o.kind.Cancel? {
      var s := Rescan(EngineTaker(o), Book(e, Opposite(EngineSide(o))), o.qty);
      if i > 0 { FillReportsNumbered(e.seqId + 1, o.id, s.trades, o.qty, i - 1); }
    }
  }

  lemma WithoutPositive(book: seq<Resting>, id: Id)
    requires Positive(book)
    ensures Positive(Without(book, id))
  {
    forall i | 0 <= i < |Without(book, id)| ensures Without(book, id)[i].qty > 0 {
      WithoutMember(book, id, Without(book, id)[i]);
    }
  }

  lemma HandleKeepsPositive(e: Engine, o: Order)
    requires Positive(e.buys) && Positive(e.sells)
    ensures Positive(Handle(e, o).engine.buys) && Positive(Handle(e, o).engine.sells)
  {
    if o.kind.Cancel? {
      WithoutPositive(e.buys, o.id);
      WithoutPositive(e.sells, o.id);
    } else {
      var side := EngineSide(o);
      var book := Book(e, Opposite(side));
      var s := Rescan(EngineTaker(o), book, o.qty);
      RescanIsSweep(EngineTaker(o), book, o.qty);
      forall i | 0 <= i < |s.book| ensures s.book[i].qty > 0 { SweepRest(EngineTaker(o), book, o.qty, s.book[i]); }
      var r := Resting(o.id, o.price, s.rem);
      var b := Insert(side, Book(e, side), r);
      forall i | 0 <= i < |b| && s.rem > 0 ensures b[i].qty > 0 { InsertMember(side, Book(e, side), r, b[i]); }
    }
  }

  /** One round of the matching loop: a trade with the first match, two reports. */
  lemma RescanRound(t: Taker, book: seq<Resting>, rem: int, seqId: int)
    requires Positive(book) && rem > 0 && FirstMatch(t, book).Some?
    ensures var i := FirstMatch(t, book).value;
            var q := Min(rem, book[i].qty);
            var trade := TradeWith(book[i], q);
            && Positive(Hit(book, i, q))
            && var s, u := Rescan(t, book, rem), Rescan(t, Hit(book, i, q), rem - q);
            && s.book == u.book && s.rem == u.rem
            && FillReports(seqId, t.id, s.trades, rem)
               == [TakerReport(seqId + 1, t.id, trade, rem - q), MakerReport(seqId + 2, t.id, trade)]
                  + FillReports(seqId + 2, t.id, u.trades, rem - q)
  {
    hide FillReports, Hit, TakerReport, MakerReport, TradeWith;
    var i := FirstMatch(t, book).value;
    var q := Min(rem, book[i].qty);
    HitPositive(book, i, q);
    var u := Rescan(t, Hit(book, i, q), rem - q);
    TradeSize(book[i], q);
    ReportsCons(seqId, t.id, TradeWith(book[i], q), u.trades, rem);
  }

  lemma TradeSize(r: Resting, q: int)
    ensures TradeWith(r, q).qty == q
  {
  }

  lemma ReportsCons(seqId: int, taker: Id, t: Trade, trades: seq<Trade>, rem: int)
    ensures FillReports(seqId, taker, [t] + trades, rem)
         == [TakerReport(seqId + 1, taker, t, rem - t.qty), MakerReport(seqId + 2, taker, t)]
            + FillReports(seqId + 2, taker, trades, rem - t.qty)
  {
    assert ([t] + trades)[1..] == trades;
  }

  // ---- one turn of each scan

  lemma WithoutTurn(book: seq<Resting>, id: Id, i: nat)
    requires i < |book|
    ensures Without(book[i..], id)
         == if book[i].id == id then book[i + 1..] else [book[i]] + Without(book[i + 1..], id)
  {
    assert book[i..][0] == book[i] && book[i..][1..] == book[i + 1..];
  }

  lemma InsertTurn(side: Side, book: seq<Resting>, r: Resting, i: nat)
    requires i <= |book|
    ensures Insert(side, book[i..], r)
         == if i == |book| || Key(side, r.price) < Key(side, book[i].price) then [r] + book[i..]
            else [book[i]] + Insert(side, book[i + 1..], r)
  {
    if i < |book| { assert book[i..][0] == book[i] && book[i..][1..] == book[i + 1..]; }
  }

  lemma FirstMatchTurn(t: Taker, book: seq<Resting>, i: nat)
    requires i < |book|
    ensures FirstMatch(t, book[i..])
         == if !InLimit(t, book[i].price) then None
            else if !Own(t, book[i]) then Some(0)
            else match FirstMatch(t, book[i + 1..]) case None => None case Some(k) => Some(k + 1)
  {
    assert book[i..][0] == book[i] && book[i..][1..] == book[i + 1..];
  }

  lemma TakeOneMore(book: seq<Resting>, i: nat, rest: seq<Resting>)
    requires i < |book|
    ensures book[..i] + ([book[i]] + rest) == book[..i + 1] + rest
  {
  }

  lemma RescanEnd(t: Taker, book: seq<Resting>, rem: int, seqId: int)
    requires Positive(book) && (rem <= 0 || FirstMatch(t, book).None?)
    ensures Rescan(t, book, rem) == Swept(book, [], rem) && FillReports(seqId, t.id, [], rem) == []
  {
  }

  // ---------------------------------------------------------------- the engine itself

  class OrderBook {
    var buyOrders: seq<Resting>   // descending price
    var sellOrders: seq<Resting>  // ascending price
    var seqID: int

    ghost predicate Valid()
      reads this
    {
      Positive(buyOrders) && Positive(sellOrders)
    }

    ghost function State(): Engine
      reads this
    {
      Engine(buyOrders, sellOrders, seqID)
    }

    constructor ()
      ensures Valid() && State() == Engine([], [], 0)
    {
      buyOrders, sellOrders, seqID := [], [], 0;
    }

    method HandleOrder(o: Order) returns (reports: seq<ExecReport>)
      requires Valid()
      modifies this
      ensures Valid()
      ensures Handled(State(), reports) == Handle(old(State()), o)
    {
      hide Rescan, FillReports, Insert, Positive, HandleCancel;
      HandleKeepsPositive(State(), o);
      if o.kind.Cancel? {
        reports := Cancel(o.id);
      } else {
        seqID := seqID + 1;
        var accepted := ExecReport(seqID, o.id, AcceptedX, 0, 0, 0);
        if o.side.Buy? {
          var book, rem, fills := MatchAgainst(EngineTaker(o), sellOrders, o.qty);
          sellOrders := book;
          if rem > 0 && o.kind.Limit? {
            buyOrders := InsertInto(Buy, buyOrders, Resting(o.id, o.price, rem));
          }
          reports := [accepted] + fills;
        } else {
          var book, rem, fills := MatchAgainst(EngineTaker(o), buyOrders, o.qty);
          buyOrders := book;
          if rem > 0 && o.kind.Limit? {
            sellOrders := InsertInto(Sell, sellOrders, Resting(o.id, o.price, rem));
          }
          reports := [accepted] + fills;
        }
      }
    }

    method Cancel(id: Id) returns (reports: seq<ExecReport>)
      modifies this
      ensures Handled(State(), reports) == HandleCancel(old(State()), id)
    {
      var removed := false;
      var buys, found := RemoveFrom(buyOrders, id);
      if found {
        buyOrders, removed := buys, true;
      } else {
        var sells, alsoFound := RemoveFrom(sellOrders, id);
        if alsoFound { sellOrders, removed := sells, true; }
      }
      seqID := seqID + 1;
      reports := [ExecReport(seqID, id, if removed then CancelledX else RejectedX, 0, 0, 0)];
    }

    /** The linear search of the cancel branch. */
    static method RemoveFrom(book: seq<Resting>, id: Id) returns (rest: seq<Resting>, found: bool)
      ensures found == (id in Ids(book))
      ensures rest == Without(book, id)
    {
      hide Without;
      var i := 0;
      assert book[..0] + Without(book[0..], id) == Without(book, id) by { assert book[0..] == book; }
      while i < |book|
        invariant 0 <= i <= |book|
        invariant forall k :: 0 <= k < i ==> book[k].id != id
        invariant Without(book, id) == book[..i] + Without(book[i..], id)
      {
        WithoutTurn(book, id, i);
        if book[i].id == id {
          assert book[i] in book;
          return book[..i] + book[i + 1..], true;
        }
        TakeOneMore(book, i, Without(book[i + 1..], id));
        i := i + 1;
      }
      WithoutNothing(book[i..], id);
      assert book[..i] + [] == book;
      return book, false;
    }

    static lemma WithoutNothing(book: seq<Resting>, id: Id)
      ensures book == [] ==> Without(book, id) == []
    {
    }

    /** The linear search for the insertion point. */
    static method InsertInto(side: Side, book: seq<Resting>, r: Resting) returns (res: seq<Resting>)
      ensures res == Insert(side, book, r)
    {
      hide Insert;
      var i := 0;
      assert book[..0] + Insert(side, book[0..], r) == Insert(side, book, r) by { assert book[0..] == book; }
      while i < |book| && Key(side, r.price) >= Key(side, book[i].price)
        invariant 0 <= i <= |book|
        invariant Insert(side, book, r) == book[..i] + Insert(side, book[i..], r)
      {
        InsertTurn(side, book, r, i);
        TakeOneMore(book, i, Insert(side, book[i + 1..], r));
        i := i + 1;
      }
      InsertTurn(side, book, r, i);
      res := book[..i] + ([r] + book[i..]);
    }

    /** Rescan from the front for every trade, reporting both sides. */
    method MatchAgainst(t: Taker, makers: seq<Resting>, qty: int)
      returns (book: seq<Resting>, rem: int, fills: seq<ExecReport>)
      requires Positive(makers)
      modifies this`seqID
      ensures var s := Rescan(t, makers, qty);
              && book == s.book && rem == s.rem
              && fills == FillReports(old(seqID), t.id, s.trades, qty) && seqID == old(seqID) + |fills|
    {
      hide Rescan, FillReports, FirstMatch;
      book, rem, fills := makers, qty, [];
      ghost var all := Rescan(t, makers, qty);
      while |book| > 0 && rem > 0
        invariant Positive(book)
        invariant seqID == old(seqID) + |fills|
        invariant Rescan(t, book, rem).book == all.book && Rescan(t, book, rem).rem == all.rem
        invariant FillReports(old(seqID), t.id, all.trades, qty)
               == fills + FillReports(seqID, t.id, Rescan(t, book, rem).trades, rem)
        decreases rem
      {
        var best := FindMatch(t, book);
        if best.None? { break; }
        var i := best.value;
        var q := Min(rem, book[i].qty);
        var trade := TradeWith(book[i], q);
        RescanRound(t, book, rem, seqID);
        fills := fills + [TakerReport(seqID + 1, t.id, trade, rem - q), MakerReport(seqID + 2, t.id, trade)];
        seqID := seqID + 2;
        rem := rem - q;
        book := Hit(book, i, q);
      }
      NoMatchInEmpty(t, book);
      RescanEnd(t, book, rem, seqID);
    }

    static lemma NoMatchInEmpty(t: Taker, book: seq<Resting>)
      ensures book == [] ==> FirstMatch(t, book).None?
    {
    }

    static method FindMatch(t: Taker, book: seq<Resting>) returns (best: Option<nat>)
      ensures best == FirstMatch(t, book)
    {
      hide FirstMatch, InLimit, Own;
      var i := 0;
      assert book[0..] == book;
      while i < |book|
        invariant 0 <= i <= |book|
        invariant FirstMatch(t, book)
               == match FirstMatch(t, book[i..]) case None => None case Some(k) => Some(i + k)
      {
        FirstMatchTurn(t, book, i);
        if !InLimit(t, book[i].price) { return None; }
        if !Own(t, book[i]) { return Some(i); }
        i := i + 1;
      }
      NoMatchInEmpty(t, book[i..]);
      return None;
    }
  }
}
