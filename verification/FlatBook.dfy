/** The judge's book at the level of flat priority lists: what each event does to
    it and what it logs. The shadow book with its price levels and its id index
    refines this one (see Shard), and the reference engine keeps the same lists. */
module FlatBook {
  import opened Orders
  import opened Matching
  import opened Log

  datatype Flats = Flats(pending: map<Id, Order>, bids: seq<Resting>, asks: seq<Resting>)

  datatype Event =
    | Submit(order: Order)             // ProcessOrder
    | Ack(id: Id, status: Status)      // ProcessAck
    | Report(fill: Fill)               // ProcessFill

  datatype Outcome = Outcome(book: Flats, log: seq<Emit>)

  // ---------------------------------------------------------------- list operations

  /** Time priority: behind everything of the same or a better price. */
  function Insert(side: Side, book: seq<Resting>, r: Resting): seq<Resting> {
    if book == [] || Key(side, r.price) < Key(side, book[0].price) then [r] + book
    else [book[0]] + Insert(side, book[1..], r)
  }

  function Without(book: seq<Resting>, id: Id): seq<Resting> {
    if book == [] then []
    else if book[0].id == id then book[1..]
    else [book[0]] + Without(book[1..], id)
  }

  /** Quantity resting under an id. */
  function RestQty(book: seq<Resting>, id: Id): int {
    if book == [] then 0
    else (if book[0].id == id then book[0].qty else 0) + RestQty(book[1..], id)
  }

  function TradedWith(trades: seq<Trade>, id: Id): int {
    if trades == [] then 0
    else (if trades[0].maker == id then trades[0].qty else 0) + TradedWith(trades[1..], id)
  }

  lemma {:induction false} InsertMember(side: Side, book: seq<Resting>, r: Resting, x: Resting)
    ensures x in Insert(side, book, r) <==> x == r || x in book
  {
    if book == [] || Key(side, r.price) < Key(side, book[0].price) {
    } else {
      InsertMember(side, book[1..], r, x);
      assert book == [book[0]] + book[1..];
    }
  }

  lemma {:induction false} InsertKeepsBook(side: Side, book: seq<Resting>, r: Resting)
    requires Sorted(side, book) && Positive(book) && Distinct(book)
    requires r.qty > 0 && r.id !in Ids(book)
    ensures var b := Insert(side, book, r); Sorted(side, b) && Positive(b) && Distinct(b)
  {
    forall i | 0 <= i < |book| ensures book[i].id != r.id { assert book[i] in book; }
    if book == [] {
    } else if Key(side, r.price) < Key(side, book[0].price) {
      forall i | 0 <= i < |book| ensures Key(side, r.price) <= Key(side, book[i].price) {
        assert i > 0 ==> Key(side, book[0].price) <= Key(side, book[i].price);
      }
      ConsKeepsBook(side, r, book);
    } else {
      var u := Insert(side, book[1..], r);
      assert r.id !in Ids(book[1..]);
      InsertKeepsBook(side, book[1..], r);
      forall i | 0 <= i < |u|
        ensures Key(side, book[0].price) <= Key(side, u[i].price) && u[i].id != book[0].id
      {
        InsertMember(side, book[1..], r, u[i]);
      }
      ConsKeepsBook(side, book[0], u);
    }
  }

  lemma {:induction false} WithoutMember(book: seq<Resting>, id: Id, x: Resting)
    ensures x in Without(book, id) ==> x in book
    ensures Distinct(book) ==> (x in Without(book, id) <==> x in book && x.id != id)
  {
    if book != [] {
      assert book == [book[0]] + book[1..];
      WithoutMember(book[1..], id, x);
      if Distinct(book) && book[0].id == id && x in book[1..] {
        assert x.id != id;
      }
    }
  }

  lemma {:induction false} WithoutKeepsBook(side: Side, book: seq<Resting>, id: Id)
    requires Sorted(side, book) && Positive(book) && Distinct(book)
    ensures var b := Without(book, id); Sorted(side, b) && Positive(b) && Distinct(b)
  {
    if book != [] && book[0].id != id {
      var u := Without(book[1..], id);
      WithoutKeepsBook(side, book[1..], id);
      forall i | 0 <= i < |u|
        ensures Key(side, book[0].price) <= Key(side, u[i].price) && u[i].id != book[0].id
      {
        WithoutMember(book[1..], id, u[i]);
      }
      ConsKeepsBook(side, book[0], u);
    }
  }

  lemma {:induction false} InsertQty(side: Side, book: seq<Resting>, r: Resting, id: Id)
    ensures RestQty(Insert(side, book, r), id) == RestQty(book, id) + (if r.id == id then r.qty else 0)
  {
    if book == [] || Key(side, r.price) < Key(side, book[0].price) {
      assert ([r] + book)[1..] == book;
    } else {
      InsertQty(side, book[1..], r, id);
    }
  }

  lemma {:induction false} WithoutQty(book: seq<Resting>, gone: Id, id: Id)
    requires Distinct(book)
    ensures RestQty(Without(book, gone), id) == if id == gone then 0 else RestQty(book, id)
    ensures id !in Ids(book) ==> RestQty(book, id) == 0
    ensures id in Ids(book) && Positive(book) ==> RestQty(book, id) > 0
  {
    if book != [] {
      WithoutQty(book[1..], gone, id);
      assert book[0] in book;
      assert forall r :: r in book[1..] ==> r in book;
      if id in Ids(book) && book[0].id != id {
        var r :| r in book && r.id == id;
        assert r in book[1..];
        assert id in Ids(book[1..]);
      }
      if book[0].id == id && Positive(book) {
        assert id !in Ids(book[1..]);
      }
      if book[0].id == gone == id {
        assert id !in Ids(book[1..]);
      }
    }
  }

  lemma {:induction false} SweepConservesEach(t: Taker, book: seq<Resting>, rem: int, id: Id)
    ensures var s := Sweep(t, book, rem);
            RestQty(s.book, id) + TradedWith(s.trades, id) == RestQty(book, id)
  {
    if book == [] || rem <= 0 || !InLimit(t, book[0].price) {
    } else {
      var q := Min(rem, book[0].qty);
      var front := if Own(t, book[0]) then [book[0]] else Leftover(book[0], q);
      var u := Sweep(t, book[1..], if Own(t, book[0]) then rem else rem - q);
      SweepConservesEach(t, book[1..], if Own(t, book[0]) then rem else rem - q, id);
      if front == [] {
        assert front + u.book == u.book;
      } else {
        assert (front + u.book)[1..] == u.book;
      }
      if !Own(t, book[0]) { assert ([TradeWith(book[0], q)] + u.trades)[1..] == u.trades; }
    }
  }

  // ---------------------------------------------------------------- events

  function SideOf(f: Flats, s: Side): seq<Resting> { if s.Buy? then f.bids else f.asks }

  function WithSide(f: Flats, s: Side, b: seq<Resting>): Flats {
    if s.Buy? then f.(bids := b) else f.(asks := b)
  }

  predicate Rests(f: Flats, id: Id) { id in Ids(f.bids) || id in Ids(f.asks) }

  /** isSelfCross exempts bot 0. */
  function SkippedBot(id: Id): Option<int> { if BotId(id) == 0 then None else Some(BotId(id)) }

  function TakerOf(o: Order): Taker {
    Taker(o.id, Opposite(o.side), if o.kind.Limit? then Some(o.price) else None, SkippedBot(o.id))
  }

  /** Both sides of one trade, then the maker's cleanup if it is used up. */
  function TradeEmits(taker: Id, t: Trade): seq<Emit> {
    [Exp(Fill(taker, t.qty, t.price, t.maker)), Exp(Fill(t.maker, t.qty, t.price, taker))]
    + if t.done then [Clean(t.maker)] else []
  }

  function TradeLog(taker: Id, trades: seq<Trade>): seq<Emit> {
    if trades == [] then [] else TradeEmits(taker, trades[0]) + TradeLog(taker, trades[1..])
  }

  function CleanIf(f: Flats, id: Id): seq<Emit> {
    if id in f.pending || Rests(f, id) then [] else [Clean(id)]
  }

  /** matchLimitOrder or matchMarketOrder, and the cleanup that follows. */
  function Match(f: Flats, o: Order): Outcome {
    if o.side.OtherSide? then Outcome(f, [Drop(o.id, o.qty), Clean(o.id)])
    else
      var s := Sweep(TakerOf(o), SideOf(f, Opposite(o.side)), o.qty);
      var g := WithSide(f, Opposite(o.side), s.book);
      if o.kind.Limit? && s.rem > 0 then
        Outcome(WithSide(g, o.side, Insert(o.side, SideOf(g, o.side), Resting(o.id, o.price, s.rem))),
                TradeLog(o.id, s.trades))
      else Outcome(g, TradeLog(o.id, s.trades) + [Drop(o.id, s.rem), Clean(o.id)])
  }

  function CancelResting(f: Flats, id: Id): Flats {
    if id in Ids(f.bids) then f.(bids := Without(f.bids, id)) else f.(asks := Without(f.asks, id))
  }

  function StepCancelled(f: Flats, id: Id): Outcome {
    if Rests(f, id) then
      var g := CancelResting(f, id);
      Outcome(g, [Drop(id, RestQty(f.bids, id) + RestQty(f.asks, id))] + CleanIf(g, id))
    else Outcome(f, CleanIf(f, id))
  }

  function StepSubmit(f: Flats, o: Order): Outcome {
    if o.kind.Cancel? then Outcome(f, [])
    else
      Outcome(f.(pending := f.pending[o.id := o]),
              (if o.id in f.pending then [Duplicate] else []) + (if Rests(f, o.id) then [Duplicate] else []))
  }

  function StepAck(f: Flats, id: Id, status: Status): Outcome {
    if status.Cancelled? then StepCancelled(f, id)
    else if id !in f.pending then
      Outcome(f, (if status.Rejected? then [] else [UnknownAck]) + CleanIf(f, id))
    else
      var o := f.pending[id];
      var g := f.(pending := f.pending - {id});
      if o.kind.Limit? || o.kind.Market? then
        if status.Accepted? then Match(g, o)
        else Outcome(g, [BadAck, Drop(id, o.qty), Clean(id)])
      else Outcome(g, (if status.Rejected? then [] else [BadAck]) + [Drop(id, o.qty), Clean(id)])
  }

  function Step(f: Flats, ev: Event): Outcome {
    match ev
    case Submit(o) => StepSubmit(f, o)
    case Ack(id, status) => StepAck(f, id, status)
    case Report(fill) => Outcome(f, [Act(fill)] + CleanIf(f, fill.orderId))
  }

  const EMPTY: Flats := Flats(map[], [], [])

  function Run(evs: seq<Event>): Outcome {
    if evs == [] then Outcome(EMPTY, [])
    else
      var r := Run(evs[..|evs| - 1]);
      var s := Step(r.book, evs[|evs| - 1]);
      Outcome(s.book, r.log + s.log)
  }

  /** The non-cancel orders handed to the judge so far. */
  function Submitted(evs: seq<Event>): map<Id, Order> {
    if evs == [] then map[]
    else
      var ev := evs[|evs| - 1];
      var m := Submitted(evs[..|evs| - 1]);
      if ev.Submit? && !ev.order.kind.Cancel? then m[ev.order.id := ev.order] else m
  }

  /** Each non-cancel order id is submitted at most once. */
  predicate FreshIds(evs: seq<Event>) {
    evs == [] ||
    var prev, ev := evs[..|evs| - 1], evs[|evs| - 1];
    FreshIds(prev) && (ev.Submit? && !ev.order.kind.Cancel? ==> ev.order.id !in Submitted(prev))
  }

  predicate PositiveReports(evs: seq<Event>) {
    forall i :: 0 <= i < |evs| && evs[i].Report? ==> evs[i].fill.qty > 0
  }

  // ---------------------------------------------------------------- the book's invariant

  /** A resting bid at or above a resting ask belongs to the ask's own, non-zero bot. */
  predicate Uncrossed(bids: seq<Resting>, asks: seq<Resting>) {
    forall b, a :: b in bids && a in asks && b.price >= a.price ==> BotId(b.id) == BotId(a.id) != 0
  }

  predicate Apart(a: seq<Resting>, b: seq<Resting>) { Ids(a) !! Ids(b) }

  predicate ListOk(side: Side, book: seq<Resting>) {
    Sorted(side, book) && Positive(book) && Distinct(book)
  }

  predicate BookOk(f: Flats) {
    && ListOk(Buy, f.bids) && ListOk(Sell, f.asks)
    && Apart(f.bids, f.asks)
    && Uncrossed(f.bids, f.asks)
    && (forall id :: id in f.pending ==> f.pending[id].id == id && !Rests(f, id))
  }

  lemma {:induction false} SweepIds(t: Taker, book: seq<Resting>, rem: int)
    ensures Ids(Sweep(t, book, rem).book) <= Ids(book)
  {
    forall r | r in Sweep(t, book, rem).book ensures r.id in Ids(book) { SweepRest(t, book, rem, r); }
  }

  lemma InsertIds(side: Side, book: seq<Resting>, r: Resting)
    ensures Ids(Insert(side, book, r)) == Ids(book) + {r.id}
  {
    var b := Insert(side, book, r);
    forall x | x in b ensures x.id in Ids(book) + {r.id} { InsertMember(side, book, r, x); }
    InsertMember(side, book, r, r);
    forall x | x in book ensures x in b { InsertMember(side, book, r, x); }
  }

  lemma WithoutIds(book: seq<Resting>, id: Id)
    requires Distinct(book)
    ensures Ids(Without(book, id)) == Ids(book) - {id}
  {
    forall x | x in Without(book, id) ensures x.id in Ids(book) - {id} { WithoutMember(book, id, x); }
    forall x | x in book && x.id != id ensures x in Without(book, id) { WithoutMember(book, id, x); }
  }

  /** Trading only removes or shrinks orders, so it cannot make the book cross. */
  lemma SweepUncrossed(t: Taker, bids: seq<Resting>, asks: seq<Resting>, rem: int)
    requires Uncrossed(bids, asks)
    ensures Uncrossed(Sweep(t, bids, rem).book, asks)
    ensures Uncrossed(bids, Sweep(t, asks, rem).book)
  {
    forall b, a | b in Sweep(t, bids, rem).book && a in asks && b.price >= a.price
      ensures BotId(b.id) == BotId(a.id) != 0
    {
      SweepRest(t, bids, rem, b);
      var x :| x in bids && x.id == b.id && x.price == b.price;
    }
    forall b, a | b in bids && a in Sweep(t, asks, rem).book && b.price >= a.price
      ensures BotId(b.id) == BotId(a.id) != 0
    {
      SweepRest(t, asks, rem, a);
      var x :| x in asks && x.id == a.id && x.price == a.price;
    }
  }

  /** What the sweep leaves unfilled may rest: every order it would cross is its own. */
  lemma InsertUncrossed(o: Order, bids: seq<Resting>, asks: seq<Resting>)
    requires Uncrossed(bids, asks) && o.kind.Limit?
    requires Sorted(Buy, bids) && Positive(bids) && Sorted(Sell, asks) && Positive(asks)
    ensures o.side.Buy? ==>
              var s := Sweep(TakerOf(o), asks, o.qty);
              s.rem > 0 ==> Uncrossed(Insert(Buy, bids, Resting(o.id, o.price, s.rem)), s.book)
    ensures o.side.Sell? ==>
              var s := Sweep(TakerOf(o), bids, o.qty);
              s.rem > 0 ==> Uncrossed(s.book, Insert(Sell, asks, Resting(o.id, o.price, s.rem)))
  {
    var t := TakerOf(o);
    SweepUncrossed(t, bids, asks, o.qty);
    if o.side.Buy? {
      var s := Sweep(t, asks, o.qty);
      if s.rem > 0 {
        var r := Resting(o.id, o.price, s.rem);
        forall b, a | b in Insert(Buy, bids, r) && a in s.book && b.price >= a.price
          ensures BotId(b.id) == BotId(a.id) != 0
        {
          InsertMember(Buy, bids, r, b);
          if b !in bids { SweepExhausts(t, asks, o.qty, a); }
        }
      }
    }
    if o.side.Sell? {
      var s := Sweep(t, bids, o.qty);
      if s.rem > 0 {
        var r := Resting(o.id, o.price, s.rem);
        forall b, a | b in s.book && a in Insert(Sell, asks, r) && b.price >= a.price
          ensures BotId(b.id) == BotId(a.id) != 0
        {
          InsertMember(Sell, asks, r, a);
          if a !in asks { SweepExhausts(t, bids, o.qty, b); }
        }
      }
    }
  }

  /** The two lists after a match, side by side. */
  lemma MatchKeepsLists(f: Flats, o: Order)
    requires BookOk(f) && !Rests(f, o.id) && !o.side.OtherSide?
    ensures var g := Match(f, o).book;
            && ListOk(o.side, SideOf(g, o.side)) && ListOk(Opposite(o.side), SideOf(g, Opposite(o.side)))
            && Ids(SideOf(g, o.side)) <= Ids(SideOf(f, o.side)) + {o.id}
            && Ids(SideOf(g, Opposite(o.side))) <= Ids(SideOf(f, Opposite(o.side)))
  {
    var m := Opposite(o.side);
    var s := Sweep(TakerOf(o), SideOf(f, m), o.qty);
    SweepKeepsBook(TakerOf(o), m, SideOf(f, m), o.qty);
    SweepIds(TakerOf(o), SideOf(f, m), o.qty);
    if o.kind.Limit? && s.rem > 0 {
      var r := Resting(o.id, o.price, s.rem);
      InsertKeepsBook(o.side, SideOf(f, o.side), r);
      InsertIds(o.side, SideOf(f, o.side), r);
    }
  }

  lemma MatchKeepsUncrossed(f: Flats, o: Order)
    requires BookOk(f)
    ensures Uncrossed(Match(f, o).book.bids, Match(f, o).book.asks)
  {
    SweepUncrossed(TakerOf(o), f.bids, f.asks, o.qty);
    if o.kind.Limit? {
      InsertUncrossed(o, f.bids, f.asks);
    }
  }

  lemma BookFromLists(f: Flats, g: Flats, id: Id)
    requires BookOk(f) && g.pending == f.pending && id !in f.pending && !Rests(f, id)
    requires ListOk(Buy, g.bids) && ListOk(Sell, g.asks) && Uncrossed(g.bids, g.asks)
    requires Ids(g.bids) <= Ids(f.bids) || Ids(g.asks) <= Ids(f.asks)
    requires Ids(g.bids) <= Ids(f.bids) + {id} && Ids(g.asks) <= Ids(f.asks) + {id}
    ensures BookOk(g)
    ensures forall x :: Rests(g, x) ==> Rests(f, x) || x == id
  {
  }

  lemma MatchKeepsBook(f: Flats, o: Order)
    requires BookOk(f) && o.id !in f.pending && !Rests(f, o.id)
    ensures BookOk(Match(f, o).book) && Match(f, o).book.pending == f.pending
    ensures forall id :: Rests(Match(f, o).book, id) ==> Rests(f, id) || id == o.id
  {
    if !o.side.OtherSide? {
      MatchKeepsLists(f, o);
      MatchKeepsUncrossed(f, o);
      BookFromLists(f, Match(f, o).book, o.id);
    }
  }

  lemma WithoutUncrossed(bids: seq<Resting>, asks: seq<Resting>, id: Id)
    requires Uncrossed(bids, asks)
    ensures Uncrossed(Without(bids, id), asks) && Uncrossed(bids, Without(asks, id))
  {
    forall b | b in Without(bids, id) ensures b in bids { WithoutMember(bids, id, b); }
    forall a | a in Without(asks, id) ensures a in asks { WithoutMember(asks, id, a); }
  }

  lemma CancelKeepsBook(f: Flats, id: Id)
    requires BookOk(f)
    ensures BookOk(CancelResting(f, id)) && CancelResting(f, id).pending == f.pending
    ensures forall x :: Rests(CancelResting(f, id), x) <==> Rests(f, x) && x != id
  {
    WithoutUncrossed(f.bids, f.asks, id);
    if id in Ids(f.bids) {
      WithoutKeepsBook(Buy, f.bids, id);
      WithoutIds(f.bids, id);
    } else {
      WithoutKeepsBook(Sell, f.asks, id);
      WithoutIds(f.asks, id);
    }
  }

  /** Every event keeps the book sorted, uncrossed between different bots, and apart
      from the orders still waiting for their acknowledgement. */
  lemma StepKeepsBook(f: Flats, ev: Event)
    requires BookOk(f)
    requires ev.Submit? && !ev.order.kind.Cancel? ==> !Rests(f, ev.order.id)
    ensures BookOk(Step(f, ev).book)
  {
    match ev
    case Submit(o) =>
    case Ack(id, status) =>
      if status.Cancelled? {
        CancelKeepsBook(f, id);
      } else if id in f.pending {
        var g := f.(pending := f.pending - {id});
        assert BookOk(g);
        MatchKeepsBook(g, f.pending[id]);
      }
    case Report(fill) =>
  }
}
