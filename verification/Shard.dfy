/** The shadow order book and judge as the program keeps it: price-level trees, an
    id index into them, maps of expected and reported fills, and counters, all
    updated in place. Every operation is proved against the flat book and the ledger. */
module Shard {
  import opened Orders
  import opened Sums
  import opened Ranging
  import opened Log
  import opened Matching
  import opened FlatBook
  import opened LevelTree
  import opened Ledger
  import BookRuns
  import Judge

  /** Where the index points: the tree and the level an element sits in. */
  datatype Slot = Slot(side: Side, price: int)

  // ---------------------------------------------------------------- loops over fills

  lemma FoldTurn(current: Fill, fills: seq<Fill>, i: nat)
    requires i < |fills|
    ensures FoldFrom(current, fills[i..])
         == if Mergeable(fills[i], current) then FoldFrom(current.(qty := current.qty + fills[i].qty), fills[i + 1..])
            else [current] + FoldFrom(fills[i], fills[i + 1..])
  {
    assert fills[i..][0] == fills[i] && fills[i..][1..] == fills[i + 1..];
  }

  method FoldPartials(fills: seq<Fill>) returns (folded: seq<Fill>)
    ensures folded == Fold(fills)
  {
    FoldEnds(fills);
    if |fills| <= 1 { return fills; }
    hide FoldFrom, Fold;
    folded := [];
    var current := fills[0];
    var i := 1;
    while i < |fills|
      invariant 1 <= i <= |fills|
      invariant Fold(fills) == folded + FoldFrom(current, fills[i..])
    {
      FoldTurn(current, fills, i);
      if Mergeable(fills[i], current) {
        current := current.(qty := current.qty + fills[i].qty);
      } else {
        folded := folded + [current];
        current := fills[i];
      }
      i := i + 1;
    }
    FoldLast(current, fills[i..]);
    folded := folded + [current];
  }

  lemma FoldEnds(fills: seq<Fill>)
    ensures if |fills| <= 1 then Fold(fills) == fills else Fold(fills) == [] + FoldFrom(fills[0], fills[1..])
  {
  }

  lemma FoldLast(current: Fill, rest: seq<Fill>)
    requires rest == []
    ensures FoldFrom(current, rest) == [current]
  {
  }

  method SumFills(fills: seq<Fill>) returns (qty: int, value: int)
    ensures qty == Qty(fills) && value == Value(fills)
  {
    qty, value := 0, 0;
    var i := 0;
    while i < |fills|
      invariant 0 <= i <= |fills|
      invariant Qty(fills) == qty + Qty(fills[i..]) && Value(fills) == value + Value(fills[i..])
    {
      assert fills[i..][0] == fills[i] && fills[i..][1..] == fills[i + 1..];
      qty := qty + fills[i].qty;
      value := value + fills[i].qty * fills[i].price;
      i := i + 1;
    }
  }

  method CompareFolded(a: seq<Fill>, b: seq<Fill>) returns (same: bool)
    ensures same == Alike(a, b)
  {
    if |a| != |b| { return false; }
    var i := 0;
    while i < |a|
      invariant 0 <= i <= |a|
      invariant Alike(a[..i], b[..i])
    {
      if a[i].qty != b[i].qty || a[i].price != b[i].price || a[i].matchedWith != b[i].matchedWith {
        return false;
      }
      i := i + 1;
    }
    assert a[..i] == a && b[..i] == b;
    return true;
  }

  // ---------------------------------------------------------------- index and trees

  function TreeOf(side: Side, bids: seq<Level>, asks: seq<Level>): seq<Level> {
    if side.Buy? then bids else asks
  }

  /** The index holds exactly the resting ids, each with the level it is in. */
  ghost predicate IndexOk(index: map<Id, Slot>, bids: seq<Level>, asks: seq<Level>) {
    && (forall id :: id in index <==> id in Ids(Flat(bids)) || id in Ids(Flat(asks)))
    && (forall id :: id in index ==>
          index[id].side != OtherSide && id in Ids(Queue(TreeOf(index[id].side, bids, asks), index[id].price)))
  }

  lemma {:induction false} SweepFinds(levels: seq<Level>, gone: seq<Level>, side: Side, id: Id, price: int)
    requires TreeOk(side, levels) && TreeOk(side, gone)
    requires id in Ids(Queue(levels, price)) && id in Ids(Flat(gone)) && Distinct(Flat(levels))
    requires forall r :: r in Flat(gone) ==> exists x :: x in Flat(levels) && x.id == r.id && x.price == r.price
    ensures id in Ids(Queue(gone, price))
  {
    GetOk(side, levels, price);
    var r :| r in Flat(gone) && r.id == id;
    OrderIsAtItsPrice(side, gone, r);
    var x :| x in Flat(levels) && x.id == r.id && x.price == r.price;
    var y :| y in Queue(levels, price) && y.id == id;
    QueueMember(levels, price, y);
    UniqueId(Flat(levels), x, y);
    assert r in Queue(gone, price);
  }

  lemma UniqueId(book: seq<Resting>, x: Resting, y: Resting)
    requires Distinct(book) && x in book && y in book && x.id == y.id
    ensures x == y
  {
  }

  lemma {:induction false} QueueMember(levels: seq<Level>, price: int, y: Resting)
    requires y in Queue(levels, price)
    ensures y in Flat(levels)
  {
    if levels[0].price != price { QueueMember(levels[1..], price, y); }
  }

  /** The trees after a match keep every remaining element where the index says. */
  lemma IndexAfterMatch(index: map<Id, Slot>, bids: seq<Level>, asks: seq<Level>, makers: Side, gone: seq<Level>,
      done: set<Id>)
    requires TreeOk(Buy, bids) && TreeOk(Sell, asks) && IndexOk(index, bids, asks) && makers != OtherSide
    requires TreeOk(makers, gone) && Distinct(Flat(TreeOf(makers, bids, asks)))
    requires Ids(Flat(bids)) !! Ids(Flat(asks))
    requires Ids(Flat(gone)) == Ids(Flat(TreeOf(makers, bids, asks))) - done
    requires done <= Ids(Flat(TreeOf(makers, bids, asks)))
    requires forall r :: r in Flat(gone) ==>
               exists x :: x in Flat(TreeOf(makers, bids, asks)) && x.id == r.id && x.price == r.price
    ensures IndexOk(index - done, if makers.Buy? then gone else bids, if makers.Buy? then asks else gone)
  {
    hide Flat, Queue, TreeOk, Distinct;
    var b, a := if makers.Buy? then gone else bids, if makers.Buy? then asks else gone;
    var idx := index - done;
    forall id | id in idx
      ensures id in Ids(Queue(TreeOf(idx[id].side, b, a), idx[id].price))
    {
      var s := idx[id];
      if s.side == makers {
        QueueInFlat(TreeOf(makers, bids, asks), s.price);
        SweepFinds(TreeOf(makers, bids, asks), gone, makers, id, s.price);
      }
    }
  }

  lemma {:induction false} SweepLevelsPrices(t: Taker, levels: seq<Level>, rem: int, l: Level)
    requires l in SweepLevels(t, levels, rem).levels
    ensures exists i :: 0 <= i < |levels| && levels[i].price == l.price
  {
    if levels == [] || rem <= 0 || !InLimit(t, levels[0].price) {
      var i :| 0 <= i < |levels| && levels[i] == l;
    } else {
      var s := SweepQueue(t, levels[0].orders, rem);
      var u := SweepLevels(t, levels[1..], s.rem);
      if l in u.levels {
        SweepLevelsPrices(t, levels[1..], s.rem, l);
        var k :| 0 <= k < |levels[1..]| && levels[1..][k].price == l.price;
        assert levels[k + 1].price == l.price;
      } else {
        assert levels[0].price == l.price;
      }
    }
  }

  lemma SweptLevelOk(t: Taker, l: Level, rem: int)
    requires LevelOk(l) && InLimit(t, l.price) && SweepQueue(t, l.orders, rem).book != []
    ensures LevelOk(Level(l.price, SweepQueue(t, l.orders, rem).book))
  {
    var s := SweepQueue(t, l.orders, rem);
    QueueIsSweep(t, l.orders, rem);
    forall i | 0 <= i < |s.book| ensures s.book[i].price == l.price && s.book[i].qty > 0 {
      SweepRest(t, l.orders, rem, s.book[i]);
    }
  }

  lemma {:induction false} SweepLevelsOk(t: Taker, levels: seq<Level>, rem: int)
    requires TreeOk(t.makers, levels)
    ensures TreeOk(t.makers, SweepLevels(t, levels, rem).levels)
  {
    hide SweepQueue, LevelOk;
    if levels == [] || rem <= 0 || !InLimit(t, levels[0].price) {
    } else {
      var l, rest := levels[0], levels[1..];
      TreeTail(t.makers, levels);
      var s := SweepQueue(t, l.orders, rem);
      SweepLevelsOk(t, rest, s.rem);
      var u := SweepLevels(t, rest, s.rem);
      forall i | 0 <= i < |u.levels| ensures Key(t.makers, l.price) < Key(t.makers, u.levels[i].price) {
        SweepLevelsPrices(t, rest, s.rem, u.levels[i]);
        var k :| 0 <= k < |rest| && rest[k].price == u.levels[i].price;
        assert levels[k + 1] == rest[k];
      }
      if s.book != [] {
        SweptLevelOk(t, l, rem);
        ConsTree(t.makers, Level(l.price, s.book), u.levels);
      } else {
        assert KeepLevel(l.price, s.book) + u.levels == u.levels;
      }
    }
  }

  lemma ApplyOne(l: Ledger, e: Emit)
    ensures ApplyAll(l, [e]) == Apply(l, e)
  {
    assert [e][..0] == [];
  }

  lemma ApplyTrade(l: Ledger, taker: Id, t: Trade)
    ensures var two := Apply(Apply(l, Exp(Fill(taker, t.qty, t.price, t.maker))),
        Exp(Fill(t.maker, t.qty, t.price, taker)));
            ApplyAll(l, TradeEmits(taker, t)) == if t.done then CleanUp(two, t.maker) else two
  {
    hide ApplyAll, Apply;
    var e1, e2 := Exp(Fill(taker, t.qty, t.price, t.maker)), Exp(Fill(t.maker, t.qty, t.price, taker));
    ApplyOne(l, e1);
    ApplyAppend(l, [e1], [e2]);
    assert [e1] + [e2] == [e1, e2];
    ApplyOne(Apply(l, e1), e2);
    if t.done {
      var two := Apply(Apply(l, e1), e2);
      ApplyAppend(l, [e1, e2], [Clean(t.maker)]);
      ApplyOne(two, Clean(t.maker));
      CleanIsApply(two, t.maker);
    } else {
      assert TradeEmits(taker, t) == [e1, e2];
    }
  }

  lemma CleanIsApply(l: Ledger, id: Id)
    ensures Apply(l, Clean(id)) == CleanUp(l, id)
  {
  }

  // ---------------------------------------------------------------- the shard

  class SymbolShard {
    var pendingOrders: map<Id, Order>
    var orderMap: map<Id, Slot>
    var bids: seq<Level>   // best (highest) price first
    var asks: seq<Level>   // best (lowest) price first

    var expectedFills: map<Id, seq<Fill>>
    var actualFills: map<Id, seq<Fill>>

    // expectedQty, actualQty, priceCorrectQty, priorityCorrectQty, expectedValue,
    // valueDiff and phantomQty accumulated for cleaned-up orders
    var counters: Tally

    var priorityViolations: int
    var ackViolations: int
    var duplicateOrders: int
    var unknownAcks: int

    ghost function BookNow(): Flats
      reads this
    {
      Flats(pendingOrders, Flat(bids), Flat(asks))
    }

    ghost function LedgerNow(): Ledger
      reads this
    {
      Ledger(expectedFills, actualFills, counters, ackViolations, duplicateOrders, unknownAcks)
    }

    /** Trees well formed, index and trees in agreement, book well formed and uncrossed. */
    ghost predicate Valid()
      reads this
    {
      && TreeOk(Buy, bids) && TreeOk(Sell, asks)
      && IndexOk(orderMap, bids, asks) && BookOk(BookNow())
    }

    /** No order has an empty list of expected fills on record. */
    ghost predicate Recorded()
      reads this
    {
      NoEmptyLists(expectedFills)
    }

    constructor ()
      ensures Valid() && Recorded() && BookNow() == EMPTY && LedgerNow() == BLANK
    {
      pendingOrders, orderMap, bids, asks := map[], map[], [], [];
      expectedFills, actualFills, counters := map[], map[], ZERO;
      priorityViolations, ackViolations, duplicateOrders, unknownAcks := 0, 0, 0, 0;
    }

    method CheckCleanup(orderID: Id)
      modifies this`expectedFills, this`actualFills, this`counters
      ensures LedgerNow() == if orderID in pendingOrders || orderID in orderMap then old(LedgerNow())
                             else CleanUp(old(LedgerNow()), orderID)
    {
      if orderID in pendingOrders { return; }
      if orderID in orderMap { return; }
      var expList := Get(expectedFills, orderID);
      var actList := Get(actualFills, orderID);
      var totalExpQty, _ := SumFills(expList);
      var totalActQty, _ := SumFills(actList);
      if totalExpQty != totalActQty { return; }
      var foldedExp := FoldPartials(expList);
      var foldedAct := FoldPartials(actList);
      var same := CompareFolded(foldedExp, foldedAct);
      if !same { return; }
      var _, expValue := SumFills(foldedExp);
      counters := Plus(counters, Tally(totalExpQty, totalActQty, totalExpQty, totalExpQty, expValue, 0, 0));
      expectedFills := expectedFills - {orderID};
      actualFills := actualFills - {orderID};
    }

    method RecordExpectedFill(orderID: Id, qty: int, price: int, matchedWith: Id)
      modifies this`expectedFills
      ensures LedgerNow() == Apply(old(LedgerNow()), Exp(Fill(orderID, qty, price, matchedWith)))
    {
      expectedFills := expectedFills[orderID := Get(expectedFills, orderID) + [Fill(orderID, qty, price, matchedWith)]];
    }

    /** One trade: both expected fills, and the maker's cleanup once it is used up. */
    method RecordTrade(taker: Id, maker: Id, price: int, qty: int, done: bool)
      requires maker !in pendingOrders
      modifies this`orderMap, this`expectedFills, this`actualFills, this`counters
      ensures LedgerNow() == ApplyAll(old(LedgerNow()), TradeEmits(taker, Trade(maker, price, qty, done)))
      ensures orderMap == if done then old(orderMap) - {maker} else old(orderMap)
    {
      ApplyTrade(LedgerNow(), taker, Trade(maker, price, qty, done));
      RecordExpectedFill(taker, qty, price, maker);
      RecordExpectedFill(maker, qty, price, taker);
      if done {
        orderMap := orderMap - {maker};
        CheckCleanup(maker);
      }
    }

    /** The inner loop: the queue of one level, front to back. */
    method MatchLevel(t: Taker, price: int, orders: seq<Resting>, qty: int)
      returns (queue: seq<Resting>, rem: int, ghost trades: seq<Trade>)
      requires forall r :: r in orders ==> r.id !in pendingOrders && r.price == price
      modifies this`orderMap, this`expectedFills, this`actualFills, this`counters
      ensures Swept(queue, trades, rem) == SweepQueue(t, orders, qty)
      ensures LedgerNow() == ApplyAll(old(LedgerNow()), TradeLog(t.id, trades))
      ensures orderMap == old(orderMap) - BookRuns.DoneMakers(trades)
    {
      hide ApplyAll, TradeLog, BookRuns.DoneMakers, SweepQueue, QueueSoFar;
      var passed, coming := [], orders;   // the list, split at the cursor
      rem, trades := qty, [];
      NoTrades(t.id, LedgerNow());
      QueueStart(t, orders, qty);
      while coming != [] && rem > 0
        invariant forall r :: r in coming ==> r in orders
        invariant QueueSoFar(t, orders, qty, passed, coming, rem, trades)
        invariant LedgerNow() == ApplyAll(old(LedgerNow()), TradeLog(t.id, trades))
        invariant orderMap == old(orderMap) - BookRuns.DoneMakers(trades)
        decreases |coming|
      {
        var resting, next := coming[0], coming[1..];
        assert resting in coming;
        QueueTurn(t, orders, qty, passed, coming, rem, trades);
        if Own(t, resting) {
          passed := passed + [resting];
        } else {
          var tradeQty := Min(rem, resting.qty);
          var done := resting.qty - tradeQty == 0;
          LedgerTrade(old(LedgerNow()), t.id, trades, TradeWith(resting, tradeQty));
          RecordTrade(t.id, resting.id, price, tradeQty, done);
          trades := trades + [TradeWith(resting, tradeQty)];
          rem := rem - tradeQty;
          passed := passed + Leftover(resting, tradeQty);
        }
        coming := next;
      }
      QueueEnd(t, orders, qty, passed, coming, rem, trades);
      queue := passed + coming;
    }

    /** The outer loop over price levels, and the removal of the emptied ones. */
    method SweepTree(t: Taker, levels: seq<Level>, qty: int)
      returns (left: seq<Level>, rem: int, ghost trades: seq<Trade>)
      requires TreeOk(t.makers, levels)
      requires forall r :: r in Flat(levels) ==> r.id !in pendingOrders
      modifies this`orderMap, this`expectedFills, this`actualFills, this`counters
      ensures LevelsSwept(left, trades, rem) == SweepLevels(t, levels, qty)
      ensures LedgerNow() == ApplyAll(old(LedgerNow()), TradeLog(t.id, trades))
      ensures orderMap == old(orderMap) - BookRuns.DoneMakers(trades)
    {
      hide ApplyAll, TradeLog, BookRuns.DoneMakers, SweepLevels, SweepQueue, NonEmpty, EmptyPrices, Flat, SoFar;
      var passed: seq<Level>, coming, emptyLevels := [], levels, [];   // the tree, split at the iterator
      rem, trades := qty, [];
      NoTrades(t.id, LedgerNow());
      TreeStart(t, levels, qty);
      while coming != [] && rem > 0
        invariant |passed| <= |levels| && coming == levels[|passed|..]
        invariant forall k :: 0 <= k < |passed| ==> passed[k].price == levels[k].price
        invariant emptyLevels == EmptyPrices(passed)
        invariant SoFar(t, levels, qty, passed, coming, rem, trades)
        invariant LedgerNow() == ApplyAll(old(LedgerNow()), TradeLog(t.id, trades))
        invariant orderMap == old(orderMap) - BookRuns.DoneMakers(trades)
        decreases |coming|
      {
        var level := coming[0];
        if !InLimit(t, level.price) { break; }
        LevelReady(t.makers, levels, |passed|);
        var queue, left', tr := MatchLevel(t, level.price, level.orders, rem);
        BookRuns.TradesAppend(t.id, trades, tr);
        ApplyAppend(old(LedgerNow()), TradeLog(t.id, trades), TradeLog(t.id, tr));
        TreeTurn(t, levels, qty, passed, coming, rem, trades);
        NonEmptySnoc(passed, Level(level.price, queue));
        if queue == [] { emptyLevels := emptyLevels + [level.price]; }
        passed := passed + [Level(level.price, queue)];
        coming, rem, trades := coming[1..], left', trades + tr;
      }
      TreeEnd(t, levels, qty, passed, coming, rem, trades);
      left := RemoveLevels(passed + coming, emptyLevels);
    }

    static method RemoveLevels(tree: seq<Level>, prices: seq<int>) returns (left: seq<Level>)
      ensures left == RemoveAll(tree, prices)
    {
      left := tree;
      var k := 0;
      while k < |prices|
        invariant 0 <= k <= |prices|
        invariant RemoveAll(left, prices[k..]) == RemoveAll(tree, prices)
      {
        assert prices[k..][1..] == prices[k + 1..];
        left := TreeRemove(left, prices[k]);
        k := k + 1;
      }
    }

    method MatchIncoming(order: Order, useLimitPrice: bool) returns (remaining: int, ghost trades: seq<Trade>)
      requires Valid() && useLimitPrice == order.kind.Limit?
      modifies this`orderMap, this`bids, this`asks, this`expectedFills, this`actualFills, this`counters
      ensures Valid() && BookNow() == SweptBook(old(BookNow()), order)
      ensures remaining == LeftOver(old(BookNow()), order) && trades == TradesOf(old(BookNow()), order)
      ensures LedgerNow() == ApplyAll(old(LedgerNow()), TradeLog(order.id, trades))
    {
      hide ApplyAll, TradeLog, BookRuns.DoneMakers, SweepLevels, Sweep, Flat, BookOk, IndexOk, TreeOk;
      var limit := if useLimitPrice then Some(order.price) else None;
      var t := Taker(order.id, Opposite(order.side), limit, SkippedBot(order.id));
      if order.side.OtherSide? {
        remaining, trades := order.qty, [];
        NoTrades(order.id, LedgerNow());
      } else {
        MakersNotPending(BookNow(), bids, asks, t.makers);
        AfterSweep(pendingOrders, orderMap, bids, asks, order);
        if order.side.Buy? {
          var left, rem, tr := SweepTree(t, asks, order.qty);
          asks := left;
          remaining, trades := rem, tr;
        } else {
          var left, rem, tr := SweepTree(t, bids, order.qty);
          bids := left;
          remaining, trades := rem, tr;
        }
      }
    }

    method AddOrderToBook(order: Order, qty: int)
      requires Valid() && !order.side.OtherSide? && qty > 0
      requires order.id !in pendingOrders && order.id !in orderMap
      requires ghost var r := Resting(order.id, order.price, qty);
               if order.side.Buy? then Uncrossed(Insert(Buy, Flat(bids), r), Flat(asks))
               else Uncrossed(Flat(bids), Insert(Sell, Flat(asks), r))
      modifies this`orderMap, this`bids, this`asks
      ensures Valid()
      ensures BookNow() == WithSide(old(BookNow()), order.side,
                Insert(order.side, SideOf(old(BookNow()), order.side), Resting(order.id, order.price, qty)))
      ensures orderMap == old(orderMap)[order.id := Slot(order.side, order.price)]
    {
      hide BookOk, IndexOk, TreeOk, Flat, Insert, Uncrossed, AddOrder;
      var r := Resting(order.id, order.price, qty);
      AfterAdd(pendingOrders, orderMap, bids, asks, order.side, r);
      if order.side.Buy? {
        bids := AddOrder(Buy, bids, r);
      } else {
        asks := AddOrder(Sell, asks, r);
      }
      orderMap := orderMap[order.id := Slot(order.side, order.price)];
    }

    method HasRestingOrder(orderID: Id) returns (found: bool)
      ensures found == (orderID in orderMap)
    {
      found := orderID in orderMap;
    }

    /** The level an index entry points to always exists: the branch that would drop a
        dangling entry is unreachable. */
    method RemoveRestingOrder(orderID: Id) returns (found: bool)
      requires Valid()
      modifies this`orderMap, this`bids, this`asks
      ensures Valid() && found == (orderID in old(orderMap))
      ensures BookNow() == if found then CancelResting(old(BookNow()), orderID) else old(BookNow())
      ensures orderMap == old(orderMap) - {orderID}
    {
      hide BookOk, TreeOk, Flat, RemoveOrder, IndexOk, CancelResting, TreeGet;
      if orderID !in orderMap {
        assert orderMap - {orderID} == orderMap;
        return false;
      }
      SlotSide(orderMap, bids, asks, orderID);
      var slot := orderMap[orderID];
      var tree := if slot.side.Buy? then bids else asks;
      AfterRemove(pendingOrders, orderMap, bids, asks, orderID);
      if TreeGet(tree, slot.price).None? { assert false; }
      if slot.side.Buy? {
        bids := RemoveOrder(Buy, bids, slot.price, orderID);
      } else {
        asks := RemoveOrder(Sell, asks, slot.price, orderID);
      }
      orderMap := orderMap - {orderID};
      return true;
    }

    /** The remainder of a limit order rests in the book. */
    method MatchLimitOrder(order: Order)
      requires Valid() && order.kind.Limit? && order.id !in pendingOrders && order.id !in orderMap
      modifies this`orderMap, this`bids, this`asks, this`expectedFills, this`actualFills, this`counters
      ensures Valid() && BookNow() == Match(old(BookNow()), order).book
      ensures LedgerNow() == ApplyAll(old(LedgerNow()), TradeLog(order.id, TradesOf(old(BookNow()), order)))
    {
      hide ApplyAll, TradeLog, Sweep, BookOk, IndexOk, TreeOk, Flat, Insert, Uncrossed;
      NotResting(orderMap, BookNow(), bids, asks, order.id);
      RestIsUncrossed(BookNow(), order);
      var remaining, trades := MatchIncoming(order, true);
      StillNotResting(old(BookNow()), order, orderMap, bids, asks);
      if remaining > 0 && !order.side.OtherSide? {
        AddOrderToBook(order, remaining);
      }
    }

    method MatchMarketOrder(order: Order)
      requires Valid() && order.kind.Market? && order.id !in pendingOrders && order.id !in orderMap
      modifies this`orderMap, this`bids, this`asks, this`expectedFills, this`actualFills, this`counters
      ensures Valid() && BookNow() == Match(old(BookNow()), order).book
      ensures LedgerNow() == ApplyAll(old(LedgerNow()), TradeLog(order.id, TradesOf(old(BookNow()), order)))
    {
      hide ApplyAll, TradeLog, Sweep, BookOk, IndexOk, TreeOk, Flat, Insert, Uncrossed;
      var remaining, trades := MatchIncoming(order, false);
    }

    // ------------------------------------------------------------ the judge's entry points

    /** Any order may be submitted; only an id that already rests would spoil the index. */
    method ProcessOrder(orderID: Id, kind: Kind, side: Side, price: int, quantity: int)
      requires Valid()
      modifies this`pendingOrders, this`duplicateOrders, this`expectedFills, this`actualFills, this`counters
      ensures var out := StepSubmit(old(BookNow()), Order(orderID, kind, side, price, quantity));
              BookNow() == out.book && LedgerNow() == ApplyAll(old(LedgerNow()), out.log)
      ensures kind.Cancel? || orderID !in orderMap ==> Valid()
      ensures old(Recorded()) ==> Recorded()
    {
      hide ApplyAll, IndexOk, TreeOk, Flat, CleanUp, BookOk, Rests, StepSubmit, NoEmptyLists;
      ghost var o, f, l := Order(orderID, kind, side, price, quantity), BookNow(), LedgerNow();
      if Recorded() { ApplyKeepsLists(l, StepSubmit(f, o).log); }
      SubmitFacts(f, o, l, orderMap, bids, asks);
      if kind.Cancel? { return; }
      if orderID in pendingOrders { duplicateOrders := duplicateOrders + 1; }
      if orderID in orderMap { duplicateOrders := duplicateOrders + 1; }
      pendingOrders := pendingOrders[orderID := Order(orderID, kind, side, price, quantity)];
      CheckCleanup(orderID);
    }

    method ProcessAck(orderID: Id, status: Status)
      requires Valid()
      modifies this
      ensures Valid()
      ensures BookNow() == StepAck(old(BookNow()), orderID, status).book
      ensures LedgerNow() == ApplyAll(old(LedgerNow()), StepAck(old(BookNow()), orderID, status).log)
      ensures priorityViolations == old(priorityViolations) && (old(Recorded()) ==> Recorded())
    {
      hide ApplyAll, TradeLog, Sweep, BookOk, IndexOk, TreeOk, Flat, CleanUp, Match, CancelResting;
      ghost var f, l := BookNow(), LedgerNow();
      if Recorded() { ApplyKeepsLists(l, StepAck(f, orderID, status).log); }
      NotResting(orderMap, f, bids, asks, orderID);
      if status.Cancelled? {
        CancelLedger(f, orderID, l);
        var found := HasRestingOrder(orderID);
        if found { var _ := RemoveRestingOrder(orderID); }
        CheckCleanup(orderID);
        return;
      }
      if orderID in pendingOrders {
        AckPending(orderID, status);
        return;
      }
      UnknownLedger(f, orderID, status, l);
      if status.Rejected? {
        CheckCleanup(orderID);
        return;
      }
      unknownAcks := unknownAcks + 1;
      CheckCleanup(orderID);
    }

    /** The acknowledgement of an order that was waiting for one. */
    method AckPending(orderID: Id, status: Status)
      requires Valid() && orderID in pendingOrders && !status.Cancelled?
      modifies this
      ensures Valid()
      ensures BookNow() == StepAck(old(BookNow()), orderID, status).book
      ensures LedgerNow() == ApplyAll(old(LedgerNow()), StepAck(old(BookNow()), orderID, status).log)
      ensures priorityViolations == old(priorityViolations)
    {
      hide ApplyAll, TradeLog, Sweep, BookOk, IndexOk, TreeOk, Flat, CleanUp, Match, CancelResting, TradesOf;
      ghost var f, l := BookNow(), LedgerNow();
      AckLedger(f, orderID, status, l);
      var order := pendingOrders[orderID];
      pendingOrders := pendingOrders - {orderID};
      ghost var g := BookNow();
      PendingTaken(f, g, orderID);
      NotResting(orderMap, g, bids, asks, orderID);
      match order.kind {
        case Limit =>
          if !status.Accepted? {
            ackViolations := ackViolations + 1;
            CheckCleanup(orderID);
            return;
          }
          MatchLimitOrder(order);
        case Market =>
          if !status.Accepted? {
            ackViolations := ackViolations + 1;
            CheckCleanup(orderID);
            return;
          }
          MatchMarketOrder(order);
        case _ =>
          if !status.Rejected? { ackViolations := ackViolations + 1; }
      }
      NotResting(orderMap, BookNow(), bids, asks, orderID);
      CheckCleanup(orderID);
    }

    method ProcessFill(orderID: Id, filledQty: int, filledPrice: int, matchedWith: Id)
      requires Valid()
      modifies this`expectedFills, this`actualFills, this`counters
      ensures Valid() && BookNow() == old(BookNow())
      ensures var out := Step(old(BookNow()), Report(Fill(orderID, filledQty, filledPrice, matchedWith)));
              LedgerNow() == ApplyAll(old(LedgerNow()), out.log)
      ensures old(Recorded()) ==> Recorded()
    {
      hide ApplyAll, IndexOk, TreeOk, Flat, CleanUp, BookOk, Rests;
      var fill := Fill(orderID, filledQty, filledPrice, matchedWith);
      FillLedger(BookNow(), fill, LedgerNow());
      if Recorded() { ApplyKeepsLists(LedgerNow(), Step(BookNow(), Report(fill)).log); }
      NotResting(orderMap, BookNow(), bids, asks, orderID);
      actualFills := actualFills[orderID := Get(actualFills, orderID) + [fill]];
      CheckCleanup(orderID);
    }

    // ------------------------------------------------------------ the score

    /** Two map passes and a pass over the expected prices, in any order. */
    static method MatchingQtyByPrice(expectedList: seq<Fill>, actualList: seq<Fill>) returns (matched: int)
      ensures matched == PriceMatched(expectedList, actualList)
    {
      var expectedByPrice := ByPrice(expectedList);
      var actualByPrice := ByPrice(actualList);
      matched := 0;
      var todo := expectedByPrice.Keys;
      ghost var f := p => Min(QtyAt(expectedList, p), QtyAt(actualList, p));
      while todo != {}
        invariant todo <= expectedByPrice.Keys
        invariant matched + Sum(todo, f) == PriceMatched(expectedList, actualList)
        decreases todo
      {
        var price := PickOne(todo);
        SumPick(todo, f, price);
        NoQty(actualList, price);
        matched := matched + Min(expectedByPrice[price], if price in actualByPrice then actualByPrice[price] else 0);
        todo := todo - {price};
      }
    }

    static method ByPrice(fills: seq<Fill>) returns (m: map<int, int>)
      ensures m.Keys == Prices(fills) && forall p :: p in m ==> m[p] == QtyAt(fills, p)
    {
      m := map[];
      var i := 0;
      while i < |fills|
        invariant 0 <= i <= |fills|
        invariant m.Keys == Prices(fills[..i])
        invariant forall p :: (if p in m then m[p] else 0) + QtyAt(fills[i..], p) == QtyAt(fills, p)
      {
        var f := fills[i];
        assert fills[i..][0] == f && fills[i..][1..] == fills[i + 1..];
        assert fills[..i + 1] == fills[..i] + [f];
        PricesSnoc(fills[..i], f);
        m := m[f.price := (if f.price in m then m[f.price] else 0) + f.qty];
        i := i + 1;
      }
      assert fills[..i] == fills;
    }

    static method PriorityMatchedQty(expectedList: seq<Fill>, actualList: seq<Fill>)
        returns (matched: int, violations: int)
      ensures matched == PrioMatched(expectedList, actualList)
      ensures violations == PrioViolations(expectedList, actualList)
    {
      matched, violations := 0, 0;
      var i := 0;
      while i < |expectedList|
        invariant 0 <= i <= |expectedList|
        invariant matched + PrioMatched(expectedList[i..], From(actualList, i)) == PrioMatched(expectedList, actualList)
        invariant violations + PrioViolations(expectedList[i..], From(actualList, i))
            == PrioViolations(expectedList, actualList)
      {
        PrioTurn(expectedList, actualList, i);
        if i >= |actualList| || !SameFill(expectedList[i], actualList[i]) {
          violations := violations + 1;
        } else {
          matched := matched + expectedList[i].qty;
        }
        i := i + 1;
      }
      if |actualList| > |expectedList| { violations := violations + |actualList| - |expectedList|; }
    }

    /** One order's share of the totals, and the priority violations it adds. */
    static method OrderTally(expected: seq<Fill>, actual: seq<Fill>) returns (t: Tally, violations: int)
      requires expected != []
      ensures t == Term(expected, actual) && violations == PrioViolations(Fold(expected), Fold(actual))
    {
      var e := FoldPartials(expected);
      var a := FoldPartials(actual);
      var totalExpQty, expValue := SumFills(e);
      var totalActQty, actValue := SumFills(a);
      var price := MatchingQtyByPrice(e, a);
      var prio;
      prio, violations := PriorityMatchedQty(e, a);
      t := Tally(totalExpQty, totalActQty, price, prio, expValue, Abs(expValue - actValue),
                 if totalActQty > totalExpQty then totalActQty - totalExpQty else 0);
    }

    /** The cleanup pass that opens the score: it cannot change the totals. */
    method CleanupPass()
      modifies this`expectedFills, this`actualFills, this`counters
      ensures Totals(LedgerNow()) == Totals(old(LedgerNow()))
      ensures forall id :: id in expectedFills ==>
                id in old(expectedFills) && expectedFills[id] == old(expectedFills)[id]
      ensures forall id :: id in expectedFills ==>
                id in pendingOrders || id in orderMap || !Settled(Get(expectedFills, id), Get(actualFills, id))
    {
      hide Totals, Settled;
      var todo := expectedFills.Keys;
      while todo != {}
        invariant Totals(LedgerNow()) == Totals(old(LedgerNow()))
        invariant forall id :: id in expectedFills ==>
                    id in old(expectedFills) && expectedFills[id] == old(expectedFills)[id]
        invariant forall id :: id in expectedFills && id !in todo ==>
                    id in pendingOrders || id in orderMap || !Settled(Get(expectedFills, id), Get(actualFills, id))
        decreases todo
      {
        var id := PickOne(todo);
        Judge.CleanupIsTransparent(LedgerNow(), id);
        CheckCleanup(id);
        todo := todo - {id};
      }
    }

    /** The final score is the judgement on the ledger as it stood. */
    method GetCorrectnessScore() returns (score: real)
      requires Valid() && Recorded()
      modifies this`expectedFills, this`actualFills, this`counters, this`priorityViolations
      ensures Valid() && Recorded()
      ensures score == Judgement(old(LedgerNow())) && Totals(LedgerNow()) == Totals(old(LedgerNow()))
      ensures priorityViolations == old(priorityViolations)
          + Sum(expectedFills.Keys, Mismatches(expectedFills, actualFills))
    {
      hide BookOk, IndexOk, TreeOk, Flat, Terms, Total, Sum, Totals, Mismatches;
      CleanupPass();
      var t, violations := ExpectedPass();
      priorityViolations := priorityViolations + violations;
      var u := PhantomPass();
      SplitTotals(LedgerNow());
      t := Plus(counters, Plus(t, u));
      score := Score(t, ackViolations, duplicateOrders, unknownAcks);
    }

    method ExpectedPass() returns (t: Tally, violations: int)
      requires Recorded()
      ensures t == Total(expectedFills.Keys, Terms(LedgerNow()))
      ensures violations == Sum(expectedFills.Keys, Mismatches(expectedFills, actualFills))
    {
      hide Total, Term, Sum;
      t, violations := ZERO, 0;
      var todo := expectedFills.Keys;
      ghost var f, g := Terms(LedgerNow()), Mismatches(expectedFills, actualFills);
      PlusZero(Total(todo, f));
      while todo != {}
        invariant todo <= expectedFills.Keys
        invariant Plus(t, Total(todo, f)) == Total(expectedFills.Keys, f)
        invariant violations + Sum(todo, g) == Sum(expectedFills.Keys, g)
        decreases todo
      {
        var id := PickOne(todo);
        TotalPick(todo, f, id);
        SumPick(todo, g, id);
        var one, v := OrderTally(expectedFills[id], Get(actualFills, id));
        Judge.PlusRotate(t, one, Total(todo - {id}, f));
        t, violations := Plus(t, one), violations + v;
        todo := todo - {id};
      }
      EmptySums(f, g);
      PlusZero(t);
    }

    method PhantomPass() returns (t: Tally)
      ensures t == Total(actualFills.Keys - expectedFills.Keys, Terms(LedgerNow()))
    {
      hide Total, Qty;
      t := ZERO;
      var todo := actualFills.Keys;
      ghost var f := Terms(LedgerNow());
      PlusZero(Total(todo - expectedFills.Keys, f));
      while todo != {}
        invariant todo <= actualFills.Keys
        invariant Plus(t, Total(todo - expectedFills.Keys, f)) == Total(actualFills.Keys - expectedFills.Keys, f)
        decreases todo
      {
        var id := PickOne(todo);
        if id !in expectedFills {
          TotalPick(todo - expectedFills.Keys, f, id);
          var qty, _ := SumFills(actualFills[id]);
          var one := Tally(0, qty, 0, 0, 0, 0, qty);
          assert f(id) == one;
          Judge.PlusRotate(t, one, Total(todo - expectedFills.Keys - {id}, f));
          t := Plus(t, one);
          assert todo - expectedFills.Keys - {id} == todo - {id} - expectedFills.Keys;
        } else {
          assert todo - expectedFills.Keys == todo - {id} - expectedFills.Keys;
        }
        todo := todo - {id};
      }
      TotalEmpty(f);
      assert todo - expectedFills.Keys == {};
      PlusZero(t);
    }
  }

  lemma NoTrades(taker: Id, l: Ledger)
    ensures ApplyAll(l, TradeLog(taker, [])) == l && BookRuns.DoneMakers([]) == {}
  {
  }

  /** One more trade is recorded. */
  lemma LedgerTrade(l: Ledger, taker: Id, trades: seq<Trade>, t: Trade)
    ensures ApplyAll(ApplyAll(l, TradeLog(taker, trades)), TradeEmits(taker, t))
         == ApplyAll(l, TradeLog(taker, trades + [t]))
    ensures BookRuns.DoneMakers(trades + [t]) == BookRuns.DoneMakers(trades) + if t.done then {t.maker} else {}
  {
    hide ApplyAll, TradeLog, BookRuns.DoneMakers;
    BookRuns.TradesSnoc(taker, trades, t);
    ApplyAppend(l, TradeLog(taker, trades), TradeEmits(taker, t));
  }

  // ---------------------------------------------------------------- the inner loop, turn by turn

  ghost predicate QueueSoFar(t: Taker, orders: seq<Resting>, qty: int, passed: seq<Resting>, coming: seq<Resting>,
      rem: int, trades: seq<Trade>) {
    var u := SweepQueue(t, coming, rem);
    SweepQueue(t, orders, qty) == Swept(passed + u.book, trades + u.trades, u.rem)
  }

  lemma QueueStart(t: Taker, orders: seq<Resting>, qty: int)
    ensures QueueSoFar(t, orders, qty, [], orders, qty, [])
  {
    var u := SweepQueue(t, orders, qty);
    assert [] + u.book == u.book && [] + u.trades == u.trades;
  }

  lemma QueueTurn(t: Taker, orders: seq<Resting>, qty: int, passed: seq<Resting>, coming: seq<Resting>, rem: int,
      trades: seq<Trade>)
    requires coming != [] && rem > 0 && QueueSoFar(t, orders, qty, passed, coming, rem, trades)
    ensures if Own(t, coming[0]) then QueueSoFar(t, orders, qty, passed + [coming[0]], coming[1..], rem, trades)
            else
              var q := Min(rem, coming[0].qty);
              QueueSoFar(t, orders, qty, passed + Leftover(coming[0], q), coming[1..], rem - q,
                         trades + [TradeWith(coming[0], q)])
  {
    var r, whole := coming[0], SweepQueue(t, orders, qty);
    hide Own, Min, Leftover, TradeWith;
    if Own(t, r) {
      var u := SweepQueue(t, coming[1..], rem);
      assert passed + ([r] + u.book) == passed + [r] + u.book;
    } else {
      var q := Min(rem, r.qty);
      var u := SweepQueue(t, coming[1..], rem - q);
      assert passed + (Leftover(r, q) + u.book) == passed + Leftover(r, q) + u.book;
      assert trades + ([TradeWith(r, q)] + u.trades) == trades + [TradeWith(r, q)] + u.trades;
    }
  }

  lemma QueueEnd(t: Taker, orders: seq<Resting>, qty: int, passed: seq<Resting>, coming: seq<Resting>, rem: int,
      trades: seq<Trade>)
    requires (coming == [] || rem <= 0) && QueueSoFar(t, orders, qty, passed, coming, rem, trades)
    ensures SweepQueue(t, orders, qty) == Swept(passed + coming, trades, rem)
  {
    assert trades + [] == trades;
  }

  // ---------------------------------------------------------------- the outer loop, turn by turn

  ghost predicate SoFar(t: Taker, levels: seq<Level>, qty: int, passed: seq<Level>, coming: seq<Level>, rem: int,
      trades: seq<Trade>) {
    var u := SweepLevels(t, coming, rem);
    SweepLevels(t, levels, qty) == LevelsSwept(NonEmpty(passed) + u.levels, trades + u.trades, u.rem)
  }

  lemma TreeStart(t: Taker, levels: seq<Level>, qty: int)
    ensures SoFar(t, levels, qty, [], levels, qty, []) && EmptyPrices([]) == []
  {
    var u := SweepLevels(t, levels, qty);
    assert [] + u.levels == u.levels && [] + u.trades == u.trades;
  }

  lemma LevelReady(side: Side, levels: seq<Level>, i: nat)
    requires TreeOk(side, levels) && i < |levels|
    ensures forall r :: r in levels[i].orders ==> r.price == levels[i].price && r in Flat(levels)
  {
    assert LevelOk(levels[i]);
    forall r | r in levels[i].orders ensures r in Flat(levels) { LevelInFlat(levels, i, r); }
  }

  lemma {:induction false} LevelInFlat(levels: seq<Level>, i: nat, r: Resting)
    requires i < |levels| && r in levels[i].orders
    ensures r in Flat(levels)
  {
    if i > 0 { LevelInFlat(levels[1..], i - 1, r); }
  }

  lemma TreeTurn(t: Taker, levels: seq<Level>, qty: int, passed: seq<Level>, coming: seq<Level>, rem: int,
      trades: seq<Trade>)
    requires coming != [] && rem > 0 && InLimit(t, coming[0].price)
        && SoFar(t, levels, qty, passed, coming, rem, trades)
    ensures var s := SweepQueue(t, coming[0].orders, rem);
            SoFar(t, levels, qty, passed + [Level(coming[0].price, s.book)], coming[1..], s.rem, trades + s.trades)
  {
    hide NonEmpty, SweepQueue, KeepLevel, InLimit;
    var s := SweepQueue(t, coming[0].orders, rem);
    var l := Level(coming[0].price, s.book);
    NonEmptySnoc(passed, l);
    var u := SweepLevels(t, coming[1..], s.rem);
    var k := KeepLevel(l.price, l.orders);
    assert SweepLevels(t, coming, rem) == LevelsSwept(k + u.levels, s.trades + u.trades, u.rem);
    hide SweepLevels;
    assert NonEmpty(passed) + (k + u.levels) == NonEmpty(passed) + k + u.levels;
    assert trades + (s.trades + u.trades) == trades + s.trades + u.trades;
  }

  lemma TreeEnd(t: Taker, levels: seq<Level>, qty: int, passed: seq<Level>, coming: seq<Level>, rem: int,
      trades: seq<Trade>)
    requires TreeOk(t.makers, levels) && |passed| <= |levels| && coming == levels[|passed|..]
    requires forall k :: 0 <= k < |passed| ==> passed[k].price == levels[k].price
    requires coming == [] || rem <= 0 || !InLimit(t, coming[0].price)
    requires SoFar(t, levels, qty, passed, coming, rem, trades)
    ensures SweepLevels(t, levels, qty) == LevelsSwept(RemoveAll(passed + coming, EmptyPrices(passed)), trades, rem)
  {
    hide NonEmpty, EmptyPrices, RemoveAll;
    assert SweepLevels(t, coming, rem) == LevelsSwept(coming, [], rem);
    assert trades + [] == trades;
    forall k | 0 <= k < |coming| ensures coming[k].orders != [] { assert LevelOk(levels[|passed| + k]); }
    NonEmptyAppend(passed, coming);
    forall i, j | 0 <= i < j < |passed + coming| ensures (passed + coming)[i].price != (passed + coming)[j].price {
      assert Key(t.makers, levels[i].price) < Key(t.makers, levels[j].price);
    }
    RemoveEmpties(passed + coming);
  }

  // ---------------------------------------------------------------- the index through each update

  /** The book after the sweep and before the remainder rests. */
  function SweptBook(f: Flats, o: Order): Flats {
    if o.side.OtherSide? then f
    else WithSide(f, Opposite(o.side), Sweep(TakerOf(o), SideOf(f, Opposite(o.side)), o.qty).book)
  }

  function LeftOver(f: Flats, o: Order): int {
    if o.side.OtherSide? then o.qty else Sweep(TakerOf(o), SideOf(f, Opposite(o.side)), o.qty).rem
  }

  function TradesOf(f: Flats, o: Order): seq<Trade> {
    if o.side.OtherSide? then [] else Sweep(TakerOf(o), SideOf(f, Opposite(o.side)), o.qty).trades
  }

  lemma MakersNotPending(f: Flats, bids: seq<Level>, asks: seq<Level>, side: Side)
    requires BookOk(f) && f.bids == Flat(bids) && f.asks == Flat(asks)
    ensures forall r :: r in Flat(TreeOf(side, bids, asks)) ==> r.id !in f.pending
  {
    forall r | r in Flat(TreeOf(side, bids, asks)) ensures r.id !in f.pending {
      assert r.id in Ids(Flat(TreeOf(side, bids, asks)));
      assert Rests(f, r.id);
    }
  }

  lemma SweptBookOk(f: Flats, o: Order)
    requires BookOk(f) && !o.side.OtherSide?
    ensures BookOk(SweptBook(f, o))
  {
    hide Sweep, Sorted, Positive, Distinct;
    var m := Opposite(o.side);
    SweepKeepsBook(TakerOf(o), m, SideOf(f, m), o.qty);
    SweepUncrossed(TakerOf(o), f.bids, f.asks, o.qty);
    SweepIds(TakerOf(o), SideOf(f, m), o.qty);
  }

  lemma AfterSweep(pending: map<Id, Order>, index: map<Id, Slot>, bids: seq<Level>, asks: seq<Level>, o: Order)
    requires TreeOk(Buy, bids) && TreeOk(Sell, asks) && IndexOk(index, bids, asks) && !o.side.OtherSide?
    requires BookOk(Flats(pending, Flat(bids), Flat(asks)))
    ensures var f := Flats(pending, Flat(bids), Flat(asks));
            var m := Opposite(o.side);
            var s := SweepLevels(TakerOf(o), TreeOf(m, bids, asks), o.qty);
            var b, a := if m.Buy? then s.levels else bids, if m.Buy? then asks else s.levels;
            && TreeOk(m, s.levels) && BookOk(Flats(pending, Flat(b), Flat(a)))
               && Flats(pending, Flat(b), Flat(a)) == SweptBook(f, o)
            && s.rem == LeftOver(f, o) && s.trades == TradesOf(f, o)
            && IndexOk(index - BookRuns.DoneMakers(s.trades), b, a)
  {
    hide Sweep, SweepLevels, Flat, IndexOk, TreeOk, Sorted, Uncrossed, BookRuns.DoneMakers, BookRuns.Makers, Ids;
    var f := Flats(pending, Flat(bids), Flat(asks));
    var m, t := Opposite(o.side), TakerOf(o);
    var levels := TreeOf(m, bids, asks);
    var s := SweepLevels(t, levels, o.qty);
    LevelsRefineSweep(t, levels, o.qty);
    SweepLevelsOk(t, levels, o.qty);
    SweptBookOk(f, o);
    BookRuns.SweepTrades(t, Flat(levels), o.qty);
    BookRuns.SweepKeepsRest(t, Flat(levels), o.qty);
    SweepIds(t, Flat(levels), o.qty);
    BookRuns.DoneAreMakers(s.trades);
    forall r | r in Flat(s.levels) ensures exists x :: x in Flat(levels) && x.id == r.id && x.price == r.price {
      SweepRest(t, Flat(levels), o.qty, r);
    }
    IndexAfterMatch(index, bids, asks, m, s.levels, BookRuns.DoneMakers(s.trades));
  }

  lemma {:induction false} PutGet(side: Side, levels: seq<Level>, price: int, orders: seq<Resting>, p: int)
    requires TreeOk(side, levels) && side != OtherSide
    ensures TreeGet(TreePut(side, levels, price, orders), p) == if p == price then Some(orders) else TreeGet(levels, p)
  {
    if levels == [] || Key(side, price) < Key(side, levels[0].price) {
      assert ([Level(price, orders)] + levels)[1..] == levels;
    } else if levels[0].price == price {
      assert ([Level(price, orders)] + levels[1..])[1..] == levels[1..];
    } else {
      TreeTail(side, levels);
      PutGet(side, levels[1..], price, orders, p);
      var rest := TreePut(side, levels[1..], price, orders);
      assert ([levels[0]] + rest)[1..] == rest;
    }
  }

  lemma {:induction false} RemoveGet(levels: seq<Level>, price: int, p: int)
    requires p != price
    ensures TreeGet(TreeRemove(levels, price), p) == TreeGet(levels, p)
  {
    if levels != [] && levels[0].price != price {
      RemoveGet(levels[1..], price, p);
      var rest := TreeRemove(levels[1..], price);
      assert ([levels[0]] + rest)[1..] == rest;
    }
  }

  lemma AfterAdd(pending: map<Id, Order>, index: map<Id, Slot>, bids: seq<Level>, asks: seq<Level>, side: Side,
      r: Resting)
    requires TreeOk(Buy, bids) && TreeOk(Sell, asks) && IndexOk(index, bids, asks) && side != OtherSide && r.qty > 0
    requires BookOk(Flats(pending, Flat(bids), Flat(asks))) && r.id !in pending && r.id !in index
    requires if side.Buy? then Uncrossed(Insert(Buy, Flat(bids), r), Flat(asks))
             else Uncrossed(Flat(bids), Insert(Sell, Flat(asks), r))
    ensures var tree := AddOrder(side, TreeOf(side, bids, asks), r);
            var b, a := if side.Buy? then tree else bids, if side.Buy? then asks else tree;
            && TreeOk(side, tree) && Flat(tree) == Insert(side, Flat(TreeOf(side, bids, asks)), r)
            && IndexOk(index[r.id := Slot(side, r.price)], b, a) && BookOk(Flats(pending, Flat(b), Flat(a)))
  {
    hide Flat, Insert, AddOrder, Sorted, Uncrossed, TreeOk;
    var f, levels := Flats(pending, Flat(bids), Flat(asks)), TreeOf(side, bids, asks);
    var tree := AddOrder(side, levels, r);
    AddIsInsert(side, levels, r);
    InsertKeepsBook(side, Flat(levels), r);
    InsertIds(side, Flat(levels), r);
    AddIndex(index, bids, asks, side, r);
  }

  lemma AddIndex(index: map<Id, Slot>, bids: seq<Level>, asks: seq<Level>, side: Side, r: Resting)
    requires TreeOk(side, TreeOf(side, bids, asks)) && IndexOk(index, bids, asks) && side != OtherSide
    requires r.id !in index && Ids(Flat(AddOrder(side, TreeOf(side, bids, asks), r)))
        == Ids(Flat(TreeOf(side, bids, asks))) + {r.id}
    ensures var tree := AddOrder(side, TreeOf(side, bids, asks), r);
            IndexOk(index[r.id := Slot(side, r.price)],
                    if side.Buy? then tree else bids, if side.Buy? then asks else tree)
  {
    hide Flat, TreePut, TreeGet, TreeOk;
    var levels := TreeOf(side, bids, asks);
    var tree := AddOrder(side, levels, r);
    var idx := index[r.id := Slot(side, r.price)];
    var b, a := if side.Buy? then tree else bids, if side.Buy? then asks else tree;
    var q := Queue(levels, r.price);
    BookRuns.IdsPlus(q, [r]);
    assert r in [r];
    forall id | id in idx ensures id in Ids(Queue(TreeOf(idx[id].side, b, a), idx[id].price)) {
      PutGet(side, levels, r.price, q + [r], idx[id].price);
    }
  }

  lemma RemoveIndex(index: map<Id, Slot>, bids: seq<Level>, asks: seq<Level>, side: Side, price: int, id: Id)
    requires TreeOk(side, TreeOf(side, bids, asks)) && IndexOk(index, bids, asks) && side != OtherSide
    requires Distinct(Flat(TreeOf(side, bids, asks))) && Distinct(Queue(TreeOf(side, bids, asks), price))
    requires id in Ids(Queue(TreeOf(side, bids, asks), price)) && Ids(Flat(bids)) !! Ids(Flat(asks))
    requires Ids(Flat(RemoveOrder(side, TreeOf(side, bids, asks), price, id)))
        == Ids(Flat(TreeOf(side, bids, asks))) - {id}
    ensures var tree := RemoveOrder(side, TreeOf(side, bids, asks), price, id);
            IndexOk(index - {id}, if side.Buy? then tree else bids, if side.Buy? then asks else tree)
  {
    hide Flat, TreePut, TreeGet, TreeOk, TreeRemove, Distinct;
    var levels := TreeOf(side, bids, asks);
    var tree := RemoveOrder(side, levels, price, id);
    var idx := index - {id};
    var b, a := if side.Buy? then tree else bids, if side.Buy? then asks else tree;
    var q := Without(Queue(levels, price), id);
    WithoutIds(Queue(levels, price), id);
    QueueInFlat(levels, price);
    forall x | x in idx ensures x in Ids(Queue(TreeOf(idx[x].side, b, a), idx[x].price)) {
      if idx[x].side == side {
        if q != [] {
          PutGet(side, levels, price, q, idx[x].price);
        } else if idx[x].price != price {
          RemoveGet(levels, price, idx[x].price);
        }
      }
    }
  }

  lemma SlotSide(index: map<Id, Slot>, bids: seq<Level>, asks: seq<Level>, id: Id)
    requires IndexOk(index, bids, asks) && id in index
    ensures index[id].side.Buy? || index[id].side.Sell?
  {
  }

  lemma {:induction false} QueueDistinct(levels: seq<Level>, price: int)
    requires Distinct(Flat(levels))
    ensures Distinct(Queue(levels, price))
  {
    if levels != [] {
      DistinctParts(levels[0].orders, Flat(levels[1..]));
      if levels[0].price != price { QueueDistinct(levels[1..], price); }
    }
  }

  lemma AfterRemove(pending: map<Id, Order>, index: map<Id, Slot>, bids: seq<Level>, asks: seq<Level>, id: Id)
    requires TreeOk(Buy, bids) && TreeOk(Sell, asks) && IndexOk(index, bids, asks) && id in index
    requires BookOk(Flats(pending, Flat(bids), Flat(asks)))
    ensures var side := index[id].side;
            var levels := TreeOf(side, bids, asks);
            var tree := RemoveOrder(side, levels, index[id].price, id);
            var b, a := if side.Buy? then tree else bids, if side.Buy? then asks else tree;
            && TreeGet(levels, index[id].price).Some? && TreeOk(side, tree)
            && Flats(pending, Flat(b), Flat(a)) == CancelResting(Flats(pending, Flat(bids), Flat(asks)), id)
            && IndexOk(index - {id}, b, a) && BookOk(Flats(pending, Flat(b), Flat(a)))
  {
    var f := Flats(pending, Flat(bids), Flat(asks));
    var side, price := index[id].side, index[id].price;
    var levels := TreeOf(side, bids, asks);
    hide Flat, TreePut, TreeOk, TreeRemove, RemoveOrder, Sorted, Uncrossed, Positive, Without;
    QueueInFlat(levels, price);
    QueueDistinct(levels, price);
    RemoveIsWithout(side, levels, price, id);
    WithoutIds(Flat(levels), id);
    RemoveIndex(index, bids, asks, side, price, id);
    CancelKeepsBook(f, id);
  }

  // ---------------------------------------------------------------- what the entry points log

  lemma NotResting(index: map<Id, Slot>, f: Flats, bids: seq<Level>, asks: seq<Level>, id: Id)
    requires IndexOk(index, bids, asks) && f.bids == Flat(bids) && f.asks == Flat(asks)
    ensures id in index <==> Rests(f, id)
  {
  }

  lemma SubmitFacts(f: Flats, o: Order, l: Ledger, index: map<Id, Slot>, bids: seq<Level>, asks: seq<Level>)
    requires BookOk(f) && IndexOk(index, bids, asks) && f.bids == Flat(bids) && f.asks == Flat(asks)
    ensures var out := StepSubmit(f, o);
            if o.kind.Cancel? then out.book == f && ApplyAll(l, out.log) == l
            else
              && out.book == f.(pending := f.pending[o.id := o])
              && (o.id !in index ==> BookOk(out.book))
              && ApplyAll(l, out.log) == l.(duplicates := l.duplicates + (if o.id in f.pending then 1 else 0)
                                                                      + (if o.id in index then 1 else 0))
  {
    hide ApplyAll;
    NotResting(index, f, bids, asks, o.id);
    if o.kind.Cancel? {
      ApplyNone(l);
    } else {
      if o.id !in index { StepKeepsBook(f, Submit(o)); }
      SubmitLedger(f, o, l);
    }
  }

  lemma RestIsUncrossed(f: Flats, o: Order)
    requires BookOk(f) && o.kind.Limit?
    ensures var g, rem := SweptBook(f, o), LeftOver(f, o);
            rem > 0 ==> var r := Resting(o.id, o.price, rem);
              && (o.side.Buy? ==> Uncrossed(Insert(Buy, g.bids, r), g.asks))
              && (o.side.Sell? ==> Uncrossed(g.bids, Insert(Sell, g.asks, r)))
  {
    hide Sweep, Uncrossed;
    InsertUncrossed(o, f.bids, f.asks);
  }

  lemma StillNotResting(f: Flats, o: Order, index: map<Id, Slot>, bids: seq<Level>, asks: seq<Level>)
    requires BookOk(f) && !Rests(f, o.id)
    requires IndexOk(index, bids, asks) && Flats(f.pending, Flat(bids), Flat(asks)) == SweptBook(f, o)
    ensures o.id !in index
  {
    hide Sweep, BookOk;
    if !o.side.OtherSide? { SweepIds(TakerOf(o), SideOf(f, Opposite(o.side)), o.qty); }
  }

  lemma PendingTaken(f: Flats, g: Flats, id: Id)
    requires BookOk(f) && g == f.(pending := f.pending - {id}) && id in f.pending
    ensures BookOk(g) && f.pending[id].id == id && !Rests(g, id) && id !in g.pending
  {
  }

  lemma ApplyTwo(l: Ledger, a: Emit, b: Emit)
    ensures ApplyAll(l, [a, b]) == Apply(Apply(l, a), b)
    ensures ApplyAll(l, []) == l
  {
    ApplyOne(l, a);
    ApplyOne(Apply(l, a), b);
    ApplyAppend(l, [a], [b]);
    assert [a] + [b] == [a, b];
  }

  lemma SubmitLedger(f: Flats, o: Order, l: Ledger)
    requires !o.kind.Cancel?
    ensures ApplyAll(l, StepSubmit(f, o).log)
         == l.(duplicates := l.duplicates + (if o.id in f.pending then 1 else 0) + (if Rests(f, o.id) then 1 else 0))
  {
    hide ApplyAll;
    ApplyTwo(l, Duplicate, Duplicate);
    ApplyOne(l, Duplicate);
    var log := StepSubmit(f, o).log;
    assert log == if o.id in f.pending && Rests(f, o.id) then [Duplicate, Duplicate]
                  else if o.id in f.pending || Rests(f, o.id) then [Duplicate] else [];
  }

  lemma DropThen(l: Ledger, x: Id, q: int, tail: seq<Emit>)
    ensures ApplyAll(l, [Drop(x, q)] + tail) == ApplyAll(l, tail)
  {
    ApplyOne(l, Drop(x, q));
    ApplyAppend(l, [Drop(x, q)], tail);
  }

  lemma CancelLedger(f: Flats, id: Id, l: Ledger)
    requires BookOk(f)
    ensures ApplyAll(l, StepCancelled(f, id).log) == if id in f.pending then l else CleanUp(l, id)
    ensures StepCancelled(f, id).book == if Rests(f, id) then CancelResting(f, id) else f
    ensures Rests(f, id) ==> id !in f.pending
  {
    hide ApplyAll, CleanUp;
    CancelKeepsBook(f, id);
    ApplyOne(l, Clean(id));
    CleanIsApply(l, id);
    ApplyTwo(l, Clean(id), Clean(id));
    DropThen(l, id, RestQty(f.bids, id) + RestQty(f.asks, id), CleanIf(CancelResting(f, id), id));
  }

  lemma FillLedger(f: Flats, fill: Fill, l: Ledger)
    ensures ApplyAll(l, Step(f, Report(fill)).log)
         == var k := Apply(l, Act(fill));
            if fill.orderId in f.pending || Rests(f, fill.orderId) then k else CleanUp(k, fill.orderId)
  {
    hide ApplyAll, CleanUp;
    var k := Apply(l, Act(fill));
    ApplyOne(l, Act(fill));
    ApplyTwo(l, Act(fill), Clean(fill.orderId));
    CleanIsApply(k, fill.orderId);
    assert [Act(fill)] + [] == [Act(fill)] && [Act(fill)] + [Clean(fill.orderId)] == [Act(fill), Clean(fill.orderId)];
    assert Step(f, Report(fill)).log == [Act(fill)] + CleanIf(f, fill.orderId);
  }

  lemma MatchLedger(f: Flats, o: Order, l: Ledger)
    requires BookOk(f) && !Rests(f, o.id)
    ensures var k := ApplyAll(l, TradeLog(o.id, TradesOf(f, o)));
            ApplyAll(l, Match(f, o).log) == if Rests(Match(f, o).book, o.id) then k else CleanUp(k, o.id)
  {
    var tl := TradeLog(o.id, TradesOf(f, o));
    var k := ApplyAll(l, tl);
    MatchRests(f, o);
    hide ApplyAll, CleanUp, Sweep, TradeLog, Rests, BookOk;
    var tail := [Drop(o.id, LeftOver(f, o)), Clean(o.id)];
    assert tail == [Drop(o.id, LeftOver(f, o))] + [Clean(o.id)];
    DropThen(k, o.id, LeftOver(f, o), [Clean(o.id)]);
    ApplyOne(k, Clean(o.id));
    CleanIsApply(k, o.id);
    ApplyAppend(l, tl, tail);
    if o.side.OtherSide? {
      NoTradeLog(o.id);
      assert [] + tail == tail;
    }
  }

  lemma NoTradeLog(taker: Id)
    ensures TradeLog(taker, []) == []
  {
  }

  lemma MatchRests(f: Flats, o: Order)
    requires BookOk(f) && !Rests(f, o.id)
    ensures Rests(Match(f, o).book, o.id) <==> o.kind.Limit? && LeftOver(f, o) > 0 && !o.side.OtherSide?
  {
    hide Sweep, BookOk, Insert;
    if !o.side.OtherSide? {
      var m := Opposite(o.side);
      SweepIds(TakerOf(o), SideOf(f, m), o.qty);
      InsertIds(o.side, SideOf(f, o.side), Resting(o.id, o.price, LeftOver(f, o)));
    }
  }

  /** The log of an acknowledgement, replayed on the ledger. */
  lemma AckLedger(f: Flats, id: Id, status: Status, l: Ledger)
    requires BookOk(f) && !status.Cancelled? && id in f.pending
    ensures var o, g := f.pending[id], f.(pending := f.pending - {id});
            if (o.kind.Limit? || o.kind.Market?) && status.Accepted? then
              var k := ApplyAll(l, TradeLog(id, TradesOf(g, o)));
              ApplyAll(l, StepAck(f, id, status).log) == if Rests(Match(g, o).book, id) then k else CleanUp(k, id)
            else
              var bad := o.kind.Limit? || o.kind.Market? || !status.Rejected?;
              ApplyAll(l, StepAck(f, id, status).log) == CleanUp(if bad then l.(badAcks := l.badAcks + 1) else l, id)
  {
    var o, g := f.pending[id], f.(pending := f.pending - {id});
    PendingTaken(f, g, id);
    hide ApplyAll, CleanUp, TradeLog, TradesOf, Match, BookOk;
    if (o.kind.Limit? || o.kind.Market?) && status.Accepted? {
      MatchLedger(g, o, l);
    } else {
      BadLedger(f, id, status, l);
    }
  }

  lemma UnknownLedger(f: Flats, id: Id, status: Status, l: Ledger)
    requires !status.Cancelled? && id !in f.pending
    ensures var k := if status.Rejected? then l else l.(unknownAcks := l.unknownAcks + 1);
            ApplyAll(l, StepAck(f, id, status).log) == if Rests(f, id) then k else CleanUp(k, id)
  {
    hide ApplyAll, CleanUp, Rests, StepAck;
    UnknownLog(f, id, status);
    var k := if status.Rejected? then l else l.(unknownAcks := l.unknownAcks + 1);
    var head, tail := if status.Rejected? then [] else [UnknownAck], CleanIf(f, id);
    ApplyAppend(l, head, tail);
    if status.Rejected? { ApplyNone(l); } else { ApplyOne(l, UnknownAck); }
    assert ApplyAll(l, head) == k;
    if Rests(f, id) {
      ApplyNone(k);
    } else {
      ApplyOne(k, Clean(id));
      CleanIsApply(k, id);
    }
  }

  lemma ApplyNone(l: Ledger)
    ensures ApplyAll(l, []) == l
  {
  }

  lemma UnknownLog(f: Flats, id: Id, status: Status)
    requires !status.Cancelled? && id !in f.pending
    ensures StepAck(f, id, status)
         == Outcome(f, (if status.Rejected? then [] else [UnknownAck]) + CleanIf(f, id))
  {
    hide Match, StepCancelled, Rests;
  }

  lemma BadLedger(f: Flats, id: Id, status: Status, l: Ledger)
    requires !status.Cancelled? && id in f.pending
    requires !((f.pending[id].kind.Limit? || f.pending[id].kind.Market?) && status.Accepted?)
    ensures var o := f.pending[id];
            var bad := o.kind.Limit? || o.kind.Market? || !status.Rejected?;
            ApplyAll(l, StepAck(f, id, status).log) == CleanUp(if bad then l.(badAcks := l.badAcks + 1) else l, id)
  {
    hide ApplyAll, CleanUp, Match, StepCancelled;
    var o := f.pending[id];
    var bad := o.kind.Limit? || o.kind.Market? || !status.Rejected?;
    var k := if bad then l.(badAcks := l.badAcks + 1) else l;
    var tail := [Drop(id, o.qty)] + [Clean(id)];
    DropThen(k, id, o.qty, [Clean(id)]);
    ApplyOne(k, Clean(id));
    CleanIsApply(k, id);
    if bad {
      ApplyOne(l, BadAck);
      ApplyAppend(l, [BadAck], tail);
      assert StepAck(f, id, status).log == [BadAck] + tail;
    } else {
      assert StepAck(f, id, status).log == [] + tail == tail;
    }
  }

  // ---------------------------------------------------------------- passes of the score

  function From<T>(s: seq<T>, i: nat): seq<T> { if i <= |s| then s[i..] else [] }

  lemma PrioTurn(e: seq<Fill>, a: seq<Fill>, i: nat)
    requires i < |e|
    ensures PrioMatched(e[i..], From(a, i))
         == (if i < |a| && SameFill(e[i], a[i]) then e[i].qty else 0) + PrioMatched(e[i + 1..], From(a, i + 1))
    ensures PrioViolations(e[i..], From(a, i))
         == (if i < |a| && SameFill(e[i], a[i]) then 0 else 1) + PrioViolations(e[i + 1..], From(a, i + 1))
  {
    assert e[i..][0] == e[i] && e[i..][1..] == e[i + 1..];
    if i < |a| { assert a[i..][0] == a[i] && a[i..][1..] == a[i + 1..]; }
  }

  lemma PricesSnoc(fills: seq<Fill>, f: Fill)
    ensures Prices(fills + [f]) == Prices(fills) + {f.price}
  {
    assert f in fills + [f];
    assert forall x :: x in fills ==> x in fills + [f];
  }

  lemma {:induction false} NoQty(fills: seq<Fill>, p: int)
    ensures p !in Prices(fills) ==> QtyAt(fills, p) == 0
  {
    if fills != [] {
      assert fills[0] in fills;
      assert forall x :: x in fills[1..] ==> x in fills;
      NoQty(fills[1..], p);
    }
  }

  ghost function Mismatches(expected: map<Id, seq<Fill>>, actual: map<Id, seq<Fill>>): int -> int {
    id => PrioViolations(Fold(Get(expected, id)), Fold(Get(actual, id)))
  }

  /** Entries are created by appending, so no list in the map is empty. */
  predicate NoEmptyLists(m: map<Id, seq<Fill>>) { forall id :: id in m ==> m[id] != [] }

  lemma {:induction false} ApplyKeepsLists(l: Ledger, log: seq<Emit>)
    requires NoEmptyLists(l.expected)
    ensures NoEmptyLists(ApplyAll(l, log).expected)
  {
    hide Settled;
    if log != [] { ApplyKeepsLists(l, log[..|log| - 1]); }
  }

  lemma PlusZero(t: Tally)
    ensures Plus(ZERO, t) == t == Plus(t, ZERO)
  {
  }

  lemma EmptySums(f: int -> Tally, g: int -> int)
    ensures Total({}, f) == ZERO && Sum({}, g) == 0
  {
  }

  lemma SplitTotals(l: Ledger)
    ensures Totals(l)
         == Plus(l.done, Plus(Total(l.expected.Keys, Terms(l)), Total(l.actual.Keys - l.expected.Keys, Terms(l))))
  {
    hide Total, Terms;
    TotalSplit(l.expected.Keys, l.actual.Keys - l.expected.Keys, Terms(l));
    assert l.expected.Keys + (l.actual.Keys - l.expected.Keys) == l.expected.Keys + l.actual.Keys;
  }

  lemma {:induction false} TotalSplit(a: set<Id>, b: set<Id>, f: int -> Tally)
    requires a !! b
    ensures Total(a + b, f) == Plus(Total(a, f), Total(b, f))
    decreases a
  {
    hide Total;
    if a == {} {
      TotalEmpty(f);
      assert a + b == b;
      PlusZero(Total(b, f));
    } else {
      var x := Choose(a);
      TotalPick(a + b, f, x);
      assert a + b - {x} == (a - {x}) + b;
      TotalSplit(a - {x}, b, f);
      TotalPick(a, f, x);
      Judge.PlusRotate(f(x), Total(a - {x}, f), Total(b, f));
    }
  }

  // ---------------------------------------------------------------- whole runs

  lemma {:induction false} FreshPrefix(evs: seq<Event>, n: nat)
    requires FreshIds(evs) && n <= |evs|
    ensures FreshIds(evs[..n])
    decreases |evs|
  {
    if n < |evs| {
      FreshPrefix(evs[..|evs| - 1], n);
      assert evs[..|evs| - 1][..n] == evs[..n];
    } else {
      assert evs[..n] == evs;
    }
  }

  /** One more event of a run: the book and the ledger move on, and a new order does not rest. */
  lemma RunTurn(evs: seq<Event>, n: nat)
    requires FreshIds(evs) && n < |evs|
    ensures var before, after := Run(evs[..n]), Run(evs[..n + 1]);
            && after.book == Step(before.book, evs[n]).book
            && Judge.Books(after.log) == ApplyAll(Judge.Books(before.log), Step(before.book, evs[n]).log)
            && (evs[n].Submit? && !evs[n].order.kind.Cancel? ==> !Rests(before.book, evs[n].order.id))
  {
    hide Step, ApplyAll, BookOk;
    var prev := evs[..n];
    assert evs[..n + 1][..n] == prev && evs[..n + 1][n] == evs[n];
    FreshPrefix(evs, n + 1);
    BookRuns.RunTrack(prev);
    ApplyAppend(BLANK, Run(prev).log, Step(Run(prev).book, evs[n]).log);
  }

  /** A shard driven through a whole run ends with the score the theorems about runs speak of. */
  method JudgeRun(evs: seq<Event>) returns (score: real)
    requires FreshIds(evs)
    ensures score == Judgement(Judge.Books(Run(evs).log))
  {
    hide Step, StepSubmit, StepAck, Run, Judgement, ApplyAll, Rests, FreshIds, IndexOk, TreeOk, BookOk;
    var shard := new SymbolShard();
    RunStart(evs);
    for n := 0 to |evs|
      invariant fresh(shard) && shard.Valid() && shard.Recorded()
      invariant shard.BookNow() == Run(evs[..n]).book && shard.LedgerNow() == Judge.Books(Run(evs[..n]).log)
    {
      RunTurn(evs, n);
      ghost var f, l := shard.BookNow(), shard.LedgerNow();
      StepIs(f, evs[n]);
      match evs[n] {
        case Submit(o) =>
          NotResting(shard.orderMap, f, shard.bids, shard.asks, o.id);
          shard.ProcessOrder(o.id, o.kind, o.side, o.price, o.qty);
        case Ack(id, status) =>
          shard.ProcessAck(id, status);
        case Report(fill) =>
          shard.ProcessFill(fill.orderId, fill.qty, fill.price, fill.matchedWith);
      }
    }
    assert evs[..|evs|] == evs;
    score := shard.GetCorrectnessScore();
  }

  lemma RunStart(evs: seq<Event>)
    ensures Run(evs[..0]).book == EMPTY && Judge.Books(Run(evs[..0]).log) == BLANK
  {
  }

  lemma StepIs(f: Flats, ev: Event)
    ensures match ev
            case Submit(o) => Step(f, ev) == StepSubmit(f, o)
            case Ack(id, status) => Step(f, ev) == StepAck(f, id, status)
            case Report(fill) => Step(f, ev).book == f
  {
  }
}
