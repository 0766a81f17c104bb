/** The orders one bot issues, one after the other, for every outcome of its random draws:
    what makes a stream of orders usable by the judge. */
module OrderStreams {
  import opened Orders
  import opened Varint
  import opened BotIds

  /** Entry `i` of the log is the bot's order number `i + 1`. */
  ghost predicate OwnIds(bot: I64, log: seq<Order>) {
    |log| < LOW && forall i :: 0 <= i < |log| && !log[i].kind.Cancel? ==> log[i].id == Pack(bot, i + 1)
  }

  predicate IsLimit(log: seq<Order>, i: int, id: Id) { 0 <= i < |log| && log[i].kind.Limit? && log[i].id == id }

  predicate IsCancel(log: seq<Order>, i: int, id: Id) { 0 <= i < |log| && log[i].kind.Cancel? && log[i].id == id }

  /** Every cancel names a limit order issued before it, and no order is cancelled twice. */
  ghost predicate CancelsOk(log: seq<Order>) {
    && (forall i :: 0 <= i < |log| && log[i].kind.Cancel? ==> exists j :: j < i && IsLimit(log, j, log[i].id))
    && (forall i, j :: 0 <= i < j < |log| && log[i].kind.Cancel? && log[j].kind.Cancel? ==> log[i].id != log[j].id)
  }

  ghost predicate Limited(log: seq<Order>, id: Id) { exists j :: IsLimit(log, j, id) }

  ghost predicate Cancelled(log: seq<Order>, id: Id) { exists i :: IsCancel(log, i, id) }

  /** The orders kept for cancelling: issued limit orders, each once, none cancelled yet. */
  ghost predicate ActiveOk(log: seq<Order>, active: seq<Id>) {
    && (forall k, l :: 0 <= k < l < |active| ==> active[k] != active[l])
    && (forall id :: id in active ==> Limited(log, id) && !Cancelled(log, id))
  }

  ghost predicate WellFormed(bot: I64, log: seq<Order>, active: seq<Id>) {
    -HALF <= bot < HALF && OwnIds(bot, log) && CancelsOk(log) && ActiveOk(log, active)
  }

  /** No two orders of a bot share an id, cancels aside. */
  lemma IdsDistinct(bot: I64, log: seq<Order>, i: nat, j: nat)
    requires OwnIds(bot, log) && -HALF <= bot < HALF
    requires i < j < |log| && !log[i].kind.Cancel? && !log[j].kind.Cancel?
    ensures log[i].id != log[j].id
  {
    hide Pack;
    if log[i].id == log[j].id { PackInjective(bot, i + 1, bot, j + 1); }
  }

  /** Nor do orders of two different bots. */
  lemma BotsDisjoint(bot: I64, log: seq<Order>, other: I64, otherLog: seq<Order>, i: nat, j: nat)
    requires OwnIds(bot, log) && -HALF <= bot < HALF
    requires OwnIds(other, otherLog) && -HALF <= other < HALF && bot != other
    requires i < |log| && j < |otherLog| && !log[i].kind.Cancel? && !otherLog[j].kind.Cancel?
    ensures log[i].id != otherLog[j].id
  {
    hide Pack;
    if log[i].id == otherLog[j].id { PackInjective(bot, i + 1, other, j + 1); }
  }

  /** The low half of every id in a bot's stream, cancels included, is between 1 and the
      number of orders issued: an index into its send times. */
  lemma SendTimeIndex(bot: I64, log: seq<Order>, i: nat)
    requires OwnIds(bot, log) && CancelsOk(log) && i < |log|
    ensures INT64Range(log[i].id) && 1 <= SeqOf(log[i].id) <= i + 1
  {
    hide Pack, SeqOf;
    if log[i].kind.Cancel? {
      var j :| j < i && IsLimit(log, j, log[i].id);
      PackDecodes(bot, j + 1);
    } else {
      PackDecodes(bot, i + 1);
    }
  }

  predicate INT64Range(n: int) { -0x8000_0000_0000_0000 <= n < 0x8000_0000_0000_0000 }

  // ---------------------------------------------------------------- the two kinds of step

  lemma SnocKeeps(log: seq<Order>, o: Order)
    ensures forall id :: Limited(log + [o], id) <==> Limited(log, id) || (o.kind.Limit? && o.id == id)
    ensures forall id :: Cancelled(log + [o], id) <==> Cancelled(log, id) || (o.kind.Cancel? && o.id == id)
  {
    var after := log + [o];
    forall id ensures Limited(after, id) <==> Limited(log, id) || (o.kind.Limit? && o.id == id) {
      if Limited(log, id) { var j :| IsLimit(log, j, id); assert IsLimit(after, j, id); }
      if o.kind.Limit? && o.id == id { assert IsLimit(after, |log|, id); }
      if Limited(after, id) { var j :| IsLimit(after, j, id); assert IsLimit(log, j, id) || j == |log|; }
    }
    forall id ensures Cancelled(after, id) <==> Cancelled(log, id) || (o.kind.Cancel? && o.id == id) {
      if Cancelled(log, id) { var j :| IsCancel(log, j, id); assert IsCancel(after, j, id); }
      if o.kind.Cancel? && o.id == id { assert IsCancel(after, |log|, id); }
      if Cancelled(after, id) { var j :| IsCancel(after, j, id); assert IsCancel(log, j, id) || j == |log|; }
    }
  }

  lemma CancelsSnoc(log: seq<Order>, o: Order)
    requires CancelsOk(log)
    requires o.kind.Cancel? ==> Limited(log, o.id) && !Cancelled(log, o.id)
    ensures CancelsOk(log + [o])
  {
    var after := log + [o];
    forall i | 0 <= i < |after| && after[i].kind.Cancel? ensures exists j :: j < i && IsLimit(after, j, after[i].id) {
      if i < |log| {
        var j :| j < i && IsLimit(log, j, log[i].id);
        assert IsLimit(after, j, after[i].id);
      } else {
        var j :| IsLimit(log, j, o.id);
        assert IsLimit(after, j, after[i].id);
      }
    }
    forall i, j | 0 <= i < j < |after| && after[i].kind.Cancel? && after[j].kind.Cancel?
      ensures after[i].id != after[j].id
    {
      assert IsCancel(log, i, after[i].id);
    }
  }

  /** No cancel names an id that has not been issued. */
  lemma FreshId(bot: I64, log: seq<Order>)
    requires OwnIds(bot, log) && CancelsOk(log) && |log| + 1 < LOW && -HALF <= bot < HALF
    ensures forall i :: 0 <= i < |log| ==> log[i].id != Pack(bot, |log| + 1)
  {
    hide Pack, SeqOf, CancelsOk, OwnIds;
    PackDecodes(bot, |log| + 1);
    forall i | 0 <= i < |log| ensures log[i].id != Pack(bot, |log| + 1) {
      SendTimeIndex(bot, log, i);
    }
  }

  lemma OwnIdsSnoc(bot: I64, log: seq<Order>, o: Order)
    requires OwnIds(bot, log) && |log| + 1 < LOW && (o.kind.Cancel? || o.id == Pack(bot, |log| + 1))
    ensures OwnIds(bot, log + [o])
  {
    hide Pack;
  }

  /** A new order, put on the list of active orders or not; the list may lose old entries. */
  lemma IssueKeeps(bot: I64, log: seq<Order>, active: seq<Id>, o: Order, after: seq<Id>)
    requires WellFormed(bot, log, active) && |log| + 1 < LOW
    requires !o.kind.Cancel? && o.id == Pack(bot, |log| + 1)
    requires || (exists k :: 0 <= k <= |active| && after == active[k..])
             || (o.kind.Limit? && exists k :: 0 <= k <= |active| && after == active[k..] + [o.id])
    ensures WellFormed(bot, log + [o], after)
  {
    hide Pack, OwnIds, CancelsOk;
    FreshId(bot, log);
    OwnIdsSnoc(bot, log, o);
    CancelsSnoc(log, o);
    IssueActive(log, active, o, after);
  }

  lemma IssueActive(log: seq<Order>, active: seq<Id>, o: Order, after: seq<Id>)
    requires ActiveOk(log, active) && !o.kind.Cancel? && forall i :: 0 <= i < |log| ==> log[i].id != o.id
    requires || (exists k :: 0 <= k <= |active| && after == active[k..])
             || (o.kind.Limit? && exists k :: 0 <= k <= |active| && after == active[k..] + [o.id])
    ensures ActiveOk(log + [o], after)
  {
    var k :| 0 <= k <= |active| && (after == active[k..] || (o.kind.Limit? && after == active[k..] + [o.id]));
    SuffixActive(log, active, k);
    SnocKeeps(log, o);
    assert !Limited(log, o.id) && !Cancelled(log, o.id);
    hide Limited, Cancelled;
    assert o.id !in active[k..];
  }

  lemma SuffixActive(log: seq<Order>, active: seq<Id>, k: nat)
    requires ActiveOk(log, active) && k <= |active|
    ensures ActiveOk(log, active[k..])
  {
    hide Limited, Cancelled;
    assert forall id :: id in active[k..] ==> id in active;
  }

  /** A cancel of the oldest active order. */
  lemma CancelKeeps(bot: I64, log: seq<Order>, active: seq<Id>, o: Order)
    requires WellFormed(bot, log, active) && |log| + 1 < LOW
    requires active != [] && o.kind.Cancel? && o.id == active[0]
    ensures WellFormed(bot, log + [o], active[1..])
  {
    hide Pack, OwnIds, CancelsOk;
    OwnIdsSnoc(bot, log, o);
    CancelsSnoc(log, o);
    CancelActive(log, active, o);
  }

  lemma CancelActive(log: seq<Order>, active: seq<Id>, o: Order)
    requires ActiveOk(log, active) && active != [] && o.kind.Cancel? && o.id == active[0]
    ensures ActiveOk(log + [o], active[1..])
  {
    SnocKeeps(log, o);
    hide Limited, Cancelled;
    assert active[0] in active && active[0] !in active[1..];
  }

  // ---------------------------------------------------------------- the pretest bot

  /** What the random generator gives for one order; each kind of draw is taken at most once. */
  datatype Draws = Draws(roll: real, variation: nat, priceCoin: bool, sideCoin: bool, quantity: nat, zipf: real)

  /** `Int63n`: any number below the bound. */
  function Below(draw: nat, bound: int): (n: int)
    requires bound > 0
    ensures 0 <= n < bound
  {
    draw % bound
  }

  function ZipfQuantity(draw: real): (raw: int)
    ensures raw <= 10000 && (draw < 1.0 ==> raw >= 200)
  {
    var u := if draw < 0.01 then 0.01 else draw;
    ZipfBound(u);
    var raw := ((1.0 / u) * 200.0).Floor;
    if raw > 10000 then 10000 else raw
  }

  lemma ZipfBound(u: real)
    requires u >= 0.01
    ensures u < 1.0 ==> (1.0 / u) * 200.0 >= 200.0
  {
    if u < 1.0 { assert (1.0 / u) * u == 1.0; assert 1.0 / u >= 1.0; }
  }

  datatype Config = Config(bot: I64, strategy: Strategy, midPrice: int, spread: int)

  /** What `Int63n` needs of the configuration. */
  predicate Priced(c: Config) { c.midPrice >= 0 && c.spread >= 0 && -HALF <= c.bot < HALF }

  /** The next order and the active orders after it. */
  function Generate(c: Config, seqNum: I64, active: seq<Id>, d: Draws): (Order, seq<Id>)
    requires Priced(c)
  {
    var id := Pack(c.bot, seqNum);
    var side := if d.sideCoin then Sell else Buy;
    match c.strategy
    case MarketMaker =>
      var variation := Below(d.variation, c.spread / 10 + 1);
      var qty := 500 + Below(d.quantity, 500);
      var o := if seqNum % 2 == 0 then Order(id, Limit, Buy, c.midPrice - c.spread / 2 - variation, qty)
               else Order(id, Limit, Sell, c.midPrice + c.spread / 2 + variation, qty);
      (o, active + [id])
    case MomentumTrader =>
      if seqNum % 5 == 0 && active != [] then (Order(active[0], Cancel, Buy, 0, 0), active[1..])
      else
        var qty := 2000 + Below(d.quantity, 3000);
        if d.roll < 0.2 then
          (Order(id, Limit, side, c.midPrice - c.spread + Below(d.variation, c.spread * 2 + 1), qty), active + [id])
        else (Order(id, Market, side, 0, qty), active)
    case NoiseTrader =>
      var qty := ZipfQuantity(d.zipf);
      if d.roll < 0.60 then
        var variation := Below(d.variation, c.midPrice / 10 + 1);
        var price := if d.priceCoin then c.midPrice + variation else c.midPrice - variation;
        (Order(id, Limit, side, price, qty), active + [id])
      else if d.roll < 0.85 then (Order(id, Market, side, c.midPrice, qty), active)
      else if active != [] then (Order(active[0], Cancel, Buy, 0, 0), active[1..])
      else (Order(id, Limit, side, c.midPrice, qty), active + [id])
    case OtherStrategy => (Order(id, Limit, Buy, c.midPrice, 100), active + [id])
  }

  lemma GenerateKeeps(c: Config, log: seq<Order>, active: seq<Id>, d: Draws)
    requires Priced(c) && WellFormed(c.bot, log, active) && |log| + 1 < LOW
    ensures var (o, after) := Generate(c, |log| + 1, active, d); WellFormed(c.bot, log + [o], after)
  {
    hide WellFormed, Pack, ZipfQuantity;
    var (o, after) := Generate(c, |log| + 1, active, d);
    assert active[0..] == active;
    if o.kind.Cancel? {
      CancelKeeps(c.bot, log, active, o);
    } else {
      IssueKeeps(c.bot, log, active, o, after);
    }
  }

  /** All orders of a run, and the active orders at its end. */
  function Stream(c: Config, draws: seq<Draws>): (seq<Order>, seq<Id>)
    requires Priced(c) && |draws| < LOW
  {
    if draws == [] then ([], [])
    else
      var (log, active) := Stream(c, draws[..|draws| - 1]);
      var (o, after) := Generate(c, |draws|, active, draws[|draws| - 1]);
      (log + [o], after)
  }

  lemma {:induction false} StreamWellFormed(c: Config, draws: seq<Draws>)
    requires Priced(c) && |draws| < LOW
    ensures |Stream(c, draws).0| == |draws| && WellFormed(c.bot, Stream(c, draws).0, Stream(c, draws).1)
  {
    hide WellFormed, Generate;
    if draws == [] {
      EmptyWellFormed(c.bot);
    } else {
      var before := draws[..|draws| - 1];
      StreamWellFormed(c, before);
      GenerateKeeps(c, Stream(c, before).0, Stream(c, before).1, draws[|draws| - 1]);
    }
  }

  lemma EmptyWellFormed(bot: I64)
    requires -HALF <= bot < HALF
    ensures WellFormed(bot, [], [])
  {
  }

  /** In every run of fewer than 2 to the 32 orders, whatever the random draws: ids of
      non-cancel orders are distinct, each cancel names one limit order issued earlier and
      never cancelled before, and the low half of every id is a send-time index. */
  lemma StreamsAreUsable(c: Config, draws: seq<Draws>, i: nat)
    requires Priced(c) && |draws| < LOW && i < |draws|
    ensures var log := Stream(c, draws).0;
            && |log| == |draws| && INT64Range(log[i].id) && 1 <= SeqOf(log[i].id) <= |draws|
            && (!log[i].kind.Cancel? ==> forall j :: 0 <= j < i && !log[j].kind.Cancel? ==> log[j].id != log[i].id)
            && (log[i].kind.Cancel? ==>
                  && (exists j :: j < i && IsLimit(log, j, log[i].id))
                  && (forall j :: 0 <= j < i ==> !IsCancel(log, j, log[i].id)))
  {
    StreamWellFormed(c, draws);
    var log := Stream(c, draws).0;
    hide Stream, Pack, SeqOf;
    SendTimeIndex(c.bot, log, i);
    forall j: nat | j < i && !log[i].kind.Cancel? && !log[j].kind.Cancel? ensures log[j].id != log[i].id {
      IdsDistinct(c.bot, log, j, i);
    }
  }

  class PretestBot {
    const config: Config
    const ordersToSend: nat
    var ordersSent: nat
    var seqNum: nat
    var activeOrders: seq<Id>
    const sendTimes: array<int>
    ghost var log: seq<Order>        // every order generated so far

    ghost predicate Valid() reads this {
      && Priced(config) && sendTimes.Length == ordersToSend + 1
      && seqNum == ordersSent == |log| && WellFormed(config.bot, log, activeOrders)
    }

    constructor (config: Config, ordersToSend: nat)
      requires Priced(config)
      ensures Valid() && fresh(sendTimes) && log == [] && this.config == config && this.ordersToSend == ordersToSend
    {
      this.config, this.ordersToSend := config, ordersToSend;
      ordersSent, seqNum, activeOrders, log := 0, 0, [], [];
      sendTimes := new int[ordersToSend + 1];
      new;
      EmptyWellFormed(config.bot);
    }

    method GenerateNextOrder(d: Draws) returns (order: Order)
      requires Valid() && ordersSent + 1 < LOW
      modifies `ordersSent, `seqNum, `activeOrders, `log
      ensures Valid() && log == old(log) + [order]
      ensures (order, activeOrders) == Generate(config, old(seqNum) + 1, old(activeOrders), d)
    {
      hide WellFormed, Pack, ZipfQuantity;
      GenerateKeeps(config, log, activeOrders, d);
      ordersSent := ordersSent + 1;
      seqNum := seqNum + 1;
      var side, orderType, price, qty := Buy, Limit, config.midPrice, 100;
      var isCancel, cancelId := false, 0;
      match config.strategy {
        case MarketMaker =>
          if seqNum % 2 == 0 {
            side := Buy;
            var variation := Below(d.variation, config.spread / 10 + 1);
            price := config.midPrice - config.spread / 2 - variation;
          } else {
            side := Sell;
            var variation := Below(d.variation, config.spread / 10 + 1);
            price := config.midPrice + config.spread / 2 + variation;
          }
          qty := 500 + Below(d.quantity, 500);
        case MomentumTrader =>
          if seqNum % 5 == 0 && |activeOrders| > 0 {
            cancelId, activeOrders, isCancel := activeOrders[0], activeOrders[1..], true;
          } else {
            orderType, price := Market, 0;
            if d.roll < 0.2 {
              orderType := Limit;
              var variation := Below(d.variation, config.spread * 2 + 1);
              price := config.midPrice - config.spread + variation;
            }
            qty := 2000 + Below(d.quantity, 3000);
            if d.sideCoin { side := Sell; }
          }
        case NoiseTrader =>
          if d.roll < 0.60 {
            var variation := Below(d.variation, config.midPrice / 10 + 1);
            if d.priceCoin { price := config.midPrice + variation; } else { price := config.midPrice - variation; }
          } else if d.roll < 0.85 {
            orderType := Market;
          } else if |activeOrders| > 0 {
            cancelId, activeOrders, isCancel := activeOrders[0], activeOrders[1..], true;
          }
          if !isCancel {
            if d.sideCoin { side := Sell; }
            qty := ZipfQuantity(d.zipf);
          }
        case OtherStrategy =>
      }
      if isCancel {
        order := Order(cancelId, Cancel, Buy, 0, 0);
      } else {
        var orderId := Pack(config.bot, seqNum);
        if orderType.Limit? { activeOrders := activeOrders + [orderId]; }
        order := Order(orderId, orderType, side, price, qty);
      }
      log := log + [order];
    }

    /** One turn of the send loop: the order's low id bits are always inside the send times. */
    method SendNext(d: Draws, now: int) returns (order: Order)
      requires Valid() && ordersSent < ordersToSend < LOW - 1
      modifies `ordersSent, `seqNum, `activeOrders, `log, sendTimes
      ensures Valid() && log == old(log) + [order]
      ensures INT64Range(order.id) && SeqOf(order.id) <= ordersToSend
      ensures sendTimes[..] == old(sendTimes[..])[SeqOf(order.id) := now]
    {
      hide WellFormed, Pack, SeqOf, Generate;
      order := GenerateNextOrder(d);
      IndexOfLast(config.bot, log, activeOrders);
      sendTimes[SeqOf(order.id)] := now;
    }
  }

  lemma IndexOfLast(bot: I64, log: seq<Order>, active: seq<Id>)
    requires WellFormed(bot, log, active) && log != []
    ensures INT64Range(log[|log| - 1].id) && 1 <= SeqOf(log[|log| - 1].id) <= |log|
  {
    SendTimeIndex(bot, log, |log| - 1);
  }
}
