/** The load-test bot: a bounded queue of cancellable orders that drops its oldest entry when
    full, and the orders each strategy issues. */
module FleetBot {
  import opened Orders
  import opened Varint
  import opened BotIds
  import opened OrderStreams

  // ---------------------------------------------------------------- the ring

  function RingPush(q: seq<int>, capacity: nat, val: int): (r: seq<int>)
    requires 0 < capacity && |q| <= capacity
    ensures |r| <= capacity
  {
    (if |q| < capacity then q else q[1..]) + [val]
  }

  /** `size` values from `head` on, going around the end of the buffer. */
  function Window(b: seq<int>, head: nat, size: nat): (q: seq<int>)
    requires head < |b| && size <= |b|
    ensures |q| == size && forall k :: 0 <= k < size ==> q[k] == b[Wrap(head + k, |b|)]
  {
    (b[head..] + b[..head])[..size]
  }

  lemma PushWindow(b: seq<int>, head: nat, size: nat, val: int)
    requires head < |b| && size <= |b|
    ensures var after := b[Wrap(head + size, |b|) := val];
            (if size < |b| then Window(after, head, size + 1) else Window(after, Wrap(head + 1, |b|), size))
            == RingPush(Window(b, head, size), |b|, val)
    ensures Wrap(Wrap(head + size, |b|) + 1, |b|)
         == if size < |b| then Wrap(head + (size + 1), |b|) else Wrap(Wrap(head + 1, |b|) + size, |b|)
  {
    var t := Wrap(head + size, |b|);
    var after, q := b[t := val], RingPush(Window(b, head, size), |b|, val);
    hide Window;
    if size < |b| {
      forall k | 0 <= k <= size ensures Window(after, head, size + 1)[k] == q[k] {
        assert k < size ==> Wrap(head + k, |b|) != t;
      }
    } else {
      var h := Wrap(head + 1, |b|);
      forall k | 0 <= k < size ensures Window(after, h, size)[k] == q[k] {
        assert Wrap(h + k, |b|) == Wrap(head + (if k + 1 < size then k + 1 else 0), |b|);
      }
    }
  }

  /** The three fields after a push, and what the buffer holds between them. */
  lemma PushFields(b: seq<int>, head: nat, tail: nat, size: nat, val: int)
    requires head < |b| && size <= |b| && tail == Wrap(head + size, |b|)
    ensures tail < |b|
    ensures var h, n := if size < |b| then head else Advance(head, |b|), if size < |b| then size + 1 else size;
            && h < |b| && n <= |b| && Advance(tail, |b|) == Wrap(h + n, |b|)
            && Window(b[tail := val], h, n) == RingPush(Window(b, head, size), |b|, val)
  {
    hide Window, Advance, RingPush, Wrap;
    PushWindow(b, head, size, val);
  }

  lemma PopWindow(b: seq<int>, head: nat, size: nat)
    requires head < |b| && 0 < size <= |b|
    ensures Window(b, head, size)[0] == b[head]
    ensures Window(b, Wrap(head + 1, |b|), size - 1) == Window(b, head, size)[1..]
  {
    hide Window;
    var h, q := Wrap(head + 1, |b|), Window(b, head, size)[1..];
    forall k | 0 <= k < size - 1 ensures Window(b, h, size - 1)[k] == q[k] {
      assert Wrap(h + k, |b|) == Wrap(head + k + 1, |b|);
    }
  }

  class RingBuf {
    const buf: array<int>
    var head: nat
    var tail: nat
    var size: nat

    ghost predicate Valid() reads this {
      && buf.Length > 0 && head < buf.Length && size <= buf.Length
      && tail == Wrap(head + size, buf.Length)
    }

    /** The queued values, oldest first. */
    ghost function Contents(): (q: seq<int>)
      reads this, buf
      requires Valid()
      ensures |q| == size
    {
      Window(buf[..], head, size)
    }

    constructor (capacity: int)
      ensures Valid() && fresh(buf) && Contents() == []
      ensures buf.Length == if capacity <= 0 then 1024 else capacity
    {
      buf := new int[if capacity <= 0 then 1024 else capacity];
      head, tail, size := 0, 0, 0;
    }

    method Push(val: int)
      requires Valid()
      modifies this, buf
      ensures Valid() && Contents() == RingPush(old(Contents()), buf.Length, val)
    {
      PushFields(buf[..], head, tail, size, val);
      ghost var b := buf[..][tail := val];
      hide Window, Advance, Wrap, RingPush;
      buf[tail] := val;
      assert buf[..] == b;
      tail := Advance(tail, buf.Length);
      if size < buf.Length {
        size := size + 1;
      } else {
        head := Advance(head, buf.Length);
      }
    }

    method Pop() returns (val: int, ok: bool)
      requires Valid()
      modifies this
      ensures Valid() && ok == (old(Contents()) != [])
      ensures ok ==> val == old(Contents())[0] && Contents() == old(Contents())[1..]
      ensures !ok ==> Contents() == []
    {
      if size == 0 { return 0, false; }
      hide Window, Advance;
      PopWindow(buf[..], head, size);
      val, ok := buf[head], true;
      head := Advance(head, buf.Length);
      size := size - 1;
    }

    method Len() returns (n: nat)
      requires Valid()
      ensures n == |Contents()|
    {
      n := size;
    }
  }

  /** A position at most once around the buffer. */
  function Wrap(i: nat, length: nat): (j: int)
    ensures i < length + length ==> j < length
    ensures 0 <= j
  {
    if i < length then i else i - length
  }

  /** The next position; past the end it is the first one again. */
  function Advance(i: nat, length: nat): (j: nat)
    requires i < length
    ensures j == Wrap(i + 1, length)
  {
    (i + 1) % length
  }

  /** The queue keeps the last entries pushed, in order: as many as it has room for. */
  lemma {:induction false} RingKeepsNewest(capacity: nat, vals: seq<int>)
    requires capacity > 0
    ensures PushAll(capacity, vals) == if |vals| <= capacity then vals else vals[|vals| - capacity..]
  {
    if vals != [] {
      var init, last := vals[..|vals| - 1], vals[|vals| - 1];
      RingKeepsNewest(capacity, init);
      assert PushAll(capacity, vals) == RingPush(PushAll(capacity, init), capacity, last);
      hide PushAll;
      assert vals == init + [last];
      if |init| >= capacity { NewestSlice(capacity, init, last); }
    }
  }

  lemma NewestSlice(capacity: nat, init: seq<int>, last: int)
    requires 0 < capacity <= |init|
    ensures (init + [last])[|init| + 1 - capacity..] == init[|init| - capacity..][1..] + [last]
  {
  }

  function PushAll(capacity: nat, vals: seq<int>): (q: seq<int>)
    requires capacity > 0
    ensures |q| <= capacity
  {
    if vals == [] then [] else RingPush(PushAll(capacity, vals[..|vals| - 1]), capacity, vals[|vals| - 1])
  }

  // ---------------------------------------------------------------- orders

  /** The next order of the strategies that ignore the queue, under its own id. */
  function NamedOrder(c: Config, seqNum: I64, d: Draws): Order
    requires Priced(c) && !c.strategy.OtherStrategy?
  {
    var id := Pack(c.bot, seqNum);
    var side := if d.sideCoin then Sell else Buy;
    match c.strategy
    case MarketMaker =>
      var variation, qty := Below(d.variation, c.spread / 10 + 1), 500 + Below(d.quantity, 500);
      if seqNum % 2 == 0 then Order(id, Limit, Buy, c.midPrice - c.spread / 2 - variation, qty)
      else Order(id, Limit, Sell, c.midPrice + c.spread / 2 + variation, qty)
    case MomentumTrader =>
      var qty := 2000 + Below(d.quantity, 3000);
      if seqNum % 5 == 0 then Order(id, Cancel, Buy, 0, 0)
      else if d.roll < 0.2 then
        Order(id, Limit, side, c.midPrice - c.spread + Below(d.variation, c.spread * 2 + 1), qty)
      else Order(id, Market, side, 0, qty)
    case NoiseTrader =>
      var qty := ZipfQuantity(d.zipf);
      if d.roll < 0.60 then
        var variation := Below(d.variation, c.midPrice / 10 + 1);
        Order(id, Limit, side, if d.priceCoin then c.midPrice + variation else c.midPrice - variation, qty)
      else if d.roll < 0.85 then Order(id, Market, side, 0, qty)
      else Order(id, Cancel, side, 0, qty)
    case OtherStrategy => Order(id, Limit, Buy, 1, 1)
  }

  /** The order by progress: limits that are queued, then markets, then cancels from the queue. */
  function ProgressOrder(c: Config, capacity: nat, orders: nat, seqNum: I64, queue: seq<Id>, d: Draws)
    : (r: (Order, seq<Id>))
    requires capacity > 0 && |queue| <= capacity && orders > 0
    ensures |r.1| <= capacity
  {
    var id := Pack(c.bot, seqNum);
    var side := if d.sideCoin then Sell else Buy;
    var progress := seqNum as real / orders as real;
    if progress < 0.60 then
      var off := 1 + Below(d.variation, 10);
      var price := if d.sideCoin then c.midPrice + off else c.midPrice - off;
      (Order(id, Limit, side, price, 100), RingPush(queue, capacity, id))
    else if progress < 0.80 then (Order(id, Market, side, 0, 5000), queue)
    else if queue != [] then (Order(queue[0], Cancel, Buy, 0, 0), queue[1..])
    else (Order(id, Limit, Buy, 1, 1), queue)
  }

  function Issue(c: Config, capacity: nat, orders: int, seqNum: I64, queue: seq<Id>, d: Draws): (r: (Order, seq<Id>))
    requires Priced(c) && capacity > 0 && |queue| <= capacity
    ensures |r.1| <= capacity
  {
    if orders <= 0 then (Order(Pack(c.bot, seqNum), Limit, Buy, 1, 1), queue)
    else if c.strategy.OtherStrategy? then ProgressOrder(c, capacity, orders, seqNum, queue, d)
    else (NamedOrder(c, seqNum, d), queue)
  }

  function Run(c: Config, capacity: nat, orders: int, draws: seq<Draws>): (r: (seq<Order>, seq<Id>))
    requires Priced(c) && capacity > 0 && |draws| < LOW
    ensures |r.0| == |draws| && |r.1| <= capacity
  {
    if draws == [] then ([], [])
    else
      var (log, queue) := Run(c, capacity, orders, draws[..|draws| - 1]);
      var (o, after) := Issue(c, capacity, orders, |draws|, queue, draws[|draws| - 1]);
      (log + [o], after)
  }

  /** A bot that orders by progress cancels only limit orders it issued, each at most once,
      although the queue forgets the oldest ones. */
  lemma {:induction false} ProgressStream(c: Config, capacity: nat, orders: int, draws: seq<Draws>)
    requires Priced(c) && capacity > 0 && |draws| < LOW && (c.strategy.OtherStrategy? || orders <= 0)
    ensures WellFormed(c.bot, Run(c, capacity, orders, draws).0, Run(c, capacity, orders, draws).1)
  {
    hide WellFormed, Pack;
    if draws == [] {
      EmptyWellFormed(c.bot);
    } else {
      var before := draws[..|draws| - 1];
      var (log, queue) := Run(c, capacity, orders, before);
      var (o, after) := Issue(c, capacity, orders, |draws|, queue, draws[|draws| - 1]);
      ProgressStream(c, capacity, orders, before);
      assert queue[0..] == queue;
      if o.kind.Cancel? {
        CancelKeeps(c.bot, log, queue, o);
      } else {
        IssueKeeps(c.bot, log, queue, o, after);
      }
    }
  }

  /** The named strategies give every order its own number, cancels included. */
  lemma {:induction false} NamedIds(c: Config, capacity: nat, orders: nat, draws: seq<Draws>, i: nat)
    requires Priced(c) && capacity > 0 && i < |draws| < LOW && !c.strategy.OtherStrategy?
    ensures Run(c, capacity, orders, draws).0[i].id == Pack(c.bot, i + 1)
    decreases |draws|
  {
    hide Pack, ZipfQuantity;
    if i < |draws| - 1 { NamedIds(c, capacity, orders, draws[..|draws| - 1], i); }
  }

  /** So none of their cancels names an order any bot of the fleet placed: the cancels of the
      momentum and noise bots cancel nothing. */
  lemma NamedCancelsHitNothing(c: Config, capacity: nat, orders: nat, draws: seq<Draws>, i: nat,
                               other: I64, log: seq<Order>, j: nat)
    requires Priced(c) && capacity > 0 && i < |draws| < LOW && !c.strategy.OtherStrategy?
    requires Run(c, capacity, orders, draws).0[i].kind.Cancel?
    requires OwnIds(other, log) && -HALF <= other < HALF && j < |log| && !log[j].kind.Cancel?
    requires other == c.bot ==> log == Run(c, capacity, orders, draws).0
    ensures log[j].id != Run(c, capacity, orders, draws).0[i].id
  {
    NamedIds(c, capacity, orders, draws, i);
    hide Run, Pack;
    if log[j].id == Pack(c.bot, i + 1) { PackInjective(other, j + 1, c.bot, i + 1); }
  }

  class Bot {
    const config: Config
    const ordersToSend: nat
    const activeRing: RingBuf
    var seqNum: nat
    var ordersSent: nat

    ghost predicate Valid() reads this, activeRing {
      Priced(config) && activeRing.Valid() && seqNum == ordersSent
    }

    constructor (config: Config, ordersToSend: nat, capacity: int)
      requires Priced(config)
      ensures Valid() && this.config == config && this.ordersToSend == ordersToSend && seqNum == 0
      ensures fresh(activeRing) && fresh(activeRing.buf) && activeRing.Contents() == []
    {
      this.config, this.ordersToSend := config, ordersToSend;
      seqNum, ordersSent := 0, 0;
      activeRing := new RingBuf(capacity);
    }

    method NextOrder(d: Draws) returns (order: Order)
      requires Valid() && seqNum + 1 < LOW
      modifies this, activeRing, activeRing.buf
      ensures Valid() && seqNum == old(seqNum) + 1
      ensures (order, activeRing.Contents())
           == Issue(config, activeRing.buf.Length, ordersToSend, seqNum, old(activeRing.Contents()), d)
    {
      hide Pack, ZipfQuantity;
      ordersSent := ordersSent + 1;
      seqNum := seqNum + 1;
      var orderId := Pack(config.bot, seqNum);
      if ordersToSend <= 0 { return Order(orderId, Limit, Buy, 1, 1); }
      if config.strategy.OtherStrategy? {
        order := ProgressBasedOrder(orderId, d);
      } else {
        order := NamedOrder(config, seqNum, d);
      }
    }

    method ProgressBasedOrder(orderId: Id, d: Draws) returns (order: Order)
      requires Valid() && ordersToSend > 0 && 0 < seqNum < LOW && orderId == Pack(config.bot, seqNum)
      modifies activeRing, activeRing.buf
      ensures Valid()
      ensures (order, activeRing.Contents())
           == ProgressOrder(config, activeRing.buf.Length, ordersToSend, seqNum, old(activeRing.Contents()), d)
    {
      hide Pack;
      var progress := ordersSent as real / ordersToSend as real;
      if progress < 0.60 {
        var side, price := Buy, config.midPrice - 1 - Below(d.variation, 10);
        if d.sideCoin {
          side, price := Sell, config.midPrice + 1 + Below(d.variation, 10);
        }
        activeRing.Push(orderId);
        return Order(orderId, Limit, side, price, 100);
      }
      if progress < 0.80 {
        var side := Buy;
        if d.sideCoin { side := Sell; }
        return Order(orderId, Market, side, 0, 5000);
      }
      var cancelId, ok := activeRing.Pop();
      if ok { return Order(cancelId, Cancel, Buy, 0, 0); }
      return Order(orderId, Limit, Buy, 1, 1);
    }
  }
}
