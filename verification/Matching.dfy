/** Matching one incoming order against one side of a book, three ways: the
    forward pass `Sweep` over a flat list, the pass over price levels of the
    shadow book, and the rescan-from-the-front of the reference engine. */
module Matching {
  import opened Orders

  datatype Resting = Resting(id: Id, price: int, qty: int)

  /** An incoming order as the matcher sees it: the side it hits, its limit (none
      for a market order) and the bot whose orders it must skip (if any). */
  datatype Taker = Taker(id: Id, makers: Side, limit: Option<int>, own: Option<int>)

  datatype Trade = Trade(maker: Id, price: int, qty: int, done: bool)

  datatype Swept = Swept(book: seq<Resting>, trades: seq<Trade>, rem: int)

  predicate InLimit(t: Taker, price: int) {
    t.limit.Some? ==> Key(t.makers, price) <= Key(t.makers, t.limit.value)
  }

  predicate Own(t: Taker, r: Resting) { t.own == Some(BotId(r.id)) }

  predicate Eligible(t: Taker, r: Resting) { InLimit(t, r.price) && !Own(t, r) }

  predicate Sorted(side: Side, book: seq<Resting>) {
    forall i, j :: 0 <= i < j < |book| ==> Key(side, book[i].price) <= Key(side, book[j].price)
  }

  predicate Positive(book: seq<Resting>) { forall i :: 0 <= i < |book| ==> book[i].qty > 0 }

  predicate Distinct(book: seq<Resting>) {
    forall i, j :: 0 <= i < j < |book| ==> book[i].id != book[j].id
  }

  function Ids(book: seq<Resting>): set<Id> { set r | r in book :: r.id }

  function TradedQty(trades: seq<Trade>): int {
    if trades == [] then 0 else trades[0].qty + TradedQty(trades[1..])
  }

  function BookQty(book: seq<Resting>): int {
    if book == [] then 0 else book[0].qty + BookQty(book[1..])
  }

  // ---------------------------------------------------------------- forward pass

  function Leftover(r: Resting, q: int): seq<Resting> {
    if q == r.qty then [] else [r.(qty := r.qty - q)]
  }

  function TradeWith(r: Resting, q: int): Trade { Trade(r.id, r.price, q, q == r.qty) }

  /** One forward pass over a flat book in priority order. */
  function Sweep(t: Taker, book: seq<Resting>, rem: int): Swept {
    if book == [] || rem <= 0 || !InLimit(t, book[0].price) then Swept(book, [], rem)
    else if Own(t, book[0]) then
      var s := Sweep(t, book[1..], rem);
      s.(book := [book[0]] + s.book)
    else
      var q := Min(rem, book[0].qty);
      var s := Sweep(t, book[1..], rem - q);
      Swept(Leftover(book[0], q) + s.book, [TradeWith(book[0], q)] + s.trades, s.rem)
  }

  /** What the pass makes of its first order. */
  function SweepOne(t: Taker, r: Resting, rem: int): Swept {
    if Own(t, r) then Swept([r], [], rem)
    else var q := Min(rem, r.qty); Swept(Leftover(r, q), [TradeWith(r, q)], rem - q)
  }

  lemma SweepCons(t: Taker, r: Resting, rest: seq<Resting>, rem: int)
    requires rem > 0 && InLimit(t, r.price)
    ensures var one := SweepOne(t, r, rem);
            var s := Sweep(t, rest, one.rem);
            Sweep(t, [r] + rest, rem) == Swept(one.book + s.book, one.trades + s.trades, s.rem)
  {
    assert ([r] + rest)[1..] == rest;
    if Own(t, r) { assert [] + Sweep(t, rest, rem).trades == Sweep(t, rest, rem).trades; }
  }

  /** Everything in `a` is within the limit, so the pass over `a + b` is the pass
      over `a` followed by the pass over `b`. */
  lemma {:induction false} SweepAppend(t: Taker, a: seq<Resting>, b: seq<Resting>, rem: int)
    requires forall i :: 0 <= i < |a| ==> InLimit(t, a[i].price)
    ensures var s := Sweep(t, a, rem);
            var u := Sweep(t, b, s.rem);
            Sweep(t, a + b, rem) == Swept(s.book + u.book, s.trades + u.trades, u.rem)
  {
    if a == [] {
      assert a + b == b && Sweep(t, a, rem) == Swept([], [], rem);
      assert [] + Sweep(t, b, rem).book == Sweep(t, b, rem).book;
      assert [] + Sweep(t, b, rem).trades == Sweep(t, b, rem).trades;
    } else if rem > 0 {
      hide Sweep, SweepOne;
      var r, rest, one := a[0], a[1..], SweepOne(t, a[0], rem);
      assert a == [r] + rest && a + b == [r] + (rest + b);
      SweepCons(t, r, rest, rem);
      SweepCons(t, r, rest + b, rem);
      SweepAppend(t, rest, b, one.rem);
      var s := Sweep(t, rest, one.rem);
      var u := Sweep(t, b, s.rem);
      Assoc(one.book, s.book, u.book);
      Assoc(one.trades, s.trades, u.trades);
    } else {
      SweepStops(t, a, rem);
      SweepStops(t, b, rem);
      SweepStops(t, a + b, rem);
    }
  }

  lemma SweepStops(t: Taker, book: seq<Resting>, rem: int)
    requires rem <= 0
    ensures Sweep(t, book, rem) == Swept(book, [], rem)
  {
  }

  lemma Assoc<T>(x: seq<T>, y: seq<T>, z: seq<T>)
    ensures x + (y + z) == (x + y) + z
  {
  }

  lemma {:induction false} SweepRest(t: Taker, book: seq<Resting>, rem: int, r: Resting)
    requires r in Sweep(t, book, rem).book
    ensures exists x :: x in book && x.id == r.id && x.price == r.price
    ensures Positive(book) ==> r.qty > 0
  {
    var s := Sweep(t, book, rem);
    if book == [] || rem <= 0 || !InLimit(t, book[0].price) {
      assert r in book;
    } else {
      var q := Min(rem, book[0].qty);
      var front := if Own(t, book[0]) then [book[0]] else Leftover(book[0], q);
      var u := Sweep(t, book[1..], if Own(t, book[0]) then rem else rem - q);
      assert s.book == front + u.book;
      if r in front {
        assert book[0] in book && book[0].id == r.id && book[0].price == r.price;
      } else {
        SweepRest(t, book[1..], if Own(t, book[0]) then rem else rem - q, r);
        var x :| x in book[1..] && x.id == r.id && x.price == r.price;
        assert x in book;
      }
    }
  }

  /** Putting an order in front of a book that ranks no better keeps it well formed. */
  lemma ConsKeepsBook(side: Side, r: Resting, rest: seq<Resting>)
    requires Sorted(side, rest) && Positive(rest) && Distinct(rest) && r.qty > 0
    requires forall i :: 0 <= i < |rest| ==> Key(side, r.price) <= Key(side, rest[i].price)
    requires forall i :: 0 <= i < |rest| ==> rest[i].id != r.id
    ensures Sorted(side, [r] + rest) && Positive([r] + rest) && Distinct([r] + rest)
  {
  }

  /** The pass keeps a well-formed book well formed. */
  lemma {:induction false} SweepKeepsBook(t: Taker, side: Side, book: seq<Resting>, rem: int)
    requires Sorted(side, book) && Positive(book) && Distinct(book)
    ensures var s := Sweep(t, book, rem);
            Sorted(side, s.book) && Positive(s.book) && Distinct(s.book)
  {
    if book == [] || rem <= 0 || !InLimit(t, book[0].price) {
    } else {
      hide Sweep, Sorted, Positive, Distinct;
      var r, tail, one := book[0], book[1..], SweepOne(t, book[0], rem);
      var u := Sweep(t, tail, one.rem).book;
      assert book == [r] + tail;
      SweepCons(t, r, tail, rem);
      TailKeepsBook(side, book);
      SweepKeepsBook(t, side, tail, one.rem);
      forall i | 0 <= i < |u| ensures Key(side, r.price) <= Key(side, u[i].price) && u[i].id != r.id {
        SweepRest(t, tail, one.rem, u[i]);
        var x :| x in tail && x.id == u[i].id && x.price == u[i].price;
        HeadIsBest(side, book, x);
      }
      if one.book == [] {
        assert [] + u == u;
      } else {
        HeadIsPositive(book);
        ConsKeepsBook(side, one.book[0], u);
      }
    }
  }

  lemma TailKeepsBook(side: Side, book: seq<Resting>)
    requires Sorted(side, book) && Positive(book) && Distinct(book) && book != []
    ensures Sorted(side, book[1..]) && Positive(book[1..]) && Distinct(book[1..])
  {
  }

  lemma HeadIsBest(side: Side, book: seq<Resting>, x: Resting)
    requires Sorted(side, book) && Distinct(book) && book != [] && x in book[1..]
    ensures Key(side, book[0].price) <= Key(side, x.price) && x.id != book[0].id
  {
    var k :| 0 <= k < |book| - 1 && book[1..][k] == x;
    assert book[k + 1] == x;
  }

  lemma HeadIsPositive(book: seq<Resting>)
    requires Positive(book) && book != []
    ensures book[0].qty > 0
  {
  }

  /** What is left over was not there to be taken: when quantity remains, every
      order still resting within the limit is the taker's own. */
  lemma {:induction false} SweepExhausts(t: Taker, book: seq<Resting>, rem: int, r: Resting)
    requires Sorted(t.makers, book) && Positive(book)
    requires Sweep(t, book, rem).rem > 0
    requires r in Sweep(t, book, rem).book && InLimit(t, r.price)
    ensures Own(t, r)
  {
    var s := Sweep(t, book, rem);
    if book == [] || rem <= 0 {
    } else if InLimit(t, book[0].price) {
      var q := Min(rem, book[0].qty);
      var rest := if Own(t, book[0]) then rem else rem - q;
      var u := Sweep(t, book[1..], rest);
      SweepNeverGrows(t, book[1..], rest);
      if r in u.book {
        SweepExhausts(t, book[1..], rest, r);
      }
    }
  }

  lemma {:induction false} SweepNeverGrows(t: Taker, book: seq<Resting>, rem: int)
    requires Positive(book)
    ensures var s := Sweep(t, book, rem);
            s.rem <= rem && (rem >= 0 ==> s.rem >= 0)
  {
    if book != [] && rem > 0 {
      SweepNeverGrows(t, book[1..], if Own(t, book[0]) then rem else rem - Min(rem, book[0].qty));
    }
  }

  /** Quantity is conserved: what the taker loses is what trades, and what trades
      is what the book loses. */
  lemma {:induction false} SweepConserves(t: Taker, book: seq<Resting>, rem: int)
    ensures var s := Sweep(t, book, rem);
            s.rem + TradedQty(s.trades) == rem
            && BookQty(s.book) + TradedQty(s.trades) == BookQty(book)
  {
    if book == [] || rem <= 0 || !InLimit(t, book[0].price) {
    } else {
      var q := Min(rem, book[0].qty);
      var front := if Own(t, book[0]) then [book[0]] else Leftover(book[0], q);
      var u := Sweep(t, book[1..], if Own(t, book[0]) then rem else rem - q);
      SweepConserves(t, book[1..], if Own(t, book[0]) then rem else rem - q);
      assert (front + u.book)[|front|..] == u.book;
      if front != [] { assert (front + u.book)[1..] == u.book; }
      if !Own(t, book[0]) { assert ([TradeWith(book[0], q)] + u.trades)[1..] == u.trades; }
    }
  }

  // -------------------------------------------------- price-time priority, declaratively

  /** What resting order `r` offers to the taker. */
  function Offer(t: Taker, r: Resting): int { if Eligible(t, r) then r.qty else 0 }

  /** All that is offered with better priority than position `i`. */
  function Ahead(t: Taker, book: seq<Resting>, i: nat): int
    requires i <= |book|
  {
    if i == 0 then 0 else Ahead(t, book, i - 1) + Offer(t, book[i - 1])
  }

  /** The quantity price-time priority allots to position `i`: whatever the offers
      ahead of it leave, up to its own offer. No pass over the book is involved. */
  function Share(t: Taker, book: seq<Resting>, rem: int, i: nat): int
    requires i < |book|
  {
    var left := rem - Ahead(t, book, i);
    if left <= 0 then 0 else Min(left, Offer(t, book[i]))
  }

  function Allotted(t: Taker, book: seq<Resting>, rem: int, n: nat): seq<Trade>
    requires n <= |book|
  {
    if n == 0 then []
    else
      var q := Share(t, book, rem, n - 1);
      Allotted(t, book, rem, n - 1) + if q > 0 then [TradeWith(book[n - 1], q)] else []
  }

  function Reduced(t: Taker, book: seq<Resting>, rem: int, n: nat): seq<Resting>
    requires n <= |book|
  {
    if n == 0 then []
    else Reduced(t, book, rem, n - 1) + Leftover(book[n - 1], Share(t, book, rem, n - 1))
  }

  lemma {:induction false} AheadTail(t: Taker, book: seq<Resting>, i: nat)
    requires i < |book|
    ensures Ahead(t, book, i + 1) == Offer(t, book[0]) + Ahead(t, book[1..], i)
  {
    if i > 0 { AheadTail(t, book, i - 1); }
  }

  lemma {:induction false} AheadMonotone(t: Taker, book: seq<Resting>, i: nat, j: nat)
    requires Positive(book) && i <= j <= |book|
    ensures 0 <= Ahead(t, book, i) <= Ahead(t, book, j)
  {
    if i < j {
      AheadMonotone(t, book, i, j - 1);
    } else if i > 0 {
      AheadMonotone(t, book, i - 1, i - 1);
    }
  }

  lemma ShareTail(t: Taker, book: seq<Resting>, rem: int, i: nat)
    requires Positive(book) && i + 1 < |book|
    ensures Share(t, book, rem, i + 1) == Share(t, book[1..], rem - Share(t, book, rem, 0), i)
  {
    AheadTail(t, book, i);
    AheadMonotone(t, book[1..], 0, i);
  }

  lemma {:induction false} AllottedTail(t: Taker, book: seq<Resting>, rem: int, n: nat)
    requires Positive(book) && 0 < n <= |book|
    ensures var q := Share(t, book, rem, 0);
            Allotted(t, book, rem, n)
            == (if q > 0 then [TradeWith(book[0], q)] else []) + Allotted(t, book[1..], rem - q, n - 1)
  {
    if n == 1 {
      assert Allotted(t, book, rem, 0) == [];
    } else {
      AllottedTail(t, book, rem, n - 1);
      ShareTail(t, book, rem, n - 2);
      assert book[1..][n - 2] == book[n - 1];
    }
  }

  lemma {:induction false} ReducedTail(t: Taker, book: seq<Resting>, rem: int, n: nat)
    requires Positive(book) && 0 < n <= |book|
    ensures var q := Share(t, book, rem, 0);
            Reduced(t, book, rem, n) == Leftover(book[0], q) + Reduced(t, book[1..], rem - q, n - 1)
  {
    if n == 1 {
      assert Reduced(t, book, rem, 0) == [];
    } else {
      ReducedTail(t, book, rem, n - 1);
      ShareTail(t, book, rem, n - 2);
      assert book[1..][n - 2] == book[n - 1];
    }
  }

  lemma NoShare(t: Taker, book: seq<Resting>, rem: int, i: nat)
    requires Positive(book) && Sorted(t.makers, book) && i < |book|
    requires rem <= 0 || !InLimit(t, book[0].price)
    ensures Share(t, book, rem, i) == 0
  {
    AheadMonotone(t, book, 0, i);
    assert i > 0 ==> Key(t.makers, book[0].price) <= Key(t.makers, book[i].price);
  }

  lemma {:induction false} NothingAllotted(t: Taker, book: seq<Resting>, rem: int, n: nat)
    requires Positive(book) && n <= |book|
    requires forall i :: 0 <= i < n ==> Share(t, book, rem, i) == 0
    ensures Allotted(t, book, rem, n) == []
    ensures Reduced(t, book, rem, n) == book[..n]
  {
    hide Share;
    if n > 0 {
      NothingAllotted(t, book, rem, n - 1);
      assert Share(t, book, rem, n - 1) == 0;
      assert Leftover(book[n - 1], 0) == [book[n - 1]];
      assert book[..n] == book[..n - 1] + [book[n - 1]];
    }
  }

  lemma SweepTakesShare(t: Taker, book: seq<Resting>, rem: int)
    requires Positive(book) && book != [] && rem > 0 && InLimit(t, book[0].price)
    ensures var q := Share(t, book, rem, 0);
            var s := Sweep(t, book[1..], rem - q);
            Sweep(t, book, rem)
            == Swept(Leftover(book[0], q) + s.book, (if q > 0 then [TradeWith(book[0], q)] else []) + s.trades, s.rem)
  {
    assert Ahead(t, book, 0) == 0;
    if Own(t, book[0]) {
      assert Leftover(book[0], 0) == [book[0]];
    }
  }

  lemma NothingSwept(t: Taker, book: seq<Resting>, rem: int)
    requires Sorted(t.makers, book) && Positive(book)
    requires book == [] || rem <= 0 || !InLimit(t, book[0].price)
    ensures Allotted(t, book, rem, |book|) == [] && Reduced(t, book, rem, |book|) == book
    ensures Sweep(t, book, rem) == Swept(book, [], rem)
  {
    forall i | 0 <= i < |book| ensures Share(t, book, rem, i) == 0 { NoShare(t, book, rem, i); }
    NothingAllotted(t, book, rem, |book|);
    assert book[..|book|] == book;
  }

  /** Price-time priority: on a sorted book the forward pass trades exactly the
      allotted shares, in book order and at the resting prices. */
  lemma {:induction false} SweepIsPriority(t: Taker, book: seq<Resting>, rem: int)
    requires Sorted(t.makers, book) && Positive(book)
    ensures Sweep(t, book, rem).trades == Allotted(t, book, rem, |book|)
    ensures Sweep(t, book, rem).book == Reduced(t, book, rem, |book|)
  {
    hide Sweep, Allotted, Reduced, Share, Sorted, Positive;
    if book == [] || rem <= 0 || !InLimit(t, book[0].price) {
      NothingSwept(t, book, rem);
    } else {
      var rest, left := book[1..], rem - Share(t, book, rem, 0);
      TailIsSorted(t.makers, book);
      SweepIsPriority(t, rest, left);
      AllottedTail(t, book, rem, |book|);
      ReducedTail(t, book, rem, |book|);
      SweepTakesShare(t, book, rem);
    }
  }

  lemma TailIsSorted(side: Side, book: seq<Resting>)
    requires Sorted(side, book) && Positive(book) && book != []
    ensures Sorted(side, book[1..]) && Positive(book[1..])
  {
  }

  /** If position `j` is allotted something, every eligible position ahead of it is
      allotted all it offers. */
  lemma ShareGoesByPriority(t: Taker, book: seq<Resting>, rem: int, i: nat, j: nat)
    requires Positive(book) && i < j < |book|
    requires Eligible(t, book[i]) && Share(t, book, rem, j) > 0
    ensures Share(t, book, rem, i) == book[i].qty
  {
    AheadMonotone(t, book, i + 1, j);
  }

  predicate TradesAt(t: Taker, book: seq<Resting>, rem: int, m: nat) {
    m < |book| && Share(t, book, rem, m) > 0
  }

  lemma {:induction false} AllottedMember(t: Taker, book: seq<Resting>, rem: int, n: nat, tr: Trade)
    requires n <= |book|
    ensures tr in Allotted(t, book, rem, n)
        <==> exists m: nat :: m < n && TradesAt(t, book, rem, m) && tr == TradeWith(book[m], Share(t, book, rem, m))
  {
    hide Share;
    if n > 0 {
      AllottedMember(t, book, rem, n - 1, tr);
      assert TradesAt(t, book, rem, n - 1) <==> Share(t, book, rem, n - 1) > 0;
    }
  }

  lemma {:induction false} ReducedMember(t: Taker, book: seq<Resting>, rem: int, n: nat, r: Resting)
    requires n <= |book| && r in Reduced(t, book, rem, n)
    ensures exists m: nat :: m < n && book[m].id == r.id && Share(t, book, rem, m) != book[m].qty
  {
    hide Share;
    if r in Reduced(t, book, rem, n - 1) {
      ReducedMember(t, book, rem, n - 1, r);
    }
  }

  /** A trade with the order at position `j` is what `j` is allotted. */
  lemma TradeIsShare(t: Taker, book: seq<Resting>, rem: int, j: nat, tr: Trade)
    requires Sorted(t.makers, book) && Positive(book) && Distinct(book) && j < |book|
    requires tr in Sweep(t, book, rem).trades && tr.maker == book[j].id
    ensures TradesAt(t, book, rem, j) && tr == TradeWith(book[j], Share(t, book, rem, j))
  {
    SweepIsPriority(t, book, rem);
    hide Sweep, Allotted, Reduced, Sorted, Share;
    AllottedMember(t, book, rem, |book|, tr);
    var m: nat :| m < |book| && TradesAt(t, book, rem, m) && tr == TradeWith(book[m], Share(t, book, rem, m));
    assert m == j;
  }

  /** An order allotted all it has is traded in full and gone from the book. */
  lemma FullShareIsGone(t: Taker, book: seq<Resting>, rem: int, i: nat)
    requires Sorted(t.makers, book) && Positive(book) && Distinct(book) && i < |book|
    requires Share(t, book, rem, i) == book[i].qty
    ensures TradeWith(book[i], book[i].qty) in Sweep(t, book, rem).trades
    ensures book[i].id !in Ids(Sweep(t, book, rem).book)
  {
    hide Sweep, Allotted, Reduced, Sorted, Share, Positive, Distinct, Ids;
    SweepIsPriority(t, book, rem);
    assert TradesAt(t, book, rem, i) by { PositiveAt(book, i); }
    AllottedMember(t, book, rem, |book|, TradeWith(book[i], book[i].qty));
    FullShareLeaves(t, book, rem, i);
  }

  lemma PositiveAt(book: seq<Resting>, i: nat)
    requires Positive(book) && i < |book|
    ensures book[i].qty > 0
  {
  }

  lemma FullShareLeaves(t: Taker, book: seq<Resting>, rem: int, i: nat)
    requires Distinct(book) && i < |book| && Share(t, book, rem, i) == book[i].qty
    ensures book[i].id !in Ids(Reduced(t, book, rem, |book|))
  {
    hide Reduced, Share;
    forall r | r in Reduced(t, book, rem, |book|) ensures r.id != book[i].id {
      ReducedMember(t, book, rem, |book|, r);
    }
  }

  /** Nobody is passed over: if the pass trades with the order at position `j`, it uses up
      every eligible order ahead of it, and `j` trades at its own price within the limit. */
  lemma PriorityIsRespected(t: Taker, book: seq<Resting>, rem: int, i: nat, j: nat, tr: Trade)
    requires Sorted(t.makers, book) && Positive(book) && Distinct(book)
    requires i < j < |book| && Eligible(t, book[i])
    requires tr in Sweep(t, book, rem).trades && tr.maker == book[j].id
    ensures TradeWith(book[i], book[i].qty) in Sweep(t, book, rem).trades
    ensures book[i].id !in Ids(Sweep(t, book, rem).book)
    ensures Eligible(t, book[j]) && tr.price == book[j].price && 0 < tr.qty <= book[j].qty
  {
    hide Sweep, Sorted, Distinct, Positive, Ids;
    TradeIsShare(t, book, rem, j, tr);
    ShareGoesByPriority(t, book, rem, i, j);
    FullShareIsGone(t, book, rem, i);
  }

  // ---------------------------------------------------------------- rescanning

  /** The first position the engine may trade with, or none: scanning stops at the
      first price beyond the limit and steps over the taker's own orders. */
  function FirstMatch(t: Taker, book: seq<Resting>): (r: Option<nat>)
    ensures r.Some? ==> r.value < |book| && Eligible(t, book[r.value])
    ensures r.Some? ==> forall k :: 0 <= k < r.value ==> InLimit(t, book[k].price) && Own(t, book[k])
  {
    if book == [] || !InLimit(t, book[0].price) then None
    else if Own(t, book[0]) then
      (match FirstMatch(t, book[1..])
       case None => None
       case Some(i) =>
         assert forall k :: 1 <= k < i + 1 ==> book[k] == book[1..][k - 1];
         Some(i + 1))
    else Some(0)
  }

  /** The book after trading `q` with position `i`. */
  function Hit(book: seq<Resting>, i: nat, q: int): seq<Resting>
    requires i < |book|
  {
    book[..i] + Leftover(book[i], q) + book[i + 1..]
  }

  lemma HitPositive(book: seq<Resting>, i: nat, q: int)
    requires Positive(book) && i < |book| && q <= book[i].qty
    ensures Positive(Hit(book, i, q))
  {
    var h := Hit(book, i, q);
    forall k | 0 <= k < |h| ensures h[k].qty > 0 {
      var d := |Leftover(book[i], q)|;
      if k >= i + d { assert h[k] == book[i + 1..][k - i - d]; }
    }
  }

  /** The reference engine: find the first match from the front, trade, start over. */
  function Rescan(t: Taker, book: seq<Resting>, rem: int): Swept
    requires Positive(book)
    decreases if rem > 0 then rem else 0
  {
    match FirstMatch(t, book)
    case None => Swept(book, [], rem)
    case Some(i) =>
      if rem <= 0 then Swept(book, [], rem)
      else
        var q := Min(rem, book[i].qty);
        HitPositive(book, i, q);
        var s := Rescan(t, Hit(book, i, q), rem - q);
        s.(trades := [TradeWith(book[i], q)] + s.trades)
  }

  lemma {:induction false} SweepNoMatch(t: Taker, book: seq<Resting>, rem: int)
    requires FirstMatch(t, book).None? || rem <= 0
    ensures Sweep(t, book, rem) == Swept(book, [], rem)
  {
    if book != [] && rem > 0 && InLimit(t, book[0].price) {
      assert Own(t, book[0]);
      SweepNoMatch(t, book[1..], rem);
      assert [book[0]] + book[1..] == book;
    }
  }

  /** One rescan is one step of the forward pass. */
  lemma {:induction false} RescanStep(t: Taker, book: seq<Resting>, rem: int)
    requires FirstMatch(t, book).Some? && rem > 0
    ensures var i := FirstMatch(t, book).value;
            var q := Min(rem, book[i].qty);
            var s := Sweep(t, Hit(book, i, q), rem - q);
            Sweep(t, book, rem) == s.(trades := [TradeWith(book[i], q)] + s.trades)
  {
    var i := FirstMatch(t, book).value;
    var q := Min(rem, book[i].qty);
    var hit := Hit(book, i, q);
    if Own(t, book[0]) {
      var rest := book[1..];
      RescanStep(t, rest, rem);
      assert rest[i - 1] == book[i];
      HitCons(book, i, q);
      assert hit[1..] == Hit(rest, i - 1, q) && hit[0] == book[0];
    } else if q == book[0].qty {
      assert hit == book[1..];
    } else {
      assert hit == Leftover(book[0], q) + book[1..];
    }
  }

  lemma HitCons(book: seq<Resting>, i: nat, q: int)
    requires 0 < i < |book|
    ensures Hit(book, i, q) == [book[0]] + Hit(book[1..], i - 1, q)
  {
  }

  /** Rescanning from the front for every trade is one forward pass. */
  lemma {:induction false} RescanIsSweep(t: Taker, book: seq<Resting>, rem: int)
    requires Positive(book)
    ensures Rescan(t, book, rem) == Sweep(t, book, rem)
    decreases if rem > 0 then rem else 0
  {
    match FirstMatch(t, book)
    case None => SweepNoMatch(t, book, rem);
    case Some(i) =>
      if rem <= 0 {
        SweepNoMatch(t, book, rem);
      } else {
        var q := Min(rem, book[i].qty);
        HitPositive(book, i, q);
        RescanIsSweep(t, Hit(book, i, q), rem - q);
        RescanStep(t, book, rem);
      }
  }

  // ---------------------------------------------------------------- the exempt bot

  /** The taker if no bot's orders were skipped. */
  function Unskipped(t: Taker): Taker { t.(own := None) }

  /** No order of the skipped bot comes up while quantity is left: all that is
      offered ahead of it already covers the taker. */
  predicate OwnOutOfReach(t: Taker, book: seq<Resting>, rem: int) {
    forall i :: 0 <= i < |book| && InLimit(t, book[i].price) && Own(t, book[i]) ==> rem <= Ahead(Unskipped(t), book, i)
  }

  lemma {:induction false} NoOwnMaker(t: Taker, book: seq<Resting>, rem: int, i: nat)
    requires i < |Sweep(t, book, rem).trades|
    ensures t.own != Some(BotId(Sweep(t, book, rem).trades[i].maker))
  {
    if Own(t, book[0]) {
      NoOwnMaker(t, book[1..], rem, i);
    } else if i > 0 {
      NoOwnMaker(t, book[1..], rem - Min(rem, book[0].qty), i - 1);
    }
  }

  /** Skipping the taker's own bot changes nothing exactly when none of its orders is
      within reach. The shadow book does not skip bot 0 and the engine does, so for
      bot 0 this is when the two agree. */
  lemma {:induction false} ExemptionMatters(t: Taker, book: seq<Resting>, rem: int)
    requires Sorted(t.makers, book) && Positive(book)
    ensures Sweep(Unskipped(t), book, rem) == Sweep(t, book, rem) <==> OwnOutOfReach(t, book, rem)
  {
    var u := Unskipped(t);
    if book == [] || rem <= 0 || !InLimit(t, book[0].price) {
      forall i | 0 <= i < |book| && InLimit(t, book[i].price) ensures rem <= Ahead(u, book, i) {
        AheadMonotone(u, book, 0, i);
        assert i > 0 ==> Key(t.makers, book[0].price) <= Key(t.makers, book[i].price);
      }
    } else if Own(t, book[0]) {
      assert Ahead(u, book, 0) == 0;
      assert Sweep(u, book, rem).trades[0].maker == book[0].id;
      if Sweep(t, book, rem).trades != [] { NoOwnMaker(t, book, rem, 0); }
    } else {
      var q := Min(rem, book[0].qty);
      ExemptionMatters(t, book[1..], rem - q);
      ReachTail(t, book, rem);
      SweepDiffers(t, book, rem);
    }
  }

  lemma ReachTail(t: Taker, book: seq<Resting>, rem: int)
    requires Positive(book) && book != [] && rem > 0 && Eligible(t, book[0])
    ensures OwnOutOfReach(t, book, rem) <==> OwnOutOfReach(t, book[1..], rem - Min(rem, book[0].qty))
  {
    var u, rest := Unskipped(t), book[1..];
    forall i | 0 <= i < |rest|
      ensures rem <= Ahead(u, book, i + 1) <==> rem - Min(rem, book[0].qty) <= Ahead(u, rest, i)
    {
      AheadTail(u, book, i);
      AheadMonotone(u, rest, 0, i);
    }
    if OwnOutOfReach(t, rest, rem - Min(rem, book[0].qty)) {
      forall i | 0 <= i < |book| && InLimit(t, book[i].price) && Own(t, book[i]) ensures rem <= Ahead(u, book, i) {
        assert rest[i - 1] == book[i];
      }
    }
  }

  lemma SweepDiffers(t: Taker, book: seq<Resting>, rem: int)
    requires book != [] && rem > 0 && Eligible(t, book[0])
    ensures var left := rem - Min(rem, book[0].qty);
            Sweep(Unskipped(t), book, rem) == Sweep(t, book, rem)
            <==> Sweep(Unskipped(t), book[1..], left) == Sweep(t, book[1..], left)
  {
    var q := Min(rem, book[0].qty);
    var a, b := Sweep(Unskipped(t), book[1..], rem - q), Sweep(t, book[1..], rem - q);
    var l, tr := Leftover(book[0], q), [TradeWith(book[0], q)];
    assert (l + a.book)[|l|..] == a.book && (l + b.book)[|l|..] == b.book;
    assert (tr + a.trades)[1..] == a.trades && (tr + b.trades)[1..] == b.trades;
  }

  // ---------------------------------------------------------------- price levels

  datatype Level = Level(price: int, orders: seq<Resting>)

  datatype LevelsSwept = LevelsSwept(levels: seq<Level>, trades: seq<Trade>, rem: int)

  function Flat(levels: seq<Level>): seq<Resting> {
    if levels == [] then [] else levels[0].orders + Flat(levels[1..])
  }

  predicate LevelOk(l: Level) {
    l.orders != [] && Positive(l.orders)
    && forall i :: 0 <= i < |l.orders| ==> l.orders[i].price == l.price
  }

  /** Levels strictly ordered by rank, none empty, every order in the level of its price. */
  predicate TreeOk(side: Side, levels: seq<Level>) {
    && (forall i :: 0 <= i < |levels| ==> LevelOk(levels[i]))
    && (forall i, j :: 0 <= i < j < |levels| ==> Key(side, levels[i].price) < Key(side, levels[j].price))
  }

  /** The pass over the queue of one level: the limit was checked for the level. */
  function SweepQueue(t: Taker, orders: seq<Resting>, rem: int): Swept {
    if orders == [] || rem <= 0 then Swept(orders, [], rem)
    else if Own(t, orders[0]) then
      var s := SweepQueue(t, orders[1..], rem);
      s.(book := [orders[0]] + s.book)
    else
      var q := Min(rem, orders[0].qty);
      var s := SweepQueue(t, orders[1..], rem - q);
      Swept(Leftover(orders[0], q) + s.book, [TradeWith(orders[0], q)] + s.trades, s.rem)
  }

  function KeepLevel(price: int, orders: seq<Resting>): seq<Level> {
    if orders == [] then [] else [Level(price, orders)]
  }

  function SweepLevels(t: Taker, levels: seq<Level>, rem: int): LevelsSwept {
    if levels == [] || rem <= 0 || !InLimit(t, levels[0].price) then LevelsSwept(levels, [], rem)
    else
      var s := SweepQueue(t, levels[0].orders, rem);
      var u := SweepLevels(t, levels[1..], s.rem);
      LevelsSwept(KeepLevel(levels[0].price, s.book) + u.levels, s.trades + u.trades, u.rem)
  }

  lemma {:induction false} QueueIsSweep(t: Taker, orders: seq<Resting>, rem: int)
    requires forall i :: 0 <= i < |orders| ==> InLimit(t, orders[i].price)
    ensures SweepQueue(t, orders, rem) == Sweep(t, orders, rem)
  {
    if orders != [] && rem > 0 {
      QueueIsSweep(t, orders[1..], if Own(t, orders[0]) then rem else rem - Min(rem, orders[0].qty));
    }
  }

  lemma FlatKeep(price: int, orders: seq<Resting>, levels: seq<Level>)
    ensures Flat(KeepLevel(price, orders) + levels) == orders + Flat(levels)
  {
    var ls := KeepLevel(price, orders) + levels;
    if orders == [] {
      assert ls == levels;
      assert orders + Flat(levels) == Flat(levels);
    } else {
      assert ls[1..] == levels;
    }
  }

  lemma TreeTail(side: Side, levels: seq<Level>)
    requires TreeOk(side, levels) && levels != []
    ensures TreeOk(side, levels[1..])
  {
    assert forall i :: 0 <= i < |levels[1..]| ==> levels[1..][i] == levels[i + 1];
  }

  /** The level-by-level pass with self-skips and emptied levels is the flat pass. */
  lemma {:induction false} LevelsRefineSweep(t: Taker, levels: seq<Level>, rem: int)
    requires TreeOk(t.makers, levels)
    ensures var s := SweepLevels(t, levels, rem);
            Sweep(t, Flat(levels), rem) == Swept(Flat(s.levels), s.trades, s.rem)
  {
    if levels == [] {
    } else {
      var l, rest := levels[0], levels[1..];
      assert LevelOk(l);
      assert Flat(levels)[0] == l.orders[0];
      if rem > 0 && InLimit(t, l.price) {
        TreeTail(t.makers, levels);
        var s := SweepQueue(t, l.orders, rem);
        LevelsRefineSweep(t, rest, s.rem);
        QueueIsSweep(t, l.orders, rem);
        SweepAppend(t, l.orders, Flat(rest), rem);
        FlatKeep(l.price, s.book, SweepLevels(t, rest, s.rem).levels);
      }
    }
  }

  /** The shadow book's matcher and the engine's matcher agree trade for trade. */
  lemma LevelsRefineRescan(t: Taker, levels: seq<Level>, rem: int)
    requires TreeOk(t.makers, levels)
    ensures Positive(Flat(levels))
    ensures var s := SweepLevels(t, levels, rem);
            Rescan(t, Flat(levels), rem) == Swept(Flat(s.levels), s.trades, s.rem)
  {
    FlatOk(t.makers, levels);
    LevelsRefineSweep(t, levels, rem);
    RescanIsSweep(t, Flat(levels), rem);
  }

  lemma {:induction false} FlatMember(levels: seq<Level>, r: Resting)
    requires forall i :: 0 <= i < |levels| ==> LevelOk(levels[i])
    requires r in Flat(levels)
    ensures exists i :: 0 <= i < |levels| && r in levels[i].orders && levels[i].price == r.price && r.qty > 0
  {
    var l := levels[0];
    if r in l.orders {
      assert LevelOk(l);
    } else {
      FlatMember(levels[1..], r);
      var i :| 0 <= i < |levels[1..]| && r in levels[1..][i].orders && levels[1..][i].price == r.price;
      assert levels[1..][i] == levels[i + 1];
    }
  }

  /** A well-formed tree flattens to a sorted list of positive quantities. */
  lemma {:induction false} FlatOk(side: Side, levels: seq<Level>)
    requires TreeOk(side, levels)
    ensures Sorted(side, Flat(levels)) && Positive(Flat(levels))
  {
    if levels != [] {
      var l, rest := levels[0], levels[1..];
      TreeTail(side, levels);
      FlatOk(side, rest);
      var f := Flat(levels);
      assert LevelOk(l);
      forall i, j | 0 <= i < j < |f| ensures Key(side, f[i].price) <= Key(side, f[j].price) {
        if j >= |l.orders| {
          assert f[j] == Flat(rest)[j - |l.orders|];
          if i >= |l.orders| {
            assert f[i] == Flat(rest)[i - |l.orders|];
          } else {
            FlatMember(rest, f[j]);
          }
        }
      }
      forall i | 0 <= i < |f| ensures f[i].qty > 0 {
        if i >= |l.orders| { assert f[i] == Flat(rest)[i - |l.orders|]; }
      }
    }
  }
}
