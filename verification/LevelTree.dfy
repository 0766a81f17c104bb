/** The price-level trees of the shadow book: a sorted map from price to a FIFO
    queue, seen through what its flattened list of orders is. */
module LevelTree {
  import opened Orders
  import opened Matching
  import opened FlatBook

  function TreeGet(levels: seq<Level>, price: int): Option<seq<Resting>> {
    if levels == [] then None
    else if levels[0].price == price then Some(levels[0].orders)
    else TreeGet(levels[1..], price)
  }

  function TreePut(side: Side, levels: seq<Level>, price: int, orders: seq<Resting>): seq<Level> {
    if levels == [] || Key(side, price) < Key(side, levels[0].price) then [Level(price, orders)] + levels
    else if levels[0].price == price then [Level(price, orders)] + levels[1..]
    else [levels[0]] + TreePut(side, levels[1..], price, orders)
  }

  function TreeRemove(levels: seq<Level>, price: int): seq<Level> {
    if levels == [] then []
    else if levels[0].price == price then levels[1..]
    else [levels[0]] + TreeRemove(levels[1..], price)
  }

  function Queue(levels: seq<Level>, price: int): seq<Resting> {
    match TreeGet(levels, price) case None => [] case Some(q) => q
  }

  /** addOrderToBook: push to the back of the level of its price, a new one if need be. */
  function AddOrder(side: Side, levels: seq<Level>, r: Resting): seq<Level> {
    TreePut(side, levels, r.price, Queue(levels, r.price) + [r])
  }

  /** removeRestingOrder: take one order out of the level of its price. */
  function RemoveOrder(side: Side, levels: seq<Level>, price: int, id: Id): seq<Level> {
    var q := Without(Queue(levels, price), id);
    if q == [] then TreeRemove(levels, price) else TreePut(side, levels, price, q)
  }

  lemma ConsTree(side: Side, l: Level, rest: seq<Level>)
    requires LevelOk(l) && TreeOk(side, rest)
    requires forall i :: 0 <= i < |rest| ==> Key(side, l.price) < Key(side, rest[i].price)
    ensures TreeOk(side, [l] + rest)
  {
  }

  lemma {:induction false} PutPrices(side: Side, levels: seq<Level>, price: int, orders: seq<Resting>, l: Level)
    requires l in TreePut(side, levels, price, orders)
    ensures l.price == price || l in levels
  {
    if levels != [] && Key(side, price) >= Key(side, levels[0].price) && levels[0].price != price {
      if l != levels[0] { PutPrices(side, levels[1..], price, orders, l); }
    }
  }

  lemma {:induction false} PutOk(side: Side, levels: seq<Level>, price: int, orders: seq<Resting>)
    requires TreeOk(side, levels) && LevelOk(Level(price, orders))
    ensures TreeOk(side, TreePut(side, levels, price, orders))
  {
    if levels == [] {
    } else if Key(side, price) < Key(side, levels[0].price) {
      ConsTree(side, Level(price, orders), levels);
    } else {
      TreeTail(side, levels);
      if levels[0].price == price {
        ConsTree(side, Level(price, orders), levels[1..]);
      } else {
        PutOk(side, levels[1..], price, orders);
        var rest := TreePut(side, levels[1..], price, orders);
        forall i | 0 <= i < |rest| ensures Key(side, levels[0].price) < Key(side, rest[i].price) {
          PutPrices(side, levels[1..], price, orders, rest[i]);
        }
        ConsTree(side, levels[0], rest);
      }
    }
  }

  lemma {:induction false} GetOk(side: Side, levels: seq<Level>, price: int)
    requires TreeOk(side, levels)
    ensures TreeGet(levels, price).Some? ==> LevelOk(Level(price, TreeGet(levels, price).value))
  {
    if levels != [] && levels[0].price != price {
      TreeTail(side, levels);
      GetOk(side, levels[1..], price);
    }
  }

  lemma {:induction false} GetAbsent(side: Side, levels: seq<Level>, price: int)
    requires TreeOk(side, levels) && (levels == [] || Key(side, price) < Key(side, levels[0].price))
    ensures TreeGet(levels, price).None?
  {
    if levels != [] {
      TreeTail(side, levels);
      if |levels| > 1 { assert Key(side, levels[0].price) < Key(side, levels[1].price); }
      GetAbsent(side, levels[1..], price);
    }
  }

  lemma {:induction false} InsertSkips(side: Side, a: seq<Resting>, b: seq<Resting>, r: Resting)
    requires forall i :: 0 <= i < |a| ==> Key(side, a[i].price) <= Key(side, r.price)
    ensures Insert(side, a + b, r) == a + Insert(side, b, r)
  {
    if a == [] {
      assert a + b == b;
    } else {
      assert (a + b)[1..] == a[1..] + b;
      InsertSkips(side, a[1..], b, r);
    }
  }

  /** Resting an order: the flat list with levels is the flat list without. */
  lemma {:induction false} AddIsInsert(side: Side, levels: seq<Level>, r: Resting)
    requires TreeOk(side, levels) && r.qty > 0 && side != OtherSide
    ensures Flat(AddOrder(side, levels, r)) == Insert(side, Flat(levels), r)
    ensures TreeOk(side, AddOrder(side, levels, r))
  {
    GetOk(side, levels, r.price);
    PutOk(side, levels, r.price, Queue(levels, r.price) + [r]);
    if levels == [] || Key(side, r.price) < Key(side, levels[0].price) {
      AddInFront(side, levels, r);
    } else {
      var l, rest := levels[0], levels[1..];
      TreeTail(side, levels);
      assert LevelOk(l);
      InsertSkips(side, l.orders, Flat(rest), r);
      if l.price == r.price {
        AddToFirst(side, levels, r);
      } else {
        AddIsInsert(side, rest, r);
        assert AddOrder(side, levels, r) == [l] + AddOrder(side, rest, r);
      }
    }
  }

  lemma AddInFront(side: Side, levels: seq<Level>, r: Resting)
    requires TreeOk(side, levels) && (levels == [] || Key(side, r.price) < Key(side, levels[0].price))
    ensures Flat(AddOrder(side, levels, r)) == Insert(side, Flat(levels), r)
  {
    GetAbsent(side, levels, r.price);
    FirstInFront(side, levels);
    var more := [Level(r.price, [] + [r])] + levels;
    assert more[1..] == levels && more == AddOrder(side, levels, r);
  }

  /** The first order of the flat list is the first of the best level. */
  lemma FirstInFront(side: Side, levels: seq<Level>)
    requires TreeOk(side, levels)
    ensures levels == [] ==> Flat(levels) == []
    ensures levels != [] ==> Flat(levels) != [] && Flat(levels)[0].price == levels[0].price
  {
    if levels != [] { assert LevelOk(levels[0]) && Flat(levels)[0] == levels[0].orders[0]; }
  }

  lemma AddToFirst(side: Side, levels: seq<Level>, r: Resting)
    requires TreeOk(side, levels) && levels != [] && levels[0].price == r.price && side != OtherSide
    ensures Flat(AddOrder(side, levels, r)) == levels[0].orders + Insert(side, Flat(levels[1..]), r)
  {
    var l, rest := levels[0], levels[1..];
    assert AddOrder(side, levels, r) == [Level(r.price, l.orders + [r])] + rest;
    assert ([Level(r.price, l.orders + [r])] + rest)[1..] == rest;
    if rest != [] {
      assert Key(side, l.price) < Key(side, rest[0].price);
      assert LevelOk(rest[0]);
      assert Flat(rest)[0] == rest[0].orders[0];
    }
    assert l.orders + [r] + Flat(rest) == l.orders + ([r] + Flat(rest));
  }

  lemma {:induction false} WithoutSkips(a: seq<Resting>, b: seq<Resting>, id: Id)
    ensures id !in Ids(a) ==> Without(a + b, id) == a + Without(b, id)
    ensures id in Ids(a) ==> Without(a + b, id) == Without(a, id) + b
  {
    if a == [] {
      assert a + b == b;
    } else {
      IdsHead(a);
      hide Ids;
      var head, rest := [a[0]], a[1..];
      assert (a + b)[0] == a[0] && (a + b)[1..] == rest + b;
      WithoutSkips(rest, b, id);
      assert Without(a + b, id) == if a[0].id == id then rest + b else head + Without(rest + b, id);
      assert Without(a, id) == if a[0].id == id then rest else head + Without(rest, id);
      hide Without;
      assert a == head + rest;
      assert head + (rest + Without(b, id)) == head + rest + Without(b, id);
      assert head + (Without(rest, id) + b) == head + Without(rest, id) + b;
    }
  }

  lemma IdsHead(book: seq<Resting>)
    requires book != []
    ensures Ids(book) == {book[0].id} + Ids(book[1..])
  {
    assert book == [book[0]] + book[1..];
  }

  lemma {:induction false} QueueInFlat(levels: seq<Level>, price: int)
    ensures Ids(Queue(levels, price)) <= Ids(Flat(levels))
  {
    if levels != [] {
      FlatIds(levels);
      if levels[0].price != price { QueueInFlat(levels[1..], price); }
    }
  }

  lemma FlatIds(levels: seq<Level>)
    requires levels != []
    ensures Ids(Flat(levels)) == Ids(levels[0].orders) + Ids(Flat(levels[1..]))
  {
    var a, b := levels[0].orders, Flat(levels[1..]);
    assert forall r :: r in a ==> r in a + b;
    assert forall r :: r in b ==> r in a + b;
  }

  lemma DistinctParts(a: seq<Resting>, b: seq<Resting>)
    requires Distinct(a + b)
    ensures Distinct(a) && Distinct(b) && Ids(a) !! Ids(b)
  {
    assert forall i :: 0 <= i < |a| ==> (a + b)[i] == a[i];
    assert forall i :: 0 <= i < |b| ==> (a + b)[|a| + i] == b[i];
  }

  lemma WithoutLevelOk(l: Level, id: Id)
    requires LevelOk(l) && Without(l.orders, id) != []
    ensures LevelOk(Level(l.price, Without(l.orders, id)))
  {
    var q := Without(l.orders, id);
    forall i | 0 <= i < |q| ensures q[i].price == l.price && q[i].qty > 0 { WithoutMember(l.orders, id, q[i]); }
  }

  /** Cancelling: taking the order out of its level is taking it out of the list. */
  lemma {:induction false} RemoveIsWithout(side: Side, levels: seq<Level>, price: int, id: Id)
    requires TreeOk(side, levels) && Distinct(Flat(levels)) && id in Ids(Queue(levels, price)) && side != OtherSide
    ensures Flat(RemoveOrder(side, levels, price, id)) == Without(Flat(levels), id)
    ensures TreeOk(side, RemoveOrder(side, levels, price, id))
  {
    assert levels != [];
    var l, rest := levels[0], levels[1..];
    TreeTail(side, levels);
    assert LevelOk(l);
    DistinctParts(l.orders, Flat(rest));
    WithoutSkips(l.orders, Flat(rest), id);
    if l.price == price {
      RemoveFromFirst(side, levels, id);
    } else {
      QueueInFlat(rest, price);
      RemoveIsWithout(side, rest, price, id);
      RemoveFromLater(side, levels, price, id);
    }
  }

  lemma RemoveFromFirst(side: Side, levels: seq<Level>, id: Id)
    requires TreeOk(side, levels) && levels != []
    ensures var l, rest := levels[0], levels[1..];
            Flat(RemoveOrder(side, levels, l.price, id)) == Without(l.orders, id) + Flat(rest)
            && TreeOk(side, RemoveOrder(side, levels, l.price, id))
  {
    var l, rest := levels[0], levels[1..];
    var q := Without(l.orders, id);
    TreeTail(side, levels);
    assert LevelOk(l);
    if q == [] {
      assert q + Flat(rest) == Flat(rest);
    } else {
      WithoutLevelOk(l, id);
      ConsTree(side, Level(l.price, q), rest);
      assert ([Level(l.price, q)] + rest)[1..] == rest;
    }
  }

  lemma RemoveFromLater(side: Side, levels: seq<Level>, price: int, id: Id)
    requires TreeOk(side, levels) && levels != [] && levels[0].price != price && side != OtherSide
    requires id in Ids(Queue(levels[1..], price)) && TreeOk(side, RemoveOrder(side, levels[1..], price, id))
    ensures RemoveOrder(side, levels, price, id) == [levels[0]] + RemoveOrder(side, levels[1..], price, id)
    ensures Flat(RemoveOrder(side, levels, price, id))
         == levels[0].orders + Flat(RemoveOrder(side, levels[1..], price, id))
    ensures TreeOk(side, RemoveOrder(side, levels, price, id))
  {
    var l, rest := levels[0], levels[1..];
    TreeTail(side, levels);
    if Key(side, price) < Key(side, l.price) {
      if rest != [] { assert Key(side, l.price) < Key(side, rest[0].price); }
      GetAbsent(side, rest, price);
      assert false;
    }
    var r := RemoveOrder(side, rest, price, id);
    assert RemoveOrder(side, levels, price, id) == [l] + r;
    assert ([l] + r)[1..] == r;
    forall i | 0 <= i < |r| ensures Key(side, l.price) < Key(side, r[i].price) {
      RemovePrices(side, rest, price, id, r[i]);
    }
    assert LevelOk(l);
    ConsTree(side, l, r);
  }

  lemma {:induction false} RemovePrices(side: Side, levels: seq<Level>, price: int, id: Id, l: Level)
    requires l in RemoveOrder(side, levels, price, id)
    requires TreeGet(levels, price).Some?
    ensures exists i :: 0 <= i < |levels| && levels[i].price == l.price
  {
    GetAt(levels, price);
    var q := Without(Queue(levels, price), id);
    if q == [] {
      TreeRemoveSubset(levels, price, l);
      var i :| 0 <= i < |levels| && levels[i] == l;
    } else {
      PutPrices(side, levels, price, q, l);
      if l.price != price { var i :| 0 <= i < |levels| && levels[i] == l; }
    }
  }

  lemma {:induction false} GetAt(levels: seq<Level>, price: int)
    requires TreeGet(levels, price).Some?
    ensures exists i :: 0 <= i < |levels| && levels[i].price == price
  {
    if levels[0].price != price {
      GetAt(levels[1..], price);
      var i :| 0 <= i < |levels[1..]| && levels[1..][i].price == price;
      assert levels[i + 1].price == price;
    }
  }

  lemma {:induction false} TreeRemoveSubset(levels: seq<Level>, price: int, l: Level)
    requires l in TreeRemove(levels, price)
    ensures l in levels
  {
    if levels[0].price != price && l != levels[0] { TreeRemoveSubset(levels[1..], price, l); }
  }

  /** Every order of the flat list is found in the level of its own price. */
  lemma {:induction false} OrderIsAtItsPrice(side: Side, levels: seq<Level>, r: Resting)
    requires TreeOk(side, levels) && r in Flat(levels)
    ensures r in Queue(levels, r.price)
  {
    var l, rest := levels[0], levels[1..];
    assert LevelOk(l);
    TreeTail(side, levels);
    if r in l.orders {
    } else {
      OrderIsAtItsPrice(side, rest, r);
      FlatMember(rest, r);
      var i :| 0 <= i < |rest| && rest[i].price == r.price;
      assert levels[i + 1] == rest[i];
      assert Key(side, l.price) < Key(side, rest[i].price);
    }
  }

  // ---------------------------------------------------------------- levels emptied by a match

  function NonEmpty(levels: seq<Level>): seq<Level> {
    if levels == [] then [] else KeepLevel(levels[0].price, levels[0].orders) + NonEmpty(levels[1..])
  }

  function EmptyPrices(levels: seq<Level>): seq<int> {
    if levels == [] then []
    else (if levels[0].orders == [] then [levels[0].price] else []) + EmptyPrices(levels[1..])
  }

  function RemoveAll(levels: seq<Level>, prices: seq<int>): seq<Level>
    decreases prices
  {
    if prices == [] then levels else RemoveAll(TreeRemove(levels, prices[0]), prices[1..])
  }

  predicate DistinctPrices(levels: seq<Level>) {
    forall i, j :: 0 <= i < j < |levels| ==> levels[i].price != levels[j].price
  }

  lemma {:induction false} RemoveAllSkips(l: Level, rest: seq<Level>, prices: seq<int>)
    requires l.price !in prices
    ensures RemoveAll([l] + rest, prices) == [l] + RemoveAll(rest, prices)
    decreases prices
  {
    if prices != [] {
      assert ([l] + rest)[1..] == rest;
      RemoveAllSkips(l, TreeRemove(rest, prices[0]), prices[1..]);
    }
  }

  lemma {:induction false} EmptyPricesAreLevels(levels: seq<Level>, p: int)
    requires p in EmptyPrices(levels)
    ensures exists i :: 0 <= i < |levels| && levels[i].price == p
  {
    if levels[0].price != p {
      EmptyPricesAreLevels(levels[1..], p);
      var i :| 0 <= i < |levels[1..]| && levels[1..][i].price == p;
      assert levels[i + 1].price == p;
    }
  }

  /** Removing the emptied prices one by one leaves exactly the levels that still hold orders. */
  lemma {:induction false} RemoveEmpties(levels: seq<Level>)
    requires DistinctPrices(levels)
    ensures RemoveAll(levels, EmptyPrices(levels)) == NonEmpty(levels)
  {
    if levels != [] {
      var l, rest := levels[0], levels[1..];
      assert forall i :: 0 <= i < |rest| ==> rest[i] == levels[i + 1];
      RemoveEmpties(rest);
      assert levels == [l] + rest;
      if l.orders != [] {
        if l.price in EmptyPrices(rest) {
          EmptyPricesAreLevels(rest, l.price);
        }
        RemoveAllSkips(l, rest, EmptyPrices(rest));
        assert EmptyPrices(levels) == EmptyPrices(rest);
        assert KeepLevel(l.price, l.orders) == [l];
      } else {
        assert EmptyPrices(levels) == [l.price] + EmptyPrices(rest);
        assert ([l.price] + EmptyPrices(rest))[1..] == EmptyPrices(rest);
      }
    }
  }

  lemma {:induction false} NonEmptySnoc(levels: seq<Level>, l: Level)
    ensures NonEmpty(levels + [l]) == NonEmpty(levels) + KeepLevel(l.price, l.orders)
    ensures EmptyPrices(levels + [l]) == EmptyPrices(levels) + if l.orders == [] then [l.price] else []
  {
    if levels == [] {
      assert levels + [l] == [l] && [l][1..] == [];
    } else {
      assert (levels + [l])[1..] == levels[1..] + [l];
      NonEmptySnoc(levels[1..], l);
      var k := KeepLevel(levels[0].price, levels[0].orders);
      assert k + (NonEmpty(levels[1..]) + KeepLevel(l.price, l.orders))
          == k + NonEmpty(levels[1..]) + KeepLevel(l.price, l.orders);
    }
  }

  lemma {:induction false} NonEmptyAppend(a: seq<Level>, b: seq<Level>)
    requires forall i :: 0 <= i < |b| ==> b[i].orders != []
    ensures NonEmpty(a + b) == NonEmpty(a) + b && EmptyPrices(a + b) == EmptyPrices(a)
  {
    if b == [] {
      assert a + b == a;
    } else {
      var n := |b| - 1;
      assert a + b == (a + b[..n]) + [b[n]];
      NonEmptyAppend(a, b[..n]);
      NonEmptySnoc(a + b[..n], b[n]);
      assert b == b[..n] + [b[n]];
      assert KeepLevel(b[n].price, b[n].orders) == [b[n]];
    }
  }
}
