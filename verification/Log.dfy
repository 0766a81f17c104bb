/** The log a run of the judge leaves behind: every expected and reported fill,
    every moment an order's record may be cleaned up, every quantity that leaves
    the book unfilled, and every violation. */
module Log {
  import opened Orders

  datatype Emit =
    | Exp(fill: Fill)             // recordExpectedFill
    | Act(fill: Fill)             // a fill reported by the engine
    | Clean(id: Id)               // checkCleanup past its pending and resting guards
    | Drop(id: Id, qty: int)      // quantity of an order that will never trade
    | Duplicate
    | UnknownAck
    | BadAck

  function Qty(fills: seq<Fill>): int {
    if fills == [] then 0 else fills[0].qty + Qty(fills[1..])
  }

  lemma {:induction false} QtyAppend(a: seq<Fill>, b: seq<Fill>)
    ensures Qty(a + b) == Qty(a) + Qty(b)
  {
    if a == [] {
      assert a + b == b;
    } else {
      assert (a + b)[1..] == a[1..] + b;
      QtyAppend(a[1..], b);
    }
  }

  predicate IsFill(e: Emit, expected: bool) { if expected then e.Exp? else e.Act? }

  /** The whole history of one order: its expected or its reported fills. */
  function Hist(log: seq<Emit>, id: Id, expected: bool): seq<Fill> {
    if log == [] then []
    else
      var e := log[|log| - 1];
      Hist(log[..|log| - 1], id, expected)
      + if IsFill(e, expected) && e.fill.orderId == id then [e.fill] else []
  }

  /** All expected, or all reported, fills of the run in order. */
  function Fills(log: seq<Emit>, expected: bool): seq<Fill> {
    if log == [] then []
    else
      var e := log[|log| - 1];
      Fills(log[..|log| - 1], expected) + if IsFill(e, expected) then [e.fill] else []
  }

  function ExpIds(log: seq<Emit>): set<Id> {
    if log == [] then {}
    else
      var e := log[|log| - 1];
      ExpIds(log[..|log| - 1]) + if e.Exp? then {e.fill.orderId} else {}
  }

  function Dropped(log: seq<Emit>, id: Id): int {
    if log == [] then 0
    else
      var e := log[|log| - 1];
      Dropped(log[..|log| - 1], id) + if e.Drop? && e.id == id then e.qty else 0
  }

  /** Orders that were offered for cleanup after they had traded. */
  function Retired(log: seq<Emit>): set<Id> {
    if log == [] then {}
    else
      var prev, e := log[..|log| - 1], log[|log| - 1];
      Retired(prev) + if e.Clean? && e.id in ExpIds(prev) then {e.id} else {}
  }

  /** No fill is expected of an order once it has been retired. */
  predicate Tidy(log: seq<Emit>) {
    log == [] ||
    var prev, e := log[..|log| - 1], log[|log| - 1];
    Tidy(prev) && (e.Exp? ==> e.fill.orderId !in Retired(prev))
  }

  function Count(log: seq<Emit>, kind: Emit): nat {
    if log == [] then 0
    else Count(log[..|log| - 1], kind) + if log[|log| - 1] == kind then 1 else 0
  }

  predicate PositiveFills(log: seq<Emit>) {
    forall i :: 0 <= i < |log| && (log[i].Exp? || log[i].Act?) ==> log[i].fill.qty > 0
  }

  lemma LogSnoc(log: seq<Emit>, e: Emit)
    ensures Tidy(log + [e]) == (Tidy(log) && (e.Exp? ==> e.fill.orderId !in Retired(log)))
    ensures Retired(log + [e]) == Retired(log) + (if e.Clean? && e.id in ExpIds(log) then {e.id} else {})
    ensures ExpIds(log + [e]) == ExpIds(log) + (if e.Exp? then {e.fill.orderId} else {})
    ensures PositiveFills(log + [e]) == (PositiveFills(log) && (e.Exp? || e.Act? ==> e.fill.qty > 0))
  {
    var all := log + [e];
    assert all[..|all| - 1] == log;
    assert forall i :: 0 <= i < |log| ==> all[i] == log[i];
    assert all[|log|] == e;
  }

  lemma HistSnoc(log: seq<Emit>, e: Emit, id: Id, x: bool)
    ensures Hist(log + [e], id, x)
         == if IsFill(e, x) && e.fill.orderId == id then Hist(log, id, x) + [e.fill] else Hist(log, id, x)
    ensures Fills(log + [e], x) == if IsFill(e, x) then Fills(log, x) + [e.fill] else Fills(log, x)
    ensures Dropped(log + [e], id) == Dropped(log, id) + (if e.Drop? && e.id == id then e.qty else 0)
  {
    assert (log + [e])[..|log|] == log;
  }

  lemma {:induction false} HistAppend(a: seq<Emit>, b: seq<Emit>, id: Id, x: bool)
    ensures Hist(a + b, id, x) == Hist(a, id, x) + Hist(b, id, x)
    ensures Fills(a + b, x) == Fills(a, x) + Fills(b, x)
    ensures Dropped(a + b, id) == Dropped(a, id) + Dropped(b, id)
  {
    hide Hist, Fills, Dropped;
    if b == [] {
      HistNone(id, x);
      assert a + b == a;
      assert Hist(a, id, x) + [] == Hist(a, id, x) && Fills(a, x) + [] == Fills(a, x);
    } else {
      var init, e := b[..|b| - 1], b[|b| - 1];
      assert b == init + [e] && a + b == (a + init) + [e];
      HistAppend(a, init, id, x);
      HistSnoc(a + init, e, id, x);
      HistSnoc(init, e, id, x);
      assert (Hist(a, id, x) + Hist(init, id, x)) + (if IsFill(e, x) then [e.fill] else [])
          == Hist(a, id, x) + (Hist(init, id, x) + (if IsFill(e, x) then [e.fill] else []));
      assert (Fills(a, x) + Fills(init, x)) + (if IsFill(e, x) then [e.fill] else [])
          == Fills(a, x) + (Fills(init, x) + (if IsFill(e, x) then [e.fill] else []));
    }
  }

  lemma HistNone(id: Id, x: bool)
    ensures Hist([], id, x) == [] && Fills([], x) == [] && Dropped([], id) == 0
  {
  }

  /** A log of one emit. */
  lemma HistOne(e: Emit, id: Id, x: bool)
    ensures Hist([e], id, x) == if IsFill(e, x) && e.fill.orderId == id then [e.fill] else []
    ensures Fills([e], x) == if IsFill(e, x) then [e.fill] else []
    ensures Dropped([e], id) == if e.Drop? && e.id == id then e.qty else 0
  {
    assert [e][..0] == [];
  }

  lemma QtyOne(f: Fill)
    ensures Qty([f]) == f.qty
  {
    assert [f][1..] == [];
  }

  /** An order has an expected history exactly when it traded, and every entry is its own. */
  lemma {:induction false} HistOwn(log: seq<Emit>, id: Id, x: bool)
    ensures forall i :: 0 <= i < |Hist(log, id, x)| ==> Hist(log, id, x)[i].orderId == id
    ensures PositiveFills(log) ==>
              forall i :: 0 <= i < |Hist(log, id, x)| ==> Hist(log, id, x)[i].qty > 0
    ensures x ==> (Hist(log, id, x) != [] <==> id in ExpIds(log))
  {
    if log != [] {
      var prev := log[..|log| - 1];
      HistOwn(prev, id, x);
      assert PositiveFills(log) ==> PositiveFills(prev) by {
        assert log == prev + [log[|log| - 1]];
        LogSnoc(prev, log[|log| - 1]);
      }
    }
  }

  /** Equal streams of fills give every order equal histories. */
  lemma {:induction false} HistIsFilter(log: seq<Emit>, id: Id, x: bool)
    ensures Hist(log, id, x) == Of(Fills(log, x), id)
  {
    if log != [] {
      var prev := log[..|log| - 1];
      HistIsFilter(prev, id, x);
      var e := log[|log| - 1];
      var f := Fills(prev, x);
      if IsFill(e, x) {
        assert (f + [e.fill])[..|f|] == f;
      } else {
        assert Fills(log, x) == f;
      }
    }
  }

  function Of(fills: seq<Fill>, id: Id): seq<Fill> {
    if fills == [] then []
    else
      var f := fills[|fills| - 1];
      Of(fills[..|fills| - 1], id) + if f.orderId == id then [f] else []
  }
}
