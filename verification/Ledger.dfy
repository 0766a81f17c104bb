/** The judge's books on fills: expected against reported histories, the cleanup
    of orders that already match, and the final score. */
module Ledger {
  import opened Orders
  import opened Log
  import opened Sums

  // ---------------------------------------------------------------- folding partial fills

  predicate Mergeable(a: Fill, b: Fill) { a.price == b.price && a.matchedWith == b.matchedWith }

  function FoldFrom(cur: Fill, rest: seq<Fill>): seq<Fill>
    decreases rest
  {
    if rest == [] then [cur]
    else if Mergeable(rest[0], cur) then FoldFrom(cur.(qty := cur.qty + rest[0].qty), rest[1..])
    else [cur] + FoldFrom(rest[0], rest[1..])
  }

  /** Merge consecutive fills of the same price and counterparty. */
  function Fold(fills: seq<Fill>): seq<Fill> {
    if |fills| <= 1 then fills else FoldFrom(fills[0], fills[1..])
  }

  function Value(fills: seq<Fill>): int {
    if fills == [] then 0 else fills[0].qty * fills[0].price + Value(fills[1..])
  }

  predicate AllPositive(fills: seq<Fill>) { forall i :: 0 <= i < |fills| ==> fills[i].qty > 0 }

  predicate AllOf(fills: seq<Fill>, id: Id) { forall i :: 0 <= i < |fills| ==> fills[i].orderId == id }

  lemma {:induction false} FoldFromKeeps(cur: Fill, rest: seq<Fill>, id: Id)
    ensures var r := FoldFrom(cur, rest);
            && r != [] && Qty(r) == cur.qty + Qty(rest)
            && Value(r) == cur.qty * cur.price + Value(rest)
            && (cur.qty > 0 && AllPositive(rest) ==> AllPositive(r))
            && (cur.orderId == id && AllOf(rest, id) ==> AllOf(r, id))
    decreases rest
  {
    if rest == [] {
      assert [cur][1..] == [];
    } else if Mergeable(rest[0], cur) {
      FoldFromKeeps(cur.(qty := cur.qty + rest[0].qty), rest[1..], id);
      assert (cur.qty + rest[0].qty) * cur.price == cur.qty * cur.price + rest[0].qty * cur.price;
    } else {
      FoldFromKeeps(rest[0], rest[1..], id);
      assert ([cur] + FoldFrom(rest[0], rest[1..]))[1..] == FoldFrom(rest[0], rest[1..]);
    }
  }

  /** Folding keeps quantity, value, sign and owner, and loses nothing but grouping. */
  lemma FoldKeeps(fills: seq<Fill>, id: Id)
    ensures var r := Fold(fills);
            && (r == [] <==> fills == []) && Qty(r) == Qty(fills) && Value(r) == Value(fills)
            && (AllPositive(fills) ==> AllPositive(r)) && (AllOf(fills, id) ==> AllOf(r, id))
  {
    if |fills| > 1 { FoldFromKeeps(fills[0], fills[1..], id); }
  }

  /** The comparison loop of checkCleanup: everything but the owner. */
  predicate Alike(a: seq<Fill>, b: seq<Fill>) {
    |a| == |b|
    && forall i :: 0 <= i < |a| ==>
         a[i].qty == b[i].qty && a[i].price == b[i].price && a[i].matchedWith == b[i].matchedWith
  }

  lemma AlikeOwn(a: seq<Fill>, b: seq<Fill>, id: Id)
    requires AllOf(a, id) && AllOf(b, id)
    ensures Alike(a, b) <==> a == b
  {
  }

  // ---------------------------------------------------------------- comparing histories

  function QtyAt(fills: seq<Fill>, p: int): int {
    if fills == [] then 0 else (if fills[0].price == p then fills[0].qty else 0) + QtyAt(fills[1..], p)
  }

  function Prices(fills: seq<Fill>): set<int> { set f | f in fills :: f.price }

  /** matchingQtyByPrice */
  ghost function PriceMatched(e: seq<Fill>, a: seq<Fill>): int {
    Sum(Prices(e), p => Min(QtyAt(e, p), QtyAt(a, p)))
  }

  function Tail<T>(s: seq<T>): seq<T> { if s == [] then [] else s[1..] }

  predicate SameFill(e: Fill, a: Fill) { a.qty == e.qty && a.price == e.price && a.matchedWith == e.matchedWith }

  /** priorityMatchedQty */
  function PrioMatched(e: seq<Fill>, a: seq<Fill>): int {
    if e == [] then 0
    else (if a != [] && SameFill(e[0], a[0]) then e[0].qty else 0) + PrioMatched(e[1..], Tail(a))
  }

  /** What priorityMatchedQty adds to the violation counter: expected fills not met in
      their position, and reported fills beyond the expected ones. */
  function PrioViolations(e: seq<Fill>, a: seq<Fill>): nat {
    if e == [] then |a|
    else (if a != [] && SameFill(e[0], a[0]) then 0 else 1) + PrioViolations(e[1..], Tail(a))
  }

  /** No violation is counted exactly when the lists agree position by position. */
  lemma {:induction false} NoViolationIsAlike(e: seq<Fill>, a: seq<Fill>)
    ensures PrioViolations(e, a) == 0 <==> Alike(e, a)
  {
    if e != [] {
      NoViolationIsAlike(e[1..], Tail(a));
      if a != [] {
        assert Alike(e, a) <==> SameFill(e[0], a[0]) && Alike(e[1..], a[1..]) by {
          assert e == [e[0]] + e[1..] && a == [a[0]] + a[1..];
        }
      }
    }
  }

  lemma {:induction false} QtyByPrice(fills: seq<Fill>, s: set<int>)
    requires Prices(fills) <= s
    ensures Sum(s, p => QtyAt(fills, p)) == Qty(fills)
  {
    if fills == [] {
      SumOnly(s, p => QtyAt(fills, p), 0);
    } else {
      var f, rest := fills[0], fills[1..];
      assert forall x :: x in rest ==> x in fills;
      QtyByPrice(rest, s);
      SumPlus(s, p => QtyAt(fills, p), p => if f.price == p then f.qty else 0, p => QtyAt(rest, p));
      SumOnly(s, p => if f.price == p then f.qty else 0, f.price);
      assert f in fills;
    }
  }

  lemma {:induction false} QtyAtNonNegative(fills: seq<Fill>, p: int)
    requires AllPositive(fills)
    ensures QtyAt(fills, p) >= 0 && Qty(fills) >= 0 && (fills != [] ==> Qty(fills) > 0)
  {
    if fills != [] { QtyAtNonNegative(fills[1..], p); }
  }

  function PrioAt(e: seq<Fill>, a: seq<Fill>, p: int): int {
    if e == [] then 0
    else (if a != [] && SameFill(e[0], a[0]) && e[0].price == p then e[0].qty else 0) + PrioAt(e[1..], Tail(a), p)
  }

  lemma {:induction false} PrioAtBound(e: seq<Fill>, a: seq<Fill>, p: int)
    requires AllPositive(e) && AllPositive(a)
    ensures PrioAt(e, a, p) <= QtyAt(e, p) && PrioAt(e, a, p) <= QtyAt(a, p)
  {
    if e == [] {
      QtyAtNonNegative(a, p);
    } else {
      PrioAtBound(e[1..], Tail(a), p);
    }
  }

  lemma {:induction false} PrioByPrice(e: seq<Fill>, a: seq<Fill>, s: set<int>)
    requires Prices(e) <= s
    ensures Sum(s, p => PrioAt(e, a, p)) == PrioMatched(e, a)
  {
    if e == [] {
      SumOnly(s, p => PrioAt(e, a, p), 0);
    } else {
      var hit := if a != [] && SameFill(e[0], a[0]) then e[0].qty else 0;
      var pe, rest, ra := e[0].price, e[1..], Tail(a);
      assert forall x :: x in rest ==> x in e;
      PrioByPrice(rest, ra, s);
      SumPlus(s, p => PrioAt(e, a, p), p => if pe == p then hit else 0, p => PrioAt(rest, ra, p));
      SumOnly(s, p => if pe == p then hit else 0, pe);
      assert e[0] in e;
    }
  }

  /** Priority-matched ≤ price-matched ≤ min(expected, reported). */
  lemma MatchedBounds(e: seq<Fill>, a: seq<Fill>)
    requires AllPositive(e) && AllPositive(a)
    ensures 0 <= PrioMatched(e, a) <= PriceMatched(e, a) <= Min(Qty(e), Qty(a))
  {
    var s, all := Prices(e), Prices(e) + Prices(a);
    var min := p => Min(QtyAt(e, p), QtyAt(a, p));
    PrioNonNegative(e, a);
    PrioByPrice(e, a, s);
    forall p | p in s ensures PrioAt(e, a, p) <= min(p) { PrioAtBound(e, a, p); }
    SumLe(s, p => PrioAt(e, a, p), min);
    SumLe(s, min, p => QtyAt(e, p));
    QtyByPrice(e, s);
    SumLe(s, min, p => QtyAt(a, p));
    forall p | p in all ensures QtyAt(a, p) >= 0 { QtyAtNonNegative(a, p); }
    SumMono(s, all, p => QtyAt(a, p));
    QtyByPrice(a, all);
  }

  lemma {:induction false} PrioNonNegative(e: seq<Fill>, a: seq<Fill>)
    requires AllPositive(e)
    ensures PrioMatched(e, a) >= 0
  {
    if e != [] { PrioNonNegative(e[1..], Tail(a)); }
  }

  lemma {:induction false} AlikeSums(e: seq<Fill>, a: seq<Fill>, p: int)
    requires Alike(e, a)
    ensures QtyAt(e, p) == QtyAt(a, p) && Qty(e) == Qty(a) && Value(e) == Value(a)
    ensures PrioMatched(e, a) == Qty(e)
  {
    if e != [] { AlikeSums(e[1..], a[1..], p); }
  }

  lemma AlikePrice(e: seq<Fill>, a: seq<Fill>)
    requires Alike(e, a)
    ensures PriceMatched(e, a) == Qty(e)
  {
    var s := Prices(e);
    forall p ensures QtyAt(e, p) == QtyAt(a, p) { AlikeSums(e, a, p); }
    SumLe(s, p => Min(QtyAt(e, p), QtyAt(a, p)), p => QtyAt(e, p));
    SumLe(s, p => QtyAt(e, p), p => Min(QtyAt(e, p), QtyAt(a, p)));
    QtyByPrice(e, s);
  }

  /** If every expected fill is met position by position and nothing is left over,
      the lists are alike. */
  lemma {:induction false} FullPriority(e: seq<Fill>, a: seq<Fill>)
    requires AllPositive(e) && AllPositive(a)
    requires PrioMatched(e, a) == Qty(e) && Qty(a) <= Qty(e)
    ensures Alike(e, a)
  {
    if e == [] {
      QtyAtNonNegative(a, 0);
    } else {
      PrioBelow(e[1..], Tail(a));
      FullPriority(e[1..], Tail(a));
    }
  }

  lemma {:induction false} PrioBelow(e: seq<Fill>, a: seq<Fill>)
    requires AllPositive(e)
    ensures PrioMatched(e, a) <= Qty(e)
  {
    if e != [] { PrioBelow(e[1..], Tail(a)); }
  }

  // ---------------------------------------------------------------- the ledger

  datatype Ledger = Ledger(
    expected: map<Id, seq<Fill>>, actual: map<Id, seq<Fill>>,
    done: Tally,                       // counters accumulated for cleaned-up orders
    badAcks: int, duplicates: int, unknownAcks: int)

  const BLANK: Ledger := Ledger(map[], map[], ZERO, 0, 0, 0)

  function Get(m: map<Id, seq<Fill>>, id: Id): seq<Fill> { if id in m then m[id] else [] }

  /** The test of checkCleanup: equal totals and equal folded lists. */
  predicate Settled(e: seq<Fill>, a: seq<Fill>) { Qty(e) == Qty(a) && Alike(Fold(e), Fold(a)) }

  /** The counters a settled order leaves behind. */
  function SettledTally(e: seq<Fill>, a: seq<Fill>): Tally {
    Tally(Qty(e), Qty(a), Qty(e), Qty(e), Value(Fold(e)), 0, 0)
  }

  function CleanUp(l: Ledger, id: Id): Ledger {
    var e, a := Get(l.expected, id), Get(l.actual, id);
    if Settled(e, a) then
      l.(done := Plus(l.done, SettledTally(e, a)), expected := l.expected - {id}, actual := l.actual - {id})
    else l
  }

  function Apply(l: Ledger, e: Emit): Ledger {
    match e
    case Exp(f) => l.(expected := l.expected[f.orderId := Get(l.expected, f.orderId) + [f]])
    case Act(f) => l.(actual := l.actual[f.orderId := Get(l.actual, f.orderId) + [f]])
    case Clean(id) => CleanUp(l, id)
    case Drop(_, _) => l
    case Duplicate => l.(duplicates := l.duplicates + 1)
    case UnknownAck => l.(unknownAcks := l.unknownAcks + 1)
    case BadAck => l.(badAcks := l.badAcks + 1)
  }

  function ApplyAll(l: Ledger, log: seq<Emit>): Ledger {
    if log == [] then l else Apply(ApplyAll(l, log[..|log| - 1]), log[|log| - 1])
  }

  lemma {:induction false} ApplyAppend(l: Ledger, a: seq<Emit>, b: seq<Emit>)
    ensures ApplyAll(l, a + b) == ApplyAll(ApplyAll(l, a), b)
  {
    if b == [] {
      assert a + b == a;
    } else {
      assert (a + b)[..|a + b| - 1] == a + b[..|b| - 1];
      ApplyAppend(l, a, b[..|b| - 1]);
    }
  }

  // ---------------------------------------------------------------- the score

  /** What one order contributes to the totals of GetCorrectnessScore. */
  ghost function Term(e: seq<Fill>, a: seq<Fill>): Tally {
    if e == [] then Tally(0, Qty(a), 0, 0, 0, 0, Qty(a))
    else
      var fe, fa := Fold(e), Fold(a);
      Tally(Qty(fe), Qty(fa), PriceMatched(fe, fa), PrioMatched(fe, fa), Value(fe), Abs(Value(fe) - Value(fa)),
            if Qty(fa) > Qty(fe) then Qty(fa) - Qty(fe) else 0)
  }

  ghost function Terms(l: Ledger): int -> Tally { id => Term(Get(l.expected, id), Get(l.actual, id)) }

  ghost function Totals(l: Ledger): Tally {
    Plus(l.done, Total(l.expected.Keys + l.actual.Keys, Terms(l)))
  }

  function Ratio(part: int, whole: int): real
    requires whole != 0
  {
    (Min(part, whole) as real) / (whole as real)
  }

  function Clamp(x: real): real { if x < 0.0 then 0.0 else if x > 100.0 then 100.0 else x }

  function Score(t: Tally, badAcks: int, duplicates: int, unknownAcks: int): real {
    if t.exp == 0 then
      if t.act > 0 || badAcks > 0 || duplicates > 0 || unknownAcks > 0 then 0.0 else 100.0
    else
      var quantity := Ratio(t.price, t.exp) * 70.0;
      var priority := Ratio(t.prio, t.exp) * 20.0;
      var value :=
        if t.value > 0 then
          var v := 10.0 * (1.0 - (t.diff as real) / (t.value as real));
          if 0.0 > v then 0.0 else v
        else 10.0;
      var phantom :=
        if t.phantom > 0 then
          var p := 25.0 * ((t.phantom as real) / (t.exp as real));
          if 25.0 < p then 25.0 else p
        else 0.0;
      Clamp(quantity + priority + value - phantom
            - (badAcks as real) * 2.0 - (duplicates as real) * 2.0 - (unknownAcks as real) * 2.0)
  }

  ghost function Judgement(l: Ledger): real { Score(Totals(l), l.badAcks, l.duplicates, l.unknownAcks) }

  lemma QuotientBound(d: int, w: int)
    requires w > 0
    ensures (d as real) / (w as real) >= 0.0 <==> d >= 0
    ensures (d as real) / (w as real) > 0.0 <==> d > 0
    ensures (d as real) / (w as real) <= 1.0 <==> d <= w
    ensures (d as real) / (w as real) == 1.0 <==> d == w
  {
  }

  /** A full score, in terms of the totals. */
  predicate FullMarks(t: Tally) {
    if t.exp == 0 then t.act <= 0
    else t.price >= t.exp && t.prio >= t.exp && (t.value > 0 ==> t.diff == 0) && t.phantom <= 0
  }

  lemma ScoreIsFull(t: Tally, badAcks: nat, duplicates: nat, unknownAcks: nat)
    requires t.exp >= 0 && t.diff >= 0
    ensures Score(t, badAcks, duplicates, unknownAcks) == 100.0
            <==> FullMarks(t) && badAcks == 0 && duplicates == 0 && unknownAcks == 0
  {
    if t.exp > 0 {
      QuotientBound(Min(t.price, t.exp), t.exp);
      QuotientBound(Min(t.prio, t.exp), t.exp);
      QuotientBound(t.phantom, t.exp);
      if t.value > 0 { QuotientBound(t.diff, t.value); }
    }
  }
}
