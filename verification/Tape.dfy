/** What folding means: two lists of fills fold to the same list exactly when they are the
    same trades unit by unit, however each was cut into partial fills. */
module Tape {
  import opened Orders
  import opened Log
  import opened Ledger
  import opened FlatBook
  import Judge
  import BookRuns

  /** One unit traded: at which price, with whom. */
  datatype Unit = Unit(price: int, matchedWith: Id)

  function UnitOf(f: Fill): Unit { Unit(f.price, f.matchedWith) }

  function Units(n: int, u: Unit): (s: seq<Unit>)
    ensures |s| == (if n > 0 then n else 0) && forall i :: 0 <= i < |s| ==> s[i] == u
  {
    if n <= 0 then [] else [u] + Units(n - 1, u)
  }

  /** All units of a history, one after the other. */
  function Ticks(fills: seq<Fill>): seq<Unit> {
    if fills == [] then [] else Units(fills[0].qty, UnitOf(fills[0])) + Ticks(fills[1..])
  }

  /** No two neighbours could be merged. */
  predicate Unmergeable(fills: seq<Fill>) { forall i :: 0 < i < |fills| ==> !Mergeable(fills[i], fills[i - 1]) }

  lemma UnitsAdd(m: nat, n: nat, u: Unit)
    ensures Units(m + n, u) == Units(m, u) + Units(n, u)
  {
  }

  lemma TicksCons(f: Fill, rest: seq<Fill>)
    ensures Ticks([f] + rest) == Units(f.qty, UnitOf(f)) + Ticks(rest)
  {
    assert ([f] + rest)[1..] == rest;
  }

  lemma UnmergedCons(f: Fill, rest: seq<Fill>)
    requires Unmergeable(rest) && rest != [] && !Mergeable(rest[0], f)
    ensures Unmergeable([f] + rest)
  {
  }

  lemma {:induction false} FoldFromTicks(cur: Fill, rest: seq<Fill>)
    requires cur.qty > 0 && AllPositive(rest)
    ensures var r := FoldFrom(cur, rest);
            && Ticks(r) == Units(cur.qty, UnitOf(cur)) + Ticks(rest)
            && Unmergeable(r) && AllPositive(r) && r != [] && UnitOf(r[0]) == UnitOf(cur)
    decreases rest
  {
    hide Ticks, Units, Unmergeable;
    if rest == [] {
      OneTick(cur);
    } else {
      var f, tail := rest[0], rest[1..];
      assert rest == [f] + tail;
      TicksCons(f, tail);
      if Mergeable(f, cur) {
        FoldFromTicks(cur.(qty := cur.qty + f.qty), tail);
        UnitsAdd(cur.qty, f.qty, UnitOf(cur));
        assert UnitOf(f) == UnitOf(cur);
        assert Units(cur.qty, UnitOf(cur)) + Units(f.qty, UnitOf(cur)) + Ticks(tail)
            == Units(cur.qty, UnitOf(cur)) + (Units(f.qty, UnitOf(cur)) + Ticks(tail));
      } else {
        FoldFromTicks(f, tail);
        TicksCons(cur, FoldFrom(f, tail));
        UnmergedCons(cur, FoldFrom(f, tail));
      }
    }
  }

  lemma OneTick(f: Fill)
    ensures Ticks([f]) == Units(f.qty, UnitOf(f)) + Ticks([]) && Unmergeable([f])
  {
    TicksCons(f, []);
    assert [f] + [] == [f];
  }

  /** Folding changes no unit and leaves nothing to merge. */
  lemma FoldTicks(fills: seq<Fill>)
    requires AllPositive(fills)
    ensures Ticks(Fold(fills)) == Ticks(fills) && Unmergeable(Fold(fills)) && AllPositive(Fold(fills))
  {
    if |fills| > 1 { FoldFromTicks(fills[0], fills[1..]); }
  }

  lemma FirstTick(fills: seq<Fill>)
    requires AllPositive(fills) && fills != []
    ensures var n := fills[0].qty;
            && n <= |Ticks(fills)| && (forall i :: 0 <= i < n ==> Ticks(fills)[i] == UnitOf(fills[0]))
            && Ticks(fills)[n..] == Ticks(fills[1..])
            && (Unmergeable(fills) && |fills| > 1 ==> n < |Ticks(fills)| && Ticks(fills)[n] != UnitOf(fills[0]))
            && (|fills| == 1 ==> |Ticks(fills)| == n)
  {
    if |fills| > 1 {
      var rest := fills[1..];
      assert Ticks(rest) == Units(rest[0].qty, UnitOf(rest[0])) + Ticks(rest[1..]);
      assert rest[0] == fills[1];
    }
  }

  /** A list with nothing to merge is determined by its units. */
  lemma {:induction false} TicksDetermine(a: seq<Fill>, b: seq<Fill>)
    requires Unmergeable(a) && Unmergeable(b) && AllPositive(a) && AllPositive(b) && Ticks(a) == Ticks(b)
    ensures Alike(a, b)
    decreases |a|
  {
    if a == [] {
      if b != [] { FirstTick(b); }
    } else if b == [] {
      FirstTick(a);
    } else {
      SameRun(a, b);
      TicksDetermine(a[1..], b[1..]);
      assert a == [a[0]] + a[1..] && b == [b[0]] + b[1..];
    }
  }

  lemma SameRun(a: seq<Fill>, b: seq<Fill>)
    requires Unmergeable(a) && Unmergeable(b) && AllPositive(a) && AllPositive(b)
    requires a != [] && b != [] && Ticks(a) == Ticks(b)
    ensures a[0].qty == b[0].qty && UnitOf(a[0]) == UnitOf(b[0]) && Ticks(a[1..]) == Ticks(b[1..])
    ensures Unmergeable(a[1..]) && Unmergeable(b[1..]) && AllPositive(a[1..]) && AllPositive(b[1..])
  {
    hide Ticks;
    FirstTick(a);
    FirstTick(b);
    assert Ticks(a)[0] == Ticks(b)[0];
  }

  lemma {:induction false} AlikeTicks(a: seq<Fill>, b: seq<Fill>)
    requires Alike(a, b)
    ensures Ticks(a) == Ticks(b)
    decreases |a|
  {
    if a != [] { AlikeTicks(a[1..], b[1..]); }
  }

  /** Folded lists agree exactly when the histories agree unit by unit. */
  lemma FoldMeansTicks(a: seq<Fill>, b: seq<Fill>)
    requires AllPositive(a) && AllPositive(b)
    ensures Alike(Fold(a), Fold(b)) <==> Ticks(a) == Ticks(b)
  {
    hide Fold, Ticks, Alike, Unmergeable;
    FoldTicks(a);
    FoldTicks(b);
    if Alike(Fold(a), Fold(b)) { AlikeTicks(Fold(a), Fold(b)); }
    if Ticks(a) == Ticks(b) { TicksDetermine(Fold(a), Fold(b)); }
  }

  /** What the order was expected to trade is what it was reported to trade, unit by unit. */
  predicate SameTrades(log: seq<Emit>, id: Id) { Ticks(Hist(log, id, true)) == Ticks(Hist(log, id, false)) }

  /** In every run with fresh ids and positive reports the score is 100 exactly when every
      order was reported to trade, unit by unit, what it was expected to trade, and nothing
      was misacknowledged. */
  lemma FullScoreMeansSameTrades(evs: seq<Event>)
    requires FreshIds(evs) && PositiveReports(evs)
    ensures var log := Run(evs).log;
            Judgement(Judge.Books(log)) == 100.0
            <==> (forall id :: SameTrades(log, id))
                 && Count(log, BadAck) == 0 && Count(log, Duplicate) == 0 && Count(log, UnknownAck) == 0
  {
    hide SameTrades, Judge.Exact, Judgement, Judge.Books, Count, Hist, Run, FreshIds, PositiveReports, PositiveFills,
        BookOk, BookRuns.Track;
    var log := Run(evs).log;
    BookRuns.RunTrack(evs);
    Judge.RunScoreMeansExact(evs);
    forall id ensures Judge.Exact(log, id) <==> SameTrades(log, id) { ExactTicks(log, id); }
  }

  lemma ExactTicks(log: seq<Emit>, id: Id)
    requires PositiveFills(log)
    ensures Judge.Exact(log, id) <==> SameTrades(log, id)
  {
    hide Hist, Fold, Ticks;
    HistOwn(log, id, true);
    HistOwn(log, id, false);
    Judge.ExactIsSettled(log, id);
    FoldMeansTicks(Hist(log, id, true), Hist(log, id, false));
    QtyIsTicks(Hist(log, id, true));
    QtyIsTicks(Hist(log, id, false));
  }

  lemma {:induction false} QtyIsTicks(fills: seq<Fill>)
    requires AllPositive(fills)
    ensures Qty(fills) == |Ticks(fills)|
  {
    if fills != [] { QtyIsTicks(fills[1..]); }
  }
}
