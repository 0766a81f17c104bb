/** What the judge's score means, over every log and over every run of events. */
module Judge {
  import opened Orders
  import opened Sums
  import opened Ranging
  import opened Log
  import opened Ledger
  import opened FlatBook
  import BookRuns

  function Books(log: seq<Emit>): Ledger { ApplyAll(BLANK, log) }

  // ---------------------------------------------------------------- cleanup is transparent

  lemma SettledTerm(e: seq<Fill>, a: seq<Fill>)
    requires Settled(e, a)
    ensures Term(e, a) == SettledTally(e, a)
  {
    FoldKeeps(e, 0);
    FoldKeeps(a, 0);
    if e != [] {
      AlikeSums(Fold(e), Fold(a), 0);
      AlikePrice(Fold(e), Fold(a));
    }
  }

  /** The totals may be taken over any set that covers the two maps. */
  lemma TotalsOver(l: Ledger, u: set<Id>)
    requires l.expected.Keys + l.actual.Keys <= u
    ensures Totals(l) == Plus(l.done, Total(u, Terms(l)))
  {
    var keys := l.expected.Keys + l.actual.Keys;
    forall x | x in u - keys ensures Terms(l)(x) == ZERO {
      assert Get(l.expected, x) == [] && Get(l.actual, x) == [];
    }
    TotalSame(keys, u, Terms(l), Terms(l));
  }

  lemma PlusRotate(a: Tally, b: Tally, c: Tally)
    ensures Plus(a, Plus(b, c)) == Plus(Plus(a, b), c) == Plus(Plus(a, c), b)
  {
  }

  /** Totals of two ledgers that differ in one order only. */
  lemma TotalsMove(l: Ledger, k: Ledger, id: Id)
    requires forall x :: x != id ==> Get(l.expected, x) == Get(k.expected, x) && Get(l.actual, x) == Get(k.actual, x)
    ensures exists rest ::
              Totals(l) == Plus(Plus(l.done, Terms(l)(id)), rest) && Totals(k) == Plus(Plus(k.done, Terms(k)(id)), rest)
  {
    var u := l.expected.Keys + l.actual.Keys + k.expected.Keys + k.actual.Keys + {id};
    TotalsOver(l, u);
    TotalsOver(k, u);
    TotalPick(u, Terms(l), id);
    TotalPick(u, Terms(k), id);
    TotalSame(u - {id}, u - {id}, Terms(l), Terms(k));
    var rest := Total(u - {id}, Terms(l));
    PlusRotate(l.done, Terms(l)(id), rest);
    PlusRotate(k.done, Terms(k)(id), rest);
  }

  /** Cleaning up an order never changes the totals the score is computed from. */
  lemma CleanupIsTransparent(l: Ledger, id: Id)
    ensures Totals(CleanUp(l, id)) == Totals(l)
  {
    var k := CleanUp(l, id);
    var e, a := Get(l.expected, id), Get(l.actual, id);
    hide Totals, Term, Settled;
    if Settled(e, a) {
      SettledTerm(e, a);
      TotalsMove(l, k, id);
      NothingSettles();
    }
  }

  lemma BlankBooks()
    ensures Books([]) == BLANK && Totals(Books([])) == ZERO
    ensures Qty(Fills([], true)) == 0 == Qty(Fills([], false))
  {
    assert Books([]) == BLANK && Fills([], true) == [] == Fills([], false);
    QtyNone();
    hide Books, Fills, Qty;
    BlankTotals();
  }

  lemma BlankTotals()
    ensures Totals(BLANK) == ZERO
  {
    hide Total, Terms;
    assert BLANK.expected.Keys + BLANK.actual.Keys == {};
    TotalEmpty(Terms(BLANK));
  }

  /** Counters plus map contents are always everything ever recorded. */
  lemma {:induction false} NothingForgotten(log: seq<Emit>)
    ensures Totals(Books(log)).exp == Qty(Fills(log, true))
    ensures Totals(Books(log)).act == Qty(Fills(log, false))
  {
    hide Totals, Books, Fills, Qty;
    if log == [] {
      BlankBooks();
    } else {
      var prev, ev := log[..|log| - 1], log[|log| - 1];
      NothingForgotten(prev);
      LedgerGrowth(prev, ev);
      assert log == prev + [ev];
    }
  }

  lemma LedgerGrowth(prev: seq<Emit>, ev: Emit)
    ensures var t, u := Totals(Books(prev)), Totals(Books(prev + [ev]));
            && u.exp - t.exp == Qty(Fills(prev + [ev], true)) - Qty(Fills(prev, true))
            && u.act - t.act == Qty(Fills(prev + [ev], false)) - Qty(Fills(prev, false))
  {
    hide Totals, Term, Fills, Qty;
    var l := Books(prev);
    BooksSnoc(prev, ev);
    HistSnoc(prev, ev, 0, true);
    HistSnoc(prev, ev, 0, false);
    if ev.Exp? || ev.Act? {
      FillGrowth(l, ev);
      QtySnoc(Fills(prev, ev.Exp?), ev.fill);
    } else if ev.Clean? {
      CleanupIsTransparent(l, ev.id);
    } else {
      SameMaps(l, Apply(l, ev));
    }
  }

  lemma FillGrowth(l: Ledger, ev: Emit)
    requires ev.Exp? || ev.Act?
    ensures var t, u := Totals(l), Totals(Apply(l, ev));
            && u.exp == t.exp + (if ev.Exp? then ev.fill.qty else 0)
            && u.act == t.act + (if ev.Act? then ev.fill.qty else 0)
  {
    hide Totals, Term, Qty;
    var k, id := Apply(l, ev), ev.fill.orderId;
    TotalsMove(l, k, id);
    TermSizes(Get(l.expected, id), Get(l.actual, id));
    TermSizes(Get(k.expected, id), Get(k.actual, id));
    QtySnoc(Get(l.expected, id), ev.fill);
    QtySnoc(Get(l.actual, id), ev.fill);
  }

  lemma SameMaps(l: Ledger, k: Ledger)
    requires l.expected == k.expected && l.actual == k.actual && l.done == k.done
    ensures Totals(l) == Totals(k)
  {
    TotalSame(l.expected.Keys + l.actual.Keys, l.expected.Keys + l.actual.Keys, Terms(l), Terms(k));
  }

  lemma QtySnoc(s: seq<Fill>, f: Fill)
    ensures Qty(s + [f]) == Qty(s) + f.qty
  {
    QtyAppend(s, [f]);
    QtyOne(f);
  }

  lemma TermSizes(e: seq<Fill>, a: seq<Fill>)
    ensures Term(e, a).exp == Qty(e) && Term(e, a).act == Qty(a)
  {
    FoldKeeps(e, 0);
    FoldKeeps(a, 0);
  }

  // ---------------------------------------------------------------- histories behind the maps

  /** The order traded and its record has been cleaned up. */
  predicate Cleaned(log: seq<Emit>, id: Id) {
    Hist(log, id, true) != [] && Get(Books(log).expected, id) == []
  }

  /** A record `e`, `a` stands for full histories `fullE`, `fullA`: either it is
      them, or it was cleaned up and the reported history splits into a part that
      met the expectation and what came late. */
  predicate StandsFor(e: seq<Fill>, a: seq<Fill>, fullE: seq<Fill>, fullA: seq<Fill>, retired: bool) {
    if fullE != [] && e == [] then
      && retired && |a| <= |fullA| && a == fullA[|fullA| - |a|..]
      && Settled(fullE, fullA[..|fullA| - |a|])
    else e == fullE && a == fullA
  }

  predicate Faithful(log: seq<Emit>, id: Id) {
    StandsFor(Get(Books(log).expected, id), Get(Books(log).actual, id),
              Hist(log, id, true), Hist(log, id, false), id in Retired(log))
  }

  lemma SettledEmpty(a: seq<Fill>)
    requires Settled([], a)
    ensures a == []
  {
    FoldKeeps(a, 0);
  }

  lemma CleanedGet(l: Ledger, c: Id, id: Id)
    ensures var k := Apply(l, Clean(c));
            var gone := c == id && Settled(Get(l.expected, id), Get(l.actual, id));
            && Get(k.expected, id) == (if gone then [] else Get(l.expected, id))
            && Get(k.actual, id) == (if gone then [] else Get(l.actual, id))
  {
    hide Settled;
  }

  lemma NothingSettles()
    ensures Settled([], []) && SettledTally([], []) == ZERO == Term([], [])
  {
  }

  lemma StandsAfterCleanup(e: seq<Fill>, a: seq<Fill>, fullE: seq<Fill>, fullA: seq<Fill>,
                           retired: bool, now: bool)
    requires StandsFor(e, a, fullE, fullA, retired) && Settled(e, a) && (fullE != [] ==> now)
    ensures StandsFor([], [], fullE, fullA, now)
  {
    hide Settled;
    if e == [] { SettledEmpty(a); }
    assert fullA[..|fullA|] == fullA;
  }

  lemma StandsAfterFill(e: seq<Fill>, a: seq<Fill>, fullE: seq<Fill>, fullA: seq<Fill>, retired: bool, f: Fill)
    requires StandsFor(e, a, fullE, fullA, retired)
    ensures StandsFor(e, a + [f], fullE, fullA + [f], retired)
    ensures !retired ==> StandsFor(e + [f], a, fullE + [f], fullA, retired)
  {
    hide Settled;
    var n := |fullA| - |a|;
    if n >= 0 {
      assert a == fullA[n..] ==> (fullA + [f])[n..] == a + [f];
      assert (fullA + [f])[..n] == fullA[..n];
    }
  }

  lemma FaithfulClean(prev: seq<Emit>, c: Id, id: Id)
    requires Faithful(prev, id)
    ensures Faithful(prev + [Clean(c)], id)
  {
    hide Settled, Books, Hist, Retired, ExpIds, Tidy, PositiveFills, Get, Apply, StandsFor;
    LogSnoc(prev, Clean(c));
    HistSnoc(prev, Clean(c), id, true);
    HistSnoc(prev, Clean(c), id, false);
    BooksSnoc(prev, Clean(c));
    HistOwn(prev, id, true);
    CleanedGet(Books(prev), c, id);
    var e, a := Get(Books(prev).expected, id), Get(Books(prev).actual, id);
    if c == id && Settled(e, a) {
      StandsAfterCleanup(e, a, Hist(prev, id, true), Hist(prev, id, false), id in Retired(prev),
                         id in Retired(prev + [Clean(c)]));
    }
    Retire(e, a, Hist(prev, id, true), Hist(prev, id, false), id in Retired(prev));
  }

  lemma Retire(e: seq<Fill>, a: seq<Fill>, fullE: seq<Fill>, fullA: seq<Fill>, retired: bool)
    ensures StandsFor(e, a, fullE, fullA, retired) ==> StandsFor(e, a, fullE, fullA, true)
  {
    hide Settled;
  }

  lemma BooksSnoc(prev: seq<Emit>, e: Emit)
    ensures Books(prev + [e]) == Apply(Books(prev), e)
  {
    assert (prev + [e])[..|prev|] == prev;
  }

  lemma FaithfulFill(prev: seq<Emit>, e: Emit, id: Id)
    requires Faithful(prev, id) && Tidy(prev + [e]) && (e.Exp? || e.Act?)
    ensures Faithful(prev + [e], id)
  {
    hide Books, Hist, Retired, ExpIds, Tidy, PositiveFills, StandsFor;
    LogSnoc(prev, e);
    HistSnoc(prev, e, id, true);
    HistSnoc(prev, e, id, false);
    BooksSnoc(prev, e);
    if e.fill.orderId == id {
      StandsAfterFill(Get(Books(prev).expected, id), Get(Books(prev).actual, id),
                      Hist(prev, id, true), Hist(prev, id, false), id in Retired(prev), e.fill);
    }
  }

  lemma {:induction false} AlwaysFaithful(log: seq<Emit>, id: Id)
    requires Tidy(log)
    ensures Faithful(log, id)
  {
    if log != [] {
      var prev, e := log[..|log| - 1], log[|log| - 1];
      assert log == prev + [e];
      LogSnoc(prev, e);
      AlwaysFaithful(prev, id);
      if e.Clean? {
        FaithfulClean(prev, e.id, id);
      } else if e.Exp? || e.Act? {
        FaithfulFill(prev, e, id);
      } else {
        FaithfulIdle(prev, e, id);
      }
    }
  }

  lemma FaithfulIdle(prev: seq<Emit>, e: Emit, id: Id)
    requires Faithful(prev, id) && !e.Exp? && !e.Act? && !e.Clean?
    ensures Faithful(prev + [e], id)
  {
    hide Settled;
    LogSnoc(prev, e);
    HistSnoc(prev, e, id, true);
    HistSnoc(prev, e, id, false);
    BooksSnoc(prev, e);
  }

  // ---------------------------------------------------------------- totals as a sum over orders

  /** What a cleaned order left in the counters. */
  function PaidFor(log: seq<Emit>, id: Id): Tally {
    if Cleaned(log, id) then SettledTally(Hist(log, id, true), Hist(log, id, true)) else ZERO
  }

  ghost function TermFor(log: seq<Emit>, id: Id): Tally {
    Term(Get(Books(log).expected, id), Get(Books(log).actual, id))
  }

  ghost function Paid(log: seq<Emit>): int -> Tally { id => PaidFor(log, id) }

  ghost function Contribution(log: seq<Emit>): int -> Tally { id => Plus(PaidFor(log, id), TermFor(log, id)) }

  lemma PaidElsewhere(prev: seq<Emit>, e: Emit, id: Id)
    requires Tidy(prev + [e])
    requires e.Clean? ==> e.id != id || !Settled(Get(Books(prev).expected, id), Get(Books(prev).actual, id))
                          || Get(Books(prev).expected, id) == []
    ensures PaidFor(prev + [e], id) == PaidFor(prev, id)
  {
    hide Settled, Books, Hist, Retired, ExpIds, Tidy, PositiveFills;
    LogSnoc(prev, e);
    HistSnoc(prev, e, id, true);
    BooksSnoc(prev, e);
    AlwaysFaithful(prev, id);
  }

  lemma {:induction false} CountersArePaid(log: seq<Emit>, u: set<Id>)
    requires Tidy(log) && ExpIds(log) <= u
    ensures Books(log).done == Total(u, Paid(log))
  {
    if log == [] {
      TotalSame({}, u, Paid(log), Paid(log));
      TotalEmpty(Paid(log));
    } else {
      hide Total, Books, Settled, PaidFor, Tidy, Retired, ExpIds;
      var prev, e := log[..|log| - 1], log[|log| - 1];
      assert log == prev + [e];
      LogSnoc(prev, e);
      BooksSnoc(prev, e);
      CountersArePaid(prev, u);
      var l := Books(prev);
      if e.Clean? && Settled(Get(l.expected, e.id), Get(l.actual, e.id)) {
        PaidByCleanup(prev, e.id, u);
      } else {
        forall x | x in u ensures PaidFor(log, x) == PaidFor(prev, x) { PaidElsewhere(prev, e, x); }
        TotalSame(u, u, Paid(prev), Paid(log));
      }
    }
  }

  lemma PaidByCleanup(prev: seq<Emit>, id: Id, u: set<Id>)
    requires Tidy(prev) && ExpIds(prev) <= u
    requires Settled(Get(Books(prev).expected, id), Get(Books(prev).actual, id))
    requires Books(prev).done == Total(u, Paid(prev))
    ensures Books(prev + [Clean(id)]).done == Total(u, Paid(prev + [Clean(id)]))
  {
    hide Total, Settled, Fold, Value, Qty, Books, Hist, Retired, ExpIds, Tidy;
    var log, l := prev + [Clean(id)], Books(prev);
    var e, a := Get(l.expected, id), Get(l.actual, id);
    BooksSnoc(prev, Clean(id));
    if e == [] {
      SettledEmpty(a);
      NothingSettles();
      NothingPaid(prev, id, u);
    } else {
      hide PaidFor, Get;
      PaidNow(prev, id);
      OthersPaid(prev, id, u);
      TotalPick(u, Paid(prev), id);
      TotalPick(u, Paid(log), id);
    }
  }

  /** Cleaning up pays for the order, once. */
  lemma PaidNow(prev: seq<Emit>, id: Id)
    requires Tidy(prev) && Get(Books(prev).expected, id) != []
    requires Settled(Get(Books(prev).expected, id), Get(Books(prev).actual, id))
    ensures PaidFor(prev, id) == ZERO && id in ExpIds(prev)
    ensures PaidFor(prev + [Clean(id)], id)
         == SettledTally(Get(Books(prev).expected, id), Get(Books(prev).actual, id))
  {
    hide Settled, Fold, Value, Qty, Books, Hist, Retired, ExpIds, Tidy, Get;
    BooksSnoc(prev, Clean(id));
    CleanedGet(Books(prev), id, id);
    AlwaysFaithful(prev, id);
    HistOwn(prev, id, true);
    HistSnoc(prev, Clean(id), id, true);
    SettledQty(Get(Books(prev).expected, id), Get(Books(prev).actual, id));
  }

  lemma OthersPaid(prev: seq<Emit>, id: Id, u: set<Id>)
    requires Tidy(prev)
    ensures Total(u - {id}, Paid(prev)) == Total(u - {id}, Paid(prev + [Clean(id)]))
  {
    hide Total, Books, Hist, Tidy, PaidFor;
    var log := prev + [Clean(id)];
    LogSnoc(prev, Clean(id));
    forall x | x in u - {id} ensures PaidFor(log, x) == PaidFor(prev, x) { PaidElsewhere(prev, Clean(id), x); }
    TotalSame(u - {id}, u - {id}, Paid(prev), Paid(log));
  }

  lemma NothingPaid(prev: seq<Emit>, id: Id, u: set<Id>)
    requires Tidy(prev) && Get(Books(prev).expected, id) == []
    ensures Total(u, Paid(prev)) == Total(u, Paid(prev + [Clean(id)]))
  {
    hide Total, Books, Hist, Tidy, PaidFor;
    var log := prev + [Clean(id)];
    LogSnoc(prev, Clean(id));
    forall x | x in u ensures PaidFor(log, x) == PaidFor(prev, x) { PaidElsewhere(prev, Clean(id), x); }
    TotalSame(u, u, Paid(prev), Paid(log));
  }

  lemma SettledQty(e: seq<Fill>, a: seq<Fill>)
    requires Settled(e, a)
    ensures Qty(e) == Qty(a)
  {
  }

  /** All orders that were ever expected or reported to trade. */
  function Traded(log: seq<Emit>): set<Id> {
    if log == [] then {}
    else
      var e := log[|log| - 1];
      Traded(log[..|log| - 1]) + if e.Exp? || e.Act? then {e.fill.orderId} else {}
  }

  lemma {:induction false} TradedCovers(log: seq<Emit>, id: Id)
    ensures ExpIds(log) <= Traded(log)
    ensures Books(log).expected.Keys + Books(log).actual.Keys <= Traded(log)
    ensures id !in Traded(log) ==> Hist(log, id, true) == [] && Hist(log, id, false) == []
  {
    if log != [] { TradedCovers(log[..|log| - 1], id); }
  }

  lemma TotalsAreContributions(log: seq<Emit>)
    requires Tidy(log)
    ensures Totals(Books(log)) == Total(Traded(log), Contribution(log))
  {
    var u := Traded(log);
    TradedCovers(log, 0);
    CountersArePaid(log, u);
    TotalsOver(Books(log), u);
    assert forall x :: Terms(Books(log))(x) == TermFor(log, x);
    TotalPlus(u, Contribution(log), Paid(log), Terms(Books(log)));
  }

  // ---------------------------------------------------------------- a full score

  /** The order was executed exactly as expected, up to the grouping of partial fills. */
  predicate Exact(log: seq<Emit>, id: Id) { Fold(Hist(log, id, true)) == Fold(Hist(log, id, false)) }

  /** Bounds on what any order can contribute. */
  predicate Fair(t: Tally) {
    0 <= t.prio <= t.exp && 0 <= t.price <= t.exp && 0 <= t.act && 0 <= t.diff && 0 <= t.phantom
  }

  predicate Flawless(t: Tally) { t.prio == t.exp && t.phantom == 0 }

  lemma PlainTerm(e: seq<Fill>, a: seq<Fill>)
    requires AllPositive(e) && AllPositive(a)
    ensures Fair(Term(e, a)) && (Flawless(Term(e, a)) <==> Settled(e, a))
  {
    FoldKeeps(e, 0);
    FoldKeeps(a, 0);
    QtyAtNonNegative(a, 0);
    if e != [] {
      MatchedBounds(Fold(e), Fold(a));
      if Flawless(Term(e, a)) { FullPriority(Fold(e), Fold(a)); }
      if Settled(e, a) { AlikeSums(Fold(e), Fold(a), 0); }
    }
  }

  lemma ExactIsSettled(log: seq<Emit>, id: Id)
    ensures Exact(log, id) <==> Settled(Hist(log, id, true), Hist(log, id, false))
  {
    var e, a := Hist(log, id, true), Hist(log, id, false);
    HistOwn(log, id, true);
    HistOwn(log, id, false);
    FoldKeeps(e, id);
    FoldKeeps(a, id);
    AlikeOwn(Fold(e), Fold(a), id);
  }

  /** Per order: contributions are fair, and flawless exactly when the execution was exact. */
  lemma ContributionVerdict(log: seq<Emit>, id: Id)
    requires Tidy(log) && PositiveFills(log)
    ensures var c := Plus(PaidFor(log, id), TermFor(log, id));
            && Fair(c) && (Flawless(c) <==> Exact(log, id))
            && (Exact(log, id) ==> c.price == c.exp && c.diff == 0 && c.act == c.exp)
            && c.exp == Qty(Hist(log, id, true)) && c.act == Qty(Hist(log, id, false))
  {
    hide Settled, Hist, Term, Books, Tidy, Exact, Qty, Fold, Value;
    var e, a := Get(Books(log).expected, id), Get(Books(log).actual, id);
    var fullE, fullA := Hist(log, id, true), Hist(log, id, false);
    HistOwn(log, id, true);
    HistOwn(log, id, false);
    AlwaysFaithful(log, id);
    ExactIsSettled(log, id);
    if Cleaned(log, id) {
      LateVerdict(fullE, fullA, a);
      assert TermFor(log, id) == Term([], a);
    } else {
      PlainVerdict(e, a);
      assert PaidFor(log, id) == ZERO && TermFor(log, id) == Term(e, a);
    }
  }

  /** An order still on record. */
  lemma PlainVerdict(e: seq<Fill>, a: seq<Fill>)
    requires AllPositive(e) && AllPositive(a)
    ensures var c := Plus(ZERO, Term(e, a));
            && Fair(c) && (Flawless(c) <==> Settled(e, a)) && c.exp == Qty(e) && c.act == Qty(a)
            && (Settled(e, a) ==> c.price == c.exp && c.diff == 0 && c.act == c.exp)
  {
    hide Settled, Term, Qty, Fold, Value, AllPositive;
    PlainTerm(e, a);
    TermSizes(e, a);
    if Settled(e, a) {
      SettledTerm(e, a);
      SettledQty(e, a);
    }
  }

  /** A cleaned order: any later report is a phantom, and only then is it not exact. */
  lemma LateVerdict(e: seq<Fill>, full: seq<Fill>, late: seq<Fill>)
    requires AllPositive(e) && AllPositive(full) && |late| <= |full| && late == full[|full| - |late|..]
    requires Settled(e, full[..|full| - |late|])
    ensures var c := Plus(SettledTally(e, e), Term([], late));
            && Fair(c) && (Flawless(c) <==> Settled(e, full)) && c.exp == Qty(e) && c.act == Qty(full)
            && (Flawless(c) ==> c.price == c.exp && c.diff == 0 && c.act == c.exp)
  {
    hide Settled, Fold, Value, Qty, AllPositive;
    LateQty(e, full, late);
    if late == [] {
      assert full[..|full|] == full;
    } else if Settled(e, full) {
      SettledQty(e, full);
    }
  }

  lemma LateQty(e: seq<Fill>, full: seq<Fill>, late: seq<Fill>)
    requires AllPositive(e) && AllPositive(full) && |late| <= |full| && late == full[|full| - |late|..]
    requires Settled(e, full[..|full| - |late|])
    ensures Qty(full) == Qty(e) + Qty(late) && Qty(e) >= 0 && (if late == [] then Qty(late) == 0 else Qty(late) > 0)
  {
    hide Fold, Alike, Qty, Value;
    var first := full[..|full| - |late|];
    assert full == first + late;
    QtyAppend(first, late);
    QtyAtNonNegative(late, 0);
    QtyAtNonNegative(e, 0);
    QtyNone();
  }

  lemma QtyNone()
    ensures Qty([]) == 0
  {
  }

  lemma {:induction false} TotalVerdict(s: set<Id>, f: int -> Tally)
    requires forall x :: x in s ==> Fair(f(x))
    ensures Fair(Total(s, f))
    ensures Flawless(Total(s, f)) <==> forall x :: x in s ==> Flawless(f(x))
    ensures (forall x :: x in s ==> f(x).price == f(x).exp && f(x).diff == 0 && f(x).act == f(x).exp)
            ==> Total(s, f).price == Total(s, f).exp && Total(s, f).diff == 0 && Total(s, f).act == Total(s, f).exp
    ensures Total(s, f).exp == 0 && Total(s, f).act == 0 ==> forall x :: x in s ==> f(x).exp == 0 && f(x).act == 0
    decreases s
  {
    hide Total;
    if s == {} {
      TotalEmpty(f);
    } else {
      var x := Choose(s);
      TotalPick(s, f, x);
      TotalVerdict(s - {x}, f);
      assert forall y :: y in s ==> y == x || y in s - {x};
    }
  }

  /** A score of 100 means exactly right, and exactly right scores 100. */
  lemma FullScoreMeansExact(log: seq<Emit>)
    requires Tidy(log) && PositiveFills(log)
    ensures Judgement(Books(log)) == 100.0
            <==> (forall id :: Exact(log, id))
                 && Count(log, BadAck) == 0 && Count(log, Duplicate) == 0 && Count(log, UnknownAck) == 0
  {
    hide Total, Exact, Books, Qty, Hist, Totals, PaidFor, TermFor;
    var u, f, l := Traded(log), Contribution(log), Books(log);
    forall x | x in u ensures Fair(f(x)) && (Flawless(f(x)) <==> Exact(log, x))
                              && (Exact(log, x) ==> f(x).price == f(x).exp && f(x).diff == 0 && f(x).act == f(x).exp)
                              && (f(x).exp == 0 && f(x).act == 0 ==> Exact(log, x))
    {
      ContributionVerdict(log, x);
      NoTrades(log, x);
    }
    forall x | x !in u ensures Exact(log, x) { TradedCovers(log, x); NoTrades(log, x); }
    TotalVerdict(u, f);
    TotalsAreContributions(log);
    CountersCount(log);
    ScoreIsFull(Totals(l), l.badAcks, l.duplicates, l.unknownAcks);
  }

  lemma NoTrades(log: seq<Emit>, id: Id)
    ensures PositiveFills(log) && Qty(Hist(log, id, true)) == 0 == Qty(Hist(log, id, false)) ==> Exact(log, id)
    ensures Hist(log, id, true) == [] == Hist(log, id, false) ==> Exact(log, id)
  {
    HistOwn(log, id, true);
    HistOwn(log, id, false);
    if PositiveFills(log) {
      QtyAtNonNegative(Hist(log, id, true), 0);
      QtyAtNonNegative(Hist(log, id, false), 0);
    }
  }

  lemma {:induction false} CountersCount(log: seq<Emit>)
    ensures Books(log).badAcks == Count(log, BadAck)
    ensures Books(log).duplicates == Count(log, Duplicate)
    ensures Books(log).unknownAcks == Count(log, UnknownAck)
  {
    if log != [] { CountersCount(log[..|log| - 1]); }
  }

  /** The same over runs of events: with fresh ids and positive reported fills the
      final score is 100 iff every order's folded reported history is its folded
      expected history and nothing was misacknowledged. */
  lemma RunScoreMeansExact(evs: seq<Event>)
    requires FreshIds(evs) && PositiveReports(evs)
    ensures var log := Run(evs).log;
            Judgement(Books(log)) == 100.0
            <==> (forall id :: Exact(log, id))
                 && Count(log, BadAck) == 0 && Count(log, Duplicate) == 0 && Count(log, UnknownAck) == 0
  {
    BookRuns.RunTrack(evs);
    FullScoreMeansExact(Run(evs).log);
  }

  // ---------------------------------------------------------------- the batch score

  ghost function Whole(log: seq<Emit>): int -> Tally {
    id => Term(Hist(log, id, true), Hist(log, id, false))
  }

  /** The score of one pass over full histories, with no cleanup at all. */
  ghost function BatchScore(log: seq<Emit>): real {
    Score(Total(Traded(log), Whole(log)), Count(log, BadAck), Count(log, Duplicate), Count(log, UnknownAck))
  }

  /** No fill is reported for an order that has already been cleaned up. */
  predicate NoLateFills(log: seq<Emit>) {
    log == [] ||
    var prev, e := log[..|log| - 1], log[|log| - 1];
    NoLateFills(prev) && (e.Act? ==> !Cleaned(prev, e.fill.orderId))
  }

  lemma {:induction false} NothingLate(log: seq<Emit>, id: Id)
    requires Tidy(log) && NoLateFills(log)
    ensures Cleaned(log, id) ==> Get(Books(log).actual, id) == []
  {
    if log == [] {
      NothingSettles();
      HistNone(id, true);
    } else {
      hide Settled, Books, Hist, Retired, ExpIds;
      var prev, e := log[..|log| - 1], log[|log| - 1];
      assert log == prev + [e];
      LogSnoc(prev, e);
      HistSnoc(prev, e, id, true);
      BooksSnoc(prev, e);
      NothingLate(prev, id);
    }
  }

  lemma WholeRecord(e: seq<Fill>, a: seq<Fill>, fullE: seq<Fill>, fullA: seq<Fill>, retired: bool)
    requires StandsFor(e, a, fullE, fullA, retired)
    requires fullE != [] && e == [] ==> a == []
    ensures Plus(if fullE != [] && e == [] then SettledTally(fullE, fullE) else ZERO, Term(e, a)) == Term(fullE, fullA)
  {
    hide Settled, Fold, Qty, Value, Term;
    NothingSettles();
    if fullE != [] && e == [] {
      assert fullA[..|fullA|] == fullA;
      SettledTerm(fullE, fullA);
      SettledQty(fullE, fullA);
    }
  }

  lemma WholeTerm(log: seq<Emit>, id: Id)
    requires Tidy(log) && NoLateFills(log)
    ensures Plus(PaidFor(log, id), TermFor(log, id)) == Term(Hist(log, id, true), Hist(log, id, false))
  {
    hide StandsFor, Hist, Books, Term, NoLateFills, Tidy, SettledTally;
    AlwaysFaithful(log, id);
    NothingLate(log, id);
    WholeRecord(Get(Books(log).expected, id), Get(Books(log).actual, id),
                Hist(log, id, true), Hist(log, id, false), id in Retired(log));
  }

  /** Cleanup is a transparent cache: without late fills the incremental score is
      the batch score over whole histories. */
  lemma IncrementalIsBatch(log: seq<Emit>)
    requires Tidy(log) && NoLateFills(log)
    ensures Judgement(Books(log)) == BatchScore(log)
  {
    hide Books, Tidy, NoLateFills, Hist, Term, Total, Count;
    var u := Traded(log);
    forall x | x in u ensures Plus(PaidFor(log, x), TermFor(log, x)) == Term(Hist(log, x, true), Hist(log, x, false)) {
      WholeTerm(log, x);
    }
    TotalSame(u, u, Contribution(log), Whole(log));
    TotalsAreContributions(log);
    CountersCount(log);
  }

  // ---------------------------------------------------------------- cleanup against the batch score

  /** The same quantities, and nothing that counts against the order is worse. */
  predicate NoWorse(a: Tally, b: Tally) {
    && a.exp == b.exp && a.act == b.act && a.value == b.value && a.phantom == b.phantom
    && a.price >= b.price && a.prio >= b.prio && a.diff <= b.diff
  }

  lemma {:induction false} TotalNoWorse(s: set<Id>, f: int -> Tally, g: int -> Tally)
    requires forall x :: x in s ==> NoWorse(f(x), g(x))
    ensures NoWorse(Total(s, f), Total(s, g))
    decreases s
  {
    hide Total;
    if s == {} {
      TotalEmpty(f);
      TotalEmpty(g);
    } else {
      var x := Choose(s);
      TotalPick(s, f, x);
      TotalPick(s, g, x);
      TotalNoWorse(s - {x}, f, g);
    }
  }

  lemma QuotientGrows(part: int, more: int, whole: int)
    requires whole > 0 && part <= more
    ensures (part as real) / (whole as real) <= (more as real) / (whole as real)
  {
  }

  lemma RatioGrows(part: int, more: int, whole: int)
    requires whole > 0 && part <= more
    ensures Ratio(part, whole) <= Ratio(more, whole)
  {
    QuotientGrows(Min(part, whole), Min(more, whole), whole);
  }

  lemma ScoreGrows(a: Tally, b: Tally, badAcks: int, duplicates: int, unknownAcks: int)
    requires NoWorse(a, b) && b.exp >= 0
    ensures Score(a, badAcks, duplicates, unknownAcks) >= Score(b, badAcks, duplicates, unknownAcks)
  {
    if a.exp > 0 {
      RatioGrows(b.price, a.price, a.exp);
      RatioGrows(b.prio, a.prio, a.exp);
      if a.value > 0 { QuotientGrows(a.diff, b.diff, a.value); }
    }
  }

  /** A cleaned order keeps the marks it was cleaned with; what came late costs it the phantom
      quantity it would cost in one pass, and there it can also spoil positions, prices and value. */
  lemma LateNoWorse(e: seq<Fill>, full: seq<Fill>, late: seq<Fill>)
    requires AllPositive(e) && AllPositive(full) && |late| <= |full| && late == full[|full| - |late|..]
    requires Settled(e, full[..|full| - |late|]) && e != []
    ensures NoWorse(Plus(SettledTally(e, e), Term([], late)), Term(e, full))
  {
    hide Settled, Fold, Value, Qty, AllPositive, PriceMatched, PrioMatched;
    LateQty(e, full, late);
    FoldKeeps(e, 0);
    FoldKeeps(full, 0);
    MatchedBounds(Fold(e), Fold(full));
  }

  lemma ContributionNoWorse(log: seq<Emit>, id: Id)
    requires Tidy(log) && PositiveFills(log)
    ensures NoWorse(Plus(PaidFor(log, id), TermFor(log, id)), Term(Hist(log, id, true), Hist(log, id, false)))
  {
    hide Settled, Hist, Term, Books, Tidy, Qty, Fold, Value;
    HistOwn(log, id, true);
    HistOwn(log, id, false);
    AlwaysFaithful(log, id);
    if Cleaned(log, id) { LateNoWorse(Hist(log, id, true), Hist(log, id, false), Get(Books(log).actual, id)); }
  }

  /** Cleaning orders up while the run goes on never costs an engine marks: the score is at
      least that of one pass over whole histories. */
  lemma CleanupNeverLowers(log: seq<Emit>)
    requires Tidy(log) && PositiveFills(log)
    ensures Judgement(Books(log)) >= BatchScore(log)
  {
    hide Books, Tidy, Hist, Term, Total, Count, NoWorse, Fair, Score, Qty;
    var u := Traded(log);
    forall x | x in u
      ensures NoWorse(Contribution(log)(x), Whole(log)(x)) && Fair(Contribution(log)(x))
    {
      ContributionNoWorse(log, x);
      ContributionVerdict(log, x);
    }
    TotalNoWorse(u, Contribution(log), Whole(log));
    TotalVerdict(u, Contribution(log));
    TotalsAreContributions(log);
    CountersCount(log);
    FairTotals(Totals(Books(log)), Total(u, Whole(log)));
    ScoreGrows(Totals(Books(log)), Total(u, Whole(log)), Count(log, BadAck), Count(log, Duplicate),
        Count(log, UnknownAck));
  }

  lemma FairTotals(a: Tally, b: Tally)
    requires Fair(a) && NoWorse(a, b)
    ensures b.exp >= 0
  {
  }

  /** It can be more: a report repeated after its order was cleaned up is a phantom quantity
      in both scores, and in one pass it also spoils the position and the value. */
  lemma CleanupCanRaise() returns (log: seq<Emit>)
    ensures Tidy(log) && PositiveFills(log) && Judgement(Books(log)) > BatchScore(log)
  {
    var f := Fill(1, 10, 100, 2);
    log := Repeated(f);
    RepeatedReport(f);
    RepeatedTotals(f);
    CountersCount(log);
    hide Books, Totals, Total, Tidy, Count;
    RepeatedScores();
  }

  /** Expected, reported, cleaned up, and reported again. */
  function Repeated(f: Fill): seq<Emit> { (([Exp(f)] + [Act(f)]) + [Clean(1)]) + [Act(f)] }

  lemma RepeatedReport(f: Fill)
    requires f == Fill(1, 10, 100, 2)
    ensures var log := Repeated(f);
            && Tidy(log) && PositiveFills(log) && Traded(log) == {1}
            && Books(log) == BLANK.(actual := map[1 := [f]], done := Tally(10, 10, 10, 10, 1000, 0, 0))
            && Hist(log, 1, true) == [f] && Hist(log, 1, false) == [f, f]
            && Count(log, BadAck) == 0 && Count(log, Duplicate) == 0 && Count(log, UnknownAck) == 0
  {
    RepeatedBooks(f);
    RepeatedHist(f);
    hide Books, Hist, Apply, Repeated;
    var l1 := [Exp(f)];
    RepeatedIs(f, l1);
    assert [] + [Exp(f)] == l1;
    TidySnoc([], Exp(f));
    TidySnoc(l1, Act(f));
    TidySnoc(l1 + [Act(f)], Clean(1));
    TidySnoc(l1 + [Act(f)] + [Clean(1)], Act(f));
  }

  lemma RepeatedIs(f: Fill, l1: seq<Emit>)
    requires l1 == [Exp(f)]
    ensures Repeated(f) == l1 + [Act(f)] + [Clean(1)] + [Act(f)]
  {
  }

  lemma RepeatedBooks(f: Fill)
    requires f == Fill(1, 10, 100, 2)
    ensures Books(Repeated(f)) == BLANK.(actual := map[1 := [f]], done := Tally(10, 10, 10, 10, 1000, 0, 0))
  {
    AppliedInTurn(f);
    var l1 := [Exp(f)];
    BooksSnoc([], Exp(f));
    assert [] + [Exp(f)] == l1 && Books([]) == BLANK;
    hide Books, Apply;
    BooksSnoc(l1, Act(f));
    BooksSnoc(l1 + [Act(f)], Clean(1));
    BooksSnoc(l1 + [Act(f)] + [Clean(1)], Act(f));
  }

  lemma RepeatedHist(f: Fill)
    requires f.orderId == 1
    ensures Hist(Repeated(f), 1, true) == [f] && Hist(Repeated(f), 1, false) == [f, f]
  {
    HistOfRepeated(f, true);
    HistOfRepeated(f, false);
  }

  lemma HistOfRepeated(f: Fill, x: bool)
    requires f.orderId == 1
    ensures Hist(Repeated(f), 1, x) == if x then [f] else [f, f]
  {
    hide Hist, Fills, Dropped, Repeated;
    var l1 := [Exp(f)];
    RepeatedIs(f, l1);
    HistOne(Exp(f), 1, x);
    HistSnoc(l1, Act(f), 1, x);
    HistSnoc(l1 + [Act(f)], Clean(1), 1, x);
    HistSnoc(l1 + [Act(f)] + [Clean(1)], Act(f), 1, x);
    assert [] + [f] == [f] && [f] + [f] == [f, f];
  }

  lemma AppliedInTurn(f: Fill)
    requires f == Fill(1, 10, 100, 2)
    ensures Apply(Apply(Apply(Apply(BLANK, Exp(f)), Act(f)), Clean(1)), Act(f))
         == BLANK.(actual := map[1 := [f]], done := Tally(10, 10, 10, 10, 1000, 0, 0))
  {
    SettledOnce(f);
    hide Settled, SettledTally;
    var l := Apply(Apply(BLANK, Exp(f)), Act(f));
    assert [] + [f] == [f] && l == BLANK.(expected := map[1 := [f]], actual := map[1 := [f]]);
    assert l.expected - {1} == map[] && l.actual - {1} == map[];
    assert Apply(l, Clean(1)) == BLANK.(done := Tally(10, 10, 10, 10, 1000, 0, 0));
  }

  lemma TidySnoc(prev: seq<Emit>, e: Emit)
    ensures var log := prev + [e];
            && Traded(log) == Traded(prev) + (if e.Exp? || e.Act? then {e.fill.orderId} else {})
            && Count(log, BadAck) == Count(prev, BadAck) + (if e.BadAck? then 1 else 0)
            && Count(log, Duplicate) == Count(prev, Duplicate) + (if e.Duplicate? then 1 else 0)
            && Count(log, UnknownAck) == Count(prev, UnknownAck) + (if e.UnknownAck? then 1 else 0)
            && (Tidy(prev) && (e.Exp? ==> prev == []) ==> Tidy(log))
            && (PositiveFills(prev) && (e.Exp? || e.Act? ==> e.fill.qty > 0) ==> PositiveFills(log))
  {
    LogSnoc(prev, e);
    assert (prev + [e])[..|prev|] == prev;
  }

  lemma SettledOnce(f: Fill)
    requires f == Fill(1, 10, 100, 2)
    ensures Settled([f], [f]) && SettledTally([f], [f]) == Tally(10, 10, 10, 10, 1000, 0, 0)
  {
    QtyOne(f);
    ValueOne(f);
  }

  lemma ValueOne(f: Fill)
    ensures Value([f]) == f.qty * f.price
  {
    assert [f][1..] == [];
  }

  lemma RepeatedTotals(f: Fill)
    requires f == Fill(1, 10, 100, 2)
    ensures var log := Repeated(f);
            && Totals(Books(log)) == Tally(10, 20, 10, 10, 1000, 0, 10)
            && Total(Traded(log), Whole(log)) == Tally(10, 20, 10, 0, 1000, 1000, 10)
  {
    var log := Repeated(f);
    RepeatedReport(f);
    TermOfRepeated(f);
    hide Books, Hist, Traded, Tidy, Term, Total, Count, PositiveFills;
    PhantomTotals(Books(log), f);
    OnlyTerm(Whole(log), 1);
  }

  lemma PhantomTotals(l: Ledger, f: Fill)
    requires l.expected == map[] && l.actual == map[1 := [f]] && l.done == Tally(10, 10, 10, 10, 1000, 0, 0)
    requires Term([], [f]) == Tally(0, 10, 0, 0, 0, 0, 10)
    ensures Totals(l) == Tally(10, 20, 10, 10, 1000, 0, 10)
  {
    hide Term, Total;
    assert l.expected.Keys + l.actual.Keys == {1} && Terms(l)(1) == Term([], [f]);
    OnlyTerm(Terms(l), 1);
  }

  lemma OnlyTerm(f: int -> Tally, id: Id)
    ensures Total({id}, f) == f(id)
  {
    TotalPick({id}, f, id);
    assert {id} - {id} == {};
    TotalEmpty(f);
  }

  lemma TermOfRepeated(f: Fill)
    requires f == Fill(1, 10, 100, 2)
    ensures Term([], [f]) == Tally(0, 10, 0, 0, 0, 0, 10)
    ensures Term([f], [f, f]) == Tally(10, 20, 10, 0, 1000, 1000, 10)
  {
    var g := f.(qty := 20);
    FoldedTwice(f);
    QtyOne(f);
    QtyOne(g);
    ValueOne(f);
    ValueOne(g);
    AtPrice(f);
    AtPrice(g);
    assert Prices([f]) == {100};
    SumOnly({100}, p => Min(QtyAt([f], p), QtyAt([g], p)), 100);
    assert PrioMatched([f], [g]) == 0 by { assert [f][1..] == []; }
  }

  lemma FoldedTwice(f: Fill)
    ensures Fold([f]) == [f] && Fold([f, f]) == [f.(qty := 2 * f.qty)]
  {
    var g := f.(qty := 2 * f.qty);
    assert [f, f][1..] == [f] && [f][1..] == [];
    assert FoldFrom(f, [f]) == FoldFrom(g, []) == [g];
  }

  lemma AtPrice(f: Fill)
    ensures QtyAt([f], f.price) == f.qty
  {
    assert [f][1..] == [];
  }

  lemma RepeatedScores()
    ensures Score(Tally(10, 20, 10, 10, 1000, 0, 10), 0, 0, 0) > Score(Tally(10, 20, 10, 0, 1000, 1000, 10), 0, 0, 0)
  {
  }
}
