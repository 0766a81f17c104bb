/** Finite sums over sets of ids or prices, in no particular order: the source
    accumulates them by ranging over maps. */
module Sums {

  ghost function Sum<T(!new)>(s: set<T>, f: T -> int): int {
    if s == {} then 0 else var x :| x in s; f(x) + Sum(s - {x}, f)
  }

  lemma {:induction false} SumPick<T(!new)>(s: set<T>, f: T -> int, x: T)
    requires x in s
    ensures Sum(s, f) == f(x) + Sum(s - {x}, f)
    decreases s
  {
    var y :| y in s && Sum(s, f) == f(y) + Sum(s - {y}, f);
    if y != x {
      SumPick(s - {y}, f, x);
      assert s - {y} - {x} == s - {x} - {y};
      SumPick(s - {x}, f, y);
    }
  }

  lemma {:induction false} SumPlus<T(!new)>(s: set<T>, f: T -> int, g: T -> int, h: T -> int)
    requires forall x :: x in s ==> f(x) == g(x) + h(x)
    ensures Sum(s, f) == Sum(s, g) + Sum(s, h)
    decreases s
  {
    if s != {} {
      var x :| x in s;
      SumPick(s, f, x);
      SumPick(s, g, x);
      SumPick(s, h, x);
      SumPlus(s - {x}, f, g, h);
    }
  }

  lemma {:induction false} SumLe<T(!new)>(s: set<T>, f: T -> int, g: T -> int)
    requires forall x :: x in s ==> f(x) <= g(x)
    ensures Sum(s, f) <= Sum(s, g)
    decreases s
  {
    if s != {} {
      var x :| x in s;
      SumPick(s, f, x);
      SumPick(s, g, x);
      SumLe(s - {x}, f, g);
    }
  }

  lemma {:induction false} SumOnly<T(!new)>(s: set<T>, f: T -> int, p: T)
    requires forall x :: x in s && x != p ==> f(x) == 0
    ensures Sum(s, f) == if p in s then f(p) else 0
    decreases s
  {
    if s != {} {
      var x :| x in s;
      SumPick(s, f, x);
      SumOnly(s - {x}, f, p);
    }
  }

  lemma {:induction false} SumMono<T(!new)>(s: set<T>, t: set<T>, f: T -> int)
    requires s <= t && forall x :: x in t ==> f(x) >= 0
    ensures Sum(s, f) <= Sum(t, f)
    decreases t
  {
    if t != {} {
      var x :| x in t;
      SumPick(t, f, x);
      if x in s { SumPick(s, f, x); } else { assert s - {x} == s; }
      SumMono(s - {x}, t - {x}, f);
    }
  }

  /** The quantities the judge accumulates, per order and in total. */
  datatype Tally = Tally(exp: int, act: int, price: int, prio: int, value: int, diff: int, phantom: int)

  const ZERO: Tally := Tally(0, 0, 0, 0, 0, 0, 0)

  function Plus(a: Tally, b: Tally): Tally {
    Tally(a.exp + b.exp, a.act + b.act, a.price + b.price, a.prio + b.prio,
          a.value + b.value, a.diff + b.diff, a.phantom + b.phantom)
  }

  ghost function Total<T(!new)>(s: set<T>, f: T -> Tally): Tally {
    if s == {} then ZERO else var x :| x in s; Plus(f(x), Total(s - {x}, f))
  }

  lemma {:induction false} TotalPick<T(!new)>(s: set<T>, f: T -> Tally, x: T)
    requires x in s
    ensures Total(s, f) == Plus(f(x), Total(s - {x}, f))
    decreases s
  {
    var y :| y in s && Total(s, f) == Plus(f(y), Total(s - {y}, f));
    if y != x {
      TotalPick(s - {y}, f, x);
      var rest := Total(s - {y} - {x}, f);
      assert s - {y} - {x} == s - {x} - {y};
      TotalPick(s - {x}, f, y);
      PlusTurn(f(x), f(y), rest);
    }
  }

  lemma PlusTurn(a: Tally, b: Tally, c: Tally)
    ensures Plus(b, Plus(a, c)) == Plus(a, Plus(b, c))
  {
  }

  lemma TotalEmpty<T(!new)>(f: T -> Tally)
    ensures Total({}, f) == ZERO
  {
  }

  lemma {:induction false} TotalPlus<T(!new)>(s: set<T>, f: T -> Tally, g: T -> Tally, h: T -> Tally)
    requires forall x :: x in s ==> f(x) == Plus(g(x), h(x))
    ensures Total(s, f) == Plus(Total(s, g), Total(s, h))
    decreases s
  {
    hide Total, Plus;
    if s == {} {
      TotalEmpty(f);
      TotalEmpty(g);
      TotalEmpty(h);
      PlusSwap(ZERO, ZERO, ZERO, ZERO);
    } else {
      var x :| x in s;
      TotalPick(s, f, x);
      TotalPick(s, g, x);
      TotalPick(s, h, x);
      TotalPlus(s - {x}, f, g, h);
      PlusSwap(g(x), h(x), Total(s - {x}, g), Total(s - {x}, h));
    }
  }

  lemma PlusSwap(a: Tally, b: Tally, c: Tally, d: Tally)
    ensures Plus(Plus(a, b), Plus(c, d)) == Plus(Plus(a, c), Plus(b, d)) && Plus(ZERO, a) == a
  {
  }

  /** Terms that are zero may be added or left out, and equal terms exchanged. */
  lemma {:induction false} TotalSame<T(!new)>(s: set<T>, t: set<T>, f: T -> Tally, g: T -> Tally)
    requires s <= t
    requires forall x :: x in s ==> f(x) == g(x)
    requires forall x :: x in t - s ==> g(x) == ZERO
    ensures Total(s, f) == Total(t, g)
    decreases t
  {
    hide Total;
    if t == {} {
      TotalEmpty(f);
      TotalEmpty(g);
      assert s == {};
    } else {
      var x :| x in t;
      TotalPick(t, g, x);
      TotalSame(s - {x}, t - {x}, f, g);
      if x in s {
        TotalPick(s, f, x);
      } else {
        assert s - {x} == s;
      }
    }
  }
}
