/** The telemetry consumer's buffer: like the test runner's, but it gives up on a
    missing id once enough events have piled up behind it. */
module KafkaBuffer {
  import opened Orders
  import opened Ranging

  const JITTER_GAP_THRESHOLD: nat := 100

  datatype Event =
    | AckEvent(seqId: int, orderId: Id, status: Status)
    | FillEvent(seqId: int, orderId: Id, qty: int, price: int, matchedWith: Id)

  type Buffer = map<int, Event>

  /** Buffered ids the drain has already gone past: it will never look at them again. */
  function Stale(buf: Buffer, next: int): set<int> { set k | k in buf && k < next }

  /** The events buffered at ids lo, lo + 1, ..., hi - 1, in that order. */
  function Between(buf: Buffer, lo: int, hi: int): seq<Event>
    decreases hi - lo
  {
    if lo >= hi then []
    else Between(buf, lo, hi - 1) + if hi - 1 in buf then [buf[hi - 1]] else []
  }

  /** The buffer once the ids in [lo, hi) have been delivered. */
  function Outside(buf: Buffer, lo: int, hi: int): Buffer {
    map k | k in buf && !(lo <= k < hi) :: buf[k]
  }

  function Acks(evs: seq<Event>): nat {
    if evs == [] then 0 else Acks(evs[..|evs| - 1]) + if evs[|evs| - 1].AckEvent? then 1 else 0
  }

  // ---------------------------------------------------------------- the drain loop, one turn at a time

  datatype Loop = Loop(buf: Buffer, next: int)

  /** Nothing at the next id, and too few events behind the gap to jump it. */
  predicate Stopped(s: Loop) { s.next !in s.buf && |s.buf| < JITTER_GAP_THRESHOLD }

  /** Deliver the next event if it is there, else skip its id. */
  function Turn(s: Loop): Loop { Loop(s.buf - {s.next}, s.next + 1) }

  function Turns(s: Loop, n: nat): Loop
    decreases n
  {
    if n == 0 then s else Turns(Turn(s), n - 1)
  }

  lemma TurnKeepsStale(s: Loop)
    ensures Stale(Turn(s).buf, Turn(s).next) == Stale(s.buf, s.next)
  {
  }

  lemma StaleFits(buf: Buffer, next: int)
    ensures |Stale(buf, next)| <= |buf|
    ensures |Stale(buf, next)| < |buf| ==> exists k :: k in buf && k >= next
  {
    var s := Stale(buf, next);
    Fits(s, buf.Keys);
    if s == buf.Keys { assert |s| == |buf.Keys| == |buf|; }
    if |s| < |buf| {
      assert s != buf.Keys;
      var k :| k in buf.Keys && k !in s;
    }
  }

  lemma {:induction false} Fits(a: set<int>, b: set<int>)
    requires a <= b
    ensures |a| <= |b|
  {
    assert |b - a| == |b| - |a|;
  }

  /** An upper bound on the keys, from which the loop can count down. */
  ghost predicate Below(buf: Buffer, top: int) { forall k :: k in buf ==> k < top }

  ghost function Top(keys: set<int>): (top: int)
    ensures forall k :: k in keys ==> k < top
    decreases keys
  {
    if keys == {} then 0
    else
      var x := Choose(keys);
      var t := Top(keys - {x});
      assert forall k :: k in keys ==> k == x || k in keys - {x};
      if t <= x then x + 1 else t
  }

  /** While a live key remains or the next id is there, the distance to the largest
      key shrinks; the loop stops at the latest when it has passed it. */
  lemma {:induction false} StopsByTop(s: Loop, top: int) returns (n: nat)
    requires Below(s.buf, top) && |Stale(s.buf, s.next)| < JITTER_GAP_THRESHOLD
    ensures Stopped(Turns(s, n))
    decreases if top > s.next then top - s.next else 0
  {
    if Stopped(s) {
      n := 0;
    } else {
      StaleFits(s.buf, s.next);
      TurnKeepsStale(s);
      assert s.next < top;
      n := StopsByTop(Turn(s), top);
      n := n + 1;
    }
  }

  lemma {:induction false} NeverStops(s: Loop, n: nat)
    requires |Stale(s.buf, s.next)| >= JITTER_GAP_THRESHOLD
    ensures !Stopped(Turns(s, n))
    decreases n
  {
    hide Stale, Turn;
    if n == 0 {
      StaleFits(s.buf, s.next);
    } else {
      TurnKeepsStale(s);
      NeverStops(Turn(s), n - 1);
    }
  }

  /** The drain terminates exactly when fewer than 100 buffered ids are stale. */
  lemma DrainTerminates(s: Loop)
    ensures (exists n: nat :: Stopped(Turns(s, n))) <==> |Stale(s.buf, s.next)| < JITTER_GAP_THRESHOLD
  {
    hide Stale, Turns, Stopped;
    if |Stale(s.buf, s.next)| < JITTER_GAP_THRESHOLD {
      var n := StopsByTop(s, Top(s.buf.Keys));
      assert Stopped(Turns(s, n));
    } else {
      forall n: nat ensures !Stopped(Turns(s, n)) { NeverStops(s, n); }
    }
  }

  /** The id at which the drain stops. */
  ghost function StopAt(s: Loop, top: int): (to: int)
    requires Below(s.buf, top) && |Stale(s.buf, s.next)| < JITTER_GAP_THRESHOLD
    ensures to >= s.next
    decreases if top > s.next then top - s.next else 0
  {
    if Stopped(s) then s.next
    else
      StaleFits(s.buf, s.next);
      TurnKeepsStale(s);
      StopAt(Turn(s), top)
  }

  lemma StopStep(s: Loop, top: int)
    requires Below(s.buf, top) && |Stale(s.buf, s.next)| < JITTER_GAP_THRESHOLD
    ensures Stopped(s) ==> StopAt(s, top) == s.next
    ensures !Stopped(s) ==>
              && s.next < top && Below(Turn(s).buf, top) && Stale(Turn(s).buf, Turn(s).next) == Stale(s.buf, s.next)
              && StopAt(s, top) == StopAt(Turn(s), top)
  {
    StaleFits(s.buf, s.next);
    TurnKeepsStale(s);
  }

  // ---------------------------------------------------------------- the consumer

  class Consumer {
    var nextSeqID: int
    var jitterBuffer: Buffer
    var orderCount: int
    var fillCount: int
    var handled: seq<Event>   // the calls made on the judge, in order

    /** The counters count what was handled: acknowledgements and fills. */
    ghost predicate Counted() reads this {
      orderCount == Acks(handled) && orderCount + fillCount == |handled|
    }

    constructor ()
      ensures nextSeqID == 1 && jitterBuffer == map[] && handled == [] && Counted()
    {
      nextSeqID, jitterBuffer, orderCount, fillCount, handled := 1, map[], 0, 0, [];
    }

    method Handle(e: Event)
      modifies this`orderCount, this`fillCount, this`handled
      ensures handled == old(handled) + [e]
      ensures old(Counted()) ==> Counted()
    {
      assert (handled + [e])[..|handled|] == handled;
      match e {
        case AckEvent(_, _, _) => orderCount := orderCount + 1;
        case FillEvent(_, _, _, _, _) => fillCount := fillCount + 1;
      }
      handled := handled + [e];
    }

    /** One turn of the drain loop: deliver, skip, or stop. */
    method DrainOne() returns (more: bool)
      modifies this
      ensures more == !Stopped(Loop(old(jitterBuffer), old(nextSeqID)))
      ensures more ==> Loop(jitterBuffer, nextSeqID) == Turn(Loop(old(jitterBuffer), old(nextSeqID)))
      ensures !more ==> jitterBuffer == old(jitterBuffer) && nextSeqID == old(nextSeqID)
      ensures handled == if old(nextSeqID) in old(jitterBuffer) then old(handled) + [old(jitterBuffer)[old(nextSeqID)]]
                         else old(handled)
      ensures old(Counted()) ==> Counted()
    {
      if nextSeqID !in jitterBuffer {
        if |jitterBuffer| >= JITTER_GAP_THRESHOLD {
          assert jitterBuffer - {nextSeqID} == jitterBuffer;
          nextSeqID := nextSeqID + 1;
          return true;
        }
        return false;
      }
      var event := jitterBuffer[nextSeqID];
      jitterBuffer := jitterBuffer - {nextSeqID};
      Handle(event);
      nextSeqID := nextSeqID + 1;
      return true;
    }

    method DrainJitterBuffer()
      requires |Stale(jitterBuffer, nextSeqID)| < JITTER_GAP_THRESHOLD
      modifies this
      ensures nextSeqID >= old(nextSeqID) && Stopped(Loop(jitterBuffer, nextSeqID))
      ensures jitterBuffer == Outside(old(jitterBuffer), old(nextSeqID), nextSeqID)
      ensures handled == old(handled) + Between(old(jitterBuffer), old(nextSeqID), nextSeqID)
      ensures old(Counted()) ==> Counted()
      ensures Stale(jitterBuffer, nextSeqID) == Stale(old(jitterBuffer), old(nextSeqID))
      ensures nextSeqID == StopAt(Loop(old(jitterBuffer), old(nextSeqID)), Top(old(jitterBuffer).Keys))
    {
      hide Stale, StopAt, Outside, Between, Acks, Going;
      ghost var top := Top(jitterBuffer.Keys);
      ghost var buf, start, before := jitterBuffer, nextSeqID, handled;
      OutsideNone(buf, start);
      GoingStart(buf, start);
      while true
        invariant nextSeqID >= start && Going(buf, start, nextSeqID, top)
        invariant jitterBuffer == Outside(buf, start, nextSeqID)
        invariant handled == before + Between(buf, start, nextSeqID)
        invariant old(Counted()) ==> Counted()
        decreases if top > nextSeqID then top - nextSeqID else 0
      {
        OutsideStep(buf, start, nextSeqID);
        GoingStep(buf, start, nextSeqID, top);
        var more := DrainOne();
        if !more { break; }
      }
    }

    /** Buffer one event and drain. */
    method ProcessRecord(event: Event)
      requires |Stale(jitterBuffer[event.seqId := event], nextSeqID)| < JITTER_GAP_THRESHOLD
      modifies this
      ensures Stopped(Loop(jitterBuffer, nextSeqID))
      ensures Progress() == Receive(old(Progress()), event) && (old(Counted()) ==> Counted())
    {
      jitterBuffer := jitterBuffer[event.seqId := event];
      DrainJitterBuffer();
    }

    ghost function Progress(): Drained
      reads this
    {
      Drained(jitterBuffer, nextSeqID, handled)
    }

    /** Whatever is left goes out in id order, gaps or not. */
    method FlushRemainingBuffer() returns (ghost ids: seq<int>)
      modifies this
      ensures Ascending(ids) && Elems(ids) == old(jitterBuffer).Keys
      ensures handled == old(handled) + Pick(old(jitterBuffer), ids)
      ensures jitterBuffer == map[] && nextSeqID == old(nextSeqID) && (old(Counted()) ==> Counted())
    {
      hide Ascending, Pick, Elems;
      var seqIDs := SortedKeys(jitterBuffer.Keys);
      ids := seqIDs;
      ghost var buf, before := jitterBuffer, handled;
      var i := 0;
      PickAll(buf, seqIDs);
      while i < |seqIDs|
        invariant 0 <= i <= |seqIDs|
        invariant jitterBuffer.Keys == Elems(seqIDs[i..])
        invariant forall k :: k in jitterBuffer ==> k in buf && jitterBuffer[k] == buf[k]
        invariant handled == before + Pick(buf, seqIDs[..i])
        invariant nextSeqID == old(nextSeqID) && (old(Counted()) ==> Counted())
      {
        var id := seqIDs[i];
        TakeOne(buf, seqIDs, i);
        var event := jitterBuffer[id];
        jitterBuffer := jitterBuffer - {id};
        Handle(event);
        i := i + 1;
      }
      assert seqIDs[..i] == seqIDs;
      NoneLeft(seqIDs, i);
    }
  }

  datatype Drained = Drained(buf: Buffer, next: int, out: seq<Event>)

  /** One record buffered and the buffer drained. */
  ghost function Receive(s: Drained, e: Event): Drained
    requires |Stale(s.buf[e.seqId := e], s.next)| < JITTER_GAP_THRESHOLD
  {
    var b := s.buf[e.seqId := e];
    var to := StopAt(Loop(b, s.next), Top(b.Keys));
    Drained(Outside(b, s.next, to), to, s.out + Between(b, s.next, to))
  }

  /** The drain that began at `start` has reached `n` and will stop where it was going to. */
  ghost predicate Going(buf: Buffer, start: int, n: int, top: int) {
    var s := Loop(Outside(buf, start, n), n);
    && |Stale(buf, start)| < JITTER_GAP_THRESHOLD && Below(buf, top)
    && Stale(s.buf, n) == Stale(buf, start) && Below(s.buf, top)
    && StopAt(s, top) == StopAt(Loop(buf, start), top)
  }

  lemma GoingStart(buf: Buffer, start: int)
    requires |Stale(buf, start)| < JITTER_GAP_THRESHOLD
    ensures Going(buf, start, start, Top(buf.Keys))
  {
    hide Stale, StopAt;
    OutsideNone(buf, start);
  }

  lemma GoingStep(buf: Buffer, start: int, n: int, top: int)
    requires Going(buf, start, n, top) && start <= n
    ensures var s := Loop(Outside(buf, start, n), n);
            && Stale(s.buf, n) == Stale(buf, start) && |Stale(buf, start)| < JITTER_GAP_THRESHOLD && Below(buf, top)
            && Turn(s) == Loop(Outside(buf, start, n + 1), n + 1)
            && if Stopped(s) then StopAt(Loop(buf, start), top) == n else n < top && Going(buf, start, n + 1, top)
  {
    hide Stale, StopAt, Outside;
    OutsideStep(buf, start, n);
    StopStep(Loop(Outside(buf, start, n), n), top);
  }

  lemma OutsideNone(buf: Buffer, start: int)
    ensures Outside(buf, start, start) == buf && Between(buf, start, start) == []
  {
  }

  lemma OutsideStep(buf: Buffer, start: int, next: int)
    requires start <= next
    ensures Outside(buf, start, next + 1) == Outside(buf, start, next) - {next}
    ensures next in Outside(buf, start, next) <==> next in buf
    ensures next in buf ==> Outside(buf, start, next)[next] == buf[next]
    ensures Between(buf, start, next + 1)
         == if next in buf then Between(buf, start, next) + [buf[next]] else Between(buf, start, next)
  {
    var b := Between(buf, start, next);
    if next in buf {
      assert (b + [buf[next]])[..|b|] == b;
    } else {
      assert b + [] == b;
    }
  }

  // ---------------------------------------------------------------- sorting the leftover ids

  predicate Ascending(ids: seq<int>) { forall i, j :: 0 <= i < j < |ids| ==> ids[i] < ids[j] }

  function Pick(buf: Buffer, ids: seq<int>): seq<Event> {
    if ids == [] then []
    else
      var k := ids[|ids| - 1];
      Pick(buf, ids[..|ids| - 1]) + if k in buf then [buf[k]] else []
  }

  function Elems(ids: seq<int>): set<int> { set k | k in ids }

  lemma PickAll(buf: Buffer, ids: seq<int>)
    ensures ids[0..] == ids && Pick(buf, ids[..0]) == []
  {
  }

  lemma NoneLeft(ids: seq<int>, i: nat)
    requires i == |ids|
    ensures Elems(ids[i..]) == {}
  {
  }

  lemma TakeOne(buf: Buffer, ids: seq<int>, i: nat)
    requires i < |ids| && Ascending(ids)
    ensures Pick(buf, ids[..i + 1]) == Pick(buf, ids[..i]) + if ids[i] in buf then [buf[ids[i]]] else []
    ensures Elems(ids[i + 1..]) == Elems(ids[i..]) - {ids[i]} && ids[i] in Elems(ids[i..])
  {
    assert ids[..i + 1][..i] == ids[..i];
    var rest := ids[i + 1..];
    assert ids[i..] == [ids[i]] + rest;
    forall j | 0 <= j < |rest| ensures rest[j] != ids[i] { assert ids[i + 1 + j] == rest[j]; }
  }

  /** sort.Slice on the leftover ids. */
  method SortedKeys(keys: set<int>) returns (ids: seq<int>)
    ensures Ascending(ids) && Elems(ids) == keys
  {
    ids := [];
    var todo := keys;
    while todo != {}
      invariant todo <= keys && Ascending(ids) && Elems(ids) == keys - todo
      invariant forall k, j :: k in todo && j in ids ==> j < k
      decreases todo
    {
      var m := Least(todo);
      SnocKeys(ids, m);
      ids := ids + [m];
      todo := todo - {m};
    }
  }

  lemma SnocKeys(ids: seq<int>, m: int)
    requires Ascending(ids) && forall j :: j in ids ==> j < m
    ensures Ascending(ids + [m]) && Elems(ids + [m]) == Elems(ids) + {m}
    ensures forall j :: j in ids + [m] ==> j in ids || j == m
  {
    assert forall i :: 0 <= i < |ids| ==> ids[i] in ids;
    assert m in [m];
  }

  method Least(keys: set<int>) returns (m: int)
    requires keys != {}
    ensures m in keys && forall k :: k in keys ==> m <= k
  {
    var todo := keys;
    m := PickOne(todo);
    todo := todo - {m};
    while todo != {}
      invariant todo <= keys && m in keys && forall k :: k in keys && k !in todo ==> m <= k
      decreases todo
    {
      var k := PickOne(todo);
      if k < m { m := k; }
      todo := todo - {k};
    }
  }

  // ---------------------------------------------------------------- whole runs

  predicate DistinctIds(evs: seq<Event>) {
    forall i, j :: 0 <= i < j < |evs| ==> evs[i].seqId != evs[j].seqId
  }

  predicate Increasing(evs: seq<Event>) {
    forall i, j :: 0 <= i < j < |evs| ==> evs[i].seqId < evs[j].seqId
  }

  /** Every drain of the run terminates. */
  ghost predicate Manageable(evs: seq<Event>)
    decreases evs, 0
  {
    evs == [] ||
    var prev, e := evs[..|evs| - 1], evs[|evs| - 1];
    Manageable(prev) && |Stale(State(prev).buf[e.seqId := e], State(prev).next)| < JITTER_GAP_THRESHOLD
  }

  ghost function State(evs: seq<Event>): Drained
    requires Manageable(evs)
    decreases evs, 1
  {
    if evs == [] then Drained(map[], 1, [])
    else Receive(State(evs[..|evs| - 1]), evs[|evs| - 1])
  }

  /** Ids that arrive when the consumer has already gone past them, counted once each. */
  ghost function Late(evs: seq<Event>): nat
    requires Manageable(evs)
  {
    if evs == [] then 0
    else
      var prev, e := evs[..|evs| - 1], evs[|evs| - 1];
      Late(prev) + if e.seqId < State(prev).next && e.seqId !in State(prev).buf then 1 else 0
  }

  /** Events that were still buffered when another one came under their id. */
  ghost function Lost(evs: seq<Event>): multiset<Event>
    requires Manageable(evs)
  {
    if evs == [] then multiset{}
    else
      var prev, e := evs[..|evs| - 1], evs[|evs| - 1];
      Lost(prev) + Overwritten(State(prev).buf, e)
  }

  /** Every record finds its id free in the buffer. */
  ghost predicate NoOverwrite(evs: seq<Event>)
    requires Manageable(evs)
  {
    evs == [] ||
    var prev, e := evs[..|evs| - 1], evs[|evs| - 1];
    NoOverwrite(prev) && e.seqId !in State(prev).buf
  }

  predicate Keyed(buf: Buffer) { forall k :: k in buf ==> buf[k].seqId == k }

  /** How often an event is buffered. */
  function Waits(buf: Buffer, e: Event): nat { if e.seqId in buf && buf[e.seqId] == e then 1 else 0 }

  /** Handled so far in increasing id order; whatever was received is handled, buffered or
      lost, as often as it was received. */
  ghost predicate Sound(s: Drained, evs: seq<Event>, lost: multiset<Event>) {
    && Increasing(s.out) && (forall i :: 0 <= i < |s.out| ==> s.out[i].seqId < s.next) && Keyed(s.buf)
    && forall e :: multiset(evs)[e] == multiset(s.out)[e] + Waits(s.buf, e) + lost[e]
  }

  lemma {:induction false} BetweenCount(buf: Buffer, lo: int, hi: int, e: Event)
    requires Keyed(buf)
    ensures multiset(Between(buf, lo, hi))[e] == if lo <= e.seqId < hi then Waits(buf, e) else 0
    decreases hi - lo
  {
    if lo < hi {
      BetweenCount(buf, lo, hi - 1, e);
      OutsideStep(buf, lo, hi - 1);
      hide Between, Outside;
      if hi - 1 in buf { SnocCount(Between(buf, lo, hi - 1), buf[hi - 1], e); }
    }
  }

  lemma {:induction false} BetweenIncreasing(buf: Buffer, lo: int, hi: int)
    requires Keyed(buf)
    ensures Increasing(Between(buf, lo, hi))
    ensures forall i :: 0 <= i < |Between(buf, lo, hi)| ==> lo <= Between(buf, lo, hi)[i].seqId < hi
    decreases hi - lo
  {
    if lo < hi { BetweenIncreasing(buf, lo, hi - 1); }
  }

  lemma IncreasingAppend(a: seq<Event>, b: seq<Event>, m: int)
    requires Increasing(a) && Increasing(b)
    requires forall i :: 0 <= i < |a| ==> a[i].seqId < m
    requires forall i :: 0 <= i < |b| ==> m <= b[i].seqId
    ensures Increasing(a + b)
  {
  }

  lemma LastIsFresh(evs: seq<Event>, e: Event)
    requires DistinctIds(evs + [e])
    ensures DistinctIds(evs) && forall x :: x in evs ==> x.seqId != e.seqId
  {
    forall x | x in evs ensures x.seqId != e.seqId {
      var i :| 0 <= i < |evs| && evs[i] == x;
      assert (evs + [e])[i] == x && (evs + [e])[|evs|] == e;
    }
    assert forall i :: 0 <= i < |evs| ==> (evs + [e])[i] == evs[i];
  }

  /** One more record: counted as received, and what it overwrites as lost. */
  lemma BufferCount(buf: Buffer, e: Event, x: Event)
    requires Keyed(buf)
    ensures Keyed(buf[e.seqId := e])
    ensures Waits(buf[e.seqId := e], x) + (if e.seqId in buf && buf[e.seqId] == x then 1 else 0)
         == Waits(buf, x) + if x == e then 1 else 0
  {
  }

  lemma OutsideCount(buf: Buffer, lo: int, hi: int, e: Event)
    requires Keyed(buf)
    ensures Keyed(Outside(buf, lo, hi))
    ensures Waits(Outside(buf, lo, hi), e) == if lo <= e.seqId < hi then 0 else Waits(buf, e)
  {
  }

  function Overwritten(buf: Buffer, e: Event): multiset<Event> {
    if e.seqId in buf then multiset{buf[e.seqId]} else multiset{}
  }

  lemma OverwrittenCount(buf: Buffer, e: Event, lost: multiset<Event>, x: Event)
    ensures (lost + Overwritten(buf, e))[x] == lost[x] + if e.seqId in buf && buf[e.seqId] == x then 1 else 0
  {
  }

  lemma AppendCount(a: seq<Event>, b: seq<Event>, x: Event)
    ensures multiset(a + b)[x] == multiset(a)[x] + multiset(b)[x]
  {
    assert multiset(a + b) == multiset(a) + multiset(b);
  }

  lemma SnocCount(a: seq<Event>, e: Event, x: Event)
    ensures multiset(a + [e])[x] == multiset(a)[x] + if x == e then 1 else 0
  {
    assert multiset(a + [e]) == multiset(a) + multiset{e};
  }

  /** A drain keeps the account of each single event. */
  lemma DrainConserves(s: Drained, evs: seq<Event>, lost: multiset<Event>, e: Event, to: int, x: Event)
    requires Keyed(s.buf) && to >= s.next
    requires multiset(evs)[x] == multiset(s.out)[x] + Waits(s.buf, x) + lost[x]
    ensures var b := s.buf[e.seqId := e];
            multiset(evs + [e])[x] == multiset(s.out + Between(b, s.next, to))[x] + Waits(Outside(b, s.next, to), x)
                                      + (lost + Overwritten(s.buf, e))[x]
  {
    hide Between, Outside, Waits, Keyed, Overwritten;
    var b := s.buf[e.seqId := e];
    BufferCount(s.buf, e, x);
    BetweenCount(b, s.next, to, x);
    OutsideCount(b, s.next, to, x);
    OverwrittenCount(s.buf, e, lost, x);
    AppendCount(s.out, Between(b, s.next, to), x);
    SnocCount(evs, e, x);
  }

  lemma DrainIsSound(s: Drained, evs: seq<Event>, lost: multiset<Event>, e: Event, to: int)
    requires Sound(s, evs, lost) && to >= s.next
    ensures var b := s.buf[e.seqId := e];
            Sound(Drained(Outside(b, s.next, to), to, s.out + Between(b, s.next, to)), evs + [e],
                  lost + Overwritten(s.buf, e))
  {
    hide Increasing, Between, Outside, Waits, Keyed, Overwritten;
    var b := s.buf[e.seqId := e];
    var now := Between(b, s.next, to);
    BufferCount(s.buf, e, e);
    BetweenIncreasing(b, s.next, to);
    IncreasingAppend(s.out, now, s.next);
    OutsideCount(b, s.next, to, e);
    forall x ensures multiset(evs + [e])[x]
                  == multiset(s.out + now)[x] + Waits(Outside(b, s.next, to), x) + (lost + Overwritten(s.buf, e))[x]
    {
      DrainConserves(s, evs, lost, e, to, x);
    }
  }

  lemma NothingReceived()
    ensures Manageable([]) && Sound(State([]), [], Lost([])) && NoOverwrite([])
  {
  }

  lemma ReceiveIsSound(s: Drained, evs: seq<Event>, lost: multiset<Event>, e: Event)
    requires Sound(s, evs, lost) && |Stale(s.buf[e.seqId := e], s.next)| < JITTER_GAP_THRESHOLD
    ensures Sound(Receive(s, e), evs + [e], lost + Overwritten(s.buf, e))
  {
    hide Sound, Between, Outside, StopAt, Stale, Overwritten;
    var b := s.buf[e.seqId := e];
    DrainIsSound(s, evs, lost, e, StopAt(Loop(b, s.next), Top(b.Keys)));
  }

  lemma StateSnoc(prev: seq<Event>, e: Event)
    requires Manageable(prev + [e])
    ensures Manageable(prev) && |Stale(State(prev).buf[e.seqId := e], State(prev).next)| < JITTER_GAP_THRESHOLD
    ensures State(prev + [e]) == Receive(State(prev), e)
    ensures Lost(prev + [e]) == Lost(prev) + Overwritten(State(prev).buf, e)
  {
    hide Stale, Receive, Overwritten;
    assert (prev + [e])[..|prev|] == prev;
  }

  /** In every run whose drains terminate, whatever ids the events carry. */
  lemma {:induction false} AlwaysSound(evs: seq<Event>)
    requires Manageable(evs)
    ensures Sound(State(evs), evs, Lost(evs))
  {
    hide Sound, Stale, Overwritten, State, Lost, Manageable, Receive, NoOverwrite;
    if evs == [] {
      NothingReceived();
    } else {
      var prev, e := evs[..|evs| - 1], evs[|evs| - 1];
      assert evs == prev + [e];
      StateSnoc(prev, e);
      AlwaysSound(prev);
      ReceiveIsSound(State(prev), prev, Lost(prev), e);
    }
  }

  lemma {:induction false} LosesNothing(evs: seq<Event>)
    requires Manageable(evs)
    ensures Lost(evs) == multiset{} <==> NoOverwrite(evs)
  {
    hide State, Stale;
    if evs == [] {
      NothingReceived();
    } else {
      var prev, e := evs[..|evs| - 1], evs[|evs| - 1];
      LosesNothing(prev);
      hide Manageable;
      if e.seqId in State(prev).buf { assert State(prev).buf[e.seqId] in Lost(evs); }
    }
  }

  lemma LastIsNew(ids: seq<int>)
    requires Ascending(ids) && ids != []
    ensures var prev, k := ids[..|ids| - 1], ids[|ids| - 1];
            Ascending(prev) && k !in prev && forall x :: x in ids <==> x in prev || x == k
  {
    assert ids == ids[..|ids| - 1] + [ids[|ids| - 1]];
  }

  lemma {:induction false} PickCount(buf: Buffer, ids: seq<int>, e: Event)
    requires Keyed(buf) && Ascending(ids)
    ensures multiset(Pick(buf, ids))[e] == if e.seqId in ids then Waits(buf, e) else 0
  {
    if ids != [] {
      var prev, k := ids[..|ids| - 1], ids[|ids| - 1];
      LastIsNew(ids);
      hide Ascending;
      PickCount(buf, prev, e);
      var before := Pick(buf, prev);
      assert Pick(buf, ids) == before + if k in buf then [buf[k]] else [];
      hide Pick;
      if k in buf { SnocCount(before, buf[k], e); } else { assert before + [] == before; }
    }
  }

  lemma {:induction false} PickIncreasing(buf: Buffer, ids: seq<int>)
    requires Keyed(buf) && Ascending(ids)
    ensures Increasing(Pick(buf, ids))
    ensures forall i :: 0 <= i < |Pick(buf, ids)| ==> Pick(buf, ids)[i].seqId in ids
  {
    if ids != [] {
      var prev, k := ids[..|ids| - 1], ids[|ids| - 1];
      PickIncreasing(buf, prev);
      assert ids == prev + [k];
      assert forall j :: j in prev ==> j < k;
    }
  }

  /** In every run whose drains terminate, the drains hand on events in increasing id order,
      and so does the final flush. Together they hand on every received event exactly as often
      as it was received if and only if no record came whose id was in the buffer; what is
      missing otherwise is what was overwritten. */
  lemma ExactlyOnce(evs: seq<Event>, ids: seq<int>)
    requires Manageable(evs) && Ascending(ids) && Elems(ids) == State(evs).buf.Keys
    ensures var s := State(evs);
            var flushed := Pick(s.buf, ids);
            && Increasing(s.out) && Increasing(flushed)
            && multiset(evs) == multiset(s.out + flushed) + Lost(evs)
            && (multiset(s.out + flushed) == multiset(evs) <==> NoOverwrite(evs))
  {
    hide State, Manageable, Ascending, Lost, NoOverwrite, Increasing;
    hide Pick;
    AlwaysSound(evs);
    LosesNothing(evs);
    var s := State(evs);
    var flushed := Pick(s.buf, ids);
    PickIncreasing(s.buf, ids);
    forall e ensures multiset(evs)[e] == (multiset(s.out + flushed) + Lost(evs))[e] {
      PickCount(s.buf, ids, e);
      assert e.seqId in ids <==> e.seqId in Elems(ids);
    }
    assert multiset(evs) == multiset(s.out + flushed) + Lost(evs);
    if multiset(s.out + flushed) == multiset(evs) { NoneLost(multiset(evs), Lost(evs)); }
  }

  lemma NoneLost(all: multiset<Event>, lost: multiset<Event>)
    requires all == all + lost
    ensures lost == multiset{}
  {
    assert |all + lost| == |all| + |lost|;
  }

  /** Ids that are all different are enough. */
  lemma {:induction false} DistinctIdsSuffice(evs: seq<Event>)
    requires Manageable(evs) && DistinctIds(evs)
    ensures NoOverwrite(evs)
  {
    hide State, Stale;
    if evs == [] {
      NothingReceived();
    } else {
      var prev, e := evs[..|evs| - 1], evs[|evs| - 1];
      assert evs == prev + [e];
      LastIsFresh(prev, e);
      DistinctIdsSuffice(prev);
      IdIsFree(prev, e);
    }
  }

  lemma WasReceived(s: Drained, evs: seq<Event>, lost: multiset<Event>)
    requires Sound(s, evs, lost)
    ensures forall k :: k in s.buf ==> s.buf[k] in evs && s.buf[k].seqId == k
  {
    hide Increasing;
    forall k | k in s.buf ensures s.buf[k] in evs {
      assert Waits(s.buf, s.buf[k]) == 1;
      assert s.buf[k] in multiset(evs);
    }
  }

  /** Stale ids are exactly the late arrivals, so drains terminate as long as fewer
      than 100 ids arrive after they have been passed. */
  lemma {:induction false} StaleCountsLate(evs: seq<Event>)
    requires Manageable(evs)
    ensures |Stale(State(evs).buf, State(evs).next)| == Late(evs)
    ensures Late(evs) < JITTER_GAP_THRESHOLD
  {
    hide Stale, State, Late, Manageable;
    if evs == [] {
      NothingStale();
    } else {
      var prev, e := evs[..|evs| - 1], evs[|evs| - 1];
      assert evs == prev + [e];
      LateStep(prev, e);
      StaleCountsLate(prev);
    }
  }

  lemma NothingStale()
    ensures Manageable([]) && |Stale(State([]).buf, State([]).next)| == 0 == Late([])
  {
    assert Stale(map[], 1) == {};
  }

  lemma LateStep(prev: seq<Event>, e: Event)
    requires Manageable(prev + [e])
    ensures Manageable(prev)
    ensures var s, t := State(prev), State(prev + [e]);
            && Late(prev + [e]) - Late(prev) == |Stale(t.buf, t.next)| - |Stale(s.buf, s.next)|
            && |Stale(t.buf, t.next)| < JITTER_GAP_THRESHOLD
  {
    hide Stale, Receive;
    assert (prev + [e])[..|prev|] == prev;
    var s := State(prev);
    ReceiveStale(s, e);
    NewStale(s.buf, s.next, e);
  }

  lemma ReceiveStale(s: Drained, e: Event)
    requires |Stale(s.buf[e.seqId := e], s.next)| < JITTER_GAP_THRESHOLD
    ensures var t := Receive(s, e); Stale(t.buf, t.next) == Stale(s.buf[e.seqId := e], s.next)
  {
    hide Stale, StopAt, Outside;
    var b := s.buf[e.seqId := e];
    OutsideStale(b, s.next, StopAt(Loop(b, s.next), Top(b.Keys)));
  }

  lemma NewStale(buf: Buffer, next: int, e: Event)
    ensures |Stale(buf[e.seqId := e], next)|
         == |Stale(buf, next)| + if e.seqId < next && e.seqId !in buf then 1 else 0
  {
    assert Stale(buf[e.seqId := e], next) == Stale(buf, next) + if e.seqId < next then {e.seqId} else {};
  }

  lemma OutsideStale(buf: Buffer, lo: int, hi: int)
    requires lo <= hi
    ensures Stale(Outside(buf, lo, hi), hi) == Stale(buf, lo)
  {
  }

  /** One more event is safe exactly when the late arrivals stay below the threshold. */
  lemma SafeToReceive(evs: seq<Event>, e: Event)
    requires Manageable(evs)
    ensures Manageable(evs + [e])
            <==> Late(evs) + (if e.seqId < State(evs).next && e.seqId !in State(evs).buf then 1 else 0)
                 < JITTER_GAP_THRESHOLD
  {
    StaleCountsLate(evs);
    assert (evs + [e])[..|evs|] == evs;
    NewStale(State(evs).buf, State(evs).next, e);
  }

  // ---------------------------------------------------------------- a run whose drain never returns

  function EventAt(k: int): Event { AckEvent(k, k, Accepted) }

  /** Events numbered from, from + 1, ..., from + n - 1. */
  function Numbered(from: int, n: nat): (evs: seq<Event>)
    ensures |evs| == n && forall i :: 0 <= i < n ==> evs[i] == EventAt(from + i)
  {
    if n == 0 then [] else Numbered(from, n - 1) + [EventAt(from + n - 1)]
  }

  lemma NumberedDistinct(from: int, n: nat)
    ensures DistinctIds(Numbered(from, n))
  {
  }

  lemma SnocState(evs: seq<Event>, e: Event)
    requires Manageable(evs) && |Stale(State(evs).buf[e.seqId := e], State(evs).next)| < JITTER_GAP_THRESHOLD
    ensures Manageable(evs + [e]) && State(evs + [e]) == Receive(State(evs), e)
    ensures State(evs + [e]).next >= State(evs).next
  {
    assert (evs + [e])[..|evs|] == evs;
  }

  function Range(lo: int, n: nat): (r: set<int>)
    ensures |r| == n && forall k :: k in r <==> lo <= k < lo + n
  {
    if n == 0 then {} else Range(lo, n - 1) + {lo + n - 1}
  }

  lemma NoneStale(b: Buffer, next: int)
    requires forall k :: k in b ==> k >= next
    ensures Stale(b, next) == {}
  {
  }

  lemma KeysSize(b: Buffer)
    ensures |b| == |b.Keys|
  {
  }

  /** A record that completes nothing waits. */
  lemma ReceiveWaits(s: Drained, e: Event)
    requires |Stale(s.buf[e.seqId := e], s.next)| < JITTER_GAP_THRESHOLD
    requires Stopped(Loop(s.buf[e.seqId := e], s.next))
    ensures Receive(s, e) == Drained(s.buf[e.seqId := e], s.next, s.out)
  {
    var b := s.buf[e.seqId := e];
    StopStep(Loop(b, s.next), Top(b.Keys));
    OutsideNone(b, s.next);
    hide StopAt, Outside, Between, Stale, Stopped;
    assert s.out + [] == s.out;
  }

  /** Behind a gap fewer than 100 events only pile up. */
  lemma {:induction false} Piled(n: nat)
    requires n < JITTER_GAP_THRESHOLD
    ensures Manageable(Numbered(101, n))
    ensures var s := State(Numbered(101, n)); s.next == 1 && s.out == [] && s.buf.Keys == Range(101, n)
  {
    hide State, Manageable, StopAt, Stale, Receive, Numbered;
    if n == 0 {
      NothingPiled();
    } else {
      var prev, e := Numbered(101, n - 1), EventAt(100 + n);
      Piled(n - 1);
      NumberedSnoc(101, n);
      var s := State(prev);
      var b := s.buf[e.seqId := e];
      assert b.Keys == Range(101, n);
      KeysSize(b);
      NoneStale(b, 1);
      SnocState(prev, e);
      ReceiveWaits(s, e);
    }
  }

  lemma NothingPiled()
    ensures Manageable(Numbered(101, 0)) && State(Numbered(101, 0)) == Drained(map[], 1, []) && Range(101, 0) == {}
  {
  }

  lemma NumberedSnoc(from: int, n: nat)
    requires n > 0
    ensures Numbered(from, n) == Numbered(from, n - 1) + [EventAt(from + n - 1)]
  {
  }

  /** The hundredth event behind the gap jumps it, and the drain goes past all of them. */
  lemma GapJumped()
    ensures Manageable(Numbered(101, 100)) && DistinctIds(Numbered(101, 100))
    ensures State(Numbered(101, 100)).next > 200 && Late(Numbered(101, 100)) == 0
  {
    hide State, Manageable, StopAt, Stale, Numbered, Sound, Between, Outside, Late, Lost, NoOverwrite;
    var prev, e, evs := Numbered(101, 99), EventAt(200), Numbered(101, 100);
    Piled(99);
    NumberedSnoc(101, 100);
    NumberedDistinct(101, 100);
    var s := State(prev);
    var b := s.buf[e.seqId := e];
    assert b.Keys == Range(101, 100);
    NoneStale(b, 1);
    SnocState(prev, e);
    AlwaysSound(evs);
    DistinctIdsSuffice(evs);
    LosesNothing(evs);
    StaleCountsLate(evs);
    ReceiveStale(s, e);
    DrainStops(s, e);
    AllPassed(State(evs), evs);
  }

  lemma DrainStops(s: Drained, e: Event)
    requires |Stale(s.buf[e.seqId := e], s.next)| < JITTER_GAP_THRESHOLD
    ensures var t := Receive(s, e); Stopped(Loop(t.buf, t.next))
  {
    hide Stale, StopAt, Outside, Between, Stopped, Going;
    var b := s.buf[e.seqId := e];
    GoingStart(b, s.next);
    StopsAtStop(b, s.next, s.next, Top(b.Keys));
  }

  /** Where the drain stops it has nothing more to do. */
  lemma {:induction false} StopsAtStop(buf: Buffer, start: int, n: int, top: int)
    requires Going(buf, start, n, top) && start <= n && Below(buf, top)
    requires |Stale(buf, start)| < JITTER_GAP_THRESHOLD
    ensures var to := StopAt(Loop(buf, start), top); Stopped(Loop(Outside(buf, start, to), to))
    decreases if top > n then top - n else 0
  {
    hide Stale, StopAt, Outside, Stopped, Going;
    GoingStep(buf, start, n, top);
    if !Stopped(Loop(Outside(buf, start, n), n)) { StopsAtStop(buf, start, n + 1, top); }
  }

  lemma NumberedMember(from: int, n: nat, k: int)
    requires from <= k < from + n
    ensures EventAt(k) in Numbered(from, n)
  {
    hide Numbered;
    assert Numbered(from, n)[k - from] == EventAt(k);
  }

  /** A hundred events cannot all wait, and the drain cannot have stopped at one of them. */
  lemma AllPassed(s: Drained, evs: seq<Event>)
    requires Sound(s, evs, multiset{}) && evs == Numbered(101, 100) && Stopped(Loop(s.buf, s.next))
    ensures s.next > 200
  {
    hide Numbered, Increasing;
    forall k | 101 <= k <= 200 && k >= s.next ensures k in s.buf {
      NumberedMember(101, 100, k);
      assert EventAt(k) in multiset(evs);
      assert EventAt(k) !in s.out;
    }
    if s.next <= 100 {
      forall k | k in Range(101, 100) ensures k in s.buf { }
      Fits(Range(101, 100), s.buf.Keys);
      KeysSize(s.buf);
    }
  }

  /** Numbered from 1 they all come too late, and the stale ids pile up. */
  lemma {:induction false} LateOnes(n: nat)
    requires n < JITTER_GAP_THRESHOLD
    ensures var evs := Numbered(101, 100) + Numbered(1, n);
            Manageable(evs) && DistinctIds(evs) && State(evs).next > 200 && Late(evs) == n
  {
    hide State, Manageable, Stale, Numbered, Late, DistinctIds;
    if n == 0 {
      GapJumped();
      NumberedNone(1);
      assert Numbered(101, 100) + [] == Numbered(101, 100);
    } else {
      var prev, e := Numbered(101, 100) + Numbered(1, n - 1), EventAt(n);
      LateOnes(n - 1);
      NumberedSnoc(1, n);
      assert Numbered(101, 100) + Numbered(1, n) == prev + [e];
      TwoRangesDistinct(n);
      OneLater(prev, e);
    }
  }

  lemma NumberedNone(from: int)
    ensures Numbered(from, 0) == []
  {
  }

  lemma TwoRangesDistinct(n: nat)
    requires n <= 100
    ensures DistinctIds(Numbered(101, 100) + Numbered(1, n))
  {
    hide Numbered;
  }

  lemma OneLater(prev: seq<Event>, e: Event)
    requires Manageable(prev) && DistinctIds(prev + [e]) && e.seqId < State(prev).next
    requires Late(prev) + 1 < JITTER_GAP_THRESHOLD
    ensures Manageable(prev + [e]) && Late(prev + [e]) == Late(prev) + 1 && State(prev + [e]).next >= State(prev).next
  {
    SafeToReceive(prev, e);
    IdIsFree(prev, e);
    assert (prev + [e])[..|prev|] == prev;
    hide Stale, DistinctIds, StopAt;
    SnocState(prev, e);
  }

  lemma IdIsFree(prev: seq<Event>, e: Event)
    requires Manageable(prev) && DistinctIds(prev + [e])
    ensures e.seqId !in State(prev).buf
  {
    LastIsFresh(prev, e);
    AlwaysSound(prev);
    WasReceived(State(prev), prev, Lost(prev));
  }

  /** Two hundred events with distinct ids, each once: 101 to 200 come first, then 1 to 100.
      The drain after the last of them never returns. */
  lemma DrainNeverReturns()
    ensures var prev, e := Numbered(101, 100) + Numbered(1, 99), EventAt(100);
            && DistinctIds(prev + [e]) && Manageable(prev) && !Manageable(prev + [e])
            && Diverges(Loop(State(prev).buf[e.seqId := e], State(prev).next))
  {
    hide State, Manageable, Stale, Numbered, Late, DistinctIds, Diverges;
    var prev, e := Numbered(101, 100) + Numbered(1, 99), EventAt(100);
    LateOnes(99);
    NumberedSnoc(1, 100);
    assert Numbered(101, 100) + Numbered(1, 100) == prev + [e];
    TwoRangesDistinct(100);
    IdIsFree(prev, e);
    SafeToReceive(prev, e);
    TooManyStale(prev, e);
    StaleDiverges(Loop(State(prev).buf[e.seqId := e], State(prev).next));
  }

  ghost predicate Diverges(s: Loop) { forall n: nat :: !Stopped(Turns(s, n)) }

  lemma StaleDiverges(s: Loop)
    requires |Stale(s.buf, s.next)| >= JITTER_GAP_THRESHOLD
    ensures Diverges(s)
  {
    forall n: nat ensures !Stopped(Turns(s, n)) { NeverStops(s, n); }
  }

  lemma TooManyStale(prev: seq<Event>, e: Event)
    requires Manageable(prev) && !Manageable(prev + [e])
    ensures |Stale(State(prev).buf[e.seqId := e], State(prev).next)| >= JITTER_GAP_THRESHOLD
  {
    assert (prev + [e])[..|prev|] == prev;
  }

  // ---------------------------------------------------------------- two events of one report

  /** An acknowledgement that still waits for its turn when the fill of the same report comes
      is overwritten, and never handled. */
  lemma AckIsOverwritten(ack: Event, fill: Event)
    requires ack.AckEvent? && fill.FillEvent? && ack.seqId == fill.seqId == 2
    ensures Manageable([ack, fill]) && Lost([ack, fill]) == multiset{ack}
    ensures ack !in State([ack, fill]).out && Waits(State([ack, fill]).buf, ack) == 0
  {
    hide State, Manageable, Stale, Lost, Receive, Sound;
    var s := Drained(map[], 1, []);
    assert [] + [ack] == [ack] && [ack] + [fill] == [ack, fill];
    NothingYet();
    FewStale(s.buf[2 := ack], 1);
    Received([], ack);
    ReceiveWaits(s, ack);
    FewStale(map[2 := ack][2 := fill], 1);
    Received([ack], fill);
    AlwaysSound([ack, fill]);
    assert Lost([ack, fill]) == multiset{} + multiset{} + multiset{ack} == multiset{ack};
    OneOfTwo(State([ack, fill]), ack, fill);
  }

  lemma NothingYet()
    ensures Manageable([]) && State([]) == Drained(map[], 1, []) && Lost([]) == multiset{}
  {
  }

  lemma FewStale(b: Buffer, next: int)
    requires forall k :: k in b ==> k > next
    ensures |Stale(b, next)| == 0
  {
    assert Stale(b, next) == {};
  }

  lemma OneOfTwo(s: Drained, ack: Event, fill: Event)
    requires Sound(s, [ack, fill], multiset{ack}) && ack != fill
    ensures ack !in s.out && Waits(s.buf, ack) == 0
  {
    hide Increasing, Keyed, Waits;
    assert [ack, fill] == [ack] + [fill];
    SnocCount([ack], fill, ack);
    assert multiset([ack])[ack] == 1;
  }

  /** A received record, provided its drain terminates. */
  lemma Received(prev: seq<Event>, e: Event)
    requires Manageable(prev)
    ensures |Stale(State(prev).buf[e.seqId := e], State(prev).next)| < JITTER_GAP_THRESHOLD ==>
              && Manageable(prev + [e]) && State(prev + [e]) == Receive(State(prev), e)
              && Lost(prev + [e]) == Lost(prev) + Overwritten(State(prev).buf, e)
    ensures |Stale(State(prev).buf[e.seqId := e], State(prev).next)| >= JITTER_GAP_THRESHOLD ==>
              !Manageable(prev + [e])
  {
    hide Stale, Receive, Overwritten;
    assert (prev + [e])[..|prev|] == prev;
  }

  function AckOf(k: int): Event { AckEvent(k, k, OtherStatus) }

  function FillOf(k: int): Event { FillEvent(k, k, 1, 1, 0) }

  /** Reports 1 to n in engine order, each published as an acknowledgement and a fill. */
  function Both(n: nat): seq<Event> {
    if n == 0 then [] else Both(n - 1) + [AckOf(n)] + [FillOf(n)]
  }

  /** The next event, with too little behind it to jump another gap. */
  lemma ReceiveDelivers(s: Drained, e: Event)
    requires e.seqId == s.next && s.next !in s.buf && s.next + 1 !in s.buf && |s.buf| < JITTER_GAP_THRESHOLD
    requires |Stale(s.buf[e.seqId := e], s.next)| < JITTER_GAP_THRESHOLD
    ensures Receive(s, e) == Drained(s.buf, s.next + 1, s.out + [e])
  {
    assert s.buf[e.seqId := e] - {s.next} == s.buf;
    hide StopAt, Outside, Between, Stale;
    var b, n := s.buf[e.seqId := e], s.next;
    StopAfterOne(b, n);
    OutsideNone(b, n);
    OutsideStep(b, n, n);
    assert [] + [e] == [e] && b - {n} == s.buf;
  }

  lemma StopAfterOne(b: Buffer, n: int)
    requires n in b && n + 1 !in b && |b - {n}| < JITTER_GAP_THRESHOLD && |Stale(b, n)| < JITTER_GAP_THRESHOLD
    ensures StopAt(Loop(b, n), Top(b.Keys)) == n + 1
  {
    hide StopAt, Stale;
    StopStep(Loop(b, n), Top(b.Keys));
    StopStep(Turn(Loop(b, n)), Top(b.Keys));
  }

  lemma AllStale(b: Buffer, next: int, n: nat)
    requires b.Keys == Range(1, n) && next > n
    ensures |Stale(b, next)| == n == |b|
  {
    assert Stale(b, next) == b.Keys;
    KeysSize(b);
  }

  /** Each acknowledgement is handled at once, and its fill comes too late. */
  lemma {:induction false} FillsPile(n: nat)
    requires n < JITTER_GAP_THRESHOLD
    ensures Manageable(Both(n)) && State(Both(n)).next == n + 1 && State(Both(n)).buf.Keys == Range(1, n)
  {
    hide State, Manageable, Stale, Receive, Lost, Overwritten;
    if n == 0 {
      NothingYet();
    } else {
      FillsPile(n - 1);
      AckHandled(n);
      BothSnoc(n);
      RangeSnoc(n);
      hide Both, Range;
      FillWaits(Both(n - 1) + [AckOf(n)], n);
    }
  }

  lemma RangeSnoc(n: nat)
    requires n > 0
    ensures Range(1, n) == Range(1, n - 1) + {n}
  {
  }

  lemma FillWaits(prev: seq<Event>, n: nat)
    requires 0 < n < JITTER_GAP_THRESHOLD && Manageable(prev) && State(prev).next == n + 1
    requires State(prev).buf.Keys + {n} == Range(1, n)
    ensures var evs := prev + [FillOf(n)];
            Manageable(evs) && State(evs).next == n + 1 && State(evs).buf.Keys == Range(1, n)
  {
    hide State, Manageable, Stale, Receive, Lost, Overwritten, Range;
    var s := State(prev);
    var b := s.buf[n := FillOf(n)];
    assert b.Keys == s.buf.Keys + {n};
    AllStale(b, n + 1, n);
    Received(prev, FillOf(n));
    ReceiveWaits(s, FillOf(n));
  }

  lemma AckHandled(n: nat)
    requires 0 < n <= JITTER_GAP_THRESHOLD
    requires Manageable(Both(n - 1)) && State(Both(n - 1)).next == n && State(Both(n - 1)).buf.Keys == Range(1, n - 1)
    ensures var prev := Both(n - 1) + [AckOf(n)];
            Manageable(prev) && State(prev).next == n + 1 && State(prev).buf.Keys == Range(1, n - 1)
  {
    hide State, Manageable, Stale, Receive, Lost, Overwritten, Both;
    var s := State(Both(n - 1));
    AllStale(s.buf, n, n - 1);
    NewStale(s.buf, n, AckOf(n));
    Received(Both(n - 1), AckOf(n));
    ReceiveDelivers(s, AckOf(n));
  }

  lemma BothSnoc(n: nat)
    requires n > 0
    ensures Both(n) == Both(n - 1) + [AckOf(n)] + [FillOf(n)]
  {
  }

  /** A hundred filled reports in perfect order, nothing missing and nothing delayed: the
      drain after the last of them never returns. */
  lemma FilledReportsStall()
    ensures var prev := Both(99) + [AckOf(100)];
            && prev + [FillOf(100)] == Both(100) && Manageable(prev) && !Manageable(Both(100))
            && Diverges(Loop(State(prev).buf[100 := FillOf(100)], State(prev).next))
  {
    hide State, Manageable, Stale, Receive, Lost, Overwritten, Diverges, Both, Range;
    FillsPile(99);
    AckHandled(100);
    BothSnoc(100);
    var prev := Both(99) + [AckOf(100)];
    var b := State(prev).buf[100 := FillOf(100)];
    assert b.Keys == Range(1, 100) by { assert forall k :: k in b.Keys <==> k in Range(1, 100); }
    AllStale(b, 101, 100);
    Received(prev, FillOf(100));
    StaleDiverges(Loop(b, 101));
  }
}
