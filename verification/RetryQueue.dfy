/** A Redis stream with one consumer group, its workers, the retry and dead-letter
    rule, and crashes between any two commands. Each step is one command that
    succeeds, or a worker's death. */
module RetryQueue {

  const MAX_RETRIES: nat := 3

  /** A stream entry. Entries are numbered in the order they were added. */
  datatype Entry = Entry(msg: int, retries: nat, inStream: bool, pending: bool, owner: int)

  /** What a worker is about to do with an entry. */
  datatype Phase = Idle | Running(i: nat) | ToAck(i: nat) | ToDel(i: nat)

  datatype Sys = Sys(
    entries: seq<Entry>,
    read: nat,                  // the group has been given entries 0..read-1
    workers: map<int, Phase>,
    finished: set<int>,         // messages some handler run has completed
    dead: seq<int>)             // dead-letter queue

  datatype Action =
    | Publish(msg: int)         // a new message enters the queue
    | Read(w: int)              // XREADGROUP with ">": the next entry never delivered before
    | Finish(w: int)            // the handler is done with the message
    | Requeue(w: int)           // ShouldRetry: XADD with the count increased
    | DeadLetter(w: int)        // ShouldRetry: XADD to the dead-letter queue
    | Ack(w: int)               // XACK
    | Del(w: int)               // XDEL
    | Crash(w: int)
    | Reclaim(i: nat, w: int)   // XCLAIM: the pending entry changes its owner

  const START: Sys := Sys([], 0, map[], {}, [])

  function PhaseOf(s: Sys, w: int): Phase { if w in s.workers then s.workers[w] else Idle }

  predicate Enabled(s: Sys, a: Action) {
    match a
    case Publish(m) => forall i :: 0 <= i < |s.entries| ==> s.entries[i].msg != m
    case Read(w) => PhaseOf(s, w).Idle? && s.read < |s.entries|
    case Finish(w) => PhaseOf(s, w).Running? && PhaseOf(s, w).i < |s.entries|
    case Requeue(w) =>
      PhaseOf(s, w).Running? && PhaseOf(s, w).i < |s.entries| && s.entries[PhaseOf(s, w).i].retries < MAX_RETRIES
    case DeadLetter(w) =>
      PhaseOf(s, w).Running? && PhaseOf(s, w).i < |s.entries| && s.entries[PhaseOf(s, w).i].retries >= MAX_RETRIES
    case Ack(w) => PhaseOf(s, w).ToAck? && PhaseOf(s, w).i < |s.entries|
    case Del(w) => PhaseOf(s, w).ToDel? && PhaseOf(s, w).i < |s.entries|
    case Crash(w) => true
    case Reclaim(i, w) => i < |s.entries| && s.entries[i].pending
  }

  function Goto(s: Sys, w: int, p: Phase): Sys { s.(workers := s.workers[w := p]) }

  function Next(s: Sys, a: Action): Sys
    requires Enabled(s, a)
  {
    match a
    case Publish(m) => s.(entries := s.entries + [Entry(m, 0, true, false, 0)])
    case Read(w) =>
      var e := s.entries[s.read];
      Goto(s.(entries := s.entries[s.read := e.(pending := true, owner := w)], read := s.read + 1), w, Running(s.read))
    case Finish(w) =>
      var i := PhaseOf(s, w).i;
      Goto(s.(finished := s.finished + {s.entries[i].msg}), w, ToAck(i))
    case Requeue(w) =>
      var i := PhaseOf(s, w).i;
      Goto(s.(entries := s.entries + [Entry(s.entries[i].msg, s.entries[i].retries + 1, true, false, 0)]), w, ToAck(i))
    case DeadLetter(w) =>
      var i := PhaseOf(s, w).i;
      Goto(s.(dead := s.dead + [s.entries[i].msg]), w, ToAck(i))
    case Ack(w) =>
      var i := PhaseOf(s, w).i;
      Goto(s.(entries := s.entries[i := s.entries[i].(pending := false)]), w, ToDel(i))
    case Del(w) =>
      var i := PhaseOf(s, w).i;
      Goto(s.(entries := s.entries[i := s.entries[i].(inStream := false)]), w, Idle)
    case Crash(w) => Goto(s, w, Idle)
    case Reclaim(i, w) => s.(entries := s.entries[i := s.entries[i].(owner := w)])
  }

  predicate Legal(run: seq<Action>)
    decreases run, 0
  {
    run == [] || (Legal(run[..|run| - 1]) && Enabled(Exec(run[..|run| - 1]), run[|run| - 1]))
  }

  function Exec(run: seq<Action>): Sys
    requires Legal(run)
    decreases run, 1
  {
    if run == [] then START else Next(Exec(run[..|run| - 1]), run[|run| - 1])
  }

  // ---------------------------------------------------------------- what is counted

  /** Entries of a message among the first `n`: one handler run started for each one read. */
  function Copies(entries: seq<Entry>, m: int): nat {
    if entries == [] then 0
    else Copies(entries[..|entries| - 1], m) + if entries[|entries| - 1].msg == m then 1 else 0
  }

  function Runs(s: Sys, m: int): nat
    requires s.read <= |s.entries|
  {
    Copies(s.entries[..s.read], m)
  }

  predicate Latest(entries: seq<Entry>, i: nat) {
    i < |entries| && forall j :: i < j < |entries| ==> entries[j].msg != entries[i].msg
  }

  /** The message no longer needs entry `i`: it was requeued, finished or dead-lettered. */
  predicate Settled(s: Sys, i: nat) {
    i < |s.entries| && (!Latest(s.entries, i) || s.entries[i].msg in s.finished || s.entries[i].msg in s.dead)
  }

  function Held(p: Phase): int { match p case Idle => -1 case Running(i) => i case ToAck(i) => i case ToDel(i) => i }

  predicate Numbered(entries: seq<Entry>) {
    && (forall i :: 0 <= i < |entries| ==> entries[i].retries == Copies(entries[..i], entries[i].msg))
    && (forall i :: 0 <= i < |entries| ==> entries[i].retries <= MAX_RETRIES)
  }

  /** What a worker's phase says about its entry. */
  predicate WorkerOk(s: Sys, p: Phase) {
    && Held(p) < s.read <= |s.entries|
    && (p.Running? ==>
          Latest(s.entries, p.i) && s.entries[p.i].pending && s.entries[p.i].msg !in s.finished
              && s.entries[p.i].msg !in s.dead)
    && (p.ToAck? || p.ToDel? ==> Settled(s, p.i))
    && (p.ToDel? ==> !s.entries[p.i].pending)
  }

  /** No two workers hold the same entry. */
  ghost predicate Exclusive(s: Sys) {
    forall w, v :: w != v && Held(PhaseOf(s, w)) >= 0 ==> Held(PhaseOf(s, w)) != Held(PhaseOf(s, v))
  }

  ghost predicate WorkersOk(s: Sys) { Exclusive(s) && forall w :: WorkerOk(s, PhaseOf(s, w)) }

  ghost predicate EntriesOk(s: Sys) {
    && s.read <= |s.entries|
    && (forall i :: 0 <= i < |s.entries| ==> s.entries[i].pending ==> i < s.read)
    && (forall i :: s.read <= i < |s.entries| ==>
          s.entries[i].inStream && Latest(s.entries, i) && s.entries[i].msg !in s.finished
              && s.entries[i].msg !in s.dead)
    && (forall i :: 0 <= i < s.read ==> s.entries[i].pending || Settled(s, i))
    && (forall i :: 0 <= i < s.read ==> s.entries[i].inStream || Settled(s, i))
  }

  ghost predicate OutcomesOk(s: Sys) {
    && (forall m :: m in s.finished || m in s.dead ==> exists i :: 0 <= i < |s.entries| && s.entries[i].msg == m)
    && (forall m :: m in s.dead ==> m !in s.finished)
    && (forall k, l :: 0 <= k < l < |s.dead| ==> s.dead[k] != s.dead[l])
    && (forall i :: 0 <= i < |s.entries| && s.entries[i].msg in s.dead && Latest(s.entries, i)
          ==> s.entries[i].retries == MAX_RETRIES)
  }

  ghost predicate Inv(s: Sys) {
    Numbered(s.entries) && EntriesOk(s) && WorkersOk(s) && OutcomesOk(s)
  }

  // ---------------------------------------------------------------- counting lemmas

  /** Same messages and retry counts, whatever the delivery flags. */
  predicate SameShape(a: seq<Entry>, b: seq<Entry>) {
    |a| == |b| && forall i :: 0 <= i < |a| ==> a[i].msg == b[i].msg && a[i].retries == b[i].retries
  }

  lemma {:induction false} ShapeCopies(a: seq<Entry>, b: seq<Entry>, m: int)
    requires SameShape(a, b)
    ensures Copies(a, m) == Copies(b, m)
  {
    if a != [] { ShapeCopies(a[..|a| - 1], b[..|b| - 1], m); }
  }

  lemma ShapeNumbered(a: seq<Entry>, b: seq<Entry>)
    requires SameShape(a, b) && Numbered(a)
    ensures Numbered(b)
  {
    forall i | 0 <= i < |b| ensures b[i].retries == Copies(b[..i], b[i].msg) {
      ShapeCopies(a[..i], b[..i], b[i].msg);
    }
  }

  lemma {:induction false} NoCopies(a: seq<Entry>, i: nat, m: int)
    requires i <= |a| && forall j :: i <= j < |a| ==> a[j].msg != m
    ensures Copies(a, m) == Copies(a[..i], m)
    decreases |a| - i
  {
    if i < |a| {
      NoCopies(a[..|a| - 1], i, m);
      assert a[..|a| - 1][..i] == a[..i];
    } else {
      assert a[..i] == a;
    }
  }

  /** The latest copy of a message carries the number of earlier ones. */
  lemma LatestCopies(a: seq<Entry>, i: nat)
    requires Numbered(a) && Latest(a, i)
    ensures Copies(a, a[i].msg) == a[i].retries + 1
  {
    NoCopies(a, i + 1, a[i].msg);
    assert a[..i + 1][..i] == a[..i];
  }

  lemma NumberedSnoc(a: seq<Entry>, e: Entry)
    requires Numbered(a) && e.retries == Copies(a, e.msg) && e.retries <= MAX_RETRIES
    ensures Numbered(a + [e])
  {
    var b := a + [e];
    forall i | 0 <= i < |b| ensures b[i].retries == Copies(b[..i], b[i].msg) {
      assert i < |a| ==> b[..i] == a[..i];
      assert i == |a| ==> b[..i] == a;
    }
  }

  lemma {:induction false} CopiesBound(a: seq<Entry>, m: int)
    requires Numbered(a)
    ensures Copies(a, m) <= MAX_RETRIES + 1
  {
    if a != [] {
      var n := |a| - 1;
      if a[n].msg == m {
        assert a[n].retries == Copies(a[..n], m);
      } else {
        PrefixNumbered(a, n);
        CopiesBound(a[..n], m);
      }
    }
  }

  lemma PrefixNumbered(a: seq<Entry>, n: nat)
    requires Numbered(a) && n <= |a|
    ensures Numbered(a[..n])
  {
    forall i | 0 <= i < n ensures a[..n][i].retries == Copies(a[..n][..i], a[..n][i].msg) {
      assert a[..n][..i] == a[..i];
    }
  }

  lemma {:induction false} CopiesMonotone(a: seq<Entry>, n: nat, m: int)
    requires n <= |a|
    ensures Copies(a[..n], m) <= Copies(a, m)
    decreases |a| - n
  {
    if n < |a| {
      CopiesMonotone(a[..|a| - 1], n, m);
      assert a[..|a| - 1][..n] == a[..n];
    } else {
      assert a[..n] == a;
    }
  }

  lemma {:induction false} LatestExists(a: seq<Entry>, i: nat) returns (j: nat)
    requires i < |a|
    ensures Latest(a, j) && a[j].msg == a[i].msg
    decreases |a| - i
  {
    if Latest(a, i) {
      j := i;
    } else {
      var k :| i < k < |a| && a[k].msg == a[i].msg;
      j := LatestExists(a, k);
    }
  }

  // ---------------------------------------------------------------- every step keeps the invariant

  /** Once settled, an entry stays settled. */
  lemma SettledStays(s: Sys, t: Sys)
    requires |s.entries| <= |t.entries| && forall i :: 0 <= i < |s.entries| ==> t.entries[i].msg == s.entries[i].msg
    requires s.finished <= t.finished && forall m :: m in s.dead ==> m in t.dead
    ensures forall i: nat :: Settled(s, i) ==> Settled(t, i)
  {
    forall i: nat | Settled(s, i) ensures Settled(t, i) {
      if !Latest(s.entries, i) {
        var j :| i < j < |s.entries| && s.entries[j].msg == s.entries[i].msg;
        assert t.entries[j].msg == t.entries[i].msg;
      }
    }
  }

  /** No entry that was read and acknowledged becomes pending again. */
  predicate NoReturn(s: Sys, t: Sys) {
    |s.entries| <= |t.entries|
    && forall i :: 0 <= i < s.read && i < |s.entries| && t.entries[i].pending ==> s.entries[i].pending
  }

  /** A worker that does not move keeps its standing. */
  lemma WorkerStays(s: Sys, t: Sys, p: Phase)
    requires WorkerOk(s, p) && s.read <= t.read <= |t.entries| && |s.entries| <= |t.entries| && NoReturn(s, t)
    requires forall i: nat :: Settled(s, i) ==> Settled(t, i)
    requires p.Running? ==>
               Latest(t.entries, p.i) && t.entries[p.i].pending && t.entries[p.i].msg !in t.finished
                   && t.entries[p.i].msg !in t.dead
    ensures WorkerOk(t, p)
  {
  }

  lemma MoveKeepsExclusive(s: Sys, t: Sys, w: int)
    requires Exclusive(s) && forall v :: v != w ==> PhaseOf(t, v) == PhaseOf(s, v)
    requires var h := Held(PhaseOf(t, w)); h == -1 || h == Held(PhaseOf(s, w)) || forall v :: Held(PhaseOf(s, v)) != h
    ensures Exclusive(t)
  {
    var h := Held(PhaseOf(t, w));
    forall v | v != w && h >= 0 ensures Held(PhaseOf(t, v)) != h {
      assert PhaseOf(t, v) == PhaseOf(s, v);
    }
  }

  /** Steps that move no worker. */
  lemma StillWorkers(s: Sys, t: Sys)
    requires WorkersOk(s) && t.workers == s.workers && s.read <= t.read <= |t.entries| && NoReturn(s, t)
    requires forall i: nat :: Settled(s, i) ==> Settled(t, i)
    requires forall w :: PhaseOf(s, w).Running? ==>
               var i := PhaseOf(s, w).i;
               Latest(t.entries, i) && t.entries[i].pending && t.entries[i].msg !in t.finished
                   && t.entries[i].msg !in t.dead
    ensures WorkersOk(t)
  {
    hide Latest, Settled, Exclusive;
    forall w ensures WorkerOk(t, PhaseOf(t, w)) {
      assert WorkerOk(s, PhaseOf(s, w)) && PhaseOf(t, w) == PhaseOf(s, w);
      WorkerStays(s, t, PhaseOf(s, w));
    }
    MoveKeepsExclusive(s, t, 0);
  }

  lemma LatestAfterCopy(a: seq<Entry>, e: Entry)
    ensures forall i :: 0 <= i < |a| ==> (Latest(a + [e], i) <==> Latest(a, i) && a[i].msg != e.msg)
    ensures Latest(a + [e], |a|)
  {
    var b := a + [e];
    forall i | 0 <= i < |a| ensures Latest(b, i) <==> Latest(a, i) && a[i].msg != e.msg {
      assert b[|a|] == e;
      if Latest(b, i) { assert forall j :: i < j < |a| ==> b[j] == a[j]; }
    }
  }

  lemma LatestOfShape(a: seq<Entry>, b: seq<Entry>)
    requires SameShape(a, b)
    ensures forall i :: Latest(a, i) <==> Latest(b, i)
  {
  }

  /** The message of a running handler is in nobody else's hands and has no newer copy. */
  lemma OnlyHolder(s: Sys, w: int)
    requires EntriesOk(s) && WorkersOk(s) && PhaseOf(s, w).Running?
    ensures var i := PhaseOf(s, w).i;
            && i < s.read && Latest(s.entries, i) && s.entries[i].pending
            && s.entries[i].msg !in s.finished && s.entries[i].msg !in s.dead
            && (forall v :: v != w && PhaseOf(s, v).Running? ==> s.entries[PhaseOf(s, v).i].msg != s.entries[i].msg)
            && (forall j :: s.read <= j < |s.entries| ==> s.entries[j].msg != s.entries[i].msg)
  {
    var i := PhaseOf(s, w).i;
    assert WorkerOk(s, PhaseOf(s, w)) && Held(PhaseOf(s, w)) == i;
    forall v | v != w && PhaseOf(s, v).Running? ensures s.entries[PhaseOf(s, v).i].msg != s.entries[i].msg {
      var j := PhaseOf(s, v).i;
      assert WorkerOk(s, PhaseOf(s, v)) && Held(PhaseOf(s, v)) == j;
    }
  }

  // ---- a new copy: published or requeued

  lemma CopyKeepsEntries(s: Sys, t: Sys, e: Entry)
    requires EntriesOk(s) && OutcomesOk(s) && t.entries == s.entries + [e] && e.inStream && !e.pending
    requires t.read == s.read && t.finished == s.finished && t.dead == s.dead
    requires e.msg !in s.finished && e.msg !in s.dead
    requires forall i :: s.read <= i < |s.entries| ==> s.entries[i].msg != e.msg
    ensures EntriesOk(t) && OutcomesOk(t)
  {
    LatestAfterCopy(s.entries, e);
    hide Latest, Settled;
    assert EntriesOk(t) by {
      hide OutcomesOk;
      SettledStays(s, t);
    }
    hide EntriesOk;
    forall m | m in t.finished || m in t.dead ensures exists i :: 0 <= i < |t.entries| && t.entries[i].msg == m {
      var i :| 0 <= i < |s.entries| && s.entries[i].msg == m;
      assert t.entries[i].msg == m;
    }
  }

  lemma PublishKeeps(s: Sys, m: int)
    requires Inv(s) && Enabled(s, Publish(m))
    ensures Inv(Next(s, Publish(m)))
  {
    var t, e := Next(s, Publish(m)), Entry(m, 0, true, false, 0);
    Unpublished(s, m);
    CopyKeepsEntries(s, t, e);
    NoCopies(s.entries, 0, m);
    assert s.entries[..0] == [];
    NumberedSnoc(s.entries, e);
    LatestAfterCopy(s.entries, e);
    SettledStays(s, t);
    hide Copies, Numbered, Latest, Settled, EntriesOk, OutcomesOk, Exclusive;
    forall w | PhaseOf(s, w).Running?
      ensures var i := PhaseOf(s, w).i;
              Latest(t.entries, i) && t.entries[i].pending && t.entries[i].msg !in t.finished
                  && t.entries[i].msg !in t.dead
    {
      assert WorkerOk(s, PhaseOf(s, w));
    }
    StillWorkers(s, t);
  }

  lemma Unpublished(s: Sys, m: int)
    requires OutcomesOk(s) && forall i :: 0 <= i < |s.entries| ==> s.entries[i].msg != m
    ensures m !in s.finished && m !in s.dead
  {
  }

  lemma RequeueKeeps(s: Sys, w: int)
    requires Inv(s) && Enabled(s, Requeue(w))
    ensures Inv(Next(s, Requeue(w)))
  {
    var t, i := Next(s, Requeue(w)), PhaseOf(s, w).i;
    var e := Entry(s.entries[i].msg, s.entries[i].retries + 1, true, false, 0);
    hide Copies, Numbered, Latest, Settled, EntriesOk, OutcomesOk, WorkersOk;
    assert t.entries == s.entries + [e] && t.workers == s.workers[w := ToAck(i)];
    assert t.read == s.read && t.finished == s.finished && t.dead == s.dead;
    hide Next, Enabled;
    OnlyHolder(s, w);
    LatestCopies(s.entries, i);
    NumberedSnoc(s.entries, e);
    CopyKeepsEntries(s, t, e);
    RequeueKeepsWorkers(s, t, w, e);
  }

  lemma RequeueKeepsWorkers(s: Sys, t: Sys, w: int, e: Entry)
    requires EntriesOk(s) && WorkersOk(s) && PhaseOf(s, w).Running? && PhaseOf(s, w).i < |s.entries|
    requires e.msg == s.entries[PhaseOf(s, w).i].msg && t.entries == s.entries + [e]
    requires t.workers == s.workers[w := ToAck(PhaseOf(s, w).i)]
    requires t.read == s.read && t.finished == s.finished && t.dead == s.dead
    ensures WorkersOk(t)
  {
    var i := PhaseOf(s, w).i;
    hide EntriesOk, Exclusive;
    OnlyHolder(s, w);
    LatestAfterCopy(s.entries, e);
    SettledStays(s, t);
    assert Settled(t, i);
    hide Latest, Settled;
    forall v ensures WorkerOk(t, PhaseOf(t, v)) {
      assert WorkerOk(s, PhaseOf(s, v));
      if v != w { WorkerStays(s, t, PhaseOf(s, v)); }
    }
    MoveKeepsExclusive(s, t, w);
  }

  // ---- flags only: read, ack, delete, claim, crash

  lemma ReadKeeps(s: Sys, w: int)
    requires Inv(s) && Enabled(s, Read(w))
    ensures Inv(Next(s, Read(w)))
  {
    var t := Next(s, Read(w));
    hide Copies, Numbered, OutcomesOk, WorkersOk;
    ShapeNumbered(s.entries, t.entries);
    OutcomesOfShape(s, t);
    ReadKeepsEntries(s, t, w);
    ReadKeepsWorkers(s, t, w);
  }

  predicate ReadTo(s: Sys, t: Sys, w: int) {
    && s.read < |s.entries| && t.read == s.read + 1 && PhaseOf(s, w).Idle?
    && t.entries == s.entries[s.read := s.entries[s.read].(pending := true, owner := w)]
    && t.workers == s.workers[w := Running(s.read)] && t.finished == s.finished && t.dead == s.dead
  }

  lemma ReadKeepsEntries(s: Sys, t: Sys, w: int)
    requires EntriesOk(s) && ReadTo(s, t, w)
    ensures EntriesOk(t)
  {
    LatestOfShape(s.entries, t.entries);
    SettledStays(s, t);
    hide Latest, Settled;
  }

  lemma ReadKeepsWorkers(s: Sys, t: Sys, w: int)
    requires EntriesOk(s) && WorkersOk(s) && ReadTo(s, t, w)
    ensures WorkersOk(t)
  {
    LatestOfShape(s.entries, t.entries);
    SettledStays(s, t);
    hide Latest, Settled, Exclusive;
    forall v ensures WorkerOk(t, PhaseOf(t, v)) {
      assert WorkerOk(s, PhaseOf(s, v));
      if v != w { WorkerStays(s, t, PhaseOf(s, v)); }
    }
    forall v ensures Held(PhaseOf(s, v)) != s.read { assert WorkerOk(s, PhaseOf(s, v)); }
    MoveKeepsExclusive(s, t, w);
  }

  lemma OutcomesOfShape(s: Sys, t: Sys)
    requires OutcomesOk(s) && SameShape(s.entries, t.entries) && t.finished == s.finished && t.dead == s.dead
    ensures OutcomesOk(t)
  {
    LatestOfShape(s.entries, t.entries);
    hide Latest;
    forall m | m in t.finished || m in t.dead ensures exists i :: 0 <= i < |t.entries| && t.entries[i].msg == m {
      var i :| 0 <= i < |s.entries| && s.entries[i].msg == m;
      assert t.entries[i].msg == m;
    }
  }

  /** Entry flags that only change on a settled or claimed entry. */
  lemma FlagsKeepEntries(s: Sys, t: Sys, i: nat)
    requires EntriesOk(s) && SameShape(s.entries, t.entries) && t.read == s.read && t.finished == s.finished
        && t.dead == s.dead
    requires i < s.read && forall j :: 0 <= j < |s.entries| && j != i ==> t.entries[j] == s.entries[j]
    requires t.entries[i].pending ==> s.entries[i].pending
    requires || Settled(s, i)
             || (t.entries[i].pending == s.entries[i].pending && t.entries[i].inStream == s.entries[i].inStream)
    ensures EntriesOk(t)
  {
    LatestOfShape(s.entries, t.entries);
    SettledStays(s, t);
    hide Latest, Settled;
  }

  lemma CommandKeeps(s: Sys, a: Action)
    requires Inv(s) && Enabled(s, a) && (a.Ack? || a.Del?)
    ensures Inv(Next(s, a))
  {
    var t, w := Next(s, a), a.w;
    var i := PhaseOf(s, w).i;
    assert Settled(s, i) && i < s.read by { assert WorkerOk(s, PhaseOf(s, w)); }
    hide Copies, Numbered, Latest, Settled, EntriesOk, OutcomesOk, WorkersOk;
    CommandMoves(s, a);
    hide Next, Enabled, SameShape;
    ShapeNumbered(s.entries, t.entries);
    OutcomesOfShape(s, t);
    FlagsKeepEntries(s, t, i);
    CommandKeepsWorkers(s, t, w, i);
  }

  /** What `XACK` and `XDEL` change: flags of the worker's own entry. */
  lemma CommandMoves(s: Sys, a: Action)
    requires Enabled(s, a) && (a.Ack? || a.Del?)
    ensures var t, w, i := Next(s, a), a.w, PhaseOf(s, a.w).i;
            && Held(PhaseOf(s, w)) == i && i < |s.entries| == |t.entries| && SameShape(s.entries, t.entries)
            && t.read == s.read && t.finished == s.finished && t.dead == s.dead
            && (forall j :: 0 <= j < |s.entries| && j != i ==> t.entries[j] == s.entries[j])
            && (t.workers == s.workers[w := Idle] || (t.workers == s.workers[w := ToDel(i)] && !t.entries[i].pending))
            && (t.entries[i].pending ==> s.entries[i].pending)
  {
  }

  lemma CommandKeepsWorkers(s: Sys, t: Sys, w: int, i: nat)
    requires WorkersOk(s) && i < |s.entries| && Settled(s, i) && Held(PhaseOf(s, w)) == i
    requires SameShape(s.entries, t.entries) && t.read == s.read && t.finished == s.finished && t.dead == s.dead
    requires forall j :: 0 <= j < |s.entries| && j != i ==> t.entries[j] == s.entries[j]
    requires t.workers == s.workers[w := Idle] || (t.workers == s.workers[w := ToDel(i)] && !t.entries[i].pending)
    requires t.entries[i].pending ==> s.entries[i].pending
    ensures WorkersOk(t)
  {
    LatestOfShape(s.entries, t.entries);
    SettledStays(s, t);
    hide Latest, Settled;
    assert Settled(t, i) && WorkerOk(s, PhaseOf(s, w));
    forall v ensures WorkerOk(t, PhaseOf(t, v)) {
      assert WorkerOk(s, PhaseOf(s, v));
      if v != w {
        assert Held(PhaseOf(s, v)) != i;
        WorkerStays(s, t, PhaseOf(s, v));
      }
    }
    hide Exclusive;
    MoveKeepsExclusive(s, t, w);
  }

  lemma CrashKeeps(s: Sys, w: int)
    requires Inv(s)
    ensures Inv(Next(s, Crash(w)))
  {
    var t := Next(s, Crash(w));
    assert t == s.(workers := t.workers);
    SettledStays(s, t);
    assert WorkersOk(t) by { CrashKeepsWorkers(s, w); }
    hide Copies, Numbered, Latest, Settled, WorkersOk, Next;
    OutcomesOfShape(s, t);
  }

  lemma CrashKeepsWorkers(s: Sys, w: int)
    requires Inv(s)
    ensures WorkersOk(Next(s, Crash(w)))
  {
    var t := Next(s, Crash(w));
    SettledStays(s, t);
    hide Copies, Numbered, Latest, Settled, Exclusive, EntriesOk, OutcomesOk;
    forall v ensures WorkerOk(t, PhaseOf(t, v)) {
      assert WorkerOk(s, PhaseOf(s, v));
      if v != w { WorkerStays(s, t, PhaseOf(s, v)); }
    }
    MoveKeepsExclusive(s, t, w);
  }

  lemma ReclaimKeeps(s: Sys, i: nat, w: int)
    requires Inv(s) && Enabled(s, Reclaim(i, w))
    ensures Inv(Next(s, Reclaim(i, w)))
  {
    var t := Next(s, Reclaim(i, w));
    assert i < s.read;
    ShapeNumbered(s.entries, t.entries);
    LatestOfShape(s.entries, t.entries);
    SettledStays(s, t);
    FlagsKeepEntries(s, t, i);
    OutcomesOfShape(s, t);
    hide Copies, Numbered, Latest, Settled, EntriesOk, OutcomesOk, Exclusive;
    forall v | PhaseOf(s, v).Running?
      ensures var j := PhaseOf(s, v).i;
              Latest(t.entries, j) && t.entries[j].pending && t.entries[j].msg !in t.finished
                  && t.entries[j].msg !in t.dead
    {
      assert WorkerOk(s, PhaseOf(s, v));
    }
    StillWorkers(s, t);
  }

  // ---- outcomes: finished or dead-lettered

  lemma OutcomeKeepsEntries(s: Sys, t: Sys, m: int)
    requires EntriesOk(s) && t.entries == s.entries && t.read == s.read
    requires s.finished <= t.finished <= s.finished + {m} && (forall x :: x in s.dead ==> x in t.dead)
    requires forall x :: x in t.dead ==> x in s.dead || x == m
    requires forall j :: s.read <= j < |s.entries| ==> s.entries[j].msg != m
    ensures EntriesOk(t)
  {
    SettledStays(s, t);
    hide Latest, Settled;
  }

  lemma OutcomeKeepsWorkers(s: Sys, t: Sys, w: int, m: int)
    requires EntriesOk(s) && WorkersOk(s) && PhaseOf(s, w).Running? && m == s.entries[PhaseOf(s, w).i].msg
    requires t.entries == s.entries && t.read == s.read && t.workers == s.workers[w := ToAck(PhaseOf(s, w).i)]
    requires s.finished <= t.finished <= s.finished + {m} && (forall x :: x in s.dead ==> x in t.dead)
    requires forall x :: x in t.dead ==> x in s.dead || x == m
    requires m in t.finished || m in t.dead
    ensures WorkersOk(t)
  {
    var i := PhaseOf(s, w).i;
    OnlyHolder(s, w);
    SettledStays(s, t);
    assert Settled(t, i);
    hide Latest, Settled, EntriesOk, Exclusive;
    forall v ensures WorkerOk(t, PhaseOf(t, v)) {
      assert WorkerOk(s, PhaseOf(s, v));
      if v != w { WorkerStays(s, t, PhaseOf(s, v)); }
    }
    MoveKeepsExclusive(s, t, w);
  }

  lemma FinishKeeps(s: Sys, w: int)
    requires Inv(s) && Enabled(s, Finish(w))
    ensures Inv(Next(s, Finish(w)))
  {
    hide Numbered, WorkersOk, EntriesOk, Latest;
    var t, i := Next(s, Finish(w)), PhaseOf(s, w).i;
    var m := s.entries[i].msg;
    OnlyHolder(s, w);
    OutcomeKeepsEntries(s, t, m);
    OutcomeKeepsWorkers(s, t, w, m);
  }

  lemma DeadLetterKeeps(s: Sys, w: int)
    requires Inv(s) && Enabled(s, DeadLetter(w))
    ensures Inv(Next(s, DeadLetter(w)))
  {
    var t, i := Next(s, DeadLetter(w)), PhaseOf(s, w).i;
    var m := s.entries[i].msg;
    RetriesBounded(s.entries, i);
    hide Numbered, WorkersOk, EntriesOk;
    OnlyHolder(s, w);
    OutcomeKeepsEntries(s, t, m);
    OutcomeKeepsWorkers(s, t, w, m);
    DeadLetterOutcome(s, t, i);
  }

  lemma DeadLetterOutcome(s: Sys, t: Sys, i: nat)
    requires OutcomesOk(s) && Latest(s.entries, i) && s.entries[i].retries == MAX_RETRIES
    requires s.entries[i].msg !in s.dead && s.entries[i].msg !in s.finished
    requires t.entries == s.entries && t.finished == s.finished && t.dead == s.dead + [s.entries[i].msg]
    ensures OutcomesOk(t)
  {
  }

  lemma RetriesBounded(a: seq<Entry>, i: nat)
    requires Numbered(a) && i < |a|
    ensures a[i].retries <= MAX_RETRIES
  {
  }

  lemma {:induction false} AlwaysInv(run: seq<Action>)
    requires Legal(run)
    ensures Inv(Exec(run))
  {
    hide Inv, Enabled, Next;
    if run == [] {
      StartInv();
    } else {
      var prev, a := run[..|run| - 1], run[|run| - 1];
      AlwaysInv(prev);
      StepKeeps(Exec(prev), a);
    }
  }

  lemma StartInv()
    ensures Inv(START)
  {
  }

  lemma StepKeeps(s: Sys, a: Action)
    requires Inv(s) && Enabled(s, a)
    ensures Inv(Next(s, a))
  {
    hide Inv, Enabled, Next;
    match a
    case Publish(m) => PublishKeeps(s, m);
    case Read(w) => ReadKeeps(s, w);
    case Finish(w) => FinishKeeps(s, w);
    case Requeue(w) => RequeueKeeps(s, w);
    case DeadLetter(w) => DeadLetterKeeps(s, w);
    case Ack(w) => CommandKeeps(s, a);
    case Del(w) => CommandKeeps(s, a);
    case Crash(w) => CrashKeeps(s, w);
    case Reclaim(i, w) => ReclaimKeeps(s, i, w);
  }

  // ---------------------------------------------------------------- what the protocol promises

  /** A message causes at most MaxRetries + 1 handler runs, whoever crashes when. */
  lemma BoundedRuns(run: seq<Action>, m: int)
    requires Legal(run)
    ensures Exec(run).read <= |Exec(run).entries| && Runs(Exec(run), m) <= MAX_RETRIES + 1
  {
    AlwaysInv(run);
    var s := Exec(run);
    CopiesBound(s.entries, m);
    CopiesMonotone(s.entries, s.read, m);
  }

  /** A published message is in the stream, pending or dead-lettered until some handler
      run has finished it. */
  lemma NeverLost(run: seq<Action>, m: int)
    requires Legal(run)
    requires exists i :: 0 <= i < |Exec(run).entries| && Exec(run).entries[i].msg == m
    ensures var s := Exec(run);
            m in s.finished || m in s.dead
            || exists i :: && 0 <= i < |s.entries| && s.entries[i].msg == m
                           && (s.entries[i].inStream || s.entries[i].pending)
  {
    AlwaysInv(run);
    var s := Exec(run);
    hide Exec, Legal, Inv;
    var i :| 0 <= i < |s.entries| && s.entries[i].msg == m;
    var j := LatestExists(s.entries, i);
    if m !in s.finished && m !in s.dead { LatestIsKept(s, j); }
  }

  /** The latest copy of a message nobody finished is in the stream. */
  lemma LatestIsKept(s: Sys, j: nat)
    requires Inv(s) && Latest(s.entries, j) && s.entries[j].msg !in s.finished && s.entries[j].msg !in s.dead
    ensures s.entries[j].inStream
  {
    hide Numbered, WorkersOk, OutcomesOk;
    assert !Settled(s, j);
  }

  /** The dead-letter queue holds a message at most once, never one that was finished,
      and only after exactly MaxRetries + 1 handler runs. */
  lemma DeadLettersAreExhausted(run: seq<Action>, m: int)
    requires Legal(run) && m in Exec(run).dead
    ensures var s := Exec(run);
            && m !in s.finished && (forall k, l :: 0 <= k < l < |s.dead| ==> s.dead[k] != s.dead[l])
            && s.read <= |s.entries| && Runs(s, m) == MAX_RETRIES + 1
  {
    AlwaysInv(run);
    var s := Exec(run);
    var i :| 0 <= i < |s.entries| && s.entries[i].msg == m;
    var j := LatestExists(s.entries, i);
    LatestCopies(s.entries, j);
    NoCopies(s.entries, s.read, m);
  }

  /** The entry is pending in the group but no worker is working on it: its worker died. */
  ghost predicate Orphaned(s: Sys, i: nat) {
    i < |s.entries| && i < s.read && s.entries[i].pending && forall w :: Held(PhaseOf(s, w)) != i
  }

  /** Claiming an orphaned entry does not run it again: once orphaned it stays pending
      and unhandled through every further step. */
  lemma OrphanStays(s: Sys, i: nat, a: Action)
    requires Inv(s) && Orphaned(s, i) && Enabled(s, a)
    ensures Orphaned(Next(s, a), i)
  {
    var t := Next(s, a);
    forall w ensures Held(PhaseOf(t, w)) != i {
      assert Held(PhaseOf(s, w)) != i;
    }
    if a.Ack? || a.Del? { assert Held(PhaseOf(s, a.w)) == PhaseOf(s, a.w).i; }
  }

  /** A worker that dies while its handler runs leaves an orphan. */
  lemma CrashOrphans(s: Sys, w: int)
    requires Inv(s) && PhaseOf(s, w).Running?
    ensures Orphaned(Next(s, Crash(w)), PhaseOf(s, w).i)
  {
    var t, i := Next(s, Crash(w)), PhaseOf(s, w).i;
    RunningHolds(s, w);
    hide Inv;
    forall v ensures Held(PhaseOf(t, v)) != i { assert v != w ==> PhaseOf(t, v) == PhaseOf(s, v); }
  }

  /** A worker in its handler holds a pending entry, and no other worker does. */
  lemma RunningHolds(s: Sys, w: int)
    requires Inv(s) && PhaseOf(s, w).Running?
    ensures var i := PhaseOf(s, w).i;
            i < |s.entries| && i < s.read && s.entries[i].pending && forall v :: v != w ==> Held(PhaseOf(s, v)) != i
  {
    hide Numbered, EntriesOk, OutcomesOk, Latest, Settled;
    assert WorkerOk(s, PhaseOf(s, w)) && Held(PhaseOf(s, w)) == PhaseOf(s, w).i;
  }

  /** No later step of any run picks an orphaned entry up again, claimed or not: recovery
      moves ownership and re-delivers nothing. */
  lemma {:induction false} OrphanForever(run: seq<Action>, more: seq<Action>, i: nat)
    requires Legal(run + more) && Legal(run) && Orphaned(Exec(run), i)
    ensures Orphaned(Exec(run + more), i)
    decreases |more|
  {
    hide Inv, Enabled, Next, Orphaned;
    if more == [] {
      assert run + more == run;
    } else {
      var fewer, a := more[..|more| - 1], more[|more| - 1];
      assert (run + more)[..|run + more| - 1] == run + fewer;
      OrphanForever(run, fewer, i);
      AlwaysInv(run + fewer);
      OrphanStays(Exec(run + fewer), i, a);
    }
  }

  lemma Extend(run: seq<Action>, a: Action)
    requires Legal(run) && Enabled(Exec(run), a)
    ensures Legal(run + [a]) && Exec(run + [a]) == Next(Exec(run), a)
  {
    assert (run + [a])[..|run|] == run;
  }

  /** In some continuation of the run the entry is no longer pending. */
  ghost predicate CanSettle(run: seq<Action>, i: nat)
    requires Legal(run)
  {
    exists more :: Legal(run + more) && i < |Exec(run + more).entries| && !Exec(run + more).entries[i].pending
  }

  /** A worker that still holds a pending entry can finish and acknowledge it. */
  lemma HolderSettles(run: seq<Action>, w: int)
    requires Legal(run) && (PhaseOf(Exec(run), w).Running? || PhaseOf(Exec(run), w).ToAck?)
    ensures CanSettle(run, PhaseOf(Exec(run), w).i)
  {
    hide Legal, Exec, Inv;
    var s := Exec(run);
    var i := PhaseOf(s, w).i;
    AlwaysInv(run);
    Ready(s, w);
    if PhaseOf(s, w).Running? {
      Extend(run, Finish(w));
      Extend(run + [Finish(w)], Ack(w));
      assert run + [Finish(w)] + [Ack(w)] == run + [Finish(w), Ack(w)];
    } else {
      Extend(run, Ack(w));
    }
  }

  /** A pending entry can still be settled in some continuation exactly if a worker holds it. */
  lemma SettlesOnlyIfHeld(run: seq<Action>, i: nat)
    requires Legal(run) && i < |Exec(run).entries| && Exec(run).entries[i].pending
    ensures CanSettle(run, i) <==> exists w :: Held(PhaseOf(Exec(run), w)) == i
  {
    hide Legal, Exec, Inv;
    var s := Exec(run);
    AlwaysInv(run);
    PendingIsRead(s, i);
    if w :| Held(PhaseOf(s, w)) == i {
      HolderActs(s, w);
      HolderSettles(run, w);
    } else if CanSettle(run, i) {
      var more :| Legal(run + more) && i < |Exec(run + more).entries| && !Exec(run + more).entries[i].pending;
      OrphanForever(run, more, i);
    }
  }

  lemma PendingIsRead(s: Sys, i: nat)
    requires Inv(s) && i < |s.entries| && s.entries[i].pending
    ensures i < s.read
  {
  }

  lemma HolderActs(s: Sys, w: int)
    requires Inv(s) && Held(PhaseOf(s, w)) >= 0
    ensures Held(PhaseOf(s, w)) < |s.entries|
    ensures s.entries[Held(PhaseOf(s, w))].pending ==> !PhaseOf(s, w).ToDel?
  {
    assert WorkerOk(s, PhaseOf(s, w));
  }

  // ---------------------------------------------------------------- the code that issues the commands

  class Redis {
    var queue: Sys

    constructor ()
      ensures queue == START
    {
      queue := START;
    }

    method AckAndDel(w: int)
      requires Inv(queue) && PhaseOf(queue, w).ToAck?
      modifies this
      ensures Inv(queue) && var before := old(queue);
              && Enabled(before, Ack(w)) && Enabled(Next(before, Ack(w)), Del(w))
              && queue == Next(Next(before, Ack(w)), Del(w))
    {
      hide Inv;
      Ready(queue, w);
      StepKeeps(queue, Ack(w));
      queue := Next(queue, Ack(w));
      Ready(queue, w);
      StepKeeps(queue, Del(w));
      queue := Next(queue, Del(w));
    }

    /** Requeues the message a handler failed on, or gives up on it after MaxRetries. The
        new copy is written before the old entry is acknowledged and deleted. */
    method ShouldRetry(w: int) returns (requeued: bool)
      requires Inv(queue) && PhaseOf(queue, w).Running?
      modifies this
      ensures Inv(queue) && PhaseOf(queue, w).Idle?
      ensures var before, i := old(queue), old(PhaseOf(queue, w).i);
              && i < |before.entries| && requeued == (before.entries[i].retries < MAX_RETRIES)
              && var e := before.entries[i];
              && queue.dead == (if requeued then before.dead else before.dead + [e.msg])
              && queue.entries == before.entries[i := e.(pending := false, inStream := false)]
                                  + (if requeued then [Entry(e.msg, e.retries + 1, true, false, 0)] else [])
              && queue.read == before.read && queue.finished == before.finished
                 && queue.workers == before.workers[w := Idle]
    {
      hide Inv;
      Ready(queue, w);
      var retryCount := queue.entries[PhaseOf(queue, w).i].retries;
      if retryCount >= MAX_RETRIES {
        StepKeeps(queue, DeadLetter(w));
        queue := Next(queue, DeadLetter(w));
        AckAndDel(w);
        return false;
      }
      StepKeeps(queue, Requeue(w));
      queue := Next(queue, Requeue(w));
      AckAndDel(w);
      return true;
    }
  }

  lemma Ready(s: Sys, w: int)
    requires Inv(s)
    ensures !PhaseOf(s, w).Idle? ==> PhaseOf(s, w).i < |s.entries|
  {
    assert WorkerOk(s, PhaseOf(s, w));
  }
}
