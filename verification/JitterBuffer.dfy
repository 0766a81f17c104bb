/** The consumer of the test runner: reports arrive in any order, are parked in a
    buffer keyed by engine sequence id, and are processed in sequence order. */
module JitterBuffer {
  import opened Orders
  import opened FlatEngine
  import opened Ranging
  import CorrectEngine

  /** One item from the event channel: a send failure or an empty event carries no report. */
  datatype Item = Empty | Carries(report: ExecReport)

  function Reports(items: seq<Item>): seq<ExecReport> {
    if items == [] then []
    else
      var i := items[|items| - 1];
      Reports(items[..|items| - 1]) + if i.Carries? then [i.report] else []
  }

  predicate Increasing(rs: seq<ExecReport>) {
    forall i, j :: 0 <= i < j < |rs| ==> rs[i].seqId < rs[j].seqId
  }

  predicate DistinctIds(rs: seq<ExecReport>) {
    forall i, j :: 0 <= i < j < |rs| ==> rs[i].seqId != rs[j].seqId
  }

  predicate FromOne(rs: seq<ExecReport>) { forall i :: 0 <= i < |rs| ==> rs[i].seqId >= 1 }

  lemma {:induction false} AtMostOnce(rs: seq<ExecReport>, x: ExecReport)
    requires DistinctIds(rs)
    ensures multiset(rs)[x] == if x in rs then 1 else 0
  {
    if rs != [] {
      var n := |rs| - 1;
      assert rs == rs[..n] + [rs[n]];
      AtMostOnce(rs[..n], x);
    }
  }

  /** Distinct ids and the same reports make the same multiset. */
  lemma SameMultiset(a: seq<ExecReport>, b: seq<ExecReport>)
    requires DistinctIds(a) && DistinctIds(b) && forall x :: x in a <==> x in b
    ensures multiset(a) == multiset(b)
  {
    forall x ensures multiset(a)[x] == multiset(b)[x] {
      AtMostOnce(a, x);
      AtMostOnce(b, x);
    }
  }

  /** Nothing lost and nothing repeated is possible only if ids are distinct and start at 1. */
  lemma CompleteNeedsDistinct(out: seq<ExecReport>, got: seq<ExecReport>)
    requires Increasing(out) && FromOne(out) && multiset(out) == multiset(got)
    ensures DistinctIds(got) && FromOne(got)
  {
    forall i | 0 <= i < |got| ensures got[i] in out {
      assert got[i] in multiset(got);
    }
    forall i, j | 0 <= i < j < |got| ensures got[i].seqId != got[j].seqId {
      if got[i].seqId == got[j].seqId {
        assert got[i] in out && got[j] in out;
        assert got[i] == got[j];
        Twice(got, i, j);
        AtMostOnce(out, got[i]);
      }
    }
  }

  lemma Twice(s: seq<ExecReport>, i: nat, j: nat)
    requires i < j < |s| && s[i] == s[j]
    ensures multiset(s)[s[i]] >= 2
  {
    assert s == s[..j] + s[j..];
    assert s[i] == s[..j][i];
    assert s[j] == s[j..][0];
    assert s[i] in multiset(s[..j]) && s[j] in multiset(s[j..]);
    assert multiset(s) == multiset(s[..j]) + multiset(s[j..]);
  }

  /** The buffer's content belongs to what was received, keyed by sequence id. */
  ghost predicate Parked(buf: map<int, ExecReport>, got: seq<ExecReport>) {
    forall k :: k in buf ==> buf[k].seqId == k && buf[k] in got
  }

  /** What holds while reports come in, if ids are distinct and start at 1: everything
      received is processed or parked, and all ids below `next` are processed. */
  ghost predicate Caught(buf: map<int, ExecReport>, next: int, out: seq<ExecReport>, got: seq<ExecReport>) {
    && (forall r :: r in got <==> r in out || (r.seqId in buf && buf[r.seqId] == r))
    && (forall k :: k in buf ==> k >= next)
    && (forall i :: 0 <= i < |out| ==> out[i].seqId < next)
  }

  /** Until the channel closes the processed reports are numbers 1, 2, 3, ... */
  predicate NoGaps(next: int, out: seq<ExecReport>) {
    |out| == next - 1 && forall i :: 0 <= i < |out| ==> out[i].seqId == i + 1
  }

  lemma NumberIsThere(next: int, out: seq<ExecReport>, k: int)
    requires NoGaps(next, out) && 1 <= k < next
    ensures exists x :: x in out && x.seqId == k
  {
    assert out[k - 1] in out;
  }

  lemma FreshArrival(buf: map<int, ExecReport>, next: int, out: seq<ExecReport>, got: seq<ExecReport>, r: ExecReport)
    requires Caught(buf, next, out, got) && NoGaps(next, out) && Parked(buf, got) && r.seqId >= 1
    requires forall x :: x in got ==> x.seqId != r.seqId
    ensures r.seqId >= next && r.seqId !in buf && Caught(buf[r.seqId := r], next, out, got + [r])
  {
    if r.seqId < next { NumberIsThere(next, out, r.seqId); }
    var b := buf[r.seqId := r];
    forall x ensures x in got + [r] <==> x in out || (x.seqId in b && b[x.seqId] == x) {
      if x in out { assert x in got; }
    }
  }

  lemma Processed(buf: map<int, ExecReport>, next: int, out: seq<ExecReport>, got: seq<ExecReport>)
    requires Caught(buf, next, out, got) && Parked(buf, got) && next in buf
    ensures Caught(buf - {next}, next + 1, out + [buf[next]], got)
    ensures NoGaps(next, out) ==> NoGaps(next + 1, out + [buf[next]])
  {
  }

  lemma IncreasingSnoc(out: seq<ExecReport>, r: ExecReport)
    requires Increasing(out) && FromOne(out) && r.seqId >= 1
    requires forall i :: 0 <= i < |out| ==> out[i].seqId < r.seqId
    ensures Increasing(out + [r]) && FromOne(out + [r])
  {
  }

  /** The parked reports numbered lo, lo + 1, ..., hi - 1, in that order. */
  function Stretch(buf: map<int, ExecReport>, lo: int, hi: int): seq<ExecReport>
    decreases hi - lo
  {
    if hi <= lo then [] else Stretch(buf, lo, hi - 1) + if hi - 1 in buf then [buf[hi - 1]] else []
  }

  function Beyond(buf: map<int, ExecReport>, lo: int, hi: int): map<int, ExecReport> {
    map k | k in buf && !(lo <= k < hi) :: buf[k]
  }

  lemma OneFurther(buf: map<int, ExecReport>, lo: int, hi: int)
    requires lo <= hi && hi in Beyond(buf, lo, hi)
    ensures hi in buf && Beyond(buf, lo, hi)[hi] == buf[hi]
    ensures Stretch(buf, lo, hi + 1) == Stretch(buf, lo, hi) + [buf[hi]]
    ensures Beyond(buf, lo, hi + 1) == Beyond(buf, lo, hi) - {hi}
  {
  }

  /** What holds at every turn of both loops, whatever the ids are: only received reports
      are processed, in increasing order, all of them below `next`. */
  ghost predicate Underway(buf: map<int, ExecReport>, next: int, out: seq<ExecReport>, done: seq<ExecReport>,
      got: seq<ExecReport>)
  {
    && next >= 1 && Parked(buf, got) && Increasing(out) && FromOne(out)
    && (forall i :: 0 <= i < |out| ==> out[i].seqId < next)
    && (forall r :: r in out ==> r in done || r in got)
  }

  lemma ProcessNext(buf: map<int, ExecReport>, next: int, out: seq<ExecReport>, done: seq<ExecReport>,
      got: seq<ExecReport>)
    requires Underway(buf, next, out, done, got) && next in buf
    ensures Underway(buf - {next}, next + 1, out + [buf[next]], done, got)
  {
    hide Increasing, FromOne;
    IncreasingSnoc(out, buf[next]);
  }

  lemma Parks(buf: map<int, ExecReport>, next: int, out: seq<ExecReport>, done: seq<ExecReport>, got: seq<ExecReport>)
    requires Underway(buf, next, out, done, got)
    ensures Parked(buf, got) && Increasing(out) && FromOne(out)
    ensures forall i :: 0 <= i < |out| ==> out[i].seqId < next
    ensures forall r :: r in out ==> r in done || r in got
  {
    hide Increasing, FromOne;
  }

  lemma JumpTo(buf: map<int, ExecReport>, next: int, out: seq<ExecReport>, done: seq<ExecReport>,
      got: seq<ExecReport>, to: int)
    requires Underway(buf, next, out, done, got) && to > next
    ensures Underway(buf, to, out, done, got)
  {
    hide Increasing, FromOne;
  }

  lemma EmptyCaught(buf: map<int, ExecReport>, next: int, out: seq<ExecReport>, got: seq<ExecReport>)
    requires Caught(buf, next, out, got) && |buf| == 0
    ensures forall r :: r in got <==> r in out
  {
    assert forall k :: k !in buf;
  }

  lemma NothingBehind(buf: map<int, ExecReport>, next: int, out: seq<ExecReport>, got: seq<ExecReport>)
    requires Caught(buf, next, out, got)
    ensures forall k :: k in buf ==> k >= next
  {
  }

  lemma JumpCaught(buf: map<int, ExecReport>, next: int, out: seq<ExecReport>, got: seq<ExecReport>, to: int)
    requires Caught(buf, next, out, got) && to > next && forall k :: k in buf ==> to <= k
    ensures Caught(buf, to, out, got)
  {
  }

  /** The inner loop: process the consecutive ids that are there, and stop at the first gap. */
  method Drain(buffer: map<int, ExecReport>, start: int, done: seq<ExecReport>, ghost got: seq<ExecReport>,
      ghost good: bool)
    returns (buf: map<int, ExecReport>, next: int, out: seq<ExecReport>)
    requires start >= 1 && Parked(buffer, got) && Increasing(done) && FromOne(done)
    requires forall i :: 0 <= i < |done| ==> done[i].seqId < start
    requires good ==> Caught(buffer, start, done, got) && NoGaps(start, done)
    ensures next >= start && next !in buf && forall k :: start <= k < next ==> k in buffer
    ensures out == done + Stretch(buffer, start, next) && buf == Beyond(buffer, start, next)
    ensures Parked(buf, got) && Increasing(out) && FromOne(out)
    ensures forall i :: 0 <= i < |out| ==> out[i].seqId < next
    ensures forall r :: r in out ==> r in done || r in got
    ensures good ==> Caught(buf, next, out, got) && NoGaps(next, out)
  {
    hide Caught, NoGaps, Underway, Stretch, Beyond;
    buf, next, out := buffer, start, done;
    SetOut(buffer, start, done, got);
    while next in buf
      invariant next >= start && forall k :: start <= k < next ==> k in buffer
      invariant out == done + Stretch(buffer, start, next) && buf == Beyond(buffer, start, next)
      invariant Underway(buf, next, out, done, got)
      invariant good ==> Caught(buf, next, out, got) && NoGaps(next, out)
      decreases |buf|
    {
      hide Parked, Increasing, FromOne;
      OneFurther(buffer, start, next);
      assert done + (Stretch(buffer, start, next) + [buf[next]]) == out + [buf[next]];
      if good { Parks(buf, next, out, done, got); Processed(buf, next, out, got); }
      ProcessNext(buf, next, out, done, got);
      SmallerBuffer(buf, next);
      out := out + [buf[next]];
      buf, next := buf - {next}, next + 1;
    }
    Parks(buf, next, out, done, got);
  }

  lemma SetOut(buf: map<int, ExecReport>, start: int, done: seq<ExecReport>, got: seq<ExecReport>)
    requires start >= 1 && Parked(buf, got) && Increasing(done) && FromOne(done)
    requires forall i :: 0 <= i < |done| ==> done[i].seqId < start
    ensures Underway(buf, start, done, done, got)
    ensures done + Stretch(buf, start, start) == done && Beyond(buf, start, start) == buf
  {
  }

  lemma SmallerBuffer(buf: map<int, ExecReport>, k: int)
    requires k in buf
    ensures |buf - {k}| < |buf|
  {
    assert (buf - {k}).Keys == buf.Keys - {k};
    assert |buf.Keys - {k}| < |buf.Keys|;
  }

  /** The search for the smallest key, with -1 for "none yet". */
  method MinKey(buf: map<int, ExecReport>) returns (m: int)
    ensures m == -1 || m in buf
    ensures (forall k :: k in buf ==> k >= 0) && |buf| > 0 ==> m in buf && forall k :: k in buf ==> m <= k
  {
    m := -1;
    var todo := buf.Keys;
    while todo != {}
      invariant todo <= buf.Keys
      invariant m == -1 || m in buf
      invariant (forall k :: k in buf ==> k >= 0) ==>
                  (m == -1 ==> todo == buf.Keys) && (m != -1 ==> forall k :: k in buf && k !in todo ==> m <= k)
      decreases todo
    {
      var k := PickOne(todo);
      if m == -1 || k < m { m := k; }
      todo := todo - {k};
    }
    if |buf| > 0 { assert buf.Keys != {}; }
  }

  /** The loop after the channel closed: process what is left, jumping over gaps. */
  method Flush(buffer: map<int, ExecReport>, start: int, done: seq<ExecReport>, ghost got: seq<ExecReport>,
      ghost good: bool)
    returns (out: seq<ExecReport>)
    requires start >= 1 && Parked(buffer, got) && Increasing(done) && FromOne(done)
    requires forall i :: 0 <= i < |done| ==> done[i].seqId < start
    requires good ==> Caught(buffer, start, done, got)
    ensures done <= out && Increasing(out) && FromOne(out) && forall r :: r in out ==> r in done || r in got
    ensures good ==> forall r :: r in got <==> r in out
  {
    hide Caught, Underway;
    var buf, next := buffer, start;
    out := done;
    SetOut(buffer, start, done, got);
    while |buf| > 0
      invariant next >= start && done <= out && Underway(buf, next, out, done, got)
      invariant good ==> Caught(buf, next, out, got)
      decreases |buf|, if next in buf then 0 else 1
    {
      hide Parked, Increasing, FromOne;
      if next in buf {
        if good { Parks(buf, next, out, done, got); Processed(buf, next, out, got); }
        ProcessNext(buf, next, out, done, got);
        SmallerBuffer(buf, next);
        out := out + [buf[next]];
        buf, next := buf - {next}, next + 1;
      } else {
        var minKey := MinKey(buf);
        if minKey != -1 && minKey > next {
          JumpTo(buf, next, out, done, got, minKey);
          if good { NothingBehind(buf, next, out, got); JumpCaught(buf, next, out, got, minKey); }
          next := minKey;
        } else {
          if good { NothingBehind(buf, next, out, got); }
          break;
        }
      }
    }
    Parks(buf, next, out, done, got);
    if good { EmptyCaught(buf, next, out, got); }
  }

  /** The consumer from start to channel close. Processed reports are always in
      increasing sequence order, and they are all of the received ones, each once,
      exactly when the received ids are distinct and at least 1. Then the first `early`
      of them, everything before the first missing id, did not wait for the close. */
  method Consume(items: seq<Item>) returns (out: seq<ExecReport>, early: nat)
    ensures Increasing(out) && FromOne(out)
    ensures forall r :: r in out ==> r in Reports(items)
    ensures multiset(out) == multiset(Reports(items)) <==> DistinctIds(Reports(items)) && FromOne(Reports(items))
    ensures DistinctIds(Reports(items)) && FromOne(Reports(items)) ==>
              && early <= |out| && (forall i :: 0 <= i < early ==> out[i].seqId == i + 1)
              && forall r :: r in Reports(items) ==> r.seqId != early + 1
  {
    hide NoGaps, Caught, Increasing, FromOne, DistinctIds, Parked, Reports;
    var buf: map<int, ExecReport>, next := map[], 1;
    out := [];
    NothingYet();
    assert items[..0] == [];
    ghost var all := Reports(items);
    ghost var good := DistinctIds(all) && FromOne(all);
    var n := 0;
    while n < |items|
      invariant 0 <= n <= |items| && Reports(items[..n]) <= all
      invariant next >= 1 && Parked(buf, Reports(items[..n])) && Increasing(out) && FromOne(out)
      invariant forall i :: 0 <= i < |out| ==> out[i].seqId < next
      invariant forall r :: r in out ==> r in Reports(items[..n])
      invariant good ==> Caught(buf, next, out, Reports(items[..n])) && NoGaps(next, out)
      invariant next !in buf
    {
      ghost var got := Reports(items[..n]);
      ReportsSnoc(items, n);
      if items[n].Carries? {
        var r := items[n].report;
        if good {
          NotSeen(all, got, r);
          FreshArrival(buf, next, out, got, r);
        }
        ParkedMore(buf, got, r);
        buf := buf[r.seqId := r];
        buf, next, out := Drain(buf, next, out, got + [r], good);
      }
      n := n + 1;
    }
    assert items[..n] == items;
    early := |out|;
    if good { UpToTheGap(buf, next, out, all); }
    out := Flush(buf, next, out, all, good);
    if good { AllThere(out, all); }
    if multiset(out) == multiset(all) { CompleteNeedsDistinct(out, all); }
  }

  /** When the channel closes everything before the first missing id has been processed. */
  lemma UpToTheGap(buf: map<int, ExecReport>, next: int, out: seq<ExecReport>, got: seq<ExecReport>)
    requires Caught(buf, next, out, got) && NoGaps(next, out) && next !in buf
    ensures (forall i :: 0 <= i < |out| ==> out[i].seqId == i + 1) && forall r :: r in got ==> r.seqId != |out| + 1
  {
  }

  lemma NothingYet()
    ensures Reports([]) == [] && Increasing([]) && FromOne([]) && Parked(map[], []) && Caught(map[], 1, [], [])
        && NoGaps(1, [])
  {
  }

  lemma ParkedMore(buf: map<int, ExecReport>, got: seq<ExecReport>, r: ExecReport)
    requires Parked(buf, got)
    ensures Parked(buf[r.seqId := r], got + [r])
  {
  }

  lemma AllThere(out: seq<ExecReport>, all: seq<ExecReport>)
    requires Increasing(out) && DistinctIds(all) && forall r :: r in all <==> r in out
    ensures multiset(out) == multiset(all)
  {
    SameMultiset(out, all);
  }

  lemma NotSeen(all: seq<ExecReport>, got: seq<ExecReport>, r: ExecReport)
    requires DistinctIds(all) && FromOne(all) && got + [r] <= all
    ensures r.seqId >= 1 && forall x :: x in got ==> x.seqId != r.seqId
  {
    assert all[|got|] == r;
    forall x | x in got ensures x.seqId != r.seqId {
      var i :| 0 <= i < |got| && got[i] == x;
      assert all[i] == x;
    }
  }

  lemma {:induction false} ReportsPrefix(items: seq<Item>, n: nat)
    requires n <= |items|
    ensures Reports(items[..n]) <= Reports(items)
  {
    if n == |items| {
      assert items[..n] == items;
    } else {
      var m := |items| - 1;
      ReportsPrefix(items[..m], n);
      assert items[..m][..n] == items[..n];
    }
  }

  lemma ReportsSnoc(items: seq<Item>, n: nat)
    requires n < |items|
    ensures Reports(items[..n + 1])
         == if items[n].Carries? then Reports(items[..n]) + [items[n].report] else Reports(items[..n])
    ensures Reports(items[..n + 1]) <= Reports(items)
  {
    assert items[..n + 1][..n] == items[..n];
    ReportsPrefix(items, n + 1);
  }

  // ---------------------------------------------------------------- behind a correct engine

  /** There is only one way to put distinct ids in order. */
  lemma {:induction false} OnlyOneOrder(a: seq<ExecReport>, b: seq<ExecReport>)
    requires Increasing(a) && Increasing(b) && forall x :: x in a <==> x in b
    ensures a == b
  {
    SameEmptiness(a, b);
    if a != [] {
      var n, m := |a| - 1, |b| - 1;
      SameLast(a, b);
      forall x ensures x in a[..n] <==> x in b[..m] {
        InPrefix(a, x);
        InPrefix(b, x);
      }
      OnlyOneOrder(a[..n], b[..m]);
      assert a == a[..n] + [a[n]] && b == b[..m] + [b[m]];
    }
  }

  lemma SameEmptiness(a: seq<ExecReport>, b: seq<ExecReport>)
    requires forall x :: x in a <==> x in b
    ensures a == [] <==> b == []
  {
    if |a| > 0 { assert a[0] in a <==> a[0] in b; }
    if |b| > 0 { assert b[0] in a <==> b[0] in b; }
  }

  lemma InPrefix(a: seq<ExecReport>, x: ExecReport)
    requires Increasing(a) && a != []
    ensures Increasing(a[..|a| - 1]) && (x in a[..|a| - 1] <==> x in a && x != a[|a| - 1])
  {
    assert a == a[..|a| - 1] + [a[|a| - 1]];
  }

  lemma SameLast(a: seq<ExecReport>, b: seq<ExecReport>)
    requires Increasing(a) && Increasing(b) && (forall x :: x in a <==> x in b) && a != [] && b != []
    ensures a[|a| - 1] == b[|b| - 1]
  {
    var n, m := |a| - 1, |b| - 1;
    assert a[n] in b && b[m] in a;
    var i :| 0 <= i < |b| && b[i] == a[n];
    var j :| 0 <= j < |a| && a[j] == b[m];
    assert a[j].seqId <= a[n].seqId && b[i].seqId <= b[m].seqId;
    assert i == m;
  }

  /** Increasing reports of an engine run are the run's reports as emitted. */
  lemma EngineOrderRestored(os: seq<Order>, out: seq<ExecReport>)
    requires Increasing(out)
    requires multiset(out) == multiset(CorrectEngine.EngineRun(Engine([], [], 0), os).reports)
    ensures out == CorrectEngine.EngineRun(Engine([], [], 0), os).reports
  {
    var e := Engine([], [], 0);
    var rs := CorrectEngine.EngineRun(e, os).reports;
    forall i, j | 0 <= i < j < |rs| ensures rs[i].seqId < rs[j].seqId {
      CorrectEngine.EngineNumbersReports(e, os, i);
      CorrectEngine.EngineNumbersReports(e, os, j);
    }
    forall x ensures x in out <==> x in rs { assert x in multiset(out) <==> x in multiset(rs); }
    OnlyOneOrder(out, rs);
  }

  lemma EngineIdsDistinct(os: seq<Order>, got: seq<ExecReport>)
    requires multiset(got) == multiset(CorrectEngine.EngineRun(Engine([], [], 0), os).reports)
    ensures DistinctIds(got) && FromOne(got)
  {
    var e := Engine([], [], 0);
    var rs := CorrectEngine.EngineRun(e, os).reports;
    forall i, j | 0 <= i < j < |rs| ensures rs[i].seqId < rs[j].seqId && rs[i].seqId >= 1 {
      CorrectEngine.EngineNumbersReports(e, os, i);
      CorrectEngine.EngineNumbersReports(e, os, j);
    }
    forall i | 0 <= i < |rs| ensures rs[i].seqId >= 1 { CorrectEngine.EngineNumbersReports(e, os, i); }
    CompleteNeedsDistinct(rs, got);
  }

  /** Whatever order the reports of an engine run arrive in, between failures and empty
      events, the consumer processes them exactly as the engine emitted them. */
  method ConsumeEngineRun(ghost os: seq<Order>, items: seq<Item>) returns (out: seq<ExecReport>)
    requires multiset(Reports(items)) == multiset(CorrectEngine.EngineRun(Engine([], [], 0), os).reports)
    ensures out == CorrectEngine.EngineRun(Engine([], [], 0), os).reports
  {
    hide Reports, DistinctIds, FromOne, Increasing, CorrectEngine.EngineRun;
    EngineIdsDistinct(os, Reports(items));
    var early;
    out, early := Consume(items);
    EngineOrderRestored(os, out);
  }
}
