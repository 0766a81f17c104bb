/** One bot's run: a sender, a receiver and a control goroutine that share the table of
    pending orders. Each step is one locked access to one shard, one message on the result
    channel, or one local move; any interleaving of steps is a run. */
module BotRun {
  import opened PendingTable

  /** `failAllPending`: add up the shards, then empty them, then report that many failures. */
  datatype FailAll = Counting(k: nat, n: nat) | Clearing(k: nat, n: nat) | Pushing(n: nat)

  datatype Sender = Top | Writing(id: int, cancel: bool) | Failing(left: nat) | SenderGone
  datatype Receiver = Reading | Holding | ReceiverFails(f: FailAll) | ReceiverGone
  datatype Control =
    | Waiting
    | Expiring(k: nat, n: nat, deadline: int)
    | Reporting(n: nat)
    | Scanning(k: nat, n: nat)
    | ControlFails(f: FailAll)
    | ControlGone

  datatype Sys = Sys(
    orders: nat,              // OrdersToSend
    i: nat,                   // orders the sender is done with
    sender: Sender, receiver: Receiver, control: Control,
    table: map<int, int>,     // pending order id -> send time
    sent: nat, failed: nat, cancels: nat,
    closed: bool,
    // what happened to each order that was ever pending
    issued: set<int>, acked: set<int>, expired: set<int>, dropped: set<int>,
    // what the unlocked paths did
    scanned: nat, cleared: nat, drift: int)

  datatype Action =
    | MarshalFails | Begin(id: int, cancel: bool, now: int) | Written | WriteFails | WaitFails
    | PushFailed | SenderExits
    | Report(id: int) | Deliver | ReadFails | ReceiverStep
    | Tick(deadline: int) | ExpireNext | PushExpired | Check | ScanNext | Close | KeepOpen | CancelSeen | ControlStep

  function Start(orders: nat): Sys {
    Sys(orders, 0, Top, Reading, Waiting, map[], 0, 0, 0, false, {}, {}, {}, {}, 0, 0, 0)
  }

  function InShard(table: map<int, int>, k: nat): set<int> { set id | id in table && ShardOf(id) == k }

  function LateInShard(table: map<int, int>, k: nat, deadline: int): set<int> {
    set id | id in table && ShardOf(id) == k && table[id] <= deadline
  }

  predicate Enabled(s: Sys, a: Action) {
    match a
    case MarshalFails => s.sender.Top? && s.i < s.orders
    case Begin(id, cancel, _) => s.sender.Top? && s.i < s.orders && (!cancel ==> id !in s.issued)
    case Written => s.sender.Writing?
    case WriteFails => s.sender.Writing? && s.i < s.orders
    case WaitFails => s.sender.Top? && s.i < s.orders
    case PushFailed => s.sender.Failing?
    case SenderExits => s.sender.Top? && s.i == s.orders
    case Report(id) => s.receiver.Reading?
    case Deliver => s.receiver.Holding?
    case ReadFails => s.receiver.Reading?
    case ReceiverStep => s.receiver.ReceiverFails?
    case Tick(_) => s.control.Waiting?
    case ExpireNext => s.control.Expiring?
    case PushExpired => s.control.Reporting? && s.control.n > 0
    case Check => s.control.Reporting? && s.control.n == 0
    case ScanNext => s.control.Scanning? && s.control.k < SHARDS
    case Close => s.control.Scanning? && s.control.k >= SHARDS && s.control.n == 0
    case KeepOpen => s.control.Scanning? && s.control.k >= SHARDS
    case CancelSeen => s.control.Waiting?
    case ControlStep => s.control.ControlFails?
  }

  /** One move of `failAllPending`; it is over at `Pushing(0)`. */
  function FailMove(s: Sys, f: FailAll): (FailAll, Sys) {
    match f
    case Counting(k, n) =>
      if k < SHARDS then
        var c := |InShard(s.table, k)|;
        (Counting(k + 1, n + c), s.(scanned := s.scanned + c))
      else (Clearing(0, n), s)
    case Clearing(k, n) =>
      if k < SHARDS then
        var gone := InShard(s.table, k);
        (Clearing(k + 1, n), s.(table := s.table - gone, cleared := s.cleared + |gone|, dropped := s.dropped + gone))
      else (Pushing(n), s)
    case Pushing(n) => if n > 0 then (Pushing(n - 1), s.(failed := s.failed + 1)) else (f, s)
  }

  /** `getExpiredAndRemove` on one shard. */
  function ExpireMove(s: Sys, k: nat, n: nat, deadline: int): Sys {
    if k < SHARDS then
      var late := LateInShard(s.table, k, deadline);
      s.(control := Expiring(k + 1, n + |late|, deadline), table := s.table - late, expired := s.expired + late)
    else s.(control := Reporting(n))
  }

  function Next(s: Sys, a: Action): Sys
    requires Enabled(s, a)
  {
    match a
    case MarshalFails => s.(i := s.i + 1, failed := s.failed + 1)
    case Begin(id, cancel, now) =>
      var t := s.(sender := Writing(id, cancel));
      if cancel then t else t.(table := s.table[id := now], issued := s.issued + {id})
    case Written => s.(sender := Top, i := s.i + 1, cancels := s.cancels + if s.sender.cancel then 1 else 0)
    case WriteFails =>
      var id, found := s.sender.id, s.sender.id in s.table;
      s.(sender := Failing(s.orders - s.i), table := s.table - {id},
         dropped := if found then s.dropped + {id} else s.dropped,
         drift := s.drift + (if s.sender.cancel then 0 else 1) - (if found then 1 else 0))
    case WaitFails => s.(sender := Failing(s.orders - s.i))
    case PushFailed =>
      if s.sender.left == 0 then s.(sender := SenderGone)
      else s.(sender := Failing(s.sender.left - 1), failed := s.failed + 1)
    case SenderExits => s.(sender := SenderGone)
    case Report(id) =>
      if id in s.table then s.(receiver := Holding, table := s.table - {id}, acked := s.acked + {id}) else s
    case Deliver => s.(receiver := Reading, sent := s.sent + 1)
    case ReadFails => s.(receiver := ReceiverFails(Counting(0, 0)))
    case ReceiverStep =>
      if s.receiver.f == Pushing(0) then s.(receiver := ReceiverGone)
      else var (f, t) := FailMove(s, s.receiver.f); t.(receiver := ReceiverFails(f))
    case Tick(deadline) => s.(control := Expiring(0, 0, deadline))
    case ExpireNext => ExpireMove(s, s.control.k, s.control.n, s.control.deadline)
    case PushExpired => s.(control := Reporting(s.control.n - 1), failed := s.failed + 1)
    case Check => s.(control := if s.sender.SenderGone? then Scanning(0, 0) else Waiting)
    case ScanNext => s.(control := Scanning(s.control.k + 1, s.control.n + |InShard(s.table, s.control.k)|))
    case Close => s.(control := ControlGone, closed := true)
    case KeepOpen => s.(control := Waiting)
    case CancelSeen => s.(control := ControlFails(Counting(0, 0)))
    case ControlStep =>
      if s.control.f == Pushing(0) then s.(control := ControlGone, closed := true)
      else var (f, t) := FailMove(s, s.control.f); t.(control := ControlFails(f))
  }

  predicate Legal(orders: nat, run: seq<Action>)
    decreases run, 0
  {
    run == [] || (Legal(orders, run[..|run| - 1]) && Enabled(Exec(orders, run[..|run| - 1]), run[|run| - 1]))
  }

  function Exec(orders: nat, run: seq<Action>): Sys
    requires Legal(orders, run)
    decreases run, 1
  {
    if run == [] then Start(orders) else Next(Exec(orders, run[..|run| - 1]), run[|run| - 1])
  }

  predicate Finished(s: Sys) { s.sender.SenderGone? && s.receiver.ReceiverGone? && s.control.ControlGone? }

  // ---------------------------------------------------------------- the books balance

  /** Results the sender still has to account for. An order being written is in the table already. */
  function Owed(s: Sys): int {
    match s.sender
    case Top => s.orders - s.i
    case Writing(_, cancel) => s.orders - s.i - if cancel then 0 else 1
    case Failing(left) => left
    case SenderGone => 0
  }

  /** Results that left the table and have not reached the channel. */
  function ReceiverHolds(r: Receiver): nat {
    match r
    case Holding => 1
    case ReceiverFails(f) => f.n
    case _ => 0
  }

  function ControlHolds(c: Control): nat {
    match c
    case Expiring(_, n, _) => n
    case Reporting(n) => n
    case ControlFails(f) => f.n
    case _ => 0
  }

  predicate Balanced(s: Sys) {
    && s.i <= s.orders && (s.sender.Writing? ==> s.i < s.orders)
    && s.sent + s.failed + s.cancels + |s.table|
       + Owed(s) + ReceiverHolds(s.receiver) + ControlHolds(s.control) + s.cleared
       == s.orders + s.scanned + s.drift
  }

  lemma DropSize(m: map<int, int>, gone: set<int>)
    requires gone <= m.Keys
    ensures |m - gone| == |m| - |gone|
  {
    assert (m - gone).Keys == m.Keys - gone;
    assert |(m - gone).Keys| == |m - gone| && |m.Keys| == |m|;
  }

  lemma SetSize(m: map<int, int>, id: int, t: int)
    requires id !in m
    ensures |m[id := t]| == |m| + 1
  {
    assert m[id := t].Keys == m.Keys + {id};
    assert |m[id := t].Keys| == |m[id := t]| && |m.Keys| == |m|;
  }

  lemma BalancedStep(s: Sys, a: Action)
    requires Balanced(s) && Fates(s) && Enabled(s, a)
    ensures Balanced(Next(s, a)) && Next(s, a).orders == s.orders
  {
    hide Balanced, Fates, Enabled, Next;
    match a
    case Begin(id, cancel, now) => BeginBalances(s, id, cancel, now);
    case WriteFails => WriteFailsBalances(s);
    case Report(id) => ReportBalances(s, id);
    case ReceiverStep => ReceiverStepBalances(s);
    case ExpireNext => ExpireBalances(s);
    case ControlStep => ControlStepBalances(s);
    case _ => LocalBalances(s, a);
  }

  /** Steps that do not touch the table. */
  predicate Local(a: Action) {
    !a.Begin? && !a.WriteFails? && !a.Report? && !a.ReceiverStep? && !a.ExpireNext? && !a.ControlStep?
  }

  lemma LocalBalances(s: Sys, a: Action)
    requires Balanced(s) && Enabled(s, a) && Local(a)
    ensures Balanced(Next(s, a)) && Next(s, a).orders == s.orders
  {
    hide InShard, FailMove, LateInShard;
  }

  lemma BeginBalances(s: Sys, id: int, cancel: bool, now: int)
    requires Balanced(s) && Fates(s) && Enabled(s, Begin(id, cancel, now))
    ensures Balanced(Next(s, Begin(id, cancel, now))) && Next(s, Begin(id, cancel, now)).orders == s.orders
  {
    hide Fates, InShard, FailMove, LateInShard;
    if !cancel {
      NotPending(s, id);
      SetSize(s.table, id, now);
    }
  }

  lemma WriteFailsBalances(s: Sys)
    requires Balanced(s) && Enabled(s, WriteFails)
    ensures Balanced(Next(s, WriteFails)) && Next(s, WriteFails).orders == s.orders
  {
    hide InShard, FailMove, LateInShard;
    if s.sender.id in s.table {
      DropSize(s.table, {s.sender.id});
    } else {
      assert s.table - {s.sender.id} == s.table;
    }
  }

  lemma ReportBalances(s: Sys, id: int)
    requires Balanced(s) && Enabled(s, Report(id))
    ensures Balanced(Next(s, Report(id))) && Next(s, Report(id)).orders == s.orders
  {
    hide InShard, FailMove, LateInShard;
    if id in s.table { DropSize(s.table, {id}); }
  }

  lemma ExpireBalances(s: Sys)
    requires Balanced(s) && Enabled(s, ExpireNext)
    ensures Balanced(Next(s, ExpireNext)) && Next(s, ExpireNext).orders == s.orders
  {
    hide InShard, FailMove, LateInShard, ExpireMove, Balanced;
    var t := Next(s, ExpireNext);
    assert t == ExpireMove(s, s.control.k, s.control.n, s.control.deadline) && s.control.Expiring?;
    hide Next, Enabled;
    ExpireBalance(s, s.control.k, s.control.n, s.control.deadline);
    BalanceMoved(s, t);
  }

  lemma BalanceMoved(s: Sys, t: Sys)
    requires Balanced(s) && t.orders == s.orders && t.i == s.i && t.sender == s.sender && t.receiver == s.receiver
    requires t.sent == s.sent && t.failed == s.failed && t.cancels == s.cancels
    requires t.cleared == s.cleared && t.scanned == s.scanned && t.drift == s.drift
    requires |t.table| + ControlHolds(t.control) == |s.table| + ControlHolds(s.control)
    ensures Balanced(t)
  {
  }

  lemma ExpireBalance(s: Sys, k: nat, n: nat, deadline: int)
    ensures var t := ExpireMove(s, k, n, deadline);
            && t.sent == s.sent && t.failed == s.failed && t.cancels == s.cancels && t.orders == s.orders && t.i == s.i
            && t.drift == s.drift && t.scanned == s.scanned && t.cleared == s.cleared
            && t.sender == s.sender && t.receiver == s.receiver
            && |t.table| + ControlHolds(t.control) == |s.table| + n
  {
    hide LateInShard;
    LateSize(s.table, k, deadline);
    if k < SHARDS {
      assert ExpireMove(s, k, n, deadline).control
          == Expiring(k + 1, n + |LateInShard(s.table, k, deadline)|, deadline);
    } else {
      assert ExpireMove(s, k, n, deadline) == s.(control := Reporting(n));
    }
  }

  lemma ReceiverStepBalances(s: Sys)
    requires Balanced(s) && Enabled(s, ReceiverStep)
    ensures Balanced(Next(s, ReceiverStep)) && Next(s, ReceiverStep).orders == s.orders
  {
    hide InShard, FailMove, LateInShard;
    FailBalance(s, s.receiver.f);
  }

  lemma ControlStepBalances(s: Sys)
    requires Balanced(s) && Enabled(s, ControlStep)
    ensures Balanced(Next(s, ControlStep)) && Next(s, ControlStep).orders == s.orders
  {
    hide InShard, FailMove, LateInShard;
    FailBalance(s, s.control.f);
  }

  lemma FailBalance(s: Sys, f: FailAll)
    ensures var (g, t) := FailMove(s, f);
            && t.sent == s.sent && t.cancels == s.cancels && t.orders == s.orders && t.i == s.i && t.drift == s.drift
            && t.sender == s.sender && t.receiver == s.receiver && t.control == s.control
            && t.failed + |t.table| + g.n + t.cleared - t.scanned == s.failed + |s.table| + f.n + s.cleared - s.scanned
  {
    if f.Clearing? && f.k < SHARDS {
      ShardKeys(s.table, f.k);
      hide InShard;
      DropSize(s.table, InShard(s.table, f.k));
    }
  }

  lemma ShardKeys(m: map<int, int>, k: nat)
    ensures InShard(m, k) <= m.Keys
  {
  }

  lemma LateSize(m: map<int, int>, k: nat, deadline: int)
    ensures |m - LateInShard(m, k, deadline)| == |m| - |LateInShard(m, k, deadline)|
  {
    DropSize(m, LateInShard(m, k, deadline));
  }

  // ---------------------------------------------------------------- every order has one fate

  /** An order that was ever pending is still pending, was taken by one report, expired once,
      or was dropped by an error path: exactly one of the four. */
  predicate Fates(s: Sys) {
    && s.issued == s.table.Keys + s.acked + s.expired + s.dropped
    && s.table.Keys !! s.acked !! s.expired !! s.dropped
  }

  lemma NotPending(s: Sys, id: int)
    requires Fates(s) && id !in s.issued
    ensures id !in s.table
  {
  }

  /** Taking ids out of the table and filing them under one other heading keeps the fates apart. */
  lemma MoveFates(s: Sys, t: Sys, gone: set<int>)
    requires Fates(s) && gone <= s.table.Keys && t.table == s.table - gone && t.issued == s.issued
    requires || (t.acked == s.acked + gone && t.expired == s.expired && t.dropped == s.dropped)
             || (t.acked == s.acked && t.expired == s.expired + gone && t.dropped == s.dropped)
             || (t.acked == s.acked && t.expired == s.expired && t.dropped == s.dropped + gone)
    ensures Fates(t)
  {
    assert t.table.Keys == s.table.Keys - gone;
  }

  lemma FatesStep(s: Sys, a: Action)
    requires Fates(s) && Enabled(s, a)
    ensures Fates(Next(s, a))
  {
    var t := Next(s, a);
    match a
    case Begin(id, cancel, now) =>
      if !cancel { assert t.table.Keys == s.table.Keys + {id}; }
    case WriteFails =>
      if s.sender.id in s.table { MoveFates(s, t, {s.sender.id}); } else { assert t.table == s.table; }
    case Report(id) => if id in s.table { MoveFates(s, t, {id}); }
    case ExpireNext =>
      if s.control.k < SHARDS { MoveFates(s, t, LateInShard(s.table, s.control.k, s.control.deadline)); }
    case ReceiverStep => FailFates(s, s.receiver.f);
    case ControlStep => FailFates(s, s.control.f);
    case _ =>
  }

  lemma FailFates(s: Sys, f: FailAll)
    requires Fates(s)
    ensures Fates(FailMove(s, f).1)
  {
    var t := FailMove(s, f).1;
    if f.Clearing? && f.k < SHARDS { MoveFates(s, t, InShard(s.table, f.k)); }
  }

  lemma {:induction false} Always(orders: nat, run: seq<Action>)
    requires Legal(orders, run)
    ensures Balanced(Exec(orders, run)) && Fates(Exec(orders, run)) && Exec(orders, run).orders == orders
  {
    hide Next, Enabled, Balanced, Fates;
    if run == [] {
      StartBalanced(orders);
    } else {
      var prev, a := run[..|run| - 1], run[|run| - 1];
      Always(orders, prev);
      BalancedStep(Exec(orders, prev), a);
      FatesStep(Exec(orders, prev), a);
    }
  }

  lemma StartBalanced(orders: nat)
    ensures Balanced(Start(orders)) && Fates(Start(orders))
  {
  }

  /** When all three goroutines are gone, results differ from OrdersToSend by exactly what
      the unlocked paths did: orders counted by the length scan of `failAllPending` but not
      emptied by its clear (or the reverse), an order reported before its own write failed,
      and orders nobody took out of the table. */
  lemma FinalAccount(orders: nat, run: seq<Action>)
    requires Legal(orders, run) && Finished(Exec(orders, run))
    ensures var s := Exec(orders, run);
            s.sent + s.failed + s.cancels == orders + (s.scanned - s.cleared) + s.drift - |s.table|
  {
    Always(orders, run);
    hide Exec, Legal;
  }

  /** Under any interleaving a pending order is handed out at most once, and never by both
      a report and the expiry. */
  lemma HandedOutOnce(orders: nat, run: seq<Action>, id: int)
    requires Legal(orders, run)
    ensures var s := Exec(orders, run);
            && (id in s.issued <==> id in s.table || id in s.acked || id in s.expired || id in s.dropped)
            && !(id in s.acked && id in s.expired) && !(id in s.table && (id in s.acked || id in s.expired))
            && !(id in s.dropped && (id in s.acked || id in s.expired || id in s.table))
  {
    Always(orders, run);
    hide Exec, Legal;
  }

  // ---------------------------------------------------------------- runs that end in order

  /** No cancellation, and no read error before the control goroutine has closed the
      connection. Writes and waits of the sender may fail. */
  predicate OrderlyStep(s: Sys, a: Action) { !a.CancelSeen? && (a.ReadFails? ==> s.closed) }

  predicate Orderly(orders: nat, run: seq<Action>)
    requires Legal(orders, run)
  {
    run == []
    || (Orderly(orders, run[..|run| - 1]) && OrderlyStep(Exec(orders, run[..|run| - 1]), run[|run| - 1]))
  }

  /** What orderly runs keep. Once the sender is gone the table only shrinks, so a scan
      that reads zero in every shard, one after the other, has seen an empty table. */
  predicate Tidy(s: Sys) {
    && s.scanned == 0 && s.cleared == 0
    && !s.control.ControlFails?
    && s.closed == s.control.ControlGone?
    && (s.closed ==> s.sender.SenderGone? && s.table == map[])
    && (s.receiver.ReceiverFails? ==> s.closed && s.receiver.f.n == 0)
    && (s.receiver.ReceiverGone? ==> s.closed)
    && (s.control.Scanning? ==> s.sender.SenderGone? && ScannedEmpty(s.table, s.control.k, s.control.n))
  }

  predicate ScannedEmpty(table: map<int, int>, k: nat, n: nat) {
    n == 0 ==> forall id :: id in table ==> ShardOf(id) >= k
  }

  lemma EmptyShard(m: map<int, int>, k: nat)
    requires |InShard(m, k)| == 0
    ensures forall id :: id in m ==> ShardOf(id) != k
  {
    forall id | id in m ensures ShardOf(id) != k { assert id !in InShard(m, k); }
  }

  lemma NoneInShard(k: nat)
    ensures InShard(map[], k) == {}
  {
  }

  lemma TidyStep(s: Sys, a: Action)
    requires Tidy(s) && Enabled(s, a) && OrderlyStep(s, a)
    ensures Tidy(Next(s, a))
  {
    hide InShard, LateInShard, ShardOf;
    match a
    case ReceiverStep =>
      if !s.receiver.f.Pushing? { NoneInShard(s.receiver.f.k); }
    case ScanNext => if |InShard(s.table, s.control.k)| == 0 { EmptyShard(s.table, s.control.k); }
    case Close => forall id ensures id !in s.table { assert ShardOf(id) < SHARDS; }
    case _ =>
  }

  lemma {:induction false} AlwaysTidy(orders: nat, run: seq<Action>)
    requires Legal(orders, run) && Orderly(orders, run)
    ensures Tidy(Exec(orders, run))
  {
    hide Next, Enabled, Tidy;
    if run == [] {
      StartTidy(orders);
    } else {
      var prev, a := run[..|run| - 1], run[|run| - 1];
      AlwaysTidy(orders, prev);
      TidyStep(Exec(orders, prev), a);
    }
  }

  lemma StartTidy(orders: nat)
    ensures Tidy(Start(orders))
  {
  }

  // ---------------------------------------------------------------- the ignored result of removePending

  /** The sender found in the table what it should have found when its write failed: the
      order itself, or for a cancel, which is never entered, nothing. */
  predicate FoundItsOwn(s: Sys)
    requires s.sender.Writing?
  {
    s.sender.id in s.table <==> !s.sender.cancel
  }

  function WriteDrift(s: Sys): int
    requires s.sender.Writing?
  {
    (if s.sender.cancel then 0 else 1) - (if s.sender.id in s.table then 1 else 0)
  }

  lemma {:induction false} LegalPrefix(orders: nat, run: seq<Action>, p: nat)
    requires Legal(orders, run) && p < |run|
    ensures Legal(orders, run[..p]) && Enabled(Exec(orders, run[..p]), run[p])
    decreases |run|
  {
    hide Exec, Enabled;
    var prev := run[..|run| - 1];
    if p < |prev| {
      LegalPrefix(orders, prev, p);
      assert prev[..p] == run[..p];
    }
  }

  /** The state in which the write at position `p` failed. */
  function WriteFailure(orders: nat, run: seq<Action>, p: nat): (s: Sys)
    requires Legal(orders, run) && p < |run| && run[p].WriteFails?
    ensures s.sender.Writing?
  {
    LegalPrefix(orders, run, p);
    Exec(orders, run[..p])
  }

  lemma DriftStep(s: Sys, a: Action)
    requires Enabled(s, a)
    ensures a.WriteFails? ==>
              s.sender.Writing? && Next(s, a).drift == s.drift + WriteDrift(s) && Next(s, a).sender.Failing?
    ensures !a.WriteFails? ==> Next(s, a).drift == s.drift
    ensures s.sender.Failing? || s.sender.SenderGone? ==>
              !a.WriteFails? && (Next(s, a).sender.Failing? || Next(s, a).sender.SenderGone?)
  {
    hide InShard, LateInShard;
  }

  lemma PrefixFailure(orders: nat, run: seq<Action>, p: nat)
    requires Legal(orders, run) && p < |run| - 1 && run[p].WriteFails?
    ensures run[..|run| - 1][p].WriteFails?
         && WriteFailure(orders, run[..|run| - 1], p) == WriteFailure(orders, run, p)
  {
    hide Exec;
    assert run[..|run| - 1][..p] == run[..p];
  }

  /** A write can fail once in a run, for then the sender never writes again; the drift is
      what that failure found. */
  lemma {:induction false} DriftIsTheFailure(orders: nat, run: seq<Action>)
    requires Legal(orders, run)
    ensures (forall p :: 0 <= p < |run| ==> !run[p].WriteFails?) ==> Exec(orders, run).drift == 0
    ensures forall p: nat :: p < |run| && run[p].WriteFails? ==>
              && Exec(orders, run).drift == WriteDrift(WriteFailure(orders, run, p))
              && (Exec(orders, run).sender.Failing? || Exec(orders, run).sender.SenderGone?)
    ensures forall p, q :: 0 <= p < q < |run| && run[p].WriteFails? ==> !run[q].WriteFails?
    decreases |run|
  {
    hide Enabled, Next, WriteDrift;
    if run != [] {
      var prev, a := run[..|run| - 1], run[|run| - 1];
      DriftIsTheFailure(orders, prev);
      DriftStep(Exec(orders, prev), a);
      hide WriteFailure;
      forall p: nat | p < |run| && run[p].WriteFails?
        ensures Exec(orders, run).drift == WriteDrift(WriteFailure(orders, run, p))
             && (Exec(orders, run).sender.Failing? || Exec(orders, run).sender.SenderGone?)
      {
        if p < |prev| {
          PrefixFailure(orders, run, p);
        } else {
          LastFailure(orders, run);
        }
      }
    }
  }

  lemma LastFailure(orders: nat, run: seq<Action>)
    requires Legal(orders, run) && run != [] && run[|run| - 1].WriteFails?
    ensures WriteFailure(orders, run, |run| - 1) == Exec(orders, run[..|run| - 1])
  {
  }

  /** In every run that ends because the control goroutine closed the connection, waits and
      writes failing or not: acknowledged + failed + cancels written is exactly OrdersToSend
      if and only if a write that failed found its own order, and no more, in the table. */
  lemma OrdersAccountedIff(orders: nat, run: seq<Action>)
    requires Legal(orders, run) && Orderly(orders, run) && Finished(Exec(orders, run))
    ensures var s := Exec(orders, run);
            && s.table == map[] && orders - 1 <= s.sent + s.failed + s.cancels <= orders + 1
            && (s.sent + s.failed + s.cancels == orders
                <==> forall p: nat :: p < |run| && run[p].WriteFails? ==> FoundItsOwn(WriteFailure(orders, run, p)))
  {
    AlwaysTidy(orders, run);
    FinalAccount(orders, run);
    DriftIsTheFailure(orders, run);
    hide Exec, Legal, Orderly, WriteFailure;
  }

  /** So without a write error the account is exact, failed waits included. */
  lemma OrdersAccounted(orders: nat, run: seq<Action>)
    requires Legal(orders, run) && Orderly(orders, run) && Finished(Exec(orders, run))
    requires forall p :: 0 <= p < |run| ==> !run[p].WriteFails?
    ensures var s := Exec(orders, run); s.sent + s.failed + s.cancels == orders && s.table == map[]
  {
    OrdersAccountedIff(orders, run);
  }

  /** Already when the connection is closed the only results missing from the channel are
      the ones the receiver still holds. */
  lemma ClosedAccount(orders: nat, run: seq<Action>)
    requires Legal(orders, run) && Orderly(orders, run) && Exec(orders, run).closed
    requires forall p :: 0 <= p < |run| ==> !run[p].WriteFails?
    ensures var s := Exec(orders, run);
            s.sent + s.failed + s.cancels + (if s.receiver.Holding? then 1 else 0) == orders && s.table == map[]
  {
    AlwaysTidy(orders, run);
    Always(orders, run);
    DriftIsTheFailure(orders, run);
    hide Exec, Legal, Orderly;
  }

  // ---------------------------------------------------------------- runs in which the account is off

  ghost predicate Reaches(orders: nat, run: seq<Action>, s: Sys, orderly: bool) {
    Legal(orders, run) && Exec(orders, run) == s && (orderly ==> Orderly(orders, run))
  }

  lemma Extend(orders: nat, run: seq<Action>, s: Sys, orderly: bool, a: Action)
    requires Reaches(orders, run, s, orderly) && Enabled(s, a) && (orderly ==> OrderlyStep(s, a))
    ensures Reaches(orders, run + [a], Next(s, a), orderly)
  {
    assert (run + [a])[..|run|] == run;
  }

  lemma NothingLate(k: nat, deadline: int)
    ensures LateInShard(map[], k, deadline) == {} && InShard(map[], k) == {}
  {
  }

  /** The expiry pass over an empty table. */
  lemma {:induction false} ExpireEmpty(orders: nat, run: seq<Action>, s: Sys, orderly: bool, k: nat)
    returns (more: seq<Action>)
    requires Reaches(orders, run, s, orderly) && s.control == Expiring(k, 0, 0) && k <= SHARDS && s.table == map[]
    ensures Reaches(orders, more, s.(control := Reporting(0)), orderly)
    decreases SHARDS - k
  {
    hide Reaches, LateInShard, InShard;
    NothingLate(k, 0);
    Extend(orders, run, s, orderly, ExpireNext);
    more := run + [ExpireNext];
    if k < SHARDS {
      assert Next(s, ExpireNext) == s.(control := Expiring(k + 1, 0, 0));
      more := ExpireEmpty(orders, more, s.(control := Expiring(k + 1, 0, 0)), orderly, k + 1);
    }
  }

  /** The length scan over an empty table. */
  lemma {:induction false} ScanEmpty(orders: nat, run: seq<Action>, s: Sys, orderly: bool, k: nat)
    returns (more: seq<Action>)
    requires Reaches(orders, run, s, orderly) && s.control == Scanning(k, 0) && k <= SHARDS && s.table == map[]
    ensures Reaches(orders, more, s.(control := Scanning(SHARDS, 0)), orderly)
    decreases SHARDS - k
  {
    hide Reaches, InShard;
    more := run;
    if k < SHARDS {
      NothingLate(k, 0);
      Extend(orders, run, s, orderly, ScanNext);
      assert Next(s, ScanNext) == s.(control := Scanning(k + 1, 0));
      more := ScanEmpty(orders, run + [ScanNext], s.(control := Scanning(k + 1, 0)), orderly, k + 1);
    }
  }

  /** Once the sender is gone and nothing is pending the control goroutine can close. */
  lemma CloseEmpty(orders: nat, run: seq<Action>, s: Sys, orderly: bool) returns (more: seq<Action>)
    requires Reaches(orders, run, s, orderly) && s.control.Waiting? && s.sender.SenderGone? && s.table == map[]
    ensures Reaches(orders, more, s.(control := ControlGone, closed := true), orderly)
  {
    hide Reaches, InShard, LateInShard;
    Extend(orders, run, s, orderly, Tick(0));
    more := ExpireEmpty(orders, run + [Tick(0)], s.(control := Expiring(0, 0, 0)), orderly, 0);
    Extend(orders, more, s.(control := Reporting(0)), orderly, Check);
    more := ScanEmpty(orders, more + [Check], s.(control := Scanning(0, 0)), orderly, 0);
    Extend(orders, more, s.(control := Scanning(SHARDS, 0)), orderly, Close);
    more := more + [Close];
  }

  /** The receiver counts an empty table. */
  lemma {:induction false} CountEmpty(orders: nat, run: seq<Action>, s: Sys, orderly: bool, k: nat)
    returns (more: seq<Action>)
    requires Reaches(orders, run, s, orderly) && s.receiver == ReceiverFails(Counting(k, 0)) && k <= SHARDS
    requires s.table == map[]
    ensures Reaches(orders, more, s.(receiver := ReceiverFails(Clearing(0, 0))), orderly)
    decreases SHARDS - k
  {
    hide Reaches, InShard;
    NothingLate(k, 0);
    Extend(orders, run, s, orderly, ReceiverStep);
    more := run + [ReceiverStep];
    if k < SHARDS {
      assert Next(s, ReceiverStep) == s.(receiver := ReceiverFails(Counting(k + 1, 0)));
      more := CountEmpty(orders, more, s.(receiver := ReceiverFails(Counting(k + 1, 0))), orderly, k + 1);
    }
  }

  /** The receiver clears an empty table and goes. */
  lemma {:induction false} ClearEmpty(orders: nat, run: seq<Action>, s: Sys, orderly: bool, k: nat)
    returns (more: seq<Action>)
    requires Reaches(orders, run, s, orderly) && s.receiver == ReceiverFails(Clearing(k, 0)) && k <= SHARDS
    requires s.table == map[]
    ensures Reaches(orders, more, s.(receiver := ReceiverGone), orderly)
    decreases SHARDS - k
  {
    hide Reaches, InShard;
    NothingLate(k, 0);
    Extend(orders, run, s, orderly, ReceiverStep);
    more := run + [ReceiverStep];
    if k < SHARDS {
      assert Next(s, ReceiverStep) == s.(receiver := ReceiverFails(Clearing(k + 1, 0)));
      more := ClearEmpty(orders, more, s.(receiver := ReceiverFails(Clearing(k + 1, 0))), orderly, k + 1);
    } else {
      var t := s.(receiver := ReceiverFails(Pushing(0)));
      Extend(orders, more, t, orderly, ReceiverStep);
      more := more + [ReceiverStep];
    }
  }

  /** A run that has nothing left to do can end, with the results it has. */
  lemma EndEmpty(orders: nat, run: seq<Action>, s: Sys) returns (more: seq<Action>)
    requires Reaches(orders, run, s, true) && s.sender.SenderGone? && s.table == map[]
    requires s.receiver.Reading? && s.control.Waiting?
    ensures Reaches(orders, more, s.(receiver := ReceiverGone, control := ControlGone, closed := true), true)
  {
    hide Reaches, InShard;
    more := CloseEmpty(orders, run, s, true);
    var t := s.(control := ControlGone, closed := true);
    Extend(orders, more, t, true, ReadFails);
    more := CountEmpty(orders, more + [ReadFails], t.(receiver := ReceiverFails(Counting(0, 0))), true, 0);
    more := ClearEmpty(orders, more, t.(receiver := ReceiverFails(Clearing(0, 0))), true, 0);
  }

  lemma StartReached(orders: nat)
    ensures Reaches(orders, [], Start(orders), true)
  {
  }

  /** One result too many: the report of an order overtakes the return of its own write, and
      then the write ends in an error. The order is counted as sent and again as failed. */
  lemma LateWriteErrorCountsTwice() returns (run: seq<Action>)
    ensures Legal(1, run) && Orderly(1, run) && Finished(Exec(1, run))
    ensures var s := Exec(1, run); s.sent == 1 && s.failed == 1 && s.cancels == 0
  {
    hide Reaches, FailMove, ExpireMove, InShard, LateInShard, ShardOf, Exec, Legal, Orderly;
    var s := Start(1);
    StartReached(1);
    run := [];
    run, s := Take(1, run, s, true, Begin(7, false, 0));
    run, s := Take(1, run, s, true, Report(7));
    assert s.table == map[];
    run, s := Take(1, run, s, true, Deliver);
    run, s := Take(1, run, s, true, WriteFails);
    run, s := Take(1, run, s, true, PushFailed);
    run, s := Take(1, run, s, true, PushFailed);
    run := EndEmpty(1, run, s);
    Reached(1, run, s.(receiver := ReceiverGone, control := ControlGone, closed := true), true);
  }

  /** One result too few: a cancel whose write fails takes the order it names out of the table,
      and that order's own report then finds nothing. */
  lemma FailedCancelLosesItsTarget() returns (run: seq<Action>)
    ensures Legal(2, run) && Orderly(2, run) && Finished(Exec(2, run))
    ensures var s := Exec(2, run); s.sent == 0 && s.failed == 1 && s.cancels == 0
  {
    hide Reaches, FailMove, ExpireMove, InShard, LateInShard, ShardOf, Exec, Legal, Orderly;
    var s := Start(2);
    StartReached(2);
    run := [];
    run, s := Take(2, run, s, true, Begin(7, false, 0));
    run, s := Take(2, run, s, true, Written);
    run, s := Take(2, run, s, true, Begin(7, true, 0));
    run, s := Take(2, run, s, true, WriteFails);
    assert s.table == map[];
    run, s := Take(2, run, s, true, Report(7));
    run, s := Take(2, run, s, true, PushFailed);
    run, s := Take(2, run, s, true, PushFailed);
    run := EndEmpty(2, run, s);
    Reached(2, run, s.(receiver := ReceiverGone, control := ControlGone, closed := true), true);
  }

  /** No result at all: when the receiver loses its connection it counts the pending orders and
      then empties the table, and an order entered in between is emptied and not counted. */
  lemma CountAndClearDisagree() returns (run: seq<Action>)
    ensures Legal(1, run) && Finished(Exec(1, run))
    ensures var s := Exec(1, run);
            s.sent + s.failed + s.cancels == 0 && s.scanned == 0 && s.cleared == 1 && s.table == map[]
  {
    hide Reaches, FailMove, ExpireMove, InShard, LateInShard, ShardOf, Exec, Legal, Orderly;
    var s := Start(1);
    StartReached(1);
    run := [];
    run, s := Take(1, run, s, false, ReadFails);
    run := CountEmpty(1, run, s, false, 0);
    s := s.(receiver := ReceiverFails(Clearing(0, 0)));
    run, s := Take(1, run, s, false, Begin(0, false, 0));
    FirstShard(s.table);
    FirstCleared(s);
    run, s := Take(1, run, s, false, ReceiverStep);
    run := ClearEmpty(1, run, s, false, 1);
    s := s.(receiver := ReceiverGone);
    run, s := Take(1, run, s, false, Written);
    run, s := Take(1, run, s, false, SenderExits);
    run := CloseEmpty(1, run, s, false);
    Reached(1, run, s.(control := ControlGone, closed := true), false);
  }

  lemma Reached(orders: nat, run: seq<Action>, s: Sys, orderly: bool)
    requires Reaches(orders, run, s, orderly)
    ensures Legal(orders, run) && Exec(orders, run) == s && (orderly ==> Orderly(orders, run))
  {
  }

  /** The order in the first shard is emptied. */
  lemma FirstCleared(s: Sys)
    requires s.receiver == ReceiverFails(Clearing(0, 0)) && s.table == map[0 := 0] && InShard(s.table, 0) == {0}
    ensures Next(s, ReceiverStep)
         == s.(receiver := ReceiverFails(Clearing(1, 0)), table := map[], cleared := s.cleared + 1,
               dropped := s.dropped + {0})
  {
    hide InShard;
    assert s.table - {0} == map[];
  }

  lemma FirstShard(table: map<int, int>)
    requires table == map[0 := 0]
    ensures InShard(table, 0) == {0}
  {
  }

  lemma Take(orders: nat, run: seq<Action>, s: Sys, orderly: bool, a: Action) returns (more: seq<Action>, t: Sys)
    requires Reaches(orders, run, s, orderly) && Enabled(s, a) && (orderly ==> OrderlyStep(s, a))
    ensures more == run + [a] && t == Next(s, a) && Reaches(orders, more, t, orderly)
  {
    Extend(orders, run, s, orderly, a);
    more, t := run + [a], Next(s, a);
  }
}
