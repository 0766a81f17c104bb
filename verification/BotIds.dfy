/** Who gets which bot number, and how a bot number and a sequence number make an order id. */
module BotIds {
  import opened Orders
  import opened Varint

  const LOW: nat := 0x1_0000_0000          // 2 to the 32
  const HALF: int := 0x8000_0000           // 2 to the 31

  /** A bot number as the upper 32 bits of an int64 hold it. */
  function Wrap32(bot: int): (w: int)
    ensures -HALF <= w < HALF
  {
    (bot + HALF) % LOW - HALF
  }

  /** An order id: the bot number above, the sequence number in the low 32 bits. */
  function Pack(bot: I64, seqNum: I64): I64 { Wrap32(bot) * LOW + seqNum % LOW }

  /** The low half of an id, where send times are kept. */
  function SeqOf(id: I64): nat { ToUnsigned(id) % LOW }

  lemma Pow2Of32()
    ensures Pow2(32) == LOW
  {
    hide Pow2;
    Pow2Of16();
    Pow2Add(16, 16);
  }

  lemma {:induction false} OrSwaps(a: nat, b: nat)
    ensures Or(a, b) == Or(b, a)
  {
    if a != 0 || b != 0 { OrSwaps(a / 2, b / 2); }
  }

  lemma OrOfHalves(high: U64, low: nat)
    requires high % LOW == 0 && low < LOW
    ensures Or(high, low) == high + low < TWO_TO_64
  {
    hide Pow2, Or;
    Pow2Of32();
    WholeMultiple(high);
    OrIsSum(low, high / LOW, 32);
    OrSwaps(low, high);
  }

  lemma WholeMultiple(high: U64)
    requires high % LOW == 0
    ensures high / LOW * LOW == high <= TWO_TO_64 - LOW
  {
  }

  lemma ShiftedBot(bot: I64)
    ensures Shl(ToUnsigned(bot), 32) == (bot % LOW) * LOW
  {
    Pow2Of32();
    hide Pow2;
    var u := ToUnsigned(bot);
    assert u % LOW == bot % LOW;
    assert u == (u / LOW) * LOW + u % LOW;
    assert u * LOW == (u / LOW) * TWO_TO_64 + (u % LOW) * LOW;
  }

  lemma SignedHalves(r: nat, low: nat)
    requires r < LOW && low < LOW
    ensures r * LOW + low < TWO_TO_64
    ensures ToSigned(r * LOW + low) == (if r < HALF then r else r - LOW) * LOW + low
  {
  }

  lemma WrapIs(bot: int)
    ensures Wrap32(bot) == if bot % LOW < HALF then bot % LOW else bot % LOW - LOW
  {
    assert bot == (bot / LOW) * LOW + bot % LOW;
  }

  /** `(bot << 32) | (seq & 0xFFFFFFFF)` on int64 is that id. */
  lemma PackIsShiftAndOr(bot: I64, seqNum: I64)
    ensures ToSigned(Or(Shl(ToUnsigned(bot), 32), seqNum % LOW) % TWO_TO_64) == Pack(bot, seqNum)
  {
    hide Or, Shl, Wrap32, ToSigned, ToUnsigned;
    var r, low := bot % LOW, seqNum % LOW;
    ShiftedBot(bot);
    WrapIs(bot);
    HalvesJoin(r, low);
  }

  lemma HalvesJoin(r: nat, low: nat)
    requires r < LOW && low < LOW
    ensures r * LOW + low < TWO_TO_64 && Or(r * LOW, low) % TWO_TO_64 == r * LOW + low
    ensures ToSigned(r * LOW + low) == (if r < HALF then r else r - LOW) * LOW + low
  {
    hide Or;
    SignedHalves(r, low);
    Halves(r, 0);
    OrOfHalves(r * LOW, low);
    SmallModulus(r * LOW + low);
  }

  lemma Halves(high: int, low: nat)
    requires low < LOW
    ensures (high * LOW + low) / LOW == high && (high * LOW + low) % LOW == low
  {
  }

  /** Shifting an id back gives the bot number exactly for bot numbers that fit 32 bits; the
      low half always gives the sequence number modulo 2 to the 32. */
  lemma PackDecodes(bot: I64, seqNum: I64)
    ensures BotId(Pack(bot, seqNum)) == bot <==> -HALF <= bot < HALF
    ensures SeqOf(Pack(bot, seqNum)) == seqNum % LOW
  {
    Halves(Wrap32(bot), seqNum % LOW);
    WrapRange(bot);
    hide Wrap32;
    LowOf(Pack(bot, seqNum));
  }

  lemma WrapRange(bot: int)
    ensures Wrap32(bot) == bot <==> -HALF <= bot < HALF
  {
    WrapIs(bot);
  }

  lemma LowOf(id: I64)
    ensures SeqOf(id) == id % LOW
  {
  }

  /** Different bots, or different orders of one bot, never share an id. */
  lemma PackInjective(bot: I64, seqNum: I64, other: I64, otherSeq: I64)
    requires -HALF <= bot < HALF && -HALF <= other < HALF && 0 <= seqNum < LOW && 0 <= otherSeq < LOW
    requires Pack(bot, seqNum) == Pack(other, otherSeq)
    ensures bot == other && seqNum == otherSeq
  {
    hide Pack, SeqOf;
    PackDecodes(bot, seqNum);
    PackDecodes(other, otherSeq);
  }

  // ---------------------------------------------------------------- sharding

  datatype Shard = Shard(offset: nat, numBots: nat)

  function ShardOfWorker(numBots: nat, numWorkers: nat, worker: nat): Shard
    requires worker < numWorkers
  {
    var each := numBots / numWorkers;
    Shard(worker * each, each + if worker == numWorkers - 1 then numBots % numWorkers else 0)
  }

  /** The even split: every worker the same number of bots, the last one also the remainder. */
  method SplitBots(numBots: nat, numWorkers: nat) returns (shards: Option<seq<Shard>>)
    ensures shards.None? <==> numWorkers == 0
    ensures shards.Some? ==>
              && |shards.value| == numWorkers
              && forall k :: 0 <= k < numWorkers ==> shards.value[k] == ShardOfWorker(numBots, numWorkers, k)
  {
    if numWorkers == 0 { return None; }
    var botsPerWorker, remainder := numBots / numWorkers, numBots % numWorkers;
    var requests: seq<Shard> := [];
    for i := 0 to numWorkers
      invariant |requests| == i
      invariant forall k :: 0 <= k < i ==> requests[k] == ShardOfWorker(numBots, numWorkers, k)
    {
      var shardSize := botsPerWorker;
      if i == numWorkers - 1 { shardSize := shardSize + remainder; }
      requests := requests + [Shard(i * botsPerWorker, shardSize)];
    }
    return Some(requests);
  }

  datatype Strategy = MarketMaker | MomentumTrader | NoiseTrader | OtherStrategy

  datatype BotConfig = BotConfig(numericId: int, strategy: Strategy, seed: int)

  /** The bots of one shard: numbers from the offset on, one strategy per range, distinct seeds. */
  method BuildShardBots(req: Shard, numMakers: int, numMomentum: int, baseSeed: int) returns (bots: array<BotConfig>)
    ensures fresh(bots) && bots.Length == req.numBots
    ensures forall i :: 0 <= i < req.numBots ==>
              && bots[i].numericId == req.offset + i + 1 && bots[i].seed == baseSeed + req.offset + i
              && bots[i].strategy == if i < numMakers then MarketMaker
                                     else if i < numMakers + numMomentum then MomentumTrader else NoiseTrader
  {
    bots := new BotConfig[req.numBots](_ => BotConfig(0, OtherStrategy, 0));
    for i := 0 to req.numBots
      invariant forall j :: 0 <= j < i ==>
                  && bots[j].numericId == req.offset + j + 1 && bots[j].seed == baseSeed + req.offset + j
                  && bots[j].strategy == if j < numMakers then MarketMaker
                                         else if j < numMakers + numMomentum then MomentumTrader else NoiseTrader
    {
      var strategy;
      if i < numMakers {
        strategy := MarketMaker;
      } else if i < numMakers + numMomentum {
        strategy := MomentumTrader;
      } else {
        strategy := NoiseTrader;
      }
      bots[i] := BotConfig(req.offset + (i + 1), strategy, baseSeed + req.offset + i);
    }
  }

  /** Bot `i` of worker `worker` carries number `id`. */
  predicate Assigned(numBots: nat, numWorkers: nat, worker: nat, i: nat, id: int) {
    && worker < numWorkers
    && var shard := ShardOfWorker(numBots, numWorkers, worker);
       i < shard.numBots && id == shard.offset + i + 1
  }

  /** Each shard ends where the next one begins, and the last one at the number of bots. */
  lemma ShardEnd(numBots: nat, numWorkers: nat, worker: nat)
    requires worker < numWorkers
    ensures var shard := ShardOfWorker(numBots, numWorkers, worker);
            shard.offset + shard.numBots
            == if worker == numWorkers - 1 then numBots else ShardOfWorker(numBots, numWorkers, worker + 1).offset
  {
    var each := numBots / numWorkers;
    assert worker * each + each == (worker + 1) * each;
    assert numBots == numWorkers * each + numBots % numWorkers;
  }

  lemma {:induction false} OffsetsGrow(numBots: nat, numWorkers: nat, worker: nat, later: nat)
    requires worker < later < numWorkers
    ensures var shard := ShardOfWorker(numBots, numWorkers, worker);
            shard.offset + shard.numBots <= ShardOfWorker(numBots, numWorkers, later).offset
    decreases later - worker
  {
    hide ShardOfWorker;
    ShardEnd(numBots, numWorkers, worker);
    if worker + 1 < later { OffsetsGrow(numBots, numWorkers, worker + 1, later); }
  }

  lemma FirstOffset(numBots: nat, numWorkers: nat)
    requires numWorkers > 0
    ensures ShardOfWorker(numBots, numWorkers, 0).offset == 0
  {
  }

  /** The worker whose shard reaches up to a number, searching from the first. */
  lemma {:induction false} FindWorker(numBots: nat, numWorkers: nat, worker: nat, id: int) returns (w: nat, i: nat)
    requires worker < numWorkers && ShardOfWorker(numBots, numWorkers, worker).offset < id <= numBots
    ensures Assigned(numBots, numWorkers, w, i, id)
    decreases numWorkers - worker
  {
    var shard := ShardOfWorker(numBots, numWorkers, worker);
    ShardEnd(numBots, numWorkers, worker);
    hide ShardOfWorker;
    if id <= shard.offset + shard.numBots {
      w, i := worker, id - shard.offset - 1;
    } else {
      w, i := FindWorker(numBots, numWorkers, worker + 1, id);
    }
  }

  /** Over all workers, the numbers 1..NumBots are given out, each to exactly one bot. */
  lemma EveryBotOnce(numBots: nat, numWorkers: nat, id: int)
    requires numWorkers > 0
    ensures 1 <= id <= numBots <==> exists w: nat, i: nat :: Assigned(numBots, numWorkers, w, i, id)
    ensures forall w: nat, i: nat, v: nat, j: nat ::
              Assigned(numBots, numWorkers, w, i, id) && Assigned(numBots, numWorkers, v, j, id) ==> w == v && i == j
  {
    FirstOffset(numBots, numWorkers);
    hide ShardOfWorker;
    if 1 <= id <= numBots {
      var w, i := FindWorker(numBots, numWorkers, 0, id);
    }
    forall w: nat, i: nat | Assigned(numBots, numWorkers, w, i, id) ensures 1 <= id <= numBots {
      ShardEnd(numBots, numWorkers, w);
      if w < numWorkers - 1 {
        OffsetsGrow(numBots, numWorkers, w, numWorkers - 1);
        ShardEnd(numBots, numWorkers, numWorkers - 1);
      }
    }
    forall w: nat, i: nat, v: nat, j: nat
      | Assigned(numBots, numWorkers, w, i, id) && Assigned(numBots, numWorkers, v, j, id)
      ensures w == v && i == j
    {
      if w < v { OffsetsGrow(numBots, numWorkers, w, v); }
      if v < w { OffsetsGrow(numBots, numWorkers, v, w); }
    }
  }
}
