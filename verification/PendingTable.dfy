/** The table of orders a bot has sent and not yet heard about: sixteen maps, each under
    its own lock, that together are one map from order id to send time. */
module PendingTable {
  import opened Orders
  import opened Ranging

  const SHARDS: nat := 16

  /** An int64 order id is read as a uint64 before the modulus is taken. */
  function ShardOf(id: int): (k: nat)
    ensures k < SHARDS
  {
    (id % TWO_TO_64) % SHARDS
  }

  type Shards = seq<map<int, int>>

  /** Every id sits in the shard its number chooses. */
  ghost predicate Placed(shards: Shards) {
    forall k, id :: 0 <= k < |shards| && id in shards[k] ==> ShardOf(id) == k
  }

  /** The one map the shards make up. */
  function Merge(shards: Shards): map<int, int> {
    if shards == [] then map[] else Merge(shards[..|shards| - 1]) + shards[|shards| - 1]
  }

  function Sizes(shards: Shards): nat {
    if shards == [] then 0 else Sizes(shards[..|shards| - 1]) + |shards[|shards| - 1]|
  }

  /** An order is in the table exactly if its own shard holds it. */
  lemma {:induction false} MergeAt(shards: Shards, id: int)
    requires Placed(shards)
    ensures id in Merge(shards) <==> ShardOf(id) < |shards| && id in shards[ShardOf(id)]
    ensures id in Merge(shards) ==> Merge(shards)[id] == shards[ShardOf(id)][id]
  {
    if shards != [] {
      var init := shards[..|shards| - 1];
      assert forall k :: 0 <= k < |init| ==> init[k] == shards[k];
      MergeAt(init, id);
    }
  }

  lemma MergeIs(shards: Shards, m: map<int, int>)
    requires Placed(shards)
    requires forall id :: id in m <==> ShardOf(id) < |shards| && id in shards[ShardOf(id)]
    requires forall id :: id in m ==> m[id] == shards[ShardOf(id)][id]
    ensures Merge(shards) == m
  {
    forall id ensures id in Merge(shards) <==> id in m
              ensures id in m ==> Merge(shards)[id] == m[id]
    {
      MergeAt(shards, id);
    }
  }

  lemma DisjointSize(a: map<int, int>, b: map<int, int>)
    requires a.Keys !! b.Keys
    ensures |a + b| == |a| + |b|
  {
    assert (a + b).Keys == a.Keys + b.Keys;
    assert |(a + b).Keys| == |a + b| && |a.Keys| == |a| && |b.Keys| == |b|;
  }

  /** The sum the length loop computes counts every order once. */
  lemma {:induction false} SizesIsSize(shards: Shards)
    requires Placed(shards)
    ensures Sizes(shards) == |Merge(shards)|
  {
    if shards != [] {
      var init, last := shards[..|shards| - 1], shards[|shards| - 1];
      assert forall k :: 0 <= k < |init| ==> init[k] == shards[k];
      SizesIsSize(init);
      forall id | id in Merge(init) ensures id !in last { MergeAt(init, id); }
      DisjointSize(Merge(init), last);
    }
  }

  lemma EmptyShards(shards: Shards)
    requires forall k :: 0 <= k < |shards| ==> shards[k] == map[]
    ensures Placed(shards) && Merge(shards) == map[]
  {
    MergeIs(shards, map[]);
  }

  lemma SetMerges(shards: Shards, id: int, sendTime: int)
    requires Placed(shards) && |shards| == SHARDS
    ensures var k := ShardOf(id); var after := shards[k := shards[k][id := sendTime]];
            Placed(after) && Merge(after) == Merge(shards)[id := sendTime]
  {
    var k := ShardOf(id);
    var after := shards[k := shards[k][id := sendTime]];
    forall x { MergeAt(shards, x); }
    MergeIs(after, Merge(shards)[id := sendTime]);
  }

  /** Dropping any set of ids from one shard drops those of them that belong there. */
  lemma DropMerges(shards: Shards, k: nat, gone: set<int>)
    requires Placed(shards) && k < |shards| && forall id :: id in gone ==> ShardOf(id) == k
    ensures var after := shards[k := shards[k] - gone];
            Placed(after) && Merge(after) == Merge(shards) - gone
  {
    var after := shards[k := shards[k] - gone];
    forall x { MergeAt(shards, x); }
    MergeIs(after, Merge(shards) - gone);
  }

  class Table {
    const shards: array<map<int, int>>

    ghost predicate Valid() reads shards {
      shards.Length == SHARDS && Placed(shards[..])
    }

    ghost function Contents(): map<int, int>
      reads shards
      requires Valid()
    {
      Merge(shards[..])
    }

    constructor ()
      ensures Valid() && fresh(shards) && Contents() == map[]
    {
      shards := new map<int, int>[SHARDS](_ => map[]);
      new;
      EmptyShards(shards[..]);
    }

    method Set(orderId: int, sendTime: int)
      requires Valid()
      modifies shards
      ensures Valid() && Contents() == old(Contents())[orderId := sendTime]
    {
      var k := ShardOf(orderId);
      SetMerges(shards[..], orderId, sendTime);
      ghost var after := shards[..][k := shards[k][orderId := sendTime]];
      shards[k] := shards[k][orderId := sendTime];
      assert shards[..] == after;
    }

    method Remove(orderId: int) returns (sendTime: int, ok: bool)
      requires Valid()
      modifies shards
      ensures Valid() && Contents() == old(Contents()) - {orderId}
      ensures ok == (orderId in old(Contents()))
      ensures ok ==> sendTime == old(Contents())[orderId]
    {
      var k := ShardOf(orderId);
      MergeAt(shards[..], orderId);
      DropMerges(shards[..], k, {orderId});
      ghost var after := shards[..][k := shards[k] - {orderId}];
      ok := orderId in shards[k];
      sendTime := if ok then shards[k][orderId] else 0;
      if ok {
        shards[k] := shards[k] - {orderId};
      } else {
        assert shards[k] - {orderId} == shards[k];
      }
      assert shards[..] == after;
    }

    method Len() returns (n: nat)
      requires Valid()
      ensures n == |Contents()|
    {
      n := 0;
      for i := 0 to SHARDS
        invariant n == Sizes(shards[..i])
      {
        assert shards[..i + 1][..i] == shards[..i];
        n := n + |shards[i]|;
      }
      assert shards[..SHARDS] == shards[..];
      SizesIsSize(shards[..]);
    }

    method Clear()
      requires Valid()
      modifies shards
      ensures Valid() && Contents() == map[]
    {
      for i := 0 to SHARDS
        invariant forall j :: 0 <= j < i ==> shards[j] == map[]
      {
        shards[i] := map[];
      }
      EmptyShards(shards[..]);
    }

    /** Each expired order is handed out once and is gone from the table; the others stay. */
    method GetExpiredAndRemove(deadline: int) returns (expired: seq<int>)
      requires Valid()
      modifies shards
      ensures Valid() && Contents() == old(Contents()) - Late(old(Contents()), deadline)
      ensures Distinct(expired) && forall id :: id in expired <==> id in Late(old(Contents()), deadline)
    {
      hide Placed, Merge, ShardOf;
      expired := [];
      ghost var gone: set<int> := {};
      for i := 0 to SHARDS
        invariant Valid() && Contents() == old(Contents()) - gone
        invariant gone == LateBefore(old(Contents()), deadline, i)
        invariant Distinct(expired) && forall id :: id in expired <==> id in gone
      {
        var late, left := SplitShard(shards[i], deadline);
        ghost var now := Late(shards[i], deadline);
        ShardLate(shards[..], old(Contents()), i, deadline);
        DropMerges(shards[..], i, now);
        ghost var after := shards[..][i := shards[i] - now];
        shards[i] := left;
        assert shards[..] == after;
        JoinDistinct(expired, late);
        expired := expired + late;
        assert old(Contents()) - gone - now == old(Contents()) - (gone + now);
        gone := gone + now;
      }
      AllShards(old(Contents()), deadline);
    }
  }

  // ---------------------------------------------------------------- expiry

  function Late(m: map<int, int>, deadline: int): set<int> { set id | id in m && m[id] <= deadline }

  ghost function LateBefore(m: map<int, int>, deadline: int, i: nat): set<int> {
    set id | id in m && m[id] <= deadline && ShardOf(id) < i
  }

  predicate Distinct(ids: seq<int>) { forall i, j :: 0 <= i < j < |ids| ==> ids[i] != ids[j] }

  lemma JoinDistinct(a: seq<int>, b: seq<int>)
    requires Distinct(a) && Distinct(b) && forall id :: id in a ==> id !in b
    ensures Distinct(a + b)
  {
    var c := a + b;
    forall i, j | 0 <= i < j < |c| ensures c[i] != c[j] {
      if i < |a| <= j { assert a[i] in a && b[j - |a|] in b; }
    }
  }

  lemma ShardLate(shards: Shards, m: map<int, int>, i: nat, deadline: int)
    requires Placed(shards) && |shards| == SHARDS && i < SHARDS
    requires Merge(shards) == m - LateBefore(m, deadline, i)
    ensures LateBefore(m, deadline, i + 1) == LateBefore(m, deadline, i) + Late(shards[i], deadline)
    ensures LateBefore(m, deadline, i) !! Late(shards[i], deadline)
    ensures forall id :: id in Late(shards[i], deadline) ==> ShardOf(id) == i
  {
    forall id { MergeAt(shards, id); }
    hide Merge;
    forall id
      ensures id in LateBefore(m, deadline, i + 1)
              <==> id in LateBefore(m, deadline, i) || id in Late(shards[i], deadline)
    {
      assert ShardOf(id) == i ==> id !in LateBefore(m, deadline, i);
    }
  }

  lemma AllShards(m: map<int, int>, deadline: int)
    ensures LateBefore(m, deadline, SHARDS) == Late(m, deadline)
  {
  }

  /** One shard's pass: the orders sent at or before the deadline, and the map without them. */
  method SplitShard(shard: map<int, int>, deadline: int) returns (expired: seq<int>, left: map<int, int>)
    ensures left == shard - Late(shard, deadline)
    ensures Distinct(expired) && forall id :: id in expired <==> id in Late(shard, deadline)
  {
    expired, left := [], shard;
    var keys := shard.Keys;
    while keys != {}
      invariant keys <= shard.Keys
      invariant Distinct(expired) && forall id :: id in expired <==> id in Late(shard, deadline) && id !in keys
      invariant left == shard - (Late(shard, deadline) - keys)
      decreases keys
    {
      hide Distinct, Late;
      var id := PickOne(keys);
      SplitTurn(shard, deadline, keys, expired, id);
      WithoutBoth(shard, Late(shard, deadline) - keys, id);
      keys := keys - {id};
      if shard[id] <= deadline {
        expired := expired + [id];
        left := left - {id};
      }
    }
  }

  lemma WithoutBoth(m: map<int, int>, gone: set<int>, id: int)
    ensures (m - gone) - {id} == m - (gone + {id}) && m - (gone + {}) == m - gone
  {
    assert gone + {} == gone;
  }

  lemma SplitTurn(shard: map<int, int>, deadline: int, keys: set<int>, expired: seq<int>, id: int)
    requires id in keys && keys <= shard.Keys && Distinct(expired)
    requires forall x :: x in expired <==> x in Late(shard, deadline) && x !in keys
    ensures var more := if shard[id] <= deadline then expired + [id] else expired;
            Distinct(more) && forall x :: x in more <==> x in Late(shard, deadline) && x !in keys - {id}
    ensures Late(shard, deadline) - (keys - {id})
         == (Late(shard, deadline) - keys) + if shard[id] <= deadline then {id} else {}
  {
    hide Distinct;
    if shard[id] <= deadline { JoinDistinct(expired, [id]); }
  }
}
