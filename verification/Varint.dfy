/** Base-128 varints and the field-by-field wire format of orders and execution reports. */
module Varint {
  import opened Orders

  const TWO_TO_63: nat := 0x8000_0000_0000_0000

  type Byte = b: int | 0 <= b < 256
  type U64 = n: int | 0 <= n < 0x1_0000_0000_0000_0000
  type I64 = n: int | -0x8000_0000_0000_0000 <= n < 0x8000_0000_0000_0000

  function Pow2(k: nat): (p: nat)
    ensures p >= 1
  {
    if k == 0 then 1 else 2 * Pow2(k - 1)
  }

  /** A uint64 shifted left: bits that leave the word are lost. */
  function Shl(x: nat, shift: nat): U64 { x * Pow2(shift) % TWO_TO_64 }

  /** Bitwise or. */
  function Or(a: nat, b: nat): nat {
    if a == 0 && b == 0 then 0
    else 2 * Or(a / 2, b / 2) + if a % 2 == 1 || b % 2 == 1 then 1 else 0
  }

  /** Or of numbers whose bits do not meet is their sum. */
  lemma {:induction false} OrIsSum(a: nat, x: nat, k: nat)
    requires a < Pow2(k)
    ensures Or(a, x * Pow2(k)) == a + x * Pow2(k)
  {
    if k == 0 {
      OrZero(x);
    } else {
      var b, half := x * Pow2(k), x * Pow2(k - 1);
      assert b == 2 * half;
      OrIsSum(a / 2, x, k - 1);
      if a == 0 && b == 0 { } else { assert Or(a, b) == 2 * Or(a / 2, half) + a % 2; }
    }
  }

  lemma {:induction false} OrZero(x: nat)
    ensures Or(0, x) == x
  {
    if x != 0 { OrZero(x / 2); }
  }

  lemma {:induction false} OrBound(a: nat, b: nat, k: nat)
    requires a < Pow2(k) && b < Pow2(k)
    ensures Or(a, b) < Pow2(k)
  {
    if k > 0 && (a != 0 || b != 0) { OrBound(a / 2, b / 2, k - 1); }
  }

  lemma Pow2Of64()
    ensures Pow2(64) == TWO_TO_64
  {
    hide Pow2;
    Pow2Of16();
    Pow2Add(16, 16);
    Pow2Add(32, 32);
  }

  lemma Pow2Of16()
    ensures Pow2(16) == 0x1_0000
  {
    Pow2Of4();
    hide Pow2;
    Pow2Add(4, 4);
    Pow2Add(8, 8);
  }

  lemma Pow2Of4()
    ensures Pow2(4) == 16
  {
  }

  lemma {:induction false} Pow2Add(a: nat, b: nat)
    ensures Pow2(a + b) == Pow2(a) * Pow2(b)
  {
    if b > 0 { Pow2Add(a, b - 1); }
  }

  lemma Pow2Next(s: nat)
    ensures Pow2(s + 7) == 128 * Pow2(s)
  {
    Pow2Add(s, 7);
    assert Pow2(7) == 128;
  }

  // ---------------------------------------------------------------- varints

  function Encode(val: nat): seq<Byte> {
    if val < 128 then [val] else [val % 128 + 128] + Encode(val / 128)
  }

  /** The value read from `idx` on and the offset after it; input that ends early gives the
      bits read so far. */
  function Decode(data: seq<Byte>, idx: nat, shift: nat, result: nat): (nat, nat)
    requires idx <= |data|
    decreases |data| - idx
  {
    if idx == |data| then (result, idx)
    else
      var more := Or(result, Shl(data[idx] % 128, shift));
      if data[idx] < 128 then (more, idx + 1) else Decode(data, idx + 1, shift + 7, more)
  }

  method EncodeVarint(value: U64) returns (res: seq<Byte>)
    ensures res == Encode(value)
  {
    res := [];
    var val := value;
    while true
      invariant 0 <= val
      invariant res + Encode(val) == Encode(value)
      decreases val
    {
      var towrite: Byte := val % 128;
      var rest := val / 128;
      if rest > 0 {
        assert res + Encode(val) == (res + [towrite + 128]) + Encode(rest);
        res := res + [towrite + 128];
        val := rest;
      } else {
        res := res + [towrite];
        break;
      }
    }
  }

  method DecodeVarint(data: seq<Byte>, idx: nat) returns (result: nat, next: nat)
    requires idx <= |data|
    ensures (result, next) == Decode(data, idx, 0, 0)
    ensures result < TWO_TO_64 && idx <= next <= |data|
  {
    result, next := 0, idx;
    var shift := 0;
    Pow2Of64();
    while next < |data|
      invariant idx <= next <= |data| && result < TWO_TO_64
      invariant Decode(data, next, shift, result) == Decode(data, idx, 0, 0)
    {
      var b := data[next];
      next := next + 1;
      OrBound(result, Shl(b % 128, shift), 64);
      result := Or(result, Shl(b % 128, shift));
      if b < 128 { return; }
      shift := shift + 7;
    }
  }

  /** One more group of seven bits. */
  lemma Group(v: nat, s: nat, result: nat)
    requires result < Pow2(s) && result + v * Pow2(s) < TWO_TO_64
    ensures var more := Or(result, Shl(v % 128, s));
            more < Pow2(s + 7) && more + (v / 128) * Pow2(s + 7) == result + v * Pow2(s)
  {
    var p, x, q := Pow2(s), v % 128, v / 128;
    Pow2Next(s);
    SplitProduct(q, x, p, result);
    SmallModulus(x * p);
    OrIsSum(result, x, s);
    hide Pow2, Or;
  }

  lemma SplitProduct(q: nat, x: nat, p: nat, result: nat)
    requires x < 128 && result < p
    ensures result + x * p + q * (128 * p) == result + (128 * q + x) * p
    ensures result + x * p < 128 * p && x * p <= (128 * q + x) * p
  {
    assert (128 * q + x) * p == q * (128 * p) + x * p;
    assert (x + 1) * p <= 128 * p;
  }

  lemma SmallModulus(n: nat)
    requires n < TWO_TO_64
    ensures n % TWO_TO_64 == n
  {
  }

  lemma DecodeStep(data: seq<Byte>, idx: nat, shift: nat, result: nat)
    requires idx < |data|
    ensures var more := Or(result, Shl(data[idx] % 128, shift));
            Decode(data, idx, shift, result)
            == if data[idx] < 128 then (more, idx + 1) else Decode(data, idx + 1, shift + 7, more)
  {
  }

  lemma EncodeStep(v: nat)
    ensures Encode(v) == if v < 128 then [v] else [v % 128 + 128] + Encode(v / 128)
  {
  }

  lemma {:induction false} DecodeEncoded(pre: seq<Byte>, v: nat, rest: seq<Byte>, s: nat, result: nat)
    requires result < Pow2(s) && result + v * Pow2(s) < TWO_TO_64
    ensures Decode(pre + Encode(v) + rest, |pre|, s, result) == (result + v * Pow2(s), |pre| + |Encode(v)|)
    decreases v
  {
    hide Pow2, Or, Shl, Decode, Encode;
    var data := pre + Encode(v) + rest;
    EncodeStep(v);
    assert data[|pre|] == Encode(v)[0];
    DecodeStep(data, |pre|, s, result);
    Group(v, s, result);
    if v < 128 {
      SmallValue(v);
    } else {
      var b: Byte := v % 128 + 128;
      assert data == (pre + [b]) + Encode(v / 128) + rest;
      assert b % 128 == v % 128;
      DecodeEncoded(pre + [b], v / 128, rest, s + 7, Or(result, Shl(v % 128, s)));
    }
  }

  lemma SmallValue(v: nat)
    requires v < 128
    ensures v / 128 == 0 && v % 128 == v
  {
  }

  /** Decoding undoes encoding for every uint64, in the middle of any bytes, and stops right
      after it. */
  lemma RoundTrip(pre: seq<Byte>, value: U64, rest: seq<Byte>)
    ensures Decode(pre + Encode(value) + rest, |pre|, 0, 0) == (value, |pre| + |Encode(value)|)
  {
    DecodeEncoded(pre, value, rest, 0, 0);
  }

  function Pow128(n: nat): nat { if n == 0 then 1 else 128 * Pow128(n - 1) }

  /** A value takes at most `n` bytes exactly when it is below 128 to the `n`. */
  lemma {:induction false} EncodedLength(v: nat, n: nat)
    requires n > 0
    ensures |Encode(v)| <= n <==> v < Pow128(n)
  {
    if v >= 128 {
      if n == 1 {
        assert |Encode(v)| >= 2 by { assert |Encode(v / 128)| >= 1; }
        assert Pow128(1) == 128;
      } else {
        EncodedLength(v / 128, n - 1);
      }
    } else {
      AtLeast128(n);
    }
  }

  lemma AtLeast128(n: nat)
    requires n > 0
    ensures Pow128(n) >= 128
  {
    if n > 1 { AtLeast128(n - 1); }
  }

  lemma AtMostTenBytes(value: U64)
    ensures 1 <= |Encode(value)| <= 10
  {
    assert Pow128(5) == 0x8_0000_0000;
    assert Pow128(7) == 16384 * Pow128(5);
    assert Pow128(9) == 16384 * Pow128(7);
    assert Pow128(10) == Pow128(5) * 0x8_0000_0000;
    EncodedLength(value, 10);
  }

  /** Bytes an encoder can produce: continued except for the last, and no padding. */
  predicate Minimal(bs: seq<Byte>) {
    bs != [] && (if |bs| == 1 then bs[0] < 128 else bs[0] >= 128 && Minimal(bs[1..]) && bs[1..] != [0])
  }

  function ValueOf(bs: seq<Byte>): nat
    requires bs != []
  {
    if |bs| == 1 then bs[0] else bs[0] % 128 + 128 * ValueOf(bs[1..])
  }

  /** Encoding is onto the minimal byte strings, so it is a bijection with them. */
  lemma {:induction false} EncodeValue(bs: seq<Byte>)
    requires Minimal(bs)
    ensures Encode(ValueOf(bs)) == bs && (ValueOf(bs) == 0 ==> bs == [0])
  {
    if |bs| > 1 {
      EncodeValue(bs[1..]);
      assert bs == [bs[0]] + bs[1..];
    }
  }

  lemma {:induction false} EncodeIsMinimal(v: nat)
    ensures Minimal(Encode(v)) && ValueOf(Encode(v)) == v && (Encode(v) == [0] ==> v == 0)
  {
    if v >= 128 {
      EncodeIsMinimal(v / 128);
      assert Encode(v)[1..] == Encode(v / 128);
    }
  }

  // ---------------------------------------------------------------- two's complement

  function ToUnsigned(n: I64): U64 { if n < 0 then n + TWO_TO_64 else n }

  function ToSigned(n: U64): I64 { if n < TWO_TO_63 then n else n - TWO_TO_64 }

  // ---------------------------------------------------------------- messages

  datatype Part = Part(num: nat, val: U64)

  /** Fields with wire type 0, one key byte each. */
  function EncodeParts(ps: seq<Part>): seq<Byte>
    requires forall i :: 0 <= i < |ps| ==> ps[i].num < 32
  {
    if ps == [] then [] else [ps[0].num * 8] + Encode(ps[0].val) + EncodeParts(ps[1..])
  }

  lemma DecodeForward(data: seq<Byte>, idx: nat, shift: nat, result: nat)
    requires idx <= |data| && result < TWO_TO_64
    ensures idx <= Decode(data, idx, shift, result).1 <= |data| && Decode(data, idx, shift, result).0 < TWO_TO_64
    decreases |data| - idx
  {
    if idx < |data| {
      Pow2Of64();
      OrBound(result, Shl(data[idx] % 128, shift), 64);
      DecodeForward(data, idx + 1, shift + 7, Or(result, Shl(data[idx] % 128, shift)));
    }
  }

  /** The fields of a payload in order; `None` when a field has another wire type. */
  function ReadParts(data: seq<Byte>, idx: nat): Option<seq<Part>>
    requires idx <= |data|
    decreases |data| - idx
  {
    if idx == |data| then Some([])
    else if data[idx] % 8 != 0 then None
    else
      DecodeForward(data, idx + 1, 0, 0);
      var (val, next) := Decode(data, idx + 1, 0, 0);
      match ReadParts(data, next)
      case None => None
      case Some(ps) => Some([Part(data[idx] / 8, val)] + ps)
  }

  lemma {:induction false} ReadEncoded(pre: seq<Byte>, ps: seq<Part>)
    requires forall i :: 0 <= i < |ps| ==> ps[i].num < 32
    ensures ReadParts(pre + EncodeParts(ps), |pre|) == Some(ps)
    decreases |ps|
  {
    var data := pre + EncodeParts(ps);
    if ps != [] {
      var key: Byte := ps[0].num * 8;
      var enc, after := Encode(ps[0].val), EncodeParts(ps[1..]);
      assert data == (pre + [key]) + enc + after;
      assert data[|pre|] == key && key % 8 == 0 && key / 8 == ps[0].num;
      RoundTrip(pre + [key], ps[0].val, after);
      assert data == (pre + [key] + enc) + after;
      ReadEncoded(pre + [key] + enc, ps[1..]);
      assert ps == [ps[0]] + ps[1..];
    } else {
      assert data == pre;
    }
  }

  method EncodeReport(orderId: U64, status: U64, filledQty: U64, filledPrice: I64, seqId: U64, processingNs: U64,
      matchedWith: U64)
    returns (payload: seq<Byte>)
    ensures payload == EncodeParts(ReportParts(orderId, status, filledQty, filledPrice, seqId, processingNs,
        matchedWith))
  {
    payload := [];
    var ps := ReportParts(orderId, status, filledQty, filledPrice, seqId, processingNs, matchedWith);
    assert ps[..7] == ps;
    var bytes;
    bytes := EncodeVarint(orderId);
    payload := payload + [0x08] + bytes;
    PartsSnoc(ps, 0);
    bytes := EncodeVarint(status);
    payload := payload + [0x10] + bytes;
    PartsSnoc(ps, 1);
    bytes := EncodeVarint(filledQty);
    payload := payload + [0x18] + bytes;
    PartsSnoc(ps, 2);
    bytes := EncodeVarint(ToUnsigned(filledPrice));
    payload := payload + [0x20] + bytes;
    PartsSnoc(ps, 3);
    bytes := EncodeVarint(seqId);
    payload := payload + [0x28] + bytes;
    PartsSnoc(ps, 4);
    bytes := EncodeVarint(processingNs);
    payload := payload + [0x30] + bytes;
    PartsSnoc(ps, 5);
    bytes := EncodeVarint(matchedWith);
    payload := payload + [0x38] + bytes;
    PartsSnoc(ps, 6);
  }

  function ReportParts(orderId: U64, status: U64, filledQty: U64, filledPrice: I64, seqId: U64, processingNs: U64,
      matchedWith: U64): seq<Part> {
    [Part(1, orderId), Part(2, status), Part(3, filledQty), Part(4, ToUnsigned(filledPrice)), Part(5, seqId),
     Part(6, processingNs), Part(7, matchedWith)]
  }

  lemma {:induction false} PartsAppend(a: seq<Part>, b: seq<Part>)
    requires forall i :: 0 <= i < |a| ==> a[i].num < 32
    requires forall i :: 0 <= i < |b| ==> b[i].num < 32
    ensures (forall i :: 0 <= i < |a + b| ==> (a + b)[i].num < 32)
        && EncodeParts(a + b) == EncodeParts(a) + EncodeParts(b)
    decreases |a|
  {
    hide Encode;
    if a == [] {
      assert a + b == b;
    } else {
      PartsAppend(a[1..], b);
      assert (a + b)[1..] == a[1..] + b;
    }
  }

  lemma PartsSnoc(ps: seq<Part>, k: nat)
    requires k < |ps| && forall i :: 0 <= i < |ps| ==> ps[i].num < 32
    ensures EncodeParts(ps[..k + 1]) == EncodeParts(ps[..k]) + [ps[k].num * 8] + Encode(ps[k].val)
  {
    assert ps[..k + 1] == ps[..k] + [ps[k]];
    PartsAppend(ps[..k], [ps[k]]);
    assert EncodeParts([ps[k]]) == [ps[k].num * 8] + Encode(ps[k].val) + EncodeParts([ps[k]][1..]);
  }

  /** Reading a report's payload field by field returns all seven values, the price with its
      sign. */
  lemma ReportReadsBack(orderId: U64, status: U64, filledQty: U64, filledPrice: I64, seqId: U64, processingNs: U64,
      matchedWith: U64)
    ensures var ps := ReportParts(orderId, status, filledQty, filledPrice, seqId, processingNs, matchedWith);
            var read := ReadParts(EncodeParts(ps), 0);
            && read.Some? && |read.value| == 7
            && (forall i :: 0 <= i < 7 ==> read.value[i].num == i + 1)
            && read.value[0].val == orderId && read.value[1].val == status && read.value[2].val == filledQty
            && ToSigned(read.value[3].val) == filledPrice
            && read.value[4].val == seqId && read.value[5].val == processingNs && read.value[6].val == matchedWith
  {
    var ps := ReportParts(orderId, status, filledQty, filledPrice, seqId, processingNs, matchedWith);
    hide ReadParts, EncodeParts;
    ReadEncoded([], ps);
    assert [] + EncodeParts(ps) == EncodeParts(ps);
  }

  /** A decoded order; fields that did not occur are 0. */
  datatype WireOrder = WireOrder(botId: U64, orderId: U64, kind: U64, side: U64, price: I64, quantity: U64)

  const NO_ORDER: WireOrder := WireOrder(0, 0, 0, 0, 0, 0)

  function SetPart(o: WireOrder, p: Part): WireOrder {
    match p.num
    case 1 => o.(botId := p.val)
    case 2 => o.(orderId := p.val)
    case 3 => o.(kind := p.val)
    case 4 => o.(side := p.val)
    case 5 => o.(price := ToSigned(p.val))
    case 6 => o.(quantity := p.val)
    case _ => o
  }

  function SetParts(o: WireOrder, ps: seq<Part>): WireOrder
    decreases |ps|
  {
    if ps == [] then o else SetParts(SetPart(o, ps[0]), ps[1..])
  }

  /** The later of two fields with the same number wins; unknown fields are skipped; any
      other wire type is an error. */
  method DecodeOrder(data: seq<Byte>) returns (o: Option<WireOrder>)
    ensures o == match ReadParts(data, 0) case None => None case Some(ps) => Some(SetParts(NO_ORDER, ps))
  {
    var order := NO_ORDER;
    var idx := 0;
    ghost var seen: seq<Part> := [];
    assert forall ps: seq<Part> :: seen + ps == ps;
    while idx < |data|
      invariant 0 <= idx <= |data|
      invariant match ReadParts(data, idx)
                case None => ReadParts(data, 0) == None
                case Some(ps) => ReadParts(data, 0) == Some(seen + ps)
      invariant order == SetParts(NO_ORDER, seen)
    {
      var key := data[idx];
      var wireType, fieldNum := key % 8, key / 8;
      if wireType != 0 { return None; }
      var val, next := DecodeVarint(data, idx + 1);
      ghost var p := Part(fieldNum, val);
      SetPartsSnoc(NO_ORDER, seen, p);
      assert forall ps :: seen + ([p] + ps) == (seen + [p]) + ps;
      seen := seen + [p];
      idx := next;
      match fieldNum {
        case 1 => order := order.(botId := val);
        case 2 => order := order.(orderId := val);
        case 3 => order := order.(kind := val);
        case 4 => order := order.(side := val);
        case 5 => order := order.(price := ToSigned(val));
        case 6 => order := order.(quantity := val);
        case _ =>
      }
    }
    assert seen + [] == seen;
    return Some(order);
  }

  lemma {:induction false} SetPartsSnoc(o: WireOrder, ps: seq<Part>, p: Part)
    ensures SetParts(o, ps + [p]) == SetPart(SetParts(o, ps), p)
    decreases |ps|
  {
    if ps == [] {
      assert ps + [p] == [p] && [p][1..] == [];
    } else {
      SetPartsSnoc(SetPart(o, ps[0]), ps[1..], p);
      assert (ps + [p])[1..] == ps[1..] + [p];
    }
  }

  /** An order sent as its six fields, zero fields left out or not, is read back as it was. */
  lemma OrderReadsBack(o: WireOrder, ps: seq<Part>)
    requires ps == OrderParts(o, false) || ps == OrderParts(o, true)
    ensures (forall i :: 0 <= i < |ps| ==> ps[i].num < 32) && ReadParts(EncodeParts(ps), 0) == Some(ps)
        && SetParts(NO_ORDER, ps) == o
  {
    hide ReadParts, EncodeParts;
    OrderPartsAreSmall(o, ps);
    ReadEncoded([], ps);
    assert [] + EncodeParts(ps) == EncodeParts(ps);
    OrderPartsSet(o, ps);
  }

  function Opt(num: nat, val: U64, sparse: bool): seq<Part> { if sparse && val == 0 then [] else [Part(num, val)] }

  function FrontParts(o: WireOrder, sparse: bool): seq<Part> {
    Opt(1, o.botId, sparse) + Opt(2, o.orderId, sparse) + Opt(3, o.kind, sparse)
  }

  function BackParts(o: WireOrder, sparse: bool): seq<Part> {
    Opt(4, o.side, sparse) + Opt(5, ToUnsigned(o.price), sparse) + Opt(6, o.quantity, sparse)
  }

  function OrderParts(o: WireOrder, sparse: bool): seq<Part> { FrontParts(o, sparse) + BackParts(o, sparse) }

  predicate Small(ps: seq<Part>) { forall i :: 0 <= i < |ps| ==> ps[i].num < 32 }

  lemma SmallAppend(a: seq<Part>, b: seq<Part>)
    requires Small(a) && Small(b)
    ensures Small(a + b)
  {
  }

  lemma OrderPartsAreSmall(o: WireOrder, ps: seq<Part>)
    requires ps == OrderParts(o, false) || ps == OrderParts(o, true)
    ensures forall i :: 0 <= i < |ps| ==> ps[i].num < 32
  {
    var sparse := ps != OrderParts(o, false);
    OptSmall(1, o.botId, sparse);
    OptSmall(2, o.orderId, sparse);
    OptSmall(3, o.kind, sparse);
    OptSmall(4, o.side, sparse);
    OptSmall(5, ToUnsigned(o.price), sparse);
    OptSmall(6, o.quantity, sparse);
    assert Small(ps) by {
      hide Small, Opt, ToUnsigned;
      var a, b := Opt(1, o.botId, sparse), Opt(2, o.orderId, sparse);
      SmallAppend(a, b);
      SmallAppend(a + b, Opt(3, o.kind, sparse));
      var d, e := Opt(4, o.side, sparse), Opt(5, ToUnsigned(o.price), sparse);
      SmallAppend(d, e);
      SmallAppend(d + e, Opt(6, o.quantity, sparse));
      SmallAppend(FrontParts(o, sparse), BackParts(o, sparse));
    }
  }

  lemma OptSmall(num: nat, val: U64, sparse: bool)
    requires num < 32
    ensures Small(Opt(num, val, sparse))
  {
  }

  lemma {:induction false} SetPartsAppend(o: WireOrder, a: seq<Part>, b: seq<Part>)
    ensures SetParts(o, a + b) == SetParts(SetParts(o, a), b)
    decreases |a|
  {
    hide SetPart;
    if a == [] {
      assert a + b == b;
    } else {
      SetPartsAppend(SetPart(o, a[0]), a[1..], b);
      assert (a + b)[1..] == a[1..] + b;
    }
  }

  lemma OptSets(o: WireOrder, num: nat, val: U64, sparse: bool)
    requires val == 0 ==> SetPart(o, Part(num, val)) == o
    ensures SetParts(o, Opt(num, val, sparse)) == SetPart(o, Part(num, val))
  {
    assert [Part(num, val)][1..] == [];
  }

  lemma OrderPartsSet(o: WireOrder, ps: seq<Part>)
    requires ps == OrderParts(o, false) || ps == OrderParts(o, true)
    ensures SetParts(NO_ORDER, ps) == o
  {
    hide SetParts, FrontParts, BackParts;
    var sparse := ps != OrderParts(o, false);
    FrontSet(o, sparse);
    BackSet(NO_ORDER.(botId := o.botId, orderId := o.orderId, kind := o.kind), o, sparse);
    SetPartsAppend(NO_ORDER, FrontParts(o, sparse), BackParts(o, sparse));
  }

  /** The first three fields, set one after the other. */
  lemma FrontSet(o: WireOrder, sparse: bool)
    ensures SetParts(NO_ORDER, FrontParts(o, sparse))
         == NO_ORDER.(botId := o.botId, orderId := o.orderId, kind := o.kind)
  {
    hide SetParts, Opt;
    var a, b, c := Opt(1, o.botId, sparse), Opt(2, o.orderId, sparse), Opt(3, o.kind, sparse);
    OptSets(NO_ORDER, 1, o.botId, sparse);
    OptSets(NO_ORDER.(botId := o.botId), 2, o.orderId, sparse);
    OptSets(NO_ORDER.(botId := o.botId, orderId := o.orderId), 3, o.kind, sparse);
    SetPartsAppend(NO_ORDER, a, b);
    SetPartsAppend(NO_ORDER, a + b, c);
  }

  lemma BackSet(w: WireOrder, o: WireOrder, sparse: bool)
    requires w.side == 0 && w.price == 0 && w.quantity == 0
    ensures SetParts(w, BackParts(o, sparse))
         == w.(side := o.side, price := o.price, quantity := o.quantity)
  {
    hide SetParts, Opt;
    var d, e, f := Opt(4, o.side, sparse), Opt(5, ToUnsigned(o.price), sparse), Opt(6, o.quantity, sparse);
    OptSets(w, 4, o.side, sparse);
    OptSets(w.(side := o.side), 5, ToUnsigned(o.price), sparse);
    OptSets(w.(side := o.side, price := o.price), 6, o.quantity, sparse);
    SetPartsAppend(w, d, e);
    SetPartsAppend(w, d + e, f);
  }
}
