/** FIX 4.4 tag=value messages: building, parsing, checksum, and cutting a byte stream back
    into messages. A Go string or byte slice is a `string` here, one character per byte. */
module Fix {
  import opened Orders
  import opened Ranging

  const SOH: char := 1 as char
  const INT64_MIN: int := -0x8000_0000_0000_0000
  const INT64_MAX: int := 0x7FFF_FFFF_FFFF_FFFF

  type Fields = map<int, string>

  // ---------------------------------------------------------------- decimal numbers

  predicate Digit(c: char) { '0' <= c <= '9' }

  predicate AllDigits(s: string) { forall i :: 0 <= i < |s| ==> Digit(s[i]) }

  function Digits(n: nat): (s: string)
    ensures s != [] && AllDigits(s)
  {
    (if n < 10 then [] else Digits(n / 10)) + [('0' as int + n % 10) as char]
  }

  /** `%d`. */
  function Itoa(n: int): (s: string)
    ensures s != [] && '=' !in s && SOH !in s
  {
    if n < 0 then "-" + Digits(-n) else Digits(n)
  }

  function DigitValue(c: char): int { c as int - '0' as int }

  function Value(s: string): int {
    if s == [] then 0 else Value(s[..|s| - 1]) * 10 + DigitValue(s[|s| - 1])
  }

  /** `strconv.Atoi`: an optional sign, at least one digit, and a value that fits an int64. */
  function Atoi(s: string): Option<int> {
    var digits := if s != [] && (s[0] == '-' || s[0] == '+') then s[1..] else s;
    if digits == [] || !AllDigits(digits) then None
    else
      var n := if s[0] == '-' then -Value(digits) else Value(digits);
      if INT64_MIN <= n <= INT64_MAX then Some(n) else None
  }

  lemma {:induction false} ValueOfDigits(n: nat)
    ensures Value(Digits(n)) == n
  {
    var s := Digits(n);
    if n >= 10 {
      ValueOfDigits(n / 10);
      assert s[..|s| - 1] == Digits(n / 10);
    } else {
      assert s[..|s| - 1] == [];
    }
  }

  lemma AtoiOfItoa(n: int)
    requires INT64_MIN <= n <= INT64_MAX
    ensures Atoi(Itoa(n)) == Some(n)
  {
    var s := Itoa(n);
    hide Value, Digits;
    if n < 0 {
      ValueOfDigits(-n);
      assert s[1..] == Digits(-n);
    } else {
      ValueOfDigits(n);
      assert Digit(s[0]);
    }
  }

  // ---------------------------------------------------------------- parsing

  function IndexOf(s: string, c: char): (i: nat)
    ensures i <= |s| && c !in s[..i] && (i < |s| ==> s[i] == c)
  {
    if s == [] || s[0] == c then 0 else
      var i := IndexOf(s[1..], c);
      assert s[..i + 1] == [s[0]] + s[1..][..i];
      i + 1
  }

  /** `bytes.Split` at SOH. */
  function Split(msg: string): seq<string>
    decreases |msg|
  {
    var i := IndexOf(msg, SOH);
    if i == |msg| then [msg] else [msg[..i]] + Split(msg[i + 1..])
  }

  /** What one part adds: parts without `=` or with a tag that is no number are skipped. */
  function AddPart(fields: Fields, part: string): Fields {
    var eq := IndexOf(part, '=');
    if eq == |part| then fields
    else
      match Atoi(part[..eq])
      case None => fields
      case Some(tag) => fields[tag := part[eq + 1..]]
  }

  function AddParts(fields: Fields, parts: seq<string>): Fields
    decreases |parts|
  {
    if parts == [] then fields else AddParts(AddPart(fields, parts[0]), parts[1..])
  }

  function Parse(msg: string): Fields { AddParts(map[], Split(msg)) }

  method ParseFIX(msg: string) returns (fields: Fields)
    ensures fields == Parse(msg)
  {
    fields := map[];
    var parts := Split(msg);
    for i := 0 to |parts|
      invariant AddParts(fields, parts[i..]) == Parse(msg)
    {
      var part := parts[i];
      assert parts[i..][1..] == parts[i + 1..];
      if |part| == 0 { continue; }
      var eqIdx := IndexOf(part, '=');
      if eqIdx == |part| { continue; }
      var tag := Atoi(part[..eqIdx]);
      if tag.None? { continue; }
      fields := fields[tag.value := part[eqIdx + 1..]];
    }
  }

  // ---------------------------------------------------------------- building

  function Get(fields: Fields, tag: int): string { if tag in fields then fields[tag] else "" }

  function Field(tag: int, val: string): string { Itoa(tag) + "=" + val }

  /** Fields one after the other, each closed by SOH. */
  function Join(fs: seq<string>): string {
    if fs == [] then "" else Join(fs[..|fs| - 1]) + fs[|fs| - 1] + [SOH]
  }

  predicate Special(tag: int) { tag == 8 || tag == 9 || tag == 35 || tag == 10 }

  /** The other fields in the order the map happens to yield its keys. */
  function Rest(fields: Fields, order: seq<int>): seq<string>
    requires forall tag :: tag in order ==> tag in fields
  {
    if order == [] then []
    else
      var last := order[|order| - 1];
      Rest(fields, order[..|order| - 1]) + if Special(last) then [] else [Field(last, fields[last])]
  }

  function Body(fields: Fields, order: seq<int>): string
    requires forall tag :: tag in order ==> tag in fields
  {
    Join([Field(35, Get(fields, 35))] + Rest(fields, order))
  }

  function Head(fields: Fields, length: nat): string {
    Join([Field(8, Get(fields, 8)), Field(9, Itoa(length))])
  }

  function Sum(data: string): nat {
    if data == [] then 0 else Sum(data[..|data| - 1]) + data[|data| - 1] as int
  }

  /** `%03d` of a number below 256. */
  function Pad3(n: nat): string {
    if n < 10 then "00" + Digits(n) else if n < 100 then "0" + Digits(n) else Digits(n)
  }

  function Checksum(data: string): nat { Sum(data) % 256 }

  function Message(fields: Fields, order: seq<int>): string
    requires forall tag :: tag in order ==> tag in fields
  {
    var body := Body(fields, order);
    var data := Head(fields, |body|) + body;
    data + Field(10, Pad3(Checksum(data))) + [SOH]
  }

  /** Every key once, in any order. */
  ghost predicate IsOrder(order: seq<int>, fields: Fields) {
    && (forall tag :: tag in order <==> tag in fields)
    && (forall i, j :: 0 <= i < j < |order| ==> order[i] != order[j])
  }

  /** The message for some order of the keys. */
  ghost predicate Built(msg: string, fields: Fields) {
    exists order :: IsOrder(order, fields) && msg == Message(fields, order)
  }

  method CalculateFIXChecksum(data: string) returns (checksum: nat)
    ensures checksum == Checksum(data)
  {
    var sum := 0;
    for i := 0 to |data|
      invariant sum == Sum(data[..i])
    {
      assert data[..i + 1][..i] == data[..i];
      sum := sum + data[i] as int;
    }
    assert data[..|data|] == data;
    checksum := sum % 256;
  }

  lemma JoinSnoc(fs: seq<string>, f: string)
    ensures Join(fs + [f]) == Join(fs) + f + [SOH]
  {
    assert (fs + [f])[..|fs|] == fs;
  }

  /** Whatever order the map is ranged over, what is written is the message for that order. */
  method BuildFIX(fields: Fields) returns (msg: string)
    ensures Built(msg, fields)
  {
    hide Field, Get, Join, Rest, Head, Checksum, Pad3, Itoa, Message;
    var body := Field(35, Get(fields, 35)) + [SOH];
    ghost var order: seq<int> := [];
    BodyStart(fields);
    var tags := fields.Keys;
    while tags != {}
      invariant tags <= fields.Keys && Yielded(order, fields, tags)
      invariant body == Body(fields, order)
      decreases |tags|
    {
      hide Body;
      var tag := PickOne(tags);
      RestSnoc(fields, order, tag);
      YieldOne(order, fields, tags, tag);
      tags := tags - {tag};
      order := order + [tag];
      if tag == 8 || tag == 9 || tag == 35 || tag == 10 { continue; }
      body := body + Field(tag, fields[tag]) + [SOH];
    }
    hide Body;
    var buf := Field(8, Get(fields, 8)) + [SOH];
    buf := buf + Field(9, Itoa(|body|)) + [SOH];
    HeadIs(fields, |body|);
    buf := buf + body;
    var checksum := CalculateFIXChecksum(buf);
    msg := buf + Field(10, Pad3(checksum)) + [SOH];
    MessageIs(fields, order);
    BuiltIn(msg, fields, order);
  }

  /** `order` lists, each once, the keys that are no longer in `tags`. */
  ghost predicate Yielded(order: seq<int>, fields: Fields, tags: set<int>) {
    && (forall tag :: tag in order <==> tag in fields && tag !in tags)
    && (forall i, j :: 0 <= i < j < |order| ==> order[i] != order[j])
  }

  lemma YieldOne(order: seq<int>, fields: Fields, tags: set<int>, tag: int)
    requires Yielded(order, fields, tags) && tag in tags && tag in fields
    ensures Yielded(order + [tag], fields, tags - {tag})
  {
    var next := order + [tag];
    forall t ensures t in next <==> t in fields && t !in tags - {tag} {
      assert t in next <==> t in order || t == tag;
    }
    assert forall i :: 0 <= i < |order| ==> order[i] in order;
  }

  lemma BodyStart(fields: Fields)
    ensures Body(fields, []) == Field(35, Get(fields, 35)) + [SOH]
  {
    var f := Field(35, Get(fields, 35));
    JoinSnoc([], f);
    assert [f] + [] == [f] && [] + [f] == [f];
  }

  lemma MessageIs(fields: Fields, order: seq<int>)
    requires forall tag :: tag in order ==> tag in fields
    ensures var body := Body(fields, order);
            var data := Head(fields, |body|) + body;
            Message(fields, order) == data + Field(10, Pad3(Checksum(data))) + [SOH]
  {
  }

  lemma BuiltIn(msg: string, fields: Fields, order: seq<int>)
    requires IsOrder(order, fields) && msg == Message(fields, order)
    ensures Built(msg, fields)
  {
  }

  lemma HeadIs(fields: Fields, length: nat)
    ensures Head(fields, length) == Field(8, Get(fields, 8)) + [SOH] + Field(9, Itoa(length)) + [SOH]
  {
    var a, b := Field(8, Get(fields, 8)), Field(9, Itoa(length));
    JoinSnoc([], a);
    JoinSnoc([a], b);
    assert [a] + [b] == [a, b] && [] + [a] == [a];
  }

  lemma RestSnoc(fields: Fields, order: seq<int>, tag: int)
    requires (forall t :: t in order ==> t in fields) && tag in fields
    ensures Body(fields, order + [tag])
         == if Special(tag) then Body(fields, order) else Body(fields, order) + Field(tag, fields[tag]) + [SOH]
  {
    assert (order + [tag])[..|order|] == order;
    var f := Field(35, Get(fields, 35));
    if Special(tag) {
      assert Rest(fields, order) + [] == Rest(fields, order);
    } else {
      JoinSnoc([f] + Rest(fields, order), Field(tag, fields[tag]));
      assert [f] + (Rest(fields, order) + [Field(tag, fields[tag])])
          == ([f] + Rest(fields, order)) + [Field(tag, fields[tag])];
    }
  }

  // ---------------------------------------------------------------- round trip

  predicate Clear(s: string) { SOH !in s }

  predicate AllClear(fs: seq<string>) { forall i :: 0 <= i < |fs| ==> Clear(fs[i]) }

  lemma {:induction false} IndexIs(s: string, c: char, i: nat)
    requires i <= |s| && c !in s[..i] && (i < |s| ==> s[i] == c)
    ensures IndexOf(s, c) == i
  {
    if i > 0 {
      assert s[0] == s[..i][0] && s[1..][..i - 1] == s[..i][1..];
      IndexIs(s[1..], c, i - 1);
    }
  }

  lemma SplitField(f: string, rest: string)
    requires Clear(f)
    ensures Split(f + [SOH] + rest) == [f] + Split(rest)
  {
    var s := f + [SOH] + rest;
    assert s[..|f|] == f && s[|f| + 1..] == rest;
    IndexIs(s, SOH, |f|);
  }

  lemma JoinCons(f: string, fs: seq<string>)
    ensures Join([f] + fs) == f + [SOH] + Join(fs)
  {
    if fs == [] {
      JoinSnoc([], f);
      assert [f] + [] == [f] && [] + [f] == [f];
    } else {
      var init, last := fs[..|fs| - 1], fs[|fs| - 1];
      JoinCons(f, init);
      assert ([f] + fs)[..|fs|] == [f] + init;
    }
  }

  /** Splitting at SOH gives back the fields, and one empty part at the end. */
  lemma {:induction false} SplitJoin(fs: seq<string>)
    requires AllClear(fs)
    ensures Split(Join(fs)) == fs + [""]
  {
    if fs == [] {
      assert Join(fs) == "";
    } else {
      assert fs == [fs[0]] + fs[1..];
      JoinCons(fs[0], fs[1..]);
      SplitField(fs[0], Join(fs[1..]));
      SplitJoin(fs[1..]);
    }
  }

  lemma JoinNone()
    ensures Join([]) == ""
  {
  }

  lemma Assoc(x: string, y: string, last: string)
    ensures x + y + last + [SOH] == x + (y + last + [SOH])
  {
  }

  lemma {:induction false} JoinAppend(a: seq<string>, b: seq<string>)
    ensures Join(a + b) == Join(a) + Join(b)
  {
    hide Join;
    if b == [] {
      JoinNone();
      assert a + b == a;
    } else {
      var init, last := b[..|b| - 1], b[|b| - 1];
      assert (a + init) + [last] == a + b && init + [last] == b;
      JoinAppend(a, init);
      JoinSnoc(a + init, last);
      JoinSnoc(init, last);
      Assoc(Join(a), Join(init), last);
    }
  }

  /** All fields of a message, in the order they are written. */
  function AllFields(fields: Fields, order: seq<int>): seq<string>
    requires forall tag :: tag in order ==> tag in fields
  {
    var body := Body(fields, order);
    [Field(8, Get(fields, 8)), Field(9, Itoa(|body|)), Field(35, Get(fields, 35))] + Rest(fields, order)
    + [Field(10, Pad3(Checksum(Head(fields, |body|) + body)))]
  }

  lemma Regroup(a: string, b: string, c: string, rest: seq<string>, last: string)
    ensures [a, b, c] + rest + [last] == ([a, b] + ([c] + rest)) + [last]
  {
  }

  lemma MessageIsJoin(fields: Fields, order: seq<int>)
    requires forall tag :: tag in order ==> tag in fields
    ensures Message(fields, order) == Join(AllFields(fields, order))
  {
    hide Join, Field, Rest, Pad3, Checksum, Get, Itoa;
    var body := Body(fields, order);
    var f8, f9, f35 := Field(8, Get(fields, 8)), Field(9, Itoa(|body|)), Field(35, Get(fields, 35));
    var rest, last := Rest(fields, order), Field(10, Pad3(Checksum(Head(fields, |body|) + body)));
    assert AllFields(fields, order) == [f8, f9, f35] + rest + [last];
    assert Message(fields, order) == Head(fields, |body|) + body + last + [SOH];
    hide AllFields, Message;
    Regroup(f8, f9, f35, rest, last);
    JoinAppend([f8, f9], [f35] + rest);
    JoinSnoc([f8, f9] + ([f35] + rest), last);
  }

  lemma FieldParts(tag: int, val: string)
    requires INT64_MIN <= tag <= INT64_MAX
    ensures forall fields :: AddPart(fields, Field(tag, val)) == fields[tag := val]
  {
    var f, n := Field(tag, val), |Itoa(tag)|;
    assert f[..n] == Itoa(tag) && f[n + 1..] == val;
    IndexIs(f, '=', n);
    AtoiOfItoa(tag);
  }

  lemma {:induction false} AddPartsAppend(fields: Fields, a: seq<string>, b: seq<string>)
    ensures AddParts(fields, a + b) == AddParts(AddParts(fields, a), b)
    decreases |a|
  {
    hide AddPart;
    if a == [] {
      assert a + b == b;
    } else {
      AddPartsAppend(AddPart(fields, a[0]), a[1..], b);
      assert (a + b)[1..] == a[1..] + b;
    }
  }

  predicate TagsFit(fields: Fields) { forall tag :: tag in fields ==> INT64_MIN <= tag <= INT64_MAX }

  /** Values of every tag but 9 and 10, which are computed, are free of SOH. */
  predicate ValuesClear(fields: Fields) { forall tag :: tag in fields && tag != 9 && tag != 10 ==> Clear(fields[tag]) }

  lemma FieldClear(tag: int, val: string)
    requires Clear(val)
    ensures Clear(Field(tag, val))
  {
  }

  lemma {:induction false} RestClear(fields: Fields, order: seq<int>)
    requires (forall tag :: tag in order ==> tag in fields) && ValuesClear(fields)
    ensures AllClear(Rest(fields, order))
  {
    if order != [] {
      RestClear(fields, order[..|order| - 1]);
      var last := order[|order| - 1];
      if !Special(last) { FieldClear(last, fields[last]); }
    }
  }

  /** The map after the ordinary fields: what was there, overwritten by the fields written. */
  lemma {:induction false} RestParts(fields: Fields, order: seq<int>, before: Fields)
    requires (forall tag :: tag in order ==> tag in fields) && TagsFit(fields)
    ensures var after := AddParts(before, Rest(fields, order));
            forall tag :: (tag in after <==> tag in before || (tag in order && !Special(tag)))
                          && (tag in after ==>
                                after[tag] == if tag in order && !Special(tag) then fields[tag] else before[tag])
  {
    if order != [] {
      var init, last := order[..|order| - 1], order[|order| - 1];
      RestParts(fields, init, before);
      assert order == init + [last];
      if !Special(last) {
        AddPartsAppend(before, Rest(fields, init), [Field(last, fields[last])]);
        FieldParts(last, fields[last]);
        AddOne(AddParts(before, Rest(fields, init)), Field(last, fields[last]));
      } else {
        assert Rest(fields, order) == Rest(fields, init);
      }
    }
  }

  lemma AddOne(fields: Fields, part: string)
    ensures AddParts(fields, [part]) == AddPart(fields, part)
  {
    assert [part][1..] == [];
  }

  lemma DigitsLength(n: nat)
    requires n < 256
    ensures |Digits(n)| == if n < 10 then 1 else if n < 100 then 2 else 3
  {
    if n >= 100 { assert |Digits(n / 10)| == |Digits(n / 10 / 10)| + 1; }
  }

  lemma {:induction false} LeadingZero(s: string)
    ensures Value("0" + s) == Value(s)
  {
    if s == [] {
      assert "0"[..0] == [];
    } else {
      LeadingZero(s[..|s| - 1]);
      assert ("0" + s)[..|s|] == "0" + s[..|s| - 1];
    }
  }

  lemma AtoiOfDigits(s: string)
    requires s != [] && AllDigits(s) && 0 <= Value(s) <= INT64_MAX
    ensures Atoi(s) == Some(Value(s))
  {
    assert Digit(s[0]);
  }

  lemma PadClear(n: nat)
    requires n < 256
    ensures Clear(Pad3(n)) && |Pad3(n)| == 3 && Atoi(Pad3(n)) == Some(n)
  {
    var d := Digits(n);
    ValueOfDigits(n);
    DigitsLength(n);
    LeadingZero(d);
    LeadingZero("0" + d);
    hide Digits, Value, Atoi;
    if n < 10 { assert Pad3(n) == "0" + ("0" + d); }
    AtoiOfDigits(Pad3(n));
  }

  /** Parsing a built message, whatever order the map was ranged over: the given fields with
      tags 8 and 35 present, the body length under 9 and the checksum under 10. */
  lemma ParseOfBuild(fields: Fields, order: seq<int>)
    requires IsOrder(order, fields) && TagsFit(fields) && ValuesClear(fields)
    ensures var body := Body(fields, order);
            Parse(Message(fields, order))
            == fields[8 := Get(fields, 8)][35 := Get(fields, 35)][9 := Itoa(|body|)]
                     [10 := Pad3(Checksum(Head(fields, |body|) + body))]
  {
    hide Message, AddParts, Rest, Join, Itoa, Pad3, Checksum, Body, Head, Field, ValuesClear, TagsFit, AllClear;
    var body := Body(fields, order);
    var v8, v9, v35 := Get(fields, 8), Itoa(|body|), Get(fields, 35);
    var v10 := Pad3(Checksum(Head(fields, |body|) + body));
    var fs, before := AllFields(fields, order), map[8 := v8, 9 := v9, 35 := v35];
    var first, rest, last := [Field(8, v8), Field(9, v9), Field(35, v35)], Rest(fields, order), Field(10, v10);
    assert fs == first + (rest + [last]);
    hide AllFields;
    ParseOfFields(fields, order);
    AddPartsAppend(map[], first, rest + [last]);
    FirstThree(v8, v9, v35);
    AddPartsAppend(before, rest, [last]);
    RestParts(fields, order, before);
    FieldParts(10, v10);
    AddOne(AddParts(before, rest), last);
    SameFields(fields, order, before, AddParts(before, rest), v10);
  }

  lemma SameFields(fields: Fields, order: seq<int>, before: Fields, after: Fields, v10: string)
    requires IsOrder(order, fields) && before.Keys == {8, 9, 35}
    requires forall tag :: (tag in after <==> tag in before || (tag in order && !Special(tag)))
                           && (tag in after ==>
                                 after[tag] == if tag in order && !Special(tag) then fields[tag] else before[tag])
    ensures after[10 := v10] == fields[8 := before[8]][35 := before[35]][9 := before[9]][10 := v10]
  {
    var a, b := after[10 := v10], fields[8 := before[8]][35 := before[35]][9 := before[9]][10 := v10];
    assert before.Keys == {8, 9, 35};
    forall tag ensures tag in a <==> tag in b
               ensures tag in a && tag in b ==> a[tag] == b[tag]
    {
      assert tag in before <==> tag in {8, 9, 35};
      assert tag in order <==> tag in fields;
    }
  }

  lemma ParseOfFields(fields: Fields, order: seq<int>)
    requires IsOrder(order, fields) && ValuesClear(fields)
    ensures Parse(Message(fields, order)) == AddParts(map[], AllFields(fields, order))
  {
    hide Message, AddParts, AllFields, Join, Split;
    var fs := AllFields(fields, order);
    MessageIsJoin(fields, order);
    AllFieldsClear(fields, order);
    SplitJoin(fs);
    AddPartsAppend(map[], fs, [""]);
    AddOne(AddParts(map[], fs), "");
  }

  lemma FirstThree(v8: string, v9: string, v35: string)
    ensures AddParts(map[], [Field(8, v8), Field(9, v9), Field(35, v35)]) == map[8 := v8, 9 := v9, 35 := v35]
  {
    var a, b, c := Field(8, v8), Field(9, v9), Field(35, v35);
    FieldParts(8, v8);
    FieldParts(9, v9);
    FieldParts(35, v35);
    assert [a, b, c][1..] == [b, c] && [b, c][1..] == [c];
    hide Field, AddPart;
    AddOne(AddPart(AddPart(map[], a), b), c);
  }

  lemma AllFieldsClear(fields: Fields, order: seq<int>)
    requires IsOrder(order, fields) && ValuesClear(fields)
    ensures AllClear(AllFields(fields, order))
  {
    var body := Body(fields, order);
    var data := Head(fields, |body|) + body;
    RestClear(fields, order);
    PadClear(Checksum(data));
    FieldClear(8, Get(fields, 8));
    FieldClear(9, Itoa(|body|));
    FieldClear(35, Get(fields, 35));
    FieldClear(10, Pad3(Checksum(data)));
    hide Rest, Field, Get, Body, Head, Checksum, Pad3, Itoa, AllClear, Clear;
    AroundClear(Field(8, Get(fields, 8)), Field(9, Itoa(|body|)), Field(35, Get(fields, 35)), Rest(fields, order),
        Field(10, Pad3(Checksum(data))));
  }

  lemma AroundClear(a: string, b: string, c: string, rest: seq<string>, last: string)
    requires Clear(a) && Clear(b) && Clear(c) && AllClear(rest) && Clear(last)
    ensures AllClear([a, b, c] + rest + [last])
  {
    hide Clear;
  }

  ghost predicate SameOutside(a: Fields, b: Fields) {
    && (forall tag :: tag != 9 && tag != 10 ==> (tag in a <==> tag in b))
    && (forall tag :: tag != 9 && tag != 10 && tag in a && tag in b ==> a[tag] == b[tag])
  }

  lemma {:induction false} SplitIsClear(msg: string)
    ensures AllClear(Split(msg))
    decreases |msg|
  {
    var i := IndexOf(msg, SOH);
    if i < |msg| { SplitIsClear(msg[i + 1..]); } else { assert msg[..i] == msg; }
  }

  lemma {:induction false} PartsKeepClear(fields: Fields, parts: seq<string>)
    requires AllClear(parts) && forall tag :: tag in fields ==> Clear(fields[tag])
    ensures forall tag :: tag in AddParts(fields, parts) ==> Clear(AddParts(fields, parts)[tag])
    decreases |parts|
  {
    if parts != [] { PartsKeepClear(AddPart(fields, parts[0]), parts[1..]); }
  }

  /** Building then parsing gives the fields back outside tags 9 and 10 exactly when tags 8
      and 35 are given and no value contains the separator. */
  lemma RoundTrip(fields: Fields, order: seq<int>)
    requires IsOrder(order, fields) && TagsFit(fields)
    ensures SameOutside(Parse(Message(fields, order)), fields) <==> 8 in fields && 35 in fields && ValuesClear(fields)
  {
    hide Message, Body, Head, Itoa, Pad3, Checksum, AddParts, Split, TagsFit;
    if ValuesClear(fields) {
      ParseOfBuild(fields, order);
      RoundTripClear(fields, Parse(Message(fields, order)));
    } else {
      SplitIsClear(Message(fields, order));
      PartsKeepClear(map[], Split(Message(fields, order)));
    }
  }

  lemma RoundTripClear(fields: Fields, parsed: Fields)
    requires 9 in parsed && 10 in parsed && 8 in parsed && 35 in parsed
    requires parsed == fields[8 := Get(fields, 8)][35 := Get(fields, 35)][9 := parsed[9]][10 := parsed[10]]
    ensures SameOutside(parsed, fields) <==> 8 in fields && 35 in fields
  {
  }

  /** Tag 9 is the number of bytes between its own field and the checksum field, and tag 10
      is three digits: the sum of all bytes before its field, modulo 256. */
  lemma LengthAndChecksum(fields: Fields, order: seq<int>)
    requires IsOrder(order, fields) && TagsFit(fields) && ValuesClear(fields)
    requires |Body(fields, order)| <= INT64_MAX
    ensures var msg := Message(fields, order);
            var parsed, n := Parse(msg), |msg| - 7;
            && n >= 0 && msg[n..n + 3] == "10=" && 9 in parsed && 10 in parsed && |parsed[10]| == 3
            && Atoi(parsed[10]) == Some(Sum(msg[..n]) % 256)
            && exists start: nat :: start <= n && Atoi(parsed[9]) == Some(n - start)
                 && msg[..start] == "8=" + Get(fields, 8) + [SOH] + "9=" + parsed[9] + [SOH]
  {
    hide Parse, Body, Pad3, Head, Itoa, Sum, ValuesClear, TagsFit, Get, Atoi, Join;
    var body := Body(fields, order);
    var head := Head(fields, |body|);
    var msg, data := Message(fields, order), head + body;
    var sum := Checksum(data);
    ParseOfBuild(fields, order);
    PadClear(sum);
    AtoiOfItoa(|body|);
    HeadIs(fields, |body|);
    SmallTags();
    assert msg == data + ("10=" + Pad3(sum) + [SOH]) by { assert Field(10, Pad3(sum)) == "10=" + Pad3(sum); }
    hide Message, Field;
    Cutting(msg, data, head, body, Pad3(sum));
  }

  lemma Cutting(msg: string, data: string, head: string, body: string, sum: string)
    requires data == head + body && msg == data + ("10=" + sum + [SOH]) && |sum| == 3
    ensures |msg| == |data| + 7 && msg[..|data|] == data && msg[|data|..|data| + 3] == "10=" && msg[..|head|] == head
  {
    assert ("10=" + sum + [SOH])[..3] == "10=";
  }

  lemma SmallTags()
    ensures Itoa(8) == "8" && Itoa(9) == "9" && Itoa(10) == "10" && Itoa(35) == "35"
  {
    assert Digits(1) == "1" && Digits(3) == "3";
  }

  // ---------------------------------------------------------------- framing

  const TRAILER: string := [SOH] + "10="

  predicate At(s: string, t: string, p: int) { 0 <= p <= |s| - |t| && s[p..p + |t|] == t }

  predicate Contains(s: string, t: string) { exists p :: 0 <= p <= |s| && At(s, t, p) }

  predicate Complete(s: string) { Contains(s, TRAILER) && s != [] && s[|s| - 1] == SOH }

  datatype Cut = Cut(chunk: string, rest: string) | Eof

  /** `ReadBytes(1)`: everything up to and with the next SOH. */
  function Chunk(input: string): Cut {
    var i := IndexOf(input, SOH);
    if i == |input| then Eof else Cut(input[..i + 1], input[i + 1..])
  }

  /** Chunks are added until the bytes so far hold a checksum field and end in SOH. */
  function Gather(sofar: string, input: string): Cut
    decreases |input|
  {
    match Chunk(input)
    case Eof => Eof
    case Cut(chunk, rest) =>
      if Complete(sofar + chunk) then Cut(sofar + chunk, rest) else Gather(sofar + chunk, rest)
  }

  function Frame(input: string): Cut {
    match Chunk(input)
    case Eof => Eof
    case Cut(chunk, rest) => Gather(chunk, rest)
  }

  /** The receive loop over one connection's bytes. */
  function Frames(input: string): seq<string>
    decreases |input|
  {
    match Frame(input)
    case Eof => []
    case Cut(msg, rest) => FrameShrinks(input); [msg] + Frames(rest)
  }

  lemma GatherShrinks(sofar: string, input: string)
    ensures Gather(sofar, input).Cut? ==> |Gather(sofar, input).rest| < |input|
    decreases |input|
  {
    match Chunk(input)
    case Eof =>
    case Cut(chunk, rest) => GatherShrinks(sofar + chunk, rest);
  }

  lemma FrameShrinks(input: string)
    ensures Frame(input).Cut? ==> |Frame(input).rest| < |input|
  {
    match Chunk(input)
    case Eof =>
    case Cut(chunk, rest) => GatherShrinks(chunk, rest);
  }

  class Connection {
    var input: string        // bytes not yet read

    constructor (bytes: string)
      ensures input == bytes
    {
      input := bytes;
    }

    method ReadBytes() returns (chunk: string, eof: bool)
      modifies this
      ensures eof == Chunk(old(input)).Eof?
      ensures !eof ==> Chunk(old(input)) == Cut(chunk, input)
    {
      var i := IndexOf(input, SOH);
      if i == |input| { return "", true; }
      chunk, eof, input := input[..i + 1], false, input[i + 1..];
    }

    /** The bytes of the next message, taken from the front of the stream. */
    method ReadMessage() returns (respBytes: string, eof: bool)
      modifies this
      ensures eof == Frame(old(input)).Eof?
      ensures !eof ==> Frame(old(input)) == Cut(respBytes, input)
    {
      respBytes, eof := ReadBytes();
      if eof { return; }
      while true
        invariant !eof && Frame(old(input)) == Gather(respBytes, input)
        decreases |input|
      {
        var line, end := ReadBytes();
        if end { eof := true; return; }
        respBytes := respBytes + line;
        if Complete(respBytes) { break; }
      }
    }
  }

  predicate StartsTrailer(f: string) { |f| >= 3 && f[..3] == "10=" }

  /** The checksum pattern can only begin where one field ends and the next one starts. */
  lemma {:induction false} TrailerIsAField(fs: seq<string>)
    requires AllClear(fs) && Contains(Join(fs), TRAILER)
    ensures exists i :: 1 <= i < |fs| && StartsTrailer(fs[i])
  {
    var all := Join(fs);
    var p :| 0 <= p <= |all| && At(all, TRAILER, p);
    if fs != [] {
      var init, last := fs[..|fs| - 1], fs[|fs| - 1];
      var j := Join(init);
      PatternAt(all, p);
      if p + 4 <= |j| {
        assert j[p..p + 4] == all[p..p + 4] && At(j, TRAILER, p);
        TrailerIsAField(init);
        var i :| 1 <= i < |init| && StartsTrailer(init[i]);
        assert fs[i] == init[i];
      } else {
        JoinEnds(init);
        assert all == j + last + [SOH];
        forall q | |j| <= q < |all| - 1 ensures all[q] != SOH { assert all[q] == last[q - |j|]; }
        assert p == |j| - 1;
        assert last[..3] == all[p + 1..p + 4] == "10=";
        assert |fs| > 1;
      }
    }
  }

  lemma JoinEnds(fs: seq<string>)
    ensures fs != [] ==> Join(fs) != [] && Join(fs)[|Join(fs)| - 1] == SOH
    ensures fs == [] ==> Join(fs) == []
  {
  }

  lemma PatternAt(s: string, p: nat)
    requires p + 4 <= |s| && s[p..p + 4] == TRAILER
    ensures s[p] == SOH && s[p + 1] == '1' && s[p + 2] == '0' && s[p + 3] == '='
  {
    var t := s[p..p + 4];
    assert t[0] == s[p] && t[1] == s[p + 1] && t[2] == s[p + 2] && t[3] == s[p + 3];
  }

  lemma OnlyTag10(tag: int, val: string)
    requires StartsTrailer(Field(tag, val)) && INT64_MIN <= tag <= INT64_MAX
    ensures tag == 10
  {
    var f, n := Field(tag, val), |Itoa(tag)|;
    assert f[..n] == Itoa(tag);
    assert f[2] == f[..3][2] == '=';
    IndexIs(f, '=', n);
    assert f[..2] == f[..3][..2] == "10";
    IndexIs(f, '=', 2);
    AtoiOfItoa(tag);
    AtoiOfItoa(10);
    SmallTags();
  }

  lemma {:induction false} RestHasNoTrailer(fields: Fields, order: seq<int>)
    requires (forall tag :: tag in order ==> tag in fields) && TagsFit(fields)
    ensures forall i :: 0 <= i < |Rest(fields, order)| ==> !StartsTrailer(Rest(fields, order)[i])
  {
    if order != [] {
      RestHasNoTrailer(fields, order[..|order| - 1]);
      var last := order[|order| - 1];
      if !Special(last) && StartsTrailer(Field(last, fields[last])) { OnlyTag10(last, fields[last]); }
    }
  }

  lemma ChunkOfField(f: string, rest: string)
    requires Clear(f)
    ensures Chunk(f + [SOH] + rest) == Cut(f + [SOH], rest)
  {
    var s := f + [SOH] + rest;
    assert s[..|f|] == f && s[..|f| + 1] == f + [SOH] && s[|f| + 1..] == rest;
    IndexIs(s, SOH, |f|);
  }

  /** Reading on from the first `i` fields of a message stops exactly at its end. */
  lemma {:induction false} GatherFields(fs: seq<string>, i: nat, rest: string)
    requires AllClear(fs) && 1 <= i < |fs| && StartsTrailer(fs[|fs| - 1])
    requires forall j :: 1 <= j < |fs| - 1 ==> !StartsTrailer(fs[j])
    ensures Gather(Join(fs[..i]), Join(fs[i..]) + rest) == Cut(Join(fs), rest)
    decreases |fs| - i
  {
    hide Join, StartsTrailer, Complete, Clear, Gather;
    var f, after := fs[i], Join(fs[i + 1..]) + rest;
    assert Clear(f);
    Slices(fs, i);
    JoinCons(f, fs[i + 1..]);
    Regroup3(f, Join(fs[i + 1..]), rest);
    JoinSnoc(fs[..i], f);
    Regroup2(Join(fs[..i]), f);
    GatherOne(Join(fs[..i]), f, after);
    if i + 1 == |fs| {
      NoneLeft(rest);
      LastFieldCompletes(fs[..i], f);
    } else {
      NotYetComplete(fs, i + 1);
      GatherFields(fs, i + 1, rest);
    }
  }

  lemma Slices(fs: seq<string>, i: nat)
    requires i < |fs|
    ensures fs[i..] == [fs[i]] + fs[i + 1..] && fs[..i + 1] == fs[..i] + [fs[i]]
    ensures i + 1 == |fs| ==> fs[..i + 1] == fs && fs[i + 1..] == []
  {
  }

  lemma NotYetComplete(fs: seq<string>, n: nat)
    requires AllClear(fs) && n < |fs| && forall j :: 1 <= j < |fs| - 1 ==> !StartsTrailer(fs[j])
    ensures !Complete(Join(fs[..n]))
  {
    hide Join, StartsTrailer, Clear;
    if Complete(Join(fs[..n])) { TrailerIsAField(fs[..n]); }
  }

  lemma Regroup3(f: string, later: string, rest: string)
    ensures f + [SOH] + later + rest == f + [SOH] + (later + rest)
  {
  }

  lemma Regroup2(before: string, f: string)
    ensures before + f + [SOH] == before + (f + [SOH])
  {
  }

  lemma NoneLeft(rest: string)
    ensures Join([]) + rest == rest
  {
  }

  lemma GatherOne(sofar: string, f: string, after: string)
    requires Clear(f)
    ensures var next := sofar + (f + [SOH]);
            Gather(sofar, f + [SOH] + after) == if Complete(next) then Cut(next, after) else Gather(next, after)
  {
    ChunkOfField(f, after);
    hide Chunk, Complete;
  }

  /** Where the checksum pattern is once the last field has been read. */
  lemma LastFieldCompletes(init: seq<string>, f: string)
    requires init != [] && StartsTrailer(f)
    ensures Complete(Join(init + [f]))
  {
    JoinEnds(init);
    JoinSnoc(init, f);
    hide Join;
    var j := Join(init);
    var all, p := Join(init + [f]), |j| - 1;
    assert all[p..p + 4] == [j[p]] + f[..3];
    assert At(all, TRAILER, p);
  }

  /** The framing loop takes a built message, and nothing more, off the front of any stream. */
  lemma FrameOfMessage(fields: Fields, order: seq<int>, rest: string)
    requires IsOrder(order, fields) && TagsFit(fields) && ValuesClear(fields)
    ensures Frame(Message(fields, order) + rest) == Cut(Message(fields, order), rest)
  {
    hide Message, AllFields, Rest, Frame, Join, AllClear, StartsTrailer, TagsFit, ValuesClear;
    var fs := AllFields(fields, order);
    MessageIsJoin(fields, order);
    AllFieldsClear(fields, order);
    RestHasNoTrailer(fields, order);
    FieldsHaveOneTrailer(fields, order);
    FrameOfFields(fs, rest);
  }

  lemma FrameOfFields(fs: seq<string>, rest: string)
    requires AllClear(fs) && |fs| >= 2 && StartsTrailer(fs[|fs| - 1])
    requires forall j :: 1 <= j < |fs| - 1 ==> !StartsTrailer(fs[j])
    ensures Frame(Join(fs) + rest) == Cut(Join(fs), rest)
  {
    hide Join, StartsTrailer, Frame, Gather;
    FrameStarts(fs[0], Join(fs[1..]) + rest);
    FirstField(fs, rest);
    GatherFields(fs, 1, rest);
  }

  lemma FrameStarts(f: string, after: string)
    requires Clear(f)
    ensures Frame(f + [SOH] + after) == Gather(f + [SOH], after)
  {
    hide Gather, Chunk;
    ChunkOfField(f, after);
  }

  lemma FirstField(fs: seq<string>, rest: string)
    requires fs != []
    ensures Join(fs[..1]) == fs[0] + [SOH]
    ensures Join(fs) + rest == fs[0] + [SOH] + (Join(fs[1..]) + rest)
  {
    assert fs == [fs[0]] + fs[1..] && fs[..1] == [] + [fs[0]];
    JoinSnoc([], fs[0]);
    JoinCons(fs[0], fs[1..]);
    hide Join;
    Regroup3(fs[0], Join(fs[1..]), rest);
  }

  lemma FieldsHaveOneTrailer(fields: Fields, order: seq<int>)
    requires IsOrder(order, fields) && TagsFit(fields)
    requires forall i :: 0 <= i < |Rest(fields, order)| ==> !StartsTrailer(Rest(fields, order)[i])
    ensures var fs := AllFields(fields, order);
            |fs| >= 2 && StartsTrailer(fs[|fs| - 1]) && forall j :: 1 <= j < |fs| - 1 ==> !StartsTrailer(fs[j])
  {
    SmallTags();
    var body := Body(fields, order);
    var last := Pad3(Checksum(Head(fields, |body|) + body));
    FieldStart(10, last);
    FieldStart(9, Itoa(|body|));
    FieldStart(35, Get(fields, 35));
    OtherStart(Field(9, Itoa(|body|)));
    OtherStart(Field(35, Get(fields, 35)));
    hide StartsTrailer, Field, Rest, Get, Itoa, Pad3, Checksum, Head, Body;
    OnlyTheLast(Field(8, Get(fields, 8)), Field(9, Itoa(|body|)), Field(35, Get(fields, 35)), Rest(fields, order),
        Field(10, last));
  }

  lemma FieldStart(tag: int, val: string)
    requires tag == 9 || tag == 10 || tag == 35
    ensures Field(tag, val) != []
    ensures if tag == 10 then StartsTrailer(Field(tag, val)) else Field(tag, val)[0] != '1'
  {
    SmallTags();
    hide Itoa;
    if tag == 10 { assert ("10" + "=" + val)[..3] == "10="; }
  }

  lemma OnlyTheLast(a: string, b: string, c: string, rest: seq<string>, last: string)
    requires !StartsTrailer(b) && !StartsTrailer(c) && StartsTrailer(last)
    requires forall i :: 0 <= i < |rest| ==> !StartsTrailer(rest[i])
    ensures var fs := [a, b, c] + rest + [last];
            |fs| >= 2 && StartsTrailer(fs[|fs| - 1]) && forall j :: 1 <= j < |fs| - 1 ==> !StartsTrailer(fs[j])
  {
    hide StartsTrailer;
    var fs := [a, b, c] + rest + [last];
    forall j | 1 <= j < |fs| - 1 ensures !StartsTrailer(fs[j]) {
      if j >= 3 { assert fs[j] == rest[j - 3]; }
    }
  }

  lemma OtherStart(f: string)
    requires f != [] && f[0] != '1'
    ensures !StartsTrailer(f)
  {
    assert |f| >= 3 ==> f[..3][0] == f[0];
  }

  datatype Outgoing = Outgoing(fields: Fields, order: seq<int>)

  ghost predicate Sendable(m: Outgoing) { IsOrder(m.order, m.fields) && TagsFit(m.fields) && ValuesClear(m.fields) }

  function Concat(msgs: seq<string>): string { if msgs == [] then "" else msgs[0] + Concat(msgs[1..]) }

  /** Any concatenation of built messages is cut back into exactly those messages. */
  lemma {:induction false} FramesOfConcat(ms: seq<Outgoing>, msgs: seq<string>)
    requires |ms| == |msgs|
    requires forall i :: 0 <= i < |ms| ==> Sendable(ms[i]) && msgs[i] == Message(ms[i].fields, ms[i].order)
    ensures Frames(Concat(msgs)) == msgs
  {
    if ms != [] {
      hide Message, Frame, ValuesClear, TagsFit;
      FrameOfMessage(ms[0].fields, ms[0].order, Concat(msgs[1..]));
      FramesOfConcat(ms[1..], msgs[1..]);
      assert msgs == [msgs[0]] + msgs[1..];
    }
  }
}
