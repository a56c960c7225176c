// Reading apiVersion and kind from a Kubernetes protobuf object
// (e2e/pkg/debug/protobuf.go). Wire format: "Base 128 Varints" and "Message Structure" of the
// Protocol Buffers Encoding document.
module Protobuf {
  import opened Text

  type Byte = b: int | 0 <= b < 256

  const TWO64 := 0x1_0000_0000_0000_0000

  // ---------------------------------------------------------------------------
  // Bitwise or of natural numbers
  // ---------------------------------------------------------------------------

  function Or(a: nat, b: nat): nat {
    if a == 0 && b == 0 then 0
    else (if a % 2 == 1 || b % 2 == 1 then 1 else 0) + 2 * Or(a / 2, b / 2)
  }

  function Pow2(k: nat): (p: nat)
    ensures p > 0
  {
    if k == 0 then 1 else 2 * Pow2(k - 1)
  }

  lemma {:induction false} OrZero(b: nat)
    ensures Or(0, b) == b
  {
    if b != 0 {
      OrZero(b / 2);
    }
  }

  /** Numbers without a common bit are combined by adding them. */
  lemma {:induction false} OrDisjoint(a: nat, m: nat, k: nat)
    requires a < Pow2(k)
    ensures Or(a, m * Pow2(k)) == a + m * Pow2(k)
  {
    if k == 0 {
      OrZero(m);
    } else {
      var p := Pow2(k - 1);
      Doubled(m, p);
      OrDisjoint(a / 2, m, k - 1);
    }
  }

  lemma Doubled(m: nat, p: nat)
    ensures m * (2 * p) == 2 * (m * p) && (m * (2 * p)) / 2 == m * p && (m * (2 * p)) % 2 == 0
  {
    assert m * (2 * p) == 2 * (m * p);
  }

  // ---------------------------------------------------------------------------
  // Varints
  // ---------------------------------------------------------------------------

  /** 128 to the i, as the shift by 7 i bits. */
  function Weight(i: nat): nat { Pow2(7 * i) }

  lemma WeightStep(i: nat)
    ensures Weight(i + 1) == 128 * Weight(i)
  {
    var k := 7 * i;
    assert Pow2(k + 7) == 2 * Pow2(k + 6);
    assert Pow2(k + 6) == 2 * Pow2(k + 5);
    assert Pow2(k + 5) == 2 * Pow2(k + 4);
    assert Pow2(k + 4) == 2 * Pow2(k + 3);
    assert Pow2(k + 3) == 2 * Pow2(k + 2);
    assert Pow2(k + 2) == 2 * Pow2(k + 1);
    assert Pow2(k + 1) == 2 * Pow2(k);
  }

  /** The decoder's accumulator after one more byte. */
  function Accumulate(value: nat, b: Byte, i: nat): nat {
    Or(value, (b % 128) * Weight(i) % TWO64)
  }

  /** The value, and the index behind its last byte. */
  function VarintFrom(data: seq<Byte>, i: nat, value: nat): (r: Option<(nat, nat)>)
    ensures r.Some? ==> i < r.value.1 <= |data|
    decreases |data| - i
  {
    if i >= |data| || i >= 10 then None
    else
      var value' := Accumulate(value, data[i], i);
      if data[i] < 128 then Some((value', i + 1)) else VarintFrom(data, i + 1, value')
  }

  function Varint(data: seq<Byte>): (r: Option<(nat, nat)>)
    ensures r.Some? ==> 0 < r.value.1 <= |data|
  {
    VarintFrom(data, 0, 0)
  }

  function EncodeVarint(v: nat): (s: seq<Byte>)
    ensures s != []
  {
    if v < 128 then [v] else [128 + v % 128] + EncodeVarint(v / 128)
  }

  lemma {:induction false} WeightMonotone(i: nat, j: nat)
    requires i <= j
    ensures Weight(i) <= Weight(j)
    decreases j
  {
    if i < j {
      WeightMonotone(i, j - 1);
      WeightStep(j - 1);
      assert Weight(j - 1) > 0;
    }
  }

  lemma WeightTen()
    ensures Weight(9) == 0x8000_0000_0000_0000 && Weight(10) > TWO64
  {
    WeightStep(0);
    WeightStep(1);
    WeightStep(2);
    WeightStep(3);
    WeightStep(4);
    WeightStep(5);
    WeightStep(6);
    WeightStep(7);
    WeightStep(8);
    WeightStep(9);
  }

  /** Digits that stay below 64 bits are added to the accumulator. */
  lemma AccumulateAdds(acc: nat, b: Byte, i: nat)
    requires acc < Weight(i) && (b % 128) * Weight(i) < TWO64
    ensures Accumulate(acc, b, i) == acc + (b % 128) * Weight(i) < Weight(i + 1)
  {
    hide Or;
    OrDisjoint(acc, b % 128, 7 * i);
    WeightStep(i);
    Digit(acc, b % 128, Weight(i));
  }

  lemma Digit(acc: nat, d: nat, w: nat)
    requires acc < w && d < 128
    ensures acc + d * w < 128 * w
  {
    assert d * w <= 127 * w;
  }

  /** The encoding of `v` behind `i` bytes already read. */
  lemma {:induction false} VarintReads(data: seq<Byte>, i: nat, acc: nat, v: nat, suffix: seq<Byte>)
    requires i <= |data| && data[i..] == EncodeVarint(v) + suffix
    requires acc < Weight(i) && v * Weight(i) + acc < TWO64 && (i > 0 ==> v > 0)
    ensures VarintFrom(data, i, acc) == Some((acc + v * Weight(i), i + |EncodeVarint(v)|))
    decreases v
  {
    hide Accumulate, Weight;
    BoundedIndex(i, v);
    var b := data[i];
    assert b == (EncodeVarint(v) + suffix)[0];
    var w := Weight(i);
    var d := v % 128;
    assert b % 128 == d;
    DigitFits(v, w);
    AccumulateAdds(acc, b, i);
    if v >= 128 {
      WeightStep(i);
      Carry(v, w);
      assert data[i + 1..] == EncodeVarint(v / 128) + suffix by {
        assert data[i + 1..] == data[i..][1..];
      }
      VarintReads(data, i + 1, acc + d * w, v / 128, suffix);
    }
  }

  lemma BoundedIndex(i: nat, v: nat)
    requires v * Weight(i) < TWO64 && (i > 0 ==> v > 0)
    ensures i < 10
  {
    hide Weight;
    if i >= 10 {
      WeightTen();
      WeightMonotone(10, i);
      AtLeastOnce(v, Weight(i));
    }
  }

  lemma AtLeastOnce(v: nat, w: nat)
    requires v > 0
    ensures w <= v * w
  {
  }

  lemma DigitFits(v: nat, w: nat)
    requires v * w < TWO64
    ensures (v % 128) * w < TWO64
  {
    assert v % 128 <= v;
    assert (v % 128) * w <= v * w;
  }

  lemma Carry(v: nat, w: nat)
    ensures v * w == (v % 128) * w + (v / 128) * (128 * w)
  {
    assert v == v % 128 + (v / 128) * 128;
    assert v * w == (v % 128) * w + ((v / 128) * 128) * w;
    assert ((v / 128) * 128) * w == (v / 128) * (128 * w);
  }

  /** Decoding inverts encoding for every 64-bit value, whatever follows it. */
  lemma VarintRoundTrip(v: nat, suffix: seq<Byte>)
    requires v < TWO64
    ensures Varint(EncodeVarint(v) + suffix) == Some((v, |EncodeVarint(v)|))
  {
    hide VarintFrom, EncodeVarint;
    var data := EncodeVarint(v) + suffix;
    assert data[0..] == data;
    assert Weight(0) == 1;
    VarintReads(data, 0, 0, v, suffix);
  }

  /** A varint is read iff one of the first ten bytes ends it; that byte is then the last one read. */
  lemma {:induction false} VarintReadIff(data: seq<Byte>, i: nat, value: nat)
    ensures VarintFrom(data, i, value).Some? <==> exists k :: i <= k < |data| && k < 10 && data[k] < 128
    ensures VarintFrom(data, i, value).Some? ==>
              var n := VarintFrom(data, i, value).value.1;
              n <= 10 && data[n - 1] < 128 && forall k :: i <= k < n - 1 ==> data[k] >= 128
    decreases |data| - i
  {
    hide Accumulate;
    if i < |data| && i < 10 && data[i] >= 128 {
      VarintReadIff(data, i + 1, Accumulate(value, data[i], i));
    }
  }

  /** The base-128 number in the low seven bits of the first `n` bytes. */
  ghost function Base128(data: seq<Byte>, n: nat): nat
    requires n <= |data|
  {
    if n == 0 then 0 else Base128(data, n - 1) + (data[n - 1] % 128) * Weight(n - 1)
  }

  lemma AccumulateWraps(acc: nat, b: Byte, i: nat)
    requires acc < Weight(i) && i < 10
    ensures Accumulate(acc, b, i) == (acc + (b % 128) * Weight(i)) % TWO64
    ensures i < 9 ==> Accumulate(acc, b, i) == acc + (b % 128) * Weight(i) < Weight(i + 1)
  {
    hide Accumulate, Weight;
    WeightTen();
    if i < 9 {
      WeightMonotone(i + 1, 9);
      WeightStep(i);
      Digit(acc, b % 128, Weight(i));
      AccumulateAdds(acc, b, i);
    } else {
      LastDigit(acc, b);
    }
  }

  lemma LastDigit(acc: nat, b: Byte)
    requires acc < Weight(9)
    ensures Accumulate(acc, b, 9) == (acc + (b % 128) * Weight(9)) % TWO64
  {
    hide Or, Weight;
    WeightTen();
    var d := b % 128;
    assert d * Weight(9) == (d % 2) * Weight(9) + (d / 2) * TWO64;
    assert d * Weight(9) % TWO64 == (d % 2) * Weight(9);
    WeightIsPow(9);
    OrDisjoint(acc, d % 2, 63);
  }

  lemma WeightIsPow(i: nat)
    ensures Weight(i) == Pow2(7 * i)
  {
  }

  /** Any bytes that decode stand for their base-128 value modulo 2^64, padded encodings included. */
  lemma {:induction false} VarintMeans(data: seq<Byte>, i: nat, acc: nat)
    requires i <= |data| && acc == Base128(data, i) < Weight(i)
    ensures VarintFrom(data, i, acc).Some? ==>
              var (v, n) := VarintFrom(data, i, acc).value; v == Base128(data, n) % TWO64
    decreases |data| - i
  {
    hide Accumulate, Weight;
    if i < |data| && i < 10 {
      AccumulateWraps(acc, data[i], i);
      if data[i] >= 128 && i < 9 {
        VarintMeans(data, i + 1, Accumulate(acc, data[i], i));
      }
    }
  }

  method DecodeVarint(data: seq<Byte>) returns (value: nat, n: nat)
    ensures match Varint(data)
            case None => value == 0 && n == 0
            case Some(r) => value == r.0 && n == r.1
    ensures n <= |data| && value < TWO64
  {
    hide Accumulate;
    value := 0;
    VarintMeans(data, 0, 0);
    for i := 0 to |data|
      invariant i <= 10
      invariant VarintFrom(data, i, value) == Varint(data)
    {
      if i >= 10 {
        return 0, 0;
      }
      value := Accumulate(value, data[i], i);
      if data[i] < 128 {
        return value, i + 1;
      }
    }
    return 0, 0;
  }

  // ---------------------------------------------------------------------------
  // Fields
  // ---------------------------------------------------------------------------

  const MAGIC: seq<Byte> := [0x6B, 0x38, 0x73, 0]

  /** A slice bound of 2^63 or more passes the length check as a negative int and then panics. */
  datatype Outcome = Meta(apiVersion: seq<Byte>, kind: seq<Byte>) | Panic

  datatype Step = Stop | Panics | Skip(rest: seq<Byte>) | Payload(num: nat, bytes: seq<Byte>, rest: seq<Byte>)

  function Delimited(num: nat, data: seq<Byte>): (s: Step)
    ensures s.Payload? ==> |s.rest| < |data|
    ensures !s.Skip?
  {
    match Varint(data)
    case None => Stop
    case Some(l) =>
      if l.0 > MAX_INT64 then Panics
      else if l.0 > |data| - l.1 then Stop
      else Payload(num, data[l.1..l.1 + l.0], data[l.1 + l.0..])
  }

  function Fixed(data: seq<Byte>, n: nat): (s: Step)
    ensures s.Stop? || (s.Skip? && |s.rest| <= |data|)
  {
    if |data| < n then Stop else Skip(data[n..])
  }

  /** One field: what the loops do behind a tag. */
  function Body(tag: nat, data: seq<Byte>): (s: Step)
    ensures s.Skip? || s.Payload? ==> |s.rest| <= |data|
  {
    match tag % 8
    case 2 => Delimited(tag / 8, data)
    case 0 =>
      (match Varint(data)
       case None => Stop
       case Some(v) => Skip(data[v.1..]))
    case 1 => Fixed(data, 8)
    case 5 => Fixed(data, 4)
    case _ => Stop
  }

  /** A step that does not stop consumes at least one byte. */
  function Next(data: seq<Byte>): (s: Step)
    ensures s.Skip? || s.Payload? ==> |s.rest| < |data|
  {
    match Varint(data)
    case None => Stop
    case Some(t) => Body(t.0, data[t.1..])
  }

  function TypeMeta(data: seq<Byte>, apiVersion: seq<Byte>, kind: seq<Byte>): Outcome
    decreases |data|
  {
    match Next(data)
    case Stop => Meta(apiVersion, kind)
    case Panics => Panic
    case Skip(rest) => TypeMeta(rest, apiVersion, kind)
    case Payload(num, bytes, rest) =>
      TypeMeta(rest, if num == 1 then bytes else apiVersion, if num == 2 then bytes else kind)
  }

  function Scan(data: seq<Byte>): Outcome
    decreases |data|
  {
    match Next(data)
    case Stop => Meta([], [])
    case Panics => Panic
    case Skip(rest) => Scan(rest)
    case Payload(num, bytes, rest) => if num == 1 then TypeMeta(bytes, [], []) else Scan(rest)
  }

  function Extract(data: seq<Byte>): Outcome {
    if MAGIC <= data then Scan(data[4..]) else Meta([], [])
  }

  lemma NextOfNothing()
    ensures Next([]) == Stop
  {
  }

  /** The conversion of an unsigned length to int. */
  function Signed(length: nat): int { if length > MAX_INT64 then length - TWO64 else length }

  /** The cases of a tag that are not length-delimited, shared by both loops. */
  method SkipField(wireType: nat, input: seq<Byte>) returns (stop: bool, data: seq<Byte>)
    requires wireType != 2
    ensures forall tag :: tag >= 0 && tag % 8 == wireType ==>
              Body(tag, input) == if stop then Stop else Skip(data)
    ensures |data| <= |input|
  {
    hide Varint;
    data := input;
    match wireType {
      case 0 =>
        var _, vn := DecodeVarint(data);
        if vn == 0 {
          return true, data;
        }
        data := data[vn..];
      case 1 =>
        if |data| < 8 {
          return true, data;
        }
        data := data[8..];
      case 5 =>
        if |data| < 4 {
          return true, data;
        }
        data := data[4..];
      case _ =>
        return true, data;
    }
    stop := false;
  }

  method ParseProtoTypeMeta(input: seq<Byte>) returns (r: Outcome)
    requires |input| <= MAX_INT64   // what a slice can hold
    ensures r == TypeMeta(input, [], [])
  {
    hide Varint, Body;
    var data := input;
    var apiVersion: seq<Byte>, kind: seq<Byte> := [], [];
    while |data| > 0
      invariant |data| <= MAX_INT64
      invariant TypeMeta(data, apiVersion, kind) == TypeMeta(input, [], [])
      decreases |data|
    {
      var tag, n := DecodeVarint(data);
      if n == 0 {
        return Meta(apiVersion, kind);
      }
      data := data[n..];
      if tag % 8 != 2 {
        var stop, rest := SkipField(tag % 8, data);
        if stop {
          return Meta(apiVersion, kind);
        }
        data := rest;
      } else {
        DelimitedBody(tag, data);
        var length, ln := DecodeVarint(data);
        if ln == 0 || Signed(length) > |data| - ln {
          return Meta(apiVersion, kind);
        }
        data := data[ln..];
        if length > |data| {
          return Panic;
        }
        match tag / 8 {
          case 1 => apiVersion := data[..length];
          case 2 => kind := data[..length];
          case _ =>
        }
        data := data[length..];
      }
    }
    NextOfNothing();
    assert data == [];
    return Meta(apiVersion, kind);
  }

  lemma DelimitedBody(tag: nat, data: seq<Byte>)
    requires tag % 8 == 2
    ensures Body(tag, data) == Delimited(tag / 8, data)
    ensures match Varint(data)
            case None => Delimited(tag / 8, data) == Stop
            case Some(l) =>
              && (l.0 <= |data| - l.1 && l.0 <= MAX_INT64 ==>
                    Delimited(tag / 8, data) == Payload(tag / 8, data[l.1..][..l.0], data[l.1..][l.0..]))
  {
    hide Varint;
    if Varint(data).Some? {
      var l := Varint(data).value;
      if l.0 <= |data| - l.1 {
        assert data[l.1..][..l.0] == data[l.1..l.1 + l.0];
        assert data[l.1..][l.0..] == data[l.1 + l.0..];
      }
    }
  }

  method ExtractK8sProtobufMeta(input: seq<Byte>) returns (r: Outcome)
    requires |input| <= MAX_INT64   // what a slice can hold
    ensures r == Extract(input)
  {
    hide Varint, Body, TypeMeta;
    if |input| < 4 || input[..4] != MAGIC {
      return Meta([], []);
    }
    var data := input[4..];
    while |data| > 0
      invariant |data| <= MAX_INT64
      invariant Scan(data) == Scan(input[4..])
      decreases |data|
    {
      var tag, n := DecodeVarint(data);
      if n == 0 {
        return Meta([], []);
      }
      data := data[n..];
      if tag % 8 == 2 {
        DelimitedBody(tag, data);
        var length, ln := DecodeVarint(data);
        if ln == 0 || Signed(length) > |data| - ln {
          return Meta([], []);
        }
        data := data[ln..];
        if length > |data| {
          return Panic;
        }
        if tag / 8 == 1 {
          r := ParseProtoTypeMeta(data[..length]);
          return;
        }
        data := data[length..];
      } else {
        var stop, rest := SkipField(tag % 8, data);
        if stop {
          return Meta([], []);
        }
        data := rest;
      }
    }
    NextOfNothing();
    assert data == [];
    return Meta([], []);
  }

  // ---------------------------------------------------------------------------
  // Messages
  // ---------------------------------------------------------------------------

  datatype Field =
    | VarintField(num: nat, value: nat)
    | Fixed64Field(num: nat, bytes: seq<Byte>)
    | BytesField(num: nat, bytes: seq<Byte>)
    | Fixed32Field(num: nat, bytes: seq<Byte>)

  /** Field numbers and values of 64-bit tags and varints; payloads of any length a slice can have. */
  predicate FieldOk(f: Field) {
    && f.num * 8 + 7 < TWO64
    && match f
       case VarintField(_, value) => value < TWO64
       case Fixed64Field(_, bytes) => |bytes| == 8
       case BytesField(_, bytes) => |bytes| <= MAX_INT64
       case Fixed32Field(_, bytes) => |bytes| == 4
  }

  function WireType(f: Field): nat {
    match f
    case VarintField(_, _) => 0
    case Fixed64Field(_, _) => 1
    case BytesField(_, _) => 2
    case Fixed32Field(_, _) => 5
  }

  function BodyBytes(f: Field): seq<Byte> {
    match f
    case VarintField(_, value) => EncodeVarint(value)
    case Fixed64Field(_, bytes) => bytes
    case BytesField(_, bytes) => EncodeVarint(|bytes|) + bytes
    case Fixed32Field(_, bytes) => bytes
  }

  function FieldBytes(f: Field): seq<Byte> { EncodeVarint(f.num * 8 + WireType(f)) + BodyBytes(f) }

  function MessageBytes(fs: seq<Field>): seq<Byte> {
    if fs == [] then [] else FieldBytes(fs[0]) + MessageBytes(fs[1..])
  }

  ghost predicate MessageOk(fs: seq<Field>) { forall i :: 0 <= i < |fs| ==> FieldOk(fs[i]) }

  /** The last payload of the given field, or `start` when there is none. */
  function LastOf(fs: seq<Field>, num: nat, start: seq<Byte>): seq<Byte>
    decreases |fs|
  {
    if fs == [] then start
    else LastOf(fs[1..], num, if fs[0].BytesField? && fs[0].num == num then fs[0].bytes else start)
  }

  lemma BodyReads(f: Field, rest: seq<Byte>)
    requires FieldOk(f)
    ensures Body(f.num * 8 + WireType(f), BodyBytes(f) + rest)
         == if f.BytesField? then Payload(f.num, f.bytes, rest) else Skip(rest)
  {
    hide Varint, EncodeVarint;
    var data := BodyBytes(f) + rest;
    assert (f.num * 8 + WireType(f)) % 8 == WireType(f) && (f.num * 8 + WireType(f)) / 8 == f.num;
    match f
    case VarintField(_, value) =>
      VarintRoundTrip(value, rest);
      assert data[|EncodeVarint(value)|..] == rest;
    case BytesField(_, bytes) =>
      var head := EncodeVarint(|bytes|);
      Assoc(head, bytes, rest);
      VarintRoundTrip(|bytes|, bytes + rest);
      assert data[|head|..|head| + |bytes|] == bytes && data[|head| + |bytes|..] == rest;
    case Fixed64Field(_, bytes) =>
      assert data[8..] == rest;
    case Fixed32Field(_, bytes) =>
      assert data[4..] == rest;
  }

  lemma FieldReads(f: Field, rest: seq<Byte>)
    requires FieldOk(f)
    ensures Next(FieldBytes(f) + rest) == if f.BytesField? then Payload(f.num, f.bytes, rest) else Skip(rest)
  {
    hide Varint, EncodeVarint, Body, BodyBytes;
    var tag := f.num * 8 + WireType(f);
    var head := EncodeVarint(tag);
    Assoc(head, BodyBytes(f), rest);
    VarintRoundTrip(tag, BodyBytes(f) + rest);
    assert (head + (BodyBytes(f) + rest))[|head|..] == BodyBytes(f) + rest;
    BodyReads(f, rest);
  }

  lemma {:induction false} TypeMetaTakes(fs: seq<Field>, rest: seq<Byte>, apiVersion: seq<Byte>, kind: seq<Byte>)
    requires MessageOk(fs)
    ensures TypeMeta(MessageBytes(fs) + rest, apiVersion, kind)
         == TypeMeta(rest, LastOf(fs, 1, apiVersion), LastOf(fs, 2, kind))
    decreases |fs|
  {
    hide Next, FieldBytes, FieldOk;
    if fs == [] {
      assert [] + rest == rest;
    } else {
      Assoc(FieldBytes(fs[0]), MessageBytes(fs[1..]), rest);
      FieldReads(fs[0], MessageBytes(fs[1..]) + rest);
      var a := if fs[0].BytesField? && fs[0].num == 1 then fs[0].bytes else apiVersion;
      var k := if fs[0].BytesField? && fs[0].num == 2 then fs[0].bytes else kind;
      TypeMetaTakes(fs[1..], rest, a, k);
    }
  }

  lemma TypeMetaReads(fs: seq<Field>, apiVersion: seq<Byte>, kind: seq<Byte>)
    requires MessageOk(fs)
    ensures TypeMeta(MessageBytes(fs), apiVersion, kind) == Meta(LastOf(fs, 1, apiVersion), LastOf(fs, 2, kind))
  {
    hide MessageBytes, LastOf, Next;
    assert MessageBytes(fs) + [] == MessageBytes(fs);
    TypeMetaTakes(fs, [], apiVersion, kind);
    NextOfNothing();
  }

  lemma {:induction false} ScanSkips(fs: seq<Field>, rest: seq<Byte>)
    requires MessageOk(fs) && forall i :: 0 <= i < |fs| ==> !(fs[i].BytesField? && fs[i].num == 1)
    ensures Scan(MessageBytes(fs) + rest) == Scan(rest)
    decreases |fs|
  {
    hide Next, FieldBytes, FieldOk, TypeMeta;
    if fs == [] {
      assert [] + rest == rest;
    } else {
      Assoc(FieldBytes(fs[0]), MessageBytes(fs[1..]), rest);
      FieldReads(fs[0], MessageBytes(fs[1..]) + rest);
      ScanSkips(fs[1..], rest);
    }
  }

  /**
   * In a well-formed object, fields before the first length-delimited field 1 are skipped and that
   * field's last apiVersion and last kind are returned; nothing behind it matters.
   */
  lemma ExtractReads(before: seq<Field>, meta: Field, inner: seq<Field>, rest: seq<Byte>)
    requires MessageOk(before) && forall i :: 0 <= i < |before| ==> !(before[i].BytesField? && before[i].num == 1)
    requires FieldOk(meta) && meta == BytesField(1, MessageBytes(inner)) && MessageOk(inner)
    ensures Extract([0x6B, 0x38, 0x73, 0] + (MessageBytes(before) + (FieldBytes(meta) + rest)))
         == Meta(LastOf(inner, 1, []), LastOf(inner, 2, []))
  {
    hide Next, FieldBytes, MessageBytes, TypeMeta, LastOf;
    var body := MessageBytes(before) + (FieldBytes(meta) + rest);
    assert (MAGIC + body)[4..] == body && (MAGIC + body)[..4] == MAGIC;
    ScanSkips(before, FieldBytes(meta) + rest);
    FieldReads(meta, rest);
    TypeMetaReads(inner, [], []);
  }

  /** Data that does not start with "k8s" and a zero byte is no such object. */
  lemma ExtractNeedsMagic(data: seq<Byte>)
    requires !([0x6B, 0x38, 0x73, 0] <= data)
    ensures Extract(data) == Meta([], [])
  {
  }

  /** Without such a field nothing is returned. */
  lemma ExtractFindsNothing(fs: seq<Field>)
    requires MessageOk(fs) && forall i :: 0 <= i < |fs| ==> !(fs[i].BytesField? && fs[i].num == 1)
    ensures Extract([0x6B, 0x38, 0x73, 0] + MessageBytes(fs)) == Meta([], [])
  {
    hide FieldBytes, TypeMeta;
    var body := MessageBytes(fs);
    assert (MAGIC + body)[4..] == body && (MAGIC + body)[..4] == MAGIC;
    assert body + [] == body;
    ScanSkips(fs, []);
    NextOfNothing();
  }

  /** The tag and length of a length-delimited field, and what is there of its payload. */
  function PrefixBytes(num: nat, length: nat, rest: seq<Byte>): seq<Byte> {
    EncodeVarint(num * 8 + 2) + (EncodeVarint(length) + rest)
  }

  lemma OverrunStep(num: nat, length: nat, rest: seq<Byte>)
    requires num * 8 + 7 < TWO64 && |rest| < length < TWO64
    ensures Next(PrefixBytes(num, length, rest)) == if length <= MAX_INT64 then Stop else Panics
  {
    hide Varint, EncodeVarint;
    var inner := EncodeVarint(length) + rest;
    VarintRoundTrip(num * 8 + 2, inner);
    assert PrefixBytes(num, length, rest)[|EncodeVarint(num * 8 + 2)|..] == inner;
    VarintRoundTrip(length, rest);
  }

  /** A length prefix that overruns the data ends the scan quietly iff it is below 2^63. */
  lemma OverrunIsQuietIff(before: seq<Field>, num: nat, length: nat, rest: seq<Byte>)
    requires MessageOk(before) && forall i :: 0 <= i < |before| ==> !(before[i].BytesField? && before[i].num == 1)
    requires num * 8 + 7 < TWO64 && |rest| < length < TWO64
    ensures Extract([0x6B, 0x38, 0x73, 0] + (MessageBytes(before) + PrefixBytes(num, length, rest)))
         == if length <= MAX_INT64 then Meta([], []) else Panic
  {
    hide Next, PrefixBytes, MessageBytes, TypeMeta;
    var body := MessageBytes(before) + PrefixBytes(num, length, rest);
    assert (MAGIC + body)[4..] == body && (MAGIC + body)[..4] == MAGIC;
    ScanSkips(before, PrefixBytes(num, length, rest));
    OverrunStep(num, length, rest);
  }

  /** So does one inside the TypeMeta, which then gives what was read so far. */
  lemma InnerOverrunIsQuietIff(
    inner: seq<Field>, num: nat, length: nat, rest: seq<Byte>, apiVersion: seq<Byte>, kind: seq<Byte>)
    requires MessageOk(inner) && num * 8 + 7 < TWO64 && |rest| < length < TWO64
    ensures TypeMeta(MessageBytes(inner) + PrefixBytes(num, length, rest), apiVersion, kind)
         == if length <= MAX_INT64 then Meta(LastOf(inner, 1, apiVersion), LastOf(inner, 2, kind)) else Panic
  {
    hide Next, PrefixBytes, MessageBytes, LastOf;
    TypeMetaTakes(inner, PrefixBytes(num, length, rest), apiVersion, kind);
    OverrunStep(num, length, rest);
  }

  /** Seen from outside: all lengths of the object fit, and one inside its field 1 does not. */
  lemma ExtractInnerOverrunIff(before: seq<Field>, meta: Field, inner: seq<Field>, num: nat, length: nat,
                               rest: seq<Byte>, behind: seq<Byte>)
    requires MessageOk(before) && forall i :: 0 <= i < |before| ==> !(before[i].BytesField? && before[i].num == 1)
    requires MessageOk(inner) && num * 8 + 7 < TWO64 && |rest| < length < TWO64
    requires FieldOk(meta) && meta == BytesField(1, MessageBytes(inner) + PrefixBytes(num, length, rest))
    ensures Extract([0x6B, 0x38, 0x73, 0] + (MessageBytes(before) + (FieldBytes(meta) + behind)))
         == if length <= MAX_INT64 then Meta(LastOf(inner, 1, []), LastOf(inner, 2, [])) else Panic
  {
    hide Next, PrefixBytes, FieldBytes, MessageBytes, TypeMeta, LastOf;
    var body := MessageBytes(before) + (FieldBytes(meta) + behind);
    assert (MAGIC + body)[4..] == body && (MAGIC + body)[..4] == MAGIC;
    ScanSkips(before, FieldBytes(meta) + behind);
    FieldReads(meta, behind);
    InnerOverrunIsQuietIff(inner, num, length, rest, [], []);
  }

  /** Such an object exists. */
  lemma HugeInnerLengthPanics()
    ensures var meta := BytesField(1, EncodeVarint(10) + EncodeVarint(0x8000_0000_0000_0000));
            FieldOk(meta) && Extract([0x6B, 0x38, 0x73, 0] + FieldBytes(meta)) == Panic
  {
    hide EncodeVarint, FieldBytes, Extract, Next;
    var length := 0x8000_0000_0000_0000;
    var meta := BytesField(1, EncodeVarint(10) + EncodeVarint(length));
    ShortVarint(10);
    ShortVarint(length);
    assert EncodeVarint(length) + [] == EncodeVarint(length) && [] + meta.bytes == meta.bytes;
    assert [] + (FieldBytes(meta) + []) == FieldBytes(meta);
    ExtractInnerOverrunIff([], meta, [], 1, length, [], []);
  }

  /** Ten bytes hold every 64-bit value. */
  lemma ShortVarint(v: nat)
    requires v < TWO64
    ensures |EncodeVarint(v)| <= 10
  {
    hide EncodeVarint, Accumulate;
    assert EncodeVarint(v) + [] == EncodeVarint(v);
    VarintRoundTrip(v, []);
    VarintReadIff(EncodeVarint(v), 0, 0);
  }
}
