/** The dependency-free protobuf codec of the Watchdog client
    (benchmarks/watchdog_client.py). Masks and shifts by seven bits are written as
    remainder and quotient by 128; `|=` of a shifted group adds disjoint bits. */
module Protobuf {

  type Byte = x: int | 0 <= x < 256

  datatype Error = Truncated | Oversized | FieldZero | WireType

  datatype Varint = Value(n: nat, next: nat) | Bad(error: Error)

  const TWO_70: nat := 0x40_0000_0000_0000_0000

  // ---------------------------------------------------------------- varints

  function EncodeVarint(n: nat): (bytes: seq<Byte>)
    ensures |bytes| >= 1
  {
    if n < 128 then [n] else [n % 128 + 128] + EncodeVarint(n / 128)
  }

  // The number that groups of seven bits denote, least significant first.
  function Base128(bytes: seq<Byte>): nat { if bytes == [] then 0 else bytes[0] % 128 + 128 * Base128(bytes[1..]) }

  // Every byte but the last has its continuation bit set.
  predicate Continued(bytes: seq<Byte>) {
    bytes != [] && bytes[|bytes| - 1] < 128 && forall i :: 0 <= i < |bytes| - 1 ==> bytes[i] >= 128
  }

  // The shortest little-endian base-128 form of the number.
  lemma {:induction false} VarintIsBase128(n: nat)
    ensures var bytes := EncodeVarint(n);
      Continued(bytes) && Base128(bytes) == n && (|bytes| > 1 ==> bytes[|bytes| - 1] > 0)
  {
    var bytes := EncodeVarint(n);
    if n < 128 {
      assert bytes == [n] && Base128([]) == 0;
    } else {
      VarintIsBase128(n / 128);
      var rest := EncodeVarint(n / 128);
      assert bytes[0] == n % 128 + 128 && bytes[1..] == rest;
      assert bytes[0] % 128 == n % 128;
      assert n == n % 128 + 128 * (n / 128);
      forall i | 0 <= i < |bytes| - 1 ensures bytes[i] >= 128 {
        if i > 0 { assert bytes[i] == rest[i - 1]; }
      }
      assert bytes[|bytes| - 1] == rest[|rest| - 1];
    }
  }

  method WriteVarint(n: nat) returns (output: seq<Byte>)
    ensures output == EncodeVarint(n)
  {
    output := [];
    var value := n;
    while value >= 0x80
      invariant output + EncodeVarint(value) == EncodeVarint(n)
    {
      output := output + [value % 128 + 128];
      value := value / 128;
    }
    output := output + [value];
  }

  // Shifts run over range(0, 64, 7).
  function GroupLimit(): nat { 10 }

  // Reads a varint of which at most `left` more groups are allowed.
  function ReadGroups(data: seq<Byte>, offset: nat, left: nat): (r: Varint)
    ensures r.Value? ==> offset < r.next <= |data|
    decreases left
  {
    if left == 0 then Bad(Oversized)
    else if offset >= |data| then Bad(Truncated)
    else if data[offset] < 128 then Value(data[offset], offset + 1)
    else match ReadGroups(data, offset + 1, left - 1)
      case Value(high, next) => Value(data[offset] - 128 + 128 * high, next)
      case Bad(e) => Bad(e)
  }

  function DecodeVarint(data: seq<Byte>, offset: nat): (r: Varint)
    ensures r.Value? ==> offset < r.next <= |data|
  {
    ReadGroups(data, offset, GroupLimit())
  }

  function Pow128(k: nat): nat { if k == 0 then 1 else 128 * Pow128(k - 1) }

  lemma LimitIs2To70()
    ensures Pow128(GroupLimit()) == TWO_70
  {
    assert Pow128(5) == 0x8_0000_0000;
    assert Pow128(10) == 128 * 128 * 128 * 128 * 128 * Pow128(5);
  }

  // The value read so far plus what the remaining groups contribute above it.
  function Continue(value: nat, k: nat, r: Varint): Varint {
    match r
    case Value(n, next) => Value(value + Pow128(k) * n, next)
    case Bad(e) => Bad(e)
  }

  lemma ContinueStep(data: seq<Byte>, offset: nat, left: nat, value: nat, k: nat)
    requires 0 < left && offset < |data|
    ensures var low := Pow128(k) * (data[offset] % 128);
      Continue(value, k, ReadGroups(data, offset, left)) ==
        if data[offset] < 128 then Value(value + low, offset + 1)
        else Continue(value + low, k + 1, ReadGroups(data, offset + 1, left - 1))
  {
    var p, low, rest := Pow128(k), data[offset] % 128, ReadGroups(data, offset + 1, left - 1);
    if data[offset] >= 128 && rest.Value? {
      assert p * (low + 128 * rest.n) == p * low + 128 * p * rest.n;
    }
  }

  method ReadVarint(data: seq<Byte>, start: nat) returns (r: Varint)
    ensures r == DecodeVarint(data, start)
  {
    var value: nat, offset: nat := 0, start;
    for k := 0 to GroupLimit()
      invariant DecodeVarint(data, start) == Continue(value, k, ReadGroups(data, offset, GroupLimit() - k))
    {
      if offset >= |data| {
        return Bad(Truncated);
      }
      var byte := data[offset];
      ContinueStep(data, offset, GroupLimit() - k, value, k);
      offset, value := offset + 1, value + Pow128(k) * (byte % 128);
      if byte < 128 {
        return Value(value, offset);
      }
    }
    return Bad(Oversized);
  }

  // The bytes of `part` stand in `data` at `offset`.
  predicate At(data: seq<Byte>, offset: nat, part: seq<Byte>) {
    offset + |part| <= |data| && data[offset..offset + |part|] == part
  }

  lemma AtSplit(data: seq<Byte>, offset: nat, a: seq<Byte>, b: seq<Byte>)
    requires At(data, offset, a + b)
    ensures At(data, offset, a) && At(data, offset + |a|, b)
  {
    var whole := data[offset..offset + |a + b|];
    assert data[offset..offset + |a|] == whole[..|a|] == a;
    assert data[offset + |a|..offset + |a| + |b|] == whole[|a|..] == b;
  }

  lemma {:induction false} GroupsRoundTrip(n: nat, data: seq<Byte>, offset: nat, left: nat)
    requires left > 0
    requires At(data, offset, EncodeVarint(n))
    ensures ReadGroups(data, offset, left)
         == if n < Pow128(left) then Value(n, offset + |EncodeVarint(n)|) else Bad(Oversized)
    decreases left
  {
    PowAtLeast(left);
    if n < 128 {
      assert data[offset..offset + 1][0] == n;
    } else {
      var rest := EncodeVarint(n / 128);
      AtSplit(data, offset, [n % 128 + 128], rest);
      assert data[offset] == data[offset..offset + 1][0];
      if left > 1 { GroupsRoundTrip(n / 128, data, offset + 1, left - 1); }
    }
  }

  lemma PowAtLeast(k: nat)
    requires k >= 1
    ensures Pow128(k) >= 128
  {
    if k > 1 { PowAtLeast(k - 1); }
  }

  // Decoding inverts encoding at any offset exactly for values below 2^70.
  lemma VarintRoundTrip(n: nat, data: seq<Byte>, offset: nat)
    requires At(data, offset, EncodeVarint(n))
    ensures DecodeVarint(data, offset)
         == if n < TWO_70 then Value(n, offset + |EncodeVarint(n)|) else Bad(Oversized)
  {
    GroupsRoundTrip(n, data, offset, GroupLimit());
    LimitIs2To70();
  }

  // ---------------------------------------------------------------- fields

  datatype Field = Uint(field: nat, value: nat) | Message(field: nat, body: seq<Byte>)

  datatype Fields = Ok(fields: seq<Field>) | Err(error: Error)

  function EncodeField(f: Field): (bytes: seq<Byte>)
    ensures |bytes| >= 1
  {
    match f
    case Uint(field, value) => EncodeVarint(field * 8) + EncodeVarint(value)
    case Message(field, body) => EncodeVarint(field * 8 + 2) + EncodeVarint(|body|) + body
  }

  function EncodeFields(fs: seq<Field>): seq<Byte> {
    if fs == [] then [] else EncodeField(fs[0]) + EncodeFields(fs[1..])
  }

  datatype Record = Rec(f: Field, next: nat) | BadRecord(error: Error)

  // One record at an offset, in the order the reader checks it.
  function DecodeField(data: seq<Byte>, offset: nat): (r: Record)
    ensures r.Rec? ==> offset < r.next <= |data|
  {
    match DecodeVarint(data, offset)
    case Bad(e) => BadRecord(e)
    case Value(key, next) =>
      if key / 8 == 0 then BadRecord(FieldZero)
      else if key % 8 == 0 then
        match DecodeVarint(data, next) {
          case Bad(e) => BadRecord(e)
          case Value(value, end) => Rec(Uint(key / 8, value), end)
        }
      else if key % 8 == 2 then
        match DecodeVarint(data, next) {
          case Bad(e) => BadRecord(e)
          case Value(length, body) =>
            if body + length > |data| then BadRecord(Truncated)
            else Rec(Message(key / 8, data[body..body + length]), body + length)
        }
      else BadRecord(WireType)
  }

  function DecodeFrom(data: seq<Byte>, offset: nat): Fields
    requires offset <= |data|
    decreases |data| - offset
  {
    if offset == |data| then Ok([])
    else match DecodeField(data, offset)
      case BadRecord(e) => Err(e)
      case Rec(f, next) => Prepend([f], DecodeFrom(data, next))
  }

  function Prepend(done: seq<Field>, rest: Fields): Fields {
    match rest
    case Ok(fs) => Ok(done + fs)
    case Err(e) => Err(e)
  }

  lemma PrependAssoc(done: seq<Field>, f: Field, rest: Fields)
    ensures Prepend(done, Prepend([f], rest)) == Prepend(done + [f], rest)
  {
    if rest.Ok? {
      assert done + ([f] + rest.fields) == done + [f] + rest.fields;
    }
  }

  method ReadField(data: seq<Byte>, offset: nat) returns (r: Record)
    ensures r == DecodeField(data, offset)
  {
    var key := ReadVarint(data, offset);
    if key.Bad? { return BadRecord(key.error); }
    var field, wire := key.n / 8, key.n % 8;
    if field == 0 { return BadRecord(FieldZero); }
    if wire == 0 {
      var value := ReadVarint(data, key.next);
      if value.Bad? { return BadRecord(value.error); }
      return Rec(Uint(field, value.n), value.next);
    } else if wire == 2 {
      var length := ReadVarint(data, key.next);
      if length.Bad? { return BadRecord(length.error); }
      var end := length.next + length.n;
      if end > |data| { return BadRecord(Truncated); }
      return Rec(Message(field, data[length.next..end]), end);
    } else {
      return BadRecord(WireType);
    }
  }

  method ReadFields(data: seq<Byte>) returns (r: Fields)
    ensures r == DecodeFrom(data, 0)
  {
    var offset, out := 0, [];
    while offset < |data|
      invariant offset <= |data|
      invariant DecodeFrom(data, 0) == Prepend(out, DecodeFrom(data, offset))
    {
      var r := ReadField(data, offset);
      if r.BadRecord? { return Err(r.error); }
      PrependAssoc(out, r.f, DecodeFrom(data, r.next));
      out, offset := out + [r.f], r.next;
    }
    assert out + [] == out;
    return Ok(out);
  }

  // What the wire format can carry under the reader's ten-group limit.
  predicate Encodable(f: Field) {
    && 0 < f.field
    && match f
       case Uint(field, value) => field * 8 < TWO_70 && value < TWO_70
       case Message(field, body) => field * 8 + 2 < TWO_70 && |body| < TWO_70
  }

  lemma UintRecord(data: seq<Byte>, offset: nat, field: nat, key: Varint, value: Varint)
    requires key == DecodeVarint(data, offset)
    requires key.Value? ==> key.n == field * 8 && value == DecodeVarint(data, key.next)
    ensures DecodeField(data, offset) ==
      if key.Bad? then BadRecord(key.error)
      else if field == 0 then BadRecord(FieldZero)
      else if value.Bad? then BadRecord(value.error)
      else Rec(Uint(field, value.n), value.next)
  {
  }

  lemma MessageRecord(data: seq<Byte>, offset: nat, field: nat, key: Varint, length: Varint)
    requires key == DecodeVarint(data, offset)
    requires key.Value? ==> key.n == field * 8 + 2 && length == DecodeVarint(data, key.next)
    ensures DecodeField(data, offset) ==
      if key.Bad? then BadRecord(key.error)
      else if field == 0 then BadRecord(FieldZero)
      else if length.Bad? then BadRecord(length.error)
      else if length.next + length.n > |data| then BadRecord(Truncated)
      else Rec(Message(field, data[length.next..length.next + length.n]), length.next + length.n)
  {
  }

  lemma UintRoundTrip(field: nat, value: nat, data: seq<Byte>, offset: nat)
    requires At(data, offset, EncodeField(Uint(field, value)))
    ensures DecodeField(data, offset) ==
      if Encodable(Uint(field, value)) then Rec(Uint(field, value), offset + |EncodeField(Uint(field, value))|)
      else BadRecord(if 0 < field || field * 8 >= TWO_70 then Oversized else FieldZero)
  {
    hide DecodeVarint, DecodeField, EncodeVarint;
    var key, rest := EncodeVarint(field * 8), EncodeVarint(value);
    AtSplit(data, offset, key, rest);
    VarintRoundTrip(field * 8, data, offset);
    VarintRoundTrip(value, data, offset + |key|);
    UintRecord(data, offset, field, DecodeVarint(data, offset), DecodeVarint(data, offset + |key|));
  }

  lemma MessageRoundTrip(field: nat, body: seq<Byte>, data: seq<Byte>, offset: nat)
    requires At(data, offset, EncodeField(Message(field, body)))
    ensures DecodeField(data, offset) ==
      if Encodable(Message(field, body)) then Rec(Message(field, body), offset + |EncodeField(Message(field, body))|)
      else BadRecord(if 0 < field || field * 8 + 2 >= TWO_70 then Oversized else FieldZero)
  {
    hide DecodeVarint, DecodeField, EncodeVarint;
    var key, size := EncodeVarint(field * 8 + 2), EncodeVarint(|body|);
    MessageParts(data, offset, key, size, body);
    VarintRoundTrip(field * 8 + 2, data, offset);
    VarintRoundTrip(|body|, data, offset + |key|);
    MessageRecord(data, offset, field, DecodeVarint(data, offset), DecodeVarint(data, offset + |key|));
  }

  lemma MessageParts(data: seq<Byte>, offset: nat, key: seq<Byte>, size: seq<Byte>, body: seq<Byte>)
    requires At(data, offset, key + size + body)
    ensures At(data, offset, key) && At(data, offset + |key|, size) && At(data, offset + |key| + |size|, body)
  {
    assert key + size + body == key + (size + body);
    AtSplit(data, offset, key, size + body);
    AtSplit(data, offset + |key|, size, body);
  }

  lemma FieldRoundTrip(f: Field, data: seq<Byte>, offset: nat)
    requires At(data, offset, EncodeField(f))
    ensures Encodable(f) <==> DecodeField(data, offset) == Rec(f, offset + |EncodeField(f)|)
    ensures !Encodable(f) ==> DecodeField(data, offset).BadRecord?
  {
    match f
    case Uint(field, value) => UintRoundTrip(field, value, data, offset);
    case Message(field, body) => MessageRoundTrip(field, body, data, offset);
  }

  predicate AllEncodable(fs: seq<Field>) { forall f :: f in fs ==> Encodable(f) }

  lemma DecodeStep(data: seq<Byte>, offset: nat)
    requires offset < |data|
    ensures var r := DecodeField(data, offset);
      DecodeFrom(data, offset) == if r.Rec? then Prepend([r.f], DecodeFrom(data, r.next)) else Err(r.error)
  {
  }

  lemma {:induction false} FieldsRoundTripFrom(fs: seq<Field>, data: seq<Byte>, offset: nat)
    requires offset <= |data| && data[offset..] == EncodeFields(fs)
    ensures AllEncodable(fs) ==> DecodeFrom(data, offset) == Ok(fs)
    ensures !AllEncodable(fs) ==> DecodeFrom(data, offset).Err?
    decreases fs
  {
    hide DecodeField, EncodeField, Encodable;
    if fs != [] {
      var f, head, rest := fs[0], EncodeField(fs[0]), EncodeFields(fs[1..]);
      SuffixSplit(data, offset, head, rest);
      FieldRoundTrip(f, data, offset);
      DecodeStep(data, offset);
      assert fs == [f] + fs[1..];
      if Encodable(f) {
        FieldsRoundTripFrom(fs[1..], data, offset + |head|);
      }
    }
  }

  lemma SuffixSplit(data: seq<Byte>, offset: nat, a: seq<Byte>, b: seq<Byte>)
    requires offset <= |data| && data[offset..] == a + b
    ensures At(data, offset, a)
    ensures offset + |a| <= |data| && data[offset + |a|..] == b
  {
    assert |data| - offset == |a| + |b|;
    assert data[offset..offset + |a|] == data[offset..][..|a|];
    assert data[offset + |a|..] == data[offset..][|a|..];
  }

  // Parsing a concatenation of encodings gives the fields back exactly when every one
  // of them fits the format, and is refused otherwise.
  lemma FieldsRoundTrip(fs: seq<Field>)
    ensures AllEncodable(fs) <==> DecodeFrom(EncodeFields(fs), 0) == Ok(fs)
    ensures !AllEncodable(fs) <==> DecodeFrom(EncodeFields(fs), 0).Err?
  {
    assert EncodeFields(fs)[0..] == EncodeFields(fs);
    FieldsRoundTripFrom(fs, EncodeFields(fs), 0);
  }

  // ---------------------------------------------------------------- exact partition

  function Concat(records: seq<seq<Byte>>): seq<Byte> {
    if records == [] then [] else records[0] + Concat(records[1..])
  }

  // A record is a byte string that decodes, to its very end, to one field.
  predicate IsRecord(bytes: seq<Byte>, f: Field) { DecodeField(bytes, 0) == Rec(f, |bytes|) }

  predicate AreRecords(records: seq<seq<Byte>>, fs: seq<Field>) {
    |records| == |fs| && forall i :: 0 <= i < |fs| ==> IsRecord(records[i], fs[i])
  }

  // Reading depends on nothing before the start or after the end of what was read.
  lemma {:induction false} GroupsLocal(data: seq<Byte>, other: seq<Byte>, offset: nat, at: nat, left: nat)
    requires var r := ReadGroups(data, offset, left);
      r.Value? && at + (r.next - offset) <= |other| && data[offset..r.next] == other[at..at + (r.next - offset)]
    ensures var r := ReadGroups(data, offset, left);
      ReadGroups(other, at, left) == Value(r.n, at + (r.next - offset))
    decreases left
  {
    var r := ReadGroups(data, offset, left);
    assert data[offset] == data[offset..r.next][0] == other[at];
    if data[offset] >= 128 {
      assert data[offset + 1..r.next] == data[offset..r.next][1..] == other[at + 1..at + (r.next - offset)];
      GroupsLocal(data, other, offset + 1, at + 1, left - 1);
    }
  }

  lemma VarintLocal(data: seq<Byte>, other: seq<Byte>, offset: nat, end: nat, at: nat)
    requires var r := DecodeVarint(data, offset); r.Value? && r.next <= end <= |data|
    requires at + (end - offset) <= |other| && data[offset..end] == other[at..at + (end - offset)]
    ensures var r := DecodeVarint(data, offset);
      DecodeVarint(other, at) == Value(r.n, at + (r.next - offset))
  {
    var next := DecodeVarint(data, offset).next;
    assert data[offset..next] == data[offset..end][..next - offset] == other[at..at + (next - offset)];
    GroupsLocal(data, other, offset, at, GroupLimit());
  }

  lemma SameTail(data: seq<Byte>, other: seq<Byte>, a: nat, b: nat, at: nat, i: nat)
    requires a + i <= b <= |data| && at + (b - a) <= |other| && data[a..b] == other[at..at + (b - a)]
    ensures data[a + i..b] == other[at + i..at + (b - a)]
  {
    assert data[a + i..b] == data[a..b][i..];
    assert other[at + i..at + (b - a)] == other[at..at + (b - a)][i..];
  }

  lemma FieldLocal(data: seq<Byte>, other: seq<Byte>, offset: nat, at: nat)
    requires var r := DecodeField(data, offset);
      r.Rec? && at + (r.next - offset) <= |other| && data[offset..r.next] == other[at..at + (r.next - offset)]
    ensures var r := DecodeField(data, offset);
      DecodeField(other, at) == Rec(r.f, at + (r.next - offset))
  {
    hide DecodeVarint, DecodeField;
    FieldParts(data, offset);
    var r, key := DecodeField(data, offset), DecodeVarint(data, offset);
    var second, at', end' := DecodeVarint(data, key.next), at + (key.next - offset), at + (r.next - offset);
    VarintLocal(data, other, offset, r.next, at);
    SameTail(data, other, offset, r.next, at, key.next - offset);
    VarintLocal(data, other, key.next, r.next, at');
    if r.f.Message? {
      SameTail(data, other, key.next, r.next, at', second.next - key.next);
      MessageRecord(other, at, r.f.field, DecodeVarint(other, at), DecodeVarint(other, at'));
    } else {
      UintRecord(other, at, r.f.field, DecodeVarint(other, at), DecodeVarint(other, at'));
    }
  }

  // The two varints every accepted record starts with, and what they determine.
  lemma FieldParts(data: seq<Byte>, offset: nat)
    requires DecodeField(data, offset).Rec?
    ensures var r, key := DecodeField(data, offset), DecodeVarint(data, offset);
      && key.Value? && 0 < r.f.field
      && var second := DecodeVarint(data, key.next);
      && second.Value? && second.next <= r.next
      && match r.f
         case Uint(field, value) => key.n == field * 8 && second == Value(value, r.next)
         case Message(field, body) =>
           && key.n == field * 8 + 2 && second.next + second.n == r.next
           && body == data[second.next..r.next]
  {
  }

  // Every accepted message is the concatenation of the records of its fields.
  lemma {:induction false} AcceptedIsPartitioned(data: seq<Byte>, offset: nat) returns (records: seq<seq<Byte>>)
    requires offset <= |data| && DecodeFrom(data, offset).Ok?
    ensures Concat(records) == data[offset..]
    ensures AreRecords(records, DecodeFrom(data, offset).fields)
    decreases |data| - offset
  {
    hide DecodeField;
    records := [];
    if offset < |data| {
      DecodeStep(data, offset);
      var r := DecodeField(data, offset);
      var rest := AcceptedIsPartitioned(data, r.next);
      var bytes := data[offset..r.next];
      assert bytes[0..|bytes|] == bytes;
      FieldLocal(data, bytes, offset, 0);
      records := [bytes] + rest;
      assert data[offset..] == bytes + data[r.next..];
    }
  }

  // Conversely every concatenation of records is accepted, with the fields they hold.
  lemma {:induction false} PartitionIsAccepted(records: seq<seq<Byte>>, fs: seq<Field>, data: seq<Byte>, offset: nat)
    requires AreRecords(records, fs) && offset <= |data| && data[offset..] == Concat(records)
    ensures DecodeFrom(data, offset) == Ok(fs)
    decreases fs
  {
    hide DecodeField;
    if fs != [] {
      var head, rest := records[0], Concat(records[1..]);
      assert IsRecord(head, fs[0]);
      SuffixSplit(data, offset, head, rest);
      assert head[0..|head|] == head;
      FieldLocal(head, data, 0, offset);
      DecodeStep(data, offset);
      assert AreRecords(records[1..], fs[1..]);
      PartitionIsAccepted(records[1..], fs[1..], data, offset + |head|);
      assert fs == [fs[0]] + fs[1..];
    }
  }

  // ---------------------------------------------------------------- zigzag

  datatype Sint = Decoded(n: int) | OutOfRange

  // (value >> 1) ^ -(value & 1): xor with -1 complements.
  function ZigZag32(value: nat): Sint {
    var half := value / 2;
    var decoded := if value % 2 == 0 then half else -half - 1;
    if -0x8000_0000 <= decoded < 0x8000_0000 then Decoded(decoded) else OutOfRange
  }

  // The protobuf sint32 encoding.
  function ZigZagEncode(n: int): nat { if n >= 0 then 2 * n else -2 * n - 1 }

  lemma ZigZagRoundTrip(n: int)
    ensures ZigZag32(ZigZagEncode(n))
         == if -0x8000_0000 <= n < 0x8000_0000 then Decoded(n) else OutOfRange
  {
    if n < 0 { assert (-2 * n - 1) / 2 == -n - 1; }
  }

  lemma ZigZagOnto(value: nat)
    ensures ZigZag32(value).Decoded? <==> value < 0x1_0000_0000
    ensures ZigZag32(value).Decoded? ==> ZigZagEncode(ZigZag32(value).n) == value
  {
  }
}
