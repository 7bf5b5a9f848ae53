/**
  The byte level of the Protocol Buffers wire format, as the "Encoding" guide of Protocol Buffers describes it:
  base 128 varints, tags, the four scalar payloads and skipped groups. The runtime library the repository links
  against is not part of it; everything the generated messages need from that library is defined here.
 */
module Wire {
  import opened Options

  type Byte = b: int | 0 <= b < 256
  type Bytes = seq<Byte>

  const TWO32: int := 0x1_0000_0000
  const TWO64: int := 0x1_0000_0000_0000_0000

  const VARINT_BYTES: nat := 10
  const FIXED64_BYTES: nat := 8
  const FIXED32_BYTES: nat := 4

  type UInt32 = v: int | 0 <= v < 0x1_0000_0000
  type UInt64 = v: int | 0 <= v < 0x1_0000_0000_0000_0000
  type Int32 = v: int | -0x8000_0000 <= v < 0x8000_0000
  type Int64 = v: int | -0x8000_0000_0000_0000 <= v < 0x8000_0000_0000_0000
  type FieldNumber = n: int | 1 <= n < 0x2000_0000 witness 1

  /** What reading from the front of a byte string gives: a value and what is left, or nothing. */
  datatype Read<+T> = Malformed | Got(value: T, rest: Bytes)

  /** `rest` is what remains of `b` after at least one byte was consumed. */
  predicate IsTail(b: Bytes, rest: Bytes) {
    |rest| < |b| && b[|b| - |rest|..] == rest
  }

  // ---------- Two's complement ----------

  function ToUnsigned(v: Int64): UInt64 {
    if v < 0 then v + TWO64 else v
  }

  function ToInt64(v: UInt64): Int64 {
    if v < 0x8000_0000_0000_0000 then v else v - TWO64
  }

  /** The low 32 bits, read as a signed number. */
  function ToInt32(v: UInt64): Int32 {
    var low := v % TWO32;
    if low < 0x8000_0000 then low else low - TWO32
  }

  // ---------- Base 128 varints ----------

  function VarintSize(v: nat): nat {
    if v < 128 then 1 else 1 + VarintSize(v / 128)
  }

  function Varint(v: nat): (b: Bytes)
    ensures |b| == VarintSize(v)
  {
    if v < 128 then [v] else [v % 128 + 128] + Varint(v / 128)
  }

  /** Reads a varint of at most `budget` bytes, keeping every bit. */
  function ReadGroups(b: Bytes, budget: nat): (r: Read<nat>)
    ensures r.Got? ==> |r.rest| < |b|
  {
    if b == [] || budget == 0 then Malformed
    else if b[0] < 128 then Got(b[0], b[1..])
    else
      match ReadGroups(b[1..], budget - 1)
      case Malformed => Malformed
      case Got(high, rest) =>
        Got(b[0] - 128 + 128 * high, rest)
  }

  lemma {:induction false} VarintSizeMonotone(v: nat, w: nat)
    requires v <= w
    ensures VarintSize(v) <= VarintSize(w)
    decreases w
  {
    if 128 <= v {
      VarintSizeMonotone(v / 128, w / 128);
    }
  }

  /** A varint of up to ten bytes; bits beyond the 64th are dropped. */
  function ReadVarint(b: Bytes): (r: Read<UInt64>)
    ensures r.Got? ==> |r.rest| < |b|
  {
    match ReadGroups(b, VARINT_BYTES)
    case Malformed => Malformed
    case Got(v, rest) => Got(v % TWO64, rest)
  }

  function Pow128(k: nat): nat {
    if k == 0 then 1 else 128 * Pow128(k - 1)
  }

  lemma {:induction false} VarintSizeBound(v: nat, k: nat)
    requires 0 < k && v < Pow128(k)
    ensures VarintSize(v) <= k
  {
    if 128 <= v {
      assert Pow128(k) == 128 * Pow128(k - 1);
      assert k != 1;
      VarintSizeBound(v / 128, k - 1);
    }
  }

  lemma {:induction false} ReadGroupsOfVarint(v: nat, budget: nat, tail: Bytes)
    requires VarintSize(v) <= budget
    ensures ReadGroups(Varint(v) + tail, budget) == Got(v, tail)
  {
    if v < 128 {
      assert (Varint(v) + tail)[1..] == tail;
    } else {
      assert (Varint(v) + tail)[1..] == Varint(v / 128) + tail;
      ReadGroupsOfVarint(v / 128, budget - 1, tail);
    }
  }

  lemma VarintSize64(v: UInt64)
    ensures VarintSize(v) <= VARINT_BYTES
  {
    assert TWO64 <= Pow128(10);
    VarintSizeBound(v, 10);
  }

  lemma ReadVarintOfVarint(v: UInt64, tail: Bytes)
    ensures ReadVarint(Varint(v) + tail) == Got(v, tail)
  {
    VarintSize64(v);
    ReadGroupsOfVarint(v, VARINT_BYTES, tail);
    ReadVarintFits(Varint(v) + tail, v, tail);
  }

  lemma ReadVarintFits(b: Bytes, v: UInt64, rest: Bytes)
    requires ReadGroups(b, VARINT_BYTES) == Got(v, rest)
    ensures ReadVarint(b) == Got(v, rest)
  {
    assert v % TWO64 == v;
  }

  lemma {:induction false} ReadGroupsExtends(b: Bytes, budget: nat, tail: Bytes)
    requires ReadGroups(b, budget).Got?
    ensures var r := ReadGroups(b, budget); ReadGroups(b + tail, budget) == Got(r.value, r.rest + tail)
  {
    assert (b + tail)[1..] == b[1..] + tail;
    if 128 <= b[0] {
      ReadGroupsExtends(b[1..], budget - 1, tail);
    }
  }

  lemma {:induction false} VarintSizeSum(v: nat, w: nat)
    ensures VarintSize(v + w) <= VarintSize(v) + VarintSize(w)
    decreases v + w
  {
    if 128 <= v && 128 <= w {
      VarintSizeMonotone((v + w) / 128, v / 128 + w / 128 + 1);
      VarintSizeSum(v / 128, w / 128);
      VarintSizeStep(v / 128 + w / 128);
    } else {
      var big := if v < 128 then w else v;
      VarintSizeMonotone(v + w, big + 127);
      VarintSizeAdd127(big);
    }
  }

  lemma {:induction false} VarintSizeStep(v: nat)
    ensures VarintSize(v + 1) <= VarintSize(v) + 1
  {
    if 128 <= v {
      VarintSizeStep(v / 128);
      VarintSizeMonotone((v + 1) / 128, v / 128 + 1);
    }
  }

  lemma VarintSizeAdd127(v: nat)
    ensures VarintSize(v + 127) <= VarintSize(v) + 1
  {
    if 128 <= v {
      VarintSizeMonotone((v + 127) / 128, v / 128 + 1);
      VarintSizeStep(v / 128);
    }
  }

  // ---------- Fixed-width payloads ----------

  function LittleEndian(width: nat, v: nat): (b: Bytes)
    ensures |b| == width
  {
    if width == 0 then [] else [v % 256] + LittleEndian(width - 1, v / 256)
  }

  function FromLittleEndian(b: Bytes): nat {
    if b == [] then 0 else b[0] + 256 * FromLittleEndian(b[1..])
  }

  function Pow256(k: nat): nat {
    if k == 0 then 1 else 256 * Pow256(k - 1)
  }

  lemma {:induction false} FromLittleEndianBound(b: Bytes)
    ensures FromLittleEndian(b) < Pow256(|b|)
  {
    if b != [] {
      FromLittleEndianBound(b[1..]);
    }
  }

  lemma {:induction false} FromLittleEndianOf(width: nat, v: nat)
    requires v < Pow256(width)
    ensures FromLittleEndian(LittleEndian(width, v)) == v
  {
    if width != 0 {
      FromLittleEndianOf(width - 1, v / 256);
      assert LittleEndian(width, v)[1..] == LittleEndian(width - 1, v / 256);
    }
  }

  // ---------- Fields ----------

  datatype Value =
    | Varint64(varint: UInt64)
    | Fixed64(fixed64: UInt64)
    | LengthDelimited(bytes: Bytes)
    | Fixed32(fixed32: UInt32)

  /** One wire-format entry: a field, or a group whose contents were skipped. */
  datatype Field =
    | Field(number: FieldNumber, value: Value)
    | Group(number: FieldNumber)

  type PlainField = f: Field | f.Field? witness Field(1, Varint64(0))

  /** Fields in the order in which they are emitted. */
  type Layout = seq<PlainField>

  type WireType = t: int | 0 <= t < 8

  function TypeOf(v: Value): WireType {
    match v
    case Varint64(_) => 0
    case Fixed64(_) => 1
    case LengthDelimited(_) => 2
    case Fixed32(_) => 5
  }

  function Tag(number: FieldNumber, wireType: WireType): Bytes {
    Varint(number * 8 + wireType)
  }

  function WriteValue(v: Value): Bytes {
    match v
    case Varint64(x) => Varint(x)
    case Fixed64(x) => LittleEndian(FIXED64_BYTES, x)
    case LengthDelimited(x) => Varint(|x|) + x
    case Fixed32(x) => LittleEndian(FIXED32_BYTES, x)
  }

  function WriteField(f: PlainField): (b: Bytes)
    ensures 2 <= |b|
  {
    Tag(f.number, TypeOf(f.value)) + WriteValue(f.value)
  }

  function Flatten<T>(write: T -> Bytes, xs: seq<T>): Bytes {
    if xs == [] then [] else Flatten(write, xs[..|xs| - 1]) + write(xs[|xs| - 1])
  }

  function Serialize(fs: Layout): Bytes {
    Flatten(WriteField, fs)
  }

  datatype TagRead = TagRead(number: FieldNumber, wireType: WireType)

  /** A tag is the low 32 bits of a varint; field number 0 and wire types 6 and 7 do not exist. */
  function ReadTag(b: Bytes): (r: Read<TagRead>)
    ensures r.Got? ==> |r.rest| < |b|
  {
    match ReadVarint(b)
    case Malformed => Malformed
    case Got(v, rest) =>
      var tag := v % TWO32;
      if tag / 8 == 0 || 6 <= tag % 8 then Malformed else Got(TagRead(tag / 8, tag % 8), rest)
  }

  /** The payload of a field that is not a group. */
  function ReadValue(wireType: WireType, b: Bytes): (r: Read<Value>)
    ensures r.Got? ==> |r.rest| < |b| && TypeOf(r.value) == wireType
  {
    if wireType == 0 then
      match ReadVarint(b)
      case Malformed => Malformed
      case Got(v, rest) => Got(Varint64(v), rest)
    else if wireType == 1 && FIXED64_BYTES <= |b| then
      FromLittleEndianBound(b[..FIXED64_BYTES]);
      assert Pow256(FIXED64_BYTES) == Pow256(8) == TWO64;
      Got(Fixed64(FromLittleEndian(b[..FIXED64_BYTES])), b[FIXED64_BYTES..])
    else if wireType == 2 then
      match ReadLength(b)
      case Malformed => Malformed
      case Got(payload, rest) => Got(LengthDelimited(payload), rest)
    else if wireType == 5 && FIXED32_BYTES <= |b| then
      FromLittleEndianBound(b[..FIXED32_BYTES]);
      assert Pow256(FIXED32_BYTES) == Pow256(4) == TWO32;
      Got(Fixed32(FromLittleEndian(b[..FIXED32_BYTES])), b[FIXED32_BYTES..])
    else
      Malformed
  }

  /** A length, of which the low 32 bits count, followed by that many bytes. */
  function ReadLength(b: Bytes): (r: Read<Bytes>)
    ensures r.Got? ==> |r.rest| < |b|
  {
    match ReadVarint(b)
    case Malformed => Malformed
    case Got(v, rest) =>
      var n := v % TWO32;
      if n <= |rest| then Got(rest[..n], rest[n..]) else Malformed
  }

  /** One entry inside a group, and how deep the groups are nested after it; absent once the group is closed. */
  function SkipEntry(b: Bytes, depth: nat): (r: Read<Option<nat>>)
    ensures r.Got? ==> |r.rest| < |b|
  {
    match ReadTag(b)
    case Malformed => Malformed
    case Got(tag, rest) =>
      if tag.wireType == 4 then
        Got(if depth == 0 then None else Some(depth - 1), rest)
      else if tag.wireType == 3 then
        Got(Some(depth + 1), rest)
      else
        match ReadValue(tag.wireType, rest)
        case Malformed => Malformed
        case Got(_, after) => Got(Some(depth), after)
  }

  /** Skips to the end of the group opened `depth` levels up. */
  function SkipGroup(b: Bytes, depth: nat): (r: Read<()>)
    ensures r.Got? ==> |r.rest| < |b|
    decreases |b|
  {
    match SkipEntry(b, depth)
    case Malformed => Malformed
    case Got(None, rest) => Got((), rest)
    case Got(Some(deeper), rest) => SkipGroup(rest, deeper)
  }

  function ReadAfterTag(tag: TagRead, b: Bytes): (r: Read<Field>)
    ensures r.Got? ==> |r.rest| < |b| && r.value.number == tag.number
    ensures r.Got? && r.value.Field? ==> TypeOf(r.value.value) == tag.wireType
  {
    if tag.wireType == 3 then
      match SkipGroup(b, 0)
      case Malformed => Malformed
      case Got(_, rest) => Got(Group(tag.number), rest)
    else
      match ReadValue(tag.wireType, b)
      case Malformed => Malformed
      case Got(v, rest) => Got(Field(tag.number, v), rest)
  }

  function ReadField(b: Bytes): (r: Read<Field>)
    ensures r.Got? ==> |r.rest| < |b|
  {
    match ReadTag(b)
    case Malformed => Malformed
    case Got(tag, rest) => ReadAfterTag(tag, rest)
  }

  // ---------- What reading consumes ----------

  lemma TailOfTail(b: Bytes, middle: Bytes, rest: Bytes)
    requires IsTail(b, middle) && IsTail(middle, rest)
    ensures IsTail(b, rest)
  {
  }

  /** What is left is the end of the input, and what was consumed is no shorter than the value needs. */
  lemma {:induction false} ReadGroupsConsumes(b: Bytes, budget: nat)
    requires ReadGroups(b, budget).Got?
    ensures var r := ReadGroups(b, budget); IsTail(b, r.rest) && VarintSize(r.value) <= |b| - |r.rest|
  {
    if 128 <= b[0] {
      ReadGroupsConsumes(b[1..], budget - 1);
      var high := ReadGroups(b[1..], budget - 1);
      assert (b[0] - 128 + 128 * high.value) / 128 == high.value;
      TailOfTail(b, b[1..], high.rest);
    }
  }

  lemma ReadVarintConsumes(b: Bytes)
    requires ReadVarint(b).Got?
    ensures var r := ReadVarint(b); IsTail(b, r.rest) && VarintSize(r.value) <= |b| - |r.rest|
  {
    ReadGroupsConsumes(b, VARINT_BYTES);
    var v := ReadGroups(b, VARINT_BYTES).value;
    VarintSizeMonotone(v % TWO64, v);
  }

  lemma ReadTagConsumes(b: Bytes)
    requires ReadTag(b).Got?
    ensures var r := ReadTag(b);
      IsTail(b, r.rest) && |Tag(r.value.number, r.value.wireType)| <= |b| - |r.rest|
  {
    ReadVarintConsumes(b);
    var v := ReadVarint(b).value;
    VarintSizeMonotone(v % TWO32, v);
  }

  lemma ReadLengthConsumes(b: Bytes)
    requires ReadLength(b).Got?
    ensures var r := ReadLength(b); IsTail(b, r.rest) && VarintSize(|r.value|) + |r.value| <= |b| - |r.rest|
  {
    ReadVarintConsumes(b);
    var v := ReadVarint(b);
    VarintSizeMonotone(v.value % TWO32, v.value);
    var n := v.value % TWO32;
    assert v.rest == b[|b| - |v.rest|..];
    assert v.rest[n..] == b[|b| - |v.rest[n..]|..];
  }

  lemma ReadValueConsumes(wireType: WireType, b: Bytes)
    requires ReadValue(wireType, b).Got?
    ensures var r := ReadValue(wireType, b); IsTail(b, r.rest) && |WriteValue(r.value)| <= |b| - |r.rest|
  {
    if wireType == 0 {
      ReadVarintConsumes(b);
    } else if wireType == 2 {
      ReadLengthConsumes(b);
    }
  }

  lemma SkipEntryConsumes(b: Bytes, depth: nat)
    requires SkipEntry(b, depth).Got?
    ensures IsTail(b, SkipEntry(b, depth).rest)
  {
    ReadTagConsumes(b);
    var t := ReadTag(b);
    if t.value.wireType != 3 && t.value.wireType != 4 {
      ReadValueConsumes(t.value.wireType, t.rest);
      TailOfTail(b, t.rest, SkipEntry(b, depth).rest);
    }
  }

  lemma {:induction false} SkipGroupConsumes(b: Bytes, depth: nat)
    requires SkipGroup(b, depth).Got?
    ensures IsTail(b, SkipGroup(b, depth).rest)
    decreases |b|
  {
    SkipEntryConsumes(b, depth);
    var r := SkipEntry(b, depth);
    if r.value.Some? {
      SkipGroupConsumes(r.rest, r.value.value);
      TailOfTail(b, r.rest, SkipGroup(b, depth).rest);
    }
  }

  lemma ReadAfterTagConsumes(tag: TagRead, b: Bytes)
    requires ReadAfterTag(tag, b).Got?
    ensures var r := ReadAfterTag(tag, b);
      IsTail(b, r.rest) && (r.value.Field? ==> |WriteValue(r.value.value)| <= |b| - |r.rest|)
  {
    if tag.wireType == 3 {
      SkipGroupConsumes(b, 0);
    } else {
      ReadValueConsumes(tag.wireType, b);
    }
  }

  lemma ReadFieldConsumes(b: Bytes)
    requires ReadField(b).Got?
    ensures var r := ReadField(b);
      IsTail(b, r.rest) && (r.value.Field? ==> |WriteField(r.value)| <= |b| - |r.rest|)
  {
    hide WriteValue, ReadValue, SkipGroup;
    ReadTagConsumes(b);
    var t := ReadTag(b);
    ReadAfterTagConsumes(t.value, t.rest);
    TailOfTail(b, t.rest, ReadField(b).rest);
  }

  // ---------- Reading undoes writing ----------

  predicate Writable(f: PlainField) {
    f.value.LengthDelimited? ==> |f.value.bytes| < TWO32
  }

  lemma ReadFixedOfWritten(width: nat, v: nat, tail: Bytes)
    requires v < Pow256(width)
    ensures var b := LittleEndian(width, v) + tail; FromLittleEndian(b[..width]) == v && b[width..] == tail
  {
    assert (LittleEndian(width, v) + tail)[..width] == LittleEndian(width, v);
    FromLittleEndianOf(width, v);
  }

  lemma ReadLengthFits(b: Bytes, n: nat, rest: Bytes)
    requires ReadVarint(b) == Got(n, rest)
    requires n < TWO32 && n <= |rest|
    ensures ReadLength(b) == Got(rest[..n], rest[n..])
  {
    assert n % TWO32 == n;
  }

  lemma CutConcat(a: Bytes, b: Bytes)
    ensures (a + b)[..|a|] == a && (a + b)[|a|..] == b
  {
  }

  lemma Regroup(a: Bytes, b: Bytes, c: Bytes)
    ensures a + b + c == a + (b + c)
  {
  }

  lemma ReadLengthOfPrefixed(n: UInt32, prefix: Bytes, payload: Bytes, tail: Bytes)
    requires |payload| == n && ReadVarint(prefix + (payload + tail)) == Got(n, payload + tail)
    ensures ReadLength(prefix + payload + tail) == Got(payload, tail)
  {
    hide ReadVarint, ReadLength;
    Regroup(prefix, payload, tail);
    ReadLengthFits(prefix + (payload + tail), n, payload + tail);
    CutConcat(payload, tail);
  }

  lemma ReadLengthOfWritten(payload: Bytes, tail: Bytes)
    requires |payload| < TWO32
    ensures ReadLength(Varint(|payload|) + payload + tail) == Got(payload, tail)
  {
    hide ReadVarint, ReadLength, Varint;
    ReadVarintOfVarint(|payload|, payload + tail);
    ReadLengthOfPrefixed(|payload|, Varint(|payload|), payload, tail);
  }

  lemma ReadValueOfWritten(v: Value, tail: Bytes)
    requires v.LengthDelimited? ==> |v.bytes| < TWO32
    ensures ReadValue(TypeOf(v), WriteValue(v) + tail) == Got(v, tail)
  {
    match v
    case Varint64(x) => ReadVarintOfVarint(x, tail);
    case Fixed64(x) =>
      assert TWO64 <= Pow256(8) == Pow256(FIXED64_BYTES);
      ReadFixedOfWritten(FIXED64_BYTES, x, tail);
    case LengthDelimited(x) => ReadLengthOfWritten(x, tail);
    case Fixed32(x) =>
      assert TWO32 <= Pow256(4) == Pow256(FIXED32_BYTES);
      ReadFixedOfWritten(FIXED32_BYTES, x, tail);
  }

  lemma ReadTagOfWritten(number: FieldNumber, wireType: WireType, tail: Bytes)
    requires wireType < 6
    ensures ReadTag(Tag(number, wireType) + tail) == Got(TagRead(number, wireType), tail)
  {
    hide ReadVarint, ReadTag, Varint;
    ReadVarintOfVarint(number * 8 + wireType, tail);
    ReadTagFits(Tag(number, wireType) + tail, number, wireType, tail);
  }

  lemma ReadTagFits(b: Bytes, number: FieldNumber, wireType: WireType, rest: Bytes)
    requires wireType < 6 && ReadVarint(b) == Got(number * 8 + wireType, rest)
    ensures ReadTag(b) == Got(TagRead(number, wireType), rest)
  {
    hide ReadVarint;
    var v := number * 8 + wireType;
    assert v % TWO32 == v && v / 8 == number && v % 8 == wireType;
  }

  lemma ReadFieldOfWritten(f: PlainField, tail: Bytes)
    requires Writable(f)
    ensures ReadField(WriteField(f) + tail) == Got(f, tail)
  {
    var t := TypeOf(f.value);
    assert WriteField(f) + tail == Tag(f.number, t) + (WriteValue(f.value) + tail);
    ReadTagOfWritten(f.number, t, WriteValue(f.value) + tail);
    ReadValueOfWritten(f.value, tail);
  }

  // ---------- Bytes after a complete field do not change how it reads ----------

  lemma ReadVarintExtends(b: Bytes, tail: Bytes)
    requires ReadVarint(b).Got?
    ensures var r := ReadVarint(b); ReadVarint(b + tail) == Got(r.value, r.rest + tail)
  {
    ReadGroupsExtends(b, VARINT_BYTES, tail);
  }

  lemma CutExtends(b: Bytes, n: nat, tail: Bytes)
    requires n <= |b|
    ensures (b + tail)[..n] == b[..n] && (b + tail)[n..] == b[n..] + tail
  {
  }

  lemma ReadLengthExtends(b: Bytes, tail: Bytes)
    requires ReadLength(b).Got?
    ensures var r := ReadLength(b); ReadLength(b + tail) == Got(r.value, r.rest + tail)
  {
    ReadVarintExtends(b, tail);
    var r := ReadVarint(b);
    CutExtends(r.rest, r.value % TWO32, tail);
  }

  lemma ReadTagExtends(b: Bytes, tail: Bytes)
    requires ReadTag(b).Got?
    ensures var r := ReadTag(b); ReadTag(b + tail) == Got(r.value, r.rest + tail)
  {
    ReadVarintExtends(b, tail);
  }

  lemma ReadValueExtends(wireType: WireType, b: Bytes, tail: Bytes)
    requires ReadValue(wireType, b).Got?
    ensures var r := ReadValue(wireType, b); ReadValue(wireType, b + tail) == Got(r.value, r.rest + tail)
  {
    if wireType == 0 {
      ReadVarintExtends(b, tail);
    } else if wireType == 2 {
      ReadLengthExtends(b, tail);
    } else {
      CutExtends(b, if wireType == 1 then FIXED64_BYTES else FIXED32_BYTES, tail);
    }
  }

  lemma SkipEntryExtends(b: Bytes, depth: nat, tail: Bytes)
    requires SkipEntry(b, depth).Got?
    ensures var r := SkipEntry(b, depth); SkipEntry(b + tail, depth) == Got(r.value, r.rest + tail)
  {
    ReadTagExtends(b, tail);
    var tag, rest := ReadTag(b).value, ReadTag(b).rest;
    if tag.wireType < 3 || tag.wireType == 5 {
      ReadValueExtends(tag.wireType, rest, tail);
    }
  }

  lemma {:induction false} SkipGroupExtends(b: Bytes, depth: nat, tail: Bytes)
    requires SkipGroup(b, depth).Got?
    ensures SkipGroup(b + tail, depth) == Got((), SkipGroup(b, depth).rest + tail)
    decreases |b|
  {
    SkipEntryExtends(b, depth, tail);
    var r := SkipEntry(b, depth);
    if r.value.Some? {
      SkipGroupExtends(r.rest, r.value.value, tail);
    }
  }

  lemma ReadFieldExtends(b: Bytes, tail: Bytes)
    requires ReadField(b).Got?
    ensures var r := ReadField(b); ReadField(b + tail) == Got(r.value, r.rest + tail)
  {
    ReadTagExtends(b, tail);
    var tag, rest := ReadTag(b).value, ReadTag(b).rest;
    if tag.wireType == 3 {
      SkipGroupExtends(rest, 0, tail);
    } else {
      ReadValueExtends(tag.wireType, rest, tail);
    }
  }

  // ---------- Serialised layouts ----------

  lemma {:induction false} FlattenConcat<T>(write: T -> Bytes, xs: seq<T>, ys: seq<T>)
    ensures Flatten(write, xs + ys) == Flatten(write, xs) + Flatten(write, ys)
    decreases |ys|
  {
    if ys == [] {
      assert xs + ys == xs;
    } else {
      assert (xs + ys)[..|xs + ys| - 1] == xs + ys[..|ys| - 1];
      FlattenConcat(write, xs, ys[..|ys| - 1]);
    }
  }

  lemma SerializeConcat(xs: Layout, ys: Layout)
    ensures Serialize(xs + ys) == Serialize(xs) + Serialize(ys)
  {
    FlattenConcat(WriteField, xs, ys);
  }

  lemma SerializeOne(f: PlainField)
    ensures Serialize([f]) == WriteField(f)
  {
    assert Serialize([f][..0]) == [];
  }

  lemma {:induction false} ShortIsWritable(fs: Layout)
    requires |Serialize(fs)| < TWO32
    ensures forall f <- fs :: Writable(f)
  {
    if fs != [] {
      ShortIsWritable(fs[..|fs| - 1]);
    }
  }

  // ---------- The order of unknown fields ----------

  /** What the runtime's table of unknown fields holds for one field number and wire type, oldest first. */
  function ValuesOf(fs: Layout, number: int, wireType: int): seq<Value> {
    if fs == [] then []
    else
      var init, last := fs[..|fs| - 1], fs[|fs| - 1];
      ValuesOf(init, number, wireType)
      + (if last.number == number && TypeOf(last.value) == wireType then [last.value] else [])
  }

  /** Two layouts fill the table of unknown fields alike, so they are emissions of one and the same table. */
  ghost predicate SameTable(xs: Layout, ys: Layout) {
    forall number, wireType :: ValuesOf(xs, number, wireType) == ValuesOf(ys, number, wireType)
  }

  lemma {:induction false} ValuesOfConcat(xs: Layout, ys: Layout, number: int, wireType: int)
    ensures ValuesOf(xs + ys, number, wireType) == ValuesOf(xs, number, wireType) + ValuesOf(ys, number, wireType)
  {
    if ys == [] {
      assert xs + ys == xs;
    } else {
      assert (xs + ys)[..|xs + ys| - 1] == xs + ys[..|ys| - 1];
      ValuesOfConcat(xs, ys[..|ys| - 1], number, wireType);
    }
  }

  lemma {:induction false} ValuesOfCount(fs: Layout, f: PlainField)
    ensures multiset(fs)[f] == multiset(ValuesOf(fs, f.number, TypeOf(f.value)))[f.value]
  {
    if fs != [] {
      var init, last := fs[..|fs| - 1], fs[|fs| - 1];
      assert fs == init + [last];
      ValuesOfCount(init, f);
    }
  }

  lemma SameTableSameFields(xs: Layout, ys: Layout)
    requires SameTable(xs, ys)
    ensures multiset(xs) == multiset(ys)
  {
    forall f: PlainField
      ensures multiset(xs)[f] == multiset(ys)[f]
    {
      ValuesOfCount(xs, f);
      ValuesOfCount(ys, f);
    }
  }

  lemma FlattenRemove<T>(write: T -> Bytes, xs: seq<T>, j: nat)
    requires j < |xs|
    ensures |Flatten(write, xs)| == |Flatten(write, xs[..j] + xs[j + 1..])| + |write(xs[j])|
    ensures multiset(xs[..j] + xs[j + 1..]) == multiset(xs) - multiset{xs[j]}
  {
    assert xs == xs[..j + 1] + xs[j + 1..];
    assert xs[..j + 1][..j] == xs[..j];
    FlattenConcat(write, xs[..j + 1], xs[j + 1..]);
    FlattenConcat(write, xs[..j], xs[j + 1..]);
    assert xs[..j + 1] == xs[..j] + [xs[j]];
  }

  lemma {:induction false} FlattenPermuted<T>(write: T -> Bytes, xs: seq<T>, ys: seq<T>)
    requires multiset(xs) == multiset(ys)
    ensures |Flatten(write, xs)| == |Flatten(write, ys)|
    decreases |xs|
  {
    if xs == [] {
      assert |multiset(ys)| == 0;
    } else {
      var i := |xs| - 1;
      assert xs[i] in multiset(ys);
      var j :| 0 <= j < |ys| && ys[j] == xs[i];
      FlattenRemove(write, xs, i);
      FlattenRemove(write, ys, j);
      FlattenPermuted(write, xs[..i] + xs[i + 1..], ys[..j] + ys[j + 1..]);
    }
  }

  /** The order in which a table of unknown fields is emitted does not change how many bytes that takes. */
  lemma SameTableSameSize(xs: Layout, ys: Layout)
    requires SameTable(xs, ys)
    ensures |Serialize(xs)| == |Serialize(ys)|
  {
    SameTableSameFields(xs, ys);
    FlattenPermuted(WriteField, xs, ys);
  }

  // ---------- The reading loop ----------

  /**
    Reads fields until the end of input, handing each to `apply`. Every generated `merge_from` is this loop with
    its own `apply`; the result is absent when some field is malformed or refused.
   */
  function Merge<M>(apply: (M, Field) -> Option<M>, m: M, b: Bytes): Option<M>
    decreases |b|
  {
    if b == [] then Some(m)
    else
      match ReadField(b)
      case Malformed => None
      case Got(f, rest) =>
        match apply(m, f)
        case None => None
        case Some(next) => Merge(apply, next, rest)
  }

  function Fold<M>(apply: (M, Field) -> Option<M>, m: M, fs: Layout): Option<M> {
    if fs == [] then Some(m)
    else
      match Fold(apply, m, fs[..|fs| - 1])
      case None => None
      case Some(next) => apply(next, fs[|fs| - 1])
  }

  /** Input that parses completely can be cut off the front, whatever the fields mean. */
  lemma {:induction false} MergeConcat<M>(apply: (M, Field) -> Option<M>, m: M, a: Bytes, next: M, b: Bytes)
    requires Merge(apply, m, a) == Some(next)
    ensures Merge(apply, m, a + b) == Merge(apply, next, b)
    decreases |a|
  {
    if a == [] {
      assert a + b == b;
    } else {
      ReadFieldExtends(a, b);
      var r := ReadField(a);
      MergeConcat(apply, apply(m, r.value).value, r.rest, next, b);
    }
  }

  lemma {:induction false} MergeSerialized<M>(apply: (M, Field) -> Option<M>, m: M, fs: Layout, tail: Bytes)
    requires forall f <- fs :: Writable(f)
    requires Fold(apply, m, fs).Some?
    ensures Merge(apply, m, Serialize(fs) + tail) == Merge(apply, Fold(apply, m, fs).value, tail)
    decreases |fs|
  {
    if fs == [] {
      assert Serialize(fs) + tail == tail;
    } else {
      var init, last := fs[..|fs| - 1], fs[|fs| - 1];
      assert Serialize(fs) + tail == Serialize(init) + (WriteField(last) + tail);
      MergeSerialized(apply, m, init, WriteField(last) + tail);
      ReadFieldOfWritten(last, tail);
    }
  }

  lemma {:induction false} FoldConcat<M>(apply: (M, Field) -> Option<M>, m: M, xs: Layout, ys: Layout)
    requires Fold(apply, m, xs).Some?
    ensures Fold(apply, m, xs + ys) == Fold(apply, Fold(apply, m, xs).value, ys)
    decreases |ys|
  {
    if ys == [] {
      assert xs + ys == xs;
    } else {
      assert (xs + ys)[..|xs + ys| - 1] == xs + ys[..|ys| - 1];
      FoldConcat(apply, m, xs, ys[..|ys| - 1]);
    }
  }

  // ---------- UTF-8 (section 4 of RFC 3629) ----------

  predicate IsContinuation(b: Byte) {
    0x80 <= b <= 0xBF
  }

  predicate IsUtf8(s: Bytes) {
    if s == [] then true
    else if s[0] < 0x80 then IsUtf8(s[1..])
    else if |s| < 2 || !IsContinuation(s[1]) then false
    else if 0xC2 <= s[0] <= 0xDF then IsUtf8(s[2..])
    else if |s| < 3 || !IsContinuation(s[2]) then false
    else if 0xE0 <= s[0] <= 0xEF then
      && (s[0] == 0xE0 ==> 0xA0 <= s[1])
      && (s[0] == 0xED ==> s[1] <= 0x9F)
      && IsUtf8(s[3..])
    else if |s| < 4 || !IsContinuation(s[3]) then false
    else
      && 0xF0 <= s[0] <= 0xF4
      && (s[0] == 0xF0 ==> 0x90 <= s[1])
      && (s[0] == 0xF4 ==> s[1] <= 0x8F)
      && IsUtf8(s[4..])
  }

  /** The bytes of a Rust `String`. */
  type Utf8 = s: Bytes | IsUtf8(s) witness []
}
