/**
  Which bytes are read as what, told from the bytes alone: varints that are longer than they need to be, groups within
  groups, and every other form that is accepted though it is never written. `Wire` has the reader; here it is shown to
  accept these forms and no others.
 */
module Grammar {
  import opened Wire

  // ---------- Varints ----------

  /** Seven bits from each byte, the lowest first. */
  function Bits(p: Bytes): nat {
    if p == [] then 0 else p[0] % 128 + 128 * Bits(p[1..])
  }

  /** Up to ten bytes, of which all but the last are marked. */
  predicate IsVarint(p: Bytes) {
    1 <= |p| <= 10 && p[|p| - 1] < 128 && forall i | 0 <= i < |p| - 1 :: 128 <= p[i]
  }

  /** At the front of `b` stands a varint, and `rest` comes after it. */
  predicate StandsBefore(p: Bytes, b: Bytes, rest: Bytes) {
    IsVarint(p) && b == p + rest
  }

  lemma {:induction false} GroupsAreBits(b: Bytes, budget: nat) returns (p: Bytes)
    requires ReadGroups(b, budget).Got? && budget <= 10
    ensures var r := ReadGroups(b, budget);
      IsVarint(p) && |p| <= budget && b == p + r.rest && r.value == Bits(p)
  {
    if b[0] < 128 {
      p := [b[0]];
    } else {
      var q := GroupsAreBits(b[1..], budget - 1);
      p := [b[0]] + q;
      assert p[1..] == q;
    }
  }

  lemma {:induction false} BitsAreRead(p: Bytes, budget: nat, rest: Bytes)
    requires IsVarint(p) && |p| <= budget
    ensures ReadGroups(p + rest, budget) == Got(Bits(p), rest)
  {
    assert (p + rest)[1..] == p[1..] + rest;
    if |p| == 1 {
      assert (p + rest)[1..] == rest;
    } else {
      BitsAreRead(p[1..], budget - 1, rest);
    }
  }

  /** A varint is read from exactly the bytes that carry its bits, however many of them are superfluous. */
  lemma VarintExactly(b: Bytes, v: UInt64, rest: Bytes)
    ensures ReadVarint(b) == Got(v, rest) <==> exists p :: StandsBefore(p, b, rest) && v == Bits(p) % TWO64
  {
    hide ReadGroups;
    if ReadVarint(b) == Got(v, rest) {
      var p := GroupsAreBits(b, 10);
      assert StandsBefore(p, b, rest);
    }
    if p :| StandsBefore(p, b, rest) && v == Bits(p) % TWO64 {
      BitsAreRead(p, 10, rest);
    }
  }

  // ---------- Tags and payloads ----------

  predicate IsTag(p: Bytes, number: FieldNumber, wireType: WireType) {
    IsVarint(p) && Bits(p) % TWO32 == 8 * number + wireType && wireType < 6
  }

  /** The bytes of the payload of a field; wire types 0, 1, 2 and 5 have one. */
  ghost predicate IsPayload(p: Bytes, wireType: WireType, v: Value) {
    match v
    case Varint64(x) => wireType == 0 && IsVarint(p) && x == Bits(p) % TWO64
    case Fixed64(x) =>
      wireType == 1 && |p| == 8 && x == FourBytes(p[..4]) + TWO32 * FourBytes(p[4..])
    case Fixed32(x) => wireType == 5 && |p| == 4 && x == FourBytes(p)
    case LengthDelimited(x) =>
      wireType == 2 && exists prefix :: StandsBefore(prefix, p, x) && Bits(prefix) % TWO32 == |x|
  }

  /** The lowest byte first. */
  function FourBytes(p: Bytes): nat
    requires |p| == 4
  {
    (p[0] as int) + 0x100 * (p[1] as int) + 0x1_0000 * (p[2] as int) + 0x100_0000 * (p[3] as int)
  }

  lemma FirstFour(p: Bytes)
    requires 4 <= |p|
    ensures FromLittleEndian(p) == FourBytes(p[..4]) + TWO32 * FromLittleEndian(p[4..])
  {
    var q := p[1..];
    assert q[1..] == p[2..] && q[1..][1..] == p[3..] && q[1..][1..][1..] == p[4..];
    assert FromLittleEndian(p[3..]) == p[3] as int + 256 * FromLittleEndian(p[4..]);
    assert FromLittleEndian(p[2..]) == p[2] as int + 256 * FromLittleEndian(p[3..]);
    assert FromLittleEndian(q) == p[1] as int + 256 * FromLittleEndian(p[2..]);
  }

  lemma FourBytesExactly(p: Bytes)
    requires |p| == 4
    ensures FromLittleEndian(p) == FourBytes(p)
  {
    FirstFour(p);
    assert p[..4] == p && p[4..] == [];
  }

  lemma EightBytesExactly(p: Bytes)
    requires |p| == 8
    ensures FromLittleEndian(p) == FourBytes(p[..4]) + TWO32 * FourBytes(p[4..])
  {
    FirstFour(p);
    FourBytesExactly(p[4..]);
  }

  lemma TagExactly(b: Bytes, number: FieldNumber, wireType: WireType, rest: Bytes)
    ensures ReadTag(b) == Got(TagRead(number, wireType), rest) <==>
      exists p :: StandsBefore(p, b, rest) && IsTag(p, number, wireType)
  {
    hide ReadVarint, Bits, IsVarint;
    if ReadTag(b) == Got(TagRead(number, wireType), rest) {
      var v := ReadVarint(b).value;
      VarintExactly(b, v, rest);
      var p :| StandsBefore(p, b, rest) && v == Bits(p) % TWO64;
      LowBits(Bits(p));
    }
    if p :| StandsBefore(p, b, rest) && IsTag(p, number, wireType) {
      VarintExactly(b, Bits(p) % TWO64, rest);
      LowBits(Bits(p));
    }
  }

  lemma LowBits(n: nat)
    ensures n % TWO64 % TWO32 == n % TWO32
  {
    assert n == n / TWO64 * TWO32 * TWO32 + n % TWO64;
    assert (n / TWO64 * TWO32 * TWO32 + n % TWO64) % TWO32 == n % TWO64 % TWO32;
  }

  /** A length counts the bytes that follow it. */
  lemma LengthExactly(b: Bytes, x: Bytes, rest: Bytes)
    ensures ReadLength(b) == Got(x, rest) <==>
      exists prefix :: StandsBefore(prefix, b, x + rest) && Bits(prefix) % TWO32 == |x|
  {
    hide ReadVarint, Bits, IsVarint;
    if ReadLength(b) == Got(x, rest) {
      var v, after := ReadVarint(b).value, ReadVarint(b).rest;
      assert after == x + rest;
      VarintExactly(b, v, after);
      var p :| StandsBefore(p, b, after) && v == Bits(p) % TWO64;
      LowBits(Bits(p));
    }
    if p :| StandsBefore(p, b, x + rest) && Bits(p) % TWO32 == |x| {
      VarintExactly(b, Bits(p) % TWO64, x + rest);
      LowBits(Bits(p));
      CutConcat(x, rest);
    }
  }

  /** A payload is read from exactly the bytes of its wire type. */
  lemma PayloadExactly(wireType: WireType, b: Bytes, v: Value, rest: Bytes)
    ensures ReadValue(wireType, b) == Got(v, rest) <==> exists p :: b == p + rest && IsPayload(p, wireType, v)
  {
    if ReadValue(wireType, b) == Got(v, rest) {
      var p := PayloadIsThere(wireType, b);
    }
    if p :| b == p + rest && IsPayload(p, wireType, v) {
      PayloadIsRead(p, wireType, v, rest);
    }
  }

  lemma PayloadIsThere(wireType: WireType, b: Bytes) returns (p: Bytes)
    requires ReadValue(wireType, b).Got?
    ensures var r := ReadValue(wireType, b); b == p + r.rest && IsPayload(p, wireType, r.value)
  {
    hide Bits, IsVarint, ReadVarint, ReadLength, FromLittleEndian;
    var r := ReadValue(wireType, b);
    if wireType == 0 {
      VarintExactly(b, r.value.varint, r.rest);
      p :| StandsBefore(p, b, r.rest) && r.value.varint == Bits(p) % TWO64;
    } else if wireType == 2 {
      var x := r.value.bytes;
      LengthExactly(b, x, r.rest);
      var prefix :| StandsBefore(prefix, b, x + r.rest) && Bits(prefix) % TWO32 == |x|;
      p := prefix + x;
      Regroup(prefix, x, r.rest);
      assert StandsBefore(prefix, p, x);
    } else if wireType == 1 {
      p := b[..8];
      EightBytesExactly(p);
    } else {
      p := b[..4];
      FourBytesExactly(p);
    }
  }

  lemma PayloadIsRead(p: Bytes, wireType: WireType, v: Value, rest: Bytes)
    requires IsPayload(p, wireType, v)
    ensures ReadValue(wireType, p + rest) == Got(v, rest)
  {
    hide Bits, IsVarint, ReadVarint, ReadLength, FromLittleEndian;
    CutConcat(p, rest);
    match v
    case Varint64(x) =>
      assert StandsBefore(p, p + rest, rest);
      VarintExactly(p + rest, x, rest);
    case LengthDelimited(x) =>
      var prefix :| StandsBefore(prefix, p, x) && Bits(prefix) % TWO32 == |x|;
      Regroup(prefix, x, rest);
      assert StandsBefore(prefix, p + rest, x + rest);
      LengthExactly(p + rest, x, rest);
    case Fixed64(x) => EightBytesExactly(p);
    case Fixed32(x) => FourBytesExactly(p);
  }

  // ---------- Entries ----------

  /** A field, or a group of entries between an opening and a closing tag. */
  datatype Entry = Plain(tag: Bytes, payload: Bytes) | Nested(open: Bytes, entries: seq<Entry>, close: Bytes)

  function EntryBytes(e: Entry): Bytes {
    match e
    case Plain(tag, payload) => tag + payload
    case Nested(open, entries, close) => open + (AllBytes(entries) + close)
  }

  function AllBytes(es: seq<Entry>): Bytes {
    if es == [] then [] else EntryBytes(es[0]) + AllBytes(es[1..])
  }

  ghost predicate Closes(p: Bytes) {
    exists number :: IsTag(p, number, 4)
  }

  /** The entry reads as this field. Of a group only the number of its opening tag counts. */
  ghost predicate IsEntry(e: Entry, f: Field) {
    match e
    case Plain(tag, payload) =>
      f.Field? && exists t :: IsTag(tag, f.number, t) && IsPayload(payload, t, f.value)
    case Nested(open, entries, close) =>
      f.Group? && IsTag(open, f.number, 3) && AreEntries(entries) && Closes(close)
  }

  ghost predicate AreEntries(es: seq<Entry>) {
    forall e <- es :: exists f :: IsEntry(e, f)
  }

  /** A whole tag at the front is read, and nothing of what comes after it. */
  lemma TagIsRead(p: Bytes, number: FieldNumber, wireType: WireType, rest: Bytes)
    requires IsTag(p, number, wireType)
    ensures ReadTag(p + rest) == Got(TagRead(number, wireType), rest)
  {
    hide ReadTag, Bits;
    assert StandsBefore(p, p + rest, rest);
    TagExactly(p + rest, number, wireType, rest);
  }

  lemma TagIsThere(b: Bytes) returns (p: Bytes)
    requires ReadTag(b).Got?
    ensures var r := ReadTag(b); b == p + r.rest && IsTag(p, r.value.number, r.value.wireType)
  {
    hide ReadTag, Bits;
    var r := ReadTag(b);
    TagExactly(b, r.value.number, r.value.wireType, r.rest);
    p :| StandsBefore(p, b, r.rest) && IsTag(p, r.value.number, r.value.wireType);
  }

  /** What is skipped is entries and a closing tag; if the group is nested, what is left closes the outer ones. */
  lemma {:induction false} GroupIsThere(b: Bytes, depth: nat) returns (es: seq<Entry>, close: Bytes, rest: Bytes)
    requires SkipGroup(b, depth).Got?
    ensures AreEntries(es) && Closes(close) && b == AllBytes(es) + (close + rest) && |rest| < |b|
    ensures SkipGroup(b, depth) == if depth == 0 then Got((), rest) else SkipGroup(rest, depth - 1)
    decreases |b|
  {
    hide ReadTag, ReadValue, IsTag, IsPayload, AllBytes;
    var tag := TagIsThere(b);
    var t := ReadTag(b);
    if t.value.wireType == 4 {
      es, close, rest := [], tag, t.rest;
      NoEntries();
      assert [] + (close + rest) == b;
    } else if t.value.wireType == 3 {
      var inner, end, middle := GroupIsThere(t.rest, depth + 1);
      es, close, rest := GroupIsThere(middle, depth);
      var e := Nested(tag, inner, end);
      NestedFirst(e, t.value.number, es);
      OneMoreEntry(e, es, close + rest);
      NestedBytes(e, AllBytes(es) + (close + rest));
      es := [e] + es;
    } else {
      var payload := PayloadIsThere(t.value.wireType, t.rest);
      var r := ReadValue(t.value.wireType, t.rest);
      es, close, rest := GroupIsThere(r.rest, depth);
      var e := Plain(tag, payload);
      PlainFirst(e, t.value.number, t.value.wireType, r.value, es);
      OneMoreEntry(e, es, close + rest);
      Regroup(tag, payload, AllBytes(es) + (close + rest));
      es := [e] + es;
    }
  }

  lemma NoEntries()
    ensures AllBytes([]) == []
  {
  }

  lemma OneMoreEntry(e: Entry, es: seq<Entry>, later: Bytes)
    ensures AllBytes([e] + es) + later == EntryBytes(e) + (AllBytes(es) + later)
  {
    hide EntryBytes;
    assert ([e] + es)[1..] == es;
  }

  lemma NestedBytes(e: Entry, later: Bytes)
    requires e.Nested?
    ensures EntryBytes(e) + later == e.open + (AllBytes(e.entries) + (e.close + later))
  {
    hide AllBytes;
  }

  lemma NestedFirst(e: Entry, number: FieldNumber, es: seq<Entry>)
    requires e.Nested? && IsTag(e.open, number, 3) && AreEntries(e.entries) && Closes(e.close) && AreEntries(es)
    ensures AreEntries([e] + es)
  {
    hide IsTag;
    assert IsEntry(e, Group(number));
  }

  lemma PlainFirst(e: Entry, number: FieldNumber, wireType: WireType, v: Value, es: seq<Entry>)
    requires e.Plain? && IsTag(e.tag, number, wireType) && IsPayload(e.payload, wireType, v) && AreEntries(es)
    ensures AreEntries([e] + es)
  {
    hide IsTag, IsPayload;
    assert IsEntry(e, Field(number, v));
  }

  lemma FirstEntry(es: seq<Entry>) returns (f: Field)
    requires AreEntries(es) && es != []
    ensures IsEntry(es[0], f) && AreEntries(es[1..])
  {
    hide IsEntry;
    assert es[0] in es;
    f :| IsEntry(es[0], f);
    assert forall e <- es[1..] :: e in es;
  }

  lemma PlainIsSkipped(e: Entry, f: Field, later: Bytes, depth: nat)
    requires e.Plain? && IsEntry(e, f)
    ensures SkipGroup(EntryBytes(e) + later, depth) == SkipGroup(later, depth)
  {
    hide ReadTag, ReadValue, IsTag, IsPayload;
    var t :| IsTag(e.tag, f.number, t) && IsPayload(e.payload, t, f.value);
    Regroup(e.tag, e.payload, later);
    TagIsRead(e.tag, f.number, t, e.payload + later);
    PayloadIsRead(e.payload, t, f.value, later);
    PayloadTypes(e.payload, t, f.value);
  }

  lemma OpeningIsSkipped(open: Bytes, number: FieldNumber, later: Bytes, depth: nat)
    requires IsTag(open, number, 3)
    ensures SkipGroup(open + later, depth) == SkipGroup(later, depth + 1)
  {
    hide ReadTag, ReadValue, IsTag;
    TagIsRead(open, number, 3, later);
  }

  lemma ClosingIsSkipped(close: Bytes, rest: Bytes, depth: nat)
    requires Closes(close)
    ensures SkipGroup(close + rest, depth) == if depth == 0 then Got((), rest) else SkipGroup(rest, depth - 1)
  {
    hide ReadTag, ReadValue, IsTag;
    var number :| IsTag(close, number, 4);
    TagIsRead(close, number, 4, rest);
  }

  /** Entries and a closing tag are skipped, and the reader is back at the outer group, if there is one. */
  lemma {:induction false} GroupIsSkipped(es: seq<Entry>, close: Bytes, rest: Bytes, depth: nat)
    requires AreEntries(es) && Closes(close)
    ensures SkipGroup(AllBytes(es) + (close + rest), depth)
         == if depth == 0 then Got((), rest) else SkipGroup(rest, depth - 1)
  {
    hide SkipGroup, IsTag, IsPayload;
    if es == [] {
      ClosingIsSkipped(close, rest, depth);
      assert AllBytes(es) + (close + rest) == close + rest;
    } else {
      var e, later := es[0], AllBytes(es[1..]) + (close + rest);
      assert AllBytes(es) + (close + rest) == EntryBytes(e) + later;
      var f := FirstEntry(es);
      GroupIsSkipped(es[1..], close, rest, depth);
      match e
      case Plain(_, _) => PlainIsSkipped(e, f, later, depth);
      case Nested(open, entries, end) =>
        assert EntryBytes(e) + later == open + (AllBytes(entries) + (end + later));
        OpeningIsSkipped(open, f.number, AllBytes(entries) + (end + later), depth);
        GroupIsSkipped(entries, end, later, depth + 1);
    }
  }

  lemma PayloadTypes(p: Bytes, wireType: WireType, v: Value)
    requires IsPayload(p, wireType, v)
    ensures wireType == 0 || wireType == 1 || wireType == 2 || wireType == 5
  {
  }

  /** At the front of `b` stands an entry, and `rest` comes after it. */
  predicate EntryBefore(e: Entry, b: Bytes, rest: Bytes) {
    b == EntryBytes(e) + rest
  }

  /** A field is read from exactly the bytes of an entry. */
  lemma FieldExactly(b: Bytes, f: Field, rest: Bytes)
    ensures ReadField(b) == Got(f, rest) <==> exists e :: EntryBefore(e, b, rest) && IsEntry(e, f)
  {
    hide ReadField, IsEntry, EntryBytes;
    if ReadField(b) == Got(f, rest) {
      var e := EntryIsThere(b);
    }
    if e :| EntryBefore(e, b, rest) && IsEntry(e, f) {
      EntryIsRead(e, f, rest);
    }
  }

  lemma EntryIsThere(b: Bytes) returns (e: Entry)
    requires ReadField(b).Got?
    ensures EntryBefore(e, b, ReadField(b).rest) && IsEntry(e, ReadField(b).value)
  {
    hide ReadTag, ReadValue, SkipGroup, IsTag, IsPayload;
    var tag := TagIsThere(b);
    var t := ReadTag(b);
    if t.value.wireType == 3 {
      var es, close, rest := GroupIsThere(t.rest, 0);
      e := Nested(tag, es, close);
      assert b == tag + (AllBytes(es) + close) + rest;
    } else {
      var payload := PayloadIsThere(t.value.wireType, t.rest);
      e := Plain(tag, payload);
      assert b == tag + payload + ReadValue(t.value.wireType, t.rest).rest;
    }
  }

  lemma EntryIsRead(e: Entry, f: Field, rest: Bytes)
    requires IsEntry(e, f)
    ensures ReadField(EntryBytes(e) + rest) == Got(f, rest)
  {
    hide ReadTag, ReadValue, SkipGroup, IsTag, IsPayload;
    match e
    case Plain(tag, payload) =>
      var t :| IsTag(tag, f.number, t) && IsPayload(payload, t, f.value);
      assert EntryBytes(e) + rest == tag + (payload + rest);
      TagIsRead(tag, f.number, t, payload + rest);
      PayloadIsRead(payload, t, f.value, rest);
      PayloadTypes(payload, t, f.value);
    case Nested(open, entries, close) =>
      assert EntryBytes(e) + rest == open + (AllBytes(entries) + (close + rest));
      TagIsRead(open, f.number, 3, AllBytes(entries) + (close + rest));
      GroupIsSkipped(entries, close, rest, 0);
  }
}
