/** The coded streams of the runtime, as far as the generated messages use them. */
module Streams {
  import opened Options
  import opened Wire
  import opened Messages

  class CodedInputStream {
    const buffer: Bytes
    /** Whether a singular submessage that occurs again is merged into the one held or replaces it. */
    const merging: bool
    var pos: nat
    var limit: nat

    ghost predicate Valid()
      reads this
    {
      pos <= limit <= |buffer|
    }

    /** The input up to the current limit. */
    function Rest(): Bytes
      requires Valid()
      reads this
    {
      buffer[pos..limit]
    }

    constructor (b: Bytes, merging: bool)
      ensures Valid() && Rest() == b && this.merging == merging
    {
      buffer, this.merging := b, merging;
      pos, limit := 0, |b|;
    }

    predicate Eof()
      requires Valid()
      reads this
      ensures Eof() <==> Rest() == []
    {
      pos == limit
    }

    method ReadTagUnpack() returns (r: Option<TagRead>)
      requires Valid()
      modifies this`pos
      ensures Valid()
      ensures match ReadTag(old(Rest()))
              case Malformed => r == None
              case Got(tag, rest) => r == Some(tag) && Rest() == rest
    {
      match ReadTag(Rest()) {
        case Malformed => r := None;
        case Got(tag, rest) =>
          ReadTagConsumes(Rest());
          r, pos := Some(tag), limit - |rest|;
      }
    }

    /** `read_raw_varint32` followed by `push_limit`: the next message ends where its length says. */
    method PushLength() returns (outer: Option<nat>)
      requires Valid()
      modifies this`pos, this`limit
      ensures Valid()
      ensures match ReadLength(old(Rest()))
              case Malformed => outer == None
              case Got(payload, rest) =>
                outer == Some(old(limit)) && Rest() == payload && limit <= old(limit)
                && buffer[limit..old(limit)] == rest
    {
      match ReadVarint(Rest()) {
        case Malformed => outer := None;
        case Got(v, rest) =>
          ReadVarintConsumes(Rest());
          var length := v % TWO32;
          if length <= |rest| {
            outer, pos := Some(limit), limit - |rest|;
            limit := pos + length;
          } else {
            outer := None;
          }
      }
    }

    method PopLimit(outer: nat)
      requires Valid() && Rest() == [] && limit <= outer <= |buffer|
      modifies this`limit
      ensures Valid() && limit == outer && Rest() == buffer[old(limit)..outer]
    {
      limit := outer;
    }

    /** A field that is not declared: retained, or skipped if it is a group. */
    method ReadUnknownOrSkipGroup(tag: TagRead) returns (r: Option<Field>)
      requires Valid()
      modifies this`pos
      ensures Valid()
      ensures match ReadAfterTag(tag, old(Rest()))
              case Malformed => r == None
              case Got(f, rest) => r == Some(f) && Rest() == rest
    {
      match ReadAfterTag(tag, Rest()) {
        case Malformed => r := None;
        case Got(f, rest) =>
          ReadAfterTagConsumes(tag, Rest());
          r, pos := Some(f), limit - |rest|;
      }
    }

    method ReadBytes(tag: TagRead) returns (r: Option<Bytes>)
      requires Valid()
      modifies this`pos
      ensures Valid()
      ensures match ReadAfterTag(tag, old(Rest()))
              case Malformed => r == None
              case Got(f, rest) => r == AsBytes(f) && (r.Some? ==> Rest() == rest)
    {
      r := None;
      if tag.wireType == 2 {
        match ReadLength(Rest()) {
          case Malformed =>
          case Got(payload, rest) =>
            ReadLengthConsumes(Rest());
            r, pos := Some(payload), limit - |rest|;
        }
      }
    }

    method ReadString(tag: TagRead) returns (r: Option<Utf8>)
      requires Valid()
      modifies this`pos
      ensures Valid()
      ensures match ReadAfterTag(tag, old(Rest()))
              case Malformed => r == None
              case Got(f, rest) => r == AsString(f) && (r.Some? ==> Rest() == rest)
    {
      var b := ReadBytes(tag);
      r := None;
      if b.Some? {
        if IsUtf8(b.value) {
          r := Some(b.value);
        }
      }
    }

    /** The check on the wire type and `read_raw_varint64`. */
    method ReadVarintField(tag: TagRead) returns (r: Option<UInt64>)
      requires Valid()
      modifies this`pos
      ensures Valid()
      ensures match ReadAfterTag(tag, old(Rest()))
              case Malformed => r == None
              case Got(f, rest) => r == AsVarint(f) && (r.Some? ==> Rest() == rest)
    {
      r := None;
      if tag.wireType == 0 {
        match ReadVarint(Rest()) {
          case Malformed =>
          case Got(v, rest) =>
            ReadVarintConsumes(Rest());
            r, pos := Some(v), limit - |rest|;
        }
      }
    }
  }

  // ---------- Walking the table of unknown fields ----------

  /** The fields the table holds for one number and wire type. */
  function Typed(number: FieldNumber, vs: seq<Value>): Layout {
    if vs == [] then [] else Typed(number, vs[..|vs| - 1]) + [Field(number, vs[|vs| - 1])]
  }

  lemma ValuesOfSnoc(fs: Layout, f: PlainField, n: int, t: int)
    ensures ValuesOf(fs + [f], n, t)
         == ValuesOf(fs, n, t) + if f.number == n && TypeOf(f.value) == t then [f.value] else []
  {
    assert (fs + [f])[..|fs|] == fs;
  }

  lemma {:induction false} TypedValues(number: FieldNumber, vs: seq<Value>, wireType: int, n: int, t: int)
    requires forall v <- vs :: TypeOf(v) == wireType
    ensures ValuesOf(Typed(number, vs), n, t) == if n == number && t == wireType then vs else []
  {
    hide ValuesOf;
    if vs == [] {
      ValuesOfNothing(n, t);
    } else {
      var init, last := vs[..|vs| - 1], vs[|vs| - 1];
      TypedValues(number, init, wireType, n, t);
      ValuesOfSnoc(Typed(number, init), Field(number, last), n, t);
      assert vs == init + [last];
    }
  }

  lemma {:induction false} ValuesHaveType(fs: Layout, number: int, wireType: int)
    ensures forall v <- ValuesOf(fs, number, wireType) :: TypeOf(v) == wireType
  {
    if fs != [] {
      ValuesHaveType(fs[..|fs| - 1], number, wireType);
    }
  }

  /** The runtime keeps one list per wire type and walks the lists in this order. */
  function OfNumber(fs: Layout, number: FieldNumber): Layout {
    Typed(number, ValuesOf(fs, number, 5)) + Typed(number, ValuesOf(fs, number, 1))
    + Typed(number, ValuesOf(fs, number, 0)) + Typed(number, ValuesOf(fs, number, 2))
  }

  lemma OfNumberValues(fs: Layout, number: FieldNumber, n: int, t: int)
    ensures ValuesOf(OfNumber(fs, number), n, t) == if n == number then ValuesOf(fs, n, t) else []
  {
    hide ValuesOf, Typed;
    var ws, xs := Typed(number, ValuesOf(fs, number, 5)), Typed(number, ValuesOf(fs, number, 1));
    var ys, zs := Typed(number, ValuesOf(fs, number, 0)), Typed(number, ValuesOf(fs, number, 2));
    ValuesOfConcat(ws, xs, n, t);
    ValuesOfConcat(ws + xs, ys, n, t);
    ValuesOfConcat(ws + xs + ys, zs, n, t);
    OneTypeValues(fs, number, 5, n, t);
    OneTypeValues(fs, number, 1, n, t);
    OneTypeValues(fs, number, 0, n, t);
    OneTypeValues(fs, number, 2, n, t);
    OtherTypesEmpty(fs, n, t);
  }

  lemma OneTypeValues(fs: Layout, number: FieldNumber, wireType: int, n: int, t: int)
    ensures ValuesOf(Typed(number, ValuesOf(fs, number, wireType)), n, t)
         == if n == number && t == wireType then ValuesOf(fs, number, wireType) else []
  {
    ValuesHaveType(fs, number, wireType);
    TypedValues(number, ValuesOf(fs, number, wireType), wireType, n, t);
  }

  lemma {:induction false} OtherTypesEmpty(fs: Layout, n: int, t: int)
    ensures t !in {0, 1, 2, 5} ==> ValuesOf(fs, n, t) == []
  {
    if fs != [] {
      OtherTypesEmpty(fs[..|fs| - 1], n, t);
    }
  }

  class CodedOutputStream {
    var out: Bytes

    constructor ()
      ensures out == []
    {
      out := [];
    }

    method WriteTag(number: FieldNumber, wireType: WireType)
      modifies this
      ensures out == old(out) + Tag(number, wireType)
    {
      out := out + Tag(number, wireType);
    }

    method WriteRawVarint32(v: UInt32)
      modifies this
      ensures out == old(out) + Varint(v)
    {
      out := out + Varint(v);
    }

    /** `write_string` and `write_bytes`, which narrow the length to 32 bits. */
    method WriteBytes(number: FieldNumber, b: Bytes)
      modifies this
      ensures |b| < TWO32 ==> out == old(out) + WriteField(Field(number, LengthDelimited(b)))
    {
      hide Varint, Tag;
      WriteTag(number, 2);
      WriteRawVarint32(|b| % TWO32);
      out := out + b;
      assert |b| < TWO32 ==> |b| % TWO32 == |b|;
    }

    /** `write_int64`, and `write_int32`, which extends the sign first. */
    method WriteInt(number: FieldNumber, v: Int64)
      modifies this
      ensures out == old(out) + WriteField(Field(number, Varint64(ToUnsigned(v))))
    {
      WriteTag(number, 0);
      out := out + Varint(ToUnsigned(v));
    }

    method WriteBool(number: FieldNumber, v: bool)
      modifies this
      ensures out == old(out) + WriteField(Field(number, Varint64(if v then 1 else 0)))
    {
      WriteTag(number, 0);
      out := out + Varint(if v then 1 else 0);
    }

    /** Walks the hash map of unknown fields in whatever order it yields its keys. */
    method WriteUnknownFields(unknown: Layout) returns (ghost emitted: Layout)
      modifies this
      ensures SameTable(unknown, emitted)
      ensures out == old(out) + Serialize(emitted)
    {
      hide ValuesOf, OfNumber, Serialize;
      var remaining: set<FieldNumber> := set f <- unknown :: f.number;
      ghost var done: set<FieldNumber> := {};
      emitted := [];
      SerializeNothing();
      forall n, t
        ensures ValuesOf([], n, t) == []
      {
        ValuesOfNothing(n, t);
      }
      while remaining != {}
        invariant done + remaining == set f <- unknown :: f.number
        invariant done !! remaining
        invariant forall n, t :: ValuesOf(emitted, n, t) == if n in done then ValuesOf(unknown, n, t) else []
        invariant out == old(out) + Serialize(emitted)
        decreases remaining
      {
        var number :| number in remaining;
        ghost var before, was := emitted, done;
        out := out + Serialize(OfNumber(unknown, number));
        SerializeConcat(emitted, OfNumber(unknown, number));
        emitted := emitted + OfNumber(unknown, number);
        remaining, done := remaining - {number}, done + {number};
        forall n, t
          ensures ValuesOf(emitted, n, t) == if n in done then ValuesOf(unknown, n, t) else []
        {
          ValuesOfConcat(before, OfNumber(unknown, number), n, t);
          OfNumberValues(unknown, number, n, t);
        }
      }
      forall n, t
        ensures ValuesOf(unknown, n, t) == ValuesOf(emitted, n, t)
      {
        if n !in done {
          NumberAbsent(unknown, n, t);
        }
      }
    }
  }

  lemma SerializeNothing()
    ensures Serialize([]) == []
  {
  }

  lemma ValuesOfNothing(n: int, t: int)
    ensures ValuesOf([], n, t) == []
  {
  }

  lemma {:induction false} NumberAbsent(fs: Layout, n: int, t: int)
    requires forall f <- fs :: f.number != n
    ensures ValuesOf(fs, n, t) == []
  {
    if fs != [] {
      NumberAbsent(fs[..|fs| - 1], n, t);
    }
  }
}
