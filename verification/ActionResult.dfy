/**
  The generated message objects: fields that `MergeFrom` assigns, a cached size that `ComputeSize` stores, and writers
  that trust the stored sizes of their submessages.
 */
module ActionResultObjects {
  import opened Options
  import opened Wire
  import opened Messages
  import opened Codec
  import opened Normalisation
  import opened Streams

  // ---------- Size formulas of the runtime ----------

  /** Arithmetic on `u32` wraps. */
  function Wrap(v: nat): UInt32 {
    v % TWO32
  }

  /** `string_size` and `bytes_size`. */
  function BytesSize(number: FieldNumber, b: Bytes): nat {
    |Tag(number, 2)| + VarintSize(|b|) + |b|
  }

  /** `value_size` of a varint. */
  function IntSize(number: FieldNumber, v: Int64): nat {
    |Tag(number, 0)| + VarintSize(ToUnsigned(v))
  }

  /** `unknown_fields_size`: the table is summed value by value, so the order does not matter. */
  function UnknownSize(unknown: Layout): (n: nat)
    ensures n == SizeOf(unknown)
  {
    if unknown == [] then 0
    else
      var init, last := unknown[..|unknown| - 1], unknown[|unknown| - 1];
      UnknownSize(init) + |WriteField(last)|
  }

  lemma BytesSizeIsFieldSize(number: FieldNumber, b: Bytes)
    requires number <= 8
    ensures SizeOf(BytesField(number, b)) == if b == [] then 0 else BytesSize(number, b)
  {
    if b != [] {
      SizeOfOne(BytesField(number, b)[0]);
    }
  }

  lemma IntSizeIsFieldSize(number: FieldNumber, v: Int64)
    requires number <= 8
    ensures SizeOf(IntField(number, v)) == if v == 0 then 0 else IntSize(number, v)
  {
    IntFieldSize(number, v);
  }

  lemma WrapsOnlyIfTooLong()
    ensures forall v: nat | v < TWO32 :: Wrap(v) == v
  {
  }

  /** The running size with a `bytes` or `string` field added, which counts only if it is not empty. */
  function AddBytesSize(size: UInt32, number: FieldNumber, b: Bytes): (n: UInt32)
    requires number <= 8
    ensures n == Wrap(size + SizeOf(BytesField(number, b)))
  {
    BytesSizeIsFieldSize(number, b);
    if b == [] then size else Wrap(size + BytesSize(number, b))
  }

  /** The running size with an integer field added, which counts only if it is not zero. */
  function AddIntSize(size: UInt32, number: FieldNumber, v: Int64): (n: UInt32)
    requires number <= 8
    ensures n == Wrap(size + SizeOf(IntField(number, v)))
  {
    IntSizeIsFieldSize(number, v);
    if v == 0 then size else Wrap(size + IntSize(number, v))
  }

  class Digest {
    var hash: Utf8
    var sizeBytes: Int64
    var unknownFields: Layout
    var cachedSize: UInt32

    constructor ()
      ensures Value() == EMPTY_DIGEST
    {
      hash, sizeBytes, unknownFields, cachedSize := [], 0, [], 0;
    }

    ghost function Value(): DigestData
      reads this`hash, this`sizeBytes, this`unknownFields
    {
      DigestData(hash, sizeBytes, unknownFields)
    }

    /** The stored size is the number of bytes a write of this message emits. */
    ghost predicate Sized()
      reads this
    {
      cachedSize == |EncodeDigest(Value())|
    }

    method Clear()
      modifies this
      ensures Value() == EMPTY_DIGEST
    {
      hash, sizeBytes, unknownFields := [], 0, [];
    }

    /** One turn of the reading loop. */
    method MergeField(input: CodedInputStream) returns (ok: bool)
      requires input.Valid()
      modifies this, input`pos
      ensures input.Valid()
      ensures match ReadField(old(input.Rest()))
              case Malformed => !ok
              case Got(f, rest) =>
                match ApplyDigest(old(Value()), f)
                case None => !ok
                case Some(next) => ok && Value() == next && input.Rest() == rest
    {
      hide ReadTag, ReadAfterTag;
      ok := false;
      var tag := input.ReadTagUnpack();
      if tag.None? { return; }
      if tag.value.number == 1 {
        var s := input.ReadString(tag.value);
        if s.None? { return; }
        hash := s.value;
      } else if tag.value.number == 2 {
        var v := input.ReadVarintField(tag.value);
        if v.None? { return; }
        sizeBytes := ToInt64(v.value);
      } else {
        var f := input.ReadUnknownOrSkipGroup(tag.value);
        if f.None? { return; }
        unknownFields := Retain(unknownFields, f.value);
      }
      ok := true;
    }

    method MergeFrom(input: CodedInputStream) returns (ok: bool)
      requires input.Valid()
      modifies this, input`pos
      ensures input.Valid()
      ensures match Merge(DigestReader(), old(Value()), old(input.Rest()))
              case None => !ok
              case Some(d) => ok && Value() == d && input.Rest() == []
    {
      hide ReadField, ApplyDigest;
      ok := true;
      while !input.Eof()
        invariant input.Valid() && ok
        invariant Merge(DigestReader(), Value(), input.Rest())
               == Merge(DigestReader(), old(Value()), old(input.Rest()))
        decreases |input.Rest()|
      {
        ok := MergeField(input);
        if !ok { return; }
      }
    }

    method ComputeSize() returns (mySize: UInt32)
      modifies this`cachedSize
      ensures cachedSize == mySize
      ensures Sized() <==> |EncodeDigest(Value())| < TWO32
      ensures forall d: Digest | old(allocated(d)) :: old(d.Sized()) ==> d.Sized()
    {
      hide AddBytesSize, AddIntSize, Serialize, VarintSize, Wrap;
      DigestSize(Value());
      WrapsOnlyIfTooLong();
      mySize := 0;
      mySize := AddBytesSize(mySize, 1, hash);
      mySize := AddIntSize(mySize, 2, sizeBytes);
      mySize := Wrap(mySize + UnknownSize(unknownFields));
      cachedSize := mySize;
    }

    method WriteToWithCachedSizes(output: CodedOutputStream) returns (ghost written: DigestData)
      modifies output
      ensures SameDigest(Value(), written)
      ensures Sized() ==> output.out == old(output.out) + EncodeDigest(written)
    {
      hide Serialize;
      DigestSize(Value());
      BytesFieldShort(1, hash);
      WriteBytesIfAny(output, 1, hash);
      WriteIntIfNonZero(output, 2, sizeBytes);
      ghost var emitted := output.WriteUnknownFields(unknownFields);
      written := Value().(unknown := emitted);
      SerializeConcat(BytesField(1, hash), IntField(2, sizeBytes));
      SerializeConcat(BytesField(1, hash) + IntField(2, sizeBytes), emitted);
    }
  }

  // ---------- Submessages ----------

  function Present(d: Digest?): set<Digest> {
    if d == null then {} else {d}
  }

  ghost function ValueOf(d: Digest?): Option<DigestData>
    reads Present(d)`hash, Present(d)`sizeBytes, Present(d)`unknownFields
  {
    if d == null then None else Some(d.Value())
  }

  ghost predicate SizedIfPresent(d: Digest?)
    reads Present(d)
  {
    d != null ==> d.Sized()
  }

  /**
    `read_singular_message_into`. The message held is owned by its parent alone, so filling a copy of it and putting
    that in its place is the same as filling it in place.
   */
  method ReadSingularDigest(input: CodedInputStream, tag: TagRead, held: Digest?) returns (d: Digest?)
    requires input.Valid()
    modifies input`pos, input`limit
    ensures d != null ==> fresh(d) && input.Valid() && input.limit == old(input.limit)
    ensures match ReadAfterTag(tag, old(input.Rest()))
            case Malformed => d == null
            case Got(f, rest) =>
              match ReadDigest(input.merging, old(ValueOf(held)), f)
              case None => d == null
              case Some(v) => d != null && Some(d.Value()) == v && input.Rest() == rest
  {
    hide ReadField, ReadLength;
    d := null;
    if tag.wireType != 2 { return; }
    var outer := input.PushLength();
    if outer.None? { return; }
    var next := new Digest();
    if input.merging && held != null {
      next.hash, next.sizeBytes, next.unknownFields := held.hash, held.sizeBytes, held.unknownFields;
    }
    var ok := next.MergeFrom(input);
    if !ok { return; }
    input.PopLimit(outer.value);
    d := next;
  }

  /** The share of an optional submessage in the size of its parent. */
  method ComputeDigestSize(number: FieldNumber, d: Digest?) returns (n: nat)
    requires number <= 8
    modifies Present(d)`cachedSize
    ensures SizeOf(DigestField(number, ValueOf(d))) < TWO32 ==>
      n == SizeOf(DigestField(number, ValueOf(d))) && SizedIfPresent(d)
    ensures forall d: Digest | old(allocated(d)) :: old(d.Sized()) ==> d.Sized()
    ensures forall f: OutputFile | old(allocated(f)) :: old(f.Sized()) ==> f.Sized()
    ensures forall o: OutputDirectory | old(allocated(o)) :: old(o.Sized()) ==> o.Sized()
  {
    hide Serialize, VarintSize;
    SerializeNothing();
    n := 0;
    if d != null {
      DigestFieldSize(number, d.Value());
      var len := d.ComputeSize();
      n := 1 + VarintSize(len) + len;
    }
  }

  method WriteDigest(output: CodedOutputStream, number: FieldNumber, d: Digest?)
    returns (ghost written: Option<DigestData>)
    requires number <= 8
    modifies output
    ensures SameOptional(ValueOf(d), written)
    ensures SizedIfPresent(d) ==> output.out == old(output.out) + Serialize(DigestField(number, written))
  {
    hide Serialize, Varint, EncodeDigest, SameDigest, Tag, DigestField;
    written := None;
    DigestFieldBytes(number, written);
    if d != null {
      output.WriteTag(number, 2);
      output.WriteRawVarint32(d.cachedSize);
      ghost var w := d.WriteToWithCachedSizes(output);
      written := Some(w);
      SameDigestSameSize(d.Value(), w);
      DigestFieldBytes(number, written);
    }
  }

  lemma DigestFieldBytes(number: FieldNumber, d: Option<DigestData>)
    ensures Serialize(DigestField(number, d))
         == match d
            case None => []
            case Some(v) => Tag(number, 2) + Varint(|EncodeDigest(v)|) + EncodeDigest(v)
  {
    hide Serialize, EncodeDigest, Varint;
    SerializeOptional(DigestField(number, d));
    if d.Some? {
      var e := EncodeDigest(d.value);
      assert Tag(number, 2) + (Varint(|e|) + e) == Tag(number, 2) + Varint(|e|) + e;
    }
  }

  method WriteBytesIfAny(output: CodedOutputStream, number: FieldNumber, b: Bytes)
    modifies output
    ensures |b| < TWO32 ==> output.out == old(output.out) + Serialize(BytesField(number, b))
  {
    hide Serialize, WriteField;
    if b != [] {
      output.WriteBytes(number, b);
    }
    SerializeOptional(BytesField(number, b));
  }

  method WriteBoolIfSet(output: CodedOutputStream, number: FieldNumber, b: bool)
    modifies output
    ensures output.out == old(output.out) + Serialize(BoolField(number, b))
  {
    hide Serialize, WriteField;
    if b {
      output.WriteBool(number, true);
    }
    SerializeOptional(BoolField(number, b));
  }

  method WriteIntIfNonZero(output: CodedOutputStream, number: FieldNumber, v: Int64)
    modifies output
    ensures output.out == old(output.out) + Serialize(IntField(number, v))
  {
    hide Serialize, WriteField;
    if v != 0 {
      output.WriteInt(number, v);
    }
    SerializeOptional(IntField(number, v));
  }

  lemma AppendFour(out: Bytes, w: Bytes, x: Bytes, y: Bytes, z: Bytes)
    ensures out + w + x + y + z == out + (w + x + y + z)
  {
  }

  lemma AppendFive(out: Bytes, v: Bytes, w: Bytes, x: Bytes, y: Bytes, z: Bytes)
    ensures out + v + w + x + y + z == out + (v + w + x + y + z)
  {
  }

  lemma SerializeFour(ws: Layout, xs: Layout, ys: Layout, zs: Layout)
    ensures Serialize(ws + xs + ys + zs) == Serialize(ws) + Serialize(xs) + Serialize(ys) + Serialize(zs)
  {
    SerializeConcat(ws, xs);
    SerializeConcat(ws + xs, ys);
    SerializeConcat(ws + xs + ys, zs);
  }

  lemma SerializeFive(vs: Layout, ws: Layout, xs: Layout, ys: Layout, zs: Layout)
    ensures Serialize(vs + ws + xs + ys + zs)
         == Serialize(vs) + Serialize(ws) + Serialize(xs) + Serialize(ys) + Serialize(zs)
  {
    SerializeFour(vs, ws, xs, ys);
    SerializeConcat(vs + ws + xs + ys, zs);
  }

  // ---------- FileNode ----------

  class FileNode {
    var name: Utf8
    var digest: Digest?
    var isExecutable: bool
    var unknownFields: Layout
    var cachedSize: UInt32

    constructor ()
      ensures Value() == EMPTY_FILE_NODE
    {
      name, digest, isExecutable, unknownFields, cachedSize := [], null, false, [], 0;
    }

    ghost function Value(): FileNodeData
      reads this`name, this`digest, this`isExecutable, this`unknownFields
      reads Present(digest)`hash, Present(digest)`sizeBytes, Present(digest)`unknownFields
    {
      FileNodeData(name, ValueOf(digest), isExecutable, unknownFields)
    }

    ghost predicate Sized()
      reads this, Present(digest)
    {
      cachedSize == |EncodeFileNode(Value())| && SizedIfPresent(digest)
    }

    method Clear()
      modifies this
      ensures Value() == EMPTY_FILE_NODE
    {
      name, digest, isExecutable, unknownFields := [], null, false, [];
    }

    /** One turn of the reading loop. */
    method MergeField(input: CodedInputStream) returns (ok: bool)
      requires input.Valid()
      modifies this, input`pos, input`limit
      ensures ok ==> input.Valid() && input.limit == old(input.limit)
      ensures match ReadField(old(input.Rest()))
              case Malformed => !ok
              case Got(f, rest) =>
                match ApplyFileNode(input.merging, old(Value()), f)
                case None => !ok
                case Some(next) => ok && Value() == next && input.Rest() == rest
    {
      hide ReadTag, ReadAfterTag, ReadDigest;
      ok := false;
      var tag := input.ReadTagUnpack();
      if tag.None? { return; }
      if tag.value.number == 1 {
        var s := input.ReadString(tag.value);
        if s.None? { return; }
        name := s.value;
      } else if tag.value.number == 2 {
        var d := ReadSingularDigest(input, tag.value, digest);
        if d == null { return; }
        digest := d;
      } else if tag.value.number == 4 {
        var v := input.ReadVarintField(tag.value);
        if v.None? { return; }
        isExecutable := ToInt32(v.value) != 0;
      } else {
        var f := input.ReadUnknownOrSkipGroup(tag.value);
        if f.None? { return; }
        unknownFields := Retain(unknownFields, f.value);
      }
      ok := true;
    }

    method MergeFrom(input: CodedInputStream) returns (ok: bool)
      requires input.Valid()
      modifies this, input`pos, input`limit
      ensures ok ==> input.Valid() && input.limit == old(input.limit)
      ensures match Merge(FileNodeReader(input.merging), old(Value()), old(input.Rest()))
              case None => !ok
              case Some(n) => ok && Value() == n && input.Rest() == []
    {
      hide ReadField, ApplyFileNode;
      ok := true;
      while !input.Eof()
        invariant ok && input.Valid() && input.limit == old(input.limit)
        invariant Merge(FileNodeReader(input.merging), Value(), input.Rest())
               == Merge(FileNodeReader(input.merging), old(Value()), old(input.Rest()))
        decreases |input.Rest()|
      {
        ok := MergeField(input);
        if !ok { return; }
      }
    }

    method ComputeSize() returns (mySize: UInt32)
      modifies this`cachedSize, Present(digest)`cachedSize
      ensures cachedSize == mySize
      ensures Sized() <==> |EncodeFileNode(Value())| < TWO32
    {
      hide AddBytesSize, AddIntSize, Serialize, VarintSize, Wrap;
      FileNodeSize(Value());
      BoolFieldSize(isExecutable);
      WrapsOnlyIfTooLong();
      mySize := 0;
      mySize := AddBytesSize(mySize, 1, name);
      var len := ComputeDigestSize(2, digest);
      mySize := Wrap(mySize + len);
      if isExecutable {
        mySize := Wrap(mySize + 2);
      }
      mySize := Wrap(mySize + UnknownSize(unknownFields));
      cachedSize := mySize;
    }

    method WriteToWithCachedSizes(output: CodedOutputStream) returns (ghost written: FileNodeData)
      modifies output
      ensures SameFileNode(Value(), written)
      ensures Sized() ==> output.out == old(output.out) + EncodeFileNode(written)
    {
      hide Serialize;
      FileNodeSize(Value());
      BytesFieldShort(1, name);
      WriteBytesIfAny(output, 1, name);
      ghost var d := WriteDigest(output, 2, digest);
      WriteBoolIfSet(output, 4, isExecutable);
      ghost var emitted := output.WriteUnknownFields(unknownFields);
      written := FileNodeData(name, d, isExecutable, emitted);
      SerializeFour(BytesField(1, name), DigestField(2, d), BoolField(4, isExecutable), emitted);
      AppendFour(old(output.out), Serialize(BytesField(1, name)), Serialize(DigestField(2, d)),
                 Serialize(BoolField(4, isExecutable)), Serialize(emitted));
    }
  }

  // ---------- OutputFile ----------

  class OutputFile {
    var path: Utf8
    var digest: Digest?
    var content: Bytes
    var isExecutable: bool
    var unknownFields: Layout
    var cachedSize: UInt32

    constructor ()
      ensures Value() == EMPTY_OUTPUT_FILE
    {
      path, digest, content, isExecutable, unknownFields, cachedSize := [], null, [], false, [], 0;
    }

    ghost function Value(): OutputFileData
      reads this`path, this`digest, this`content, this`isExecutable, this`unknownFields
      reads Present(digest)`hash, Present(digest)`sizeBytes, Present(digest)`unknownFields
    {
      OutputFileData(path, ValueOf(digest), content, isExecutable, unknownFields)
    }

    ghost predicate Sized()
      reads this, Present(digest)
    {
      cachedSize == |EncodeOutputFile(Value())| && SizedIfPresent(digest)
    }

    method Clear()
      modifies this
      ensures Value() == EMPTY_OUTPUT_FILE
    {
      path, digest, content, isExecutable, unknownFields := [], null, [], false, [];
    }

    /** One turn of the reading loop. */
    method MergeField(input: CodedInputStream) returns (ok: bool)
      requires input.Valid()
      modifies this, input`pos, input`limit
      ensures ok ==> input.Valid() && input.limit == old(input.limit)
      ensures match ReadField(old(input.Rest()))
              case Malformed => !ok
              case Got(f, rest) =>
                match ApplyOutputFile(input.merging, old(Value()), f)
                case None => !ok
                case Some(next) => ok && Value() == next && input.Rest() == rest
    {
      hide ReadTag, ReadAfterTag, ReadDigest;
      ok := false;
      var tag := input.ReadTagUnpack();
      if tag.None? { return; }
      if tag.value.number == 1 {
        var s := input.ReadString(tag.value);
        if s.None? { return; }
        path := s.value;
      } else if tag.value.number == 2 {
        var d := ReadSingularDigest(input, tag.value, digest);
        if d == null { return; }
        digest := d;
      } else if tag.value.number == 3 {
        var b := input.ReadBytes(tag.value);
        if b.None? { return; }
        content := b.value;
      } else if tag.value.number == 4 {
        var v := input.ReadVarintField(tag.value);
        if v.None? { return; }
        isExecutable := ToInt32(v.value) != 0;
      } else {
        var f := input.ReadUnknownOrSkipGroup(tag.value);
        if f.None? { return; }
        unknownFields := Retain(unknownFields, f.value);
      }
      ok := true;
    }

    method MergeFrom(input: CodedInputStream) returns (ok: bool)
      requires input.Valid()
      modifies this, input`pos, input`limit
      ensures ok ==> input.Valid() && input.limit == old(input.limit)
      ensures match Merge(OutputFileReader(input.merging), old(Value()), old(input.Rest()))
              case None => !ok
              case Some(o) => ok && Value() == o && input.Rest() == []
    {
      hide ReadField, ApplyOutputFile;
      ok := true;
      while !input.Eof()
        invariant ok && input.Valid() && input.limit == old(input.limit)
        invariant Merge(OutputFileReader(input.merging), Value(), input.Rest())
               == Merge(OutputFileReader(input.merging), old(Value()), old(input.Rest()))
        decreases |input.Rest()|
      {
        ok := MergeField(input);
        if !ok { return; }
      }
    }

    method ComputeSize() returns (mySize: UInt32)
      modifies this`cachedSize, Present(digest)`cachedSize
      ensures cachedSize == mySize
      ensures Sized() <==> |EncodeOutputFile(Value())| < TWO32
      ensures Sized() ==> mySize == |EncodeOutputFile(Value())|
      ensures forall f: OutputFile | old(allocated(f)) :: old(f.Sized()) ==> f.Sized()
    {
      hide AddBytesSize, AddIntSize, Serialize, VarintSize, Wrap, DigestField, BytesSize, EncodeDigest;
      OutputFileSize(Value());
      BoolFieldSize(isExecutable);
      WrapsOnlyIfTooLong();
      mySize := 0;
      mySize := AddBytesSize(mySize, 1, path);
      var len := ComputeDigestSize(2, digest);
      mySize := Wrap(mySize + len);
      mySize := AddBytesSize(mySize, 3, content);
      if isExecutable {
        mySize := Wrap(mySize + 2);
      }
      mySize := Wrap(mySize + UnknownSize(unknownFields));
      cachedSize := mySize;
    }

    method WriteToWithCachedSizes(output: CodedOutputStream) returns (ghost written: OutputFileData)
      modifies output
      ensures SameOutputFile(Value(), written)
      ensures Sized() ==> output.out == old(output.out) + EncodeOutputFile(written)
    {
      hide Serialize;
      OutputFileSize(Value());
      BytesFieldShort(1, path);
      BytesFieldShort(3, content);
      WriteBytesIfAny(output, 1, path);
      ghost var d := WriteDigest(output, 2, digest);
      WriteBytesIfAny(output, 3, content);
      WriteBoolIfSet(output, 4, isExecutable);
      ghost var emitted := output.WriteUnknownFields(unknownFields);
      written := OutputFileData(path, d, content, isExecutable, emitted);
      SerializeFive(BytesField(1, path), DigestField(2, d), BytesField(3, content), BoolField(4, isExecutable),
                    emitted);
      AppendFive(old(output.out), Serialize(BytesField(1, path)), Serialize(DigestField(2, d)),
                 Serialize(BytesField(3, content)), Serialize(BoolField(4, isExecutable)), Serialize(emitted));
    }
  }

  // ---------- OutputDirectory ----------

  class OutputDirectory {
    var path: Utf8
    var digest: Digest?
    var treeDigest: Digest?
    var unknownFields: Layout
    var cachedSize: UInt32

    constructor ()
      ensures Value() == EMPTY_OUTPUT_DIRECTORY
    {
      path, digest, treeDigest, unknownFields, cachedSize := [], null, null, [], 0;
    }

    ghost function Value(): OutputDirectoryData
      reads this`path, this`digest, this`treeDigest, this`unknownFields
      reads Present(digest)`hash, Present(digest)`sizeBytes, Present(digest)`unknownFields
      reads Present(treeDigest)`hash, Present(treeDigest)`sizeBytes, Present(treeDigest)`unknownFields
    {
      OutputDirectoryData(path, ValueOf(digest), ValueOf(treeDigest), unknownFields)
    }

    ghost predicate Sized()
      reads this, Present(digest), Present(treeDigest)
    {
      cachedSize == |EncodeOutputDirectory(Value())| && SizedIfPresent(digest) && SizedIfPresent(treeDigest)
    }

    method Clear()
      modifies this
      ensures Value() == EMPTY_OUTPUT_DIRECTORY
    {
      path, digest, treeDigest, unknownFields := [], null, null, [];
    }

    /** One turn of the reading loop. */
    method MergeField(input: CodedInputStream) returns (ok: bool)
      requires input.Valid()
      modifies this, input`pos, input`limit
      ensures ok ==> input.Valid() && input.limit == old(input.limit)
      ensures match ReadField(old(input.Rest()))
              case Malformed => !ok
              case Got(f, rest) =>
                match ApplyOutputDirectory(input.merging, old(Value()), f)
                case None => !ok
                case Some(next) => ok && Value() == next && input.Rest() == rest
    {
      hide ReadTag, ReadAfterTag, ReadDigest;
      ok := false;
      var tag := input.ReadTagUnpack();
      if tag.None? { return; }
      if tag.value.number == 1 {
        var s := input.ReadString(tag.value);
        if s.None? { return; }
        path := s.value;
      } else if tag.value.number == 2 {
        var d := ReadSingularDigest(input, tag.value, digest);
        if d == null { return; }
        digest := d;
      } else if tag.value.number == 3 {
        var d := ReadSingularDigest(input, tag.value, treeDigest);
        if d == null { return; }
        treeDigest := d;
      } else {
        var f := input.ReadUnknownOrSkipGroup(tag.value);
        if f.None? { return; }
        unknownFields := Retain(unknownFields, f.value);
      }
      ok := true;
    }

    method MergeFrom(input: CodedInputStream) returns (ok: bool)
      requires input.Valid()
      modifies this, input`pos, input`limit
      ensures ok ==> input.Valid() && input.limit == old(input.limit)
      ensures match Merge(OutputDirectoryReader(input.merging), old(Value()), old(input.Rest()))
              case None => !ok
              case Some(o) => ok && Value() == o && input.Rest() == []
    {
      hide ReadField, ApplyOutputDirectory;
      ok := true;
      while !input.Eof()
        invariant ok && input.Valid() && input.limit == old(input.limit)
        invariant Merge(OutputDirectoryReader(input.merging), Value(), input.Rest())
               == Merge(OutputDirectoryReader(input.merging), old(Value()), old(input.Rest()))
        decreases |input.Rest()|
      {
        ok := MergeField(input);
        if !ok { return; }
      }
    }

    method ComputeSize() returns (mySize: UInt32)
      modifies this`cachedSize, Present(digest)`cachedSize, Present(treeDigest)`cachedSize
      ensures cachedSize == mySize
      ensures Sized() <==> |EncodeOutputDirectory(Value())| < TWO32
      ensures Sized() ==> mySize == |EncodeOutputDirectory(Value())|
      ensures forall d: Digest | old(allocated(d)) :: old(d.Sized()) ==> d.Sized()
      ensures forall o: OutputDirectory | old(allocated(o)) :: old(o.Sized()) ==> o.Sized()
    {
      hide AddBytesSize, AddIntSize, Serialize, VarintSize, Wrap, DigestField, BytesSize, BytesField;
      hide EncodeDigest, UnknownSize, EncodeOutputFile, EncodeOutputDirectory;
      OutputDirectorySize(Value());
      WrapsOnlyIfTooLong();
      mySize := 0;
      mySize := AddBytesSize(mySize, 1, path);
      var len := ComputeDigestSize(2, digest);
      mySize := Wrap(mySize + len);
      len := ComputeDigestSize(3, treeDigest);
      mySize := Wrap(mySize + len);
      mySize := Wrap(mySize + UnknownSize(unknownFields));
      cachedSize := mySize;
    }

    method WriteToWithCachedSizes(output: CodedOutputStream) returns (ghost written: OutputDirectoryData)
      modifies output
      ensures SameOutputDirectory(Value(), written)
      ensures Sized() ==> output.out == old(output.out) + EncodeOutputDirectory(written)
    {
      hide Serialize;
      OutputDirectorySize(Value());
      BytesFieldShort(1, path);
      WriteBytesIfAny(output, 1, path);
      ghost var d := WriteDigest(output, 2, digest);
      ghost var t := WriteDigest(output, 3, treeDigest);
      ghost var emitted := output.WriteUnknownFields(unknownFields);
      written := OutputDirectoryData(path, d, t, emitted);
      SerializeFour(BytesField(1, path), DigestField(2, d), DigestField(3, t), emitted);
      AppendFour(old(output.out), Serialize(BytesField(1, path)), Serialize(DigestField(2, d)),
                 Serialize(DigestField(3, t)), Serialize(emitted));
    }
  }

  lemma SerializeOptional(fs: Layout)
    requires |fs| <= 1
    ensures Serialize(fs) == if fs == [] then [] else WriteField(fs[0])
  {
    if fs != [] {
      assert fs == [fs[0]];
      SerializeOne(fs[0]);
    }
  }

  lemma BytesFieldShort(number: FieldNumber, b: Bytes)
    ensures |b| <= SizeOf(BytesField(number, b))
  {
    if b != [] {
      SizeOfOne(BytesField(number, b)[0]);
    }
  }

  // ---------- Repeated submessages ----------

  ghost function FileDigests(fs: seq<OutputFile>): set<Digest>
    reads fs`digest
  {
    set f <- fs, d <- Present(f.digest) :: d
  }

  ghost function FileValues(fs: seq<OutputFile>): (vs: seq<OutputFileData>)
    reads fs`path, fs`digest, fs`content, fs`isExecutable, fs`unknownFields
    reads FileDigests(fs)`hash, FileDigests(fs)`sizeBytes, FileDigests(fs)`unknownFields
    ensures |vs| == |fs| && forall i | 0 <= i < |fs| :: vs[i] == fs[i].Value()
  {
    if fs == [] then [] else FileValues(fs[..|fs| - 1]) + [fs[|fs| - 1].Value()]
  }

  ghost function DirectoryDigests(ds: seq<OutputDirectory>): set<Digest>
    reads ds`digest, ds`treeDigest
  {
    (set o <- ds, d <- Present(o.digest) :: d) + (set o <- ds, d <- Present(o.treeDigest) :: d)
  }

  ghost function DirectoryValues(ds: seq<OutputDirectory>): (vs: seq<OutputDirectoryData>)
    reads ds`path, ds`digest, ds`treeDigest, ds`unknownFields
    reads DirectoryDigests(ds)`hash, DirectoryDigests(ds)`sizeBytes, DirectoryDigests(ds)`unknownFields
    ensures |vs| == |ds| && forall i | 0 <= i < |ds| :: vs[i] == ds[i].Value()
  {
    if ds == [] then [] else DirectoryValues(ds[..|ds| - 1]) + [ds[|ds| - 1].Value()]
  }

  ghost predicate FilesSized(fs: seq<OutputFile>)
    reads fs, FileDigests(fs)
  {
    forall f <- fs :: f.Sized()
  }

  ghost predicate DirectoriesSized(ds: seq<OutputDirectory>)
    reads ds, DirectoryDigests(ds)
  {
    forall d <- ds :: d.Sized()
  }

  lemma FileValuesSnoc(fs: seq<OutputFile>, f: OutputFile)
    ensures FileValues(fs + [f]) == FileValues(fs) + [f.Value()]
  {
    assert (fs + [f])[..|fs|] == fs;
  }

  lemma DirectoryValuesSnoc(ds: seq<OutputDirectory>, d: OutputDirectory)
    ensures DirectoryValues(ds + [d]) == DirectoryValues(ds) + [d.Value()]
  {
    assert (ds + [d])[..|ds|] == ds;
  }

  lemma {:induction false} FilesPrefixSize(vs: seq<OutputFileData>, i: nat)
    requires i <= |vs|
    ensures SizeOf(FilesFields(vs[..i])) <= SizeOf(FilesFields(vs))
    decreases |vs|
  {
    hide Serialize, FilesFields;
    if i < |vs| {
      var init, last := vs[..|vs| - 1], vs[|vs| - 1];
      FilesPrefixSize(init, i);
      assert init[..i] == vs[..i];
      assert vs == init + [last];
      FilesSizeSnoc(init, last);
    } else {
      assert vs[..i] == vs;
    }
  }

  lemma {:induction false} DirectoriesPrefixSize(vs: seq<OutputDirectoryData>, i: nat)
    requires i <= |vs|
    ensures SizeOf(DirectoriesFields(vs[..i])) <= SizeOf(DirectoriesFields(vs))
    decreases |vs|
  {
    hide Serialize, DirectoriesFields;
    if i < |vs| {
      var init, last := vs[..|vs| - 1], vs[|vs| - 1];
      DirectoriesPrefixSize(init, i);
      assert init[..i] == vs[..i];
      assert vs == init + [last];
      DirectoriesSizeSnoc(init, last);
    } else {
      assert vs[..i] == vs;
    }
  }

  /** What message `i` adds to the size of those before it, which stays within the size of all. */
  lemma FilesSizeStep(vs: seq<OutputFileData>, i: nat)
    requires i < |vs|
    ensures SizeOf(FilesFields(vs[..i + 1]))
         == SizeOf(FilesFields(vs[..i])) + 1 + VarintSize(|EncodeOutputFile(vs[i])|) + |EncodeOutputFile(vs[i])|
    ensures SizeOf(FilesFields(vs[..i + 1])) <= SizeOf(FilesFields(vs))
  {
    hide Serialize, FilesFields;
    FilesSizeSnoc(vs[..i], vs[i]);
    assert vs[..i + 1] == vs[..i] + [vs[i]];
    FilesPrefixSize(vs, i + 1);
  }

  lemma FileDigestsCover(fs: seq<OutputFile>)
    ensures forall f <- fs :: Present(f.digest) <= FileDigests(fs)
  {
  }

  /** What message `i` adds to the size of those before it, which stays within the size of all. */
  lemma DirectoriesSizeStep(vs: seq<OutputDirectoryData>, i: nat)
    requires i < |vs|
    ensures SizeOf(DirectoriesFields(vs[..i + 1]))
         == SizeOf(DirectoriesFields(vs[..i])) + 1 + VarintSize(|EncodeOutputDirectory(vs[i])|)
            + |EncodeOutputDirectory(vs[i])|
    ensures SizeOf(DirectoriesFields(vs[..i + 1])) <= SizeOf(DirectoriesFields(vs))
  {
    hide Serialize, DirectoriesFields;
    DirectoriesSizeSnoc(vs[..i], vs[i]);
    assert vs[..i + 1] == vs[..i] + [vs[i]];
    DirectoriesPrefixSize(vs, i + 1);
  }

  lemma DirectoryDigestsCover(ds: seq<OutputDirectory>)
    ensures forall o <- ds :: Present(o.digest) <= DirectoryDigests(ds) && Present(o.treeDigest) <= DirectoryDigests(ds)
  {
  }

  /** The loop over `output_files` in `compute_size`. */
  method ComputeFilesSize(fs: seq<OutputFile>) returns (n: UInt32)
    modifies fs`cachedSize, FileDigests(fs)`cachedSize
    ensures SizeOf(FilesFields(FileValues(fs))) < TWO32 ==>
      n == SizeOf(FilesFields(FileValues(fs))) && FilesSized(fs)
  {
    hide Serialize, VarintSize, Wrap, FilesFields, EncodeOutputFile, FileValues, OutputFile.Sized;
    hide FileDigests;
    FileDigestsCover(fs);
    ghost var vs := FileValues(fs);
    ghost var fits := SizeOf(FilesFields(vs)) < TWO32;
    WrapsOnlyIfTooLong();
    NoFiles();
    n := 0;
    for i := 0 to |fs|
      invariant forall j | 0 <= j < |fs| :: fs[j].Value() == vs[j]
      invariant fits ==> n == SizeOf(FilesFields(vs[..i]))
      invariant fits ==> forall j | 0 <= j < i :: fs[j].Sized()
    {
      FilesSizeStep(vs, i);
      var len := fs[i].ComputeSize();
      n := Wrap(n + 1 + VarintSize(len) + len);
    }
    assert vs[..|fs|] == vs;
    assert FileValues(fs) == vs;
  }

  lemma NoFiles()
    ensures Serialize(FilesFields([])) == []
    ensures Serialize(DirectoriesFields([])) == []
  {
  }

  /** The loop over `output_directories` in `compute_size`. */
  method ComputeDirectoriesSize(ds: seq<OutputDirectory>) returns (n: UInt32)
    modifies ds`cachedSize, DirectoryDigests(ds)`cachedSize
    ensures SizeOf(DirectoriesFields(DirectoryValues(ds))) < TWO32 ==>
      n == SizeOf(DirectoriesFields(DirectoryValues(ds))) && DirectoriesSized(ds)
    ensures forall d: Digest | old(allocated(d)) :: old(d.Sized()) ==> d.Sized()
  {
    hide Serialize, VarintSize, Wrap, DirectoriesFields, EncodeOutputDirectory, DirectoryValues, OutputDirectory.Sized;
    hide DirectoryDigests, EncodeDigest, Digest.Sized, SizedIfPresent, OutputDirectory.Value;
    DirectoryDigestsCover(ds);
    ghost var vs := DirectoryValues(ds);
    ghost var fits := SizeOf(DirectoriesFields(vs)) < TWO32;
    WrapsOnlyIfTooLong();
    NoFiles();
    n := 0;
    for i := 0 to |ds|
      invariant forall j | 0 <= j < |ds| :: ds[j].Value() == vs[j]
      invariant fits ==> n == SizeOf(DirectoriesFields(vs[..i]))
      invariant fits ==> forall j | 0 <= j < i :: ds[j].Sized()
      invariant forall d: Digest | old(allocated(d)) :: old(d.Sized()) ==> d.Sized()
    {
      DirectoriesSizeStep(vs, i);
      var len := ds[i].ComputeSize();
      n := Wrap(n + 1 + VarintSize(len) + len);
    }
    assert vs[..|ds|] == vs;
    assert DirectoryValues(ds) == vs;
  }

  /** One turn of the loop over `output_files`: the tag, the stored size, the message. */
  method WriteOutputFile(output: CodedOutputStream, f: OutputFile) returns (ghost written: OutputFileData)
    modifies output
    ensures SameOutputFile(f.Value(), written)
    ensures f.Sized() ==>
      output.out == old(output.out) + Tag(2, 2) + Varint(|EncodeOutputFile(written)|) + EncodeOutputFile(written)
  {
    hide Serialize, Varint, Tag, EncodeOutputFile, SameOutputFile;
    output.WriteTag(2, 2);
    output.WriteRawVarint32(f.cachedSize);
    written := f.WriteToWithCachedSizes(output);
    SameOutputFileSameSize(f.Value(), written);
  }

  method WriteFiles(output: CodedOutputStream, fs: seq<OutputFile>) returns (ghost written: seq<OutputFileData>)
    modifies output
    ensures SameFiles(old(FileValues(fs)), written)
    ensures old(FilesSized(fs)) ==> output.out == old(output.out) + Serialize(FilesFields(written))
  {
    hide Serialize, Varint, Tag, FilesFields, EncodeOutputFile, FileValues, SameOutputFile;
    ghost var vs, sized, start := FileValues(fs), FilesSized(fs), output.out;
    NoFiles();
    written := [];
    for i := 0 to |fs|
      invariant forall j | 0 <= j < |fs| :: fs[j].Value() == vs[j]
      invariant sized ==> forall j | 0 <= j < |fs| :: fs[j].Sized()
      invariant |written| == i && forall j | 0 <= j < i :: SameOutputFile(vs[j], written[j])
      invariant sized ==> output.out == start + Serialize(FilesFields(written))
    {
      ghost var w := WriteOutputFile(output, fs[i]);
      FilesSerializeSnoc(written, w);
      written := written + [w];
    }
    assert FileValues(fs) == vs;
  }

  lemma FilesSerializeSnoc(vs: seq<OutputFileData>, v: OutputFileData)
    ensures Serialize(FilesFields(vs + [v]))
         == Serialize(FilesFields(vs)) + Tag(2, 2) + Varint(|EncodeOutputFile(v)|) + EncodeOutputFile(v)
  {
    hide EncodeOutputFile, Varint, Flatten;
    assert (vs + [v])[..|vs + [v]| - 1] == vs;
    var f := Field(2, LengthDelimited(EncodeOutputFile(v)));
    SerializeConcat(FilesFields(vs), [f]);
    SerializeOne(f);
  }

  /** One turn of the loop over `output_directories`: the tag, the stored size, the message. */
  method WriteOutputDirectory(output: CodedOutputStream, d: OutputDirectory)
    returns (ghost written: OutputDirectoryData)
    modifies output
    ensures SameOutputDirectory(d.Value(), written)
    ensures d.Sized() ==>
      output.out == old(output.out) + Tag(3, 2) + Varint(|EncodeOutputDirectory(written)|)
        + EncodeOutputDirectory(written)
  {
    hide Serialize, Varint, Tag, EncodeOutputDirectory, SameOutputDirectory;
    output.WriteTag(3, 2);
    output.WriteRawVarint32(d.cachedSize);
    written := d.WriteToWithCachedSizes(output);
    SameOutputDirectorySameSize(d.Value(), written);
  }

  method WriteDirectories(output: CodedOutputStream, ds: seq<OutputDirectory>)
    returns (ghost written: seq<OutputDirectoryData>)
    modifies output
    ensures SameDirectories(old(DirectoryValues(ds)), written)
    ensures old(DirectoriesSized(ds)) ==> output.out == old(output.out) + Serialize(DirectoriesFields(written))
  {
    hide Serialize, Varint, Tag, DirectoriesFields, EncodeOutputDirectory, DirectoryValues, SameOutputDirectory;
    hide EncodeDigest;
    ghost var vs, sized, start := DirectoryValues(ds), DirectoriesSized(ds), output.out;
    NoFiles();
    written := [];
    for i := 0 to |ds|
      invariant forall j | 0 <= j < |ds| :: ds[j].Value() == vs[j]
      invariant sized ==> forall j | 0 <= j < |ds| :: ds[j].Sized()
      invariant |written| == i && forall j | 0 <= j < i :: SameOutputDirectory(vs[j], written[j])
      invariant sized ==> output.out == start + Serialize(DirectoriesFields(written))
    {
      ghost var w := WriteOutputDirectory(output, ds[i]);
      DirectoriesSerializeSnoc(written, w);
      written := written + [w];
    }
    assert DirectoryValues(ds) == vs;
  }

  lemma DirectoriesSerializeSnoc(vs: seq<OutputDirectoryData>, v: OutputDirectoryData)
    ensures Serialize(DirectoriesFields(vs + [v]))
         == Serialize(DirectoriesFields(vs)) + Tag(3, 2) + Varint(|EncodeOutputDirectory(v)|)
            + EncodeOutputDirectory(v)
  {
    hide EncodeOutputDirectory, Varint, Flatten;
    assert (vs + [v])[..|vs + [v]| - 1] == vs;
    var f := Field(3, LengthDelimited(EncodeOutputDirectory(v)));
    SerializeConcat(DirectoriesFields(vs), [f]);
    SerializeOne(f);
  }

  method ReadOutputFile(input: CodedInputStream, tag: TagRead) returns (o: OutputFile?)
    requires input.Valid()
    modifies input`pos, input`limit
    ensures o != null ==> fresh(o) && input.Valid() && input.limit == old(input.limit)
    ensures match ReadAfterTag(tag, old(input.Rest()))
            case Malformed => o == null
            case Got(f, rest) =>
              match AsBytes(f)
              case None => o == null
              case Some(payload) =>
                match Merge(OutputFileReader(input.merging), EMPTY_OUTPUT_FILE, payload)
                case None => o == null
                case Some(v) => o != null && o.Value() == v && input.Rest() == rest
  {
    hide ReadField, ReadLength;
    o := null;
    if tag.wireType != 2 { return; }
    var outer := input.PushLength();
    if outer.None? { return; }
    var next := new OutputFile();
    var ok := next.MergeFrom(input);
    if !ok { return; }
    input.PopLimit(outer.value);
    o := next;
  }

  method ReadOutputDirectory(input: CodedInputStream, tag: TagRead) returns (o: OutputDirectory?)
    requires input.Valid()
    modifies input`pos, input`limit
    ensures o != null ==> fresh(o) && input.Valid() && input.limit == old(input.limit)
    ensures match ReadAfterTag(tag, old(input.Rest()))
            case Malformed => o == null
            case Got(f, rest) =>
              match AsBytes(f)
              case None => o == null
              case Some(payload) =>
                match Merge(OutputDirectoryReader(input.merging), EMPTY_OUTPUT_DIRECTORY, payload)
                case None => o == null
                case Some(v) => o != null && o.Value() == v && input.Rest() == rest
  {
    hide ReadField, ReadLength;
    o := null;
    if tag.wireType != 2 { return; }
    var outer := input.PushLength();
    if outer.None? { return; }
    var next := new OutputDirectory();
    var ok := next.MergeFrom(input);
    if !ok { return; }
    input.PopLimit(outer.value);
    o := next;
  }

  lemma ActionResultParts(a: ActionResultData)
    ensures |EncodeActionResult(a)|
         == SizeOf(FilesFields(a.outputFiles)) + SizeOf(DirectoriesFields(a.outputDirectories))
            + SizeOf(SingularFields(a)) + SizeOf(a.unknown)
  {
    SizeOfFour(FilesFields(a.outputFiles), DirectoriesFields(a.outputDirectories), SingularFields(a), a.unknown);
  }

  // ---------- ActionResult ----------

  class ActionResult {
    var outputFiles: seq<OutputFile>
    var outputDirectories: seq<OutputDirectory>
    var exitCode: Int32
    var stdoutRaw: Bytes
    var stdoutDigest: Digest?
    var stderrRaw: Bytes
    var stderrDigest: Digest?
    var unknownFields: Layout
    var cachedSize: UInt32

    constructor ()
      ensures Value() == EMPTY_ACTION_RESULT
    {
      outputFiles, outputDirectories, exitCode := [], [], 0;
      stdoutRaw, stdoutDigest, stderrRaw, stderrDigest := [], null, [], null;
      unknownFields, cachedSize := [], 0;
    }

    /** All digests below this message. */
    ghost function Digests(): set<Digest>
      reads this`outputFiles, this`outputDirectories, this`stdoutDigest, this`stderrDigest
      reads outputFiles`digest, outputDirectories`digest, outputDirectories`treeDigest
    {
      FileDigests(outputFiles) + DirectoryDigests(outputDirectories) + Present(stdoutDigest) + Present(stderrDigest)
    }

    ghost function Value(): ActionResultData
      reads this`outputFiles, this`outputDirectories, this`exitCode, this`stdoutRaw, this`stdoutDigest
      reads this`stderrRaw, this`stderrDigest, this`unknownFields
      reads outputFiles`path, outputFiles`digest, outputFiles`content, outputFiles`isExecutable
      reads outputFiles`unknownFields
      reads outputDirectories`path, outputDirectories`digest, outputDirectories`treeDigest
      reads outputDirectories`unknownFields
      reads Digests()`hash, Digests()`sizeBytes, Digests()`unknownFields
    {
      ActionResultData(
        FileValues(outputFiles), DirectoryValues(outputDirectories), exitCode,
        stdoutRaw, ValueOf(stdoutDigest), stderrRaw, ValueOf(stderrDigest), unknownFields)
    }

    /** Every message of the tree has stored exactly the number of bytes it writes. */
    ghost predicate Sized()
      reads this, outputFiles, outputDirectories, Digests()
    {
      && cachedSize == |EncodeActionResult(Value())|
      && FilesSized(outputFiles) && DirectoriesSized(outputDirectories)
      && SizedIfPresent(stdoutDigest) && SizedIfPresent(stderrDigest)
    }

    method Clear()
      modifies this
      ensures Value() == EMPTY_ACTION_RESULT
    {
      outputFiles, outputDirectories, exitCode := [], [], 0;
      stdoutRaw, stdoutDigest, stderrRaw, stderrDigest := [], null, [], null;
      unknownFields := [];
    }

    /** The turn of the loop for field 2: `read_repeated_message_into`. */
    method AppendOutputFile(input: CodedInputStream, tag: TagRead) returns (ok: bool)
      requires input.Valid() && tag.number == 2
      modifies this`outputFiles, input`pos, input`limit
      ensures ok ==> input.Valid() && input.limit == old(input.limit)
      ensures match ReadAfterTag(tag, old(input.Rest()))
              case Malformed => !ok
              case Got(f, rest) =>
                match ApplyActionResult(input.merging, old(Value()), f)
                case None => !ok
                case Some(next) => ok && Value() == next && input.Rest() == rest
    {
      hide ReadField, ReadAfterTag, FileValues, DirectoryValues, Merge;
      hide ActionResult.Digests, FileDigests, DirectoryDigests;
      ghost var before := Value();
      var next := ReadOutputFile(input, tag);
      ok := next != null;
      assert Value() == before;
      if ok {
        FileValuesSnoc(outputFiles, next);
        outputFiles := outputFiles + [next];
      }
    }

    /** The turn of the loop for field 3: `read_repeated_message_into`. */
    method AppendOutputDirectory(input: CodedInputStream, tag: TagRead) returns (ok: bool)
      requires input.Valid() && tag.number == 3
      modifies this`outputDirectories, input`pos, input`limit
      ensures ok ==> input.Valid() && input.limit == old(input.limit)
      ensures match ReadAfterTag(tag, old(input.Rest()))
              case Malformed => !ok
              case Got(f, rest) =>
                match ApplyActionResult(input.merging, old(Value()), f)
                case None => !ok
                case Some(next) => ok && Value() == next && input.Rest() == rest
    {
      hide ReadField, ReadAfterTag, FileValues, DirectoryValues, Merge;
      hide ActionResult.Digests, FileDigests, DirectoryDigests;
      ghost var before := Value();
      var next := ReadOutputDirectory(input, tag);
      ok := next != null;
      assert Value() == before;
      if ok {
        DirectoryValuesSnoc(outputDirectories, next);
        outputDirectories := outputDirectories + [next];
      }
    }

    /** The turn of the loop for field 4: the check on the wire type and `read_int32`. */
    method MergeExitCode(input: CodedInputStream, tag: TagRead) returns (ok: bool)
      requires input.Valid() && tag.number == 4
      modifies this`exitCode, input`pos, input`limit
      ensures ok ==> input.Valid() && input.limit == old(input.limit)
      ensures match ReadAfterTag(tag, old(input.Rest()))
              case Malformed => !ok
              case Got(f, rest) =>
                match ApplyActionResult(input.merging, old(Value()), f)
                case None => !ok
                case Some(next) => ok && Value() == next && input.Rest() == rest
    {
      hide ReadField, ReadAfterTag, ReadDigest, Merge, FileValues, DirectoryValues;
      hide ActionResult.Digests, FileDigests, DirectoryDigests;
      ghost var before := Value();
      var v := input.ReadVarintField(tag);
      assert Value() == before;
      ok := v.Some?;
      if ok {
        exitCode := ToInt32(v.value);
      }
    }

    /** The turns of the loop for fields 5 and 7: `read_singular_proto3_bytes_into`. */
    method MergeRaw(input: CodedInputStream, tag: TagRead) returns (ok: bool)
      requires input.Valid() && tag.number in {5, 7}
      modifies this`stdoutRaw, this`stderrRaw, input`pos, input`limit
      ensures ok ==> input.Valid() && input.limit == old(input.limit)
      ensures match ReadAfterTag(tag, old(input.Rest()))
              case Malformed => !ok
              case Got(f, rest) =>
                match ApplyActionResult(input.merging, old(Value()), f)
                case None => !ok
                case Some(next) => ok && Value() == next && input.Rest() == rest
    {
      hide ReadField, ReadAfterTag, ReadDigest, Merge, FileValues, DirectoryValues;
      hide ActionResult.Digests, FileDigests, DirectoryDigests;
      ghost var before := Value();
      var b := input.ReadBytes(tag);
      assert Value() == before;
      ok := b.Some?;
      if ok {
        if tag.number == 5 {
          stdoutRaw := b.value;
        } else {
          stderrRaw := b.value;
        }
      }
    }

    /** The turns of the loop for the two digests. */
    method MergeDigest(input: CodedInputStream, tag: TagRead) returns (ok: bool)
      requires input.Valid() && tag.number in {6, 8}
      modifies this, input`pos, input`limit
      ensures ok ==> input.Valid() && input.limit == old(input.limit)
      ensures match ReadAfterTag(tag, old(input.Rest()))
              case Malformed => !ok
              case Got(f, rest) =>
                match ApplyActionResult(input.merging, old(Value()), f)
                case None => !ok
                case Some(next) => ok && Value() == next && input.Rest() == rest
    {
      hide ReadField, ReadAfterTag, ReadDigest, Merge, FileValues, DirectoryValues;
      hide ActionResult.Digests, FileDigests, DirectoryDigests, ApplyOutputFile, ApplyOutputDirectory, ApplyDigest;
      ghost var before := Value();
      var d := ReadSingularDigest(input, tag, if tag.number == 6 then stdoutDigest else stderrDigest);
      ok := d != null;
      assert Value() == before;
      if ok {
        if tag.number == 6 {
          stdoutDigest := d;
        } else {
          stderrDigest := d;
        }
      }
    }

    /** The turn of the loop for a field that is not declared. */
    method MergeUnknown(input: CodedInputStream, tag: TagRead) returns (ok: bool)
      requires input.Valid() && tag.number !in {2, 3, 4, 5, 6, 7, 8}
      modifies this`unknownFields, input`pos
      ensures ok ==> input.Valid() && input.limit == old(input.limit)
      ensures match ReadAfterTag(tag, old(input.Rest()))
              case Malformed => !ok
              case Got(f, rest) =>
                match ApplyActionResult(input.merging, old(Value()), f)
                case None => !ok
                case Some(next) => ok && Value() == next && input.Rest() == rest
    {
      hide ReadField, ReadAfterTag, ReadDigest, Merge, FileValues, DirectoryValues;
      hide ActionResult.Digests, FileDigests, DirectoryDigests;
      ghost var before := Value();
      var f := input.ReadUnknownOrSkipGroup(tag);
      assert Value() == before;
      ok := f.Some?;
      if ok {
        unknownFields := Retain(unknownFields, f.value);
      }
    }

    /** One turn of the reading loop. */
    method MergeField(input: CodedInputStream) returns (ok: bool)
      requires input.Valid()
      modifies this, input`pos, input`limit
      ensures ok ==> input.Valid() && input.limit == old(input.limit)
      ensures match ReadField(old(input.Rest()))
              case Malformed => !ok
              case Got(f, rest) =>
                match ApplyActionResult(input.merging, old(Value()), f)
                case None => !ok
                case Some(next) => ok && Value() == next && input.Rest() == rest
    {
      hide ReadTag, ReadAfterTag, ApplyActionResult, FileValues, DirectoryValues;
      hide ActionResult.Digests, FileDigests, DirectoryDigests;
      ghost var before := Value();
      var tag := input.ReadTagUnpack();
      ok := tag.Some?;
      assert Value() == before;
      if ok {
        if tag.value.number == 2 {
          ok := AppendOutputFile(input, tag.value);
        } else if tag.value.number == 3 {
          ok := AppendOutputDirectory(input, tag.value);
        } else if tag.value.number == 4 {
          ok := MergeExitCode(input, tag.value);
        } else if tag.value.number == 5 || tag.value.number == 7 {
          ok := MergeRaw(input, tag.value);
        } else if tag.value.number == 6 || tag.value.number == 8 {
          ok := MergeDigest(input, tag.value);
        } else {
          ok := MergeUnknown(input, tag.value);
        }
      }
    }

    method MergeFrom(input: CodedInputStream) returns (ok: bool)
      requires input.Valid()
      modifies this, input`pos, input`limit
      ensures ok ==> input.Valid() && input.limit == old(input.limit)
      ensures match Merge(ActionResultReader(input.merging), old(Value()), old(input.Rest()))
              case None => !ok
              case Some(a) => ok && Value() == a && input.Rest() == []
    {
      hide ReadField, ApplyActionResult, ActionResult.Value;
      ok := true;
      while !input.Eof()
        invariant ok && input.Valid() && input.limit == old(input.limit)
        invariant Merge(ActionResultReader(input.merging), Value(), input.Rest())
               == Merge(ActionResultReader(input.merging), old(Value()), old(input.Rest()))
        decreases |input.Rest()|
      {
        ok := MergeField(input);
        if !ok { return; }
      }
    }

    lemma DigestsCover()
      ensures FileDigests(outputFiles) <= Digests() && DirectoryDigests(outputDirectories) <= Digests()
      ensures Present(stdoutDigest) <= Digests() && Present(stderrDigest) <= Digests()
    {
    }

    /** The loop of `compute_size` over the output files. */
    method ComputeOwnFilesSize() returns (n: UInt32)
      modifies outputFiles`cachedSize, FileDigests(outputFiles)`cachedSize
      ensures Value() == old(Value())
      ensures SizeOf(FilesFields(Value().outputFiles)) < TWO32 ==>
        n == SizeOf(FilesFields(Value().outputFiles)) && FilesSized(outputFiles)
    {
      hide FilesFields, FileValues, DirectoryValues, FileDigests, DirectoryDigests, ActionResult.Digests;
      hide OutputFile.Sized, Digest.Sized;
      ghost var v := Value();
      n := ComputeFilesSize(outputFiles);
      assert FileValues(outputFiles) == v.outputFiles;
      assert DirectoryValues(outputDirectories) == v.outputDirectories;
    }

    /** The loop of `compute_size` over the output directories. */
    method ComputeOwnDirectoriesSize() returns (n: UInt32)
      modifies outputDirectories`cachedSize, DirectoryDigests(outputDirectories)`cachedSize
      ensures Value() == old(Value())
      ensures SizeOf(DirectoriesFields(Value().outputDirectories)) < TWO32 ==>
        n == SizeOf(DirectoriesFields(Value().outputDirectories)) && DirectoriesSized(outputDirectories)
      ensures old(FilesSized(outputFiles)) ==> FilesSized(outputFiles)
    {
      hide DirectoriesFields, FileValues, DirectoryValues, FileDigests, DirectoryDigests, ActionResult.Digests;
      hide OutputDirectory.Sized, Digest.Sized, EncodeOutputFile;
      ghost var v := Value();
      n := ComputeDirectoriesSize(outputDirectories);
      assert FileValues(outputFiles) == v.outputFiles;
      assert DirectoryValues(outputDirectories) == v.outputDirectories;
    }

    /** The two loops of `compute_size`. */
    method ComputeRepeatedSize() returns (n: UInt32)
      modifies outputFiles`cachedSize, outputDirectories`cachedSize
      modifies FileDigests(outputFiles)`cachedSize, DirectoryDigests(outputDirectories)`cachedSize
      ensures Value() == old(Value())
      ensures var v := Value();
        SizeOf(FilesFields(v.outputFiles)) + SizeOf(DirectoriesFields(v.outputDirectories)) < TWO32 ==>
          n == SizeOf(FilesFields(v.outputFiles)) + SizeOf(DirectoriesFields(v.outputDirectories))
          && FilesSized(outputFiles) && DirectoriesSized(outputDirectories)
    {
      hide SizeOf, Wrap, FilesFields, DirectoriesFields, FilesSized, DirectoriesSized;
      hide ActionResult.Digests, ActionResult.Value;
      WrapsOnlyIfTooLong();
      var files: nat := ComputeOwnFilesSize();
      var directories: nat := ComputeOwnDirectoriesSize();
      n := Wrap(files + directories);
    }

    /** The singular fields in `compute_size`. */
    method ComputeSingularSize() returns (n: UInt32)
      modifies Present(stdoutDigest)`cachedSize, Present(stderrDigest)`cachedSize
      ensures Value() == old(Value())
      ensures |Serialize(SingularFields(Value()))| < TWO32 ==>
        n == |Serialize(SingularFields(Value()))| && SizedIfPresent(stdoutDigest) && SizedIfPresent(stderrDigest)
      ensures old(FilesSized(outputFiles)) ==> FilesSized(outputFiles)
      ensures old(DirectoriesSized(outputDirectories)) ==> DirectoriesSized(outputDirectories)
    {
      hide AddBytesSize, AddIntSize, Serialize, VarintSize, Wrap;
      hide FileValues, DirectoryValues, FileDigests, DirectoryDigests;
      hide DigestField, BytesSize, BytesField, IntField, IntSize, OutputFile.Sized, OutputDirectory.Sized;
      SizeOfFive(IntField(4, exitCode), BytesField(5, stdoutRaw), DigestField(6, ValueOf(stdoutDigest)),
                 BytesField(7, stderrRaw), DigestField(8, ValueOf(stderrDigest)));
      WrapsOnlyIfTooLong();
      n := 0;
      n := AddIntSize(n, 4, exitCode);
      n := AddBytesSize(n, 5, stdoutRaw);
      var len := ComputeDigestSize(6, stdoutDigest);
      n := Wrap(n + len);
      n := AddBytesSize(n, 7, stderrRaw);
      len := ComputeDigestSize(8, stderrDigest);
      n := Wrap(n + len);
    }

    method ComputeSize() returns (mySize: UInt32)
      modifies this`cachedSize, outputFiles`cachedSize, outputDirectories`cachedSize, Digests()`cachedSize
      ensures cachedSize == mySize
      ensures Value() == old(Value())
      ensures Sized() <==> |EncodeActionResult(Value())| < TWO32
    {
      hide Serialize, VarintSize, Wrap, SingularFields, FilesFields, DirectoriesFields;
      hide FileValues, DirectoryValues, EncodeActionResult;
      hide FileDigests, DirectoryDigests, ActionResult.Digests, FilesSized, DirectoriesSized, UnknownSize;
      DigestsCover();
      ActionResultParts(Value());
      WrapsOnlyIfTooLong();
      var repeated: nat := ComputeRepeatedSize();
      var singular: nat := ComputeSingularSize();
      mySize := Wrap(Wrap(repeated + singular) + UnknownSize(unknownFields));
      cachedSize := mySize;
    }

    /** The two loops of the writer. */
    method WriteRepeated(output: CodedOutputStream)
      returns (ghost files: seq<OutputFileData>, ghost directories: seq<OutputDirectoryData>)
      modifies output
      ensures SameFiles(old(FileValues(outputFiles)), files)
      ensures SameDirectories(old(DirectoryValues(outputDirectories)), directories)
      ensures old(FilesSized(outputFiles) && DirectoriesSized(outputDirectories)) ==>
        output.out == old(output.out) + Serialize(FilesFields(files)) + Serialize(DirectoriesFields(directories))
    {
      hide Serialize, FilesFields, DirectoriesFields, FileValues, DirectoryValues, SameFiles, SameDirectories;
      hide FileDigests, DirectoryDigests, FilesSized;
      ghost var values, sized := DirectoryValues(outputDirectories), DirectoriesSized(outputDirectories);
      files := WriteFiles(output, outputFiles);
      assert DirectoryValues(outputDirectories) == values && (sized ==> DirectoriesSized(outputDirectories));
      directories := WriteDirectories(output, outputDirectories);
    }

    method WriteSingular(output: CodedOutputStream)
      returns (ghost stdout: Option<DigestData>, ghost stderr: Option<DigestData>)
      modifies output
      ensures SameOptional(ValueOf(stdoutDigest), stdout) && SameOptional(ValueOf(stderrDigest), stderr)
      ensures (|stdoutRaw| < TWO32 && |stderrRaw| < TWO32
               && SizedIfPresent(stdoutDigest) && SizedIfPresent(stderrDigest)) ==>
        output.out == old(output.out)
          + Serialize(IntField(4, exitCode) + BytesField(5, stdoutRaw) + DigestField(6, stdout)
                      + BytesField(7, stderrRaw) + DigestField(8, stderr))
    {
      hide Serialize, SameOptional, IntField, BytesField, DigestField;
      WriteIntIfNonZero(output, 4, exitCode);
      WriteBytesIfAny(output, 5, stdoutRaw);
      stdout := WriteDigest(output, 6, stdoutDigest);
      WriteBytesIfAny(output, 7, stderrRaw);
      stderr := WriteDigest(output, 8, stderrDigest);
      AppendFive(old(output.out), Serialize(IntField(4, exitCode)), Serialize(BytesField(5, stdoutRaw)),
                 Serialize(DigestField(6, stdout)), Serialize(BytesField(7, stderrRaw)),
                 Serialize(DigestField(8, stderr)));
      SerializeFive(IntField(4, exitCode), BytesField(5, stdoutRaw), DigestField(6, stdout),
                    BytesField(7, stderrRaw), DigestField(8, stderr));
    }

    method WriteToWithCachedSizes(output: CodedOutputStream) returns (ghost written: ActionResultData)
      modifies output
      ensures SameActionResult(old(Value()), written)
      ensures old(Sized()) ==> output.out == old(output.out) + EncodeActionResult(written)
    {
      hide Serialize, FilesFields, DirectoriesFields, FileValues, DirectoryValues, FileDigests, DirectoryDigests;
      hide SameFiles, SameDirectories, SameOptional, SameTable, FilesSized, DirectoriesSized, ActionResult.Digests;
      ActionResultSize(Value());
      BytesFieldShort(5, stdoutRaw);
      BytesFieldShort(7, stderrRaw);
      ghost var v, sized := Value(), Sized();
      ghost var files, directories := WriteRepeated(output);
      assert ValueOf(stdoutDigest) == v.stdoutDigest && ValueOf(stderrDigest) == v.stderrDigest;
      assert sized ==> SizedIfPresent(stdoutDigest) && SizedIfPresent(stderrDigest);
      ghost var stdout, stderr := WriteSingular(output);
      assert ValueOf(stdoutDigest) == v.stdoutDigest && ValueOf(stderrDigest) == v.stderrDigest;
      assert sized ==> SizedIfPresent(stdoutDigest) && SizedIfPresent(stderrDigest);
      ghost var emitted := output.WriteUnknownFields(unknownFields);
      written := ActionResultData(files, directories, exitCode, stdoutRaw, stdout, stderrRaw, stderr, emitted);
      SerializeFour(FilesFields(files), DirectoriesFields(directories), SingularFields(written), emitted);
      AppendFour(old(output.out), Serialize(FilesFields(files)), Serialize(DirectoriesFields(directories)),
                 Serialize(SingularFields(written)), Serialize(emitted));
    }

    /** `write_to_bytes` of the runtime: the sizes first, then the bytes. */
    method WriteToBytes() returns (b: Bytes, ghost written: ActionResultData)
      modifies this`cachedSize, outputFiles`cachedSize, outputDirectories`cachedSize, Digests()`cachedSize
      ensures SameActionResult(old(Value()), written)
      ensures |EncodeActionResult(old(Value()))| < TWO32 ==> b == EncodeActionResult(written)
    {
      hide FileValues, DirectoryValues, EncodeActionResult, SameActionResult, Serialize;
      hide ActionResult.Digests, FileDigests, DirectoryDigests, EncodeDigest, EncodeOutputFile, EncodeOutputDirectory;
      ghost var v := Value();
      var _ := ComputeSize();
      ghost var sized := Sized();
      var output := new CodedOutputStream();
      assert Value() == v && (sized ==> Sized());
      written := WriteToWithCachedSizes(output);
      b := output.out;
      assert [] + EncodeActionResult(written) == EncodeActionResult(written);
    }
  }

  /**
    A message that fits in 32 bits, written and read into a fresh object, comes back equal and is left as it was.
    `merging` is whichever way the runtime treats a submessage that occurs twice.
   */
  method WriteThenRead(a: ActionResult, merging: bool) returns (copy: ActionResult, ok: bool)
    modifies a`cachedSize, a.outputFiles`cachedSize, a.outputDirectories`cachedSize, a.Digests()`cachedSize
    ensures fresh(copy)
    ensures |EncodeActionResult(old(a.Value()))| < TWO32 && ActionResultUndeclared(old(a.Value())) ==>
      ok && SameActionResult(old(a.Value()), copy.Value())
  {
    hide Merge, EncodeActionResult, SameActionResult, ActionResultUndeclared, ActionResult.Digests;
    hide FileValues, DirectoryValues, FileDigests, DirectoryDigests;
    ghost var v := a.Value();
    ghost var written;
    var b;
    b, written := a.WriteToBytes();
    copy := new ActionResult();
    var input := new CodedInputStream(b, merging);
    assert copy.Value() == EMPTY_ACTION_RESULT;
    ok := copy.MergeFrom(input);
    if |EncodeActionResult(v)| < TWO32 && ActionResultUndeclared(v) {
      SameActionResultSameSize(v, written);
      SameActionResultUndeclared(v, written);
      RoundTripExactly(merging, written);
    }
  }
}
