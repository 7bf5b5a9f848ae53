/** What the wire format of an action result promises: the theorems over `Messages`. */
module Codec {
  import opened Options
  import opened Wire
  import opened Messages
  import opened RoundTrip

  // ---------- Reading never files a declared field under "unknown" ----------

  lemma {:induction false} MergedDigestUndeclared(m: DigestData, b: Bytes)
    requires DigestUndeclared(m) && Merge(DigestReader(), m, b).Some?
    ensures DigestUndeclared(Merge(DigestReader(), m, b).value)
    decreases |b|
  {
    hide ReadField;
    if b != [] {
      var r := ReadField(b);
      MergedDigestUndeclared(ApplyDigest(m, r.value).value, r.rest);
    }
  }

  lemma ReadDigestUndeclared(merging: bool, held: Option<DigestData>, f: Field)
    requires OptionalUndeclared(held) && ReadDigest(merging, held, f).Some?
    ensures OptionalUndeclared(ReadDigest(merging, held, f).value)
  {
    MergedDigestUndeclared(Base(merging, held), AsBytes(f).value);
  }

  lemma ApplyFileNodeUndeclared(merging: bool, m: FileNodeData, f: Field)
    requires FileNodeUndeclared(m) && ApplyFileNode(merging, m, f).Some?
    ensures FileNodeUndeclared(ApplyFileNode(merging, m, f).value)
  {
    if f.number == 2 {
      ReadDigestUndeclared(merging, m.digest, f);
    }
  }

  lemma {:induction false} MergedFileNodeUndeclared(merging: bool, m: FileNodeData, b: Bytes)
    requires FileNodeUndeclared(m) && Merge(FileNodeReader(merging), m, b).Some?
    ensures FileNodeUndeclared(Merge(FileNodeReader(merging), m, b).value)
    decreases |b|
  {
    hide ReadField;
    if b != [] {
      var r := ReadField(b);
      ApplyFileNodeUndeclared(merging, m, r.value);
      MergedFileNodeUndeclared(merging, ApplyFileNode(merging, m, r.value).value, r.rest);
    }
  }

  lemma ApplyOutputFileUndeclared(merging: bool, m: OutputFileData, f: Field)
    requires OutputFileUndeclared(m) && ApplyOutputFile(merging, m, f).Some?
    ensures OutputFileUndeclared(ApplyOutputFile(merging, m, f).value)
  {
    if f.number == 2 {
      ReadDigestUndeclared(merging, m.digest, f);
    }
  }

  lemma {:induction false} MergedOutputFileUndeclared(merging: bool, m: OutputFileData, b: Bytes)
    requires OutputFileUndeclared(m) && Merge(OutputFileReader(merging), m, b).Some?
    ensures OutputFileUndeclared(Merge(OutputFileReader(merging), m, b).value)
    decreases |b|
  {
    if b != [] {
      var r := ReadField(b);
      ApplyOutputFileUndeclared(merging, m, r.value);
      MergedOutputFileUndeclared(merging, ApplyOutputFile(merging, m, r.value).value, r.rest);
    }
  }

  lemma ApplyOutputDirectoryUndeclared(merging: bool, m: OutputDirectoryData, f: Field)
    requires OutputDirectoryUndeclared(m) && ApplyOutputDirectory(merging, m, f).Some?
    ensures OutputDirectoryUndeclared(ApplyOutputDirectory(merging, m, f).value)
  {
    if f.number == 2 {
      ReadDigestUndeclared(merging, m.digest, f);
    }
    if f.number == 3 {
      ReadDigestUndeclared(merging, m.treeDigest, f);
    }
  }

  lemma {:induction false} MergedOutputDirectoryUndeclared(merging: bool, m: OutputDirectoryData, b: Bytes)
    requires OutputDirectoryUndeclared(m) && Merge(OutputDirectoryReader(merging), m, b).Some?
    ensures OutputDirectoryUndeclared(Merge(OutputDirectoryReader(merging), m, b).value)
    decreases |b|
  {
    if b != [] {
      var r := ReadField(b);
      ApplyOutputDirectoryUndeclared(merging, m, r.value);
      MergedOutputDirectoryUndeclared(merging, ApplyOutputDirectory(merging, m, r.value).value, r.rest);
    }
  }

  lemma ApplyActionResultUndeclared(merging: bool, m: ActionResultData, f: Field)
    requires ActionResultUndeclared(m) && ApplyActionResult(merging, m, f).Some?
    ensures ActionResultUndeclared(ApplyActionResult(merging, m, f).value)
  {
    if f.number == 2 {
      MergedOutputFileUndeclared(merging, EMPTY_OUTPUT_FILE, AsBytes(f).value);
    } else if f.number == 3 {
      MergedOutputDirectoryUndeclared(merging, EMPTY_OUTPUT_DIRECTORY, AsBytes(f).value);
    } else if f.number == 6 {
      ReadDigestUndeclared(merging, m.stdoutDigest, f);
    } else if f.number == 8 {
      ReadDigestUndeclared(merging, m.stderrDigest, f);
    }
  }

  lemma {:induction false} MergedActionResultUndeclared(merging: bool, m: ActionResultData, b: Bytes)
    requires ActionResultUndeclared(m) && Merge(ActionResultReader(merging), m, b).Some?
    ensures ActionResultUndeclared(Merge(ActionResultReader(merging), m, b).value)
    decreases |b|
  {
    if b != [] {
      var r := ReadField(b);
      ApplyActionResultUndeclared(merging, m, r.value);
      MergedActionResultUndeclared(merging, ApplyActionResult(merging, m, r.value).value, r.rest);
    }
  }

  // ---------- Round trip ----------

  lemma CombineActionResultFresh(merging: bool, a: ActionResultData)
    ensures CombineActionResult(merging, EMPTY_ACTION_RESULT, a) == a
  {
    var c := CombineActionResult(merging, EMPTY_ACTION_RESULT, a);
    assert c.unknown == a.unknown && c.outputFiles == a.outputFiles && c.outputDirectories == a.outputDirectories;
    if a.stdoutDigest.Some? {
      assert [] + a.stdoutDigest.value.unknown == a.stdoutDigest.value.unknown;
    }
    if a.stderrDigest.Some? {
      assert [] + a.stderrDigest.value.unknown == a.stderrDigest.value.unknown;
    }
  }

  /**
    A message that fits in 32 bits reads back as itself, through all its levels, exactly if no level files a declared
    field number under "unknown".
   */
  lemma RoundTripExactly(merging: bool, a: ActionResultData)
    requires |EncodeActionResult(a)| < TWO32
    ensures ParseActionResult(merging, EncodeActionResult(a)) == Some(a) <==> ActionResultUndeclared(a)
  {
    if ActionResultUndeclared(a) {
      MergeEncodedActionResult(merging, EMPTY_ACTION_RESULT, a);
      CombineActionResultFresh(merging, a);
    }
    if ParseActionResult(merging, EncodeActionResult(a)) == Some(a) {
      MergedActionResultUndeclared(merging, EMPTY_ACTION_RESULT, EncodeActionResult(a));
    }
  }

  /** The same for each of the nested messages, read on its own. */
  lemma DigestRoundTripExactly(d: DigestData)
    requires |EncodeDigest(d)| < TWO32
    ensures ParseDigest(EncodeDigest(d)) == Some(d) <==> DigestUndeclared(d)
  {
    if DigestUndeclared(d) {
      MergeEncodedDigest(EMPTY_DIGEST, d);
      assert CombineDigest(EMPTY_DIGEST, d).unknown == d.unknown;
    }
    if ParseDigest(EncodeDigest(d)) == Some(d) {
      MergedDigestUndeclared(EMPTY_DIGEST, EncodeDigest(d));
    }
  }

  lemma FileNodeRoundTripExactly(merging: bool, n: FileNodeData)
    requires |EncodeFileNode(n)| < TWO32
    ensures ParseFileNode(merging, EncodeFileNode(n)) == Some(n) <==> FileNodeUndeclared(n)
  {
    if FileNodeUndeclared(n) {
      MergeEncodedFileNode(merging, EMPTY_FILE_NODE, n);
      CombineFileNodeFresh(merging, n);
    }
    if ParseFileNode(merging, EncodeFileNode(n)) == Some(n) {
      MergedFileNodeUndeclared(merging, EMPTY_FILE_NODE, EncodeFileNode(n));
    }
  }

  lemma OutputFileRoundTripExactly(merging: bool, o: OutputFileData)
    requires |EncodeOutputFile(o)| < TWO32
    ensures ParseOutputFile(merging, EncodeOutputFile(o)) == Some(o) <==> OutputFileUndeclared(o)
  {
    if OutputFileUndeclared(o) {
      MergeEncodedOutputFile(merging, EMPTY_OUTPUT_FILE, o);
      CombineOutputFileFresh(merging, o);
    }
    if ParseOutputFile(merging, EncodeOutputFile(o)) == Some(o) {
      MergedOutputFileUndeclared(merging, EMPTY_OUTPUT_FILE, EncodeOutputFile(o));
    }
  }

  lemma OutputDirectoryRoundTripExactly(merging: bool, o: OutputDirectoryData)
    requires |EncodeOutputDirectory(o)| < TWO32
    ensures ParseOutputDirectory(merging, EncodeOutputDirectory(o)) == Some(o) <==> OutputDirectoryUndeclared(o)
  {
    if OutputDirectoryUndeclared(o) {
      MergeEncodedOutputDirectory(merging, EMPTY_OUTPUT_DIRECTORY, o);
      CombineOutputDirectoryFresh(merging, o);
    }
    if ParseOutputDirectory(merging, EncodeOutputDirectory(o)) == Some(o) {
      MergedOutputDirectoryUndeclared(merging, EMPTY_OUTPUT_DIRECTORY, EncodeOutputDirectory(o));
    }
  }

  lemma CombineFileNodeFresh(merging: bool, n: FileNodeData)
    ensures CombineFileNode(merging, EMPTY_FILE_NODE, n) == n
  {
    assert [] + n.unknown == n.unknown;
    if n.digest.Some? {
      assert [] + n.digest.value.unknown == n.digest.value.unknown;
    }
  }

  /** Distinct messages have distinct encodings. */
  lemma EncodingIsInjective(x: ActionResultData, y: ActionResultData)
    requires ActionResultUndeclared(x) && ActionResultUndeclared(y)
    requires |EncodeActionResult(x)| < TWO32
    ensures EncodeActionResult(x) == EncodeActionResult(y) <==> x == y
  {
    if EncodeActionResult(x) == EncodeActionResult(y) {
      RoundTripExactly(true, x);
      RoundTripExactly(true, y);
    }
  }

  // ---------- Concatenation ----------

  /** If `a` parses completely, reading `a` and then `b` is reading `b` into the result of `a`. */
  lemma ConcatenationLaw(merging: bool, m: ActionResultData, a: Bytes, b: Bytes)
    requires Merge(ActionResultReader(merging), m, a).Some?
    ensures Merge(ActionResultReader(merging), m, a + b)
         == Merge(ActionResultReader(merging), Merge(ActionResultReader(merging), m, a).value, b)
  {
    MergeConcat(ActionResultReader(merging), m, a, Merge(ActionResultReader(merging), m, a).value, b);
  }

  /** Two encodings, one after the other, read as the second merged onto the first. */
  lemma ConcatenatedEncodings(merging: bool, x: ActionResultData, y: ActionResultData)
    requires ActionResultUndeclared(x) && ActionResultUndeclared(y)
    requires |EncodeActionResult(x)| < TWO32 && |EncodeActionResult(y)| < TWO32
    ensures ParseActionResult(merging, EncodeActionResult(x) + EncodeActionResult(y))
         == Some(CombineActionResult(merging, x, y))
  {
    RoundTripExactly(merging, x);
    ConcatenationLaw(merging, EMPTY_ACTION_RESULT, EncodeActionResult(x), EncodeActionResult(y));
    MergeEncodedActionResult(merging, x, y);
  }

  // ---------- Canonical order ----------

  /** Tags never descend, and only a repeated field occurs twice. */
  ghost predicate CanonicalOrder(fs: Layout, repeated: set<int>) {
    forall i, j | 0 <= i < j < |fs| ::
      fs[i].number < fs[j].number || (fs[i].number == fs[j].number && fs[i].number in repeated)
  }

  lemma {:induction false} FilesFieldsShape(fs: seq<OutputFileData>)
    ensures |FilesFields(fs)| == |fs| && forall f <- FilesFields(fs) :: f.number == 2
  {
    if fs != [] {
      FilesFieldsShape(fs[..|fs| - 1]);
    }
  }

  lemma {:induction false} DirectoriesFieldsShape(ds: seq<OutputDirectoryData>)
    ensures |DirectoriesFields(ds)| == |ds| && forall f <- DirectoriesFields(ds) :: f.number == 3
  {
    if ds != [] {
      DirectoriesFieldsShape(ds[..|ds| - 1]);
    }
  }

  lemma CanonicalConcat(xs: Layout, ys: Layout, repeated: set<int>)
    requires CanonicalOrder(xs, repeated) && CanonicalOrder(ys, repeated)
    requires forall x <- xs, y <- ys :: x.number < y.number
    ensures CanonicalOrder(xs + ys, repeated)
  {
  }

  lemma NothingAfter(fs: Layout, nothing: Layout)
    requires nothing == []
    ensures fs + nothing == fs
  {
  }

  lemma SingularFieldsShape(a: ActionResultData)
    ensures CanonicalOrder(SingularFields(a), {2, 3})
    ensures forall f <- SingularFields(a) :: 4 <= f.number
  {
    hide IntField, BytesField, DigestField;
    var vs, ws, xs := IntField(4, a.exitCode), BytesField(5, a.stdoutRaw), DigestField(6, a.stdoutDigest);
    var ys, zs := BytesField(7, a.stderrRaw), DigestField(8, a.stderrDigest);
    SingleFields(4, a.exitCode, a.stdoutRaw, a.stdoutDigest);
    SingleFields(5, a.exitCode, a.stdoutRaw, a.stdoutDigest);
    SingleFields(6, a.exitCode, a.stdoutRaw, a.stdoutDigest);
    SingleFields(7, a.exitCode, a.stderrRaw, a.stdoutDigest);
    SingleFields(8, a.exitCode, a.stderrRaw, a.stderrDigest);
    CanonicalConcat(vs, ws, {2, 3});
    CanonicalConcat(vs + ws, xs, {2, 3});
    CanonicalConcat(vs + ws + xs, ys, {2, 3});
    CanonicalConcat(vs + ws + xs + ys, zs, {2, 3});
  }

  lemma SingleFields(number: FieldNumber, v: Int64, b: Bytes, d: Option<DigestData>)
    ensures |IntField(number, v)| <= 1 && forall f <- IntField(number, v) :: f.number == number
    ensures |BytesField(number, b)| <= 1 && forall f <- BytesField(number, b) :: f.number == number
    ensures |DigestField(number, d)| <= 1 && forall f <- DigestField(number, d) :: f.number == number
  {
  }

  /** Without unknown fields a message is written in tag order and without duplicates, as hashing demands. */
  lemma WrittenInTagOrder(a: ActionResultData)
    requires a.unknown == []
    ensures CanonicalOrder(ActionResultFields(a), {2, 3})
  {
    var xs, ys, zs := FilesFields(a.outputFiles), DirectoriesFields(a.outputDirectories), SingularFields(a);
    FilesFieldsShape(a.outputFiles);
    DirectoriesFieldsShape(a.outputDirectories);
    SingularFieldsShape(a);
    CanonicalConcat(xs, ys, {2, 3});
    CanonicalConcat(xs + ys, zs, {2, 3});
    NothingAfter(xs + ys + zs, a.unknown);
  }

  lemma OutputFileWrittenInTagOrder(o: OutputFileData)
    requires o.unknown == []
    ensures CanonicalOrder(OutputFileFields(o), {})
  {
  }

  lemma OutputDirectoryWrittenInTagOrder(o: OutputDirectoryData)
    requires o.unknown == []
    ensures CanonicalOrder(OutputDirectoryFields(o), {})
  {
  }

  lemma DigestWrittenInTagOrder(d: DigestData)
    requires d.unknown == []
    ensures CanonicalOrder(DigestFields(d), {})
  {
    hide BytesField, IntField;
    SingleFields(1, 0, d.hash, None);
    SingleFields(2, d.sizeBytes, [], None);
  }

  lemma FileNodeWrittenInTagOrder(n: FileNodeData)
    requires n.unknown == []
    ensures CanonicalOrder(FileNodeFields(n), {})
  {
    hide BytesField, DigestField;
    SingleFields(1, 0, n.name, None);
    SingleFields(2, 0, [], n.digest);
  }

  // ---------- Defaults are not written ----------

  predicate Occurs(fs: Layout, number: int) {
    exists f <- fs :: f.number == number
  }

  lemma OccursInConcat(xs: Layout, ys: Layout)
    ensures forall n :: Occurs(xs + ys, n) <==> Occurs(xs, n) || Occurs(ys, n)
  {
    forall n
      ensures Occurs(xs + ys, n) <==> Occurs(xs, n) || Occurs(ys, n)
    {
      if f :| f in xs && f.number == n {
        assert f in xs + ys;
      } else if f :| f in ys && f.number == n {
        assert f in xs + ys;
      }
    }
  }

  lemma SingleOccurs(number: FieldNumber, v: Int64, b: Bytes, x: bool, d: Option<DigestData>)
    ensures forall n :: Occurs(IntField(number, v), n) <==> n == number && v != 0
    ensures forall n :: Occurs(BytesField(number, b), n) <==> n == number && b != []
    ensures forall n :: Occurs(BoolField(number, x), n) <==> n == number && x
    ensures forall n :: Occurs(DigestField(number, d), n) <==> n == number && d.Some?
    ensures forall n :: !Occurs([], n)
  {
    hide EncodeDigest;
    OccursOnce(Field(number, Varint64(ToUnsigned(v))));
    OccursOnce(Field(number, LengthDelimited(b)));
    OccursOnce(Field(number, Varint64(1)));
    if d.Some? {
      OccursOnce(Field(number, LengthDelimited(EncodeDigest(d.value))));
    }
  }

  lemma OccursOnce(f: PlainField)
    ensures forall n :: Occurs([f], n) <==> n == f.number
  {
    assert f in [f];
  }

  lemma RepeatedOccurs(fs: seq<OutputFileData>, ds: seq<OutputDirectoryData>)
    ensures forall n :: Occurs(FilesFields(fs), n) <==> n == 2 && fs != []
    ensures forall n :: Occurs(DirectoriesFields(ds), n) <==> n == 3 && ds != []
  {
    hide FilesFields, DirectoriesFields;
    FilesFieldsShape(fs);
    DirectoriesFieldsShape(ds);
    if fs != [] {
      assert FilesFields(fs)[0] in FilesFields(fs);
    }
    if ds != [] {
      assert DirectoriesFields(ds)[0] in DirectoriesFields(ds);
    }
  }

  /** Of an action result just the values are written that are not the default; so an empty one has no bytes. */
  lemma OnlySetFieldsAreWritten(a: ActionResultData, n: int)
    requires a.unknown == []
    ensures Occurs(ActionResultFields(a), n) <==>
      || (n == 2 && a.outputFiles != []) || (n == 3 && a.outputDirectories != []) || (n == 4 && a.exitCode != 0)
      || (n == 5 && a.stdoutRaw != []) || (n == 6 && a.stdoutDigest.Some?)
      || (n == 7 && a.stderrRaw != []) || (n == 8 && a.stderrDigest.Some?)
  {
    hide Occurs, IntField, BytesField, DigestField, FilesFields, DirectoriesFields;
    var vs, ws, xs := IntField(4, a.exitCode), BytesField(5, a.stdoutRaw), DigestField(6, a.stdoutDigest);
    var ys, zs := BytesField(7, a.stderrRaw), DigestField(8, a.stderrDigest);
    SingleOccurs(4, a.exitCode, [], false, None);
    SingleOccurs(5, 0, a.stdoutRaw, false, None);
    SingleOccurs(6, 0, [], false, a.stdoutDigest);
    SingleOccurs(7, 0, a.stderrRaw, false, None);
    SingleOccurs(8, 0, [], false, a.stderrDigest);
    RepeatedOccurs(a.outputFiles, a.outputDirectories);
    OccursInConcat(vs, ws);
    OccursInConcat(vs + ws, xs);
    OccursInConcat(vs + ws + xs, ys);
    OccursInConcat(vs + ws + xs + ys, zs);
    OccursInConcat(FilesFields(a.outputFiles), DirectoriesFields(a.outputDirectories));
    OccursInConcat(FilesFields(a.outputFiles) + DirectoriesFields(a.outputDirectories), SingularFields(a));
    NothingAfter(FilesFields(a.outputFiles) + DirectoriesFields(a.outputDirectories) + SingularFields(a), a.unknown);
  }

  /** The same for the other messages. */
  lemma OnlySetFieldsAreWrittenBelow(d: DigestData, m: FileNodeData, o: OutputFileData, r: OutputDirectoryData, n: int)
    ensures d.unknown == [] ==>
      (Occurs(DigestFields(d), n) <==> (n == 1 && d.hash != []) || (n == 2 && d.sizeBytes != 0))
    ensures m.unknown == [] ==>
      (Occurs(FileNodeFields(m), n) <==>
         (n == 1 && m.name != []) || (n == 2 && m.digest.Some?) || (n == 4 && m.isExecutable))
    ensures o.unknown == [] ==>
      (Occurs(OutputFileFields(o), n) <==>
         (n == 1 && o.path != []) || (n == 2 && o.digest.Some?) || (n == 3 && o.content != [])
         || (n == 4 && o.isExecutable))
    ensures r.unknown == [] ==>
      (Occurs(OutputDirectoryFields(r), n) <==>
         (n == 1 && r.path != []) || (n == 2 && r.digest.Some?) || (n == 3 && r.treeDigest.Some?))
  {
    hide Occurs, IntField, BytesField, DigestField, BoolField;
    SingleOccurs(1, 0, d.hash, false, None);
    SingleOccurs(2, d.sizeBytes, [], false, None);
    OccursInConcat(BytesField(1, d.hash), IntField(2, d.sizeBytes));
    OccursInConcat(BytesField(1, d.hash) + IntField(2, d.sizeBytes), d.unknown);
    SingleOccurs(1, 0, m.name, false, None);
    SingleOccurs(2, 0, [], false, m.digest);
    SingleOccurs(4, 0, [], m.isExecutable, None);
    OccursInConcat(BytesField(1, m.name), DigestField(2, m.digest));
    OccursInConcat(BytesField(1, m.name) + DigestField(2, m.digest), BoolField(4, m.isExecutable));
    OccursInConcat(BytesField(1, m.name) + DigestField(2, m.digest) + BoolField(4, m.isExecutable), m.unknown);
    SingleOccurs(1, 0, o.path, false, None);
    SingleOccurs(2, 0, [], false, o.digest);
    SingleOccurs(3, 0, o.content, false, None);
    SingleOccurs(4, 0, [], o.isExecutable, None);
    var w, x := BytesField(1, o.path), DigestField(2, o.digest);
    var y, z := BytesField(3, o.content), BoolField(4, o.isExecutable);
    OccursInConcat(w, x);
    OccursInConcat(w + x, y);
    OccursInConcat(w + x + y, z);
    OccursInConcat(w + x + y + z, o.unknown);
    SingleOccurs(1, 0, r.path, false, None);
    SingleOccurs(2, 0, [], false, r.digest);
    SingleOccurs(3, 0, [], false, r.treeDigest);
    var p, q, t := BytesField(1, r.path), DigestField(2, r.digest), DigestField(3, r.treeDigest);
    OccursInConcat(p, q);
    OccursInConcat(p + q, t);
    OccursInConcat(p + q + t, r.unknown);
  }

  // ---------- Canonical order at every level ----------

  predicate DigestPure(d: Option<DigestData>) {
    d.Some? ==> d.value.unknown == []
  }

  /** No message of the tree has unknown fields. */
  predicate Pure(a: ActionResultData) {
    && a.unknown == [] && DigestPure(a.stdoutDigest) && DigestPure(a.stderrDigest)
    && (forall o <- a.outputFiles :: o.unknown == [] && DigestPure(o.digest))
    && (forall o <- a.outputDirectories :: o.unknown == [] && DigestPure(o.digest) && DigestPure(o.treeDigest))
  }

  ghost predicate DigestCanonical(d: Option<DigestData>) {
    d.Some? ==> CanonicalOrder(DigestFields(d.value), {})
  }

  /** Every message of the tree is written in tag order and without duplicates. */
  ghost predicate Canonical(a: ActionResultData) {
    && CanonicalOrder(ActionResultFields(a), {2, 3})
    && DigestCanonical(a.stdoutDigest) && DigestCanonical(a.stderrDigest)
    && (forall o <- a.outputFiles :: CanonicalOrder(OutputFileFields(o), {}) && DigestCanonical(o.digest))
    && (forall o <- a.outputDirectories ::
          CanonicalOrder(OutputDirectoryFields(o), {}) && DigestCanonical(o.digest) && DigestCanonical(o.treeDigest))
  }

  lemma OptionalWrittenInTagOrder(d: Option<DigestData>)
    requires DigestPure(d)
    ensures DigestCanonical(d)
  {
    if d.Some? {
      DigestWrittenInTagOrder(d.value);
    }
  }

  /** If no message of the tree has unknown fields, all of them are written as hashing demands. */
  lemma WrittenInTagOrderThroughout(a: ActionResultData)
    requires Pure(a)
    ensures Canonical(a)
  {
    hide CanonicalOrder, ActionResultFields, OutputFileFields, OutputDirectoryFields, DigestFields;
    WrittenInTagOrder(a);
    OptionalWrittenInTagOrder(a.stdoutDigest);
    OptionalWrittenInTagOrder(a.stderrDigest);
    forall o <- a.outputFiles
      ensures CanonicalOrder(OutputFileFields(o), {}) && DigestCanonical(o.digest)
    {
      OutputFileWrittenInTagOrder(o);
      OptionalWrittenInTagOrder(o.digest);
    }
    forall o <- a.outputDirectories
      ensures CanonicalOrder(OutputDirectoryFields(o), {}) && DigestCanonical(o.digest) && DigestCanonical(o.treeDigest)
    {
      OutputDirectoryWrittenInTagOrder(o);
      OptionalWrittenInTagOrder(o.digest);
      OptionalWrittenInTagOrder(o.treeDigest);
    }
  }
}
