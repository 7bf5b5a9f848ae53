/**
  The messages an action result is made of, as values: what each one holds, the bytes it is written as, and what its
  reading loop does with one field. The classes in `ActionResult.dfy` are the mutable objects; these functions are
  what their methods are proved against.

  The unknown fields of a message are kept as a layout, that is, in the order in which the hash map of the runtime
  emits them. Since that order is not determined, every theorem quantifies over it, and `Same...` compares messages
  as the generated `PartialEq` does, by the contents of the hash map alone.
 */
module Messages {
  import opened Options
  import opened Wire

  datatype DigestData = DigestData(hash: Utf8, sizeBytes: Int64, unknown: Layout)

  datatype FileNodeData = FileNodeData(name: Utf8, digest: Option<DigestData>, isExecutable: bool, unknown: Layout)

  datatype OutputFileData = OutputFileData(
    path: Utf8, digest: Option<DigestData>, content: Bytes, isExecutable: bool, unknown: Layout)

  datatype OutputDirectoryData = OutputDirectoryData(
    path: Utf8, digest: Option<DigestData>, treeDigest: Option<DigestData>, unknown: Layout)

  datatype ActionResultData = ActionResultData(
    outputFiles: seq<OutputFileData>,
    outputDirectories: seq<OutputDirectoryData>,
    exitCode: Int32,
    stdoutRaw: Bytes,
    stdoutDigest: Option<DigestData>,
    stderrRaw: Bytes,
    stderrDigest: Option<DigestData>,
    unknown: Layout)

  const EMPTY_DIGEST := DigestData([], 0, [])
  const EMPTY_FILE_NODE := FileNodeData([], None, false, [])
  const EMPTY_OUTPUT_FILE := OutputFileData([], None, [], false, [])
  const EMPTY_OUTPUT_DIRECTORY := OutputDirectoryData([], None, None, [])
  const EMPTY_ACTION_RESULT := ActionResultData([], [], 0, [], None, [], None, [])

  // ---------- Writing ----------

  /** A string or bytes field; left out when empty. */
  function BytesField(number: FieldNumber, b: Bytes): Layout {
    if b == [] then [] else [Field(number, LengthDelimited(b))]
  }

  /** An `int32` or `int64` field, sign-extended to 64 bits; left out when zero. */
  function IntField(number: FieldNumber, v: Int64): Layout {
    if v == 0 then [] else [Field(number, Varint64(ToUnsigned(v)))]
  }

  /** Left out when false. */
  function BoolField(number: FieldNumber, b: bool): Layout {
    if b then [Field(number, Varint64(1))] else []
  }

  function DigestField(number: FieldNumber, d: Option<DigestData>): Layout {
    match d
    case None => []
    case Some(v) => [Field(number, LengthDelimited(EncodeDigest(v)))]
  }

  function DigestFields(d: DigestData): Layout {
    BytesField(1, d.hash) + IntField(2, d.sizeBytes) + d.unknown
  }

  function EncodeDigest(d: DigestData): Bytes {
    Serialize(DigestFields(d))
  }

  function FileNodeFields(n: FileNodeData): Layout {
    BytesField(1, n.name) + DigestField(2, n.digest) + BoolField(4, n.isExecutable) + n.unknown
  }

  function EncodeFileNode(n: FileNodeData): Bytes {
    Serialize(FileNodeFields(n))
  }

  function OutputFileFields(o: OutputFileData): Layout {
    BytesField(1, o.path) + DigestField(2, o.digest) + BytesField(3, o.content)
    + BoolField(4, o.isExecutable) + o.unknown
  }

  function EncodeOutputFile(o: OutputFileData): Bytes {
    Serialize(OutputFileFields(o))
  }

  function OutputDirectoryFields(o: OutputDirectoryData): Layout {
    BytesField(1, o.path) + DigestField(2, o.digest) + DigestField(3, o.treeDigest) + o.unknown
  }

  function EncodeOutputDirectory(o: OutputDirectoryData): Bytes {
    Serialize(OutputDirectoryFields(o))
  }

  function FilesFields(fs: seq<OutputFileData>): Layout {
    if fs == [] then []
    else FilesFields(fs[..|fs| - 1]) + [Field(2, LengthDelimited(EncodeOutputFile(fs[|fs| - 1])))]
  }

  function DirectoriesFields(ds: seq<OutputDirectoryData>): Layout {
    if ds == [] then []
    else DirectoriesFields(ds[..|ds| - 1]) + [Field(3, LengthDelimited(EncodeOutputDirectory(ds[|ds| - 1])))]
  }

  /** The singular fields of an action result, in the order in which they are written. */
  function SingularFields(a: ActionResultData): Layout {
    IntField(4, a.exitCode) + BytesField(5, a.stdoutRaw) + DigestField(6, a.stdoutDigest)
    + BytesField(7, a.stderrRaw) + DigestField(8, a.stderrDigest)
  }

  function ActionResultFields(a: ActionResultData): Layout {
    FilesFields(a.outputFiles) + DirectoriesFields(a.outputDirectories) + SingularFields(a) + a.unknown
  }

  function EncodeActionResult(a: ActionResultData): Bytes {
    Serialize(ActionResultFields(a))
  }

  // ---------- Reading ----------

  function AsBytes(f: Field): Option<Bytes> {
    if f.Field? && f.value.LengthDelimited? then Some(f.value.bytes) else None
  }

  function AsString(f: Field): Option<Utf8> {
    if f.Field? && f.value.LengthDelimited? && IsUtf8(f.value.bytes) then Some(f.value.bytes) else None
  }

  function AsVarint(f: Field): Option<UInt64> {
    if f.Field? && f.value.Varint64? then Some(f.value.varint) else None
  }

  /** The contents of a skipped group are lost; every other undeclared field is retained. */
  function Retain(unknown: Layout, f: Field): Layout {
    if f.Field? then unknown + [f] else unknown
  }

  function ApplyDigest(d: DigestData, f: Field): Option<DigestData> {
    if f.number == 1 then
      var s :- AsString(f);
      Some(d.(hash := s))
    else if f.number == 2 then
      var v :- AsVarint(f);
      Some(d.(sizeBytes := ToInt64(v)))
    else
      Some(d.(unknown := Retain(d.unknown, f)))
  }

  function DigestReader(): (DigestData, Field) -> Option<DigestData> {
    (d, f) => ApplyDigest(d, f)
  }

  /** What a singular submessage starts from when it is read again: itself if the runtime merges, else a fresh one. */
  function Base(merging: bool, held: Option<DigestData>): DigestData {
    if merging && held.Some? then held.value else EMPTY_DIGEST
  }

  function ReadDigest(merging: bool, held: Option<DigestData>, f: Field): Option<Option<DigestData>> {
    var payload :- AsBytes(f);
    var d :- Merge(DigestReader(), Base(merging, held), payload);
    Some(Some(d))
  }

  function ApplyFileNode(merging: bool, n: FileNodeData, f: Field): Option<FileNodeData> {
    if f.number == 1 then
      var s :- AsString(f);
      Some(n.(name := s))
    else if f.number == 2 then
      var d :- ReadDigest(merging, n.digest, f);
      Some(n.(digest := d))
    else if f.number == 4 then
      var v :- AsVarint(f);
      Some(n.(isExecutable := ToInt32(v) != 0))
    else
      Some(n.(unknown := Retain(n.unknown, f)))
  }

  function FileNodeReader(merging: bool): (FileNodeData, Field) -> Option<FileNodeData> {
    (n, f) => ApplyFileNode(merging, n, f)
  }

  function ApplyOutputFile(merging: bool, o: OutputFileData, f: Field): Option<OutputFileData> {
    if f.number == 1 then
      var s :- AsString(f);
      Some(o.(path := s))
    else if f.number == 2 then
      var d :- ReadDigest(merging, o.digest, f);
      Some(o.(digest := d))
    else if f.number == 3 then
      var b :- AsBytes(f);
      Some(o.(content := b))
    else if f.number == 4 then
      var v :- AsVarint(f);
      Some(o.(isExecutable := ToInt32(v) != 0))
    else
      Some(o.(unknown := Retain(o.unknown, f)))
  }

  function OutputFileReader(merging: bool): (OutputFileData, Field) -> Option<OutputFileData> {
    (o, f) => ApplyOutputFile(merging, o, f)
  }

  function ApplyOutputDirectory(merging: bool, o: OutputDirectoryData, f: Field): Option<OutputDirectoryData> {
    if f.number == 1 then
      var s :- AsString(f);
      Some(o.(path := s))
    else if f.number == 2 then
      var d :- ReadDigest(merging, o.digest, f);
      Some(o.(digest := d))
    else if f.number == 3 then
      var d :- ReadDigest(merging, o.treeDigest, f);
      Some(o.(treeDigest := d))
    else
      Some(o.(unknown := Retain(o.unknown, f)))
  }

  function OutputDirectoryReader(merging: bool): (OutputDirectoryData, Field) -> Option<OutputDirectoryData> {
    (o, f) => ApplyOutputDirectory(merging, o, f)
  }

  function ApplyActionResult(merging: bool, a: ActionResultData, f: Field): Option<ActionResultData> {
    if f.number == 2 then
      var payload :- AsBytes(f);
      var o :- Merge(OutputFileReader(merging), EMPTY_OUTPUT_FILE, payload);
      Some(a.(outputFiles := a.outputFiles + [o]))
    else if f.number == 3 then
      var payload :- AsBytes(f);
      var o :- Merge(OutputDirectoryReader(merging), EMPTY_OUTPUT_DIRECTORY, payload);
      Some(a.(outputDirectories := a.outputDirectories + [o]))
    else if f.number == 4 then
      var v :- AsVarint(f);
      Some(a.(exitCode := ToInt32(v)))
    else if f.number == 5 then
      var b :- AsBytes(f);
      Some(a.(stdoutRaw := b))
    else if f.number == 6 then
      var d :- ReadDigest(merging, a.stdoutDigest, f);
      Some(a.(stdoutDigest := d))
    else if f.number == 7 then
      var b :- AsBytes(f);
      Some(a.(stderrRaw := b))
    else if f.number == 8 then
      var d :- ReadDigest(merging, a.stderrDigest, f);
      Some(a.(stderrDigest := d))
    else
      Some(a.(unknown := Retain(a.unknown, f)))
  }

  function ActionResultReader(merging: bool): (ActionResultData, Field) -> Option<ActionResultData> {
    (a, f) => ApplyActionResult(merging, a, f)
  }

  function ParseDigest(b: Bytes): Option<DigestData> {
    Merge(DigestReader(), EMPTY_DIGEST, b)
  }

  function ParseOutputDirectory(merging: bool, b: Bytes): Option<OutputDirectoryData> {
    Merge(OutputDirectoryReader(merging), EMPTY_OUTPUT_DIRECTORY, b)
  }

  function ParseFileNode(merging: bool, b: Bytes): Option<FileNodeData> {
    Merge(FileNodeReader(merging), EMPTY_FILE_NODE, b)
  }

  function ParseOutputFile(merging: bool, b: Bytes): Option<OutputFileData> {
    Merge(OutputFileReader(merging), EMPTY_OUTPUT_FILE, b)
  }

  function ParseActionResult(merging: bool, b: Bytes): Option<ActionResultData> {
    Merge(ActionResultReader(merging), EMPTY_ACTION_RESULT, b)
  }

  // ---------- Equality as the generated code has it ----------

  ghost predicate SameDigest(x: DigestData, y: DigestData) {
    x.hash == y.hash && x.sizeBytes == y.sizeBytes && SameTable(x.unknown, y.unknown)
  }

  ghost predicate SameOptional(x: Option<DigestData>, y: Option<DigestData>) {
    x.Some? == y.Some? && (x.Some? ==> SameDigest(x.value, y.value))
  }

  ghost predicate SameFileNode(x: FileNodeData, y: FileNodeData) {
    && x.name == y.name && SameOptional(x.digest, y.digest) && x.isExecutable == y.isExecutable
    && SameTable(x.unknown, y.unknown)
  }

  ghost predicate SameOutputFile(x: OutputFileData, y: OutputFileData) {
    && x.path == y.path && SameOptional(x.digest, y.digest) && x.content == y.content
    && x.isExecutable == y.isExecutable && SameTable(x.unknown, y.unknown)
  }

  ghost predicate SameOutputDirectory(x: OutputDirectoryData, y: OutputDirectoryData) {
    && x.path == y.path && SameOptional(x.digest, y.digest) && SameOptional(x.treeDigest, y.treeDigest)
    && SameTable(x.unknown, y.unknown)
  }

  ghost predicate SameFiles(xs: seq<OutputFileData>, ys: seq<OutputFileData>) {
    |xs| == |ys| && forall i | 0 <= i < |xs| :: SameOutputFile(xs[i], ys[i])
  }

  ghost predicate SameDirectories(xs: seq<OutputDirectoryData>, ys: seq<OutputDirectoryData>) {
    |xs| == |ys| && forall i | 0 <= i < |xs| :: SameOutputDirectory(xs[i], ys[i])
  }

  ghost predicate SameActionResult(x: ActionResultData, y: ActionResultData) {
    && SameFiles(x.outputFiles, y.outputFiles)
    && SameDirectories(x.outputDirectories, y.outputDirectories)
    && x.exitCode == y.exitCode
    && x.stdoutRaw == y.stdoutRaw && SameOptional(x.stdoutDigest, y.stdoutDigest)
    && x.stderrRaw == y.stderrRaw && SameOptional(x.stderrDigest, y.stderrDigest)
    && SameTable(x.unknown, y.unknown)
  }

  // ---------- Unknown fields really are unknown ----------

  predicate Avoids(fs: Layout, declared: set<int>) {
    forall f <- fs :: f.number !in declared
  }

  predicate DigestUndeclared(d: DigestData) {
    Avoids(d.unknown, {1, 2})
  }

  predicate OptionalUndeclared(d: Option<DigestData>) {
    d.Some? ==> DigestUndeclared(d.value)
  }

  predicate FileNodeUndeclared(n: FileNodeData) {
    Avoids(n.unknown, {1, 2, 4}) && OptionalUndeclared(n.digest)
  }

  predicate OutputFileUndeclared(o: OutputFileData) {
    Avoids(o.unknown, {1, 2, 3, 4}) && OptionalUndeclared(o.digest)
  }

  predicate OutputDirectoryUndeclared(o: OutputDirectoryData) {
    Avoids(o.unknown, {1, 2, 3}) && OptionalUndeclared(o.digest) && OptionalUndeclared(o.treeDigest)
  }

  /**
    No message of the tree files a field under "unknown" whose number its schema declares. Reading never does; only
    a caller reaching into `mut_unknown_fields` could.
   */
  predicate ActionResultUndeclared(a: ActionResultData) {
    && Avoids(a.unknown, {2, 3, 4, 5, 6, 7, 8})
    && (forall o <- a.outputFiles :: OutputFileUndeclared(o))
    && (forall o <- a.outputDirectories :: OutputDirectoryUndeclared(o))
    && OptionalUndeclared(a.stdoutDigest)
    && OptionalUndeclared(a.stderrDigest)
  }

  // ---------- Merging one message onto another ----------

  function CombineDigest(x: DigestData, y: DigestData): DigestData {
    DigestData(
      if y.hash != [] then y.hash else x.hash,
      if y.sizeBytes != 0 then y.sizeBytes else x.sizeBytes,
      x.unknown + y.unknown)
  }

  function CombineOptional(merging: bool, x: Option<DigestData>, y: Option<DigestData>): Option<DigestData> {
    if y.Some? then Some(CombineDigest(Base(merging, x), y.value)) else x
  }

  function CombineFileNode(merging: bool, x: FileNodeData, y: FileNodeData): FileNodeData {
    FileNodeData(
      if y.name != [] then y.name else x.name,
      CombineOptional(merging, x.digest, y.digest),
      x.isExecutable || y.isExecutable,
      x.unknown + y.unknown)
  }

  function CombineOutputFile(merging: bool, x: OutputFileData, y: OutputFileData): OutputFileData {
    OutputFileData(
      if y.path != [] then y.path else x.path,
      CombineOptional(merging, x.digest, y.digest),
      if y.content != [] then y.content else x.content,
      x.isExecutable || y.isExecutable,
      x.unknown + y.unknown)
  }

  function CombineOutputDirectory(merging: bool, x: OutputDirectoryData, y: OutputDirectoryData)
    : OutputDirectoryData
  {
    OutputDirectoryData(
      if y.path != [] then y.path else x.path,
      CombineOptional(merging, x.digest, y.digest),
      CombineOptional(merging, x.treeDigest, y.treeDigest),
      x.unknown + y.unknown)
  }

  /** Repeated fields are appended, a scalar is overridden by a later one that is not the default. */
  function CombineActionResult(merging: bool, x: ActionResultData, y: ActionResultData): ActionResultData {
    ActionResultData(
      x.outputFiles + y.outputFiles,
      x.outputDirectories + y.outputDirectories,
      if y.exitCode != 0 then y.exitCode else x.exitCode,
      if y.stdoutRaw != [] then y.stdoutRaw else x.stdoutRaw,
      CombineOptional(merging, x.stdoutDigest, y.stdoutDigest),
      if y.stderrRaw != [] then y.stderrRaw else x.stderrRaw,
      CombineOptional(merging, x.stderrDigest, y.stderrDigest),
      x.unknown + y.unknown)
  }
}
