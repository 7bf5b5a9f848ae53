/**
  Parsing and writing again: how large the rewritten message can get, that the size does not depend on the order in
  which unknown fields are emitted, and that rewriting settles after one round.
 */
module Normalisation {
  import opened Options
  import opened Wire
  import opened Messages
  import opened Codec

  // ---------- Sizes of the parts ----------

  function SizeOf(fs: Layout): nat {
    |Serialize(fs)|
  }

  lemma SizeOfOne(f: PlainField)
    ensures SizeOf([f]) == |WriteField(f)|
  {
    SerializeOne(f);
  }

  lemma SizeOfSum(xs: Layout, ys: Layout)
    ensures SizeOf(xs + ys) == SizeOf(xs) + SizeOf(ys)
  {
    SerializeConcat(xs, ys);
  }

  lemma SizeOfFour(ws: Layout, xs: Layout, ys: Layout, zs: Layout)
    ensures SizeOf(ws + xs + ys + zs) == SizeOf(ws) + SizeOf(xs) + SizeOf(ys) + SizeOf(zs)
  {
    SizeOfSum(ws, xs);
    SizeOfSum(ws + xs, ys);
    SizeOfSum(ws + xs + ys, zs);
  }

  lemma SizeOfFive(vs: Layout, ws: Layout, xs: Layout, ys: Layout, zs: Layout)
    ensures SizeOf(vs + ws + xs + ys + zs) == SizeOf(vs) + SizeOf(ws) + SizeOf(xs) + SizeOf(ys) + SizeOf(zs)
  {
    SizeOfFour(vs, ws, xs, ys);
    SizeOfSum(vs + ws + xs + ys, zs);
  }

  /** Field numbers 1 to 8 have one-byte tags. */
  lemma PayloadSize(number: FieldNumber, b: Bytes)
    requires number <= 8
    ensures |WriteField(Field(number, LengthDelimited(b)))| == 1 + VarintSize(|b|) + |b|
  {
  }

  lemma DigestSize(d: DigestData)
    ensures |EncodeDigest(d)| == SizeOf(BytesField(1, d.hash)) + SizeOf(IntField(2, d.sizeBytes)) + SizeOf(d.unknown)
  {
    SizeOfSum(BytesField(1, d.hash), IntField(2, d.sizeBytes));
    SizeOfSum(BytesField(1, d.hash) + IntField(2, d.sizeBytes), d.unknown);
  }

  lemma OutputFileSize(o: OutputFileData)
    ensures |EncodeOutputFile(o)|
         == SizeOf(BytesField(1, o.path)) + SizeOf(DigestField(2, o.digest)) + SizeOf(BytesField(3, o.content))
            + SizeOf(BoolField(4, o.isExecutable)) + SizeOf(o.unknown)
  {
    SizeOfFive(BytesField(1, o.path), DigestField(2, o.digest), BytesField(3, o.content),
               BoolField(4, o.isExecutable), o.unknown);
  }

  lemma FileNodeSize(n: FileNodeData)
    ensures |EncodeFileNode(n)|
         == SizeOf(BytesField(1, n.name)) + SizeOf(DigestField(2, n.digest))
            + SizeOf(BoolField(4, n.isExecutable)) + SizeOf(n.unknown)
  {
    SizeOfFour(BytesField(1, n.name), DigestField(2, n.digest), BoolField(4, n.isExecutable), n.unknown);
  }

  lemma OutputDirectorySize(o: OutputDirectoryData)
    ensures |EncodeOutputDirectory(o)|
         == SizeOf(BytesField(1, o.path)) + SizeOf(DigestField(2, o.digest)) + SizeOf(DigestField(3, o.treeDigest))
            + SizeOf(o.unknown)
  {
    SizeOfFour(BytesField(1, o.path), DigestField(2, o.digest), DigestField(3, o.treeDigest), o.unknown);
  }

  lemma ActionResultSize(a: ActionResultData)
    ensures |EncodeActionResult(a)|
         == SizeOf(FilesFields(a.outputFiles)) + SizeOf(DirectoriesFields(a.outputDirectories))
            + (SizeOf(IntField(4, a.exitCode)) + SizeOf(BytesField(5, a.stdoutRaw))
               + SizeOf(DigestField(6, a.stdoutDigest)) + SizeOf(BytesField(7, a.stderrRaw))
               + SizeOf(DigestField(8, a.stderrDigest)))
            + SizeOf(a.unknown)
  {
    SizeOfFour(FilesFields(a.outputFiles), DirectoriesFields(a.outputDirectories), SingularFields(a), a.unknown);
    SizeOfFive(IntField(4, a.exitCode), BytesField(5, a.stdoutRaw), DigestField(6, a.stdoutDigest),
               BytesField(7, a.stderrRaw), DigestField(8, a.stderrDigest));
  }

  // ---------- The size is a function of the message, not of the emission order ----------

  lemma SameDigestSameSize(x: DigestData, y: DigestData)
    requires SameDigest(x, y)
    ensures |EncodeDigest(x)| == |EncodeDigest(y)|
  {
    DigestSize(x);
    DigestSize(y);
    SameTableSameSize(x.unknown, y.unknown);
  }

  lemma SameOptionalSameSize(number: FieldNumber, x: Option<DigestData>, y: Option<DigestData>)
    requires SameOptional(x, y)
    ensures SizeOf(DigestField(number, x)) == SizeOf(DigestField(number, y))
  {
    if x.Some? {
      SameDigestSameSize(x.value, y.value);
      SizeOfOne(DigestField(number, x)[0]);
      SizeOfOne(DigestField(number, y)[0]);
    }
  }

  lemma SameOutputFileSameSize(x: OutputFileData, y: OutputFileData)
    requires SameOutputFile(x, y)
    ensures |EncodeOutputFile(x)| == |EncodeOutputFile(y)|
  {
    OutputFileSize(x);
    OutputFileSize(y);
    SameOptionalSameSize(2, x.digest, y.digest);
    SameTableSameSize(x.unknown, y.unknown);
  }

  lemma SameFileNodeSameSize(x: FileNodeData, y: FileNodeData)
    requires SameFileNode(x, y)
    ensures |EncodeFileNode(x)| == |EncodeFileNode(y)|
  {
    FileNodeSize(x);
    FileNodeSize(y);
    SameOptionalSameSize(2, x.digest, y.digest);
    SameTableSameSize(x.unknown, y.unknown);
  }

  lemma SameOutputDirectorySameSize(x: OutputDirectoryData, y: OutputDirectoryData)
    requires SameOutputDirectory(x, y)
    ensures |EncodeOutputDirectory(x)| == |EncodeOutputDirectory(y)|
  {
    OutputDirectorySize(x);
    OutputDirectorySize(y);
    SameOptionalSameSize(2, x.digest, y.digest);
    SameOptionalSameSize(3, x.treeDigest, y.treeDigest);
    SameTableSameSize(x.unknown, y.unknown);
  }

  lemma SizeOfSnoc(fs: Layout, f: PlainField)
    ensures SizeOf(fs + [f]) == SizeOf(fs) + |WriteField(f)|
  {
    SizeOfSum(fs, [f]);
    SizeOfOne(f);
  }

  lemma FilesSizeSnoc(fs: seq<OutputFileData>, o: OutputFileData)
    ensures SizeOf(FilesFields(fs + [o]))
         == SizeOf(FilesFields(fs)) + 1 + VarintSize(|EncodeOutputFile(o)|) + |EncodeOutputFile(o)|
  {
    assert (fs + [o])[..|fs + [o]| - 1] == fs;
    SizeOfSnoc(FilesFields(fs), Field(2, LengthDelimited(EncodeOutputFile(o))));
    PayloadSize(2, EncodeOutputFile(o));
  }

  lemma DirectoriesSizeSnoc(ds: seq<OutputDirectoryData>, o: OutputDirectoryData)
    ensures SizeOf(DirectoriesFields(ds + [o]))
         == SizeOf(DirectoriesFields(ds)) + 1 + VarintSize(|EncodeOutputDirectory(o)|) + |EncodeOutputDirectory(o)|
  {
    assert (ds + [o])[..|ds + [o]| - 1] == ds;
    SizeOfSnoc(DirectoriesFields(ds), Field(3, LengthDelimited(EncodeOutputDirectory(o))));
    PayloadSize(3, EncodeOutputDirectory(o));
  }

  lemma {:induction false} SameFilesSameSize(xs: seq<OutputFileData>, ys: seq<OutputFileData>)
    requires SameFiles(xs, ys)
    ensures SizeOf(FilesFields(xs)) == SizeOf(FilesFields(ys))
  {
    hide EncodeOutputFile, SameTable, Serialize;
    if xs != [] {
      var n := |xs| - 1;
      SameFilesSameSize(xs[..n], ys[..n]);
      assert xs == xs[..n] + [xs[n]] && ys == ys[..n] + [ys[n]];
      FilesSizeSnoc(xs[..n], xs[n]);
      FilesSizeSnoc(ys[..n], ys[n]);
      SameOutputFileSameSize(xs[n], ys[n]);
    }
  }

  lemma {:induction false} SameDirectoriesSameSize(xs: seq<OutputDirectoryData>, ys: seq<OutputDirectoryData>)
    requires SameDirectories(xs, ys)
    ensures SizeOf(DirectoriesFields(xs)) == SizeOf(DirectoriesFields(ys))
  {
    hide EncodeOutputDirectory, SameTable, Serialize;
    if xs != [] {
      var n := |xs| - 1;
      SameDirectoriesSameSize(xs[..n], ys[..n]);
      assert xs == xs[..n] + [xs[n]] && ys == ys[..n] + [ys[n]];
      DirectoriesSizeSnoc(xs[..n], xs[n]);
      DirectoriesSizeSnoc(ys[..n], ys[n]);
      SameOutputDirectorySameSize(xs[n], ys[n]);
    }
  }

  /** Equal messages take equally many bytes, in whatever order their hash maps are walked. */
  lemma SameActionResultSameSize(x: ActionResultData, y: ActionResultData)
    requires SameActionResult(x, y)
    ensures |EncodeActionResult(x)| == |EncodeActionResult(y)|
  {
    ActionResultSize(x);
    ActionResultSize(y);
    SameFilesSameSize(x.outputFiles, y.outputFiles);
    SameDirectoriesSameSize(x.outputDirectories, y.outputDirectories);
    SameOptionalSameSize(6, x.stdoutDigest, y.stdoutDigest);
    SameOptionalSameSize(8, x.stderrDigest, y.stderrDigest);
    SameTableSameSize(x.unknown, y.unknown);
  }

  // ---------- Equal messages agree on what is undeclared ----------

  lemma {:induction false} ListedHasValue(fs: Layout, f: PlainField)
    requires f in fs
    ensures f.value in ValuesOf(fs, f.number, TypeOf(f.value))
  {
    var init, last := fs[..|fs| - 1], fs[|fs| - 1];
    if f != last {
      ListedHasValue(init, f);
    }
  }

  lemma {:induction false} AbsentHasNoValue(fs: Layout, number: int, wireType: int)
    requires Avoids(fs, {number})
    ensures ValuesOf(fs, number, wireType) == []
  {
    if fs != [] {
      AbsentHasNoValue(fs[..|fs| - 1], number, wireType);
    }
  }

  lemma SameTableAvoids(xs: Layout, ys: Layout, declared: set<int>)
    requires SameTable(xs, ys) && Avoids(xs, declared)
    ensures Avoids(ys, declared)
  {
    forall f | f in ys
      ensures f.number !in declared
    {
      ListedHasValue(ys, f);
      assert ValuesOf(xs, f.number, TypeOf(f.value)) == ValuesOf(ys, f.number, TypeOf(f.value));
      if f.number in declared {
        AbsentHasNoValue(xs, f.number, TypeOf(f.value));
        assert false;
      }
    }
  }

  lemma SameOptionalUndeclared(x: Option<DigestData>, y: Option<DigestData>)
    requires SameOptional(x, y) && OptionalUndeclared(x)
    ensures OptionalUndeclared(y)
  {
    if x.Some? {
      SameTableAvoids(x.value.unknown, y.value.unknown, {1, 2});
    }
  }

  lemma SameActionResultUndeclared(x: ActionResultData, y: ActionResultData)
    requires SameActionResult(x, y) && ActionResultUndeclared(x)
    ensures ActionResultUndeclared(y)
  {
    SameTableAvoids(x.unknown, y.unknown, {2, 3, 4, 5, 6, 7, 8});
    SameOptionalUndeclared(x.stdoutDigest, y.stdoutDigest);
    SameOptionalUndeclared(x.stderrDigest, y.stderrDigest);
    forall i | 0 <= i < |y.outputFiles|
      ensures OutputFileUndeclared(y.outputFiles[i])
    {
      assert SameOutputFile(x.outputFiles[i], y.outputFiles[i]);
      assert x.outputFiles[i] in x.outputFiles;
      SameTableAvoids(x.outputFiles[i].unknown, y.outputFiles[i].unknown, {1, 2, 3, 4});
      SameOptionalUndeclared(x.outputFiles[i].digest, y.outputFiles[i].digest);
    }
    forall i | 0 <= i < |y.outputDirectories|
      ensures OutputDirectoryUndeclared(y.outputDirectories[i])
    {
      assert SameOutputDirectory(x.outputDirectories[i], y.outputDirectories[i]);
      assert x.outputDirectories[i] in x.outputDirectories;
      SameTableAvoids(x.outputDirectories[i].unknown, y.outputDirectories[i].unknown, {1, 2, 3});
      SameOptionalUndeclared(x.outputDirectories[i].digest, y.outputDirectories[i].digest);
      SameOptionalUndeclared(x.outputDirectories[i].treeDigest, y.outputDirectories[i].treeDigest);
    }
  }

  // ---------- Reading does not make a message much larger ----------

  /** The bytes of a field that was read, at its shortest. */
  function Cost(f: Field): nat {
    if f.Field? then |WriteField(f)| else 0
  }

  lemma RetainSize(unknown: Layout, f: Field)
    ensures SizeOf(Retain(unknown, f)) == SizeOf(unknown) + Cost(f)
  {
    if f.Field? {
      SizeOfSnoc(unknown, f);
    }
  }

  lemma BytesFieldSize(number: FieldNumber, b: Bytes)
    requires number <= 8
    ensures SizeOf(BytesField(number, b)) <= |WriteField(Field(number, LengthDelimited(b)))|
  {
    if b != [] {
      SizeOfOne(BytesField(number, b)[0]);
    }
  }

  lemma IntFieldSize(number: FieldNumber, v: Int64)
    requires number <= 8
    ensures SizeOf(IntField(number, v)) == if v == 0 then 0 else 1 + VarintSize(ToUnsigned(v))
  {
    if v != 0 {
      SizeOfOne(IntField(number, v)[0]);
    }
  }

  lemma BoolFieldSize(b: bool)
    ensures SizeOf(BoolField(4, b)) == if b then 2 else 0
  {
    if b {
      SizeOfOne(BoolField(4, b)[0]);
    }
  }

  lemma DigestFieldSize(number: FieldNumber, d: DigestData)
    requires number <= 8
    ensures SizeOf(DigestField(number, Some(d))) == 1 + VarintSize(|EncodeDigest(d)|) + |EncodeDigest(d)|
  {
    SizeOfOne(DigestField(number, Some(d))[0]);
    PayloadSize(number, EncodeDigest(d));
  }

  lemma ApplyDigestSize(m: DigestData, f: Field)
    requires ApplyDigest(m, f).Some?
    ensures |EncodeDigest(ApplyDigest(m, f).value)| <= |EncodeDigest(m)| + Cost(f)
  {
    hide Serialize, EncodeDigest;
    var next := ApplyDigest(m, f).value;
    DigestSize(m);
    DigestSize(next);
    if f.number == 1 {
      BytesFieldSize(1, next.hash);
    } else if f.number == 2 {
      IntFieldSize(2, next.sizeBytes);
    } else {
      RetainSize(m.unknown, f);
    }
  }

  lemma {:induction false} MergedDigestSize(m: DigestData, b: Bytes)
    requires Merge(DigestReader(), m, b).Some?
    ensures |EncodeDigest(Merge(DigestReader(), m, b).value)| <= |EncodeDigest(m)| + |b|
    decreases |b|
  {
    if b != [] {
      var r := ReadField(b);
      ReadFieldConsumes(b);
      ApplyDigestSize(m, r.value);
      MergedDigestSize(ApplyDigest(m, r.value).value, r.rest);
    }
  }

  lemma EmptySizes()
    ensures |EncodeDigest(EMPTY_DIGEST)| == 0
    ensures |EncodeOutputFile(EMPTY_OUTPUT_FILE)| == 0
    ensures |EncodeOutputDirectory(EMPTY_OUTPUT_DIRECTORY)| == 0
    ensures |EncodeActionResult(EMPTY_ACTION_RESULT)| == 0
  {
    DigestSize(EMPTY_DIGEST);
    OutputFileSize(EMPTY_OUTPUT_FILE);
    OutputDirectorySize(EMPTY_OUTPUT_DIRECTORY);
    ActionResultSize(EMPTY_ACTION_RESULT);
  }

  /** However often a submessage occurs, what is kept is no longer than what was read. */
  lemma ReadDigestSize(merging: bool, held: Option<DigestData>, number: FieldNumber, f: Field)
    requires number <= 8 && f.number == number && ReadDigest(merging, held, f).Some?
    ensures SizeOf(DigestField(number, ReadDigest(merging, held, f).value))
         <= SizeOf(DigestField(number, held)) + Cost(f)
  {
    hide ReadField, Serialize, EncodeDigest, Merge, VarintSize;
    var payload := AsBytes(f).value;
    var base, d := Base(merging, held), ReadDigest(merging, held, f).value.value;
    EmptySizes();
    MergedDigestSize(base, payload);
    DigestFieldSize(number, d);
    PayloadSize(number, payload);
    VarintSizeMonotone(|EncodeDigest(d)|, |EncodeDigest(base)| + |payload|);
    VarintSizeSum(|EncodeDigest(base)|, |payload|);
    if held.Some? {
      DigestFieldSize(number, held.value);
    }
  }

  lemma ApplyOutputFileSize(merging: bool, m: OutputFileData, f: Field)
    requires ApplyOutputFile(merging, m, f).Some?
    ensures |EncodeOutputFile(ApplyOutputFile(merging, m, f).value)| <= |EncodeOutputFile(m)| + Cost(f)
  {
    hide ReadField, Serialize, Merge, ReadDigest;
    var next := ApplyOutputFile(merging, m, f).value;
    OutputFileSize(m);
    OutputFileSize(next);
    if f.number == 1 {
      BytesFieldSize(1, next.path);
    } else if f.number == 2 {
      ReadDigestSize(merging, m.digest, 2, f);
    } else if f.number == 3 {
      BytesFieldSize(3, next.content);
    } else if f.number == 4 {
      BoolFieldSize(next.isExecutable);
    } else {
      RetainSize(m.unknown, f);
    }
  }

  lemma {:induction false} MergedOutputFileSize(merging: bool, m: OutputFileData, b: Bytes)
    requires Merge(OutputFileReader(merging), m, b).Some?
    ensures |EncodeOutputFile(Merge(OutputFileReader(merging), m, b).value)| <= |EncodeOutputFile(m)| + |b|
    decreases |b|
  {
    if b != [] {
      var r := ReadField(b);
      ReadFieldConsumes(b);
      ApplyOutputFileSize(merging, m, r.value);
      MergedOutputFileSize(merging, ApplyOutputFile(merging, m, r.value).value, r.rest);
    }
  }

  lemma ApplyOutputDirectorySize(merging: bool, m: OutputDirectoryData, f: Field)
    requires ApplyOutputDirectory(merging, m, f).Some?
    ensures |EncodeOutputDirectory(ApplyOutputDirectory(merging, m, f).value)|
         <= |EncodeOutputDirectory(m)| + Cost(f)
  {
    hide ReadField, Serialize, Merge, ReadDigest;
    var next := ApplyOutputDirectory(merging, m, f).value;
    OutputDirectorySize(m);
    OutputDirectorySize(next);
    if f.number == 1 {
      BytesFieldSize(1, next.path);
    } else if f.number == 2 {
      ReadDigestSize(merging, m.digest, 2, f);
    } else if f.number == 3 {
      ReadDigestSize(merging, m.treeDigest, 3, f);
    } else {
      RetainSize(m.unknown, f);
    }
  }

  lemma {:induction false} MergedOutputDirectorySize(merging: bool, m: OutputDirectoryData, b: Bytes)
    requires Merge(OutputDirectoryReader(merging), m, b).Some?
    ensures |EncodeOutputDirectory(Merge(OutputDirectoryReader(merging), m, b).value)|
         <= |EncodeOutputDirectory(m)| + |b|
    decreases |b|
  {
    if b != [] {
      var r := ReadField(b);
      ReadFieldConsumes(b);
      ApplyOutputDirectorySize(merging, m, r.value);
      MergedOutputDirectorySize(merging, ApplyOutputDirectory(merging, m, r.value).value, r.rest);
    }
  }

  /** A negative exit code may arrive as five bytes and is always written as ten. */
  function Slack(a: ActionResultData): nat {
    if a.exitCode < 0 then 5 else 0
  }

  lemma FiveByteVarint(v: nat)
    requires 0x8000_0000 <= v
    ensures 5 <= VarintSize(v)
  {
    assert VarintSize(0x8000_0000) == 5;
    VarintSizeMonotone(0x8000_0000, v);
  }

  lemma ExitCodeSize(v: UInt64)
    ensures SizeOf(IntField(4, ToInt32(v))) <= 1 + VarintSize(v) + (if ToInt32(v) < 0 then 5 else 0)
  {
    hide VarintSize, Serialize;
    var low := v % TWO32;
    IntFieldSize(4, ToInt32(v));
    VarintSizeMonotone(low, v);
    if ToInt32(v) < 0 {
      VarintSize64(ToUnsigned(ToInt32(v)));
      FiveByteVarint(low);
    }
  }

  lemma OldExitCodeSize(v: Int32)
    requires v < 0
    ensures 5 <= SizeOf(IntField(4, v))
  {
    hide VarintSize, Serialize;
    IntFieldSize(4, v);
    FiveByteVarint(ToUnsigned(v));
  }

  lemma ApplyRepeatedSize(merging: bool, m: ActionResultData, f: Field)
    requires f.number == 2 || f.number == 3
    requires ApplyActionResult(merging, m, f).Some?
    ensures var next := ApplyActionResult(merging, m, f).value;
      SizeOf(FilesFields(next.outputFiles)) + SizeOf(DirectoriesFields(next.outputDirectories))
      <= SizeOf(FilesFields(m.outputFiles)) + SizeOf(DirectoriesFields(m.outputDirectories)) + Cost(f)
  {
    hide ReadField;
    var payload := AsBytes(f).value;
    EmptySizes();
    PayloadSize(f.number, payload);
    if f.number == 2 {
      var o := Merge(OutputFileReader(merging), EMPTY_OUTPUT_FILE, payload).value;
      MergedOutputFileSize(merging, EMPTY_OUTPUT_FILE, payload);
      FilesSizeSnoc(m.outputFiles, o);
      VarintSizeMonotone(|EncodeOutputFile(o)|, |payload|);
    } else {
      var o := Merge(OutputDirectoryReader(merging), EMPTY_OUTPUT_DIRECTORY, payload).value;
      MergedOutputDirectorySize(merging, EMPTY_OUTPUT_DIRECTORY, payload);
      DirectoriesSizeSnoc(m.outputDirectories, o);
      VarintSizeMonotone(|EncodeOutputDirectory(o)|, |payload|);
    }
  }

  lemma ApplyActionResultSize(merging: bool, m: ActionResultData, f: Field)
    requires ApplyActionResult(merging, m, f).Some?
    ensures var next := ApplyActionResult(merging, m, f).value;
      |EncodeActionResult(next)| - Slack(next) <= |EncodeActionResult(m)| - Slack(m) + Cost(f)
  {
    hide ReadField, Serialize, Merge, ReadDigest;
    var next := ApplyActionResult(merging, m, f).value;
    ActionResultSize(m);
    ActionResultSize(next);
    if f.number == 2 || f.number == 3 {
      ApplyRepeatedSize(merging, m, f);
    } else if f.number == 4 {
      ExitCodeSize(AsVarint(f).value);
      if m.exitCode < 0 {
        OldExitCodeSize(m.exitCode);
      }
    } else if f.number == 5 {
      BytesFieldSize(5, next.stdoutRaw);
    } else if f.number == 6 {
      ReadDigestSize(merging, m.stdoutDigest, 6, f);
    } else if f.number == 7 {
      BytesFieldSize(7, next.stderrRaw);
    } else if f.number == 8 {
      ReadDigestSize(merging, m.stderrDigest, 8, f);
    } else {
      RetainSize(m.unknown, f);
    }
  }

  lemma {:induction false} MergedActionResultSize(merging: bool, m: ActionResultData, b: Bytes)
    requires Merge(ActionResultReader(merging), m, b).Some?
    ensures var a := Merge(ActionResultReader(merging), m, b).value;
      |EncodeActionResult(a)| - Slack(a) <= |EncodeActionResult(m)| - Slack(m) + |b|
    decreases |b|
  {
    if b != [] {
      var r := ReadField(b);
      ReadFieldConsumes(b);
      ApplyActionResultSize(merging, m, r.value);
      MergedActionResultSize(merging, ApplyActionResult(merging, m, r.value).value, r.rest);
    }
  }

  // ---------- Normalisation ----------

  /**
    Whatever bytes were accepted, the message read from them, written in any order its hash maps are walked, is at
    most five bytes longer, and no longer at all unless its exit code is negative.
   */
  lemma RewritingGrows(merging: bool, b: Bytes, written: ActionResultData)
    requires ParseActionResult(merging, b).Some?
    requires SameActionResult(ParseActionResult(merging, b).value, written)
    ensures |EncodeActionResult(written)| <= |b| + if written.exitCode < 0 then 5 else 0
  {
    EmptySizes();
    MergedActionResultSize(merging, EMPTY_ACTION_RESULT, b);
    SameActionResultSameSize(ParseActionResult(merging, b).value, written);
  }

  /**
    Whatever bytes were accepted, the message read from them, written in any order its hash maps are walked, reads
    back as exactly what was written, so parsing once more changes nothing.
   */
  lemma Normalises(merging: bool, b: Bytes, written: ActionResultData)
    requires |EncodeActionResult(written)| < TWO32
    requires ParseActionResult(merging, b).Some?
    requires SameActionResult(ParseActionResult(merging, b).value, written)
    ensures ParseActionResult(merging, EncodeActionResult(written)) == Some(written)
  {
    MergedActionResultUndeclared(merging, EMPTY_ACTION_RESULT, b);
    SameActionResultUndeclared(ParseActionResult(merging, b).value, written);
    RoundTripExactly(merging, written);
  }

  /**
    The bound is reached by every negative exit code: as a varint of 32 bits it takes five bytes and is accepted, and
    it is always written as ten.
   */
  lemma ShortExitCodeGrows(merging: bool, v: Int32)
    requires v < 0
    ensures var b, a := WriteField(Field(4, Varint64(v + TWO32))), EMPTY_ACTION_RESULT.(exitCode := v);
      ParseActionResult(merging, b) == Some(a) && |b| == 6 && |EncodeActionResult(a)| == |b| + 5
  {
    hide ReadField, Serialize, VarintSize, ReadDigest, FilesFields, DirectoriesFields;
    var f := Field(4, Varint64(v + TWO32));
    var b, a := WriteField(f), EMPTY_ACTION_RESULT.(exitCode := v);
    ReadFieldOfWritten(f, []);
    assert b + [] == b;
    assert (v + TWO32) % TWO32 == v + TWO32;
    ReadOneField(ActionResultReader(merging), EMPTY_ACTION_RESULT, b, f, a);
    NegativeVarintSizes(v);
    EmptySizes();
    ActionResultSize(EMPTY_ACTION_RESULT);
    ActionResultSize(a);
    IntFieldSize(4, v);
    IntFieldSize(4, 0);
  }

  lemma ReadOneField<M>(apply: (M, Field) -> Option<M>, m: M, b: Bytes, f: Field, next: M)
    requires b != [] && ReadField(b) == Got(f, []) && apply(m, f) == Some(next)
    ensures Merge(apply, m, b) == Some(next)
  {
    hide ReadField;
  }

  lemma NegativeVarintSizes(v: Int32)
    requires v < 0
    ensures VarintSize(v + TWO32) == 5 && VarintSize(ToUnsigned(v)) == 10 && |Tag(4, 0)| == 1
  {
    assert TWO32 <= Pow128(5);
    VarintSizeBound(v + TWO32, 5);
    FiveByteVarint(v + TWO32);
    VarintSize64(ToUnsigned(v));
    assert VarintSize(0x8000_0000_0000_0000) == 10;
    VarintSizeMonotone(0x8000_0000_0000_0000, ToUnsigned(v));
  }
}
