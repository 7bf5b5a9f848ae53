/**
  Reading undoes writing, for every message, every order in which unknown fields may be emitted, and whichever way
  the runtime treats a submessage that occurs twice.
 */
module RoundTrip {
  import opened Options
  import opened Wire
  import opened Messages

  lemma FoldOne<M>(apply: (M, Field) -> Option<M>, m: M, f: PlainField)
    ensures Fold(apply, m, [f]) == apply(m, f)
  {
    assert Fold(apply, m, [f][..0]) == Some(m);
  }

  /** A field that is written at most once takes `m` to `next`. */
  lemma FoldOptional<M>(apply: (M, Field) -> Option<M>, m: M, fs: Layout, next: M)
    requires |fs| <= 1
    requires fs == [] ==> next == m
    requires fs != [] ==> apply(m, fs[0]) == Some(next)
    ensures Fold(apply, m, fs) == Some(next)
  {
    if fs != [] {
      assert fs == [fs[0]];
      FoldOne(apply, m, fs[0]);
    }
  }

  lemma FoldStep<M>(apply: (M, Field) -> Option<M>, first: M, xs: Layout, middle: M, ys: Layout, last: M)
    requires Fold(apply, first, xs) == Some(middle)
    requires Fold(apply, middle, ys) == Some(last)
    ensures Fold(apply, first, xs + ys) == Some(last)
  {
    FoldConcat(apply, first, xs, ys);
  }

  lemma FoldFour<M>(apply: (M, Field) -> Option<M>, m: M, ws: Layout, m1: M, xs: Layout, m2: M,
                    ys: Layout, m3: M, zs: Layout, m4: M)
    requires Fold(apply, m, ws) == Some(m1) && Fold(apply, m1, xs) == Some(m2)
    requires Fold(apply, m2, ys) == Some(m3) && Fold(apply, m3, zs) == Some(m4)
    ensures Fold(apply, m, ws + xs + ys + zs) == Some(m4)
  {
    FoldStep(apply, m, ws, m1, xs, m2);
    FoldStep(apply, m, ws + xs, m2, ys, m3);
    FoldStep(apply, m, ws + xs + ys, m3, zs, m4);
  }

  lemma FoldFive<M>(apply: (M, Field) -> Option<M>, m: M, vs: Layout, m1: M, ws: Layout, m2: M,
                    xs: Layout, m3: M, ys: Layout, m4: M, zs: Layout, m5: M)
    requires Fold(apply, m, vs) == Some(m1) && Fold(apply, m1, ws) == Some(m2) && Fold(apply, m2, xs) == Some(m3)
    requires Fold(apply, m3, ys) == Some(m4) && Fold(apply, m4, zs) == Some(m5)
    ensures Fold(apply, m, vs + ws + xs + ys + zs) == Some(m5)
  {
    FoldStep(apply, m, vs, m1, ws, m2);
    FoldStep(apply, m, vs + ws, m2, xs, m3);
    FoldStep(apply, m, vs + ws + xs, m3, ys, m4);
    FoldStep(apply, m, vs + ws + xs + ys, m4, zs, m5);
  }

  /** A layout folded successfully is a serialised layout read successfully. */
  lemma FoldIsMerge<M>(apply: (M, Field) -> Option<M>, m: M, fs: Layout)
    requires |Serialize(fs)| < TWO32
    requires Fold(apply, m, fs).Some?
    ensures Merge(apply, m, Serialize(fs)) == Fold(apply, m, fs)
  {
    ShortIsWritable(fs);
    MergeSerialized(apply, m, fs, []);
    assert Serialize(fs) + [] == Serialize(fs);
  }

  /** A field of a short layout has a short payload. */
  lemma {:induction false} PartIsShort(xs: Layout, f: PlainField)
    requires f in xs
    ensures |WriteField(f)| <= |Serialize(xs)|
  {
    var init, last := xs[..|xs| - 1], xs[|xs| - 1];
    if f != last {
      PartIsShort(init, f);
    }
  }

  /** A part of a serialised layout is no longer than the whole. */
  lemma SerializePart(fs: Layout, before: Layout, part: Layout, after: Layout)
    requires fs == before + part + after
    ensures |Serialize(part)| <= |Serialize(fs)|
  {
    SerializeConcat(before + part, after);
    SerializeConcat(before, part);
  }

  lemma PayloadIsShort(xs: Layout, f: PlainField)
    requires f in xs && f.value.LengthDelimited?
    ensures |f.value.bytes| < |Serialize(xs)|
  {
    PartIsShort(xs, f);
  }

  /** A negative `int32` is written with its sign extended to 64 bits and read from the low 32. */
  lemma Signed32RoundTrip(v: Int32)
    ensures ToInt32(ToUnsigned(v)) == v
  {
    if v < 0 {
      LowBits(v + TWO32, TWO32 - 1);
    }
  }

  lemma LowBits(low: UInt32, high: nat)
    ensures (low + high * TWO32) % TWO32 == low
  {
  }

  // ---------- Digest ----------

  lemma {:induction false} FoldUnknownDigest(m: DigestData, fs: Layout)
    requires Avoids(fs, {1, 2})
    ensures Fold(DigestReader(), m, fs) == Some(m.(unknown := m.unknown + fs))
  {
    if fs == [] {
      assert m.unknown + fs == m.unknown;
    } else {
      var init, last := fs[..|fs| - 1], fs[|fs| - 1];
      FoldUnknownDigest(m, init);
      assert m.unknown + fs == m.unknown + init + [last];
    }
  }

  lemma FoldDigest(m: DigestData, d: DigestData)
    requires DigestUndeclared(d) && |EncodeDigest(d)| < TWO32
    ensures Fold(DigestReader(), m, DigestFields(d)) == Some(CombineDigest(m, d))
  {
    var r := DigestReader();
    var xs, ys := BytesField(1, d.hash), IntField(2, d.sizeBytes);
    var m1 := m.(hash := if d.hash != [] then d.hash else m.hash);
    var m2 := m1.(sizeBytes := if d.sizeBytes != 0 then d.sizeBytes else m.sizeBytes);
    FoldOptional(r, m, xs, m1);
    FoldOptional(r, m1, ys, m2);
    FoldStep(r, m, xs, m1, ys, m2);
    FoldUnknownDigest(m2, d.unknown);
    FoldStep(r, m, xs + ys, m2, d.unknown, CombineDigest(m, d));
  }

  lemma MergeEncodedDigest(m: DigestData, d: DigestData)
    requires DigestUndeclared(d) && |EncodeDigest(d)| < TWO32
    ensures Merge(DigestReader(), m, EncodeDigest(d)) == Some(CombineDigest(m, d))
  {
    FoldDigest(m, d);
    FoldIsMerge(DigestReader(), m, DigestFields(d));
  }

  /** Folding an optional digest field into whatever message holds it. */
  lemma ReadEncodedDigest(merging: bool, held: Option<DigestData>, number: FieldNumber, d: DigestData)
    requires DigestUndeclared(d) && |EncodeDigest(d)| < TWO32
    ensures ReadDigest(merging, held, Field(number, LengthDelimited(EncodeDigest(d))))
         == Some(CombineOptional(merging, held, Some(d)))
  {
    MergeEncodedDigest(Base(merging, held), d);
  }

  // ---------- FileNode ----------

  lemma {:induction false} FoldUnknownFileNode(merging: bool, m: FileNodeData, fs: Layout)
    requires Avoids(fs, {1, 2, 4})
    ensures Fold(FileNodeReader(merging), m, fs) == Some(m.(unknown := m.unknown + fs))
  {
    if fs == [] {
      assert m.unknown + fs == m.unknown;
    } else {
      var init, last := fs[..|fs| - 1], fs[|fs| - 1];
      FoldUnknownFileNode(merging, m, init);
      assert m.unknown + fs == m.unknown + init + [last];
    }
  }

  lemma FoldDigestFileNode(merging: bool, m: FileNodeData, d: Option<DigestData>)
    requires OptionalUndeclared(d) && |Serialize(DigestField(2, d))| < TWO32
    ensures Fold(FileNodeReader(merging), m, DigestField(2, d))
         == Some(m.(digest := CombineOptional(merging, m.digest, d)))
  {
    hide ReadField;
    var fs := DigestField(2, d);
    if d.Some? {
      PayloadIsShort(fs, fs[0]);
      ReadEncodedDigest(merging, m.digest, 2, d.value);
    }
    FoldOptional(FileNodeReader(merging), m, fs, m.(digest := CombineOptional(merging, m.digest, d)));
  }

  lemma FoldNameFileNode(merging: bool, m: FileNodeData, name: Utf8)
    ensures Fold(FileNodeReader(merging), m, BytesField(1, name))
         == Some(m.(name := if name != [] then name else m.name))
  {
    FoldOptional(FileNodeReader(merging), m, BytesField(1, name), m.(name := if name != [] then name else m.name));
  }

  lemma FoldExecutableFileNode(merging: bool, m: FileNodeData, b: bool)
    ensures Fold(FileNodeReader(merging), m, BoolField(4, b)) == Some(m.(isExecutable := m.isExecutable || b))
  {
    FoldOptional(FileNodeReader(merging), m, BoolField(4, b), m.(isExecutable := m.isExecutable || b));
  }

  lemma FoldFileNode(merging: bool, m: FileNodeData, n: FileNodeData)
    requires FileNodeUndeclared(n) && |EncodeFileNode(n)| < TWO32
    ensures Fold(FileNodeReader(merging), m, FileNodeFields(n)) == Some(CombineFileNode(merging, m, n))
  {
    hide ReadField, Fold, Merge, Serialize, CombineOptional;
    var r := FileNodeReader(merging);
    var xs, ys, zs := BytesField(1, n.name), DigestField(2, n.digest), BoolField(4, n.isExecutable);
    var m1 := m.(name := if n.name != [] then n.name else m.name);
    var m2 := m1.(digest := CombineOptional(merging, m.digest, n.digest));
    var m3 := m2.(isExecutable := m.isExecutable || n.isExecutable);
    SerializePart(FileNodeFields(n), xs, ys, zs + n.unknown);
    FoldNameFileNode(merging, m, n.name);
    FoldDigestFileNode(merging, m1, n.digest);
    FoldExecutableFileNode(merging, m2, n.isExecutable);
    FoldUnknownFileNode(merging, m3, n.unknown);
    FoldFour(r, m, xs, m1, ys, m2, zs, m3, n.unknown, CombineFileNode(merging, m, n));
  }

  lemma MergeEncodedFileNode(merging: bool, m: FileNodeData, n: FileNodeData)
    requires FileNodeUndeclared(n) && |EncodeFileNode(n)| < TWO32
    ensures Merge(FileNodeReader(merging), m, EncodeFileNode(n)) == Some(CombineFileNode(merging, m, n))
  {
    FoldFileNode(merging, m, n);
    FoldIsMerge(FileNodeReader(merging), m, FileNodeFields(n));
  }

  // ---------- OutputFile ----------

  lemma {:induction false} FoldUnknownOutputFile(merging: bool, m: OutputFileData, fs: Layout)
    requires Avoids(fs, {1, 2, 3, 4})
    ensures Fold(OutputFileReader(merging), m, fs) == Some(m.(unknown := m.unknown + fs))
  {
    if fs == [] {
      assert m.unknown + fs == m.unknown;
    } else {
      var init, last := fs[..|fs| - 1], fs[|fs| - 1];
      FoldUnknownOutputFile(merging, m, init);
      assert m.unknown + fs == m.unknown + init + [last];
    }
  }

  lemma FoldPathOutputFile(merging: bool, m: OutputFileData, s: Utf8)
    ensures Fold(OutputFileReader(merging), m, BytesField(1, s)) == Some(m.(path := if s != [] then s else m.path))
  {
    FoldOptional(OutputFileReader(merging), m, BytesField(1, s), m.(path := if s != [] then s else m.path));
  }

  lemma FoldContentOutputFile(merging: bool, m: OutputFileData, b: Bytes)
    ensures Fold(OutputFileReader(merging), m, BytesField(3, b))
         == Some(m.(content := if b != [] then b else m.content))
  {
    FoldOptional(OutputFileReader(merging), m, BytesField(3, b), m.(content := if b != [] then b else m.content));
  }

  lemma FoldExecutableOutputFile(merging: bool, m: OutputFileData, b: bool)
    ensures Fold(OutputFileReader(merging), m, BoolField(4, b)) == Some(m.(isExecutable := m.isExecutable || b))
  {
    FoldOptional(OutputFileReader(merging), m, BoolField(4, b), m.(isExecutable := m.isExecutable || b));
  }

  lemma FoldDigestOutputFile(merging: bool, m: OutputFileData, d: Option<DigestData>)
    requires OptionalUndeclared(d) && |Serialize(DigestField(2, d))| < TWO32
    ensures Fold(OutputFileReader(merging), m, DigestField(2, d))
         == Some(m.(digest := CombineOptional(merging, m.digest, d)))
  {
    var fs := DigestField(2, d);
    if d.Some? {
      PayloadIsShort(fs, fs[0]);
      ReadEncodedDigest(merging, m.digest, 2, d.value);
    }
    FoldOptional(OutputFileReader(merging), m, fs, m.(digest := CombineOptional(merging, m.digest, d)));
  }

  lemma FoldOutputFile(merging: bool, m: OutputFileData, o: OutputFileData)
    requires OutputFileUndeclared(o) && |EncodeOutputFile(o)| < TWO32
    ensures Fold(OutputFileReader(merging), m, OutputFileFields(o)) == Some(CombineOutputFile(merging, m, o))
  {
    hide ReadField, Fold, Merge, Serialize, CombineOptional;
    var r := OutputFileReader(merging);
    var ws, xs := BytesField(1, o.path), DigestField(2, o.digest);
    var ys, zs := BytesField(3, o.content), BoolField(4, o.isExecutable);
    var m1 := m.(path := if o.path != [] then o.path else m.path);
    var m2 := m1.(digest := CombineOptional(merging, m.digest, o.digest));
    var m3 := m2.(content := if o.content != [] then o.content else m.content);
    var m4 := m3.(isExecutable := m.isExecutable || o.isExecutable);
    SerializePart(OutputFileFields(o), ws, xs, ys + zs + o.unknown);
    FoldPathOutputFile(merging, m, o.path);
    FoldDigestOutputFile(merging, m1, o.digest);
    FoldContentOutputFile(merging, m2, o.content);
    FoldExecutableOutputFile(merging, m3, o.isExecutable);
    FoldUnknownOutputFile(merging, m4, o.unknown);
    FoldFive(r, m, ws, m1, xs, m2, ys, m3, zs, m4, o.unknown, CombineOutputFile(merging, m, o));
  }

  lemma MergeEncodedOutputFile(merging: bool, m: OutputFileData, o: OutputFileData)
    requires OutputFileUndeclared(o) && |EncodeOutputFile(o)| < TWO32
    ensures Merge(OutputFileReader(merging), m, EncodeOutputFile(o)) == Some(CombineOutputFile(merging, m, o))
  {
    FoldOutputFile(merging, m, o);
    FoldIsMerge(OutputFileReader(merging), m, OutputFileFields(o));
  }

  // ---------- OutputDirectory ----------

  lemma {:induction false} FoldUnknownOutputDirectory(merging: bool, m: OutputDirectoryData, fs: Layout)
    requires Avoids(fs, {1, 2, 3})
    ensures Fold(OutputDirectoryReader(merging), m, fs) == Some(m.(unknown := m.unknown + fs))
  {
    if fs == [] {
      assert m.unknown + fs == m.unknown;
    } else {
      var init, last := fs[..|fs| - 1], fs[|fs| - 1];
      FoldUnknownOutputDirectory(merging, m, init);
      assert m.unknown + fs == m.unknown + init + [last];
    }
  }

  lemma FoldOutputDirectory(merging: bool, m: OutputDirectoryData, o: OutputDirectoryData)
    requires OutputDirectoryUndeclared(o) && |EncodeOutputDirectory(o)| < TWO32
    ensures Fold(OutputDirectoryReader(merging), m, OutputDirectoryFields(o))
         == Some(CombineOutputDirectory(merging, m, o))
  {
    hide ReadField, Fold, Merge, Serialize, ReadDigest, CombineDigest;
    var r := OutputDirectoryReader(merging);
    var xs, ys, zs := BytesField(1, o.path), DigestField(2, o.digest), DigestField(3, o.treeDigest);
    var m1 := m.(path := if o.path != [] then o.path else m.path);
    var m2 := m1.(digest := CombineOptional(merging, m.digest, o.digest));
    var m3 := m2.(treeDigest := CombineOptional(merging, m.treeDigest, o.treeDigest));
    FoldOptional(r, m, xs, m1);
    if ys != [] {
      PayloadIsShort(OutputDirectoryFields(o), ys[0]);
      ReadEncodedDigest(merging, m.digest, 2, o.digest.value);
    }
    FoldOptional(r, m1, ys, m2);
    if zs != [] {
      PayloadIsShort(OutputDirectoryFields(o), zs[0]);
      ReadEncodedDigest(merging, m.treeDigest, 3, o.treeDigest.value);
    }
    FoldOptional(r, m2, zs, m3);
    FoldUnknownOutputDirectory(merging, m3, o.unknown);
    FoldFour(r, m, xs, m1, ys, m2, zs, m3, o.unknown, CombineOutputDirectory(merging, m, o));
  }

  lemma MergeEncodedOutputDirectory(merging: bool, m: OutputDirectoryData, o: OutputDirectoryData)
    requires OutputDirectoryUndeclared(o) && |EncodeOutputDirectory(o)| < TWO32
    ensures Merge(OutputDirectoryReader(merging), m, EncodeOutputDirectory(o))
         == Some(CombineOutputDirectory(merging, m, o))
  {
    FoldOutputDirectory(merging, m, o);
    FoldIsMerge(OutputDirectoryReader(merging), m, OutputDirectoryFields(o));
  }

  // ---------- ActionResult ----------

  lemma {:induction false} FoldUnknownActionResult(merging: bool, m: ActionResultData, fs: Layout)
    requires Avoids(fs, {2, 3, 4, 5, 6, 7, 8})
    ensures Fold(ActionResultReader(merging), m, fs) == Some(m.(unknown := m.unknown + fs))
  {
    if fs == [] {
      assert m.unknown + fs == m.unknown;
    } else {
      var init, last := fs[..|fs| - 1], fs[|fs| - 1];
      FoldUnknownActionResult(merging, m, init);
      assert m.unknown + fs == m.unknown + init + [last];
    }
  }

  lemma CombineOutputFileFresh(merging: bool, o: OutputFileData)
    ensures CombineOutputFile(merging, EMPTY_OUTPUT_FILE, o) == o
  {
    assert [] + o.unknown == o.unknown;
    if o.digest.Some? {
      assert [] + o.digest.value.unknown == o.digest.value.unknown;
    }
  }

  lemma CombineOutputDirectoryFresh(merging: bool, o: OutputDirectoryData)
    ensures CombineOutputDirectory(merging, EMPTY_OUTPUT_DIRECTORY, o) == o
  {
    assert [] + o.unknown == o.unknown;
    if o.digest.Some? {
      assert [] + o.digest.value.unknown == o.digest.value.unknown;
    }
    if o.treeDigest.Some? {
      assert [] + o.treeDigest.value.unknown == o.treeDigest.value.unknown;
    }
  }

  lemma AppendOutputFile(merging: bool, m: ActionResultData, o: OutputFileData)
    requires OutputFileUndeclared(o) && |EncodeOutputFile(o)| < TWO32
    ensures ApplyActionResult(merging, m, Field(2, LengthDelimited(EncodeOutputFile(o))))
         == Some(m.(outputFiles := m.outputFiles + [o]))
  {
    hide ReadField, Serialize;
    MergeEncodedOutputFile(merging, EMPTY_OUTPUT_FILE, o);
    CombineOutputFileFresh(merging, o);
  }

  lemma {:induction false} FilesAreShort(fs: seq<OutputFileData>)
    requires |Serialize(FilesFields(fs))| < TWO32
    ensures forall o <- fs :: |EncodeOutputFile(o)| < TWO32
  {
    if fs != [] {
      var all := FilesFields(fs);
      assert all[..|all| - 1] == FilesFields(fs[..|fs| - 1]);
      PayloadIsShort(all, all[|all| - 1]);
      FilesAreShort(fs[..|fs| - 1]);
    }
  }

  lemma {:induction false} FoldFiles(merging: bool, m: ActionResultData, fs: seq<OutputFileData>)
    requires forall o <- fs :: OutputFileUndeclared(o) && |EncodeOutputFile(o)| < TWO32
    ensures Fold(ActionResultReader(merging), m, FilesFields(fs))
         == Some(m.(outputFiles := m.outputFiles + fs))
  {
    hide ApplyActionResult, EncodeOutputFile;
    if fs == [] {
      assert m.outputFiles + fs == m.outputFiles;
    } else {
      var init, last := fs[..|fs| - 1], fs[|fs| - 1];
      var next := m.(outputFiles := m.outputFiles + init);
      FoldFiles(merging, m, init);
      AppendOutputFile(merging, next, last);
      FoldOne(ActionResultReader(merging), next, Field(2, LengthDelimited(EncodeOutputFile(last))));
      FoldStep(ActionResultReader(merging), m, FilesFields(init), next,
               [Field(2, LengthDelimited(EncodeOutputFile(last)))], next.(outputFiles := next.outputFiles + [last]));
      assert m.outputFiles + fs == m.outputFiles + init + [last];
    }
  }

  lemma AppendOutputDirectory(merging: bool, m: ActionResultData, o: OutputDirectoryData)
    requires OutputDirectoryUndeclared(o) && |EncodeOutputDirectory(o)| < TWO32
    ensures ApplyActionResult(merging, m, Field(3, LengthDelimited(EncodeOutputDirectory(o))))
         == Some(m.(outputDirectories := m.outputDirectories + [o]))
  {
    hide ReadField, Serialize;
    MergeEncodedOutputDirectory(merging, EMPTY_OUTPUT_DIRECTORY, o);
    CombineOutputDirectoryFresh(merging, o);
  }

  lemma {:induction false} DirectoriesAreShort(ds: seq<OutputDirectoryData>)
    requires |Serialize(DirectoriesFields(ds))| < TWO32
    ensures forall o <- ds :: |EncodeOutputDirectory(o)| < TWO32
  {
    if ds != [] {
      var all := DirectoriesFields(ds);
      assert all[..|all| - 1] == DirectoriesFields(ds[..|ds| - 1]);
      PayloadIsShort(all, all[|all| - 1]);
      DirectoriesAreShort(ds[..|ds| - 1]);
    }
  }

  lemma {:induction false} FoldDirectories(merging: bool, m: ActionResultData, ds: seq<OutputDirectoryData>)
    requires forall o <- ds :: OutputDirectoryUndeclared(o) && |EncodeOutputDirectory(o)| < TWO32
    ensures Fold(ActionResultReader(merging), m, DirectoriesFields(ds))
         == Some(m.(outputDirectories := m.outputDirectories + ds))
  {
    hide ApplyActionResult, EncodeOutputDirectory;
    if ds == [] {
      assert m.outputDirectories + ds == m.outputDirectories;
    } else {
      var init, last := ds[..|ds| - 1], ds[|ds| - 1];
      var next := m.(outputDirectories := m.outputDirectories + init);
      FoldDirectories(merging, m, init);
      AppendOutputDirectory(merging, next, last);
      FoldOne(ActionResultReader(merging), next, Field(3, LengthDelimited(EncodeOutputDirectory(last))));
      FoldStep(ActionResultReader(merging), m, DirectoriesFields(init), next,
               [Field(3, LengthDelimited(EncodeOutputDirectory(last)))],
               next.(outputDirectories := next.outputDirectories + [last]));
      assert m.outputDirectories + ds == m.outputDirectories + init + [last];
    }
  }

  lemma FoldExitCode(merging: bool, m: ActionResultData, v: Int32)
    ensures Fold(ActionResultReader(merging), m, IntField(4, v))
         == Some(m.(exitCode := if v != 0 then v else m.exitCode))
  {
    Signed32RoundTrip(v);
    FoldOptional(ActionResultReader(merging), m, IntField(4, v),
                 m.(exitCode := if v != 0 then v else m.exitCode));
  }

  lemma FoldRaw(merging: bool, m: ActionResultData, b: Bytes)
    ensures Fold(ActionResultReader(merging), m, BytesField(5, b))
         == Some(m.(stdoutRaw := if b != [] then b else m.stdoutRaw))
    ensures Fold(ActionResultReader(merging), m, BytesField(7, b))
         == Some(m.(stderrRaw := if b != [] then b else m.stderrRaw))
  {
    var r := ActionResultReader(merging);
    FoldOptional(r, m, BytesField(5, b), m.(stdoutRaw := if b != [] then b else m.stdoutRaw));
    FoldOptional(r, m, BytesField(7, b), m.(stderrRaw := if b != [] then b else m.stderrRaw));
  }

  lemma ApplyStdoutDigest(merging: bool, m: ActionResultData, d: DigestData)
    requires DigestUndeclared(d) && |EncodeDigest(d)| < TWO32
    ensures ApplyActionResult(merging, m, Field(6, LengthDelimited(EncodeDigest(d))))
         == Some(m.(stdoutDigest := CombineOptional(merging, m.stdoutDigest, Some(d))))
  {
    hide ReadField;
    ReadEncodedDigest(merging, m.stdoutDigest, 6, d);
  }

  lemma FoldStdoutDigest(merging: bool, m: ActionResultData, d: Option<DigestData>)
    requires OptionalUndeclared(d) && |Serialize(DigestField(6, d))| < TWO32
    ensures Fold(ActionResultReader(merging), m, DigestField(6, d))
         == Some(m.(stdoutDigest := CombineOptional(merging, m.stdoutDigest, d)))
  {
    if d.Some? {
      PayloadIsShort(DigestField(6, d), DigestField(6, d)[0]);
      ApplyStdoutDigest(merging, m, d.value);
      FoldOne(ActionResultReader(merging), m, DigestField(6, d)[0]);
    }
  }

  lemma ApplyStderrDigest(merging: bool, m: ActionResultData, d: DigestData)
    requires DigestUndeclared(d) && |EncodeDigest(d)| < TWO32
    ensures ApplyActionResult(merging, m, Field(8, LengthDelimited(EncodeDigest(d))))
         == Some(m.(stderrDigest := CombineOptional(merging, m.stderrDigest, Some(d))))
  {
    hide ReadField;
    ReadEncodedDigest(merging, m.stderrDigest, 8, d);
  }

  lemma FoldStderrDigest(merging: bool, m: ActionResultData, d: Option<DigestData>)
    requires OptionalUndeclared(d) && |Serialize(DigestField(8, d))| < TWO32
    ensures Fold(ActionResultReader(merging), m, DigestField(8, d))
         == Some(m.(stderrDigest := CombineOptional(merging, m.stderrDigest, d)))
  {
    if d.Some? {
      PayloadIsShort(DigestField(8, d), DigestField(8, d)[0]);
      ApplyStderrDigest(merging, m, d.value);
      FoldOne(ActionResultReader(merging), m, DigestField(8, d)[0]);
    }
  }

  lemma FoldSingular(merging: bool, m: ActionResultData, a: ActionResultData)
    requires OptionalUndeclared(a.stdoutDigest) && OptionalUndeclared(a.stderrDigest)
    requires |Serialize(SingularFields(a))| < TWO32
    ensures Fold(ActionResultReader(merging), m, SingularFields(a))
         == Some(CombineActionResult(merging, m, a).(
                   outputFiles := m.outputFiles, outputDirectories := m.outputDirectories, unknown := m.unknown))
  {
    hide ReadField;
    var vs, ws, xs := IntField(4, a.exitCode), BytesField(5, a.stdoutRaw), DigestField(6, a.stdoutDigest);
    var ys, zs := BytesField(7, a.stderrRaw), DigestField(8, a.stderrDigest);
    SerializePart(SingularFields(a), vs + ws, xs, ys + zs);
    SerializePart(SingularFields(a), vs + ws + xs + ys, zs, []);
    var m1 := m.(exitCode := if a.exitCode != 0 then a.exitCode else m.exitCode);
    var m2 := m1.(stdoutRaw := if a.stdoutRaw != [] then a.stdoutRaw else m.stdoutRaw);
    var m3 := m2.(stdoutDigest := CombineOptional(merging, m.stdoutDigest, a.stdoutDigest));
    var m4 := m3.(stderrRaw := if a.stderrRaw != [] then a.stderrRaw else m.stderrRaw);
    var m5 := m4.(stderrDigest := CombineOptional(merging, m.stderrDigest, a.stderrDigest));
    FoldExitCode(merging, m, a.exitCode);
    FoldRaw(merging, m1, a.stdoutRaw);
    FoldStdoutDigest(merging, m2, a.stdoutDigest);
    FoldRaw(merging, m3, a.stderrRaw);
    FoldStderrDigest(merging, m4, a.stderrDigest);
    FoldFive(ActionResultReader(merging), m, vs, m1, ws, m2, xs, m3, ys, m4, zs, m5);
  }

  lemma FoldActionResult(merging: bool, m: ActionResultData, a: ActionResultData)
    requires ActionResultUndeclared(a) && |EncodeActionResult(a)| < TWO32
    ensures Fold(ActionResultReader(merging), m, ActionResultFields(a)) == Some(CombineActionResult(merging, m, a))
  {
    hide ReadField;
    var r := ActionResultReader(merging);
    var xs, ys, zs := FilesFields(a.outputFiles), DirectoriesFields(a.outputDirectories), SingularFields(a);
    SerializeConcat(xs, ys);
    SerializeConcat(xs + ys, zs);
    SerializeConcat(xs + ys + zs, a.unknown);
    var m1 := m.(outputFiles := m.outputFiles + a.outputFiles);
    var m2 := m1.(outputDirectories := m.outputDirectories + a.outputDirectories);
    var m3 := CombineActionResult(merging, m, a).(unknown := m.unknown);
    FilesAreShort(a.outputFiles);
    DirectoriesAreShort(a.outputDirectories);
    FoldFiles(merging, m, a.outputFiles);
    FoldDirectories(merging, m1, a.outputDirectories);
    FoldSingular(merging, m2, a);
    FoldUnknownActionResult(merging, m3, a.unknown);
    FoldFour(r, m, xs, m1, ys, m2, zs, m3, a.unknown, CombineActionResult(merging, m, a));
  }

  /**
    Reading an encoded action result onto any message: repeated fields are appended, singular ones overridden where
    they were written, unknown fields appended.
   */
  lemma MergeEncodedActionResult(merging: bool, m: ActionResultData, a: ActionResultData)
    requires ActionResultUndeclared(a) && |EncodeActionResult(a)| < TWO32
    ensures Merge(ActionResultReader(merging), m, EncodeActionResult(a)) == Some(CombineActionResult(merging, m, a))
  {
    FoldActionResult(merging, m, a);
    FoldIsMerge(ActionResultReader(merging), m, ActionResultFields(a));
  }
}
