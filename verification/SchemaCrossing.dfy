/** `OutputFile` and `FileNode` are binary-compatible: a file may pass through a reader that only knows `FileNode`. */
module SchemaCrossing {
  import opened Options
  import opened Wire
  import opened Messages
  import opened RoundTrip
  import opened Normalisation

  /** Without inline content, the two schemas write the same bytes. */
  lemma SameBytesWithoutContent(o: OutputFileData)
    requires o.content == []
    ensures EncodeOutputFile(o) == EncodeFileNode(FileNodeData(o.path, o.digest, o.isExecutable, o.unknown))
  {
    assert BytesField(1, o.path) + DigestField(2, o.digest) + []
        == BytesField(1, o.path) + DigestField(2, o.digest);
  }

  /** What a reader of `FileNode` makes of an `OutputFile`: the content becomes an unknown field. */
  function AsFileNode(o: OutputFileData): FileNodeData {
    FileNodeData(o.path, o.digest, o.isExecutable, BytesField(3, o.content) + o.unknown)
  }

  lemma AsFileNodeSize(o: OutputFileData)
    ensures |EncodeFileNode(AsFileNode(o))| == |EncodeOutputFile(o)|
  {
    hide Serialize;
    FileNodeSize(AsFileNode(o));
    OutputFileSize(o);
    SizeOfSum(BytesField(3, o.content), o.unknown);
  }

  lemma ReadAsFileNode(merging: bool, o: OutputFileData)
    requires OutputFileUndeclared(o) && |EncodeOutputFile(o)| < TWO32
    ensures ParseFileNode(merging, EncodeOutputFile(o)) == Some(AsFileNode(o))
  {
    hide ReadField, Serialize;
    var r, m := FileNodeReader(merging), EMPTY_FILE_NODE;
    var ws, xs := BytesField(1, o.path), DigestField(2, o.digest);
    var ys, zs := BytesField(3, o.content), BoolField(4, o.isExecutable);
    var m1 := m.(name := o.path);
    var m2 := m1.(digest := o.digest);
    var m3 := m2.(unknown := ys);
    var m4 := m3.(isExecutable := o.isExecutable);
    SerializePart(OutputFileFields(o), ws, xs, ys + zs + o.unknown);
    FoldOptional(r, m, ws, m1);
    FoldDigestFileNode(merging, m1, o.digest);
    CombineOptionalFresh(merging, o.digest);
    FoldUnknownFileNode(merging, m2, ys);
    FoldOptional(r, m3, zs, m4);
    FoldUnknownFileNode(merging, m4, o.unknown);
    assert m2.unknown + ys == ys;
    assert m4.(unknown := m4.unknown + o.unknown) == AsFileNode(o);
    FoldFive(r, m, ws, m1, xs, m2, ys, m3, zs, m4, o.unknown, AsFileNode(o));
    FoldIsMerge(r, m, OutputFileFields(o));
  }

  // ---------- Back again ----------

  function WithoutContent(fs: Layout): Layout {
    if fs == [] then []
    else
      var init, last := fs[..|fs| - 1], fs[|fs| - 1];
      if last.number == 3 then WithoutContent(init) else WithoutContent(init) + [last]
  }

  lemma {:induction false} WithoutContentValues(fs: Layout, number: int, wireType: int)
    ensures ValuesOf(WithoutContent(fs), number, wireType)
         == if number == 3 then [] else ValuesOf(fs, number, wireType)
  {
    if fs != [] {
      var init, last := fs[..|fs| - 1], fs[|fs| - 1];
      WithoutContentValues(init, number, wireType);
      ValuesOfConcat(WithoutContent(init), [last], number, wireType);
      assert [last][..0] == [];
    }
  }

  /** The content a reader of `OutputFile` ends up with, starting from `held`. */
  function ContentOf(fs: Layout, held: Bytes): Bytes {
    var vs := ValuesOf(fs, 3, 2);
    if vs != [] && vs[|vs| - 1].LengthDelimited? then vs[|vs| - 1].bytes else held
  }

  lemma {:induction false} FoldRetained(merging: bool, m: OutputFileData, fs: Layout)
    requires Avoids(fs, {1, 2, 4})
    requires forall f <- fs | f.number == 3 :: f.value.LengthDelimited?
    ensures Fold(OutputFileReader(merging), m, fs)
         == Some(m.(content := ContentOf(fs, m.content), unknown := m.unknown + WithoutContent(fs)))
  {
    hide ReadField;
    if fs == [] {
      assert m.unknown + [] == m.unknown;
    } else {
      var init, last := fs[..|fs| - 1], fs[|fs| - 1];
      FoldRetained(merging, m, init);
      if last.number != 3 {
        assert m.unknown + WithoutContent(fs) == m.unknown + WithoutContent(init) + [last];
      }
    }
  }

  lemma ContentFieldValues(content: Bytes, number: int, wireType: int)
    ensures ValuesOf(BytesField(3, content), number, wireType)
         == if content != [] && number == 3 && wireType == 2 then [LengthDelimited(content)] else []
  {
    if content != [] {
      assert BytesField(3, content)[..0] == [];
    }
  }

  /** The table a `FileNode` reader fills: the one of the file, plus the content under field 3. */
  lemma RetainedValues(o: OutputFileData, unknown: Layout, number: int, wireType: int)
    requires OutputFileUndeclared(o) && SameTable(AsFileNode(o).unknown, unknown)
    ensures number == 3 ==> ValuesOf(o.unknown, number, wireType) == []
    ensures ValuesOf(unknown, number, wireType)
         == if number != 3 then ValuesOf(o.unknown, number, wireType)
            else if o.content != [] && wireType == 2 then [LengthDelimited(o.content)] else []
  {
    assert ValuesOf(AsFileNode(o).unknown, number, wireType) == ValuesOf(unknown, number, wireType);
    ValuesOfConcat(BytesField(3, o.content), o.unknown, number, wireType);
    ContentFieldValues(o.content, number, wireType);
    if number == 3 {
      AbsentHasNoValue(o.unknown, 3, wireType);
    }
  }

  lemma RetainedTable(o: OutputFileData, unknown: Layout)
    requires OutputFileUndeclared(o) && SameTable(AsFileNode(o).unknown, unknown)
    ensures Avoids(unknown, {1, 2, 4})
    ensures forall f <- unknown | f.number == 3 :: f.value.LengthDelimited?
    ensures ContentOf(unknown, []) == o.content
    ensures SameTable(o.unknown, WithoutContent(unknown))
  {
    hide ValuesOf;
    SameTableAvoids(AsFileNode(o).unknown, unknown, {1, 2, 4});
    RetainedValues(o, unknown, 3, 2);
    forall f | f in unknown && f.number == 3
      ensures f.value.LengthDelimited?
    {
      ListedHasValue(unknown, f);
      RetainedValues(o, unknown, 3, TypeOf(f.value));
    }
    forall number, wireType
      ensures ValuesOf(o.unknown, number, wireType) == ValuesOf(WithoutContent(unknown), number, wireType)
    {
      RetainedValues(o, unknown, number, wireType);
      WithoutContentValues(unknown, number, wireType);
    }
  }

  /**
    An `OutputFile` written, read as a `FileNode`, rewritten in any order the hash maps are walked and read as an
    `OutputFile` again is unchanged.
   */
  lemma CrossingPreservesOutputFile(merging: bool, o: OutputFileData, rewritten: FileNodeData)
    requires OutputFileUndeclared(o) && |EncodeOutputFile(o)| < TWO32
    requires ParseFileNode(merging, EncodeOutputFile(o)).Some?
      ==> SameFileNode(ParseFileNode(merging, EncodeOutputFile(o)).value, rewritten)
    ensures ParseFileNode(merging, EncodeOutputFile(o)).Some?
    ensures ParseOutputFile(merging, EncodeFileNode(rewritten)).Some?
    ensures SameOutputFile(o, ParseOutputFile(merging, EncodeFileNode(rewritten)).value)
  {
    hide ReadField, Serialize;
    ReadAsFileNode(merging, o);
    AsFileNodeSize(o);
    SameFileNodeSameSize(AsFileNode(o), rewritten);
    RetainedTable(o, rewritten.unknown);
    SameOptionalUndeclared(o.digest, rewritten.digest);
    ReadBackAsOutputFile(merging, rewritten);
  }

  lemma ReadBackAsOutputFile(merging: bool, n: FileNodeData)
    requires Avoids(n.unknown, {1, 2, 4}) && OptionalUndeclared(n.digest) && |EncodeFileNode(n)| < TWO32
    requires forall f <- n.unknown | f.number == 3 :: f.value.LengthDelimited?
    ensures ParseOutputFile(merging, EncodeFileNode(n))
         == Some(OutputFileData(n.name, n.digest, ContentOf(n.unknown, []), n.isExecutable,
                                WithoutContent(n.unknown)))
  {
    hide ReadField, Serialize;
    var r, m := OutputFileReader(merging), EMPTY_OUTPUT_FILE;
    var xs, ys, zs := BytesField(1, n.name), DigestField(2, n.digest), BoolField(4, n.isExecutable);
    var m1 := m.(path := n.name);
    var m2 := m1.(digest := n.digest);
    var m3 := m2.(isExecutable := n.isExecutable);
    SerializePart(FileNodeFields(n), xs, ys, zs + n.unknown);
    FoldPathOutputFile(merging, m, n.name);
    FoldDigestOutputFile(merging, m1, n.digest);
    CombineOptionalFresh(merging, n.digest);
    FoldExecutableOutputFile(merging, m2, n.isExecutable);
    FoldRetained(merging, m3, n.unknown);
    var m4 := m3.(content := ContentOf(n.unknown, []), unknown := WithoutContent(n.unknown));
    assert m3.unknown + WithoutContent(n.unknown) == WithoutContent(n.unknown);
    FoldFour(r, m, xs, m1, ys, m2, zs, m3, n.unknown, m4);
    FoldIsMerge(r, m, FileNodeFields(n));
  }

  lemma CombineOptionalFresh(merging: bool, d: Option<DigestData>)
    ensures CombineOptional(merging, None, d) == d
  {
    if d.Some? {
      assert [] + d.value.unknown == d.value.unknown;
    }
  }
}
