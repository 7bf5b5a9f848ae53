/**
  What is read from bytes, told field by field: which messages are accepted, and that the last value of a field counts,
  except that repeated fields and unknown ones are collected, and that the parts of a submessage that occurs twice are
  read as one if the runtime merges them.
 */
module Reading {
  import opened Options
  import opened Wire
  import opened Messages
  import opened Grammar
  import Unicode

  // ---------- The fields of a message ----------

  function FieldsOf(b: Bytes): Option<seq<Field>>
    decreases |b|
  {
    if b == [] then Some([])
    else
      match ReadField(b)
      case Malformed => None
      case Got(f, rest) =>
        match FieldsOf(rest)
        case None => None
        case Some(fs) => Some([f] + fs)
  }

  /** The bytes are those of entries that read as these fields. */
  ghost predicate AreFields(es: seq<Entry>, fs: seq<Field>) {
    |es| == |fs| && forall i | 0 <= i < |es| :: IsEntry(es[i], fs[i])
  }

  /** A message consists of fields exactly if its bytes are entries, one after the other. */
  lemma FieldsExactly(b: Bytes, fs: seq<Field>)
    ensures FieldsOf(b) == Some(fs) <==> exists es :: AllBytes(es) == b && AreFields(es, fs)
  {
    if FieldsOf(b) == Some(fs) {
      var es := EntriesAreThere(b);
    }
    if es :| AllBytes(es) == b && AreFields(es, fs) {
      EntriesAreRead(es, fs);
    }
  }

  lemma {:induction false} EntriesAreThere(b: Bytes) returns (es: seq<Entry>)
    requires FieldsOf(b).Some?
    ensures AllBytes(es) == b && AreFields(es, FieldsOf(b).value)
    decreases |b|
  {
    hide ReadField, IsEntry;
    es := [];
    if b != [] {
      var e := EntryIsThere(b);
      var later := EntriesAreThere(ReadField(b).rest);
      es := [e] + later;
      assert es[1..] == later;
    }
  }

  lemma {:induction false} EntriesAreRead(es: seq<Entry>, fs: seq<Field>)
    requires AreFields(es, fs)
    ensures FieldsOf(AllBytes(es)) == Some(fs)
    decreases |es|
  {
    hide ReadField, IsEntry;
    if es != [] {
      EntryIsRead(es[0], fs[0], AllBytes(es[1..]));
      EntriesAreRead(es[1..], fs[1..]);
      EntryTakesBytes(es[0], fs[0]);
      assert fs == [fs[0]] + fs[1..];
    }
  }

  lemma EntryTakesBytes(e: Entry, f: Field)
    requires IsEntry(e, f)
    ensures EntryBytes(e) != []
  {
    hide IsPayload;
  }

  /** Doing what one field after the other calls for. */
  function Apply<M>(apply: (M, Field) -> Option<M>, m: M, fs: seq<Field>): Option<M> {
    if fs == [] then Some(m)
    else
      match Apply(apply, m, fs[..|fs| - 1])
      case None => None
      case Some(next) => apply(next, fs[|fs| - 1])
  }

  lemma {:induction false} ApplyFirst<M>(apply: (M, Field) -> Option<M>, m: M, f: Field, fs: seq<Field>)
    ensures Apply(apply, m, [f] + fs)
         == match apply(m, f) case None => None case Some(next) => Apply(apply, next, fs)
    decreases |fs|
  {
    var all := [f] + fs;
    if fs == [] {
      assert all[..0] == [];
    } else {
      assert all[..|all| - 1] == [f] + fs[..|fs| - 1];
      ApplyFirst(apply, m, f, fs[..|fs| - 1]);
    }
  }

  /** The reading loop does what the fields call for, and fails if there is anything else. */
  lemma {:induction false} MergeApplies<M>(apply: (M, Field) -> Option<M>, m: M, b: Bytes)
    ensures Merge(apply, m, b)
         == match FieldsOf(b) case None => None case Some(fs) => Apply(apply, m, fs)
    decreases |b|
  {
    hide ReadField;
    if b != [] && ReadField(b).Got? {
      var f, rest := ReadField(b).value, ReadField(b).rest;
      if FieldsOf(rest).Some? {
        ApplyFirst(apply, m, f, FieldsOf(rest).value);
      }
      if apply(m, f).Some? {
        MergeApplies(apply, apply(m, f).value, rest);
      }
    }
  }

  // ---------- The values of one number ----------

  /** The payloads of the length-delimited fields of this number, in order. */
  function Payloads(fs: seq<Field>, number: int): seq<Bytes> {
    if fs == [] then []
    else
      var f := fs[|fs| - 1];
      Payloads(fs[..|fs| - 1], number)
      + if f.number == number && f.Field? && f.value.LengthDelimited? then [f.value.bytes] else []
  }

  /** The values of the varint fields of this number, in order. */
  function Numbers(fs: seq<Field>, number: int): seq<UInt64> {
    if fs == [] then []
    else
      var f := fs[|fs| - 1];
      Numbers(fs[..|fs| - 1], number)
      + if f.number == number && f.Field? && f.value.Varint64? then [f.value.varint] else []
  }

  /** The fields of numbers that are not declared, in order; groups are lost. */
  function Undeclared(fs: seq<Field>, declared: set<int>): Layout {
    if fs == [] then []
    else
      var f := fs[|fs| - 1];
      Undeclared(fs[..|fs| - 1], declared) + if f.number !in declared && f.Field? then [f] else []
  }

  function LastPayload(fs: seq<Field>, number: int): Bytes {
    var ps := Payloads(fs, number); if ps == [] then [] else ps[|ps| - 1]
  }

  function LastNumber(fs: seq<Field>, number: int): UInt64 {
    var ns := Numbers(fs, number); if ns == [] then 0 else ns[|ns| - 1]
  }

  function Joined(ps: seq<Bytes>): Bytes {
    if ps == [] then [] else Joined(ps[..|ps| - 1]) + ps[|ps| - 1]
  }

  // ---------- What a field has to hold ----------

  ghost predicate HoldsBytes(f: Field) {
    f.Field? && f.value.LengthDelimited?
  }

  ghost predicate HoldsText(f: Field) {
    HoldsBytes(f) && Unicode.IsText(f.value.bytes)
  }

  ghost predicate HoldsNumber(f: Field) {
    f.Field? && f.value.Varint64?
  }

  ghost predicate HoldsDigest(f: Field) {
    HoldsBytes(f) && ParseDigest(f.value.bytes).Some?
  }

  ghost predicate DigestFieldRight(f: Field) {
    (f.number == 1 ==> HoldsText(f)) && (f.number == 2 ==> HoldsNumber(f))
  }

  ghost predicate DigestRight(fs: seq<Field>) {
    forall f <- fs :: DigestFieldRight(f)
  }

  ghost predicate FileNodeFieldRight(f: Field) {
    && (f.number == 1 ==> HoldsText(f)) && (f.number == 2 ==> HoldsDigest(f)) && (f.number == 4 ==> HoldsNumber(f))
  }

  ghost predicate FileNodeRight(fs: seq<Field>) {
    forall f <- fs :: FileNodeFieldRight(f)
  }

  ghost predicate OutputFileFieldRight(f: Field) {
    && (f.number == 1 ==> HoldsText(f)) && (f.number == 2 ==> HoldsDigest(f))
    && (f.number == 3 ==> HoldsBytes(f)) && (f.number == 4 ==> HoldsNumber(f))
  }

  ghost predicate OutputFileRight(fs: seq<Field>) {
    forall f <- fs :: OutputFileFieldRight(f)
  }

  ghost predicate OutputDirectoryFieldRight(f: Field) {
    && (f.number == 1 ==> HoldsText(f)) && (f.number == 2 ==> HoldsDigest(f)) && (f.number == 3 ==> HoldsDigest(f))
  }

  ghost predicate OutputDirectoryRight(fs: seq<Field>) {
    forall f <- fs :: OutputDirectoryFieldRight(f)
  }

  ghost predicate ActionResultFieldRight(merging: bool, f: Field) {
    && (f.number == 2 ==> HoldsBytes(f) && ParseOutputFile(merging, f.value.bytes).Some?)
    && (f.number == 3 ==> HoldsBytes(f) && ParseOutputDirectory(merging, f.value.bytes).Some?)
    && (f.number == 4 ==> HoldsNumber(f))
    && (f.number == 5 || f.number == 7 ==> HoldsBytes(f))
    && (f.number == 6 || f.number == 8 ==> HoldsDigest(f))
  }

  ghost predicate ActionResultRight(merging: bool, fs: seq<Field>) {
    forall f <- fs :: ActionResultFieldRight(merging, f)
  }

  // ---------- What the values are ----------

  ghost predicate IsDigest(fs: seq<Field>, d: DigestData) {
    && d.hash == LastPayload(fs, 1) && d.sizeBytes == ToInt64(LastNumber(fs, 2)) && d.unknown == Undeclared(fs, {1, 2})
  }

  /** No digest if there is no payload; else the one the last payload holds, or all of them in a row if they merge. */
  ghost predicate IsOptional(merging: bool, ps: seq<Bytes>, d: Option<DigestData>) {
    if ps == [] then d == None
    else d.Some? && d == ParseDigest(if merging then Joined(ps) else ps[|ps| - 1])
  }

  ghost predicate IsFileNode(merging: bool, fs: seq<Field>, n: FileNodeData) {
    && n.name == LastPayload(fs, 1) && IsOptional(merging, Payloads(fs, 2), n.digest)
    && n.isExecutable == (LastNumber(fs, 4) % TWO32 != 0) && n.unknown == Undeclared(fs, {1, 2, 4})
  }

  ghost predicate IsOutputFile(merging: bool, fs: seq<Field>, o: OutputFileData) {
    && o.path == LastPayload(fs, 1) && IsOptional(merging, Payloads(fs, 2), o.digest) && o.content == LastPayload(fs, 3)
    && o.isExecutable == (LastNumber(fs, 4) % TWO32 != 0) && o.unknown == Undeclared(fs, {1, 2, 3, 4})
  }

  ghost predicate IsOutputDirectory(merging: bool, fs: seq<Field>, o: OutputDirectoryData) {
    && o.path == LastPayload(fs, 1) && IsOptional(merging, Payloads(fs, 2), o.digest)
    && IsOptional(merging, Payloads(fs, 3), o.treeDigest) && o.unknown == Undeclared(fs, {1, 2, 3})
  }

  ghost predicate AreOutputFiles(merging: bool, ps: seq<Bytes>, os: seq<OutputFileData>) {
    |ps| == |os| && forall i | 0 <= i < |ps| :: ParseOutputFile(merging, ps[i]) == Some(os[i])
  }

  ghost predicate AreOutputDirectories(merging: bool, ps: seq<Bytes>, os: seq<OutputDirectoryData>) {
    |ps| == |os| && forall i | 0 <= i < |ps| :: ParseOutputDirectory(merging, ps[i]) == Some(os[i])
  }

  ghost predicate IsActionResult(merging: bool, fs: seq<Field>, a: ActionResultData) {
    && AreOutputFiles(merging, Payloads(fs, 2), a.outputFiles)
    && AreOutputDirectories(merging, Payloads(fs, 3), a.outputDirectories)
    && a.exitCode == ToInt32(LastNumber(fs, 4))
    && a.stdoutRaw == LastPayload(fs, 5) && IsOptional(merging, Payloads(fs, 6), a.stdoutDigest)
    && a.stderrRaw == LastPayload(fs, 7) && IsOptional(merging, Payloads(fs, 8), a.stderrDigest)
    && a.unknown == Undeclared(fs, {2, 3, 4, 5, 6, 7, 8})
  }

  /** Two's complement: the number in range that has the same low 32 bits, or the same 64 bits. */
  lemma SignedExactly(v: UInt64, n: Int32, m: Int64)
    ensures ToInt32(v) == n <==> exists k :: v - n == k * TWO32
    ensures ToInt64(v) == m <==> v == m || v == m + TWO64
  {
    assert v == v / TWO32 * TWO32 + v % TWO32;
    if ToInt32(v) == n {
      assert v - n == (if v % TWO32 < 0x8000_0000 then v / TWO32 else v / TWO32 + 1) * TWO32;
    }
    if k :| v - n == k * TWO32 {
      if 0 <= n {
        assert k == v / TWO32 && v % TWO32 == n;
      } else {
        assert k - 1 == v / TWO32 && v % TWO32 == n + TWO32;
      }
    }
  }

  // ---------- Digests ----------

  lemma MoreText(f: Field)
    ensures HoldsText(f) <==> AsString(f).Some?
  {
    hide IsUtf8, Unicode.IsText;
    if f.Field? && f.value.LengthDelimited? {
      Unicode.Utf8Exactly(f.value.bytes);
    }
  }

  lemma DigestStep(fs: seq<Field>, f: Field, d: DigestData)
    requires IsDigest(fs, d)
    ensures ApplyDigest(d, f).Some? <==> DigestFieldRight(f)
    ensures ApplyDigest(d, f).Some? ==> IsDigest(fs + [f], ApplyDigest(d, f).value)
  {
    hide HoldsText, IsUtf8, ToInt64;
    MoreText(f);
    assert (fs + [f])[..|fs|] == fs;
  }

  lemma {:induction false} DigestApplied(fs: seq<Field>)
    ensures var r := Apply(DigestReader(), EMPTY_DIGEST, fs);
      if DigestRight(fs) then r.Some? && IsDigest(fs, r.value) else r == None
  {
    hide IsDigest, DigestFieldRight, ApplyDigest;
    if fs == [] {
      assert IsDigest([], EMPTY_DIGEST) by { NothingIsEmpty(); }
    } else {
      var init, f := fs[..|fs| - 1], fs[|fs| - 1];
      assert fs == init + [f];
      DigestApplied(init);
      if DigestRight(init) {
        DigestStep(init, f, Apply(DigestReader(), EMPTY_DIGEST, init).value);
      }
    }
  }

  lemma NothingIsEmpty()
    ensures IsDigest([], EMPTY_DIGEST)
  {
  }

  /** Whether a digest can be read does not depend on what it is read onto. */
  lemma {:induction false} ReadingDigestIsUniform(d: DigestData, fs: seq<Field>)
    ensures Apply(DigestReader(), d, fs).Some? <==> DigestRight(fs)
  {
    hide DigestFieldRight, ApplyDigest;
    if fs != [] {
      var init, f := fs[..|fs| - 1], fs[|fs| - 1];
      assert fs == init + [f];
      ReadingDigestIsUniform(d, init);
      if DigestRight(init) {
        DigestAccepts(Apply(DigestReader(), d, init).value, f);
      }
    }
  }

  lemma DigestAccepts(d: DigestData, f: Field)
    ensures ApplyDigest(d, f).Some? <==> DigestFieldRight(f)
  {
    hide HoldsText, IsUtf8;
    MoreText(f);
  }

  lemma ReadableOntoAny(d: DigestData, b: Bytes)
    ensures Merge(DigestReader(), d, b).Some? <==> ParseDigest(b).Some?
  {
    hide FieldsOf, Merge, DigestRight;
    MergeApplies(DigestReader(), EMPTY_DIGEST, b);
    MergeApplies(DigestReader(), d, b);
    if FieldsOf(b).Some? {
      ReadingDigestIsUniform(d, FieldsOf(b).value);
      ReadingDigestIsUniform(EMPTY_DIGEST, FieldsOf(b).value);
    }
  }

  lemma OptionalStep(merging: bool, ps: seq<Bytes>, held: Option<DigestData>, f: Field)
    requires IsOptional(merging, ps, held)
    ensures ReadDigest(merging, held, f).Some? <==> HoldsDigest(f)
    ensures HoldsDigest(f) ==> IsOptional(merging, ps + [f.value.bytes], ReadDigest(merging, held, f).value)
  {
    hide Merge;
    if HoldsBytes(f) {
      ReadableOntoAny(Base(merging, held), f.value.bytes);
      if HoldsDigest(f) {
        hide ReadDigest, IsOptional;
        OneMorePayload(merging, ps, held, f.value.bytes);
        assert ReadDigest(merging, held, f).value == Merge(DigestReader(), Base(merging, held), f.value.bytes) by {
          ReadDigestReads(merging, held, f);
        }
      }
    }
  }

  lemma ReadDigestReads(merging: bool, held: Option<DigestData>, f: Field)
    requires HoldsBytes(f) && Merge(DigestReader(), Base(merging, held), f.value.bytes).Some?
    ensures ReadDigest(merging, held, f) == Some(Merge(DigestReader(), Base(merging, held), f.value.bytes))
  {
    hide Merge;
  }

  lemma OneMorePayload(merging: bool, ps: seq<Bytes>, held: Option<DigestData>, p: Bytes)
    requires IsOptional(merging, ps, held) && Merge(DigestReader(), Base(merging, held), p).Some?
    ensures IsOptional(merging, ps + [p], Merge(DigestReader(), Base(merging, held), p))
  {
    hide Merge, Joined;
    JoinedSnoc(ps, p);
    if ps == [] {
      assert Joined([]) == [] by { NothingJoined(); }
      assert ps + [p] == [p] && [] + p == p;
    } else if merging {
      MergeConcat(DigestReader(), EMPTY_DIGEST, Joined(ps), held.value, p);
    }
  }

  lemma JoinedSnoc(ps: seq<Bytes>, p: Bytes)
    ensures Joined(ps + [p]) == Joined(ps) + p
  {
    assert (ps + [p])[..|ps|] == ps;
  }

  lemma NothingJoined()
    ensures Joined([]) == []
  {
  }

  // ---------- The other messages ----------

  /** What one field more adds to the values of each number. */
  lemma ValuesStep(fs: seq<Field>, f: Field)
    ensures forall n ::
      && Payloads(fs + [f], n) == Payloads(fs, n) + (if f.number == n && HoldsBytes(f) then [f.value.bytes] else [])
      && LastPayload(fs + [f], n) == if f.number == n && HoldsBytes(f) then f.value.bytes else LastPayload(fs, n)
    ensures forall n ::
      LastNumber(fs + [f], n) == if f.number == n && HoldsNumber(f) then f.value.varint else LastNumber(fs, n)
    ensures forall known ::
      Undeclared(fs + [f], known) == Undeclared(fs, known) + if f.number !in known && f.Field? then [f] else []
  {
    assert (fs + [f])[..|fs|] == fs;
  }

  /** A digest field that counts among those of its number, and one of another number. */
  lemma OptionalStays(merging: bool, fs: seq<Field>, f: Field, number: int, held: Option<DigestData>)
    requires IsOptional(merging, Payloads(fs, number), held)
    ensures f.number != number ==> IsOptional(merging, Payloads(fs + [f], number), held)
    ensures f.number == number ==>
      && (ReadDigest(merging, held, f).Some? <==> HoldsDigest(f))
      && (HoldsDigest(f) ==> IsOptional(merging, Payloads(fs + [f], number), ReadDigest(merging, held, f).value))
  {
    hide Payloads, LastPayload, LastNumber, Undeclared, ReadDigest, ParseDigest;
    ValuesStep(fs, f);
    OptionalStep(merging, Payloads(fs, number), held, f);
    assert Payloads(fs, number) + [] == Payloads(fs, number);
  }

  lemma FileNodeStep(merging: bool, fs: seq<Field>, f: Field, n: FileNodeData)
    requires IsFileNode(merging, fs, n)
    ensures ApplyFileNode(merging, n, f).Some? <==> FileNodeFieldRight(f)
    ensures FileNodeFieldRight(f) ==> IsFileNode(merging, fs + [f], ApplyFileNode(merging, n, f).value)
  {
    hide HoldsText, IsUtf8, HoldsDigest, ReadDigest, IsOptional, Payloads, LastPayload, LastNumber, Undeclared;
    MoreText(f);
    TextIsBytes(f);
    ValuesStep(fs, f);
    OptionalStays(merging, fs, f, 2, n.digest);
  }

  lemma TextIsBytes(f: Field)
    ensures HoldsText(f) ==> HoldsBytes(f)
  {
  }

  lemma OutputFileStep(merging: bool, fs: seq<Field>, f: Field, o: OutputFileData)
    requires IsOutputFile(merging, fs, o)
    ensures ApplyOutputFile(merging, o, f).Some? <==> OutputFileFieldRight(f)
    ensures OutputFileFieldRight(f) ==> IsOutputFile(merging, fs + [f], ApplyOutputFile(merging, o, f).value)
  {
    hide HoldsText, IsUtf8, HoldsDigest, ReadDigest, IsOptional, Payloads, LastPayload, LastNumber, Undeclared;
    MoreText(f);
    TextIsBytes(f);
    ValuesStep(fs, f);
    OptionalStays(merging, fs, f, 2, o.digest);
  }

  lemma OutputDirectoryStep(merging: bool, fs: seq<Field>, f: Field, o: OutputDirectoryData)
    requires IsOutputDirectory(merging, fs, o)
    ensures ApplyOutputDirectory(merging, o, f).Some? <==> OutputDirectoryFieldRight(f)
    ensures OutputDirectoryFieldRight(f) ==>
      IsOutputDirectory(merging, fs + [f], ApplyOutputDirectory(merging, o, f).value)
  {
    hide HoldsText, IsUtf8, HoldsDigest, ReadDigest, IsOptional, Payloads, LastPayload, LastNumber, Undeclared;
    MoreText(f);
    TextIsBytes(f);
    ValuesStep(fs, f);
    OptionalStays(merging, fs, f, 2, o.digest);
    OptionalStays(merging, fs, f, 3, o.treeDigest);
  }

  lemma ActionResultStep(merging: bool, fs: seq<Field>, f: Field, a: ActionResultData)
    requires IsActionResult(merging, fs, a)
    ensures ApplyActionResult(merging, a, f).Some? <==> ActionResultFieldRight(merging, f)
    ensures ActionResultFieldRight(merging, f) ==>
      IsActionResult(merging, fs + [f], ApplyActionResult(merging, a, f).value)
  {
    hide HoldsDigest, ReadDigest, IsOptional, Merge, ToInt32, Payloads, LastPayload, LastNumber, Undeclared;
    ValuesStep(fs, f);
    OptionalStays(merging, fs, f, 6, a.stdoutDigest);
    OptionalStays(merging, fs, f, 8, a.stderrDigest);
  }

  lemma {:induction false} FileNodeApplied(merging: bool, fs: seq<Field>)
    ensures var r := Apply(FileNodeReader(merging), EMPTY_FILE_NODE, fs);
      if FileNodeRight(fs) then r.Some? && IsFileNode(merging, fs, r.value) else r == None
  {
    hide FileNodeFieldRight, ApplyFileNode;
    if fs != [] {
      var init, f := fs[..|fs| - 1], fs[|fs| - 1];
      assert fs == init + [f];
      FileNodeApplied(merging, init);
      hide IsFileNode;
      if FileNodeRight(init) {
        FileNodeStep(merging, init, f, Apply(FileNodeReader(merging), EMPTY_FILE_NODE, init).value);
      }
    }
  }

  lemma {:induction false} OutputFileApplied(merging: bool, fs: seq<Field>)
    ensures var r := Apply(OutputFileReader(merging), EMPTY_OUTPUT_FILE, fs);
      if OutputFileRight(fs) then r.Some? && IsOutputFile(merging, fs, r.value) else r == None
  {
    hide OutputFileFieldRight, ApplyOutputFile;
    if fs != [] {
      var init, f := fs[..|fs| - 1], fs[|fs| - 1];
      assert fs == init + [f];
      OutputFileApplied(merging, init);
      hide IsOutputFile;
      if OutputFileRight(init) {
        OutputFileStep(merging, init, f, Apply(OutputFileReader(merging), EMPTY_OUTPUT_FILE, init).value);
      }
    }
  }

  lemma {:induction false} OutputDirectoryApplied(merging: bool, fs: seq<Field>)
    ensures var r := Apply(OutputDirectoryReader(merging), EMPTY_OUTPUT_DIRECTORY, fs);
      if OutputDirectoryRight(fs) then r.Some? && IsOutputDirectory(merging, fs, r.value) else r == None
  {
    hide OutputDirectoryFieldRight, ApplyOutputDirectory;
    if fs != [] {
      var init, f := fs[..|fs| - 1], fs[|fs| - 1];
      assert fs == init + [f];
      OutputDirectoryApplied(merging, init);
      hide IsOutputDirectory;
      if OutputDirectoryRight(init) {
        var o := Apply(OutputDirectoryReader(merging), EMPTY_OUTPUT_DIRECTORY, init).value;
        OutputDirectoryStep(merging, init, f, o);
      }
    }
  }

  lemma {:induction false} ActionResultApplied(merging: bool, fs: seq<Field>)
    ensures var r := Apply(ActionResultReader(merging), EMPTY_ACTION_RESULT, fs);
      if ActionResultRight(merging, fs) then r.Some? && IsActionResult(merging, fs, r.value) else r == None
  {
    hide ActionResultFieldRight, ApplyActionResult;
    if fs != [] {
      var init, f := fs[..|fs| - 1], fs[|fs| - 1];
      assert fs == init + [f];
      ActionResultApplied(merging, init);
      hide IsActionResult;
      if ActionResultRight(merging, init) {
        ActionResultStep(merging, init, f, Apply(ActionResultReader(merging), EMPTY_ACTION_RESULT, init).value);
      }
    }
  }

  // ---------- What is read, exactly ----------

  /** These bytes consist of these fields. */
  ghost predicate Consists(b: Bytes, fs: seq<Field>) {
    exists es :: AllBytes(es) == b && AreFields(es, fs)
  }

  lemma FieldsAreThere(b: Bytes, fs: seq<Field>)
    ensures FieldsOf(b) == Some(fs) <==> Consists(b, fs)
  {
    hide FieldsOf, AllBytes, AreFields;
    FieldsExactly(b, fs);
  }

  /** A digest is read exactly from fields that hold what they have to, and then it is what the last of them say. */
  lemma DigestReadExactly(b: Bytes, d: DigestData)
    ensures ParseDigest(b) == Some(d) <==> exists fs :: Consists(b, fs) && DigestRight(fs) && IsDigest(fs, d)
  {
    hide FieldsOf, Merge, DigestRight, Consists, IsDigest;
    MergeApplies(DigestReader(), EMPTY_DIGEST, b);
    if FieldsOf(b).Some? {
      DigestApplied(FieldsOf(b).value);
      FieldsAreThere(b, FieldsOf(b).value);
    }
    if fs :| Consists(b, fs) && DigestRight(fs) && IsDigest(fs, d) {
      FieldsAreThere(b, fs);
      IsOneDigest(fs, d, Apply(DigestReader(), EMPTY_DIGEST, fs).value);
    }
  }

  lemma IsOneDigest(fs: seq<Field>, d: DigestData, e: DigestData)
    requires IsDigest(fs, d) && IsDigest(fs, e)
    ensures d == e
  {
  }

  /** The same for a file node. */
  lemma FileNodeReadExactly(merging: bool, b: Bytes, n: FileNodeData)
    ensures ParseFileNode(merging, b) == Some(n) <==>
      exists fs :: Consists(b, fs) && FileNodeRight(fs) && IsFileNode(merging, fs, n)
  {
    hide FieldsOf, Merge, FileNodeRight, Consists, IsFileNode;
    MergeApplies(FileNodeReader(merging), EMPTY_FILE_NODE, b);
    if FieldsOf(b).Some? {
      FileNodeApplied(merging, FieldsOf(b).value);
      FieldsAreThere(b, FieldsOf(b).value);
    }
    if fs :| Consists(b, fs) && FileNodeRight(fs) && IsFileNode(merging, fs, n) {
      FieldsAreThere(b, fs);
      IsOneFileNode(merging, fs, n, Apply(FileNodeReader(merging), EMPTY_FILE_NODE, fs).value);
    }
  }

  lemma IsOneFileNode(merging: bool, fs: seq<Field>, m: FileNodeData, n: FileNodeData)
    requires IsFileNode(merging, fs, m) && IsFileNode(merging, fs, n)
    ensures m == n
  {
    hide Merge;
  }

  /** The same for an output file. */
  lemma OutputFileReadExactly(merging: bool, b: Bytes, o: OutputFileData)
    ensures ParseOutputFile(merging, b) == Some(o) <==>
      exists fs :: Consists(b, fs) && OutputFileRight(fs) && IsOutputFile(merging, fs, o)
  {
    hide FieldsOf, Merge, OutputFileRight, Consists, IsOutputFile;
    MergeApplies(OutputFileReader(merging), EMPTY_OUTPUT_FILE, b);
    if FieldsOf(b).Some? {
      OutputFileApplied(merging, FieldsOf(b).value);
      FieldsAreThere(b, FieldsOf(b).value);
    }
    if fs :| Consists(b, fs) && OutputFileRight(fs) && IsOutputFile(merging, fs, o) {
      FieldsAreThere(b, fs);
      IsOneOutputFile(merging, fs, o, Apply(OutputFileReader(merging), EMPTY_OUTPUT_FILE, fs).value);
    }
  }

  lemma IsOneOutputFile(merging: bool, fs: seq<Field>, o: OutputFileData, p: OutputFileData)
    requires IsOutputFile(merging, fs, o) && IsOutputFile(merging, fs, p)
    ensures o == p
  {
    hide Merge;
  }

  /** The same for an output directory. */
  lemma OutputDirectoryReadExactly(merging: bool, b: Bytes, o: OutputDirectoryData)
    ensures ParseOutputDirectory(merging, b) == Some(o) <==>
      exists fs :: Consists(b, fs) && OutputDirectoryRight(fs) && IsOutputDirectory(merging, fs, o)
  {
    hide FieldsOf, Merge, OutputDirectoryRight, Consists, IsOutputDirectory;
    MergeApplies(OutputDirectoryReader(merging), EMPTY_OUTPUT_DIRECTORY, b);
    if FieldsOf(b).Some? {
      OutputDirectoryApplied(merging, FieldsOf(b).value);
      FieldsAreThere(b, FieldsOf(b).value);
    }
    if fs :| Consists(b, fs) && OutputDirectoryRight(fs) && IsOutputDirectory(merging, fs, o) {
      FieldsAreThere(b, fs);
      IsOneOutputDirectory(merging, fs, o, Apply(OutputDirectoryReader(merging), EMPTY_OUTPUT_DIRECTORY, fs).value);
    }
  }

  lemma IsOneOutputDirectory(merging: bool, fs: seq<Field>, o: OutputDirectoryData, p: OutputDirectoryData)
    requires IsOutputDirectory(merging, fs, o) && IsOutputDirectory(merging, fs, p)
    ensures o == p
  {
    hide Merge;
  }

  /**
    An action result is read exactly from fields that hold what they have to: its output files and directories are
    those of all fields 2 and 3, in order, its exit code, outputs and digests those of the last fields 4 to 8.
   */
  lemma ActionResultReadExactly(merging: bool, b: Bytes, a: ActionResultData)
    ensures ParseActionResult(merging, b) == Some(a) <==>
      exists fs :: Consists(b, fs) && ActionResultRight(merging, fs) && IsActionResult(merging, fs, a)
  {
    hide FieldsOf, Merge, ActionResultRight, Consists, IsActionResult;
    MergeApplies(ActionResultReader(merging), EMPTY_ACTION_RESULT, b);
    if FieldsOf(b).Some? {
      ActionResultApplied(merging, FieldsOf(b).value);
      FieldsAreThere(b, FieldsOf(b).value);
    }
    if fs :| Consists(b, fs) && ActionResultRight(merging, fs) && IsActionResult(merging, fs, a) {
      FieldsAreThere(b, fs);
      IsOneActionResult(merging, fs, a, Apply(ActionResultReader(merging), EMPTY_ACTION_RESULT, fs).value);
    }
  }

  lemma IsOneActionResult(merging: bool, fs: seq<Field>, a: ActionResultData, c: ActionResultData)
    requires IsActionResult(merging, fs, a) && IsActionResult(merging, fs, c)
    ensures a == c
  {
    hide Merge;
    assert a.outputFiles == c.outputFiles && a.outputDirectories == c.outputDirectories;
  }
}
