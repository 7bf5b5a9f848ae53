/**
  Text as UTF-8 (sections 3 and 4 of RFC 3629). Which byte strings the readers of messages take for text is decided by
  `Wire.IsUtf8`; here those are shown to be the encodings of sequences of Unicode scalar values, and no others.
 */
module Unicode {
  import opened Options
  import opened Wire
  import opened Messages

  /** A code point that is not a surrogate. */
  type Scalar = c: int | 0 <= c <= 0x10FFFF && !(0xD800 <= c <= 0xDFFF)

  /** The bytes after the first carry six bits each. */
  function Continuation(bits: nat): Byte {
    0x80 + bits % 0x40
  }

  /** The bits of a scalar value, spread over as few bytes as will hold them. */
  function EncodeScalar(c: Scalar): Bytes {
    if c < 0x80 then [c]
    else if c < 0x800 then [0xC0 + c / 0x40, Continuation(c)]
    else if c < 0x1_0000 then [0xE0 + c / 0x40 / 0x40, Continuation(c / 0x40), Continuation(c)]
    else [0xF0 + c / 0x40 / 0x40 / 0x40, Continuation(c / 0x40 / 0x40), Continuation(c / 0x40), Continuation(c)]
  }

  /** A scalar value in front of text makes it longer by the bytes of its encoding. */
  lemma ScalarInFront(c: Scalar, tail: Bytes)
    ensures IsUtf8(EncodeScalar(c) + tail) <==> IsUtf8(tail)
  {
    var s := EncodeScalar(c) + tail;
    assert s[|EncodeScalar(c)|..] == tail;
  }

  /** Every text is UTF-8. */
  function EncodeText(text: seq<Scalar>): Utf8 {
    if text == [] then []
    else
      ScalarInFront(text[0], EncodeText(text[1..]));
      EncodeScalar(text[0]) + EncodeText(text[1..])
  }

  /** Six more bits. */
  function Shifted(high: nat, b: Byte): nat
    requires IsContinuation(b)
  {
    high * 0x40 + b - 0x80
  }

  lemma ShiftedBack(high: nat, b: Byte)
    requires IsContinuation(b)
    ensures Shifted(high, b) == high * 0x40 + b - 0x80
    ensures Shifted(high, b) / 0x40 == high && Continuation(Shifted(high, b)) == b
  {
  }

  /** What the first bytes of text encode. */
  lemma FirstScalar(s: Bytes) returns (c: Scalar, tail: Bytes)
    requires IsUtf8(s) && s != []
    ensures s == EncodeScalar(c) + tail && IsUtf8(tail)
  {
    hide Shifted, Continuation;
    if s[0] < 0x80 {
      c, tail := s[0], s[1..];
      return;
    }
    var lead := if s[0] < 0xE0 then 0xC0 else if s[0] < 0xF0 then 0xE0 else 0xF0;
    var two := Shifted(s[0] - lead, s[1]);
    ShiftedBack(s[0] - lead, s[1]);
    if s[0] < 0xE0 {
      c, tail := two, s[2..];
      return;
    }
    var three := Shifted(two, s[2]);
    ShiftedBack(two, s[2]);
    if s[0] < 0xF0 {
      c, tail := three, s[3..];
      return;
    }
    ShiftedBack(three, s[3]);
    c, tail := Shifted(three, s[3]), s[4..];
  }

  lemma {:induction false} Utf8IsEncoded(s: Bytes) returns (text: seq<Scalar>)
    requires IsUtf8(s)
    ensures EncodeText(text) == s
    decreases |s|
  {
    if s == [] {
      text := [];
    } else {
      var c, tail := FirstScalar(s);
      var rest := Utf8IsEncoded(tail);
      text := [c] + rest;
      assert text[1..] == rest;
    }
  }

  ghost predicate IsText(s: Bytes) {
    exists text: seq<Scalar> :: EncodeText(text) == s
  }

  /** A byte string is taken for text exactly if it is the encoding of some sequence of scalar values. */
  lemma Utf8Exactly(s: Bytes)
    ensures IsUtf8(s) <==> IsText(s)
  {
    hide IsUtf8, EncodeText;
    if IsUtf8(s) {
      var text := Utf8IsEncoded(s);
    }
  }

  /** The bytes of a scalar value tell which one it is, whatever follows. */
  lemma ScalarsAreTold(c: Scalar, d: Scalar, s: Bytes, t: Bytes)
    requires EncodeScalar(c) + s == EncodeScalar(d) + t
    ensures c == d && s == t
  {
    var x, y := EncodeScalar(c), EncodeScalar(d);
    assert (x + s)[0] == x[0] && (y + t)[0] == y[0];
    assert |x| == |y|;
    assert x == (x + s)[..|x|] && y == (y + t)[..|y|];
    assert s == (x + s)[|x|..] && t == (y + t)[|y|..];
  }

  /** Text has one reading. */
  lemma {:induction false} EncodingIsUnambiguous(x: seq<Scalar>, y: seq<Scalar>)
    requires EncodeText(x) == EncodeText(y)
    ensures x == y
  {
    hide EncodeScalar;
    if x != [] && y != [] {
      ScalarsAreTold(x[0], y[0], EncodeText(x[1..]), EncodeText(y[1..]));
      EncodingIsUnambiguous(x[1..], y[1..]);
      assert x == [x[0]] + x[1..] && y == [y[0]] + y[1..];
    } else {
      ScalarsTakeBytes(x);
      ScalarsTakeBytes(y);
    }
  }

  lemma ScalarsTakeBytes(text: seq<Scalar>)
    ensures |text| > 0 ==> |EncodeText(text)| > 0
  {
  }

  // ---------- Text in messages ----------

  /** The string fields of all messages take every text. */
  lemma TextIsTaken(merging: bool, text: seq<Scalar>, d: DigestData, n: FileNodeData, o: OutputFileData,
                    r: OutputDirectoryData)
    ensures var s := EncodeText(text);
      var f := Field(1, LengthDelimited(s));
      && ApplyDigest(d, f) == Some(d.(hash := s))
      && ApplyFileNode(merging, n, f) == Some(n.(name := s))
      && ApplyOutputFile(merging, o, f) == Some(o.(path := s))
      && ApplyOutputDirectory(merging, r, f) == Some(r.(path := s))
  {
    hide EncodeText, IsUtf8;
  }

  /** They take nothing else. */
  lemma OnlyTextIsTaken(merging: bool, s: Bytes, d: DigestData, n: FileNodeData, o: OutputFileData,
                        r: OutputDirectoryData)
    requires !IsText(s)
    ensures var f := Field(1, LengthDelimited(s));
      && ApplyDigest(d, f) == None && ApplyFileNode(merging, n, f) == None
      && ApplyOutputFile(merging, o, f) == None && ApplyOutputDirectory(merging, r, f) == None
  {
    hide EncodeText, IsUtf8;
    Utf8Exactly(s);
  }

  /** The reading loop of an output file takes every path made of scalar values. */
  lemma PathIsRead(merging: bool, o: OutputFileData, text: seq<Scalar>)
    requires |EncodeText(text)| < TWO32
    ensures var path := EncodeText(text);
      Merge(OutputFileReader(merging), o, WriteField(Field(1, LengthDelimited(path)))) == Some(o.(path := path))
  {
    hide EncodeText, ReadField, WriteField;
    var path := EncodeText(text);
    var f := Field(1, LengthDelimited(path));
    ReadFieldOfWritten(f, []);
    assert WriteField(f) + [] == WriteField(f);
  }
}
