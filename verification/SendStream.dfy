/**
  Sending a file in chunks: `FileChunkStream` reads, `BufferedSendStream` sends. How much each read returns, when the
  receiver is ready and what fails is scripted; the results hold for every script.
 */
module SendStream {
  import opened Options
  import opened Wire

  const CHUNK_BYTES: nat := 4096

  datatype Readiness = Ready | NotReady | Gone

  /** One turn: is the receiver ready, how much would the read like to return (absent: it fails), is the chunk taken. */
  datatype Turn = Turn(ready: Readiness, read: Option<nat>, taken: bool)

  datatype Outcome = Parked | SentAll | ReceiverGone | ReadFailed | SendFailed

  function Min(a: nat, b: nat): nat {
    if a < b then a else b
  }

  /** A read returns nothing exactly at the end of the file, and otherwise at most a buffer full. */
  function ReadSize(remaining: nat, wish: nat): (n: nat)
    ensures n <= remaining && n <= 4096 && (n == 0 <==> remaining == 0)
    ensures 0 < wish ==> n <= wish && (n == wish || n == remaining || n == 4096)
  {
    if remaining == 0 then 0
    else if wish == 0 then 1
    else Min(wish, Min(remaining, CHUNK_BYTES))
  }

  datatype Progress = Progress(pos: nat, sent: seq<Bytes>)

  /** One call of `poll`, which calls itself after each chunk. Without a script left the receiver is not ready. */
  function PollSend(content: Bytes, p: Progress, script: seq<Turn>): (Progress, Outcome)
    requires p.pos <= |content|
    decreases |content| - p.pos
  {
    if script == [] || script[0].ready == NotReady then (p, Parked)
    else if script[0].ready == Gone then (p, ReceiverGone)
    else if script[0].read == None then (p, ReadFailed)
    else
      var n := ReadSize(|content| - p.pos, script[0].read.value);
      if n == 0 then (p, SentAll)
      else if !script[0].taken then (p.(pos := p.pos + n), SendFailed)
      else PollSend(content, Progress(p.pos + n, p.sent + [content[p.pos..p.pos + n]]), script[1..])
  }

  function Concat(chunks: seq<Bytes>): Bytes {
    if chunks == [] then [] else Concat(chunks[..|chunks| - 1]) + chunks[|chunks| - 1]
  }

  /** The chunks sent are, put together, the file up to where it was read. */
  predicate Faithful(content: Bytes, p: Progress) {
    && p.pos <= |content|
    && Concat(p.sent) == content[..p.pos]
    && forall chunk <- p.sent :: 0 < |chunk| <= 4096
  }

  lemma SendKeepsFaithful(content: Bytes, p: Progress, n: nat)
    requires Faithful(content, p) && 0 < n <= CHUNK_BYTES && p.pos + n <= |content|
    ensures Faithful(content, Progress(p.pos + n, p.sent + [content[p.pos..p.pos + n]]))
  {
    var chunk := content[p.pos..p.pos + n];
    assert (p.sent + [chunk])[..|p.sent|] == p.sent;
    assert content[..p.pos + n] == content[..p.pos] + chunk;
  }

  /**
    For every file and every script: what was sent is the file up to where it was read, except that a chunk the
    receiver refused was read but not sent; chunks are only ever added; and a poll that completes with everything
    sent has sent the whole file.
   */
  lemma {:induction false} SendIsFaithful(content: Bytes, p: Progress, script: seq<Turn>)
    requires Faithful(content, p)
    ensures var (q, outcome) := PollSend(content, p, script);
      && p.sent <= q.sent && p.pos <= q.pos <= |content|
      && (outcome != SendFailed ==> Faithful(content, q))
      && (outcome == SendFailed ==>
            exists last: nat | last < q.pos :: Faithful(content, Progress(last, q.sent)))
      && (outcome == SentAll ==> q.pos == |content| && Concat(q.sent) == content)
    decreases |content| - p.pos
  {
    hide Concat, ReadSize;
    if script != [] && script[0].ready == Ready && script[0].read.Some? {
      var n := ReadSize(|content| - p.pos, script[0].read.value);
      if n == 0 {
        assert content[..p.pos] == content;
      } else if script[0].taken {
        SendKeepsFaithful(content, p, n);
        SendIsFaithful(content, Progress(p.pos + n, p.sent + [content[p.pos..p.pos + n]]), script[1..]);
      } else {
        assert Faithful(content, Progress(p.pos, p.sent));
      }
    }
  }

  /** In this turn the receiver is ready, the read succeeds and the chunk is taken. */
  predicate GoesWell(turn: Turn) {
    turn.ready == Ready && turn.read.Some? && turn.taken
  }

  /**
    How a poll ends is told by the first turn that does not send a chunk: the receiver is not ready, or gone, or the
    read fails, or the file is at its end, or else the chunk was refused.
   */
  lemma {:induction false} SendEndsExactly(content: Bytes, p: Progress, script: seq<Turn>) returns (k: nat)
    requires Faithful(content, p)
    ensures var (q, outcome) := PollSend(content, p, script);
      && k <= |script| && |q.sent| == |p.sent| + k && (forall i | 0 <= i < k :: GoesWell(script[i]))
      && if k == |script| || script[k].ready == NotReady then outcome == Parked
         else if script[k].ready == Gone then outcome == ReceiverGone
         else if script[k].read == None then outcome == ReadFailed
         else if Concat(q.sent) == content then outcome == SentAll
         else outcome == SendFailed && !script[k].taken
    decreases |content| - p.pos
  {
    hide Concat, ReadSize;
    k := 0;
    if script != [] && script[0].ready == Ready && script[0].read.Some? {
      var n := ReadSize(|content| - p.pos, script[0].read.value);
      if n == 0 {
        assert content[..p.pos] == content;
      } else if script[0].taken {
        SendKeepsFaithful(content, p, n);
        var i := SendEndsExactly(content, Progress(p.pos + n, p.sent + [content[p.pos..p.pos + n]]), script[1..]);
        k := i + 1;
      } else {
        assert |Concat(p.sent)| == p.pos < |content|;
      }
    }
  }

  /** As long as nothing fails, enough turns send the whole file. */
  lemma {:induction false} SendCompletes(content: Bytes, p: Progress, script: seq<Turn>)
    requires p.pos <= |content| && |content| - p.pos < |script|
    requires forall turn <- script :: turn.ready == Ready && turn.read.Some? && turn.taken
    ensures PollSend(content, p, script).1 == SentAll
    decreases |content| - p.pos
  {
    var n := ReadSize(|content| - p.pos, script[0].read.value);
    if n != 0 {
      SendCompletes(content, Progress(p.pos + n, p.sent + [content[p.pos..p.pos + n]]), script[1..]);
    }
  }

  datatype ChunkRead = EndOfFile | Chunk(bytes: Bytes) | ReadError

  class FileChunkStream {
    const content: Bytes
    var pos: nat

    ghost predicate Valid()
      reads this
    {
      pos <= |content|
    }

    constructor (content: Bytes)
      ensures Valid() && this.content == content && pos == 0
    {
      this.content, pos := content, 0;
    }

    /** Reads the next chunk, if the read does not fail; `read` is how much it would like to return. */
    method Poll(read: Option<nat>) returns (r: ChunkRead)
      requires Valid()
      modifies this
      ensures Valid()
      ensures match read
              case None => r == ReadError && pos == old(pos)
              case Some(wish) =>
                var n := ReadSize(|content| - old(pos), wish);
                && pos == old(pos) + n
                && r == (if n == 0 then EndOfFile else Chunk(content[old(pos)..pos]))
    {
      if read == None {
        return ReadError;
      }
      var n := ReadSize(|content| - pos, read.value);
      if n == 0 {
        return EndOfFile;
      }
      r, pos := Chunk(content[pos..pos + n]), pos + n;
    }
  }

  class BufferedSendStream {
    const stream: FileChunkStream
    /** The chunks handed to the sender. */
    var sent: seq<Bytes>

    constructor (content: Bytes)
      ensures stream.Valid() && stream.content == content && View() == Progress(0, []) && fresh(stream)
      ensures Faithful(content, View())
    {
      stream := new FileChunkStream(content);
      sent := [];
    }

    ghost function View(): Progress
      reads this, stream
    {
      Progress(stream.pos, sent)
    }

    method Poll(script: seq<Turn>) returns (outcome: Outcome)
      requires stream.Valid()
      modifies this`sent, stream
      ensures stream.Valid()
      ensures (View(), outcome) == PollSend(stream.content, old(View()), script)
      ensures outcome == SentAll && old(Faithful(stream.content, View())) ==> Concat(sent) == stream.content
      decreases |stream.content| - stream.pos
    {
      SendIfFaithful(stream.content, View(), script);
      if script == [] { return Parked; }
      match script[0].ready {
        case NotReady => return Parked;
        case Gone => return ReceiverGone;
        case Ready =>
      }
      var r := stream.Poll(script[0].read);
      match r {
        case ReadError => return ReadFailed;
        case EndOfFile => return SentAll;
        case Chunk(chunk) =>
          if !script[0].taken { return SendFailed; }
          sent := sent + [chunk];
      }
      outcome := Poll(script[1..]);
    }
  }

  lemma SendIfFaithful(content: Bytes, p: Progress, script: seq<Turn>)
    requires p.pos <= |content|
    ensures Faithful(content, p) && PollSend(content, p, script).1 == SentAll ==>
      Concat(PollSend(content, p, script).0.sent) == content
  {
    if Faithful(content, p) {
      SendIsFaithful(content, p, script);
    }
  }
}
