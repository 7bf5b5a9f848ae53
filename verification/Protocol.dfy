/**
  The client proxy as a state machine: the cache folder with its gate files, the requests in flight, the upload queue
  and the background uploader. Each step looks at or changes shared state once. Every interleaving of the steps is a
  run, and what the network, the disk and the clock answer is part of the step.
 */
module Protocol {
  import opened Options
  import opened Wire
  import opened Messages
  import Retry

  /**
    The name of a file in the cache folder, told by its prefix: `ac__`, `cas__`, `enable_cas__` or anything else. The
    gate file of a blob is an ordinary file, and a request can name it.
   */
  datatype Name = Ac(digest: Bytes) | Cas(digest: Bytes) | Gate(digest: Bytes) | Other(text: Bytes)

  /** `merging` is how the protobuf runtime treats a submessage that occurs twice. */
  datatype Config = Config(maximumDownloadSize: nat, maximumUploadSize: nat, merging: bool)

  /** The uploader keeps quiet until the last user-facing request is this many milliseconds old. */
  const QUIET_MS: nat := 10000
  /** How long it sleeps before it looks again. */
  const SLEEP_MS: nat := 5000

  // ---------- The cache folder ----------

  function ToSet(hashes: seq<Bytes>): set<Bytes> {
    set h <- hashes
  }

  /** The files the disk cache keeps track of, and the gate files it knows nothing of, which are empty. */
  datatype Disk = Disk(files: map<Name, Bytes>, gates: set<Bytes>) {
    predicate GateOpen(digest: Bytes) {
      digest in gates || Gate(digest) in files
    }

    predicate Has(n: Name) {
      n in files || (n.Gate? && n.digest in gates)
    }

    /** Size of a file, as its metadata gives it. */
    function Size(n: Name): Option<nat> {
      if n in files then Some(|files[n]|) else if Has(n) then Some(0) else None
    }

    /** Creates a gate file, or leaves the file that is there as it is. */
    function Touch(digest: Bytes): Disk {
      if Gate(digest) in files then this else this.(gates := gates + {digest})
    }

    function TouchEach(digests: set<Bytes>): Disk {
      this.(gates := gates + set d <- digests | Gate(d) !in files)
    }

    /** From here on the disk cache keeps track of the file, whether or not one was there. */
    function Insert(n: Name, body: Bytes): Disk {
      Disk(files[n := body], if n.Gate? then gates - {n.digest} else gates)
    }

    function Evict(n: Name): Disk {
      Disk(files - {n}, if n.Gate? then gates - {n.digest} else gates)
    }
  }

  /** Each operation on the disk changes the one file it is about, and no other. */
  lemma DiskChangesExactly(disk: Disk, n: Name, body: Bytes, digest: Bytes, m: Name)
    ensures disk.Has(m) <==> disk.Size(m).Some?
    ensures m in disk.files ==> disk.Size(m) == Some(|disk.files[m]|)
    ensures disk.GateOpen(digest) <==> disk.Has(Gate(digest))
    ensures var t := disk.Insert(n, body);
      t.Has(m) == (m == n || disk.Has(m)) && t.Size(m) == if m == n then Some(|body|) else disk.Size(m)
    ensures var t := disk.Evict(n);
      t.Has(m) == (m != n && disk.Has(m)) && t.Size(m) == if m == n then None else disk.Size(m)
    ensures var t := disk.Touch(digest);
      t.Has(m) == (m == Gate(digest) || disk.Has(m)) && (disk.Has(m) ==> t.Size(m) == disk.Size(m))
    ensures disk.Insert(n, body).files == disk.files[n := body] && disk.Evict(n).files == disk.files - {n}
    ensures disk.Touch(digest).files == disk.files
  {
  }

  // ---------- Action results open gates ----------

  function HashOf(d: Option<DigestData>): seq<Bytes> {
    if d.Some? then [d.value.hash] else []
  }

  function FileHashes(fs: seq<OutputFileData>): seq<Bytes> {
    if fs == [] then [] else FileHashes(fs[..|fs| - 1]) + HashOf(fs[|fs| - 1].digest)
  }

  /** The blobs an action result names, in the order in which their gates are created. */
  function Listed(a: ActionResultData): seq<Bytes> {
    FileHashes(a.outputFiles) + HashOf(a.stdoutDigest) + HashOf(a.stderrDigest)
  }

  /** The blobs named by the file `n` if it is an action result that can be read. */
  function ListedIn(c: Config, disk: Disk, n: Name): Option<seq<Bytes>> {
    if n.Ac? && n in disk.files then
      match ParseActionResult(c.merging, disk.files[n])
      case None => None
      case Some(a) => Some(Listed(a))
    else
      None
  }

  // ---------- What an action result is about ----------

  /** `hash` is the hash of this digest, if there is one. */
  predicate HasHash(digest: Option<DigestData>, hash: Bytes) {
    digest.Some? && digest.value.hash == hash
  }

  /** The blob is an output file, stdout or stderr. */
  predicate Mentions(a: ActionResultData, hash: Bytes) {
    || (exists f <- a.outputFiles :: HasHash(f.digest, hash))
    || HasHash(a.stdoutDigest, hash) || HasHash(a.stderrDigest, hash)
  }

  /** The content is that of an action result that can be read. */
  predicate Parses(c: Config, content: Bytes) {
    ParseActionResult(c.merging, content).Some?
  }

  /** It is, and mentions the blob. */
  predicate Lists(c: Config, content: Bytes, digest: Bytes) {
    Parses(c, content) && Mentions(ParseActionResult(c.merging, content).value, digest)
  }

  /** The cached file `n` is an action result that can be read. */
  predicate ReadableIn(c: Config, disk: Disk, n: Name) {
    n.Ac? && n in disk.files && Parses(c, disk.files[n])
  }

  /** The cached file `n` is an action result that can be read, and mentions the blob. */
  predicate MentionedIn(c: Config, disk: Disk, n: Name, digest: Bytes) {
    n.Ac? && n in disk.files && Lists(c, disk.files[n], digest)
  }

  lemma {:induction false} FileHashesExactly(fs: seq<OutputFileData>, hash: Bytes)
    ensures hash in FileHashes(fs) <==> exists f <- fs :: HasHash(f.digest, hash)
  {
    if fs != [] {
      var init, last := fs[..|fs| - 1], fs[|fs| - 1];
      FileHashesExactly(init, hash);
      assert fs == init + [last];
      if hash in FileHashes(init) {
        var f :| f in init && HasHash(f.digest, hash);
        assert f in fs;
      }
      if HasHash(last.digest, hash) {
        assert last in fs;
      }
    }
  }

  /** The blobs listed are those of the output files, stdout and stderr, and no others: no directory is listed. */
  lemma ListedExactly(a: ActionResultData, hash: Bytes)
    ensures hash in Listed(a) <==> Mentions(a, hash)
  {
    FileHashesExactly(a.outputFiles, hash);
  }

  /** How many of the files have a digest. */
  function DigestCount(fs: seq<OutputFileData>): nat {
    if fs == [] then 0 else DigestCount(fs[..|fs| - 1]) + if fs[|fs| - 1].digest.Some? then 1 else 0
  }

  lemma {:induction false} FileHashesCounted(fs: seq<OutputFileData>)
    ensures |FileHashes(fs)| == DigestCount(fs)
  {
    if fs != [] {
      FileHashesCounted(fs[..|fs| - 1]);
    }
  }

  lemma {:induction false} FileInOrder(fs: seq<OutputFileData>, j: nat)
    requires j < |fs| && fs[j].digest.Some?
    ensures DigestCount(fs[..j]) < |FileHashes(fs)|
    ensures FileHashes(fs)[DigestCount(fs[..j])] == fs[j].digest.value.hash
    decreases |fs|
  {
    hide DigestCount;
    var init := fs[..|fs| - 1];
    if j < |init| {
      assert init[..j] == fs[..j];
      FileInOrder(init, j);
    } else {
      FileHashesCounted(init);
    }
  }

  /** The output files come first, in order, then stdout, then stderr. One without a digest takes no place. */
  lemma ListedInOrder(a: ActionResultData, j: nat)
    ensures var files, stdout := DigestCount(a.outputFiles), if a.stdoutDigest.Some? then 1 else 0;
      && |Listed(a)| == files + stdout + (if a.stderrDigest.Some? then 1 else 0)
      && (a.stdoutDigest.Some? ==> Listed(a)[files] == a.stdoutDigest.value.hash)
      && (a.stderrDigest.Some? ==> Listed(a)[files + stdout] == a.stderrDigest.value.hash)
      && (j < |a.outputFiles| && a.outputFiles[j].digest.Some? ==>
            && DigestCount(a.outputFiles[..j]) < files
            && Listed(a)[DigestCount(a.outputFiles[..j])] == a.outputFiles[j].digest.value.hash)
  {
    hide FileHashes, DigestCount;
    FileHashesCounted(a.outputFiles);
    if j < |a.outputFiles| && a.outputFiles[j].digest.Some? {
      FileInOrder(a.outputFiles, j);
    }
  }

  /** A file has a list exactly if it is a readable action result, and the list is of what that mentions. */
  lemma ListedInExactly(c: Config, disk: Disk, n: Name)
    ensures ListedIn(c, disk, n).Some? <==> ReadableIn(c, disk, n)
    ensures ListedIn(c, disk, n).Some? ==>
      forall hash :: hash in ListedIn(c, disk, n).value <==> MentionedIn(c, disk, n, hash)
  {
    hide ParseActionResult, Listed, Mentions;
    if ListedIn(c, disk, n).Some? {
      forall hash
        ensures hash in ListedIn(c, disk, n).value <==> MentionedIn(c, disk, n, hash)
      {
        ListedExactly(ParseActionResult(c.merging, disk.files[n]).value, hash);
      }
    }
  }

  // ---------- State ----------

  /** Where the uploader's task is: it has no future, it has one, or it is in the middle of a poll. */
  datatype Stage =
    | Idle
    | Sleeping(until: nat)
    | Checking(name: Name)                // the HEAD request
    | Sending(name: Name)                 // the PUT request
    | Quiet                               // it found the user quiet
    | Holding(name: Name)                 // it took a request off the queue
    | Judging(name: Name, open: bool)     // it tested the gate

  predicate IsFuture(stage: Stage) {
    stage.Sleeping? || stage.Checking? || stage.Sending?
  }

  /** Why the uploader task is not being polled. */
  datatype Waiting = Runnable | OnFuture | OnQueue

  /** The uploader's own part of the state. */
  datatype Uploader = Uploader(queue: seq<Name>, stage: Stage, waiting: Waiting)

  /** On whose behalf an action result is being read. */
  datatype Origin = FromScan | FromGet | FromPut

  /** An action result that was read, and the gates still to be created for it. */
  datatype Job = Job(origin: Origin, name: Name, content: Bytes, rest: seq<Bytes>)

  /** A GET for a blob, and whether it found the gate file. */
  datatype Arrival = Arrival(name: Name, open: bool)

  /** What happened, oldest first. */
  datatype Observation =
    | Requested(at: nat)
    | GateSeen(name: Name, open: bool)
    | Refused(name: Name)
    | Admitted(name: Name)
    | Served(name: Name)
    | UpstreamGet(name: Name)
    | Fetched(name: Name, status: nat, length: Option<UInt64>, body: Bytes)
    | Saved(name: Name, body: Bytes)
    | Skipped(name: Name)
    | Parsed(name: Name, content: Bytes)
    | Touched(name: Name, content: Bytes, digest: Bytes)
    | Evicted(name: Name)
    | Enqueued(name: Name)
    | Looked(at: nat)
    | Taken(name: Name, at: nat)
    | Tested(name: Name, open: bool)
    | Dropped(name: Name, size: Option<nat>)
    | Started(name: Name, size: Option<nat>)
    | HeadAnswered(name: Name, present: bool)
    | HeadFailed(name: Name)
    | UpstreamPut(name: Name)
    | Finished(name: Name)

  type Log = seq<Observation>

  /** The multisets hold the requests that have got as far as their name says. */
  datatype State = State(
    now: nat,
    lastUserFacingRequest: nat,
    lastBackgroundUpload: nat,
    disk: Disk,
    scan: set<Name>,
    arrived: multiset<Arrival>,
    admitted: multiset<Name>,
    fetching: multiset<Name>,
    fetched: multiset<Name>,
    receiving: multiset<Name>,
    saved: multiset<Name>,
    publishing: multiset<Name>,
    processed: multiset<Name>,
    jobs: multiset<Job>,
    uploader: Uploader,
    log: Log)

  /** What the polled future reports. */
  datatype Answer = NotReady | HeadPresent | HeadAbsent | HeadError | PutAnswered

  datatype Event =
    | Tick(ms: nat)
    | ScanReads(name: Name)
    | OtherArrives
    | GetArrives(name: Name)
    | GetChecks(arrival: Arrival)
    | GetLooksUp(name: Name)
    | FetchRetries(name: Name)
    | FetchEnds(name: Name)
    | FetchAnswers(name: Name, status: nat, length: Option<UInt64>, body: Bytes)
    | GetReads(name: Name)
    | PutArrives(name: Name)
    | PutBreaks(name: Name)
    | PutSaves(name: Name, body: Bytes)
    | PutReads(name: Name)
    | PutEnqueues(name: Name)
    | Touches(job: Job, ok: bool)
    | Evicts(name: Name)
    | PollFuture(answer: Answer)
    | PollMoves

  // ---------- Requests ----------

  function Less<T(==)>(m: multiset<T>, x: T): multiset<T> {
    m - multiset{x}
  }

  function More<T(==)>(m: multiset<T>, x: T): multiset<T> {
    m + multiset{x}
  }

  function Note(s: State, o: Observation): State {
    s.(log := s.log + [o])
  }

  /** The service function stamps the clock for every request. */
  function Stamp(s: State): State {
    Note(s.(lastUserFacingRequest := s.now), Requested(s.now))
  }

  /** A GET for a blob first looks for the gate file; any other GET is admitted at once. */
  function Arrive(s: State, n: Name): State {
    if n.Cas? then
      var open := s.disk.GateOpen(n.digest);
      Note(s.(arrived := More(s.arrived, Arrival(n, open))), GateSeen(n, open))
    else
      Note(s.(admitted := More(s.admitted, n)), Admitted(n))
  }

  /** Then it looks for the blob: one that is neither here nor named by anybody is refused. */
  function Admit(s: State, a: Arrival): State {
    var next := s.(arrived := Less(s.arrived, a));
    if a.open || s.disk.Has(a.name) then Note(next.(admitted := More(s.admitted, a.name)), Admitted(a.name))
    else Note(next, Refused(a.name))
  }

  /** The third look: serve the file or ask upstream for it. */
  function LookUp(s: State, n: Name): State {
    var next := s.(admitted := Less(s.admitted, n));
    if s.disk.Has(n) then Note(next, Served(n))
    else Note(next.(fetching := More(s.fetching, n)), UpstreamGet(n))
  }

  function Insert(c: Config, s: State, n: Name, status: nat, length: Option<UInt64>, body: Bytes): State {
    var next := s.(fetching := Less(s.fetching, n));
    if length.Some? && length.value <= c.maximumDownloadSize && status == Retry.HTTP_OK
    then Note(next.(disk := s.disk.Insert(n, body), fetched := More(s.fetched, n)), Fetched(n, status, length, body))
    else next
  }

  /** The existence check and the insertion happen under one lock. */
  function Save(s: State, n: Name, body: Bytes): State {
    var next := s.(receiving := Less(s.receiving, n));
    if s.disk.Has(n) then Note(next, Skipped(n))
    else Note(next.(disk := s.disk.Insert(n, body), saved := More(s.saved, n)), Saved(n, body))
  }

  /** Reads the file if it is an action result; what it lists is then touched step by step. */
  function Process(c: Config, s: State, origin: Origin, n: Name): State {
    match ListedIn(c, s.disk, n)
    case None => Finish(s, origin, n)
    case Some(listed) =>
      var content := s.disk.files[n];
      Resume(Note(s, Parsed(n, content)), Job(origin, n, content, listed))
  }

  function Resume(s: State, job: Job): State {
    if job.rest == [] then Finish(s, job.origin, job.name) else s.(jobs := More(s.jobs, job))
  }

  /** Whether it succeeded or not, processing is over; a PUT goes on to enqueue its request. */
  function Finish(s: State, origin: Origin, n: Name): State {
    if origin == FromPut && n in s.publishing
    then s.(publishing := Less(s.publishing, n), processed := More(s.processed, n))
    else s
  }

  /** Creates one gate file. If that fails, the others are not tried. */
  function TouchNext(s: State, job: Job, ok: bool): State {
    var next := s.(jobs := Less(s.jobs, job));
    if job.rest == [] || !ok then Finish(next, job.origin, job.name)
    else
      Resume(Note(next.(disk := s.disk.Touch(job.rest[0])), Touched(job.name, job.content, job.rest[0])),
             job.(rest := job.rest[1..]))
  }

  /** Sending on the channel wakes the receiver that is waiting for it. */
  function Push(u: Uploader, n: Name): Uploader {
    u.(queue := u.queue + [n], waiting := if u.waiting == OnQueue then Runnable else u.waiting)
  }

  // ---------- The uploader ----------

  /** One look at the active future. */
  function PollActive(now: nat, disk: Disk, u: Uploader, answer: Answer): (Uploader, Log) {
    var done := u.(stage := Idle, waiting := Runnable);
    var pending := u.(waiting := OnFuture);
    match u.stage
    case Sleeping(until) => (if until <= now then done else pending, [])
    case Checking(n) =>
      (match answer
       case HeadPresent => (done, [HeadAnswered(n, true), Finished(n)])
       case HeadError => (done, [HeadFailed(n), Finished(n)])
       case HeadAbsent =>
         if disk.Has(n) then
           (u.(stage := Sending(n), waiting := Runnable), [HeadAnswered(n, false), UpstreamPut(n)])
         else
           (done, [HeadAnswered(n, false), Finished(n)])
       case _ => (pending, []))
    case Sending(n) =>
      if answer == PutAnswered then (done, [Finished(n)]) else (pending, [])
    case _ => (u, [])
  }

  /** Reads the request clock; a user who was active lately makes the uploader sleep. */
  function Look(now: nat, last: nat, u: Uploader): (Uploader, Log) {
    if now - last < QUIET_MS then (u.(stage := Sleeping(now + SLEEP_MS), waiting := Runnable), [])
    else (u.(stage := Quiet, waiting := Runnable), [Looked(now)])
  }

  /** Takes the first request off the queue, or parks. */
  function Take(now: nat, u: Uploader): (Uploader, Log) {
    if u.queue == [] then (u.(stage := Idle, waiting := OnQueue), [])
    else (Uploader(u.queue[1..], Holding(u.queue[0]), Runnable), [Taken(u.queue[0], now)])
  }

  /** The closure that came with the request: a blob needs its gate file. */
  function Test(disk: Disk, u: Uploader, n: Name): (Uploader, Log) {
    var open := n.Cas? ==> disk.GateOpen(n.digest);
    (u.(stage := Judging(n, open), waiting := Runnable), [Tested(n, open)])
  }

  predicate SmallEnough(c: Config, size: Option<nat>) {
    size.Some? && size.value <= c.maximumUploadSize
  }

  /** The file has to be there and small enough. */
  function Judge(c: Config, disk: Disk, u: Uploader, n: Name, open: bool): (Uploader, Log) {
    var size := disk.Size(n);
    if open && SmallEnough(c, size) then (u.(stage := Checking(n), waiting := Runnable), [Started(n, size)])
    else (u.(stage := Idle, waiting := Runnable), [Dropped(n, size)])
  }

  /** The next thing a poll does when there is no future to look at. */
  function Move(c: Config, now: nat, last: nat, disk: Disk, u: Uploader): (Uploader, Log) {
    match u.stage
    case Idle => Look(now, last, u)
    case Quiet => Take(now, u)
    case Holding(n) => Test(disk, u, n)
    case Judging(n, open) => Judge(c, disk, u, n, open)
    case _ => (u, [])
  }

  // ---------- Steps ----------

  function Step(c: Config, s: State, e: Event): State {
    match e
    case Tick(ms) => s.(now := s.now + ms)
    case ScanReads(n) => Process(c, s.(scan := s.scan - {n}), FromScan, n)
    case OtherArrives => Stamp(s)
    case GetArrives(n) => Arrive(Stamp(s), n)
    case GetChecks(a) => if a in s.arrived then Admit(s, a) else s
    case GetLooksUp(n) => if n in s.admitted then LookUp(s, n) else s
    case FetchRetries(n) => if n in s.fetching then Note(s, UpstreamGet(n)) else s
    case FetchEnds(n) => s.(fetching := Less(s.fetching, n))
    case FetchAnswers(n, status, length, body) =>
      if n in s.fetching then Insert(c, s, n, status, length, body) else s
    case GetReads(n) =>
      if n in s.fetched then Process(c, s.(fetched := Less(s.fetched, n)), FromGet, n) else s
    case PutArrives(n) => Stamp(s.(receiving := More(s.receiving, n)))
    case PutBreaks(n) => s.(receiving := Less(s.receiving, n))
    case PutSaves(n, body) => if n in s.receiving then Save(s, n, body) else s
    case PutReads(n) =>
      if n in s.saved
      then Process(c, s.(saved := Less(s.saved, n), publishing := More(s.publishing, n)), FromPut, n)
      else s
    case PutEnqueues(n) =>
      if n in s.processed
      then Note(s.(processed := Less(s.processed, n), uploader := Push(s.uploader, n)), Enqueued(n))
      else s
    case Touches(job, ok) => if job in s.jobs then TouchNext(s, job, ok) else s
    case Evicts(n) => if n in s.disk.files then Note(s.(disk := s.disk.Evict(n)), Evicted(n)) else s
    case PollFuture(answer) =>
      var (u, noted) := PollActive(s.now, s.disk, s.uploader, answer);
      s.(uploader := u, log := s.log + noted)
    case PollMoves =>
      var (u, noted) := Move(c, s.now, s.lastUserFacingRequest, s.disk, s.uploader);
      s.(uploader := u, log := s.log + noted,
         lastBackgroundUpload := if s.uploader.stage.Judging? && u.stage.Checking? then s.now
                                 else s.lastBackgroundUpload)
  }

  function Run(c: Config, s: State, es: seq<Event>): State {
    if es == [] then s else Step(c, Run(c, s, es[..|es| - 1]), es[|es| - 1])
  }

  lemma RunNothing(c: Config, s: State)
    ensures Run(c, s, []) == s
  {
  }

  lemma RunOne(c: Config, s: State, e: Event)
    ensures Run(c, s, [e]) == Step(c, s, e)
  {
    hide Step;
    assert [e][..0] == [];
  }

  lemma {:induction false} RunConcat(c: Config, s: State, xs: seq<Event>, ys: seq<Event>)
    ensures Run(c, s, xs + ys) == Run(c, Run(c, s, xs), ys)
  {
    hide Step;
    if ys == [] {
      assert xs + ys == xs;
    } else {
      assert (xs + ys)[..|xs + ys| - 1] == xs + ys[..|ys| - 1];
      RunConcat(c, s, xs, ys[..|ys| - 1]);
    }
  }

  lemma RunFirst(c: Config, s: State, e: Event, es: seq<Event>)
    ensures Run(c, s, [e] + es) == Run(c, Step(c, s, e), es)
  {
    hide Step, Run;
    RunConcat(c, s, [e], es);
    RunOne(c, s, e);
  }

  lemma RunTwo(c: Config, s: State, e: Event, f: Event)
    ensures Run(c, s, [e, f]) == Step(c, Step(c, s, e), f)
  {
    hide Step, Run;
    assert [e, f] == [e] + [f];
    RunFirst(c, s, e, [f]);
    RunOne(c, Step(c, s, e), f);
  }

  lemma RunThree(c: Config, s: State, e: Event, f: Event, g: Event)
    ensures Run(c, s, [e, f, g]) == Step(c, Step(c, Step(c, s, e), f), g)
  {
    hide Step, Run;
    assert [e, f, g] == [e] + [f, g];
    RunFirst(c, s, e, [f, g]);
    RunTwo(c, Step(c, s, e), f, g);
  }

  /** A freshly started proxy: both clocks are stamped, every cached file is still to be scanned. */
  predicate Init(s: State) {
    && s.lastUserFacingRequest == s.lastBackgroundUpload == s.now
    && s.scan == s.disk.files.Keys
    && s.admitted == s.fetching == s.fetched == s.receiving == s.saved == s.publishing == s.processed == multiset{}
    && s.arrived == multiset{} && s.jobs == multiset{}
    && s.uploader == Uploader([], Idle, Runnable)
    && s.log == []
  }

  // ---------- Behaviours ----------

  /** State `i` of `ss` is followed by a state that some step leads to. */
  ghost predicate StepAt(c: Config, ss: seq<State>, i: nat)
    requires i + 1 < |ss|
  {
    exists e :: ss[i + 1] == Step(c, ss[i], e)
  }

  /** The states a freshly started proxy goes through, in any interleaving and with anything that may happen. */
  ghost predicate Behaviour(c: Config, ss: seq<State>) {
    ss != [] && Init(ss[0]) && forall i: nat | i + 1 < |ss| :: StepAt(c, ss, i)
  }

  function Last(ss: seq<State>): State
    requires ss != []
  {
    ss[|ss| - 1]
  }
}
