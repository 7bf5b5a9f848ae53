/**
  What each request does when nothing else happens in between, told without the state machine, and the proof that it
  is a run of the state machine. The handlers of the proxy object are proved to do just this.
 */
module Requests {
  import opened Options
  import opened Wire
  import opened Protocol
  import opened CacheFolders
  import R = Runs
  import Retry

  /** The reply to a request; after a panic, or an error that the handler hands on to the runtime, there is none. */
  datatype Reply = NotFound | Content(body: Bytes) | ServerError | Created | NoReply

  type Upstream = Retry.Script<Retry.Response>

  /** What goes wrong on the disk: which gate file cannot be created, if any, and whether an insertion fails. */
  datatype Faults = Faults(failing: Option<nat>, insertFails: bool)

  /** The folder once a file was inserted and processed. */
  function Published(c: Config, f: Folder, n: Name, body: Bytes, failing: Option<nat>): Folder {
    Folder(Processed(c, f.disk.Insert(n, body), n, failing), f.poisoned)
  }

  /** What a reply sends of a file; the gate files that no request has cached are empty. */
  function ContentOf(disk: Disk, n: Name): Bytes {
    if n in disk.files then disk.files[n] else []
  }

  // ---------- Processing ----------

  /** The touches for one action result; the one with index `failing` fails. */
  function TouchEvents(job: Job, failing: Option<nat>): seq<Event>
    decreases |job.rest|
  {
    if job.rest == [] then []
    else if failing == Some(0) then [Touches(job, false)]
    else [Touches(job, true)] + TouchEvents(job.(rest := job.rest[1..]), OneLess(failing))
  }

  function OneLess(failing: Option<nat>): Option<nat> {
    if failing.Some? && 0 < failing.value then Some(failing.value - 1) else None
  }

  /** The step that reads a file, and the touches that follow. */
  function ProcessEvents(c: Config, disk: Disk, read: Event, origin: Origin, n: Name, failing: Option<nat>)
    : seq<Event>
  {
    [read]
    + match ListedIn(c, disk, n)
      case None => []
      case Some(listed) => TouchEvents(Job(origin, n, disk.files[n], listed), failing)
  }

  /** The observations that tell what became of a request for `n`. */
  predicate Tells(o: Observation, n: Name) {
    match o
    case Refused(m) => m == n
    case Served(m) => m == n
    case UpstreamGet(m) => m == n
    case Fetched(m, _, _, _) => m == n
    case Saved(m, _) => m == n
    case Skipped(m) => m == n
    case Enqueued(m) => m == n
    case _ => false
  }

  /** What a log tells about requests for `n`, oldest first. */
  function Told(log: Log, n: Name): Log {
    if log == [] then []
    else Told(log[..|log| - 1], n) + if Tells(log[|log| - 1], n) then [log[|log| - 1]] else []
  }

  lemma ToldSnoc(log: Log, o: Observation, n: Name)
    ensures Told(log + [o], n) == Told(log, n) + if Tells(o, n) then [o] else []
  {
    hide Tells;
    assert (log + [o])[..|log|] == log;
  }

  /** `t` is `s` with another disk; the log has grown by nothing that tells of a request. */
  ghost predicate OnlyDiskMoved(s: State, t: State, disk: Disk) {
    t == s.(disk := disk, log := t.log) && forall n :: Told(t.log, n) == Told(s.log, n)
  }

  lemma TouchedFirst(disk: Disk, rest: seq<Bytes>, failing: Option<nat>)
    requires rest != [] && failing != Some(0)
    ensures disk.TouchEach(ToSet(TouchAll(rest, failing).touched))
         == disk.Touch(rest[0]).TouchEach(ToSet(TouchAll(rest[1..], OneLess(failing)).touched))
  {
    var all, more := TouchAll(rest, failing).touched, TouchAll(rest[1..], OneLess(failing)).touched;
    assert all == [rest[0]] + more;
  }

  /** The touches for one action result are a run that leaves of the disk what processing in one go leaves. */
  lemma {:induction false} TouchesAreRun(c: Config, s: State, job: Job, failing: Option<nat>) returns (r: State)
    ensures OnlyDiskMoved(s, r, s.disk.TouchEach(ToSet(TouchAll(job.rest, failing).touched)))
    ensures Run(c, Resume(s, job), TouchEvents(job, failing)) == Finish(r, job.origin, job.name)
    decreases |job.rest|
  {
    hide Step, Told, Finish, ToSet, Run;
    var before := Resume(s, job);
    if job.rest == [] {
      r := s;
      RunNothing(c, before);
      NothingTouched(s.disk);
    } else {
      assert s.(jobs := Less(before.jobs, job)) == s;
      if failing == Some(0) {
        r := s;
        TouchStep(c, before, job, false);
        RunOne(c, before, Touches(job, false));
        NothingTouched(s.disk);
        assert TouchAll(job.rest, failing).touched == [];
      } else {
        var h := job.rest[0];
        var o := Touched(job.name, job.content, h);
        var touched := Note(s.(disk := s.disk.Touch(h)), o);
        var later := job.(rest := job.rest[1..]);
        TouchStep(c, before, job, true);
        RunFirst(c, before, Touches(job, true), TouchEvents(later, OneLess(failing)));
        r := TouchesAreRun(c, touched, later, OneLess(failing));
        TouchedFirst(s.disk, job.rest, failing);
        forall n
          ensures Told(touched.log, n) == Told(s.log, n)
        {
          ToldSnoc(s.log, o, n);
        }
      }
    }
  }

  lemma TouchStep(c: Config, s: State, job: Job, ok: bool)
    requires job in s.jobs
    ensures Step(c, s, Touches(job, ok)) == TouchNext(s, job, ok)
  {
    hide TouchNext;
  }

  /** Reading a file and the touches that follow are a run, and it ends like processing in one go. */
  lemma ProcessIsRun(c: Config, s: State, t: State, read: Event, origin: Origin, n: Name, failing: Option<nat>)
    returns (r: State)
    requires Step(c, s, read) == Process(c, t, origin, n) && t.disk == s.disk
    ensures OnlyDiskMoved(t, r, Processed(c, s.disk, n, failing))
    ensures Run(c, s, ProcessEvents(c, s.disk, read, origin, n, failing)) == Finish(r, origin, n)
  {
    hide Step, Told, Finish, Run, ListedIn, ToSet, Resume;
    match ListedIn(c, s.disk, n)
    case None =>
      r := t;
      RunOne(c, s, read);
      assert [read] + [] == [read];
      NothingTouched(s.disk);
    case Some(listed) =>
      ReadIsActionResult(c, s.disk, n);
      var o := Parsed(n, s.disk.files[n]);
      var job := Job(origin, n, s.disk.files[n], listed);
      RunFirst(c, s, read, TouchEvents(job, failing));
      r := TouchesAreRun(c, Note(t, o), job, failing);
      forall m
        ensures Told(t.log + [o], m) == Told(t.log, m)
      {
        ToldSnoc(t.log, o, m);
      }
  }

  lemma FinishesQuietly(s: State, origin: Origin, n: Name)
    requires origin != FromPut
    ensures Finish(s, origin, n) == s
  {
  }

  // ---------- GET ----------

  datatype Outcome = Outcome(folder: Folder, upstreamGets: nat, reply: Reply)

  /** `get_request`: refuse, serve from the cache, or fetch, process and serve. */
  function Get(c: Config, f: Folder, n: Name, script: Upstream, faults: Faults): Outcome {
    if n.Cas? && !f.disk.Has(n) && !f.disk.GateOpen(n.digest) then Outcome(f, 0, NotFound)
    else if f.disk.Has(n) then Outcome(f, 0, Content(ContentOf(f.disk, n)))
    else
      var report := Retry.FetchFile(script, c.maximumDownloadSize);
      match report.result
      case None => Outcome(f, report.requests, ServerError)
      case Some(Unwanted) => Outcome(f, report.requests, NotFound)
      case Some(Downloaded(_, body)) =>
        if f.poisoned then Outcome(f, report.requests, NoReply)
        else if faults.insertFails then Outcome(f, report.requests, ServerError)
        else Outcome(Published(c, f, n, body, faults.failing), report.requests, Content(body))
  }

  function Retries(n: Name, count: nat): seq<Event> {
    if count == 0 then [] else Retries(n, count - 1) + [FetchRetries(n)]
  }

  lemma LastAnswer(script: Upstream, maximum: nat)
    ensures var r := Retry.FetchFile(script, maximum);
      && 1 <= r.requests
      && var last := script(r.requests - 1);
         r.result == if last.Some? then Retry.Receive(maximum, last.value) else None
  {
    var _ := Retry.FetchFileResult(script, maximum);
  }

  /** How a fetch looks to the state machine once it is under way. */
  function FetchEvents(c: Config, f: Folder, n: Name, script: Upstream, faults: Faults): seq<Event> {
    var report := Retry.FetchFile(script, c.maximumDownloadSize);
    LastAnswer(script, c.maximumDownloadSize);
    Retries(n, report.requests - 1)
    + if report.result.None? then [FetchEnds(n)]
      else
        var last := script(report.requests - 1).value;
        var length := Retry.GetContentLength(last.header);
        if report.result.value.Unwanted? then [FetchAnswers(n, last.status, length, [])]
        else if f.poisoned || faults.insertFails then [FetchEnds(n)]
        else
          var body := report.result.value.body;
          [FetchAnswers(n, last.status, length, body)]
          + ProcessEvents(c, f.disk.Insert(n, body), GetReads(n), FromGet, n, faults.failing)
  }

  function ArrivalEvents(disk: Disk, n: Name): seq<Event> {
    if n.Cas? then [GetArrives(n), GetChecks(Arrival(n, disk.GateOpen(n.digest)))] else [GetArrives(n)]
  }

  function GetEvents(c: Config, f: Folder, n: Name, script: Upstream, faults: Faults): seq<Event> {
    ArrivalEvents(f.disk, n)
    + if n.Cas? && !f.disk.Has(n) && !f.disk.GateOpen(n.digest) then []
      else [GetLooksUp(n)] + if f.disk.Has(n) then [] else FetchEvents(c, f, n, script, faults)
  }

  /** `t` differs from `s` in the cache folder, the request clock and the log alone. */
  predicate OnlyFolderMoved(s: State, t: State, f: Folder) {
    t == s.(disk := f.disk, lastUserFacingRequest := s.now, log := t.log)
  }

  /** The folder of a state; the state machine lets a request end without a trace instead of recording the poison. */
  function FolderOf(s: State, poisoned: bool): Folder {
    Folder(s.disk, poisoned)
  }

  /** So many requests sent upstream. */
  function Asked(n: Name, count: nat): Log {
    if count == 0 then [] else Asked(n, count - 1) + [UpstreamGet(n)]
  }

  /** The length that answer `i` announces. */
  function LengthOf(script: Upstream, i: nat): Option<UInt64> {
    if script(i).Some? then Retry.GetContentLength(script(i).value.header) else None
  }

  /** What the log tells about a GET that was handled like this: at first, and after the first request upstream. */
  function Story(n: Name, script: Upstream, o: Outcome): Log {
    if o.upstreamGets == 0 then
      match o.reply
      case NotFound => [Refused(n)]
      case Content(_) => [Served(n)]
      case _ => []
    else
      [UpstreamGet(n)] + LaterStory(n, script, o)
  }

  function LaterStory(n: Name, script: Upstream, o: Outcome): Log
    requires 0 < o.upstreamGets
  {
    Asked(n, o.upstreamGets - 1)
    + match o.reply
      case Content(body) => [Fetched(n, 200, LengthOf(script, o.upstreamGets - 1), body)]
      case _ => []
  }

  lemma RetriedStep(c: Config, s: State, n: Name)
    requires n in s.fetching
    ensures Step(c, s, FetchRetries(n)) == s.(log := s.log + [UpstreamGet(n)])
  {
  }

  lemma {:induction false} RunRetries(c: Config, s: State, n: Name, count: nat)
    requires n in s.fetching
    ensures var t := Run(c, s, Retries(n, count));
      t == s.(log := t.log) && Told(t.log, n) == Told(s.log, n) + Asked(n, count)
  {
    hide Told, Step, Run;
    if count == 0 {
      RunNothing(c, s);
    } else {
      RunRetries(c, s, n, count - 1);
      var t := Run(c, s, Retries(n, count - 1));
      RunConcat(c, s, Retries(n, count - 1), [FetchRetries(n)]);
      RunOne(c, t, FetchRetries(n));
      RetriedStep(c, t, n);
      ToldSnoc(t.log, UpstreamGet(n), n);
    }
  }

  lemma LessMore<T>(m: multiset<T>, x: T)
    ensures Less(More(m, x), x) == m && x in More(m, x)
  {
  }

  lemma AnsweredStep(c: Config, s: State, n: Name, status: nat, length: Option<UInt64>, body: Bytes)
    requires n in s.fetching
    ensures var t := Step(c, s, FetchAnswers(n, status, length, body));
      if status == Retry.HTTP_OK && length.Some? && length.value <= c.maximumDownloadSize
      then t == s.(fetching := Less(s.fetching, n), fetched := More(s.fetched, n), disk := s.disk.Insert(n, body),
                   log := s.log + [Fetched(n, status, length, body)])
      else t == s.(fetching := Less(s.fetching, n))
  {
  }

  lemma GetReadsStep(c: Config, s: State, n: Name)
    requires n in s.fetched
    ensures Step(c, s, GetReads(n)) == Process(c, s.(fetched := Less(s.fetched, n)), FromGet, n)
  {
    hide Process;
  }

  lemma EndedStep(c: Config, s: State, n: Name)
    ensures Step(c, s, FetchEnds(n)) == s.(fetching := Less(s.fetching, n))
  {
  }

  /** A good answer is inserted and processed. */
  lemma AnswerIsRun(c: Config, s: State, n: Name, status: nat, length: Option<UInt64>, body: Bytes,
                    failing: Option<nat>)
    requires n in s.fetching && status == Retry.HTTP_OK && length.Some? && length.value <= c.maximumDownloadSize
    ensures var disk := s.disk.Insert(n, body);
      var t := Run(c, s, [FetchAnswers(n, status, length, body)]
                         + ProcessEvents(c, disk, GetReads(n), FromGet, n, failing));
      && t == s.(disk := Processed(c, disk, n, failing), fetching := Less(s.fetching, n), log := t.log)
      && Told(t.log, n) == Told(s.log, n) + [Fetched(n, status, length, body)]
  {
    hide Told, Step, Process, Processed, ProcessEvents, More, Less, Run, Finish;
    var t := Step(c, s, FetchAnswers(n, status, length, body));
    AnsweredStep(c, s, n, status, length, body);
    ToldSnoc(s.log, Fetched(n, status, length, body), n);
    LessMore(s.fetched, n);
    GetReadsStep(c, t, n);
    RunFirst(c, s, FetchAnswers(n, status, length, body), ProcessEvents(c, t.disk, GetReads(n), FromGet, n, failing));
    var r := ProcessIsRun(c, t, t.(fetched := s.fetched), GetReads(n), FromGet, n, failing);
    FinishesQuietly(r, FromGet, n);
  }

  lemma FetchIsRun(c: Config, s: State, poisoned: bool, n: Name, script: Upstream, faults: Faults)
    requires n in s.fetching && !s.disk.Has(n) && (n.Cas? ==> s.disk.GateOpen(n.digest))
    ensures var o := Get(c, FolderOf(s, poisoned), n, script, faults);
      var t := Run(c, s, FetchEvents(c, FolderOf(s, poisoned), n, script, faults));
      && t == s.(disk := o.folder.disk, fetching := Less(s.fetching, n), log := t.log)
      && 0 < o.upstreamGets && Told(t.log, n) == Told(s.log, n) + LaterStory(n, script, o)
  {
    hide Told, Step, Processed, ProcessEvents, Run, Retries, Asked, Retry.FetchFile, Retry.GetContentLength, Less;
    var f := Retry.FetchFile(script, c.maximumDownloadSize);
    LastAnswer(script, c.maximumDownloadSize);
    var retries := Retries(n, f.requests - 1);
    RunRetries(c, s, n, f.requests - 1);
    var t := Run(c, s, retries);
    if f.result.None? || (f.result.value.Downloaded? && (poisoned || faults.insertFails)) {
      RunConcat(c, s, retries, [FetchEnds(n)]);
      RunOne(c, t, FetchEnds(n));
      EndedStep(c, t, n);
    } else {
      var last := script(f.requests - 1).value;
      var length := Retry.GetContentLength(last.header);
      if f.result.value.Unwanted? {
        RunConcat(c, s, retries, [FetchAnswers(n, last.status, length, [])]);
        RunOne(c, t, FetchAnswers(n, last.status, length, []));
        AnsweredStep(c, t, n, last.status, length, []);
      } else {
        var body := f.result.value.body;
        var disk := s.disk.Insert(n, body);
        RunConcat(c, s, retries, [FetchAnswers(n, last.status, length, body)]
                                 + ProcessEvents(c, disk, GetReads(n), FromGet, n, faults.failing));
        AnswerIsRun(c, t, n, last.status, length, body, faults.failing);
      }
    }
  }

  /** The first looks of a GET: for the gate file and the blob, if it is for a blob. */
  lemma ArrivalIsRun(c: Config, s: State, n: Name)
    ensures var t := Run(c, s, ArrivalEvents(s.disk, n));
      && t == s.(lastUserFacingRequest := s.now, log := t.log,
                 admitted := if n.Cas? && !s.disk.Has(n) && !s.disk.GateOpen(n.digest) then s.admitted
                             else More(s.admitted, n))
      && Told(t.log, n)
      == Told(s.log, n) + if n.Cas? && !s.disk.Has(n) && !s.disk.GateOpen(n.digest) then [Refused(n)] else []
  {
    hide Told, More, Less, Run, Step;
    ToldSnoc(s.log, Requested(s.now), n);
    var log := s.log + [Requested(s.now)];
    ArriveStep(c, s, n);
    if n.Cas? {
      var a := Arrival(n, s.disk.GateOpen(n.digest));
      var t := Step(c, s, GetArrives(n));
      RunTwo(c, s, GetArrives(n), GetChecks(a));
      LessMore(s.arrived, a);
      CheckStep(c, t, a);
      ToldSnoc(log, GateSeen(n, a.open), n);
      ToldSnoc(t.log, if a.open || s.disk.Has(n) then Admitted(n) else Refused(n), n);
    } else {
      RunOne(c, s, GetArrives(n));
      ToldSnoc(log, Admitted(n), n);
    }
  }

  lemma ArriveStep(c: Config, s: State, n: Name)
    ensures Step(c, s, GetArrives(n)) == Arrive(Stamp(s), n)
  {
    hide Arrive;
  }

  lemma CheckStep(c: Config, s: State, a: Arrival)
    requires a in s.arrived
    ensures Step(c, s, GetChecks(a)) == Admit(s, a)
  {
    hide Admit;
  }

  lemma LookUpStep(c: Config, s: State, n: Name)
    requires n in s.admitted
    ensures Step(c, s, GetLooksUp(n)) == LookUp(s, n)
  {
    hide LookUp;
  }

  /**
    A GET that nothing interrupts is a run of the state machine: it leaves the folder as told here, sends as many
    requests upstream as the nested retries say, and puts back every other part of the state.
   */
  lemma GetIsRun(c: Config, s: State, poisoned: bool, n: Name, script: Upstream, faults: Faults)
    ensures var o := Get(c, FolderOf(s, poisoned), n, script, faults);
      var t := Run(c, s, GetEvents(c, FolderOf(s, poisoned), n, script, faults));
      && OnlyFolderMoved(s, t, o.folder)
      && Told(t.log, n) == Told(s.log, n) + Story(n, script, o)
      && o.upstreamGets <= 8
  {
    hide Told, Run, Step, ArrivalEvents, FetchEvents, Retry.FetchFile, More, Less, Published;
    Retry.FetchFileBudget(script, c.maximumDownloadSize);
    var f := FolderOf(s, poisoned);
    var arrival := ArrivalEvents(s.disk, n);
    ArrivalIsRun(c, s, n);
    var t := Run(c, s, arrival);
    if n.Cas? && !s.disk.Has(n) && !s.disk.GateOpen(n.digest) {
      assert arrival + [] == arrival;
    } else {
      var later := if s.disk.Has(n) then [] else FetchEvents(c, f, n, script, faults);
      LessMore(s.admitted, n);
      RunConcat(c, s, arrival, [GetLooksUp(n)] + later);
      RunFirst(c, t, GetLooksUp(n), later);
      LookUpStep(c, t, n);
      var r := LookUp(t, n);
      ToldSnoc(t.log, if s.disk.Has(n) then Served(n) else UpstreamGet(n), n);
      if s.disk.Has(n) {
        RunNothing(c, r);
      } else {
        LessMore(s.fetching, n);
        FetchIsRun(c, r, poisoned, n, script, faults);
      }
    }
  }

  // ---------- PUT ----------

  /** What a request leaves of folder and uploader, and the reply. */
  datatype Handled = Handled(folder: Folder, uploader: Uploader, reply: Reply)

  /** `put_request`: save unless the file is there, then process and enqueue. No body means it broke off. */
  function Put(c: Config, f: Folder, u: Uploader, n: Name, body: Option<Bytes>, faults: Faults): Handled {
    match body
    case None => Handled(f, u, NoReply)
    case Some(b) =>
      if f.poisoned then Handled(f, u, NoReply)
      else if f.disk.Has(n) then Handled(f, u, Created)
      else if faults.insertFails then Handled(f.(poisoned := true), u, NoReply)
      else Handled(Published(c, f, n, b, faults.failing), Push(u, n), Created)
  }

  function PutEvents(c: Config, f: Folder, n: Name, body: Option<Bytes>, faults: Faults): seq<Event> {
    if body.None? || f.poisoned || (!f.disk.Has(n) && faults.insertFails) then [PutArrives(n), PutBreaks(n)]
    else
      [PutArrives(n), PutSaves(n, body.value)]
      + if f.disk.Has(n) then []
        else
          ProcessEvents(c, f.disk.Insert(n, body.value), PutReads(n), FromPut, n, faults.failing) + [PutEnqueues(n)]
  }

  /** What the log tells about a PUT that was handled like this. */
  function PutStory(disk: Disk, n: Name, body: Option<Bytes>, o: Handled): Log {
    if o.reply != Created || body.None? then []
    else if disk.Has(n) then [Skipped(n)]
    else [Saved(n, body.value), Enqueued(n)]
  }

  /** A PUT that nothing interrupts is a run of the state machine, and its request joins the end of the queue. */
  lemma PutIsRun(c: Config, s: State, poisoned: bool, n: Name, body: Option<Bytes>, faults: Faults)
    ensures var o := Put(c, FolderOf(s, poisoned), s.uploader, n, body, faults);
      var t := Run(c, s, PutEvents(c, FolderOf(s, poisoned), n, body, faults));
      && OnlyFolderMoved(s.(uploader := o.uploader), t, o.folder)
      && Told(t.log, n) == Told(s.log, n) + PutStory(s.disk, n, body, o)
  {
    hide Run, Processed, ProcessEvents, More, Less, Step, Push, Told;
    ToldSnoc(s.log, Requested(s.now), n);
    var arrived := Step(c, s, PutArrives(n));
    ArrivedStep(c, s, n);
    LessMore(s.receiving, n);
    if body.None? || poisoned || (!s.disk.Has(n) && faults.insertFails) {
      RunTwo(c, s, PutArrives(n), PutBreaks(n));
      BrokenStep(c, arrived, n);
    } else {
      var b := body.value;
      RunTwo(c, s, PutArrives(n), PutSaves(n, b));
      SavedStep(c, arrived, n, b);
      var t := Step(c, arrived, PutSaves(n, b));
      ToldSnoc(arrived.log, if s.disk.Has(n) then Skipped(n) else Saved(n, b), n);
      if s.disk.Has(n) {
        RunConcat(c, s, [PutArrives(n), PutSaves(n, b)], []);
        RunNothing(c, t);
      } else {
        var process := ProcessEvents(c, t.disk, PutReads(n), FromPut, n, faults.failing);
        RunConcat(c, s, [PutArrives(n), PutSaves(n, b)], process + [PutEnqueues(n)]);
        RunConcat(c, t, process, [PutEnqueues(n)]);
        LessMore(s.saved, n);
        PublishIsRun(c, t, n, faults.failing);
      }
    }
  }

  /** A file that was saved is processed and enqueued. */
  lemma PublishIsRun(c: Config, s: State, n: Name, failing: Option<nat>)
    requires n in s.saved
    ensures var process := ProcessEvents(c, s.disk, PutReads(n), FromPut, n, failing);
      var t := Run(c, Run(c, s, process), [PutEnqueues(n)]);
      && t == s.(disk := Processed(c, s.disk, n, failing), saved := Less(s.saved, n), uploader := Push(s.uploader, n),
                 log := t.log)
      && Told(t.log, n) == Told(s.log, n) + [Enqueued(n)]
  {
    hide Step, Run, Process, Processed, ProcessEvents, More, Less, Push, Told;
    var t := s.(saved := Less(s.saved, n), publishing := More(s.publishing, n));
    PutReadsStep(c, s, n);
    var r := ProcessIsRun(c, s, t, PutReads(n), FromPut, n, failing);
    LessMore(s.publishing, n);
    LessMore(s.processed, n);
    RunOne(c, Finish(r, FromPut, n), PutEnqueues(n));
    EnqueuesStep(c, Finish(r, FromPut, n), n);
    ToldSnoc(r.log, Enqueued(n), n);
  }

  lemma ArrivedStep(c: Config, s: State, n: Name)
    ensures var t := Step(c, s, PutArrives(n));
      t == s.(receiving := More(s.receiving, n), lastUserFacingRequest := s.now, log := s.log + [Requested(s.now)])
  {
  }

  lemma BrokenStep(c: Config, s: State, n: Name)
    ensures Step(c, s, PutBreaks(n)) == s.(receiving := Less(s.receiving, n))
  {
  }

  lemma SavedStep(c: Config, s: State, n: Name, b: Bytes)
    requires n in s.receiving
    ensures var t := Step(c, s, PutSaves(n, b));
      if s.disk.Has(n) then t == s.(receiving := Less(s.receiving, n), log := s.log + [Skipped(n)])
      else t == s.(receiving := Less(s.receiving, n), disk := s.disk.Insert(n, b), saved := More(s.saved, n),
                   log := s.log + [Saved(n, b)])
  {
  }

  lemma PutReadsStep(c: Config, s: State, n: Name)
    requires n in s.saved
    ensures Step(c, s, PutReads(n))
         == Process(c, s.(saved := Less(s.saved, n), publishing := More(s.publishing, n)), FromPut, n)
  {
    hide Process;
  }

  lemma EnqueuesStep(c: Config, s: State, n: Name)
    requires n in s.processed
    ensures var t := Step(c, s, PutEnqueues(n));
      t == s.(processed := Less(s.processed, n), uploader := Push(s.uploader, n), log := s.log + [Enqueued(n)])
  {
    hide Push;
  }

  // ---------- What the requester gets ----------

  /** A blob that is not here and that nobody is known to have named. */
  predicate Unknown(disk: Disk, n: Name) {
    n.Cas? && n !in disk.files && n.digest !in disk.gates && Gate(n.digest) !in disk.files
  }

  /** An answer that is worth downloading. */
  predicate Wanted(c: Config, r: Retry.Response) {
    && r.status == 200
    && Retry.GetContentLength(r.header).Some? && Retry.GetContentLength(r.header).value <= c.maximumDownloadSize
  }

  /** The gates that were open before, and those of the blobs that `content` mentions if `n` is an action result. */
  ghost predicate GatesFollow(c: Config, before: Disk, after: Disk, n: Name, content: Bytes) {
    forall h :: after.GateOpen(h) <==> before.GateOpen(h) || n == Gate(h) || (n.Ac? && Lists(c, content, h))
  }

  lemma PublishedGates(c: Config, f: Folder, n: Name, body: Bytes)
    ensures var t := Published(c, f, n, body, None);
      && t.poisoned == f.poisoned && t.disk.files == f.disk.files[n := body]
      && GatesFollow(c, f.disk, t.disk, n, body)
  {
    hide Processed, ListedIn, Lists;
    ProcessedExactly(c, f.disk.Insert(n, body), n);
  }

  /** A file that is here is the reply, and nothing is asked for; an unknown blob is refused. */
  lemma GetFromCache(c: Config, f: Folder, n: Name, script: Upstream, faults: Faults)
    requires f.disk.Has(n) || Unknown(f.disk, n)
    ensures Get(c, f, n, script, faults)
         == Outcome(f, 0, if n in f.disk.files then Content(f.disk.files[n])
                          else if n.Gate? && n.digest in f.disk.gates then Content([])
                          else NotFound)
  {
    hide Retry.FetchFile, Published;
  }

  /**
    Any other GET asks upstream, and the last answer decides. One that is not worth downloading means that the object
    is not found. One whose whole body arrives is cached and is the reply. Without an answer, or with a broken body,
    after four rounds of asking, there is an error.
   */
  lemma GetFromUpstream(c: Config, f: Folder, n: Name, script: Upstream, faults: Faults)
    requires !f.disk.Has(n) && !Unknown(f.disk, n)
    ensures var o := Get(c, f, n, script, faults);
      && 1 <= o.upstreamGets <= 8
      && var last := script(o.upstreamGets - 1);
         if last.None? || (Wanted(c, last.value) && last.value.body.None?) then
           && o == Outcome(f, o.upstreamGets, ServerError)
           && 4 <= o.upstreamGets
           && forall i: nat | i < o.upstreamGets && script(i).Some? ::
                Wanted(c, script(i).value) && script(i).value.body.None?
         else if !Wanted(c, last.value) then o == Outcome(f, o.upstreamGets, NotFound)
         else if f.poisoned then o == Outcome(f, o.upstreamGets, NoReply)
         else if faults.insertFails then o == Outcome(f, o.upstreamGets, ServerError)
         else
           && o.reply == Content(last.value.body.value)
           && o.folder.disk.files == f.disk.files[n := last.value.body.value] && !o.folder.poisoned
           && (faults.failing == None ==> GatesFollow(c, f.disk, o.folder.disk, n, last.value.body.value))
  {
    hide Retry.FetchFile, Retry.GetContentLength, Published, Retry.Rounds, GatesFollow;
    var starts := Retry.FetchFileResult(script, c.maximumDownloadSize);
    Retry.FetchFileBudget(script, c.maximumDownloadSize);
    var report := Retry.FetchFile(script, c.maximumDownloadSize);
    Retry.RoundsTakeRequests(script, starts, 0, report.requests);
    forall i: nat | script(i).Some?
      ensures Retry.Receive(c.maximumDownloadSize, script(i).value) == None
         <==> Wanted(c, script(i).value) && script(i).value.body.None?
    {
      Retry.ReceivedExactly(c.maximumDownloadSize, script(i).value);
    }
    var last := script(report.requests - 1);
    if report.result == None {
      forall i: nat | i < report.requests && script(i).Some?
        ensures Wanted(c, script(i).value) && script(i).value.body.None?
      {
        assert i < report.requests - 1 ==> !Retry.EndsFetch(script, c.maximumDownloadSize, i);
      }
    }
    if last.Some? {
      Retry.ReceivedExactly(c.maximumDownloadSize, last.value);
      if Wanted(c, last.value) && last.value.body.Some? {
        PublishedFiles(c, f, n, last.value.body.value, faults.failing);
        PublishedGates(c, f, n, last.value.body.value);
      }
    }
  }

  lemma PublishedFiles(c: Config, f: Folder, n: Name, body: Bytes, failing: Option<nat>)
    ensures var t := Published(c, f, n, body, failing);
      t.poisoned == f.poisoned && t.disk.files == f.disk.files[n := body]
  {
    hide ProcessFile;
  }

  /**
    A PUT whose body breaks off, or that finds the lock poisoned, changes nothing and gets no reply. A file that is
    here already stays as it is. A new one is cached, its request joins the end of the queue, and what it mentions has
    its gates, all before the reply.
   */
  lemma PutExactly(c: Config, f: Folder, u: Uploader, n: Name, body: Option<Bytes>, faults: Faults)
    ensures var o := Put(c, f, u, n, body, faults);
      if body == None then o == Handled(f, u, NoReply)
      else if f.poisoned then o == Handled(f, u, NoReply)
      else if f.disk.Has(n) then o == Handled(f, u, Created)
      else if faults.insertFails then o == Handled(Folder(f.disk, true), u, NoReply)
      else
        && o.reply == Created && !o.folder.poisoned && o.folder.disk.files == f.disk.files[n := body.value]
        && o.uploader.queue == u.queue + [n] && o.uploader.stage == u.stage && o.uploader.waiting != OnQueue
        && (faults.failing == None ==> GatesFollow(c, f.disk, o.folder.disk, n, body.value))
  {
    hide Published, GatesFollow;
    if body.Some? {
      PublishedFiles(c, f, n, body.value, faults.failing);
      PublishedGates(c, f, n, body.value);
    }
  }

  /**
    A run from a fresh start in which a request arrives between the look at the clock and the dequeue that relies on
    it: the file that was PUT is dequeued at the very time at which the user was active.
   */
  lemma RequestSlipsInFromStart(c: Config, s: State, n: Name, body: Bytes)
    requires Init(s) && !s.disk.Has(n)
    ensures var put := PutEvents(c, FolderOf(s, false), n, Some(body), Faults(None, false));
      var at := s.now + QUIET_MS;
      Run(c, s, put + ([Tick(QUIET_MS)] + [PollMoves, OtherArrives, PollMoves])).log
      == Run(c, s, put).log + [Looked(at), Requested(at), Taken(n, at)]
  {
    hide Run, PutEvents, Step, Published;
    var put := PutEvents(c, FolderOf(s, false), n, Some(body), Faults(None, false));
    PutIsRun(c, s, false, n, Some(body), Faults(None, false));
    var t := Run(c, s, put);
    RunConcat(c, s, put, [Tick(QUIET_MS)] + [PollMoves, OtherArrives, PollMoves]);
    RunFirst(c, t, Tick(QUIET_MS), [PollMoves, OtherArrives, PollMoves]);
    TickStep(c, t, QUIET_MS);
    assert t.uploader == Uploader([n], Idle, Runnable);
    R.RequestSlipsIn(c, t.(now := t.now + QUIET_MS));
  }

  lemma TickStep(c: Config, s: State, ms: nat)
    ensures Step(c, s, Tick(ms)) == s.(now := s.now + ms)
  {
  }

  // ---------- A poisoned lock ----------

  /** A request, with what the network and the disk will answer. */
  datatype Request =
    | GetFile(name: Name, script: Upstream, faults: Faults)
    | PutFile(name: Name, body: Option<Bytes>, faults: Faults)
    | OtherMethod

  /** The service function: one request, handled without interruption. */
  function Handle(c: Config, f: Folder, u: Uploader, r: Request): Handled {
    match r
    case GetFile(n, script, faults) =>
      var o := Get(c, f, n, script, faults);
      Handled(o.folder, u, o.reply)
    case PutFile(n, body, faults) => Put(c, f, u, n, body, faults)
    case OtherMethod => Handled(f, u, ServerError)
  }

  /** What is there after some requests that come one after the other, and the last reply. */
  function HandleAll(c: Config, start: Handled, requests: seq<Request>): Handled {
    if requests == [] then start
    else
      var before := HandleAll(c, start, requests[..|requests| - 1]);
      Handle(c, before.folder, before.uploader, requests[|requests| - 1])
  }

  /** Once an insertion on behalf of a PUT has failed, no request ever caches or enqueues anything again. */
  lemma {:induction false} PoisonIsFinal(c: Config, start: Handled, requests: seq<Request>)
    requires start.folder.poisoned
    ensures var end := HandleAll(c, start, requests);
      end.folder == start.folder && end.uploader == start.uploader
  {
    if requests != [] {
      PoisonIsFinal(c, start, requests[..|requests| - 1]);
    }
  }

  /** This PUT of a file that is not there finds that it cannot be inserted. */
  predicate Poisons(f: Folder, r: Request) {
    r.PutFile? && r.body.Some? && !f.disk.Has(r.name) && r.faults.insertFails
  }

  /** Request `i` of a series poisons the lock. */
  predicate PoisonsAt(c: Config, start: Handled, requests: seq<Request>, i: nat)
    requires i < |requests|
  {
    Poisons(HandleAll(c, start, requests[..i]).folder, requests[i])
  }

  /** The lock ends up poisoned exactly if some request poisoned it. */
  lemma {:induction false} PoisonedExactly(c: Config, start: Handled, requests: seq<Request>)
    requires !start.folder.poisoned
    ensures HandleAll(c, start, requests).folder.poisoned <==>
      exists i: nat | i < |requests| :: PoisonsAt(c, start, requests, i)
  {
    hide Handle, Poisons;
    if requests != [] {
      var k := |requests| - 1;
      var init := requests[..k];
      PoisonedExactly(c, start, init);
      var before := HandleAll(c, start, init);
      OnePoisons(c, before.folder, before.uploader, requests[k]);
      assert forall i: nat | i < k :: PoisonsAt(c, start, init, i) == PoisonsAt(c, start, requests, i) by {
        assert forall i: nat | i < k :: init[..i] == requests[..i];
      }
      assert PoisonsAt(c, start, requests, k) == Poisons(before.folder, requests[k]);
    }
  }

  lemma OnePoisons(c: Config, f: Folder, u: Uploader, r: Request)
    ensures Handle(c, f, u, r).folder.poisoned <==> f.poisoned || Poisons(f, r)
  {
    hide Push, Retry.FetchFile, Processed;
  }

  // ---------- The existence check before an upload ----------

  /** What the uploader's future is told, once the HEAD request has been retried as often as need be. */
  function HeadAnswer(script: Upstream): Answer {
    match Retry.HeadCheck(script).result
    case None => HeadError
    case Some(r) =>
      if r.status == Retry.HTTP_OK && Retry.GetContentLength(r.header).Some? then HeadPresent else HeadAbsent
  }

  /** Request `i` is the first to be answered. */
  ghost predicate FirstAnswered(script: Upstream, i: nat) {
    script(i).Some? && forall j | 0 <= j < i :: script(j) == None
  }

  /**
    The first answer of eleven decides: the object counts as present if that is a 200 with a readable length, whatever
    the length is. Without any answer the upload is given up.
   */
  lemma HeadAnswerExactly(script: Upstream)
    ensures HeadAnswer(script) == HeadPresent <==>
      exists i: nat | i <= 10 ::
        && FirstAnswered(script, i) && script(i).value.status == 200
        && exists length :: Retry.GetContentLength(script(i).value.header) == Some(length)
    ensures HeadAnswer(script) == HeadError <==> forall i: nat | i <= 10 :: script(i) == None
    ensures HeadAnswer(script) in {HeadPresent, HeadAbsent, HeadError}
  {
    hide Retry.Connect, Retry.GetContentLength;
    Retry.ConnectReport(script, 0, Retry.HEAD_TRIES, Retry.HEAD_SLEEP_MS, Retry.HEAD_MULTIPLIER);
    var k := Retry.HeadCheck(script).requests - 1;
    if script(k).Some? {
      assert FirstAnswered(script, k);
      assert forall i: nat | FirstAnswered(script, i) :: i == k;
      var length := Retry.GetContentLength(script(k).value.header);
      assert length.Some? ==> length == Some(length.value);
    }
  }

  // ---------- The scan at start-up ----------

  function ScanEvents(c: Config, disk: Disk, names: seq<Name>, failings: map<Name, nat>): seq<Event> {
    if names == [] then []
    else
      var n := names[|names| - 1];
      ScanEvents(c, disk, names[..|names| - 1], failings)
      + ProcessEvents(c, disk, ScanReads(n), FromScan, n, FailingFor(failings, n))
  }

  function NamesIn(names: seq<Name>): set<Name> {
    set n <- names
  }

  /** The scan is a run of the state machine, and the order in which the directory is walked does not matter. */
  lemma {:induction false} ScanIsRun(c: Config, s: State, names: seq<Name>, failings: map<Name, nat>)
    ensures var t := Run(c, s, ScanEvents(c, s.disk, names, failings));
      t == s.(disk := s.disk.TouchEach(ScanTouches(c, s.disk, NamesIn(names), failings)),
              scan := s.scan - NamesIn(names), log := t.log)
  {
    hide ProcessFile, ToSet, Step, Process, ScanTouches, FailingFor, Run, ProcessEvents, Told, Finish;
    if names == [] {
      NothingScanned(c, s, failings);
      RunNothing(c, s);
    } else {
      var init, n := names[..|names| - 1], names[|names| - 1];
      var failing := FailingFor(failings, n);
      ScanIsRun(c, s, init, failings);
      var t := Run(c, s, ScanEvents(c, s.disk, init, failings));
      var touched := ScanTouches(c, s.disk, NamesIn(init), failings);
      RunConcat(c, s, ScanEvents(c, s.disk, init, failings),
                ProcessEvents(c, s.disk, ScanReads(n), FromScan, n, failing));
      TouchingKeepsEvents(c, s.disk, touched, ScanReads(n), FromScan, n, failing);
      TouchingKeepsFiles(c, s.disk, touched, n, failing);
      ScanReadsStep(c, t, n);
      var r := ProcessIsRun(c, t, t.(scan := t.scan - {n}), ScanReads(n), FromScan, n, failing);
      FinishesQuietly(r, FromScan, n);
      OneMoreScanned(c, s.disk, NamesIn(init), n, failings);
      assert NamesIn(names) == NamesIn(init) + {n} by { assert names == init + [n]; }
    }
  }

  lemma ScanReadsStep(c: Config, s: State, n: Name)
    ensures Step(c, s, ScanReads(n)) == Process(c, s.(scan := s.scan - {n}), FromScan, n)
  {
    hide Process;
  }

  lemma TouchingKeepsEvents(c: Config, disk: Disk, touched: set<Bytes>, read: Event, origin: Origin, n: Name,
                            failing: Option<nat>)
    ensures ProcessEvents(c, disk.TouchEach(touched), read, origin, n, failing)
         == ProcessEvents(c, disk, read, origin, n, failing)
  {
    assert disk.TouchEach(touched).files == disk.files;
  }

  lemma NothingScanned(c: Config, s: State, failings: map<Name, nat>)
    ensures s.disk.TouchEach(ScanTouches(c, s.disk, NamesIn([]), failings)) == s.disk
    ensures s.scan - NamesIn([]) == s.scan
  {
  }
}
