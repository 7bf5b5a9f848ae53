/** Every run of the proxy writes a lawful log, and its state is what the log says it is. */
module Runs {
  import opened Options
  import opened Wire
  import opened Messages
  import opened Protocol
  import opened Trace
  import Retry

  function WorldOf(s: State): World {
    World(s.disk, s.now)
  }

  /** The uploader's stage is what the log says. A look that led nowhere leaves its mark in the log. */
  predicate TurnFits(stage: Stage, turn: Turn) {
    match stage
    case Idle => turn == NoTurn || turn == SawQuiet
    case Sleeping(_) => turn == NoTurn || turn == SawQuiet
    case Quiet => turn == SawQuiet
    case Holding(n) => turn == Holds(n)
    case Judging(n, open) => turn == Knows(n, open)
    case Checking(n) => turn == Uploads(n)
    case Sending(n) => turn == Sends(n)
  }

  /** The uploader waits for the queue only if that is empty, and for its future only if it has one. */
  predicate NoLostWakeUp(u: Uploader) {
    && (u.waiting == OnQueue ==> u.queue == [] && u.stage == Idle)
    && (u.waiting == OnFuture ==> IsFuture(u.stage))
  }

  /** The uploader agrees with the log. */
  ghost predicate UploaderAgrees(u: Uploader, log: Log) {
    EnqueuedIn(log) == DequeuedIn(log) + u.queue && TurnFits(u.stage, TurnAfter(log)) && NoLostWakeUp(u)
  }

  /** The state agrees with the log. */
  ghost predicate Agrees(c: Config, w: World, s: State) {
    && Audited(c, w, s.log)
    && s.disk == DiskAfter(w, s.log)
    && s.lastUserFacingRequest == LastRequest(w, s.log)
    && Latest(w, s.log) <= s.now
    && UploaderAgrees(s.uploader, s.log)
  }

  /** What is still to be touched comes from an action result that was read. */
  predicate JobIsLawful(c: Config, log: Log, job: Job) {
    && job.name.Ac? && Parsed(job.name, job.content) in log
    && forall h <- job.rest :: Lists(c, job.content, h)
  }

  /** The requests in flight agree with the log. */
  ghost predicate InFlightAgrees(c: Config, s: State) {
    && (forall a <- s.arrived :: a.name.Cas? && GateSeen(a.name, a.open) in s.log)
    && (forall n <- s.admitted :: Admitted(n) in s.log)
    && (forall n <- s.fetching :: UpstreamGet(n) in s.log && Admitted(n) in s.log)
    && (forall job <- s.jobs :: JobIsLawful(c, s.log, job))
    && CountsAgree(s.log, s.saved, s.publishing, s.processed)
  }

  /** Each file that was saved is on its way into the queue or was enqueued. */
  ghost predicate CountsAgree(log: Log, saved: multiset<Name>, publishing: multiset<Name>, processed: multiset<Name>) {
    forall n :: EnqueuedCount(log, n) + saved[n] + publishing[n] + processed[n] == SavedCount(log, n)
  }

  /** What became of a HEAD request is never the last thing noted, as what follows from it is noted with it. */
  ghost predicate Inv(c: Config, w: World, s: State) {
    Agrees(c, w, s) && InFlightAgrees(c, s) && !IsAnswered(s.log)
  }

  // ---------- Noting one thing ----------

  lemma CountsOf(log: Log, o: Observation)
    ensures forall n :: SavedCount(log + [o], n) == SavedCount(log, n) + if o.Saved? && o.name == n then 1 else 0
    ensures forall n :: EnqueuedCount(log + [o], n) == EnqueuedCount(log, n) + if o == Enqueued(n) then 1 else 0
  {
    forall n {
      NotedCounts(log, o, n);
    }
  }

  /** A lawful observation that is not the uploader's own leaves the state in agreement, if the disk follows suit. */
  lemma NoteAgrees(c: Config, w: World, s: State, next: State, o: Observation)
    requires Agrees(c, w, s) && Lawful(c, w, s.log, o) && next.log == s.log + [o]
    requires !Turns(o) && !o.Enqueued? && next.uploader == s.uploader && next.now == s.now
    requires next.lastUserFacingRequest == if o.Requested? then o.at else s.lastUserFacingRequest
    requires o.Requested? ==> o.at <= s.now
    requires next.disk == match o
                          case Fetched(n, _, _, body) => s.disk.Insert(n, body)
                          case Saved(n, body) => s.disk.Insert(n, body)
                          case Touched(_, _, digest) => s.disk.Touch(digest)
                          case Evicted(n) => s.disk.Evict(n)
                          case _ => s.disk
    ensures Agrees(c, w, next)
  {
    hide Audited, DiskAfter, LastRequest, Latest, EnqueuedIn, DequeuedIn, TurnAfter, Lawful, TurnFits, NoLostWakeUp;
    Noted(c, w, s.log, o);
    assert EnqueuedIn(next.log) == EnqueuedIn(s.log) && DequeuedIn(next.log) == DequeuedIn(s.log);
  }

  /** Something noted that is neither a save nor an enqueuing leaves the requests in flight in agreement. */
  lemma NoteKeepsInFlight(c: Config, s: State, next: State, o: Observation)
    requires InFlightAgrees(c, s) && next.log == s.log + [o] && !o.Saved? && !o.Enqueued?
    requires next.arrived <= s.arrived && next.admitted <= s.admitted && next.fetching <= s.fetching
    requires next.jobs <= s.jobs
    requires next.saved == s.saved && next.publishing == s.publishing && next.processed == s.processed
    ensures InFlightAgrees(c, next)
  {
    hide SavedCount, EnqueuedCount, JobIsLawful;
    CountsOf(s.log, o);
    forall job <- next.jobs
      ensures JobIsLawful(c, next.log, job)
    {
      assert job in s.jobs;
      JobStaysLawful(c, s.log, o, job);
    }
  }

  lemma JobStaysLawful(c: Config, log: Log, o: Observation, job: Job)
    requires JobIsLawful(c, log, job)
    ensures JobIsLawful(c, log + [o], job)
  {
    hide Lists;
  }

  lemma StampKeeps(c: Config, w: World, s: State)
    requires Inv(c, w, s)
    ensures Inv(c, w, Stamp(s))
  {
    hide Agrees, InFlightAgrees;
    StampIsLawful(c, w, s);
    NoteAgrees(c, w, s, Stamp(s), Requested(s.now));
    NoteKeepsInFlight(c, s, Stamp(s), Requested(s.now));
  }

  lemma StampIsLawful(c: Config, w: World, s: State)
    requires Agrees(c, w, s) && !IsAnswered(s.log)
    ensures Lawful(c, w, s.log, Requested(s.now))
  {
    hide Audited, DiskAfter, LastRequest, Latest, UploaderAgrees;
  }

  lemma ArriveKeeps(c: Config, w: World, s: State, n: Name)
    requires Inv(c, w, s)
    ensures Inv(c, w, Arrive(s, n))
  {
    hide Audited, DiskAfter, LastRequest, Latest, UploaderAgrees, InFlightAgrees, Lists, Parses;
    var o := if n.Cas? then GateSeen(n, s.disk.GateOpen(n.digest)) else Admitted(n);
    NoteAgrees(c, w, s, Arrive(s, n), o);
    var stale := Arrive(s, n).(arrived := s.arrived, admitted := s.admitted);
    NoteKeepsInFlight(c, s, stale, o);
    AddInFlight(c, stale, Arrive(s, n));
  }

  /** Requests in flight that the log knows of may be added. */
  lemma AddInFlight(c: Config, s: State, next: State)
    requires InFlightAgrees(c, s)
    requires next == s.(arrived := next.arrived, admitted := next.admitted, fetching := next.fetching)
    requires forall a <- next.arrived :: a in s.arrived || (a.name.Cas? && GateSeen(a.name, a.open) in s.log)
    requires forall n <- next.admitted :: n in s.admitted || Admitted(n) in s.log
    requires forall n <- next.fetching :: n in s.fetching || (UpstreamGet(n) in s.log && Admitted(n) in s.log)
    ensures InFlightAgrees(c, next)
  {
    hide JobIsLawful, SavedCount, EnqueuedCount;
  }

  lemma AdmitKeeps(c: Config, w: World, s: State, a: Arrival)
    requires Inv(c, w, s) && a in s.arrived
    ensures Inv(c, w, Admit(s, a))
  {
    hide Agrees, Lawful, InFlightAgrees;
    var o := if a.open || s.disk.Has(a.name) then Admitted(a.name) else Refused(a.name);
    AdmitIsLawful(c, w, s, a);
    NoteAgrees(c, w, s, Admit(s, a), o);
    var stale := Admit(s, a).(admitted := s.admitted);
    NoteKeepsInFlight(c, s, stale, o);
    AddInFlight(c, stale, Admit(s, a));
  }

  lemma AdmitIsLawful(c: Config, w: World, s: State, a: Arrival)
    requires Inv(c, w, s) && a in s.arrived
    ensures Lawful(c, w, s.log, if a.open || s.disk.Has(a.name) then Admitted(a.name) else Refused(a.name))
  {
    hide Audited, DiskAfter, LastRequest, Latest, UploaderAgrees, Lists, Parses, JobIsLawful, CountsAgree;
    assert a.name.Cas? && GateSeen(a.name, a.open) in s.log;
  }

  lemma LookUpKeeps(c: Config, w: World, s: State, n: Name)
    requires Inv(c, w, s) && n in s.admitted
    ensures Inv(c, w, LookUp(s, n))
  {
    hide Agrees, Lawful, InFlightAgrees;
    var o := if s.disk.Has(n) then Served(n) else UpstreamGet(n);
    LookUpIsLawful(c, w, s, n);
    NoteAgrees(c, w, s, LookUp(s, n), o);
    var stale := LookUp(s, n).(fetching := s.fetching);
    NoteKeepsInFlight(c, s, stale, o);
    AddInFlight(c, stale, LookUp(s, n));
  }

  lemma LookUpIsLawful(c: Config, w: World, s: State, n: Name)
    requires Inv(c, w, s) && n in s.admitted
    ensures Admitted(n) in s.log && Lawful(c, w, s.log, if s.disk.Has(n) then Served(n) else UpstreamGet(n))
  {
    hide Audited, DiskAfter, LastRequest, Latest, UploaderAgrees, Lists, Parses, JobIsLawful, CountsAgree;
  }

  lemma RetryKeeps(c: Config, w: World, s: State, n: Name)
    requires Inv(c, w, s) && n in s.fetching
    ensures Inv(c, w, Note(s, UpstreamGet(n)))
  {
    hide Audited, DiskAfter, LastRequest, Latest, UploaderAgrees, Lists, Parses, JobIsLawful;
    assert Admitted(n) in s.log;
    NoteAgrees(c, w, s, Note(s, UpstreamGet(n)), UpstreamGet(n));
    NoteKeepsInFlight(c, s, Note(s, UpstreamGet(n)), UpstreamGet(n));
  }

  lemma InsertKeeps(c: Config, w: World, s: State, n: Name, status: nat, length: Option<UInt64>, body: Bytes)
    requires Inv(c, w, s) && n in s.fetching
    ensures Inv(c, w, Insert(c, s, n, status, length, body))
  {
    hide Agrees, Lawful, InFlightAgrees;
    var next, o := Insert(c, s, n, status, length, body), Fetched(n, status, length, body);
    if next.log == s.log {
      SilentKeeps(c, w, s, next);
    } else {
      InsertIsLawful(c, w, s, n, status, length, body);
      NoteAgrees(c, w, s, next, o);
      NoteKeepsInFlight(c, s, next, o);
    }
  }

  lemma InsertIsLawful(c: Config, w: World, s: State, n: Name, status: nat, length: Option<UInt64>, body: Bytes)
    requires Inv(c, w, s) && n in s.fetching
    requires status == Retry.HTTP_OK && length.Some? && length.value <= c.maximumDownloadSize
    ensures Lawful(c, w, s.log, Fetched(n, status, length, body))
  {
    hide Audited, DiskAfter, LastRequest, Latest, UploaderAgrees, Lists, Parses, JobIsLawful, CountsAgree;
  }

  lemma SaveKeeps(c: Config, w: World, s: State, n: Name, body: Bytes)
    requires Inv(c, w, s)
    ensures Inv(c, w, Save(s, n, body))
  {
    hide Agrees, Lawful, InFlightAgrees;
    var o := if s.disk.Has(n) then Skipped(n) else Saved(n, body);
    SaveIsLawful(c, w, s, n, body);
    NoteAgrees(c, w, s, Save(s, n, body), o);
    SaveInFlight(c, s, n, body);
  }

  lemma SaveIsLawful(c: Config, w: World, s: State, n: Name, body: Bytes)
    requires Inv(c, w, s)
    ensures Lawful(c, w, s.log, if s.disk.Has(n) then Skipped(n) else Saved(n, body))
  {
    hide Audited, DiskAfter, LastRequest, Latest, UploaderAgrees, Lists, Parses, InFlightAgrees;
  }

  lemma SaveInFlight(c: Config, s: State, n: Name, body: Bytes)
    requires InFlightAgrees(c, s)
    ensures InFlightAgrees(c, Save(s, n, body))
  {
    hide SavedCount, EnqueuedCount, JobIsLawful;
    var o := if s.disk.Has(n) then Skipped(n) else Saved(n, body);
    CountsOf(s.log, o);
    forall job <- s.jobs
      ensures JobIsLawful(c, s.log + [o], job)
    {
      JobStaysLawful(c, s.log, o, job);
    }
  }

  // ---------- Reading action results ----------

  lemma FinishKeeps(c: Config, w: World, s: State, origin: Origin, n: Name)
    requires Inv(c, w, s)
    ensures Inv(c, w, Finish(s, origin, n))
  {
    hide Audited, DiskAfter, LastRequest, Latest, UploaderAgrees, JobIsLawful, SavedCount, EnqueuedCount;
  }

  lemma ResumeKeeps(c: Config, w: World, s: State, job: Job)
    requires Inv(c, w, s) && JobIsLawful(c, s.log, job)
    ensures Inv(c, w, Resume(s, job))
  {
    hide Audited, DiskAfter, LastRequest, Latest, UploaderAgrees, JobIsLawful, SavedCount, EnqueuedCount;
    if job.rest == [] {
      FinishKeeps(c, w, s, job.origin, job.name);
    }
  }

  lemma ProcessKeeps(c: Config, w: World, s: State, origin: Origin, n: Name)
    requires Inv(c, w, s)
    ensures Inv(c, w, Process(c, s, origin, n))
  {
    hide Agrees, InFlightAgrees, ParseActionResult, Listed, Finish, Resume, JobIsLawful;
    if ListedIn(c, s.disk, n).None? {
      FinishKeeps(c, w, s, origin, n);
    } else {
      var content := s.disk.files[n];
      var o := Parsed(n, content);
      var job := Job(origin, n, content, ListedIn(c, s.disk, n).value);
      ParsedIsLawful(c, w, s, n);
      NoteAgrees(c, w, s, Note(s, o), o);
      NoteKeepsInFlight(c, s, Note(s, o), o);
      NewJobIsLawful(c, s, origin, n);
      ResumeKeeps(c, w, Note(s, o), job);
    }
  }

  lemma ParsedIsLawful(c: Config, w: World, s: State, n: Name)
    requires Agrees(c, w, s) && !IsAnswered(s.log) && ListedIn(c, s.disk, n).Some?
    ensures Lawful(c, w, s.log, Parsed(n, s.disk.files[n]))
  {
    hide Audited, DiskAfter, LastRequest, Latest, UploaderAgrees, ListedIn, Parses;
    ListedInExactly(c, s.disk, n);
  }

  lemma NewJobIsLawful(c: Config, s: State, origin: Origin, n: Name)
    requires ListedIn(c, s.disk, n).Some?
    ensures var content := s.disk.files[n];
      JobIsLawful(c, s.log + [Parsed(n, content)], Job(origin, n, content, ListedIn(c, s.disk, n).value))
  {
    hide ListedIn, Lists;
    ListedInExactly(c, s.disk, n);
  }

  lemma TouchKeeps(c: Config, w: World, s: State, job: Job, ok: bool)
    requires Inv(c, w, s) && job in s.jobs
    ensures Inv(c, w, TouchNext(s, job, ok))
  {
    hide Inv, Less, Finish, Resume, JobIsLawful;
    var next := s.(jobs := Less(s.jobs, job));
    WithoutJob(c, w, s, job);
    if job.rest == [] || !ok {
      FinishKeeps(c, w, next, job.origin, job.name);
    } else {
      TouchedKeeps(c, w, next, job);
      var touched := Note(next.(disk := s.disk.Touch(job.rest[0])), Touched(job.name, job.content, job.rest[0]));
      ResumeKeeps(c, w, touched, job.(rest := job.rest[1..]));
    }
  }

  lemma WithoutJob(c: Config, w: World, s: State, job: Job)
    requires Inv(c, w, s) && job in s.jobs
    ensures JobIsLawful(c, s.log, job) && Inv(c, w, s.(jobs := Less(s.jobs, job)))
  {
    hide Agrees, JobIsLawful, CountsAgree;
    SilentKeeps(c, w, s, s.(jobs := Less(s.jobs, job)));
  }

  lemma TouchedKeeps(c: Config, w: World, s: State, job: Job)
    requires Inv(c, w, s) && JobIsLawful(c, s.log, job) && job.rest != []
    ensures var o := Touched(job.name, job.content, job.rest[0]);
      && Inv(c, w, Note(s.(disk := s.disk.Touch(job.rest[0])), o))
      && JobIsLawful(c, s.log + [o], job.(rest := job.rest[1..]))
  {
    hide Agrees, InFlightAgrees, JobIsLawful, Lawful;
    var o := Touched(job.name, job.content, job.rest[0]);
    var touched := Note(s.(disk := s.disk.Touch(job.rest[0])), o);
    TouchIsLawful(c, w, s.log, job);
    NoteAgrees(c, w, s, touched, o);
    NoteKeepsInFlight(c, s, touched, o);
  }

  lemma TouchIsLawful(c: Config, w: World, log: Log, job: Job)
    requires JobIsLawful(c, log, job) && job.rest != [] && !IsAnswered(log)
    ensures Lawful(c, w, log, Touched(job.name, job.content, job.rest[0]))
    ensures JobIsLawful(c, log + [Touched(job.name, job.content, job.rest[0])], job.(rest := job.rest[1..]))
  {
    hide Lists;
    assert job.rest[0] in job.rest;
  }

  // ---------- Enqueuing and evicting ----------

  lemma EnqueueKeeps(c: Config, w: World, s: State, n: Name)
    requires Inv(c, w, s) && n in s.processed
    ensures Inv(c, w, Step(c, s, PutEnqueues(n)))
  {
    hide InFlightAgrees, Agrees, Push;
    EnqueueInFlight(c, s, n);
    EnqueueAgrees(c, w, s, n);
  }

  lemma EnqueueAgrees(c: Config, w: World, s: State, n: Name)
    requires Agrees(c, w, s) && !IsAnswered(s.log) && EnqueuedCount(s.log, n) < SavedCount(s.log, n)
    ensures Agrees(c, w, Note(s.(processed := Less(s.processed, n), uploader := Push(s.uploader, n)), Enqueued(n)))
  {
    hide Audited, DiskAfter, LastRequest, Latest, EnqueuedIn, DequeuedIn, TurnAfter, TurnFits;
    Noted(c, w, s.log, Enqueued(n));
    assert EnqueuedIn(s.log) + [n] == DequeuedIn(s.log) + (s.uploader.queue + [n]);
  }

  /** The request that is enqueued is one of those that were processed. */
  lemma EnqueueInFlight(c: Config, s: State, n: Name)
    requires InFlightAgrees(c, s) && n in s.processed
    ensures EnqueuedCount(s.log, n) < SavedCount(s.log, n)
    ensures InFlightAgrees(c, Note(s.(processed := Less(s.processed, n), uploader := Push(s.uploader, n)), Enqueued(n)))
  {
    hide SavedCount, EnqueuedCount, JobIsLawful, Push, CountsAgree, Less;
    var o := Enqueued(n);
    CountEnqueued(s.log, s.saved, s.publishing, s.processed, n);
    forall job <- s.jobs
      ensures JobIsLawful(c, s.log + [o], job)
    {
      JobStaysLawful(c, s.log, o, job);
    }
  }

  lemma CountEnqueued(log: Log, saved: multiset<Name>, publishing: multiset<Name>, processed: multiset<Name>, n: Name)
    requires CountsAgree(log, saved, publishing, processed) && n in processed
    ensures EnqueuedCount(log, n) < SavedCount(log, n)
    ensures CountsAgree(log + [Enqueued(n)], saved, publishing, Less(processed, n))
  {
    hide SavedCount, EnqueuedCount, Less;
    assert EnqueuedCount(log, n) + saved[n] + publishing[n] + processed[n] == SavedCount(log, n);
    forall m
      ensures EnqueuedCount(log + [Enqueued(n)], m) + saved[m] + publishing[m] + Less(processed, n)[m]
           == SavedCount(log + [Enqueued(n)], m)
    {
      assert EnqueuedCount(log, m) + saved[m] + publishing[m] + processed[m] == SavedCount(log, m);
      NotedCounts(log, Enqueued(n), m);
      OneLess(processed, n, m);
    }
  }

  lemma OneLess<T>(m: multiset<T>, x: T, y: T)
    requires x in m
    ensures Less(m, x)[y] + (if x == y then 1 else 0) == m[y]
  {
  }

  lemma EvictKeeps(c: Config, w: World, s: State, n: Name)
    requires Inv(c, w, s) && n in s.disk.files
    ensures Inv(c, w, Note(s.(disk := s.disk.Evict(n)), Evicted(n)))
  {
    hide Audited, DiskAfter, LastRequest, Latest, UploaderAgrees, Lists, Parses, InFlightAgrees;
    var next := Note(s.(disk := s.disk.Evict(n)), Evicted(n));
    NoteAgrees(c, w, s, next, Evicted(n));
    NoteKeepsInFlight(c, s, next, Evicted(n));
  }

  /** Time passing, and requests that come, go or end without a trace, change nothing the log speaks of. */
  lemma SilentKeeps(c: Config, w: World, s: State, next: State)
    requires Inv(c, w, s)
    requires next == s.(now := next.now, scan := next.scan, fetching := next.fetching, fetched := next.fetched,
                        receiving := next.receiving, jobs := next.jobs)
    requires s.now <= next.now && next.fetching <= s.fetching && next.jobs <= s.jobs
    ensures Inv(c, w, next)
  {
    hide Audited, DiskAfter, LastRequest, Latest, UploaderAgrees, JobIsLawful, SavedCount, EnqueuedCount;
  }

  lemma PublishingKeeps(c: Config, w: World, s: State, n: Name)
    requires Inv(c, w, s) && n in s.saved
    ensures Inv(c, w, s.(saved := Less(s.saved, n), publishing := More(s.publishing, n)))
  {
    hide Audited, DiskAfter, LastRequest, Latest, UploaderAgrees, JobIsLawful, SavedCount, EnqueuedCount;
  }

  // ---------- The uploader ----------

  /** The uploader notes one lawful thing and moves on. */
  lemma UploaderNotes(c: Config, w: World, s: State, next: State, o: Observation)
    requires Agrees(c, w, s) && InFlightAgrees(c, s) && Lawful(c, w, s.log, o)
    requires next == s.(uploader := next.uploader, log := s.log + [o],
                        lastBackgroundUpload := next.lastBackgroundUpload)
    requires o.Looked? || o.Taken? || o.Tested? || o.Started? || o.Dropped? || o.Finished? || o.HeadAnswered?
          || o.HeadFailed? || o.UpstreamPut?
    requires o.Looked? || o.Taken? ==> o.at <= s.now
    requires NoLostWakeUp(next.uploader)
    requires TurnFits(next.uploader.stage, if Turns(o) then TurnBy(o) else TurnAfter(s.log))
    requires s.uploader.queue == DequeuedBy(o) + next.uploader.queue
    ensures Agrees(c, w, next) && InFlightAgrees(c, next)
  {
    hide Audited, DiskAfter, LastRequest, Latest, EnqueuedIn, DequeuedIn, TurnAfter, Lawful, TurnFits, NoLostWakeUp;
    hide InFlightAgrees;
    Noted(c, w, s.log, o);
    NoteKeepsInFlight(c, s, next, o);
    assert DequeuedIn(next.log) + next.uploader.queue == DequeuedIn(s.log) + (DequeuedBy(o) + next.uploader.queue);
  }

  /** The uploader moves on without noting anything. */
  lemma UploaderMoves(c: Config, w: World, s: State, next: State)
    requires Inv(c, w, s)
    requires next == s.(uploader := next.uploader, lastBackgroundUpload := next.lastBackgroundUpload)
    requires NoLostWakeUp(next.uploader) && TurnFits(next.uploader.stage, TurnAfter(s.log))
    requires next.uploader.queue == s.uploader.queue
    ensures Inv(c, w, next)
  {
    hide Audited, DiskAfter, LastRequest, Latest, TurnAfter, TurnFits, NoLostWakeUp, JobIsLawful;
    hide SavedCount, EnqueuedCount, EnqueuedIn, DequeuedIn;
  }

  lemma LookKeeps(c: Config, w: World, s: State)
    requires Inv(c, w, s) && s.uploader.stage == Idle
    ensures Inv(c, w, Step(c, s, PollMoves))
  {
    hide Audited, DiskAfter, LastRequest, Latest, EnqueuedIn, DequeuedIn, TurnAfter, InFlightAgrees, Step;
    MovesStep(c, s);
    var next := Step(c, s, PollMoves);
    if s.now - s.lastUserFacingRequest < QUIET_MS {
      assert s.log + [] == s.log;
      UploaderMoves(c, w, s, next);
    } else {
      UploaderNotes(c, w, s, next, Looked(s.now));
    }
  }

  lemma TakeKeeps(c: Config, w: World, s: State)
    requires Inv(c, w, s) && s.uploader.stage == Quiet
    ensures Inv(c, w, Step(c, s, PollMoves))
  {
    hide Audited, DiskAfter, LastRequest, Latest, EnqueuedIn, DequeuedIn, TurnAfter, InFlightAgrees, Step;
    MovesStep(c, s);
    var next, queue := Step(c, s, PollMoves), s.uploader.queue;
    if queue == [] {
      assert s.log + [] == s.log;
      UploaderMoves(c, w, s, next);
    } else {
      assert queue == [queue[0]] + queue[1..];
      assert DequeuedIn(s.log) + [queue[0]] <= DequeuedIn(s.log) + queue;
      UploaderNotes(c, w, s, next, Taken(queue[0], s.now));
    }
  }

  lemma TestKeeps(c: Config, w: World, s: State)
    requires Inv(c, w, s) && s.uploader.stage.Holding?
    ensures Inv(c, w, Step(c, s, PollMoves))
  {
    hide Audited, DiskAfter, LastRequest, Latest, EnqueuedIn, DequeuedIn, TurnAfter, InFlightAgrees, Step;
    MovesStep(c, s);
    var n := s.uploader.stage.name;
    UploaderNotes(c, w, s, Step(c, s, PollMoves), Tested(n, GateLets(s.disk, n)));
  }

  lemma JudgeKeeps(c: Config, w: World, s: State)
    requires Inv(c, w, s) && s.uploader.stage.Judging?
    ensures Inv(c, w, Step(c, s, PollMoves))
  {
    hide Audited, DiskAfter, LastRequest, Latest, EnqueuedIn, DequeuedIn, TurnAfter, InFlightAgrees, Lawful, Step;
    var n, size := s.uploader.stage.name, s.disk.Size(s.uploader.stage.name);
    var o := if s.uploader.stage.open && SmallEnough(c, size) then Started(n, size) else Dropped(n, size);
    JudgeIsLawful(c, w, s);
    MovesStep(c, s);
    UploaderNotes(c, w, s, Step(c, s, PollMoves), o);
  }

  lemma JudgeIsLawful(c: Config, w: World, s: State)
    requires Inv(c, w, s) && s.uploader.stage.Judging?
    ensures var n, size := s.uploader.stage.name, s.disk.Size(s.uploader.stage.name);
      Lawful(c, w, s.log, if s.uploader.stage.open && SmallEnough(c, size) then Started(n, size) else Dropped(n, size))
  {
    hide Audited, DiskAfter, LastRequest, Latest, EnqueuedIn, DequeuedIn, TurnAfter, InFlightAgrees, Lists, Parses;
  }

  lemma MovesStep(c: Config, s: State)
    ensures var (u, noted) := Move(c, s.now, s.lastUserFacingRequest, s.disk, s.uploader);
      var t := Step(c, s, PollMoves);
      t == s.(uploader := u, log := s.log + noted, lastBackgroundUpload := t.lastBackgroundUpload)
  {
    hide Move;
  }

  lemma MoveKeeps(c: Config, w: World, s: State)
    requires Inv(c, w, s)
    ensures Inv(c, w, Step(c, s, PollMoves))
  {
    hide Inv, Look, Take, Test, Judge;
    match s.uploader.stage
    case Idle => LookKeeps(c, w, s);
    case Quiet => TakeKeeps(c, w, s);
    case Holding(_) => TestKeeps(c, w, s);
    case Judging(_, _) => JudgeKeeps(c, w, s);
    case _ => assert s.log + [] == s.log;
  }

  /** The HEAD request is answered or fails, and the uploader goes on to send the file or is done. */
  lemma CheckKeeps(c: Config, w: World, s: State, o: Observation, p: Observation, u: Uploader)
    requires Inv(c, w, s) && s.uploader.stage.Checking?
    requires var n := s.uploader.stage.name;
      && o in {HeadAnswered(n, true), HeadAnswered(n, false), HeadFailed(n)}
      && if o == HeadAnswered(n, false) && s.disk.Has(n)
         then p == UpstreamPut(n) && u == s.uploader.(stage := Sending(n), waiting := Runnable)
         else p == Finished(n) && u == s.uploader.(stage := Idle, waiting := Runnable)
    ensures Inv(c, w, s.(uploader := u, log := s.log + [o, p]))
  {
    hide Audited, DiskAfter, LastRequest, Latest, EnqueuedIn, DequeuedIn, TurnAfter, InFlightAgrees, Lawful;
    var answered := s.(uploader := s.uploader.(waiting := Runnable), log := s.log + [o]);
    CheckIsLawful(c, w, s, o);
    UploaderNotes(c, w, s, answered, o);
    Noted(c, w, s.log, o);
    UploaderNotes(c, w, answered, s.(uploader := u, log := s.log + [o] + [p]), p);
    assert s.log + [o] + [p] == s.log + [o, p];
  }

  lemma CheckIsLawful(c: Config, w: World, s: State, o: Observation)
    requires Inv(c, w, s) && s.uploader.stage.Checking?
    requires var n := s.uploader.stage.name; o in {HeadAnswered(n, true), HeadAnswered(n, false), HeadFailed(n)}
    ensures Lawful(c, w, s.log, o)
    ensures var n := s.uploader.stage.name;
      Lawful(c, w, s.log + [o],
             if o == HeadAnswered(n, false) && s.disk.Has(n) then UpstreamPut(n) else Finished(n))
  {
    hide Audited, DiskAfter, LastRequest, Latest, EnqueuedIn, DequeuedIn, TurnAfter, InFlightAgrees;
    Noted(c, w, s.log, o);
  }

  /** The PUT request is answered or fails, and the uploader is done. */
  lemma SentKeeps(c: Config, w: World, s: State, u: Uploader)
    requires Inv(c, w, s) && s.uploader.stage.Sending? && u == s.uploader.(stage := Idle, waiting := Runnable)
    ensures Inv(c, w, s.(uploader := u, log := s.log + [Finished(s.uploader.stage.name)]))
  {
    hide Audited, DiskAfter, LastRequest, Latest, EnqueuedIn, DequeuedIn, TurnAfter, InFlightAgrees;
    var o := Finished(s.uploader.stage.name);
    UploaderNotes(c, w, s, s.(uploader := u, log := s.log + [o]), o);
  }

  lemma PollFutureKeeps(c: Config, w: World, s: State, answer: Answer)
    requires Inv(c, w, s)
    ensures Inv(c, w, Step(c, s, PollFuture(answer)))
  {
    hide InFlightAgrees, Audited, DiskAfter, LastRequest, Latest, EnqueuedIn, DequeuedIn, TurnAfter, Step;
    FutureStep(c, s, answer);
    var (u, noted) := PollActive(s.now, s.disk, s.uploader, answer);
    if |noted| == 0 {
      assert s.log + [] == s.log;
      UploaderMoves(c, w, s, Step(c, s, PollFuture(answer)));
    } else {
      hide Inv;
      if |noted| == 1 {
        SentKeeps(c, w, s, u);
      } else {
        assert noted == [noted[0], noted[1]];
        CheckKeeps(c, w, s, noted[0], noted[1], u);
      }
    }
  }

  lemma FutureStep(c: Config, s: State, answer: Answer)
    ensures var (u, noted) := PollActive(s.now, s.disk, s.uploader, answer);
      Step(c, s, PollFuture(answer)) == s.(uploader := u, log := s.log + noted)
  {
    hide PollActive;
  }

  // ---------- Every step ----------

  /** The steps of a GET and of whatever request is neither a GET nor a PUT. */
  lemma GetStepKeeps(c: Config, w: World, s: State, e: Event)
    requires Inv(c, w, s)
    requires e.OtherArrives? || e.GetArrives? || e.GetChecks? || e.GetLooksUp? || e.FetchRetries? || e.FetchEnds?
          || e.FetchAnswers? || e.GetReads?
    ensures Inv(c, w, Step(c, s, e))
  {
    hide Agrees, InFlightAgrees, Inv, Process, Move, PollActive, Arrive, Admit, LookUp, Insert, Save, Push, Stamp;
    match e
    case OtherArrives => StampKeeps(c, w, s);
    case GetArrives(n) =>
      StampKeeps(c, w, s);
      ArriveKeeps(c, w, Stamp(s), n);
    case GetChecks(a) => if a in s.arrived { AdmitKeeps(c, w, s, a); }
    case GetLooksUp(n) => if n in s.admitted { LookUpKeeps(c, w, s, n); }
    case FetchRetries(n) => if n in s.fetching { RetryKeeps(c, w, s, n); }
    case FetchEnds(n) => SilentKeeps(c, w, s, s.(fetching := Less(s.fetching, n)));
    case FetchAnswers(n, status, length, body) =>
      if n in s.fetching { InsertKeeps(c, w, s, n, status, length, body); }
    case GetReads(n) =>
      if n in s.fetched {
        var t := s.(fetched := Less(s.fetched, n));
        SilentKeeps(c, w, s, t);
        ProcessKeeps(c, w, t, FromGet, n);
      }
  }

  /** The steps of a PUT. */
  lemma PutStepKeeps(c: Config, w: World, s: State, e: Event)
    requires Inv(c, w, s)
    requires e.PutArrives? || e.PutBreaks? || e.PutSaves? || e.PutReads? || e.PutEnqueues?
    ensures Inv(c, w, Step(c, s, e))
  {
    hide Agrees, InFlightAgrees, Inv, Process, Move, PollActive, Arrive, Admit, LookUp, Insert, Save, Push, Stamp;
    match e
    case PutArrives(n) =>
      var t := s.(receiving := More(s.receiving, n));
      SilentKeeps(c, w, s, t);
      StampKeeps(c, w, t);
    case PutBreaks(n) => SilentKeeps(c, w, s, s.(receiving := Less(s.receiving, n)));
    case PutSaves(n, body) => if n in s.receiving { SaveKeeps(c, w, s, n, body); }
    case PutReads(n) =>
      if n in s.saved {
        PublishingKeeps(c, w, s, n);
        ProcessKeeps(c, w, s.(saved := Less(s.saved, n), publishing := More(s.publishing, n)), FromPut, n);
      }
    case PutEnqueues(n) => if n in s.processed { EnqueueKeeps(c, w, s, n); }
  }

  /** The clock, the scan, touches, evictions and the uploader. */
  lemma OtherStepKeeps(c: Config, w: World, s: State, e: Event)
    requires Inv(c, w, s)
    requires e.Tick? || e.ScanReads? || e.Touches? || e.Evicts? || e.PollFuture? || e.PollMoves?
    ensures Inv(c, w, Step(c, s, e))
  {
    hide Agrees, InFlightAgrees, Inv, Process, TouchNext, Move, PollActive, Insert, Save, Push, Stamp;
    match e
    case Tick(ms) => SilentKeeps(c, w, s, s.(now := s.now + ms));
    case ScanReads(n) =>
      var t := s.(scan := s.scan - {n});
      SilentKeeps(c, w, s, t);
      ProcessKeeps(c, w, t, FromScan, n);
    case Touches(job, ok) => if job in s.jobs { TouchKeeps(c, w, s, job, ok); }
    case Evicts(n) => if n in s.disk.files { EvictKeeps(c, w, s, n); }
    case PollFuture(answer) => PollFutureKeeps(c, w, s, answer);
    case PollMoves => MoveKeeps(c, w, s);
  }

  /** Every step of every request, every eviction and every poll keeps the state in agreement with a lawful log. */
  lemma StepKeeps(c: Config, w: World, s: State, e: Event)
    requires Inv(c, w, s)
    ensures Inv(c, w, Step(c, s, e))
  {
    hide Inv, Step;
    if e.PutArrives? || e.PutBreaks? || e.PutSaves? || e.PutReads? || e.PutEnqueues? {
      PutStepKeeps(c, w, s, e);
    } else if e.Tick? || e.ScanReads? || e.Touches? || e.Evicts? || e.PollFuture? || e.PollMoves? {
      OtherStepKeeps(c, w, s, e);
    } else {
      GetStepKeeps(c, w, s, e);
    }
  }

  lemma {:induction false} BehaviourPrefix(c: Config, ss: seq<State>)
    requires Behaviour(c, ss) && 1 < |ss|
    ensures Behaviour(c, ss[..|ss| - 1])
  {
    hide Step, Init;
    var init := ss[..|ss| - 1];
    forall i: nat | i + 1 < |init|
      ensures StepAt(c, init, i)
    {
      assert StepAt(c, ss, i);
    }
  }

  lemma {:induction false} BehaviourKeeps(c: Config, ss: seq<State>)
    requires Behaviour(c, ss)
    ensures Inv(c, WorldOf(ss[0]), Last(ss))
    decreases |ss|
  {
    hide Step;
    if |ss| == 1 {
      InitAgrees(c, ss[0]);
    } else {
      var i := |ss| - 2;
      BehaviourPrefix(c, ss);
      BehaviourKeeps(c, ss[..|ss| - 1]);
      assert StepAt(c, ss, i);
      var e :| ss[i + 1] == Step(c, ss[i], e);
      StepKeeps(c, WorldOf(ss[0]), ss[i], e);
    }
  }

  lemma InitAgrees(c: Config, s: State)
    requires Init(s)
    ensures Inv(c, WorldOf(s), s)
  {
    hide Step;
  }

  // ---------- Behaviours and runs ----------

  function StatesOf(c: Config, s: State, es: seq<Event>): (ss: seq<State>)
    ensures ss != [] && ss[0] == s && Last(ss) == Run(c, s, es)
  {
    if es == [] then [s] else StatesOf(c, s, es[..|es| - 1]) + [Run(c, s, es)]
  }

  /** Running events from a fresh start is a behaviour. */
  lemma {:induction false} RunIsBehaviour(c: Config, s: State, es: seq<Event>)
    requires Init(s)
    ensures Behaviour(c, StatesOf(c, s, es))
  {
    hide Step, Init;
    if es != [] {
      var init := es[..|es| - 1];
      RunIsBehaviour(c, s, init);
      var before, ss := StatesOf(c, s, init), StatesOf(c, s, es);
      forall i: nat | i + 1 < |ss|
        ensures StepAt(c, ss, i)
      {
        if i + 1 < |before| {
          assert StepAt(c, before, i);
          assert ss[i] == before[i] && ss[i + 1] == before[i + 1];
        } else {
          assert ss[i] == Run(c, s, init) && ss[i + 1] == Run(c, s, es);
          assert ss[i + 1] == Step(c, ss[i], es[|es| - 1]);
        }
      }
    }
  }

  /** Every behaviour is such a run. */
  lemma {:induction false} BehaviourIsRun(c: Config, ss: seq<State>) returns (es: seq<Event>)
    requires Behaviour(c, ss)
    ensures Run(c, ss[0], es) == Last(ss)
    decreases |ss|
  {
    hide Step, Init;
    if |ss| == 1 {
      es := [];
    } else {
      var i := |ss| - 2;
      BehaviourPrefix(c, ss);
      var init := BehaviourIsRun(c, ss[..|ss| - 1]);
      assert StepAt(c, ss, i);
      var e :| ss[i + 1] == Step(c, ss[i], e);
      es := init + [e];
      assert es[..|es| - 1] == init;
    }
  }

  // ---------- What every run promises ----------

  /**
    In every run, whatever the interleaving: each blob sent upstream by the uploader was asked about first and not
    reported present, and its upload goes back to a look at the clock, a dequeue, a gate test and a size test, in this
    order. At the gate test the gate was standing, because some action result lists the blob, because a request named
    the gate file, or from before the run.
   */
  lemma RunUploadsAreJustified(c: Config, ss: seq<State>, k: nat, n: Name)
    returns (l: nat, t: nat, g: nat, i: nat)
    requires Behaviour(c, ss) && k < |Last(ss).log| && Last(ss).log[k] == UpstreamPut(n)
    ensures l < t < g < i < k - 1
    ensures var log := Last(ss).log;
      && UploadOf(c, WorldOf(ss[0]), log, l, t, g, i, n) && Since(log, i, k)
      && log[k - 1] == HeadAnswered(n, false)
  {
    BehaviourKeeps(c, ss);
    l, t, g, i := UploadJustified(c, WorldOf(ss[0]), Last(ss).log, k, n);
  }

  /**
    In every run the uploader sends a PUT exactly where HEAD has just reported the object absent and the file is still
    on the disk. What follows from the answer to HEAD is always noted with it.
   */
  lemma RunPutsExactly(c: Config, ss: seq<State>, k: nat, n: Name)
    requires Behaviour(c, ss) && k < |Last(ss).log|
    ensures var w, log := WorldOf(ss[0]), Last(ss).log;
      && (log[k] == UpstreamPut(n) <==>
            0 < k && log[k - 1] == HeadAnswered(n, false) && DiskAfter(w, log[..k]).Has(n))
      && (log[k] == HeadAnswered(n, false) ==>
            && k + 1 < |log|
            && log[k + 1] == if DiskAfter(w, log[..k + 1]).Has(n) then UpstreamPut(n) else Finished(n))
      && (log[k] == HeadAnswered(n, true) || log[k] == HeadFailed(n) ==> k + 1 < |log| && log[k + 1] == Finished(n))
  {
    hide DiskAfter, Audited, Step, Init;
    BehaviourKeeps(c, ss);
    HeadSettles(c, WorldOf(ss[0]), Last(ss).log, k, n);
  }

  /** In every run an upload ends after its PUT, or without one where HEAD has settled that there will be none. */
  lemma RunFinishesExactly(c: Config, ss: seq<State>, k: nat) returns (i: nat)
    requires Behaviour(c, ss) && k < |Last(ss).log| && Last(ss).log[k].Finished?
    ensures var w, log := WorldOf(ss[0]), Last(ss).log;
      && i < k && Since(log, i, k)
      && (|| log[i] == UpstreamPut(log[k].name)
          || (log[i].Started? && log[i].name == log[k].name && EndsUpload(w, log[..k], log[k].name)))
  {
    hide DiskAfter, Audited;
    BehaviourKeeps(c, ss);
    i := FinishesExactly(c, WorldOf(ss[0]), Last(ss).log, k);
  }

  /** In every run the requests enqueued are, in order, those dequeued followed by those still queued. */
  lemma RunConservesRequests(c: Config, ss: seq<State>)
    requires Behaviour(c, ss)
    ensures var s := Last(ss);
      EnqueuedIn(s.log) == DequeuedIn(s.log) + s.uploader.queue && NoLostWakeUp(s.uploader)
  {
    BehaviourKeeps(c, ss);
  }

  /** In every run a gate file is there exactly if it appeared at some time and was not evicted since. */
  lemma RunGatesHaveOrigins(c: Config, ss: seq<State>, digest: Bytes)
    requires Behaviour(c, ss)
    ensures Last(ss).disk.GateOpen(digest) <==> GateStands(c, WorldOf(ss[0]), Last(ss).log, digest)
  {
    hide GateStands;
    BehaviourKeeps(c, ss);
    GateStandsExactly(c, WorldOf(ss[0]), Last(ss).log, digest);
  }

  /**
    In every run in which no request names the gate file of a blob, and the disk cache did not keep track of it at the
    start: it is there exactly if it was at the start or some action result that lists the blob was processed.
   */
  lemma RunPlainGatesHaveOrigins(c: Config, ss: seq<State>, digest: Bytes)
    requires Behaviour(c, ss) && NobodyNamesGate(WorldOf(ss[0]), Last(ss).log, digest)
    ensures Last(ss).disk.GateOpen(digest) <==>
      || digest in ss[0].disk.gates
      || exists j | 0 <= j < |Last(ss).log| :: Last(ss).log[j].Touched? && Opens(c, Last(ss).log[j], digest)
  {
    BehaviourKeeps(c, ss);
    PlainGateStandsExactly(c, WorldOf(ss[0]), Last(ss).log, digest);
  }

  /** In every run no name is enqueued more often than its file was evicted, plus one if it was not there at first. */
  lemma RunEnqueuesOncePerResidency(c: Config, ss: seq<State>, n: Name)
    requires Behaviour(c, ss)
    ensures var log := Last(ss).log;
      EnqueuedCount(log, n) <= EvictedCount(log, n) + (if ss[0].disk.Has(n) then 0 else 1)
  {
    BehaviourKeeps(c, ss);
    OneRequestPerResidency(c, WorldOf(ss[0]), Last(ss).log, n);
  }

  /**
    In every run each dequeue relies on a look at the clock, and at that look the user had been quiet for ten seconds
    with respect to a request exactly if the request came before the look. A request that comes between the look and
    the dequeue is not noticed.
   */
  lemma RunStaysQuiet(c: Config, ss: seq<State>, k: nat) returns (l: nat)
    requires Behaviour(c, ss) && k < |Last(ss).log| && Last(ss).log[k].Taken?
    ensures l < k && IsLookOf(Last(ss).log, l, k)
    ensures var log := Last(ss).log;
      forall i: nat | i < |log| && log[i].Requested? :: log[i].at + 10000 <= log[l].at <==> i < l
  {
    BehaviourKeeps(c, ss);
    var w, log := WorldOf(ss[0]), Last(ss).log;
    l := LookOf(c, w, log, k);
    forall i: nat | i < |log| && log[i].Requested?
      ensures log[i].at + 10000 <= log[l].at <==> i < l
    {
      LookSeparates(c, w, log, i, l);
    }
  }

  /** In every run the fate of a dequeued request depends on what came before its tests, not on the order of PUTs. */
  lemma RunIgnoresPutOrder(c: Config, ss: seq<State>, k: nat) returns (g: nat)
    requires Behaviour(c, ss) && k < |Last(ss).log|
    requires Last(ss).log[k].Started? || Last(ss).log[k].Dropped?
    ensures var w, log := WorldOf(ss[0]), Last(ss).log;
      && g < k && log[g].Tested? && log[g].name == log[k].name && Since(log, g, k)
      && (log[k].Started? <==>
            && (log[k].name.Cas? ==> GateStands(c, w, log[..g], log[k].name.digest))
            && DiskAfter(w, log[..k]).Has(log[k].name)
            && DiskAfter(w, log[..k]).Size(log[k].name).value <= c.maximumUploadSize)
  {
    hide GateStands;
    BehaviourKeeps(c, ss);
    g := DecisionExactly(c, WorldOf(ss[0]), Last(ss).log, k);
  }

  /** In every run upstream is asked for a blob only after a GET that found it cached or had found its gate standing. */
  lemma RunFetchesAreGated(c: Config, ss: seq<State>, k: nat, n: Name) returns (i: nat)
    requires Behaviour(c, ss) && k < |Last(ss).log| && Last(ss).log[k] == UpstreamGet(n)
    ensures i < k && AdmittedLawfully(c, WorldOf(ss[0]), Last(ss).log, i, n)
  {
    hide AdmittedLawfully;
    BehaviourKeeps(c, ss);
    i := FetchIsGated(c, WorldOf(ss[0]), Last(ss).log, k, n);
  }

  /** In every run each cached file was there at first, was PUT, or was fetched from a 200 of permitted length. */
  lemma RunFilesHaveSources(c: Config, ss: seq<State>, n: Name)
    requires Behaviour(c, ss) && n in Last(ss).disk.files
    ensures HasSource(c, WorldOf(ss[0]), Last(ss).log, n, Last(ss).disk.files[n])
  {
    BehaviourKeeps(c, ss);
    FilesHaveSources(c, WorldOf(ss[0]), Last(ss).log, n);
  }

  /** In every run an upload is finished before the next one starts. */
  lemma RunUploadsOneAtATime(c: Config, ss: seq<State>, i: nat, j: nat)
    requires Behaviour(c, ss) && i < j < |Last(ss).log|
    requires Last(ss).log[i].Started? && Last(ss).log[j].Started?
    ensures var log := Last(ss).log; exists m | i < m < j :: log[m] == Finished(log[i].name)
  {
    BehaviourKeeps(c, ss);
    OneUploadAtATime(c, WorldOf(ss[0]), Last(ss).log, i, j);
  }

  // ---------- A request that is not noticed ----------

  /**
    Whenever the user has been quiet and something is queued, a request may arrive between the look at the clock and
    the dequeue that relies on it. Then something is dequeued at the very time at which the user was active.
   */
  lemma RequestSlipsIn(c: Config, s: State)
    requires s.lastUserFacingRequest + QUIET_MS <= s.now && s.uploader.stage == Idle && s.uploader.queue != []
    ensures Run(c, s, [PollMoves, OtherArrives, PollMoves]).log
         == s.log + [Looked(s.now), Requested(s.now), Taken(s.uploader.queue[0], s.now)]
  {
    hide Step;
    var t := s.(uploader := s.uploader.(stage := Quiet, waiting := Runnable), log := s.log + [Looked(s.now)]);
    var r := Stamp(t);
    LookStep(c, s);
    StampStep(c, t);
    TakeStep(c, r);
    RunThree(c, s, PollMoves, OtherArrives, PollMoves);
    assert s.log + [Looked(s.now)] + [Requested(s.now)] + [Taken(s.uploader.queue[0], s.now)]
        == s.log + [Looked(s.now), Requested(s.now), Taken(s.uploader.queue[0], s.now)];
  }

  lemma LookStep(c: Config, s: State)
    requires s.lastUserFacingRequest + QUIET_MS <= s.now && s.uploader.stage == Idle
    ensures Step(c, s, PollMoves)
         == s.(uploader := s.uploader.(stage := Quiet, waiting := Runnable), log := s.log + [Looked(s.now)])
  {
  }

  lemma StampStep(c: Config, s: State)
    ensures Step(c, s, OtherArrives) == Stamp(s)
  {
  }

  lemma TakeStep(c: Config, s: State)
    requires s.uploader.stage == Quiet && s.uploader.queue != []
    ensures var u := Uploader(s.uploader.queue[1..], Holding(s.uploader.queue[0]), Runnable);
      Step(c, s, PollMoves) == s.(uploader := u, log := s.log + [Taken(s.uploader.queue[0], s.now)])
  {
  }
}
