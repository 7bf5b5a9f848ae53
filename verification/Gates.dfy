/** No action result goes unread: what it names has a gate, unless some step that will create it is still to come. */
module Gates {
  import opened Options
  import opened Wire
  import opened Messages
  import opened Protocol
  import C = Codec
  import N = Normalisation

  /** The file `n` is still to be read. */
  predicate Pending(s: State, n: Name) {
    n in s.scan || n in s.fetched || n in s.saved
  }

  /** The gate of a blob is there, or some request is about to create it. */
  predicate Covered(s: State, digest: Bytes) {
    s.disk.GateOpen(digest) || exists job <- s.jobs :: digest in job.rest
  }

  predicate AllCovered(s: State, digests: seq<Bytes>) {
    forall h <- digests :: Covered(s, h)
  }

  /** Every blob that the cached file `n` mentions, if it is a readable action result, is covered. */
  ghost predicate FileCovered(c: Config, s: State, n: Name) {
    forall h | MentionedIn(c, s.disk, n, h) :: Covered(s, h)
  }

  /** For each cached file: it is still to be read, or what it mentions is covered. */
  ghost predicate Complete(c: Config, s: State) {
    forall n <- s.disk.files :: Pending(s, n) || FileCovered(c, s, n)
  }

  /** In this step no gate file fails to be created, and none is evicted. */
  predicate Clean(e: Event) {
    match e
    case Touches(_, ok) => ok
    case Evicts(n) => !n.Gate?
    case _ => true
  }

  // ---------- What is covered stays covered ----------

  ghost predicate CoversAsMuch(s: State, next: State) {
    forall h | Covered(s, h) :: Covered(next, h)
  }

  lemma FinishLeaves(s: State, origin: Origin, n: Name)
    ensures var t := Finish(s, origin, n);
      t == s.(publishing := t.publishing, processed := t.processed)
  {
  }

  lemma ResumeCovers(s: State, job: Job)
    ensures var t := Resume(s, job);
      t.disk == s.disk && t.scan == s.scan && t.fetched == s.fetched && t.saved == s.saved
    ensures CoversAsMuch(s, Resume(s, job)) && AllCovered(Resume(s, job), job.rest)
  {
    FinishLeaves(s, job.origin, job.name);
    var t := Resume(s, job);
    if job.rest != [] {
      assert job in t.jobs;
      assert forall other <- s.jobs :: other in t.jobs;
    }
  }

  lemma NothingMentioned(c: Config, disk: Disk, n: Name)
    ensures !ReadableIn(c, disk, n) ==> forall h :: !MentionedIn(c, disk, n, h)
  {
  }

  lemma ReadIsThere(c: Config, disk: Disk, n: Name)
    requires ListedIn(c, disk, n).Some?
    ensures n.Ac? && n in disk.files
  {
    hide ParseActionResult, Listed;
  }

  lemma ProcessCovers(c: Config, s: State, origin: Origin, n: Name)
    ensures var t := Process(c, s, origin, n);
      && t.disk == s.disk && t.scan == s.scan && t.fetched == s.fetched && t.saved == s.saved
      && CoversAsMuch(s, t) && FileCovered(c, t, n)
  {
    hide ListedIn, MentionedIn, ReadableIn;
    ListedInExactly(c, s.disk, n);
    NothingMentioned(c, s.disk, n);
    match ListedIn(c, s.disk, n)
    case None => FinishLeaves(s, origin, n);
    case Some(listed) =>
      ReadIsThere(c, s.disk, n);
      var content := s.disk.files[n];
      ResumeCovers(Note(s, Parsed(n, content)), Job(origin, n, content, listed));
  }

  lemma TouchCovers(s: State, job: Job)
    requires job in s.jobs
    ensures var t := TouchNext(s, job, true);
      && t.disk.files == s.disk.files && t.scan == s.scan && t.fetched == s.fetched && t.saved == s.saved
      && CoversAsMuch(s, t)
  {
    hide Finish, Resume;
    var next := s.(jobs := Less(s.jobs, job));
    assert forall other <- s.jobs | other != job :: other in next.jobs;
    if job.rest == [] {
      FinishLeaves(next, job.origin, job.name);
    } else {
      var h, rest := job.rest[0], job.rest[1..];
      assert job.rest == [h] + rest;
      var touched := Note(next.(disk := s.disk.Touch(h)), Touched(job.name, job.content, h));
      ResumeCovers(touched, job.(rest := rest));
      assert touched.disk.GateOpen(h);
    }
  }

  // ---------- Steps ----------

  /** A step that uncovers nothing, and changes files only where something is left pending. */
  lemma CoveringStepKeeps(c: Config, s: State, next: State)
    requires Complete(c, s) && CoversAsMuch(s, next)
    requires forall n <- next.disk.files ::
      Pending(next, n) || FileCovered(c, next, n) || (n in s.disk.files && next.disk.files[n] == s.disk.files[n])
    requires forall n | Pending(s, n) :: Pending(next, n) || FileCovered(c, next, n)
    ensures Complete(c, next)
  {
    hide Lists, Covered;
  }

  lemma ReadStepKeeps(c: Config, s: State, e: Event)
    requires Complete(c, s) && (e.ScanReads? || e.GetReads? || e.PutReads?)
    ensures Complete(c, Step(c, s, e))
  {
    hide Complete, Process, FileCovered, Covered;
    match e
    case ScanReads(n) =>
      var t := s.(scan := s.scan - {n});
      ProcessCovers(c, t, FromScan, n);
      SameCovered(s, t);
      ReadStepCovers(c, t, Process(c, t, FromScan, n), Step(c, s, e), n);
      CoveringStepKeeps(c, s, Step(c, s, e));
    case GetReads(n) =>
      if n in s.fetched {
        var t := s.(fetched := Less(s.fetched, n));
        ProcessCovers(c, t, FromGet, n);
        SameCovered(s, t);
        ReadStepCovers(c, t, Process(c, t, FromGet, n), Step(c, s, e), n);
        CoveringStepKeeps(c, s, Step(c, s, e));
      }
    case PutReads(n) =>
      if n in s.saved {
        var t := s.(saved := Less(s.saved, n), publishing := More(s.publishing, n));
        ProcessCovers(c, t, FromPut, n);
        SameCovered(s, t);
        ReadStepCovers(c, t, Process(c, t, FromPut, n), Step(c, s, e), n);
        CoveringStepKeeps(c, s, Step(c, s, e));
      }
  }

  lemma SameCovered(s: State, t: State)
    requires s.disk == t.disk && s.jobs == t.jobs
    ensures CoversAsMuch(s, t)
  {
  }

  lemma ReadStepCovers(c: Config, s: State, t: State, next: State, n: Name)
    requires CoversAsMuch(s, t) && FileCovered(c, t, n) && next.disk == t.disk && next.jobs == t.jobs
    ensures CoversAsMuch(s, next) && FileCovered(c, next, n)
  {
    hide ParseActionResult, Listed;
  }

  lemma InsertStepKeeps(c: Config, s: State, next: State, n: Name, body: Bytes)
    requires Complete(c, s) && next.disk == s.disk.Insert(n, body) && next.jobs == s.jobs
    requires Pending(next, n) && forall m | Pending(s, m) :: Pending(next, m)
    ensures Complete(c, next)
  {
    hide Complete, FileCovered;
    CoveringStepKeeps(c, s, next);
  }

  lemma EvictStepKeeps(c: Config, s: State, n: Name)
    requires Complete(c, s) && !n.Gate?
    ensures Complete(c, Note(s.(disk := s.disk.Evict(n)), Evicted(n)))
  {
    hide Complete, FileCovered;
    CoveringStepKeeps(c, s, Note(s.(disk := s.disk.Evict(n)), Evicted(n)));
  }

  lemma FetchedStepKeeps(c: Config, s: State, n: Name, status: nat, length: Option<UInt64>, body: Bytes)
    requires Complete(c, s)
    ensures Complete(c, Insert(c, s, n, status, length, body))
  {
    hide Complete, FileCovered, Covered;
    var next := Insert(c, s, n, status, length, body);
    if next.log == s.log {
      UnchangedStepKeeps(c, s, next);
    } else {
      assert n in next.fetched;
      InsertStepKeeps(c, s, next, n, body);
    }
  }

  lemma SavedStepKeeps(c: Config, s: State, n: Name, body: Bytes)
    requires Complete(c, s)
    ensures Complete(c, Save(s, n, body))
  {
    hide Complete, FileCovered, Covered;
    if s.disk.Has(n) {
      UnchangedStepKeeps(c, s, Save(s, n, body));
    } else {
      InsertStepKeeps(c, s, Save(s, n, body), n, body);
    }
  }

  lemma TouchedStepKeeps(c: Config, s: State, job: Job)
    requires Complete(c, s) && job in s.jobs
    ensures Complete(c, TouchNext(s, job, true))
  {
    hide Complete, TouchNext, FileCovered, Covered;
    TouchCovers(s, job);
    CoveringStepKeeps(c, s, TouchNext(s, job, true));
  }

  lemma ChangingStepKeeps(c: Config, s: State, e: Event)
    requires Complete(c, s) && Clean(e)
    requires e.FetchAnswers? || e.PutSaves? || e.Evicts? || e.Touches?
    ensures Complete(c, Step(c, s, e))
  {
    hide Complete, Process, Move, PollActive, LookUp, Admit, Arrive, Push, TouchNext, Insert, Save, Stamp, Less, More;
    match e
    case FetchAnswers(n, status, length, body) => FetchedStepKeeps(c, s, n, status, length, body);
    case PutSaves(n, body) => SavedStepKeeps(c, s, n, body);
    case Evicts(n) => if n in s.disk.files { EvictStepKeeps(c, s, n); }
    case Touches(job, _) => if job in s.jobs { TouchedStepKeeps(c, s, job); }
  }

  /** Disk, jobs and everything pending are as they were. */
  lemma UnchangedStepKeeps(c: Config, s: State, next: State)
    requires Complete(c, s) && next.disk == s.disk && next.jobs == s.jobs
    requires next.scan == s.scan && next.fetched == s.fetched && next.saved == s.saved
    ensures Complete(c, next)
  {
    hide Complete, FileCovered;
    SameCovered(s, next);
    CoveringStepKeeps(c, s, next);
  }

  lemma ArriveLeaves(s: State, n: Name)
    ensures var t := Arrive(s, n); t == s.(arrived := t.arrived, admitted := t.admitted, log := t.log)
  {
  }

  lemma AdmitLeaves(s: State, a: Arrival)
    ensures var t := Admit(s, a); t == s.(arrived := t.arrived, admitted := t.admitted, log := t.log)
  {
  }

  lemma LookUpLeaves(s: State, n: Name)
    ensures var t := LookUp(s, n); t == s.(admitted := t.admitted, fetching := t.fetching, log := t.log)
  {
  }

  lemma OtherStepsLeave(c: Config, s: State, e: Event)
    requires !e.ScanReads? && !e.GetReads? && !e.PutReads?
    requires !e.FetchAnswers? && !e.PutSaves? && !e.Evicts? && !e.Touches?
    ensures var next := Step(c, s, e);
      && next.disk == s.disk && next.jobs == s.jobs
      && next.scan == s.scan && next.fetched == s.fetched && next.saved == s.saved
  {
    hide Move, PollActive, Process, TouchNext, Insert, Save, Push, Less, More, Admit, LookUp, Arrive;
    if e.GetArrives? {
      ArriveLeaves(Stamp(s), e.name);
    } else if e.GetChecks? {
      AdmitLeaves(s, e.arrival);
    } else if e.GetLooksUp? {
      LookUpLeaves(s, e.name);
    }
  }

  lemma StepKeepsComplete(c: Config, s: State, e: Event)
    requires Complete(c, s) && Clean(e)
    ensures Complete(c, Step(c, s, e))
  {
    hide Complete, Step, Clean;
    if e.ScanReads? || e.GetReads? || e.PutReads? {
      ReadStepKeeps(c, s, e);
    } else if e.FetchAnswers? || e.PutSaves? || e.Evicts? || e.Touches? {
      ChangingStepKeeps(c, s, e);
    } else {
      OtherStepsLeave(c, s, e);
      UnchangedStepKeeps(c, s, Step(c, s, e));
    }
  }

  // ---------- Every clean run ----------

  /** The step after state `i` can be one in which no gate file is lost. */
  ghost predicate CleanStepAt(c: Config, ss: seq<State>, i: nat)
    requires i + 1 < |ss|
  {
    exists e :: Clean(e) && ss[i + 1] == Step(c, ss[i], e)
  }

  ghost predicate CleanBehaviour(c: Config, ss: seq<State>) {
    ss != [] && Init(ss[0]) && forall i: nat | i + 1 < |ss| :: CleanStepAt(c, ss, i)
  }

  lemma InitComplete(c: Config, s: State)
    requires Init(s)
    ensures Complete(c, s)
  {
    hide FileCovered;
  }

  lemma {:induction false} BehaviourKeepsComplete(c: Config, ss: seq<State>)
    requires CleanBehaviour(c, ss)
    ensures Complete(c, Last(ss))
    decreases |ss|
  {
    hide Step, Complete, Init, Clean;
    if |ss| == 1 {
      InitComplete(c, ss[0]);
    } else {
      var i, init := |ss| - 2, ss[..|ss| - 1];
      forall j: nat | j + 1 < |init|
        ensures CleanStepAt(c, init, j)
      {
        assert CleanStepAt(c, ss, j);
      }
      BehaviourKeepsComplete(c, init);
      assert CleanStepAt(c, ss, i);
      var e :| Clean(e) && ss[i + 1] == Step(c, ss[i], e);
      StepKeepsComplete(c, ss[i], e);
    }
  }

  /**
    In every run in which gate files can be created and none is evicted: for each action result in the cache that can be
    read and mentions a blob, among its output files, as stdout or as stderr, either it is still to be read, or the
    blob has its gate or is about to get it.
   */
  lemma RunGatesAreComplete(c: Config, ss: seq<State>, n: Name, a: ActionResultData, digest: Bytes)
    requires CleanBehaviour(c, ss)
    requires n.Ac? && n in Last(ss).disk.files && Mentions(a, digest)
    requires ParseActionResult(c.merging, Last(ss).disk.files[n]) == Some(a)
    ensures Pending(Last(ss), n) || Covered(Last(ss), digest)
  {
    hide Step, Init, Clean, Covered, Mentions, ParseActionResult;
    BehaviourKeepsComplete(c, ss);
    assert MentionedIn(c, Last(ss).disk, n, digest);
    assert Pending(Last(ss), n) || FileCovered(c, Last(ss), n);
  }

  /** Once nothing is left to be read or touched in such a run, the blob has its gate. */
  lemma CompleteAtRest(c: Config, ss: seq<State>, n: Name, a: ActionResultData, digest: Bytes)
    requires CleanBehaviour(c, ss)
    requires n.Ac? && n in Last(ss).disk.files && Mentions(a, digest)
    requires ParseActionResult(c.merging, Last(ss).disk.files[n]) == Some(a)
    requires var s := Last(ss); s.scan == {} && s.fetched == s.saved == multiset{} && s.jobs == multiset{}
    ensures Last(ss).disk.GateOpen(digest)
  {
    hide Step, Init, Clean, Mentions, ParseActionResult;
    RunGatesAreComplete(c, ss, n, a, digest);
    assert Covered(Last(ss), digest);
  }

  /** A file that is no action result, or none that can be read, leaves the disk and the jobs alone. */
  lemma UnreadableOpensNothing(c: Config, s: State, origin: Origin, n: Name)
    requires n !in s.disk.files || !n.Ac? || ParseActionResult(c.merging, s.disk.files[n]) == None
    ensures var t := Process(c, s, origin, n);
      t == s.(publishing := t.publishing, processed := t.processed)
  {
    FinishLeaves(s, origin, n);
  }

  // ---------- Why gate files have to be created and kept ----------

  const FIRST_HASH: Utf8 := [0x61]
  const SECOND_HASH: Utf8 := [0x62]

  /** An action result that names two blobs. */
  function TwoBlobs(): ActionResultData {
    EMPTY_ACTION_RESULT.(stdoutDigest := Some(EMPTY_DIGEST.(hash := FIRST_HASH)),
                         stderrDigest := Some(EMPTY_DIGEST.(hash := SECOND_HASH)))
  }

  lemma TwoBlobsParse(merging: bool)
    ensures ParseActionResult(merging, EncodeActionResult(TwoBlobs())) == Some(TwoBlobs())
    ensures Listed(TwoBlobs()) == [FIRST_HASH, SECOND_HASH]
  {
    hide EncodeActionResult, ParseActionResult, Serialize, EncodeDigest;
    var a := TwoBlobs();
    assert FileHashes(a.outputFiles) == [];
    N.EmptySizes();
    N.ActionResultSize(a);
    N.ActionResultSize(EMPTY_ACTION_RESULT);
    OneHashSize(FIRST_HASH, 6);
    OneHashSize(SECOND_HASH, 8);
    C.RoundTripExactly(merging, a);
  }

  lemma OneHashSize(hash: Utf8, number: FieldNumber)
    requires |hash| == 1 && number <= 8
    ensures N.SizeOf(DigestField(number, Some(EMPTY_DIGEST.(hash := hash)))) < 100
  {
    hide Serialize, EncodeDigest;
    var d := EMPTY_DIGEST.(hash := hash);
    N.EmptySizes();
    N.DigestSize(d);
    N.DigestSize(EMPTY_DIGEST);
    N.BytesFieldSize(1, hash);
    N.PayloadSize(1, hash);
    N.DigestFieldSize(number, d);
  }

  lemma StepReads(c: Config, s: State, n: Name)
    ensures Step(c, s, ScanReads(n)) == Process(c, s.(scan := s.scan - {n}), FromScan, n)
  {
    hide Process;
  }

  lemma StepTouches(c: Config, s: State, job: Job, ok: bool)
    requires job in s.jobs
    ensures Step(c, s, Touches(job, ok)) == TouchNext(s, job, ok)
  {
    hide TouchNext;
  }

  /** The scan of the action result that names two blobs. */
  lemma ScanTwoBlobs(c: Config, s: State, n: Name)
    requires Init(s) && n.Ac? && s.disk == Disk(map[n := EncodeActionResult(TwoBlobs())], {})
    ensures var content := EncodeActionResult(TwoBlobs());
      var t := Step(c, s, ScanReads(n));
      && t.disk == s.disk && t.scan == {} && t.fetched == t.saved == multiset{}
      && t.jobs == multiset{Job(FromScan, n, content, [FIRST_HASH, SECOND_HASH])}
      && ListedIn(c, t.disk, n) == Some([FIRST_HASH, SECOND_HASH])
  {
    hide EncodeActionResult, ParseActionResult, Listed, Step;
    TwoBlobsParse(c.merging);
    StepReads(c, s, n);
  }

  /**
    A freshly started proxy has this action result in its cache, and the first gate file fails to be created: the
    other is not tried, the error is dropped, and nothing will come to create either of them.
   */
  lemma FailedTouchLeavesIncomplete(c: Config, s: State, n: Name)
    requires Init(s) && n.Ac? && s.disk == Disk(map[n := EncodeActionResult(TwoBlobs())], {})
    ensures var job := Job(FromScan, n, EncodeActionResult(TwoBlobs()), [FIRST_HASH, SECOND_HASH]);
      !Complete(c, Step(c, Step(c, s, ScanReads(n)), Touches(job, false)))
  {
    hide EncodeActionResult, ListedIn, Step, MentionedIn, ReadableIn;
    ScanTwoBlobs(c, s, n);
    var job := Job(FromScan, n, EncodeActionResult(TwoBlobs()), [FIRST_HASH, SECOND_HASH]);
    var t := Step(c, s, ScanReads(n));
    StepTouches(c, t, job, false);
    var r := Step(c, t, Touches(job, false));
    assert r.disk == t.disk && r.jobs == multiset{};
    assert !Covered(r, SECOND_HASH);
    ListedInExactly(c, r.disk, n);
    assert MentionedIn(c, r.disk, n, SECOND_HASH);
    assert n in r.disk.files && !Pending(r, n);
  }

  /** Some action result that was read lists the blob, and no request is about to create its gate. */
  predicate Relied(c: Config, s: State, n: Name, digest: Bytes) {
    && n in s.disk.files && !Pending(s, n)
    && MentionedIn(c, s.disk, n, digest)
    && forall job <- s.jobs :: digest !in job.rest
  }

  /**
    The disk cache keeps track of a gate file only if a request has cached it, or if it was there at the start, and
    touching it changes nothing. Evicting it then loses the gate, and exactly if an action result relies on it the
    folder ends up incomplete.
   */
  lemma EvictedGateExactly(c: Config, s: State, digest: Bytes)
    requires Complete(c, s) && Gate(digest) in s.disk.files
    ensures !Complete(c, Step(c, s, Evicts(Gate(digest)))) <==> exists n <- s.disk.files :: Relied(c, s, n, digest)
  {
    hide Process, TouchNext, Move, PollActive, Insert, Save, Admit, LookUp, Arrive, MentionedIn, Lists;
    var t := Step(c, s, Evicts(Gate(digest)));
    assert t.disk == s.disk.Evict(Gate(digest)) && t.jobs == s.jobs;
    forall n, h | n in t.disk.files
      ensures MentionedIn(c, t.disk, n, h) == MentionedIn(c, s.disk, n, h)
    {
      EvictLeavesOthers(c, s.disk, digest, n, h);
    }
    assert forall h | h != digest :: Covered(s, h) ==> Covered(t, h);
    if n :| n in s.disk.files && Relied(c, s, n, digest) {
      assert n.Ac? by { MentionedByActionResult(c, s.disk, n, digest); }
      assert n in t.disk.files && !Covered(t, digest);
      assert !FileCovered(c, t, n);
    }
    if !Complete(c, t) {
      var n :| n in t.disk.files && !Pending(t, n) && !FileCovered(c, t, n);
      assert FileCovered(c, s, n);
      assert Relied(c, s, n, digest);
    }
  }

  lemma MentionedByActionResult(c: Config, disk: Disk, n: Name, h: Bytes)
    requires MentionedIn(c, disk, n, h)
    ensures n.Ac?
  {
    hide Lists;
  }

  lemma EvictLeavesOthers(c: Config, disk: Disk, digest: Bytes, n: Name, h: Bytes)
    requires n in disk.Evict(Gate(digest)).files
    ensures MentionedIn(c, disk.Evict(Gate(digest)), n, h) == MentionedIn(c, disk, n, h)
  {
    hide Lists;
  }
}
