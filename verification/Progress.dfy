/** While the user is quiet and futures are answered, the upload queue empties, and within how many polls. */
module Progress {
  import opened Messages
  import opened Protocol

  /** How many steps the request at hand can still take. */
  function StageWork(stage: Stage): nat {
    match stage
    case Idle => 0
    case Quiet => 0
    case Sleeping(_) => 1
    case Holding(_) => 4
    case Judging(_, _) => 3
    case Checking(_) => 2
    case Sending(_) => 1
  }

  /** How many steps it can take until nothing is queued and nothing is at hand. A look at the clock is not wasted. */
  function Work(u: Uploader): nat {
    6 * |u.queue| + StageWork(u.stage) - if u.stage == Quiet && u.queue != [] then 1 else 0
  }

  /** Nothing is queued, and the uploader is at the top of its loop. */
  predicate Drained(u: Uploader) {
    u.queue == [] && (u.stage == Idle || u.stage == Quiet)
  }

  predicate UserQuiet(s: State) {
    s.lastUserFacingRequest + QUIET_MS <= s.now
  }

  predicate ComesFromUser(e: Event) {
    e.OtherArrives? || e.GetArrives? || e.PutArrives?
  }

  /** The active future has what it waits for: its time has come, or its request was answered or has failed. */
  predicate Answered(s: State, answer: Answer) {
    match s.uploader.stage
    case Sleeping(until) => until <= s.now
    case Checking(_) => answer == HeadPresent || answer == HeadAbsent || answer == HeadError
    case Sending(_) => answer == PutAnswered
    case _ => false
  }

  /** A step of the uploader that finds the active future answered, or finds none. */
  predicate Advances(s: State, e: Event) {
    match e
    case PollFuture(answer) => Answered(s, answer)
    case PollMoves => !IsFuture(s.uploader.stage)
    case _ => false
  }

  function AdvancesIn(c: Config, s: State, es: seq<Event>): nat {
    if es == [] then 0
    else
      var init, last := es[..|es| - 1], es[|es| - 1];
      AdvancesIn(c, s, init) + if Advances(Run(c, s, init), last) then 1 else 0
  }

  function EnqueuesIn(es: seq<Event>): nat {
    if es == [] then 0 else EnqueuesIn(es[..|es| - 1]) + if es[|es| - 1].PutEnqueues? then 1 else 0
  }

  lemma FutureAdvances(c: Config, s: State, answer: Answer)
    ensures var t := Step(c, s, PollFuture(answer));
      if Advances(s, PollFuture(answer)) then Work(t.uploader) < Work(s.uploader)
      else Work(t.uploader) == Work(s.uploader)
    ensures UserQuiet(s) ==> UserQuiet(Step(c, s, PollFuture(answer)))
  {
    hide Move, Process, Insert, Save, LookUp, Admit, Arrive, Push, Stamp;
  }

  lemma MoveAdvances(c: Config, s: State)
    requires UserQuiet(s)
    ensures var t := Step(c, s, PollMoves);
      if Drained(s.uploader) || IsFuture(s.uploader.stage) then Work(t.uploader) == Work(s.uploader)
      else Work(t.uploader) < Work(s.uploader)
    ensures UserQuiet(Step(c, s, PollMoves))
  {
    hide PollActive, Process, Insert, Save, LookUp, Admit, Arrive, Push, Stamp, SmallEnough;
  }

  lemma ProcessLeavesUploader(c: Config, s: State, origin: Origin, n: Name)
    ensures var t := Process(c, s, origin, n);
      t.now == s.now && t.lastUserFacingRequest == s.lastUserFacingRequest && t.uploader == s.uploader
  {
    hide ParseActionResult, Listed;
  }

  lemma TouchLeavesUploader(s: State, job: Job, ok: bool)
    ensures var t := TouchNext(s, job, ok);
      t.now == s.now && t.lastUserFacingRequest == s.lastUserFacingRequest && t.uploader == s.uploader
  {
  }

  lemma OtherStepsLeaveUploader(c: Config, s: State, e: Event)
    requires !ComesFromUser(e) && !e.PollFuture? && !e.PollMoves?
    ensures var t := Step(c, s, e);
      && s.now <= t.now && t.lastUserFacingRequest == s.lastUserFacingRequest
      && t.uploader == (if e.PutEnqueues? && e.name in s.processed then Push(s.uploader, e.name) else s.uploader)
  {
    hide PollActive, Move, Process, TouchNext, Push, Stamp, Less, More;
    match e
    case ScanReads(n) => ProcessLeavesUploader(c, s.(scan := s.scan - {n}), FromScan, n);
    case GetReads(n) => ProcessLeavesUploader(c, s.(fetched := Less(s.fetched, n)), FromGet, n);
    case PutReads(n) =>
      ProcessLeavesUploader(c, s.(saved := Less(s.saved, n), publishing := More(s.publishing, n)), FromPut, n);
    case Touches(job, ok) => TouchLeavesUploader(s, job, ok);
    case _ =>
  }

  /** What one step does to the work that is left; a request that is enqueued adds six steps. */
  lemma StepWorks(c: Config, s: State, e: Event)
    requires UserQuiet(s) && !ComesFromUser(e)
    ensures var t := Step(c, s, e);
      && UserQuiet(t)
      && Work(t.uploader) <= Work(s.uploader) + (if e.PutEnqueues? then 6 else 0)
      && (Advances(s, e) ==> Drained(s.uploader) || Work(t.uploader) < Work(s.uploader))
  {
    hide Step, PollActive;
    match e
    case PollFuture(answer) => FutureAdvances(c, s, answer);
    case PollMoves => MoveAdvances(c, s);
    case _ => OtherStepsLeaveUploader(c, s, e);
  }

  lemma {:induction false} WorkBound(c: Config, s: State, es: seq<Event>)
    requires UserQuiet(s) && forall e <- es :: !ComesFromUser(e)
    ensures UserQuiet(Run(c, s, es))
    ensures || (exists k | 0 <= k <= |es| :: Drained(Run(c, s, es[..k]).uploader))
            || Work(Run(c, s, es).uploader) + AdvancesIn(c, s, es) <= Work(s.uploader) + 6 * EnqueuesIn(es)
  {
    hide Step, Work, Drained, Advances, ComesFromUser;
    if es != [] {
      var init, last := es[..|es| - 1], es[|es| - 1];
      WorkBound(c, s, init);
      StepWorks(c, Run(c, s, init), last);
      assert es[..|init|] == init;
      if k :| 0 <= k <= |init| && Drained(Run(c, s, init[..k]).uploader) {
        assert es[..k] == init[..k];
      }
    }
  }

  /**
    From any state in which the user has been quiet for ten seconds, and for as long as no new request arrives: once
    the uploader has taken as many steps as six for each queued request, four for the request at hand and six for each
    request that is enqueued late, there was a moment at which nothing was queued and nothing was at hand. A poll that
    finds its future unanswered does not count as a step.
   */
  lemma QueueDrains(c: Config, s: State, es: seq<Event>)
    requires UserQuiet(s) && forall e <- es :: !ComesFromUser(e)
    requires 6 * |s.uploader.queue| + 4 + 6 * EnqueuesIn(es) <= AdvancesIn(c, s, es)
    ensures exists k | 0 <= k <= |es| :: Drained(Run(c, s, es[..k]).uploader)
  {
    hide Step, Advances, ComesFromUser;
    WorkBound(c, s, es);
    assert es[..|es|] == es;
    if Work(Run(c, s, es).uploader) == 0 {
      assert Drained(Run(c, s, es[..|es|]).uploader);
    }
  }

  /** If nothing is enqueued late either, the uploader stays drained. */
  lemma {:induction false} QueueStaysDrained(c: Config, s: State, es: seq<Event>)
    requires UserQuiet(s) && forall e <- es :: !ComesFromUser(e) && !e.PutEnqueues?
    ensures UserQuiet(Run(c, s, es))
    ensures AdvancesIn(c, s, es) <= Work(s.uploader) ==>
      Work(Run(c, s, es).uploader) <= Work(s.uploader) - AdvancesIn(c, s, es)
    ensures Work(s.uploader) <= AdvancesIn(c, s, es) ==> Drained(Run(c, s, es).uploader)
  {
    hide Step, Advances, ComesFromUser;
    if es != [] {
      var init, last := es[..|es| - 1], es[|es| - 1];
      QueueStaysDrained(c, s, init);
      StepWorks(c, Run(c, s, init), last);
    }
  }
}
