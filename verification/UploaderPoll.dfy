/**
  One whole call of the uploader's `poll`, which calls itself until it can park. The clock, the cache folder and the
  gates stand still during the call; `answers` is what the future reports each time it is looked at.
 */
module UploaderPoll {
  import opened Protocol
  import opened Trace

  /** What a call sees and does not change. */
  datatype Surroundings = Surroundings(config: Config, now: nat, last: nat, disk: Disk)

  /** How far the uploader is from parking; ordered after the length of the queue. */
  function Rank(stage: Stage, now: nat): nat {
    match stage
    case Holding(_) => 6
    case Judging(_, _) => 5
    case Checking(_) => 4
    case Sending(_) => 3
    case Sleeping(until) => if until <= now then 3 else 0
    case Idle => 2
    case Quiet => 1
  }

  function NextAnswer(answers: seq<Answer>): Answer {
    if answers == [] then NotReady else answers[0]
  }

  function Rest(answers: seq<Answer>): seq<Answer> {
    if answers == [] then [] else answers[1..]
  }

  function Moved(e: Surroundings, u: Uploader): (Uploader, Log) {
    Move(e.config, e.now, e.last, e.disk, u)
  }

  /** The call: the uploader it leaves behind and what it did. */
  function Poll(e: Surroundings, u: Uploader, answers: seq<Answer>): (Uploader, Log)
    decreases |u.queue|, Rank(u.stage, e.now)
  {
    if IsFuture(u.stage) then
      var (v, noted) := PollActive(e.now, e.disk, u, NextAnswer(answers));
      if v.waiting == OnFuture then (v, noted)
      else
        var (w, more) := Poll(e, v, Rest(answers));
        (w, noted + more)
    else
      var (v, noted) := Moved(e, u);
      if v.waiting == OnQueue then (v, noted)
      else
        var (w, more) := Poll(e, v, answers);
        (w, noted + more)
  }

  /** The same call as steps of the state machine. */
  function PollEvents(e: Surroundings, u: Uploader, answers: seq<Answer>): seq<Event>
    decreases |u.queue|, Rank(u.stage, e.now)
  {
    if IsFuture(u.stage) then
      var v := PollActive(e.now, e.disk, u, NextAnswer(answers)).0;
      [PollFuture(NextAnswer(answers))] + if v.waiting == OnFuture then [] else PollEvents(e, v, Rest(answers))
    else
      var v := Moved(e, u).0;
      [PollMoves] + if v.waiting == OnQueue then [] else PollEvents(e, v, answers)
  }

  /**
    A call always ends, and when it does the task is sure to be woken: it has just seen its future pending, or it has
    just seen the queue empty with no future left. A sleep it waits for is in the future.
   */
  lemma {:induction false} PollParks(e: Surroundings, u: Uploader, answers: seq<Answer>)
    ensures var v := Poll(e, u, answers).0;
      && (v.waiting == OnFuture || v.waiting == OnQueue)
      && (v.waiting == OnFuture ==> IsFuture(v.stage))
      && (v.waiting == OnQueue ==> v.stage == Idle && v.queue == [])
      && (v.stage.Sleeping? ==> e.now < v.stage.until)
    decreases |u.queue|, Rank(u.stage, e.now)
  {
    if IsFuture(u.stage) {
      var v := PollActive(e.now, e.disk, u, NextAnswer(answers)).0;
      if v.waiting != OnFuture {
        PollParks(e, v, Rest(answers));
      }
    } else {
      var v := Moved(e, u).0;
      if v.waiting != OnQueue {
        PollParks(e, v, answers);
      }
    }
  }

  lemma {:induction false} DequeuedConcat(xs: Log, ys: Log)
    ensures DequeuedIn(xs + ys) == DequeuedIn(xs) + DequeuedIn(ys)
  {
    if ys == [] {
      assert xs + ys == xs;
    } else {
      assert (xs + ys)[..|xs + ys| - 1] == xs + ys[..|ys| - 1];
      DequeuedConcat(xs, ys[..|ys| - 1]);
    }
  }

  lemma DequeuedOne(o: Observation)
    ensures DequeuedIn([o]) == DequeuedBy(o)
  {
    assert [o][..0] == [];
  }

  lemma NothingDequeued()
    ensures DequeuedIn([]) == []
  {
  }

  /** Looking at the active future takes nothing off the queue. */
  lemma PollActiveTakesNothing(now: nat, disk: Disk, u: Uploader, answer: Answer)
    ensures var (v, noted) := PollActive(now, disk, u, answer);
      DequeuedIn(noted) == [] && v.queue == u.queue
  {
    hide DequeuedIn;
    assert DequeuedIn([]) == [] by { NothingDequeued(); }
    var (_, noted) := PollActive(now, disk, u, answer);
    if |noted| == 2 {
      assert noted == [noted[0]] + [noted[1]];
      DequeuedConcat([noted[0]], [noted[1]]);
      DequeuedOne(noted[0]);
      DequeuedOne(noted[1]);
    } else if |noted| == 1 {
      assert noted == [noted[0]];
      DequeuedOne(noted[0]);
    }
  }

  /** Moving on takes the first request or none, and none unless the user was found quiet. */
  lemma MoveTakesFirst(e: Surroundings, u: Uploader)
    ensures var (v, noted) := Moved(e, u);
      && DequeuedIn(noted) + v.queue == u.queue
      && (e.now - e.last < QUIET_MS && u.stage != Quiet ==> v.queue == u.queue && v.stage != Quiet)
  {
    var (_, noted) := Moved(e, u);
    if noted != [] {
      assert noted == [noted[0]];
      DequeuedOne(noted[0]);
    }
  }

  /**
    A call takes requests off the front of the queue and loses none. While the user is active it takes none, unless it
    found the user quiet just before.
   */
  lemma {:induction false} PollConserves(e: Surroundings, u: Uploader, answers: seq<Answer>)
    ensures var (v, noted) := Poll(e, u, answers);
      && DequeuedIn(noted) + v.queue == u.queue
      && (e.now - e.last < QUIET_MS && u.stage != Quiet ==> v.queue == u.queue)
    decreases |u.queue|, Rank(u.stage, e.now)
  {
    hide DequeuedIn, PollActive, Moved, Rank;
    TurnsDescend(e, u, NextAnswer(answers));
    if IsFuture(u.stage) {
      var (v, noted) := PollActive(e.now, e.disk, u, NextAnswer(answers));
      PollActiveTakesNothing(e.now, e.disk, u, NextAnswer(answers));
      FutureIsNotQuiet(e.now, e.disk, u, NextAnswer(answers));
      if v.waiting != OnFuture {
        PollConserves(e, v, Rest(answers));
        DequeuedConcat(noted, Poll(e, v, Rest(answers)).1);
      }
    } else {
      var (v, noted) := Moved(e, u);
      MoveTakesFirst(e, u);
      if v.waiting != OnQueue {
        PollConserves(e, v, answers);
        DequeuedConcat(noted, Poll(e, v, answers).1);
        assert DequeuedIn(noted) + v.queue
            == DequeuedIn(noted) + (DequeuedIn(Poll(e, v, answers).1) + Poll(e, v, answers).0.queue);
      }
    }
  }

  /**
    A poll while the user is active sleeps for five seconds, touches no request, and is pending. The next look at the
    clock comes with the first poll after that.
   */
  lemma ActiveUserMeansSleep(e: Surroundings, u: Uploader, answers: seq<Answer>, until: nat)
    requires e.now - e.last < 10000
    ensures u.stage == Idle ==>
      Poll(e, u, answers) == (u.(stage := Sleeping(e.now + 5000), waiting := OnFuture), [])
    ensures u.stage == Sleeping(until) ==>
      Poll(e, u, answers)
      == (u.(stage := Sleeping(if until <= e.now then e.now + 5000 else until), waiting := OnFuture), [])
  {
    if u.stage == Idle {
      IdleSleeps(e, u, answers);
    } else if u.stage == Sleeping(until) {
      hide Poll, PollEvents;
      FutureTurn(e, u, answers);
      if until <= e.now {
        IdleSleeps(e, u.(stage := Idle, waiting := Runnable), Rest(answers));
        assert Poll(e, u, answers).1 == [];
      }
    }
  }

  lemma IdleSleeps(e: Surroundings, u: Uploader, answers: seq<Answer>)
    requires e.now - e.last < 10000 && u.stage == Idle
    ensures Poll(e, u, answers) == (u.(stage := Sleeping(e.now + 5000), waiting := OnFuture), [])
  {
    var slept := u.(stage := Sleeping(e.now + SLEEP_MS), waiting := Runnable);
    hide Poll, PollEvents;
    MovingTurn(e, u, answers);
    FutureTurn(e, slept, answers);
    assert Poll(e, slept, answers) == (slept.(waiting := OnFuture), []);
    assert Poll(e, u, answers).1 == [];
  }

  lemma FutureIsNotQuiet(now: nat, disk: Disk, u: Uploader, answer: Answer)
    requires IsFuture(u.stage)
    ensures PollActive(now, disk, u, answer).0.stage != Quiet
  {
  }

  // ---------- A call is a run ----------

  predicate Sees(e: Surroundings, c: Config, s: State) {
    e == Surroundings(c, s.now, s.lastUserFacingRequest, s.disk)
  }

  /** The upload clock is stamped exactly when an upload is started. */
  function StampedBy(noted: Log, before: nat, now: nat): nat {
    if exists o <- noted :: o.Started? then now else before
  }

  lemma UnstampedBy(noted: Log, before: nat, now: nat)
    requires forall o <- noted :: !o.Started?
    ensures StampedBy(noted, before, now) == before
  {
  }

  lemma StampedTwice(noted: Log, more: Log, before: nat, now: nat)
    ensures StampedBy(noted + more, before, now) == StampedBy(more, StampedBy(noted, before, now), now)
  {
    if o :| o in noted && o.Started? {
      assert o in noted + more;
    } else if o :| o in more && o.Started? {
      assert o in noted + more;
    }
  }

  /** What a run of the uploader alone, started in `s`, leaves behind. */
  predicate OnlyUploaderMoved(s: State, t: State, u: Uploader, noted: Log) {
    t == s.(uploader := u, log := s.log + noted,
            lastBackgroundUpload := StampedBy(noted, s.lastBackgroundUpload, s.now))
  }

  lemma PollFutureStep(c: Config, s: State, e: Surroundings, answer: Answer)
    requires Sees(e, c, s)
    ensures var (u, noted) := PollActive(e.now, e.disk, s.uploader, answer);
      OnlyUploaderMoved(s, Step(c, s, PollFuture(answer)), u, noted)
  {
    hide Move, Process, Insert, Save, LookUp, Admit, Push;
  }

  lemma PollMovesStep(c: Config, s: State, e: Surroundings)
    requires Sees(e, c, s)
    ensures var (u, noted) := Moved(e, s.uploader);
      OnlyUploaderMoved(s, Step(c, s, PollMoves), u, noted)
  {
    var (u, noted) := Moved(e, s.uploader);
    if s.uploader.stage.Judging? && u.stage.Checking? {
      assert noted[0] in noted && noted[0].Started?;
    }
    hide PollActive, Process, Insert, Save, LookUp, Admit, Push;
  }

  /** How far each turn of a call brings it; the measure of its recursion. */
  lemma TurnsDescend(e: Surroundings, u: Uploader, answer: Answer)
    ensures IsFuture(u.stage) ==>
      var v := PollActive(e.now, e.disk, u, answer).0;
      v.waiting != OnFuture ==> |v.queue| == |u.queue| && Rank(v.stage, e.now) < Rank(u.stage, e.now)
    ensures !IsFuture(u.stage) ==>
      var v := Moved(e, u).0;
      v.waiting != OnQueue ==>
        || |v.queue| < |u.queue|
        || (|v.queue| == |u.queue| && Rank(v.stage, e.now) < Rank(u.stage, e.now))
  {
  }

  lemma {:induction false} FutureTurn(e: Surroundings, u: Uploader, answers: seq<Answer>)
    requires IsFuture(u.stage)
    ensures var (v, noted) := PollActive(e.now, e.disk, u, NextAnswer(answers));
      if v.waiting == OnFuture then
        && Poll(e, u, answers) == (v, noted)
        && PollEvents(e, u, answers) == [PollFuture(NextAnswer(answers))] + []
      else
        && Poll(e, u, answers) == (Poll(e, v, Rest(answers)).0, noted + Poll(e, v, Rest(answers)).1)
        && PollEvents(e, u, answers) == [PollFuture(NextAnswer(answers))] + PollEvents(e, v, Rest(answers))
  {
    hide PollActive, Moved;
  }

  lemma {:induction false} MovingTurn(e: Surroundings, u: Uploader, answers: seq<Answer>)
    requires !IsFuture(u.stage)
    ensures var (v, noted) := Moved(e, u);
      if v.waiting == OnQueue then
        && Poll(e, u, answers) == (v, noted)
        && PollEvents(e, u, answers) == [PollMoves] + []
      else
        && Poll(e, u, answers) == (Poll(e, v, answers).0, noted + Poll(e, v, answers).1)
        && PollEvents(e, u, answers) == [PollMoves] + PollEvents(e, v, answers)
  {
    hide PollActive, Moved;
  }

  lemma MovedTwice(s: State, t: State, r: State, u: Uploader, v: Uploader, noted: Log, more: Log)
    requires OnlyUploaderMoved(s, t, u, noted) && OnlyUploaderMoved(t, r, v, more)
    ensures OnlyUploaderMoved(s, r, v, noted + more)
  {
    StampedTwice(noted, more, s.lastBackgroundUpload, s.now);
    assert s.log + noted + more == s.log + (noted + more);
  }

  /** A call is a run of the state machine that touches nothing but the uploader, its clock and the log. */
  lemma {:induction false} PollIsRun(c: Config, s: State, e: Surroundings, answers: seq<Answer>)
    requires Sees(e, c, s)
    ensures var (u, noted) := Poll(e, s.uploader, answers);
      OnlyUploaderMoved(s, Run(c, s, PollEvents(e, s.uploader, answers)), u, noted)
    decreases |s.uploader.queue|, Rank(s.uploader.stage, e.now)
  {
    hide PollActive, Moved, Step, Rank, Run, Poll, PollEvents, StampedBy;
    var u := s.uploader;
    TurnsDescend(e, u, NextAnswer(answers));
    if IsFuture(u.stage) {
      var answer := NextAnswer(answers);
      var (v, noted) := PollActive(e.now, e.disk, u, answer);
      var t := Step(c, s, PollFuture(answer));
      FutureTurn(e, u, answers);
      PollFutureStep(c, s, e, answer);
      if v.waiting == OnFuture {
        RunFirst(c, s, PollFuture(answer), []);
        RunNothing(c, t);
      } else {
        var more := PollEvents(e, v, Rest(answers));
        RunFirst(c, s, PollFuture(answer), more);
        PollIsRun(c, t, e, Rest(answers));
        MovedTwice(s, t, Run(c, t, more), v, Poll(e, v, Rest(answers)).0, noted, Poll(e, v, Rest(answers)).1);
      }
    } else {
      var (v, noted) := Moved(e, u);
      var t := Step(c, s, PollMoves);
      MovingTurn(e, u, answers);
      PollMovesStep(c, s, e);
      if v.waiting == OnQueue {
        RunFirst(c, s, PollMoves, []);
        RunNothing(c, t);
      } else {
        var more := PollEvents(e, v, answers);
        RunFirst(c, s, PollMoves, more);
        PollIsRun(c, t, e, answers);
        MovedTwice(s, t, Run(c, t, more), v, Poll(e, v, answers).0, noted, Poll(e, v, answers).1);
      }
    }
  }

  // ---------- One turn at the queue ----------

  /** From the look at the clock to the decision on one request, in a call that nothing comes into. */
  function OneTurn(e: Surroundings, u: Uploader): (Uploader, Log) {
    if e.now - e.last < QUIET_MS then (u.(stage := Sleeping(e.now + SLEEP_MS), waiting := Runnable), [])
    else if u.queue == [] then (u.(stage := Idle, waiting := OnQueue), [Looked(e.now)])
    else
      var n, rest := u.queue[0], u.queue[1..];
      var open, size := GateLets(e.disk, n), e.disk.Size(n);
      var noted := [Looked(e.now), Taken(n, e.now), Tested(n, open)];
      if open && SmallEnough(e.config, size)
      then (Uploader(rest, Checking(n), Runnable), noted + [Started(n, size)])
      else (Uploader(rest, Idle, Runnable), noted + [Dropped(n, size)])
  }

  lemma {:induction false} WholeTurn(e: Surroundings, u: Uploader, answers: seq<Answer>)
    requires u.stage == Idle
    ensures var (v, noted) := OneTurn(e, u);
      if v.waiting == OnQueue then Poll(e, u, answers) == (v, noted)
      else Poll(e, u, answers) == (Poll(e, v, answers).0, noted + Poll(e, v, answers).1)
  {
    hide Poll, PollEvents, PollActive;
    MovingTurn(e, u, answers);
    if e.now - e.last >= QUIET_MS {
      var u1 := u.(stage := Quiet, waiting := Runnable);
      MovingTurn(e, u1, answers);
      if u.queue == [] {
        assert [Looked(e.now)] + [] == [Looked(e.now)];
      } else {
        var n := u.queue[0];
        var u2 := Uploader(u.queue[1..], Holding(n), Runnable);
        var u3 := u2.(stage := Judging(n, GateLets(e.disk, n)));
        MovingTurn(e, u2, answers);
        MovingTurn(e, u3, answers);
        var (v, decided) := Moved(e, u3);
        var more := Poll(e, v, answers).1;
        assert [Looked(e.now)] + ([Taken(n, e.now)] + ([Tested(n, GateLets(e.disk, n))] + (decided + more)))
            == [Looked(e.now), Taken(n, e.now), Tested(n, GateLets(e.disk, n))] + decided + more;
      }
    }
  }
}
