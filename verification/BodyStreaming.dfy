/**
  Streaming a response body under a timeout. The stream is polled at arbitrary times; each poll sets the deadline the
  next one is held to.
 */
module BodyStreaming {
  import opened Options
  import opened Wire

  const TIMEOUT_MS: nat := 3000

  /** What polling the body reports. */
  datatype BodyAnswer = BodyPending | BodyReady | BodyBreaks

  datatype PollResult = Pending | Yielded(chunk: Bytes) | Ended | TimedOut | Broken

  /** A timer wakes the task only if it has been polled since it was made. */
  datatype Timer = Timer(deadline: nat, registered: bool)

  /** The chunks not yet yielded, the timer, whether the task waits for the body, and when something last arrived. */
  datatype Streamer = Streamer(rest: seq<Bytes>, timer: Option<Timer>, awaitsBody: bool, instant: nat)

  function PollBody(s: Streamer, now: nat, answer: BodyAnswer): (Streamer, PollResult) {
    if s.timer.Some? && s.timer.value.deadline <= now then (s, TimedOut)
    else
      var armed := s.(timer := Some(Timer(now + TIMEOUT_MS, false)), awaitsBody := answer == BodyPending);
      match answer
      case BodyPending => (armed, Pending)
      case BodyBreaks => (armed, Broken)
      case BodyReady =>
        if s.rest == [] then (armed.(instant := now), Ended)
        else (armed.(rest := s.rest[1..], instant := now), Yielded(s.rest[0]))
  }

  /** Whether the task is woken at a time: by its timer, or because the body moved. */
  predicate Woken(s: Streamer, now: nat, moved: bool) {
    || (s.timer.Some? && s.timer.value.registered && s.timer.value.deadline <= now)
    || (s.awaitsBody && moved)
  }

  /** One poll: when it comes, what the body reports, and whether the body had moved since the poll before. */
  datatype PollAt = PollAt(now: nat, answer: BodyAnswer, moved: bool)

  function AfterPolls(s: Streamer, polls: seq<PollAt>): Streamer {
    if polls == [] then s
    else
      var last := polls[|polls| - 1];
      PollBody(AfterPolls(s, polls[..|polls| - 1]), last.now, last.answer).0
  }

  /** What poll number `i` of a schedule reports. */
  function ResultOf(s: Streamer, polls: seq<PollAt>, i: nat): PollResult
    requires i < |polls|
  {
    PollBody(AfterPolls(s, polls[..i]), polls[i].now, polls[i].answer).1
  }

  /** The chunks a schedule of polls yields, in order. */
  function ChunksOf(s: Streamer, polls: seq<PollAt>): seq<Bytes> {
    if polls == [] then []
    else
      var i := |polls| - 1;
      ChunksOf(s, polls[..i])
      + match ResultOf(s, polls, i)
        case Yielded(chunk) => [chunk]
        case _ => []
  }

  /** For every schedule, what was yielded followed by what is left is the body. */
  lemma {:induction false} YieldsPrefix(s: Streamer, polls: seq<PollAt>)
    ensures ChunksOf(s, polls) + AfterPolls(s, polls).rest == s.rest
  {
    if polls != [] {
      var i := |polls| - 1;
      YieldsPrefix(s, polls[..i]);
      var before := AfterPolls(s, polls[..i]);
      if ResultOf(s, polls, i).Yielded? {
        assert before.rest == [before.rest[0]] + before.rest[1..];
      }
    }
  }

  /** After the first poll, the deadline is the one the last poll that did not time out has set. */
  lemma DeadlineIsSet(s: Streamer, polls: seq<PollAt>, i: nat)
    requires i < |polls| && ResultOf(s, polls, i) != TimedOut
    ensures AfterPolls(s, polls[..i + 1]).timer == Some(Timer(polls[i].now + TIMEOUT_MS, false))
  {
    assert polls[..i + 1][..i] == polls[..i];
  }

  /** A poll times out exactly if it comes three seconds or more after an earlier poll that did not. */
  lemma TimesOutExactly(s: Streamer, polls: seq<PollAt>, i: nat)
    requires i + 1 < |polls| && ResultOf(s, polls, i) != TimedOut
    ensures ResultOf(s, polls, i + 1) == TimedOut <==> polls[i].now + 3000 <= polls[i + 1].now
  {
    DeadlineIsSet(s, polls, i);
  }

  lemma PollReports(s: Streamer, now: nat, answer: BodyAnswer)
    requires PollBody(s, now, answer).1 != TimedOut
    ensures PollBody(s, now, answer).1
         == match answer
            case BodyPending => Pending
            case BodyBreaks => Broken
            case BodyReady => if s.rest == [] then Ended else Yielded(s.rest[0])
  {
  }

  /**
    Unless it times out, a poll reports what the body does: pending, broken, the next chunk of the body, or the end
    exactly when all of it has been yielded.
   */
  lemma ResultsExactly(s: Streamer, polls: seq<PollAt>, i: nat)
    requires i < |polls| && ResultOf(s, polls, i) != TimedOut
    ensures var yielded := ChunksOf(s, polls[..i]);
      && yielded <= s.rest
      && ResultOf(s, polls, i)
      == match polls[i].answer
         case BodyPending => Pending
         case BodyBreaks => Broken
         case BodyReady => if yielded == s.rest then Ended else Yielded(s.rest[|yielded|])
  {
    hide ChunksOf, AfterPolls;
    YieldsPrefix(s, polls[..i]);
    PollReports(AfterPolls(s, polls[..i]), polls[i].now, polls[i].answer);
  }

  /** The task is polled again after a pending poll only if it was woken. */
  predicate Driven(s: Streamer, polls: seq<PollAt>) {
    forall i | 0 <= i < |polls| - 1 ::
      ResultOf(s, polls, i) == Pending ==> Woken(AfterPolls(s, polls[..i + 1]), polls[i + 1].now, polls[i + 1].moved)
  }

  /**
    After a pending poll only the body can wake the task, however much time passes: the timer was made in that very
    poll and never polled itself, and the one before it is gone.
   */
  lemma OnlyTheBodyWakes(s: Streamer, polls: seq<PollAt>, i: nat, now: nat, moved: bool)
    requires i < |polls| && ResultOf(s, polls, i) == Pending
    ensures Woken(AfterPolls(s, polls[..i + 1]), now, moved) <==> moved
  {
    assert polls[..i + 1][..i] == polls[..i];
  }

  /** So a timeout after a pending poll is noticed only when the body moves, after all. */
  lemma TimeoutNeedsTheBody(s: Streamer, polls: seq<PollAt>, i: nat)
    requires Driven(s, polls) && i + 1 < |polls|
    requires ResultOf(s, polls, i) == Pending && ResultOf(s, polls, i + 1) == TimedOut
    ensures polls[i + 1].moved && polls[i].now + 3000 <= polls[i + 1].now
  {
    OnlyTheBodyWakes(s, polls, i, polls[i + 1].now, polls[i + 1].moved);
    TimesOutExactly(s, polls, i);
  }

  /** And a body that stalls for good is waited for forever: no poll follows, and there is no timeout. */
  lemma StalledBodyHangs(s: Streamer, polls: seq<PollAt>, i: nat)
    requires Driven(s, polls) && i < |polls| && ResultOf(s, polls, i) == Pending
    requires forall j | i < j < |polls| :: !polls[j].moved
    ensures |polls| == i + 1
  {
    if i + 1 < |polls| {
      OnlyTheBodyWakes(s, polls, i, polls[i + 1].now, polls[i + 1].moved);
    }
  }

  /** In a schedule without timeouts, no two consecutive polls are three seconds apart. */
  lemma GapsAreShort(s: Streamer, polls: seq<PollAt>)
    requires forall i | 0 <= i < |polls| :: ResultOf(s, polls, i) != TimedOut
    ensures forall i | 0 <= i < |polls| - 1 :: polls[i + 1].now < polls[i].now + 3000
  {
    forall i | 0 <= i < |polls| - 1
      ensures polls[i + 1].now < polls[i].now + 3000
    {
      TimesOutExactly(s, polls, i);
    }
  }

  /** A stream that is polled until it ends, without error on the way, has yielded the whole body. */
  lemma EndMeansAll(s: Streamer, polls: seq<PollAt>)
    requires polls != [] && ResultOf(s, polls, |polls| - 1) == Ended
    requires forall i | 0 <= i < |polls| :: ResultOf(s, polls, i) != TimedOut && ResultOf(s, polls, i) != Broken
    ensures ChunksOf(s, polls) == s.rest
  {
    var k := |polls| - 1;
    YieldsPrefix(s, polls);
    YieldsPrefix(s, polls[..k]);
    assert AfterPolls(s, polls[..k]).rest == [];
  }

  class BodyStreamer {
    var body: seq<Bytes>
    var timeoutFuture: Option<Timer>
    var awaitsBody: bool
    var instant: nat

    constructor (body: seq<Bytes>, now: nat)
      ensures View() == Streamer(body, None, false, now)
    {
      this.body, timeoutFuture, awaitsBody, instant := body, None, false, now;
    }

    function View(): Streamer
      reads this
    {
      Streamer(body, timeoutFuture, awaitsBody, instant)
    }

    method Poll(now: nat, answer: BodyAnswer) returns (r: PollResult)
      modifies this
      ensures (View(), r) == PollBody(old(View()), now, answer)
      ensures r.Yielded? ==> old(body) == [r.chunk] + body
      ensures r == Ended ==> body == old(body) == []
      ensures r == Pending ==> forall t, moved :: Woken(View(), t, moved) <==> moved
    {
      if timeoutFuture.Some? {
        if timeoutFuture.value.deadline <= now {
          return TimedOut;
        }
        timeoutFuture := Some(timeoutFuture.value.(registered := true));
      }
      timeoutFuture := Some(Timer(now + TIMEOUT_MS, false));
      awaitsBody := answer == BodyPending;
      match answer {
        case BodyPending => return Pending;
        case BodyBreaks => return Broken;
        case BodyReady =>
      }
      instant := now;
      if body == [] {
        return Ended;
      }
      r, body := Yielded(body[0]), body[1..];
    }
  }
}
