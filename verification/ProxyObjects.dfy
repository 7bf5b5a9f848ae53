/** The objects of the client proxy: its handlers, the upload channel and the uploader task. */
module ProxyObjects {
  import opened Options
  import opened Wire
  import opened Protocol
  import opened CacheFolders
  import opened Requests
  import P = UploaderPoll
  import Retry

  /** `State`: the two activity clocks. */
  class SharedState {
    var lastUserFacingRequest: nat
    var lastBackgroundUpload: nat

    constructor (now: nat)
      ensures lastUserFacingRequest == lastBackgroundUpload == now
    {
      lastUserFacingRequest, lastBackgroundUpload := now, now;
    }
  }

  /** The unbounded channel between the handlers and the uploader, and why the uploader's task is not being polled. */
  class UploadChannel {
    var queue: seq<Name>
    var waiting: Waiting

    constructor ()
      ensures queue == [] && waiting == Runnable
    {
      queue, waiting := [], Runnable;
    }

    /** `RequestUpload::upload` */
    method Upload(n: Name)
      modifies this
      ensures forall stage :: Uploader(queue, stage, waiting) == Push(Uploader(old(queue), stage, old(waiting)), n)
    {
      queue := queue + [n];
      if waiting == OnQueue {
        waiting := Runnable;
      }
    }

    /** The receiving half: an empty queue parks the task until the next `Upload`. */
    method Receive() returns (r: Option<Name>)
      modifies this
      ensures if old(queue) == []
              then r == None && waiting == OnQueue && queue == []
              else r == Some(old(queue)[0]) && waiting == Runnable && queue == old(queue)[1..]
    {
      if queue == [] {
        r, waiting := None, OnQueue;
      } else {
        r, queue, waiting := Some(queue[0]), queue[1..], Runnable;
      }
    }
  }

  class BackgroundUploader {
    const config: Config
    const folder: CacheFolder
    const state: SharedState
    const rx: UploadChannel
    /** The active future, or `Idle`. */
    var active: Stage

    constructor (config: Config, folder: CacheFolder, state: SharedState, rx: UploadChannel)
      ensures this.config == config && this.folder == folder && this.state == state && this.rx == rx
      ensures active == Idle
    {
      this.config, this.folder, this.state, this.rx, active := config, folder, state, rx, Idle;
    }

    ghost function Value(): Uploader
      reads this, rx
    {
      Uploader(rx.queue, active, rx.waiting)
    }

    ghost function Sees(now: nat): P.Surroundings
      reads state, folder
    {
      P.Surroundings(config, now, state.lastUserFacingRequest, folder.disk)
    }

    /** `should_upload`: the file is there and small enough. */
    predicate ShouldUpload(n: Name)
      reads folder
    {
      SmallEnough(config, folder.disk.Size(n))
    }

    /** The closure that travels with a request: evaluated when the request is taken off the queue. */
    predicate GateOpen(n: Name)
      reads folder
    {
      n.Cas? ==> folder.disk.Has(Gate(n.digest))
    }

    /**
      Polls the active future. The HEAD request is followed by the PUT in the same poll; errors end the future like
      success does. If it is over, the rest of the call goes on as if there had been none.
     */
    method PollFuture(now: nat, answers: seq<Answer>) returns (ready: bool, rest: seq<Answer>, ghost noted: Log)
      requires IsFuture(active)
      modifies this`active, rx`waiting
      ensures rx.queue == old(rx.queue)
      ensures forall o <- noted :: !o.Started?
      ensures ready ==> active == Idle && P.Rank(active, now) < P.Rank(old(active), now)
      ensures if ready
              then P.Poll(Sees(now), old(Value()), answers)
                == (P.Poll(Sees(now), Value(), rest).0, noted + P.Poll(Sees(now), Value(), rest).1)
              else P.Poll(Sees(now), old(Value()), answers) == (Value(), noted)
      decreases P.Rank(active, now)
    {
      hide P.Poll, Move;
      ghost var e := Sees(now);
      assert Value() == old(Value());
      P.FutureTurn(e, Value(), answers);
      var answer := P.NextAnswer(answers);
      rest, noted, ready := P.Rest(answers), [], true;
      match active {
        case Sleeping(until) =>
          ready := until <= now;
        case Sending(n) =>
          ready := answer == PutAnswered;
          noted := if ready then [Finished(n)] else [];
        case Checking(n) =>
          if answer == HeadAbsent && folder.disk.Has(n) {
            ghost var headed := [HeadAnswered(n, false), UpstreamPut(n)];
            active, rx.waiting := Sending(n), Runnable;
            ready, rest, noted := PollFuture(now, rest);
            ghost var later := P.Poll(e, Value(), rest).1;
            assert headed + (noted + later) == headed + noted + later;
            noted := headed + noted;
            return;
          } else if answer == HeadAbsent || answer == HeadPresent {
            noted := [HeadAnswered(n, answer == HeadPresent), Finished(n)];
          } else if answer == HeadError {
            noted := [HeadFailed(n), Finished(n)];
          } else {
            ready := false;
          }
      }
      if ready {
        active, rx.waiting := Idle, Runnable;
      } else {
        rx.waiting := OnFuture;
      }
    }

    /**
      What `poll` does once no future is active: sleep if the user was active lately, else take a request and start
      its upload if it passes both tests. If it does not park, the caller polls again.
     */
    method TakeTurn(now: nat) returns (parked: bool, ghost noted: Log)
      requires active == Idle
      modifies this`active, rx, state`lastBackgroundUpload
      ensures (Value(), noted) == P.OneTurn(Sees(now), old(Value()))
      ensures parked <==> rx.waiting == OnQueue
      ensures state.lastBackgroundUpload == P.StampedBy(noted, old(state.lastBackgroundUpload), now)
    {
      parked, noted := false, [];
      if now - state.lastUserFacingRequest < QUIET_MS {
        active, rx.waiting := Sleeping(now + SLEEP_MS), Runnable;
        return;
      }
      noted := [Looked(now)];
      var request := rx.Receive();
      if request.None? {
        parked := true;
        P.UnstampedBy(noted, state.lastBackgroundUpload, now);
        return;
      }
      var n := request.value;
      var shouldUpload := true;
      if !GateOpen(n) {
        shouldUpload := false;
      }
      if !ShouldUpload(n) {
        shouldUpload := false;
      }
      noted := [Looked(now), Taken(n, now), Tested(n, GateOpen(n))];
      if shouldUpload {
        state.lastBackgroundUpload := now;
        active := Checking(n);
        noted := noted + [Started(n, folder.disk.Size(n))];
        assert noted[3] in noted;
      } else {
        noted := noted + [Dropped(n, folder.disk.Size(n))];
        P.UnstampedBy(noted, state.lastBackgroundUpload, now);
      }
    }

    /** `Uploader::poll`, at a time at which the clock reads `now`. */
    method Poll(now: nat, answers: seq<Answer>) returns (ghost noted: Log)
      requires active == Idle || IsFuture(active)
      modifies this`active, rx, state`lastBackgroundUpload
      ensures (Value(), noted) == P.Poll(Sees(now), old(Value()), answers)
      ensures active == Idle || IsFuture(active)
      ensures state.lastBackgroundUpload == P.StampedBy(noted, old(state.lastBackgroundUpload), now)
      decreases |rx.queue|, P.Rank(active, now)
    {
      hide P.Poll, P.StampedBy;
      P.UnstampedBy([], state.lastBackgroundUpload, now);
      var rest := answers;
      noted := [];
      if active != Idle {
        var ready;
        ready, rest, noted := PollFuture(now, answers);
        P.UnstampedBy(noted, state.lastBackgroundUpload, now);
        if !ready {
          P.PollParks(Sees(now), old(Value()), answers);
          return;
        }
      }
      P.WholeTurn(Sees(now), Value(), rest);
      var parked;
      ghost var taken, more := [], [];
      parked, taken := TakeTurn(now);
      if !parked {
        more := Poll(now, rest);
      }
      P.StampedTwice(taken, more, old(state.lastBackgroundUpload), now);
      P.StampedTwice(noted, taken + more, old(state.lastBackgroundUpload), now);
      assert taken + [] == taken && [] + (taken + more) == taken + more;
      noted := noted + (taken + more);
    }
  }

  class ClientProxy {
    const config: Config
    const folder: CacheFolder
    const state: SharedState
    const channel: UploadChannel

    constructor (config: Config, folder: CacheFolder, state: SharedState, channel: UploadChannel)
      ensures this.config == config && this.folder == folder && this.state == state && this.channel == channel
    {
      this.config, this.folder, this.state, this.channel := config, folder, state, channel;
    }

    method GetRequest(n: Name, script: Upstream, faults: Faults) returns (reply: Reply, upstreamGets: nat)
      modifies folder
      ensures Outcome(folder.Value(), upstreamGets, reply) == Get(config, old(folder.Value()), n, script, faults)
    {
      hide ProcessFile, ToSet, Retry.FetchFile;
      upstreamGets := 0;
      if n.Cas? {
        var gateFile, alreadyPresent := folder.disk.Has(Gate(n.digest)), folder.disk.Size(n);
        if alreadyPresent.None? && !gateFile {
          reply := NotFound;
          return;
        }
      }
      if folder.disk.Has(n) {
        reply := Content(ContentOf(folder.disk, n));
        return;
      }
      var length;
      length, upstreamGets := folder.FetchFile(config, n, script, faults.insertFails);
      match length {
        case FetchFails => reply := ServerError;
        case FetchPanics => reply := NoReply;
        case NotWanted => reply := NotFound;
        case Stored(_) =>
          var _ := folder.ProcessActionCacheResponse(config, n, faults.failing);
          reply := Content(ContentOf(folder.disk, n));
      }
    }

    method PutRequest(n: Name, body: Option<Bytes>, faults: Faults, ghost stage: Stage) returns (reply: Reply)
      modifies folder, channel
      ensures Handled(folder.Value(), Uploader(channel.queue, stage, channel.waiting), reply)
           == Put(config, old(folder.Value()), Uploader(old(channel.queue), stage, old(channel.waiting)),
                  n, body, faults)
    {
      hide Processed;
      if body.None? {
        reply := NoReply;
        return;
      }
      var saved := folder.SaveFile(n, body.value, faults.insertFails);
      match saved {
        case SavePanics =>
          reply := NoReply;
          return;
        case AlreadyThere =>
        case Inserted =>
          var _ := folder.ProcessActionCacheResponse(config, n, faults.failing);
          channel.Upload(n);
      }
      reply := Created;
    }

    /** The service function: stamp the clock, then dispatch on the method. */
    method Serve(request: Request, now: nat, ghost stage: Stage) returns (reply: Reply)
      modifies folder, channel, state`lastUserFacingRequest
      ensures state.lastUserFacingRequest == now
      ensures request == OtherMethod ==>
        && reply == ServerError && folder.Value() == old(folder.Value())
        && channel.queue == old(channel.queue) && channel.waiting == old(channel.waiting)
      ensures Handled(folder.Value(), Uploader(channel.queue, stage, channel.waiting), reply)
           == Handle(config, old(folder.Value()), Uploader(old(channel.queue), stage, old(channel.waiting)), request)
    {
      hide Processed, Retry.FetchFile, Get, Put;
      state.lastUserFacingRequest := now;
      match request {
        case GetFile(n, script, faults) =>
          var upstreamGets;
          reply, upstreamGets := GetRequest(n, script, faults);
        case PutFile(n, body, faults) => reply := PutRequest(n, body, faults, stage);
        case OtherMethod => reply := ServerError;
      }
    }
  }
}
