/**
  What a log of observations must look like, told without the state machine: the log alone determines what is on the
  disk, what is queued and how far the uploader has got, and every observation is lawful in the light of what came
  before it. The theorems about whole runs are read off lawful logs.
 */
module Trace {
  import opened Wire
  import opened Protocol
  import Retry

  /** What there was before the first observation. */
  datatype World = World(disk: Disk, at: nat)

  function DiskAfter(w: World, log: Log): Disk {
    if log == [] then w.disk
    else
      var disk := DiskAfter(w, log[..|log| - 1]);
      match log[|log| - 1]
      case Fetched(n, _, _, body) => disk.Insert(n, body)
      case Saved(n, body) => disk.Insert(n, body)
      case Touched(_, _, digest) => disk.Touch(digest)
      case Evicted(n) => disk.Evict(n)
      case _ => disk
  }

  function LastRequest(w: World, log: Log): nat {
    if log == [] then w.at
    else
      match log[|log| - 1]
      case Requested(at) => at
      case _ => LastRequest(w, log[..|log| - 1])
  }

  /** The last time of day that was noted. */
  function Latest(w: World, log: Log): nat {
    if log == [] then w.at
    else
      match log[|log| - 1]
      case Requested(at) => at
      case Looked(at) => at
      case Taken(_, at) => at
      case _ => Latest(w, log[..|log| - 1])
  }

  /** The names ever enqueued, oldest first. */
  function EnqueuedIn(log: Log): seq<Name> {
    if log == [] then []
    else EnqueuedIn(log[..|log| - 1]) + EnqueuedBy(log[|log| - 1])
  }

  function EnqueuedBy(o: Observation): seq<Name> {
    if o.Enqueued? then [o.name] else []
  }

  /** The names ever taken off the queue, oldest first. */
  function DequeuedIn(log: Log): seq<Name> {
    if log == [] then []
    else DequeuedIn(log[..|log| - 1]) + DequeuedBy(log[|log| - 1])
  }

  function DequeuedBy(o: Observation): seq<Name> {
    if o.Taken? then [o.name] else []
  }

  /** How far the uploader has got. */
  datatype Turn =
    | NoTurn
    | SawQuiet
    | Holds(name: Name)
    | Knows(name: Name, open: bool)
    | Uploads(name: Name)
    | Sends(name: Name)

  /** The observations that bring the uploader further. */
  predicate Turns(o: Observation) {
    o.Looked? || o.Taken? || o.Tested? || o.Started? || o.Dropped? || o.UpstreamPut? || o.Finished?
  }

  function TurnBy(o: Observation): Turn
    requires Turns(o)
  {
    match o
    case Looked(_) => SawQuiet
    case Taken(n, _) => Holds(n)
    case Tested(n, open) => Knows(n, open)
    case Started(n, _) => Uploads(n)
    case UpstreamPut(n) => Sends(n)
    case _ => NoTurn
  }

  function TurnAfter(log: Log): Turn {
    if log == [] then NoTurn
    else if Turns(log[|log| - 1]) then TurnBy(log[|log| - 1])
    else TurnAfter(log[..|log| - 1])
  }

  function SavedCount(log: Log, n: Name): nat {
    if log == [] then 0
    else
      SavedCount(log[..|log| - 1], n)
      + if log[|log| - 1].Saved? && log[|log| - 1].name == n then 1 else 0
  }

  function EvictedCount(log: Log, n: Name): nat {
    if log == [] then 0
    else EvictedCount(log[..|log| - 1], n) + if log[|log| - 1] == Evicted(n) then 1 else 0
  }

  function EnqueuedCount(log: Log, n: Name): nat {
    if log == [] then 0
    else EnqueuedCount(log[..|log| - 1], n) + if log[|log| - 1] == Enqueued(n) then 1 else 0
  }

  /** Whether a request for `n` may be uploaded, as far as the gate goes. */
  predicate GateLets(disk: Disk, n: Name) {
    n.Cas? ==> disk.GateOpen(n.digest)
  }

  predicate Lawful(c: Config, w: World, before: Log, o: Observation) {
    (IsAnswered(before) ==> o == Follow(w, before)) && Permitted(c, w, before, o)
  }

  predicate Permitted(c: Config, w: World, before: Log, o: Observation) {
    match o
    case Requested(at) => Latest(w, before) <= at
    case GateSeen(n, open) => n.Cas? && open == DiskAfter(w, before).GateOpen(n.digest)
    case Refused(n) => n.Cas? && !DiskAfter(w, before).Has(n) && GateSeen(n, false) in before
    case Admitted(n) => n.Cas? ==> DiskAfter(w, before).Has(n) || GateSeen(n, true) in before
    case Served(n) => DiskAfter(w, before).Has(n) && Admitted(n) in before
    case UpstreamGet(n) => Admitted(n) in before && (!DiskAfter(w, before).Has(n) || UpstreamGet(n) in before)
    case Fetched(n, status, length, body) =>
      && status == Retry.HTTP_OK && length.Some? && length.value <= c.maximumDownloadSize
      && UpstreamGet(n) in before
    case Saved(n, body) => !DiskAfter(w, before).Has(n)
    case Skipped(n) => DiskAfter(w, before).Has(n)
    case Parsed(n, content) =>
      n.Ac? && Parses(c, content) && n in DiskAfter(w, before).files && DiskAfter(w, before).files[n] == content
    case Touched(n, content, digest) => n.Ac? && Parsed(n, content) in before && Lists(c, content, digest)
    case Evicted(n) => n in DiskAfter(w, before).files
    case Enqueued(n) => EnqueuedCount(before, n) < SavedCount(before, n)
    case Looked(at) =>
      && LastRequest(w, before) + QUIET_MS <= at && Latest(w, before) <= at
      && (TurnAfter(before) == NoTurn || TurnAfter(before) == SawQuiet)
    case Taken(n, at) =>
      && TurnAfter(before) == SawQuiet && Latest(w, before) <= at
      && DequeuedIn(before) + [n] <= EnqueuedIn(before)
    case Tested(n, open) => TurnAfter(before) == Holds(n) && open == GateLets(DiskAfter(w, before), n)
    case Started(n, size) =>
      TurnAfter(before) == Knows(n, true) && size == DiskAfter(w, before).Size(n) && SmallEnough(c, size)
    case Dropped(n, size) =>
      && (TurnAfter(before) == Knows(n, false) || (TurnAfter(before) == Knows(n, true) && !SmallEnough(c, size)))
      && size == DiskAfter(w, before).Size(n)
    case HeadAnswered(n, _) => TurnAfter(before) == Uploads(n)
    case HeadFailed(n) => TurnAfter(before) == Uploads(n)
    case UpstreamPut(n) => TurnAfter(before) == Uploads(n) && IsAnswered(before) && Follow(w, before) == UpstreamPut(n)
    case Finished(n) =>
      TurnAfter(before) == Sends(n) || (TurnAfter(before) == Uploads(n) && IsAnswered(before))
  }

  /** The last thing noted is what became of a HEAD request. */
  predicate IsAnswered(log: Log) {
    log != [] && (log[|log| - 1].HeadAnswered? || log[|log| - 1].HeadFailed?)
  }

  /** Then this comes next: the PUT if the object is absent and the file is still there, else the end. */
  function Follow(w: World, log: Log): Observation
    requires IsAnswered(log)
  {
    var o := log[|log| - 1];
    if o == HeadAnswered(o.name, false) && DiskAfter(w, log).Has(o.name) then UpstreamPut(o.name) else Finished(o.name)
  }

  predicate Audited(c: Config, w: World, log: Log) {
    log == [] || (Audited(c, w, log[..|log| - 1]) && Lawful(c, w, log[..|log| - 1], log[|log| - 1]))
  }

  // ---------- One observation at a time ----------

  lemma Noted(c: Config, w: World, log: Log, o: Observation)
    ensures DiskAfter(w, log + [o])
         == match o
            case Fetched(n, _, _, body) => DiskAfter(w, log).Insert(n, body)
            case Saved(n, body) => DiskAfter(w, log).Insert(n, body)
            case Touched(_, _, digest) => DiskAfter(w, log).Touch(digest)
            case Evicted(n) => DiskAfter(w, log).Evict(n)
            case _ => DiskAfter(w, log)
    ensures LastRequest(w, log + [o]) == if o.Requested? then o.at else LastRequest(w, log)
    ensures Latest(w, log + [o]) == if o.Requested? || o.Looked? || o.Taken? then o.at else Latest(w, log)
    ensures EnqueuedIn(log + [o]) == EnqueuedIn(log) + EnqueuedBy(o)
    ensures DequeuedIn(log + [o]) == DequeuedIn(log) + DequeuedBy(o)
    ensures TurnAfter(log + [o]) == if Turns(o) then TurnBy(o) else TurnAfter(log)
    ensures Audited(c, w, log + [o]) <==> Audited(c, w, log) && Lawful(c, w, log, o)
  {
    hide Lawful, EnqueuedBy, DequeuedBy, TurnBy;
    assert (log + [o])[..|log|] == log;
  }

  lemma NotedCounts(log: Log, o: Observation, n: Name)
    ensures SavedCount(log + [o], n) == SavedCount(log, n) + if o.Saved? && o.name == n then 1 else 0
    ensures EvictedCount(log + [o], n) == EvictedCount(log, n) + if o == Evicted(n) then 1 else 0
    ensures EnqueuedCount(log + [o], n) == EnqueuedCount(log, n) + if o == Enqueued(n) then 1 else 0
  {
    assert (log + [o])[..|log|] == log;
  }

  // ---------- Reading lawful logs ----------

  lemma {:induction false} LawfulAt(c: Config, w: World, log: Log, k: nat)
    requires Audited(c, w, log) && k < |log|
    ensures Audited(c, w, log[..k]) && Lawful(c, w, log[..k], log[k])
  {
    hide Lawful;
    if k < |log| - 1 {
      LawfulAt(c, w, log[..|log| - 1], k);
      assert log[..|log| - 1][..k] == log[..k];
    }
  }

  /** Nothing brought the uploader further between observation `i` and position `k`. */
  predicate Since(log: Log, i: nat, k: nat)
    requires i < k <= |log|
  {
    Turns(log[i]) && forall j | i < j < k :: !Turns(log[j])
  }

  /** The observation that brought the uploader to where it is. */
  lemma {:induction false} TurnBegan(log: Log, k: nat) returns (i: nat)
    requires k <= |log| && TurnAfter(log[..k]) != NoTurn
    ensures i < k && Since(log, i, k) && TurnBy(log[i]) == TurnAfter(log[..k])
    decreases k
  {
    assert log[..k][..k - 1] == log[..k - 1];
    if Turns(log[k - 1]) {
      i := k - 1;
    } else {
      i := TurnBegan(log, k - 1);
    }
  }

  // ---------- Gates ----------

  /** A gate file appears: for an action result that lists the blob, or because a request named the file itself. */
  predicate Opens(c: Config, o: Observation, digest: Bytes) {
    || (o.Touched? && o.digest == digest && o.name.Ac? && Lists(c, o.content, digest))
    || (o.Saved? && o.name == Gate(digest))
    || (o.Fetched? && o.name == Gate(digest))
  }

  /** The gate file was there at the start, for `j == 0`, or appeared with observation `j - 1`. */
  predicate OpenedBefore(c: Config, w: World, log: Log, j: nat, digest: Bytes)
    requires j <= |log|
  {
    if j == 0 then w.disk.GateOpen(digest) else Opens(c, log[j - 1], digest)
  }

  predicate NotEvictedSince(log: Log, j: nat, digest: Bytes)
    requires j <= |log|
  {
    forall k | j <= k < |log| :: log[k] != Evicted(Gate(digest))
  }

  /** The gate file of a blob stands: it appeared at some time and was not evicted since. */
  ghost predicate GateStands(c: Config, w: World, log: Log, digest: Bytes) {
    exists j: nat | j <= |log| :: OpenedBefore(c, w, log, j, digest) && NotEvictedSince(log, j, digest)
  }

  /** How one observation changes which gate files there are. */
  lemma GateChanges(c: Config, w: World, log: Log, digest: Bytes)
    requires Audited(c, w, log) && log != []
    ensures var o := log[|log| - 1];
      DiskAfter(w, log).GateOpen(digest) <==>
        Opens(c, o, digest) || (DiskAfter(w, log[..|log| - 1]).GateOpen(digest) && o != Evicted(Gate(digest)))
  {
    hide Lists;
  }

  /** A gate file is on the disk exactly if it appeared at some time and was not evicted since. */
  lemma {:induction false} GateStandsExactly(c: Config, w: World, log: Log, digest: Bytes)
    requires Audited(c, w, log)
    ensures DiskAfter(w, log).GateOpen(digest) <==> GateStands(c, w, log, digest)
  {
    hide Lawful, Opens;
    if log == [] {
      if DiskAfter(w, log).GateOpen(digest) {
        assert OpenedBefore(c, w, log, 0, digest) && NotEvictedSince(log, 0, digest);
      }
    } else {
      var init, o := log[..|log| - 1], log[|log| - 1];
      GateStandsExactly(c, w, init, digest);
      GateChanges(c, w, log, digest);
      StandingGrows(c, w, log, digest);
    }
  }

  lemma StandingGrows(c: Config, w: World, log: Log, digest: Bytes)
    requires log != []
    requires Opens(c, log[|log| - 1], digest) ==> log[|log| - 1] != Evicted(Gate(digest))
    ensures var init, o := log[..|log| - 1], log[|log| - 1];
      GateStands(c, w, log, digest) <==>
        Opens(c, o, digest) || (GateStands(c, w, init, digest) && o != Evicted(Gate(digest)))
  {
    hide Opens;
    var init, o := log[..|log| - 1], log[|log| - 1];
    if Opens(c, o, digest) {
      assert OpenedBefore(c, w, log, |log|, digest) && NotEvictedSince(log, |log|, digest);
    }
    if GateStands(c, w, init, digest) && o != Evicted(Gate(digest)) {
      var j: nat :| j <= |init| && OpenedBefore(c, w, init, j, digest) && NotEvictedSince(init, j, digest);
      assert OpenedBefore(c, w, log, j, digest) && NotEvictedSince(log, j, digest);
    }
    if GateStands(c, w, log, digest) && !Opens(c, o, digest) {
      var j: nat :| j <= |log| && OpenedBefore(c, w, log, j, digest) && NotEvictedSince(log, j, digest);
      assert j != |log|;
      assert o == log[|init|];
      assert OpenedBefore(c, w, init, j, digest);
      assert NotEvictedSince(init, j, digest) by {
        assert forall k | 0 <= k < |init| :: init[k] == log[k];
      }
    }
  }

  /** The disk cache did not keep track of the gate file at the start, and no request ever named it. */
  ghost predicate NobodyNamesGate(w: World, log: Log, digest: Bytes) {
    Gate(digest) !in w.disk.files && forall o <- log | o.Saved? || o.Fetched? :: o.name != Gate(digest)
  }

  /** Then the gate stands exactly if it stood at the start or an action result opened it, and it is never evicted. */
  lemma {:induction false} PlainGateStandsExactly(c: Config, w: World, log: Log, digest: Bytes)
    requires Audited(c, w, log) && NobodyNamesGate(w, log, digest)
    ensures Gate(digest) !in DiskAfter(w, log).files
    ensures DiskAfter(w, log).GateOpen(digest) <==>
      digest in w.disk.gates || exists j | 0 <= j < |log| :: log[j].Touched? && Opens(c, log[j], digest)
  {
    hide Lists;
    if log != [] {
      var init, o := log[..|log| - 1], log[|log| - 1];
      assert log == init + [o];
      PlainGateStandsExactly(c, w, init, digest);
      assert forall j | 0 <= j < |init| :: init[j] == log[j];
      GateChanges(c, w, log, digest);
      if digest !in w.disk.gates && exists j | 0 <= j < |log| :: log[j].Touched? && Opens(c, log[j], digest) {
        var j :| 0 <= j < |log| && log[j].Touched? && Opens(c, log[j], digest);
        if j < |init| {
          assert init[j].Touched? && Opens(c, init[j], digest);
        }
      }
    }
  }

  // ---------- The uploader ----------

  /**
    The whole history of an upload: look, dequeue, gate test and size test, in this order and without a step of the
    uploader in between. The gate was standing at the gate test.
   */
  ghost predicate UploadOf(c: Config, w: World, log: Log, l: nat, t: nat, g: nat, i: nat, n: Name)
    requires l < t < g < i < |log|
  {
    && log[l].Looked? && Since(log, l, t)
    && log[t].Taken? && log[t].name == n && Since(log, t, g)
    && log[g] == Tested(n, true) && Since(log, g, i)
    && (n.Cas? ==> GateStands(c, w, log[..g], n.digest))
    && log[i].Started? && log[i].name == n && log[i].size.Some? && log[i].size.value <= c.maximumUploadSize
  }

  lemma StartIsLawful(c: Config, w: World, log: Log, i: nat) returns (l: nat, t: nat, g: nat)
    requires Audited(c, w, log) && i < |log| && log[i].Started?
    ensures l < t < g < i && UploadOf(c, w, log, l, t, g, i, log[i].name)
  {
    hide Audited, DiskAfter, GateStands, EnqueuedIn, DequeuedIn, LastRequest, Latest, TurnAfter;
    LawfulAt(c, w, log, i);
    g := TurnBegan(log, i);
    LawfulAt(c, w, log, g);
    t := TurnBegan(log, g);
    LawfulAt(c, w, log, t);
    l := TurnBegan(log, t);
    if log[i].name.Cas? {
      GateStandsExactly(c, w, log[..g], log[i].name.digest);
    }
  }

  /**
    Every upstream PUT was preceded by a HEAD that did not report the object, and before that by the start of this
    very upload, at which the file was small enough and, for a blob, its gate had just been standing.
   */
  lemma UploadJustified(c: Config, w: World, log: Log, k: nat, n: Name) returns (l: nat, t: nat, g: nat, i: nat)
    requires Audited(c, w, log) && k < |log| && log[k] == UpstreamPut(n)
    ensures l < t < g < i < k - 1
    ensures UploadOf(c, w, log, l, t, g, i, n) && Since(log, i, k)
    ensures log[k - 1] == HeadAnswered(n, false)
  {
    hide Audited, DiskAfter, GateStands, UploadOf, TurnAfter;
    LawfulAt(c, w, log, k);
    i := TurnBegan(log, k);
    assert log[k - 1] == log[..k][k - 1];
    l, t, g := StartIsLawful(c, w, log, i);
  }

  /** Whatever was noted after the answer to a HEAD request is what follows from it. */
  lemma AnswersAreFollowed(c: Config, w: World, log: Log, k: nat)
    requires Audited(c, w, log) && k + 1 < |log| && IsAnswered(log[..k + 1])
    ensures log[k + 1] == Follow(w, log[..k + 1])
  {
    hide Audited, DiskAfter, Permitted, Follow;
    LawfulAt(c, w, log, k + 1);
  }

  /**
    The PUT is sent exactly if HEAD has just reported the object absent and the file is still on the disk; nothing else
    comes in between.
   */
  lemma PutsExactly(c: Config, w: World, log: Log, k: nat, n: Name)
    requires Audited(c, w, log) && k + 1 < |log|
    ensures log[k + 1] == UpstreamPut(n) <==> log[k] == HeadAnswered(n, false) && DiskAfter(w, log[..k + 1]).Has(n)
  {
    hide Audited, DiskAfter, TurnAfter;
    LawfulAt(c, w, log, k + 1);
    assert log[..k + 1][k] == log[k];
  }

  /** What follows from the answers to HEAD, in a log that does not end with one. */
  lemma HeadSettles(c: Config, w: World, log: Log, k: nat, n: Name)
    requires Audited(c, w, log) && !IsAnswered(log) && k < |log|
    ensures log[k] == UpstreamPut(n) <==>
      0 < k && log[k - 1] == HeadAnswered(n, false) && DiskAfter(w, log[..k]).Has(n)
    ensures log[k] == HeadAnswered(n, false) ==>
      && k + 1 < |log|
      && log[k + 1] == if DiskAfter(w, log[..k + 1]).Has(n) then UpstreamPut(n) else Finished(n)
    ensures log[k] == HeadAnswered(n, true) || log[k] == HeadFailed(n) ==> k + 1 < |log| && log[k + 1] == Finished(n)
  {
    hide Audited, DiskAfter, Permitted, TurnAfter;
    if 0 < k {
      PutsExactly(c, w, log, k - 1, n);
    } else {
      FirstIsNoPut(c, w, log, n);
    }
    assert log[k] == log[..k + 1][k] && log[..|log|] == log;
    if IsAnswered(log[..k + 1]) {
      AnswersAreFollowed(c, w, log, k);
    }
  }

  lemma FirstIsNoPut(c: Config, w: World, log: Log, n: Name)
    requires Audited(c, w, log) && log != []
    ensures log[0] != UpstreamPut(n)
  {
    hide Audited, DiskAfter;
    LawfulAt(c, w, log, 0);
  }

  /** HEAD has just found the object present, or gave up, or found it absent with the file gone by then. */
  predicate EndsUpload(w: World, log: Log, n: Name) {
    && log != []
    && (|| log[|log| - 1] == HeadAnswered(n, true)
        || log[|log| - 1] == HeadFailed(n)
        || (log[|log| - 1] == HeadAnswered(n, false) && !DiskAfter(w, log).Has(n)))
  }

  /**
    An upload ends after its PUT, or without one, at once after HEAD has settled that there will be none.
   */
  lemma FinishesExactly(c: Config, w: World, log: Log, k: nat) returns (i: nat)
    requires Audited(c, w, log) && k < |log| && log[k].Finished?
    ensures i < k && Since(log, i, k)
    ensures var n := log[k].name;
      || log[i] == UpstreamPut(n)
      || (log[i].Started? && log[i].name == n && EndsUpload(w, log[..k], n))
  {
    hide Audited, DiskAfter, TurnAfter;
    LawfulAt(c, w, log, k);
    i := TurnBegan(log, k);
    assert log[..k][k - 1] == log[k - 1];
  }

  /** Observation `l` is the look at the clock on which the dequeue `k` relies. */
  predicate IsLookOf(log: Log, l: nat, k: nat)
    requires l < k < |log|
  {
    log[l].Looked? && log[k].Taken? && Since(log, l, k)
  }

  lemma LookOf(c: Config, w: World, log: Log, k: nat) returns (l: nat)
    requires Audited(c, w, log) && k < |log| && log[k].Taken?
    ensures l < k && IsLookOf(log, l, k)
  {
    hide Audited, DiskAfter, EnqueuedIn, DequeuedIn, LastRequest, Latest;
    LawfulAt(c, w, log, k);
    l := TurnBegan(log, k);
  }

  /** The times noted never go back. */
  lemma {:induction false} TimesAscend(c: Config, w: World, log: Log, i: nat, k: nat)
    requires Audited(c, w, log) && i < k <= |log| && (log[i].Requested? || log[i].Looked? || log[i].Taken?)
    ensures log[i].at <= Latest(w, log[..k])
    decreases k
  {
    hide DiskAfter, EnqueuedIn, DequeuedIn, TurnAfter, LastRequest;
    assert log[..k][..k - 1] == log[..k - 1];
    if i < k - 1 {
      TimesAscend(c, w, log, i, k - 1);
      LawfulAt(c, w, log, k - 1);
    }
  }

  lemma {:induction false} RequestsAscend(c: Config, w: World, log: Log, i: nat, k: nat)
    requires Audited(c, w, log) && i < k <= |log| && log[i].Requested?
    ensures log[i].at <= LastRequest(w, log[..k])
    decreases k
  {
    hide DiskAfter, EnqueuedIn, DequeuedIn, TurnAfter;
    assert log[..k][..k - 1] == log[..k - 1];
    if i < k - 1 {
      RequestsAscend(c, w, log, i, k - 1);
      if log[k - 1].Requested? {
        LawfulAt(c, w, log, k - 1);
        TimesAscend(c, w, log, i, k - 1);
      }
    }
  }

  /** A look finds the user quiet for ten seconds exactly with respect to the requests that came before it. */
  lemma LookSeparates(c: Config, w: World, log: Log, i: nat, l: nat)
    requires Audited(c, w, log) && i < |log| && l < |log| && log[i].Requested? && log[l].Looked?
    ensures log[i].at + 10000 <= log[l].at <==> i < l
  {
    hide Audited, DiskAfter, EnqueuedIn, DequeuedIn, TurnAfter, LastRequest, Latest;
    if i < l {
      LawfulAt(c, w, log, l);
      RequestsAscend(c, w, log, i, l);
    } else {
      LawfulAt(c, w, log, i);
      TimesAscend(c, w, log, l, i);
    }
  }

  /** What was taken off the queue is, in order, what was put on it first. */
  lemma {:induction false} DequeuedInOrder(c: Config, w: World, log: Log)
    requires Audited(c, w, log)
    ensures DequeuedIn(log) <= EnqueuedIn(log)
  {
    hide Lawful;
    if log != [] {
      var init, o := log[..|log| - 1], log[|log| - 1];
      DequeuedInOrder(c, w, init);
      if o.Taken? {
        TakenInOrder(c, w, init, o);
      }
    }
  }

  lemma TakenInOrder(c: Config, w: World, before: Log, o: Observation)
    requires Lawful(c, w, before, o) && o.Taken?
    ensures DequeuedIn(before) + [o.name] <= EnqueuedIn(before)
  {
    hide DiskAfter, Latest, TurnAfter, DequeuedIn, EnqueuedIn;
  }

  /** No upload starts while another is in progress. */
  lemma OneUploadAtATime(c: Config, w: World, log: Log, i: nat, j: nat)
    requires Audited(c, w, log) && i < j < |log|
    requires log[i].Started? && log[j].Started?
    ensures exists m | i < m < j :: log[m] == Finished(log[i].name)
  {
    hide Audited, DiskAfter, EnqueuedIn, DequeuedIn, LastRequest, Latest;
    LawfulAt(c, w, log, j);
    StartedStaysOpen(c, w, log, i, j);
  }

  lemma {:induction false} StartedStaysOpen(c: Config, w: World, log: Log, i: nat, j: nat)
    requires Audited(c, w, log) && i < j <= |log| && log[i].Started?
    ensures TurnAfter(log[..j]) == Uploads(log[i].name) || TurnAfter(log[..j]) == Sends(log[i].name)
         || exists m | i < m < j :: log[m] == Finished(log[i].name)
    decreases j
  {
    hide Audited, DiskAfter, EnqueuedIn, DequeuedIn, LastRequest, Latest;
    assert log[..j][..j - 1] == log[..j - 1];
    if i < j - 1 {
      StartedStaysOpen(c, w, log, i, j - 1);
      LawfulAt(c, w, log, j - 1);
    }
  }

  /**
    The fate of a dequeued request depends on what happened before its two tests and not on which PUT came first: it is
    uploaded exactly if its gate was standing at the gate test and its file was small enough at the size test.
   */
  lemma DecisionExactly(c: Config, w: World, log: Log, k: nat) returns (g: nat)
    requires Audited(c, w, log) && k < |log| && (log[k].Started? || log[k].Dropped?)
    ensures g < k && log[g].Tested? && log[g].name == log[k].name && Since(log, g, k)
    ensures log[k].Started? <==>
      && (log[k].name.Cas? ==> GateStands(c, w, log[..g], log[k].name.digest))
      && DiskAfter(w, log[..k]).Has(log[k].name)
      && DiskAfter(w, log[..k]).Size(log[k].name).value <= c.maximumUploadSize
  {
    hide Audited, DiskAfter, EnqueuedIn, DequeuedIn, LastRequest, Latest, GateStands, TurnAfter;
    LawfulAt(c, w, log, k);
    g := TurnBegan(log, k);
    LawfulAt(c, w, log, g);
    if log[k].name.Cas? {
      GateStandsExactly(c, w, log[..g], log[k].name.digest);
    }
  }

  // ---------- Residency ----------

  /** Each time a file is saved there was room for it: at most one save more than evictions, none if it was there. */
  lemma {:induction false} SavesAreBounded(c: Config, w: World, log: Log, n: Name)
    requires Audited(c, w, log)
    ensures SavedCount(log, n) + (if w.disk.Has(n) then 1 else 0)
         <= EvictedCount(log, n) + (if DiskAfter(w, log).Has(n) then 1 else 0)
  {
    hide LastRequest, Latest, EnqueuedIn, DequeuedIn, TurnAfter, Lists;
    if log != [] {
      SavesAreBounded(c, w, log[..|log| - 1], n);
    }
  }

  lemma {:induction false} EnqueuesAreBounded(c: Config, w: World, log: Log, n: Name)
    requires Audited(c, w, log)
    ensures EnqueuedCount(log, n) <= SavedCount(log, n)
  {
    hide LastRequest, Latest, EnqueuedIn, DequeuedIn, TurnAfter, Lists, DiskAfter;
    if log != [] {
      EnqueuesAreBounded(c, w, log[..|log| - 1], n);
    }
  }

  /**
    A name is enqueued for upload at most once for each time its file was evicted, plus once if the file was not
    there at the start.
   */
  lemma OneRequestPerResidency(c: Config, w: World, log: Log, n: Name)
    requires Audited(c, w, log)
    ensures EnqueuedCount(log, n) <= EvictedCount(log, n) + (if w.disk.Has(n) then 0 else 1)
  {
    hide Audited, DiskAfter;
    SavesAreBounded(c, w, log, n);
    EnqueuesAreBounded(c, w, log, n);
  }

  // ---------- Fetching ----------

  /** A GET for a blob was admitted at `i`: the blob was here, or its gate was standing a moment before. */
  ghost predicate AdmittedLawfully(c: Config, w: World, log: Log, i: nat, n: Name)
    requires i < |log|
  {
    && log[i] == Admitted(n)
    && (n.Cas? ==>
          || n in DiskAfter(w, log[..i]).files
          || exists g | 0 <= g < i :: log[g] == GateSeen(n, true) && GateStands(c, w, log[..g], n.digest))
  }

  /** Upstream is only asked for a blob that was here or had its gate standing when the GET was admitted. */
  lemma FetchIsGated(c: Config, w: World, log: Log, k: nat, n: Name) returns (i: nat)
    requires Audited(c, w, log) && k < |log| && log[k] == UpstreamGet(n)
    ensures i < k && AdmittedLawfully(c, w, log, i, n)
  {
    hide Audited, DiskAfter, GateStands;
    LawfulAt(c, w, log, k);
    i :| 0 <= i < k && log[..k][i] == Admitted(n);
    LawfulAt(c, w, log, i);
    if n.Cas? && GateSeen(n, true) in log[..i] {
      var g :| 0 <= g < i && log[..i][g] == GateSeen(n, true);
      LawfulAt(c, w, log, g);
      GateStandsExactly(c, w, log[..g], n.digest);
      assert log[g] == GateSeen(n, true);
    }
  }

  /** A cached file was there at the start, or was saved by a PUT, or was fetched from a good answer of right size. */
  ghost predicate HasSource(c: Config, w: World, log: Log, n: Name, content: Bytes) {
    || (n in w.disk.files && w.disk.files[n] == content)
    || Saved(n, content) in log
    || exists i | 0 <= i < |log| ::
         log[i].Fetched? && log[i].name == n && log[i].body == content && log[i].status == 200
         && log[i].length.Some? && log[i].length.value <= c.maximumDownloadSize
  }

  lemma SourceStays(c: Config, w: World, log: Log, o: Observation, n: Name, content: Bytes)
    requires HasSource(c, w, log, n, content)
    ensures HasSource(c, w, log + [o], n, content)
  {
    assert forall i | 0 <= i < |log| :: (log + [o])[i] == log[i];
  }

  lemma {:induction false} FilesHaveSources(c: Config, w: World, log: Log, n: Name)
    requires Audited(c, w, log) && n in DiskAfter(w, log).files
    ensures HasSource(c, w, log, n, DiskAfter(w, log).files[n])
  {
    hide LastRequest, Latest, EnqueuedIn, DequeuedIn, TurnAfter, Lists;
    if log != [] {
      var init, last := log[..|log| - 1], log[|log| - 1];
      var content := DiskAfter(w, log).files[n];
      assert log == init + [last];
      if last == Saved(n, content) {
      } else if last.Fetched? && last.name == n {
        assert last == log[|log| - 1];
      } else {
        FilesHaveSources(c, w, init, n);
        assert DiskAfter(w, init).files[n] == content;
        hide HasSource;
        SourceStays(c, w, init, last, n, content);
      }
    }
  }
}
