/** The cache folder: cached files, the gate files beside them, and the operations that create either. */
module CacheFolders {
  import opened Options
  import opened Wire
  import opened Messages
  import opened Streams
  import opened ActionResultObjects
  import opened Protocol
  import Retry

  /** The hashes of the first output files come first, and that of the next one follows them. */
  lemma {:induction false} FileHashesPrefix(fs: seq<OutputFileData>, i: nat)
    requires i <= |fs|
    ensures FileHashes(fs[..i]) <= FileHashes(fs)
    ensures i < |fs| ==> FileHashes(fs[..i + 1]) == FileHashes(fs[..i]) + HashOf(fs[i].digest)
    ensures i < |fs| && fs[i].digest.Some? ==> FileHashes(fs[..i]) + [fs[i].digest.value.hash] <= FileHashes(fs)
    decreases |fs| - i
  {
    if i == |fs| {
      assert fs[..i] == fs;
    } else {
      assert fs[..i + 1][..i] == fs[..i];
      FileHashesPrefix(fs, i + 1);
    }
  }

  lemma TouchEachSnoc(disk: Disk, hashes: seq<Bytes>, h: Bytes)
    ensures disk.TouchEach(ToSet(hashes + [h])) == disk.TouchEach(ToSet(hashes)).Touch(h)
  {
  }

  lemma NothingTouched(disk: Disk)
    ensures disk.TouchEach(ToSet([])) == disk && FileHashes([]) == []
  {
  }

  // ---------- Processing in one go ----------

  datatype Processing = Processing(ok: bool, touched: seq<Bytes>)

  /** Which gates are created if the touch with index `failing` fails, or none does. */
  function TouchAll(hashes: seq<Bytes>, failing: Option<nat>): Processing {
    if failing.Some? && failing.value < |hashes| then Processing(false, hashes[..failing.value])
    else Processing(true, hashes)
  }

  /** `process_action_cache_response`: the gate files it touches and whether it succeeds. */
  function ProcessFile(c: Config, disk: Disk, n: Name, failing: Option<nat>): Processing {
    if !n.Ac? then Processing(true, [])
    else
      match ListedIn(c, disk, n)
      case None => Processing(false, [])
      case Some(listed) => TouchAll(listed, failing)
  }

  /** What processing leaves of the disk. */
  function Processed(c: Config, disk: Disk, n: Name, failing: Option<nat>): Disk {
    disk.TouchEach(ToSet(ProcessFile(c, disk, n, failing).touched))
  }

  /**
    If a gate file cannot be created, the rest are not tried and the error is dropped. The gates of the action result
    then all stand exactly if those not tried were there already or are listed a second time, earlier on.
   */
  lemma FailedTouchExactly(c: Config, disk: Disk, n: Name, a: ActionResultData, failing: nat)
    requires n.Ac? && n in disk.files && ParseActionResult(c.merging, disk.files[n]) == Some(a)
    requires failing < |Listed(a)|
    ensures (forall h | Mentions(a, h) :: Processed(c, disk, n, Some(failing)).GateOpen(h)) <==>
      forall h <- Listed(a)[failing..] :: disk.GateOpen(h) || h in Listed(a)[..failing]
  {
    var listed := Listed(a);
    var after := Processed(c, disk, n, Some(failing));
    hide ParseActionResult, Listed, Mentions;
    assert after == disk.TouchEach(ToSet(listed[..failing]));
    assert listed == listed[..failing] + listed[failing..];
    assert forall h :: h in listed <==> h in listed[..failing] || h in listed[failing..];
    assert forall h :: after.GateOpen(h) <==> disk.GateOpen(h) || h in listed[..failing];
    forall h
      ensures h in listed <==> Mentions(a, h)
    {
      ListedExactly(a, h);
    }
  }

  /**
    Processing a file opens the gates of exactly what it mentions, if every gate file can be created, and it succeeds
    exactly if the file is an action result that can be read, or is none at all.
   */
  lemma ProcessedExactly(c: Config, disk: Disk, n: Name)
    ensures ProcessFile(c, disk, n, None).ok <==> !n.Ac? || ReadableIn(c, disk, n)
    ensures Processed(c, disk, n, None).files == disk.files
    ensures forall h ::
      Processed(c, disk, n, None).GateOpen(h) <==> disk.GateOpen(h) || MentionedIn(c, disk, n, h)
  {
    hide ListedIn, ParseActionResult, Mentions;
    ListedInExactly(c, disk, n);
    var touched := ProcessFile(c, disk, n, None).touched;
    assert forall h :: h in touched <==> MentionedIn(c, disk, n, h);
    hide ProcessFile;
    assert forall h :: h in ToSet(touched) <==> h in touched;
  }

  lemma ReadIsActionResult(c: Config, disk: Disk, n: Name)
    requires ListedIn(c, disk, n).Some?
    ensures n.Ac? && n in disk.files
  {
    hide ParseActionResult, Listed;
  }

  // ---------- The object ----------

  datatype SaveResult = Inserted | AlreadyThere | SavePanics

  datatype FetchResult = Stored(size: nat) | NotWanted | FetchFails | FetchPanics

  /** What the folder holds, and whether a panic has poisoned the lock that every insertion takes. */
  datatype Folder = Folder(disk: Disk, poisoned: bool)

  class CacheFolder {
    var disk: Disk
    var poisoned: bool

    constructor (disk: Disk)
      ensures Value() == Folder(disk, false)
    {
      this.disk, poisoned := disk, false;
    }

    function Value(): Folder
      reads this
    {
      Folder(disk, poisoned)
    }

    /** Creates a gate file, or leaves the file that is there as it is. */
    method Touch(hash: Bytes, fails: bool) returns (ok: bool)
      modifies this`disk
      ensures ok == !fails && disk == if ok then old(disk).Touch(hash) else old(disk)
    {
      ok := !fails;
      if ok && !disk.Has(Gate(hash)) {
        disk := disk.(gates := disk.gates + {hash});
      }
    }

    /** The touch for one digest, if it is there: the next in a row of touches of which `failing` may fail. */
    method TouchDigest(d: Digest?, failing: Option<nat>, ghost start: Disk, ghost done: seq<Bytes>, made: nat)
      returns (ok: bool, made': nat)
      requires made == |done| && disk == start.TouchEach(ToSet(done))
      requires failing.Some? ==> made <= failing.value
      modifies this`disk
      ensures ok <==> !(d != null && failing == Some(made))
      ensures var next := done + HashOf(ValueOf(d));
        if ok
        then made' == |next| && disk == start.TouchEach(ToSet(next)) && (failing.Some? ==> made' <= failing.value)
        else disk == old(disk)
    {
      hide ToSet;
      ok, made' := true, made;
      if d != null {
        ok := Touch(d.hash, failing == Some(made));
        made' := made + 1;
        TouchEachSnoc(start, done, d.hash);
      } else {
        assert done + [] == done;
      }
    }

    /**
      Reads a cached action result and creates the gate of every blob it names. `failing` is which of the gate files,
      if any, cannot be created. Cached blobs are not looked at.
     */
    method ProcessActionCacheResponse(config: Config, n: Name, failing: Option<nat>) returns (ok: bool)
      modifies this`disk
      ensures ok == ProcessFile(config, old(disk), n, failing).ok
      ensures disk == Processed(config, old(disk), n, failing)
      ensures failing == None ==>
        && (ok <==> !n.Ac? || ReadableIn(config, old(disk), n))
        && forall h :: disk.GateOpen(h) <==> old(disk).GateOpen(h) || MentionedIn(config, old(disk), n, h)
    {
      ProcessedExactly(config, disk, n);
      hide Merge, FileValues, DirectoryValues, FileDigests, DirectoryDigests, ActionResult.Digests, FileHashes, ToSet;
      hide Disk.TouchEach, TouchAll, ActionResultReader, Listed;
      NothingTouched(disk);
      ok := !n.Ac?;
      if ok || n !in disk.files {
        return;
      }
      var s := new ActionResult();
      var cis := new CodedInputStream(disk.files[n], config.merging);
      assert s.Value() == EMPTY_ACTION_RESULT;
      ok := s.MergeFrom(cis);
      if !ok {
        return;
      }
      ok := TouchListed(s, failing);
    }

    /** The touches for the output files, in order. */
    method TouchFiles(fs: seq<OutputFile>, failing: Option<nat>) returns (ok: bool, made: nat)
      modifies this`disk
      ensures var p := TouchAll(FileHashes(old(FileValues(fs))), failing);
        ok == p.ok && disk == old(disk).TouchEach(ToSet(p.touched)) && (ok ==> made == |p.touched|)
    {
      hide FileValues, FileDigests, FileHashes, ToSet;
      ghost var vs, start := FileValues(fs), disk;
      var i := 0;
      ghost var done := [];
      NothingTouched(disk);
      ok, made := true, 0;
      while i < |fs|
        invariant FileValues(fs) == vs && i <= |fs|
        invariant ok && done == FileHashes(vs[..i]) && made == |done| && disk == start.TouchEach(ToSet(done))
        invariant failing.Some? ==> made <= failing.value
      {
        FileHashesPrefix(vs, i);
        var d := fs[i].digest;
        assert vs[i].digest == ValueOf(d);
        ok, made := TouchDigest(d, failing, start, done, made);
        assert FileValues(fs) == vs;
        if !ok {
          StoppedShort(FileHashes(vs), failing.value, done);
          return;
        }
        done := done + HashOf(vs[i].digest);
        i := i + 1;
      }
      assert vs[..i] == vs;
    }

    /** The touches for the digests of an action result: output files in order, then stdout and stderr. */
    method TouchListed(s: ActionResult, failing: Option<nat>) returns (ok: bool)
      modifies this`disk
      ensures var p := TouchAll(Listed(old(s.Value())), failing);
        ok == p.ok && disk == old(disk).TouchEach(ToSet(p.touched))
    {
      hide FileValues, DirectoryValues, FileDigests, DirectoryDigests, ActionResult.Digests, FileHashes, ToSet;
      hide Disk.TouchEach;
      ghost var v, start := s.Value(), disk;
      ghost var done := FileHashes(v.outputFiles);
      var made: nat;
      ok, made := TouchFiles(s.outputFiles, failing);
      assert s.Value() == v;
      if !ok {
        StoppedShort(Listed(v), failing.value, done[..failing.value]);
        return;
      }
      ok, made := TouchDigest(s.stdoutDigest, failing, start, done, made);
      assert s.Value() == v;
      if !ok {
        StoppedShort(Listed(v), failing.value, done);
        return;
      }
      done := done + HashOf(v.stdoutDigest);
      ok, made := TouchDigest(s.stderrDigest, failing, start, done, made);
      if !ok {
        StoppedShort(Listed(v), failing.value, done);
        return;
      }
      done := done + HashOf(v.stderrDigest);
      NoneFailed(Listed(v), failing);
    }

    /** The scan at start-up: every file in the folder, in the order the directory yields them; errors are ignored. */
    method ProcessExistingActionCaches(config: Config, failings: map<Name, nat>)
      modifies this`disk
      ensures disk == old(disk).TouchEach(ScanTouches(config, old(disk), old(disk).files.Keys, failings))
    {
      hide ProcessFile, ToSet;
      var entries := disk.files.Keys;
      ghost var start := disk;
      ghost var visited: set<Name> := {};
      while entries != {}
        invariant visited + entries == start.files.Keys
        invariant disk == start.TouchEach(ScanTouches(config, start, visited, failings))
        decreases entries
      {
        var n :| n in entries;
        TouchingKeepsFiles(config, start, ScanTouches(config, start, visited, failings), n, FailingFor(failings, n));
        var _ := ProcessActionCacheResponse(config, n, FailingFor(failings, n));
        OneMoreScanned(config, start, visited, n, failings);
        entries, visited := entries - {n}, visited + {n};
      }
    }

    /**
      The end of `save_file`: under the lock, the received file is inserted unless there is one already. An insertion
      that fails is a panic and poisons the lock, and so is every later attempt to take it.
     */
    method SaveFile(n: Name, body: Bytes, insertFails: bool) returns (r: SaveResult)
      modifies this`disk, this`poisoned
      ensures r == SavePanics <==> old(poisoned) || (!old(disk).Has(n) && insertFails)
      ensures r == AlreadyThere <==> !old(poisoned) && old(disk).Has(n)
      ensures poisoned <==> r == SavePanics
      ensures disk == if r == Inserted then old(disk).Insert(n, body) else old(disk)
    {
      if poisoned {
        return SavePanics;
      }
      if disk.Has(n) {
        return AlreadyThere;
      }
      if insertFails {
        poisoned := true;
        return SavePanics;
      }
      disk := disk.Insert(n, body);
      r := Inserted;
    }

    /**
      `fetch_file`: what a download brings is inserted, whatever is there. Here an insertion that fails is an error
      and leaves the lock as it is, but a poisoned lock is a panic.
     */
    method FetchFile(config: Config, n: Name, script: Retry.Script<Retry.Response>, insertFails: bool)
      returns (r: FetchResult, requests: nat)
      modifies this`disk
      ensures var f := Retry.FetchFile(script, config.maximumDownloadSize);
        && requests == f.requests <= 8
        && match f.result
           case None => r == FetchFails && disk == old(disk)
           case Some(Unwanted) => r == NotWanted && disk == old(disk)
           case Some(Downloaded(size, body)) =>
             if poisoned then r == FetchPanics && disk == old(disk)
             else if insertFails then r == FetchFails && disk == old(disk)
             else r == Stored(size) && disk == old(disk).Insert(n, body)
    {
      hide Retry.FetchFile;
      Retry.FetchFileBudget(script, config.maximumDownloadSize);
      var f := Retry.FetchFile(script, config.maximumDownloadSize);
      requests := f.requests;
      match f.result {
        case None => r := FetchFails;
        case Some(Unwanted) => r := NotWanted;
        case Some(Downloaded(size, body)) =>
          if poisoned {
            return FetchPanics, requests;
          }
          if insertFails {
            return FetchFails, requests;
          }
          disk := disk.Insert(n, body);
          r := Stored(size);
      }
    }
  }

  function FailingFor(failings: map<Name, nat>, n: Name): Option<nat> {
    if n in failings then Some(failings[n]) else None
  }

  /** The gate files a scan of `names` touches, in whatever order it visits them. */
  ghost function ScanTouches(c: Config, disk: Disk, names: set<Name>, failings: map<Name, nat>): set<Bytes> {
    set n <- names, h <- ToSet(ProcessFile(c, disk, n, FailingFor(failings, n)).touched) :: h
  }

  /** Touching changes no file that is kept track of, so what there is to process stays the same. */
  lemma TouchingKeepsFiles(c: Config, disk: Disk, touched: set<Bytes>, n: Name, failing: Option<nat>)
    ensures ProcessFile(c, disk.TouchEach(touched), n, failing) == ProcessFile(c, disk, n, failing)
  {
    hide ParseActionResult, Listed;
  }

  lemma TouchEachTwice(disk: Disk, some: set<Bytes>, more: set<Bytes>)
    ensures disk.TouchEach(some).TouchEach(more) == disk.TouchEach(some + more)
  {
  }

  lemma OneMoreScanned(c: Config, disk: Disk, names: set<Name>, n: Name, failings: map<Name, nat>)
    ensures ScanTouches(c, disk, names + {n}, failings)
         == ScanTouches(c, disk, names, failings) + ToSet(ProcessFile(c, disk, n, FailingFor(failings, n)).touched)
    ensures disk.TouchEach(ScanTouches(c, disk, names, failings))
              .TouchEach(ToSet(ProcessFile(c, disk, n, FailingFor(failings, n)).touched))
         == disk.TouchEach(ScanTouches(c, disk, names + {n}, failings))
  {
    hide ProcessFile, ToSet;
    TouchEachTwice(disk, ScanTouches(c, disk, names, failings),
                   ToSet(ProcessFile(c, disk, n, FailingFor(failings, n)).touched));
  }

  lemma NoneFailed(listed: seq<Bytes>, failing: Option<nat>)
    ensures failing.Some? ==> |listed| <= failing.value ==> TouchAll(listed, failing) == Processing(true, listed)
    ensures failing.None? ==> TouchAll(listed, failing) == Processing(true, listed)
  {
  }

  /** The touch with index `made` failed after those of `done`. */
  lemma StoppedShort(listed: seq<Bytes>, made: nat, done: seq<Bytes>)
    requires |done| == made < |listed| && done <= listed
    ensures TouchAll(listed, Some(made)) == Processing(false, done)
  {
  }

  /** A scan in which every gate file can be created opens the gates of what readable action results mention. */
  lemma ScanOpensExactly(c: Config, disk: Disk, digest: Bytes)
    ensures disk.TouchEach(ScanTouches(c, disk, disk.files.Keys, map[])).GateOpen(digest) <==>
      disk.GateOpen(digest) || exists n <- disk.files :: MentionedIn(c, disk, n, digest)
  {
    hide ProcessFile, MentionedIn;
    var touched := ScanTouches(c, disk, disk.files.Keys, map[]);
    forall n
      ensures digest in ToSet(ProcessFile(c, disk, n, FailingFor(map[], n)).touched)
         <==> n in disk.files && MentionedIn(c, disk, n, digest)
    {
      ProcessTouches(c, disk, n, digest);
    }
    assert disk.TouchEach(touched).GateOpen(digest) <==> disk.GateOpen(digest) || digest in touched by {
      hide ScanTouches;
    }
  }

  lemma ProcessTouches(c: Config, disk: Disk, n: Name, digest: Bytes)
    ensures digest in ToSet(ProcessFile(c, disk, n, FailingFor(map[], n)).touched)
       <==> n in disk.files && MentionedIn(c, disk, n, digest)
  {
    hide ParseActionResult, Listed, Mentions;
    ListedInExactly(c, disk, n);
  }

  /** So every blob that the content of some cached action result mentions has its gate afterwards. */
  lemma ScanIsComplete(c: Config, disk: Disk, n: Name, a: ActionResultData, digest: Bytes)
    requires n.Ac? && n in disk.files && ParseActionResult(c.merging, disk.files[n]) == Some(a) && Mentions(a, digest)
    ensures disk.TouchEach(ScanTouches(c, disk, disk.files.Keys, map[])).GateOpen(digest)
  {
    hide ParseActionResult, Mentions;
    assert MentionedIn(c, disk, n, digest);
    ScanOpensExactly(c, disk, digest);
  }
}
