# local_cache_proxy, verified

local_cache_proxy sits between Bazel and a remote build cache. It keeps a local cache folder, fetches what is missing,
and uploads what Bazel built, in the background and only while the user is idle. A blob is let through in either
direction only if its gate file is there, which the proxy creates for each blob that an action result lists. A request
can also name a gate file itself, as the file to cache; the proofs cover such requests and say what they change.

This project models three parts and proves what they promise.

**The wire codec of action results** (`src/action_result/action_result.rs`). `Wire` gives the Protocol Buffers wire
format (Protocol Buffers "Encoding" guide: "Base 128 Varints", "Message Structure", "Length-Delimited Records",
"Submessages", "Last One Wins"); `Messages` gives the message values, their encodings and what one field does to a
message; `RoundTrip`, `Codec`, `Normalisation` and `SchemaCrossing` prove the laws. `Unicode`, `Grammar` and `Reading`
say from the bytes alone what is read: which byte strings are text, which forms of varints, payloads and nested groups
are accepted, and what message a row of fields amounts to. `Streams` and `ActionResult` have
the objects themselves: fields assigned by `MergeFrom`, a cached size stored by `ComputeSize`, writers that trust the
stored sizes, `u32` arithmetic that wraps, and a table of unknown fields walked in an arbitrary order. What the runtime
does with a submessage that occurs twice, merge it or replace it, is the parameter `merging`, and every theorem holds
for both.

**The gate-and-upload protocol** (`client_proxy_server.rs`, `process_action_cache.rs`, `downloader.rs`,
`background_uploader.rs`). `Protocol` is a state machine: what is on the disk, requests in flight, upload queue,
uploader, clocks, and a log of what happened. Each step looks at shared state or changes it once: the two looks of a GET
for a blob, each touch of a gate file, and the uploader's look at the clock, dequeue, gate test and size test are steps
of their own, and anything may come between them. `Trace` says what a lawful log is without mentioning the state
machine, and reads the safety theorems off lawful logs. `Runs` proves that every behaviour, in any interleaving, writes
a lawful log; its theorems quantify over all behaviours from a fresh start, which are exactly the runs. `Gates` proves
that no readable action result goes unread. `UploaderPoll` treats one whole call of `Uploader::poll`. `CacheFolders` and
`ProxyObjects` have the objects, and `Requests` proves that what their handlers do is a run of the state machine.
`Progress` bounds how many steps it takes to empty the queue.

**Supporting algorithms.** `Retry` (nested geometric backoff), `Keys` (names and the two-hop key mapping), `SendStream`
(sending a file in chunks), `BodyStreaming` (a body under a timeout).

The network, the disk, the clock and the scheduler are parameters: scripts of answers, indices of failing operations,
times, or the choice of the next step. Everything is stated for all of them.

## What the proofs found

- The codec keeps its round trip for a message exactly if no level of it holds, among its unknown fields, a number the
  schema declares (`Codec.RoundTripExactly`). The reader never builds such a message, so the laws about accepted bytes
  need no such condition.
- Rewriting an accepted message can make it longer, by at most five bytes and only if the exit code is negative
  (`Normalisation.RewritingGrows`). Every negative exit code that arrives as a varint of 32 bits does so
  (`Normalisation.ShortExitCodeGrows`): it is written with its sign extended to 64 bits.
- The uploader drops the lock between its look at the clock and its dequeue. A dequeue relies on a look that found the
  user quiet for ten seconds with respect to exactly the requests that came before that look (`Runs.RunStaysQuiet`). One
  that arrives between the two is not noticed, and then a request is dequeued at the very time at which the user was
  active (`Runs.RequestSlipsIn`; `Requests.RequestSlipsInFromStart` is such a run from a fresh start).
- A path may name any type. Exactly the requests whose type is `enable_cas` or `enable_cas_`, or begins with
  `enable_cas__`, have a gate file as their cached file (`Keys.GateFilesExactly`), and for every blob there is one
  (`Keys.RequestNamesGateFile`). A PUT, or a GET answered with a 200, of such a name opens the gate of a blob that no
  action result lists; `Runs.RunGatesHaveOrigins` counts it among the origins of a gate. The disk cache keeps track of
  such a file, as it does of what it found in the folder at start-up, and may evict it. Then the gate is gone although
  action results may list the blob (`Gates.EvictedGateExactly`). A gate file that was not kept track of at the start,
  and that no request names, has no other origin than an action result and is never lost
  (`Runs.RunPlainGatesHaveOrigins`).
- If a gate file cannot be created, the remaining ones are not tried and the error is dropped.
  `CacheFolders.FailedTouchExactly` says exactly when the action result ends up complete all the same, and
  `Gates.FailedTouchLeavesIncomplete` shows one that does not.
- If a received file cannot be inserted into the cache, the handler panics with the lock held. The lock is then poisoned
  for good: no file is cached and nothing is enqueued by any later request (`Requests.PoisonIsFinal`), and this is the
  only way to poison it (`Requests.PoisonedExactly`). A fetched file that cannot be inserted is an ordinary error.
- The upstream query puts the type before the repository, while the reader of paths expects the repository first. A
  second proxy therefore takes the type for "unknown" and never reads an action result (`Keys.SecondHopLosesType`).
- On the second proxy two requests share a name, and a key in the object store, exactly if they are of one type and
  repository and digest, joined by two underscores, make up the same text (`Keys.TwoHopsCollideExactly`). Two digests
  collide in some pair of repositories exactly if one is the other led up to by underscores
  (`Keys.DigestsCollideExactly`). Digests that do not begin with an underscore and never have two in a row, such as all
  hexadecimal ones, never collide (`Keys.TwoHopsAreInjective`).
- The uploader takes an object for present only if the HEAD answer is a 200 with a readable Content-Length. A 200
  without one leads to an upload (`Requests.HeadAnswerExactly`).
- `index.html` is never the name of anything: the path has lost its slashes before it is compared with one
  (`Keys.SlashesAreTheRoot`).
- The timer that `BodyStreamer::poll` sets is not polled in the call that sets it, so after a pending poll only the body
  can wake the task (`BodyStreaming.OnlyTheBodyWakes`). A body that stalls for good never times out
  (`BodyStreaming.StalledBodyHangs`); one that resumes too late does, when it resumes.

## Model

| member | source | states |
|---|---|---|
| ActionResultObjects.ActionResult.MergeFrom | src/action_result/action_result.rs:1145-1180 | the reading loop fills the object with exactly what folding the fields of the input over its old value gives, or fails exactly when that does; at success the input is used up |
| ActionResultObjects.ActionResult.MergeField | src/action_result/action_result.rs:1146-1178 | one turn consumes one field and has the effect of that field on the message value, nested messages included |
| ActionResultObjects.ActionResult.ComputeSize | src/action_result/action_result.rs:1184-1214 | after the call every message of the tree stores exactly the number of bytes it writes, if and only if the total fits in 32 bits; the one-byte tags are accounted for and the contents are untouched |
| ActionResultObjects.ActionResult.WriteToWithCachedSizes | src/action_result/action_result.rs:1216-1248 | with right sizes stored, the bytes appended are the encoding of a message equal to this one, whatever order its hash maps are walked in |
| ActionResultObjects.ActionResult.WriteToBytes | src/action_result/action_result.rs:1184-1248 | the two passes together emit the encoding of an equal message for every message that fits |
| ActionResultObjects.WriteThenRead | src/action_result/action_result.rs:1145-1248 | sizes, write and read into a fresh object give an equal object, through all nested levels |
| ActionResultObjects.ActionResult.Clear | src/action_result/action_result.rs:1343-1354 | the object equals a fresh one |
| ActionResultObjects.OutputFile.MergeFrom | src/action_result/action_result.rs:1496-1522 | the loop over an OutputFile folds its fields over the value held, or fails exactly when that does |
| ActionResultObjects.OutputFile.ComputeSize | src/action_result/action_result.rs:1526-1544 | the stored sizes are right exactly if the encoding fits, and the sizes stored in other messages stay right |
| ActionResultObjects.OutputFile.WriteToWithCachedSizes | src/action_result/action_result.rs:1546-1563 | emits the encoding of an equal OutputFile |
| ActionResultObjects.OutputDirectory.MergeFrom | src/action_result/action_result.rs:1789-1808 | the loop over an OutputDirectory folds its fields over the value held |
| ActionResultObjects.OutputDirectory.ComputeSize | src/action_result/action_result.rs:1812-1828 | the stored sizes are right exactly if the encoding fits |
| ActionResultObjects.OutputDirectory.WriteToWithCachedSizes | src/action_result/action_result.rs:1830-1846 | emits the encoding of an equal OutputDirectory |
| ActionResultObjects.FileNode.MergeFrom | src/action_result/action_result.rs:344-367 | the loop over a FileNode folds its fields over the value held |
| ActionResultObjects.FileNode.ComputeSize | src/action_result/action_result.rs:371-386 | the stored sizes are right exactly if the encoding fits |
| ActionResultObjects.FileNode.WriteToWithCachedSizes | src/action_result/action_result.rs:388-402 | emits the encoding of an equal FileNode |
| ActionResultObjects.Digest.MergeFrom | src/action_result/action_result.rs:780-800 | the loop over a Digest folds its fields over the value held |
| ActionResultObjects.Digest.ComputeSize | src/action_result/action_result.rs:804-815 | the stored size is right exactly if the encoding fits |
| ActionResultObjects.Digest.WriteToWithCachedSizes | src/action_result/action_result.rs:817-826 | emits the encoding of an equal Digest |
| ActionResultObjects.ReadSingularDigest | src/action_result/action_result.rs:1164-1173 | a length-delimited submessage is read within its limit, onto the one held or a fresh one as the runtime does it, and the outer limit is restored |
| ActionResultObjects.ComputeFilesSize | src/action_result/action_result.rs:1186-1189 | the loop's wrapping sum is the size of all output files with their tags and lengths, and each file stores its own size |
| ActionResultObjects.WriteFiles | src/action_result/action_result.rs:1217-1221 | every length prefix delimits exactly the file written after it |
| Streams.CodedOutputStream.WriteUnknownFields | src/action_result/action_result.rs:1246 | for every order in which the table is walked, what is emitted holds the same values for each number and wire type, in order |
| Streams.CodedInputStream.PushLength | src/action_result/action_result.rs:1150-1155 | the limit set by a length prefix covers exactly the payload, never more than the outer limit |
| Wire.ReadFieldOfWritten | src/action_result/action_result.rs:1147-1178 | reading undoes writing for every field number and value, whatever follows |
| Wire.ReadVarintOfVarint | src/action_result/action_result.rs:1155-1161 | every 64-bit varint reads back as itself, whatever follows |
| Wire.MergeConcat | src/action_result/action_result.rs:1145-1180 | the concatenation law for the reading loop itself, whatever the fields mean, so for every message type |
| Wire.ReadFieldConsumes | src/action_result/action_result.rs:1147-1178 | what is left after a field is the end of the input, and the field written again is no longer than what was read |
| Wire.SameTableSameSize | src/action_result/action_result.rs:1211 | the size of a table of unknown fields does not depend on the order it is walked in |
| Unicode.Utf8Exactly | src/action_result/action_result.rs:1499-1501 | a byte string is taken for text if and only if it is the encoding of some sequence of Unicode scalar values |
| Unicode.EncodingIsUnambiguous | src/action_result/action_result.rs:1499-1501 | two texts have the same bytes only if they are the same |
| Unicode.TextIsTaken | src/action_result/action_result.rs:1499-1501 | every text is accepted by the string field of each message, and becomes its value |
| Unicode.OnlyTextIsTaken | src/action_result/action_result.rs:1499-1501 | any other byte string makes the read fail |
| Unicode.PathIsRead | src/action_result/action_result.rs:1496-1522 | the reading loop of an output file accepts every path made of scalar values |
| Grammar.VarintExactly | src/action_result/action_result.rs:1155-1161 | a varint is read from exactly those bytes that carry its bits, superfluous ones included, up to ten |
| Grammar.TagExactly | src/action_result/action_result.rs:1146-1148 | a tag is a varint whose low 32 bits give a number from 1 and a wire type up to 5 |
| Grammar.PayloadExactly | src/action_result/action_result.rs:1147-1173 | a payload is read from exactly the bytes its wire type calls for |
| Grammar.GroupIsThere | src/action_result/action_result.rs:1174-1176 | what is skipped for a group is well-formed entries, nested groups included, up to its own closing tag |
| Grammar.GroupIsSkipped | src/action_result/action_result.rs:1174-1176 | and every such group is skipped, at any depth |
| Grammar.FieldExactly | src/action_result/action_result.rs:1147-1178 | a field is read if and only if the input begins with the bytes of an entry for it |
| Reading.SignedExactly | src/action_result/action_result.rs:1155-1161 | the exit code is the one 32-bit number with the low 32 bits of the varint, a size the one 64-bit number with all of its bits |
| Reading.ActionResultReadExactly | src/action_result/action_result.rs:1145-1180 | bytes read as an action result if and only if they consist of fields of the right kinds, and then files and directories are those of all fields 2 and 3 in order and every other value is that of the last of its fields |
| Reading.OutputFileReadExactly | src/action_result/action_result.rs:1496-1522 | the same for an OutputFile |
| Reading.OutputDirectoryReadExactly | src/action_result/action_result.rs:1789-1808 | the same for an OutputDirectory |
| Reading.FileNodeReadExactly | src/action_result/action_result.rs:344-367 | the same for a FileNode |
| Reading.DigestReadExactly | src/action_result/action_result.rs:780-800 | the same for a Digest |
| RoundTrip.Signed32RoundTrip | src/action_result/action_result.rs:1155-1161 | a negative exit code survives sign extension on writing and truncation on reading |
| RoundTrip.MergeEncodedActionResult | src/action_result/action_result.rs:1145-1248 | reading an encoding onto any message appends the repeated fields and replaces the rest only where it was written |
| Codec.RoundTripExactly | src/action_result/action_result.rs:1145-1248 | a message that fits reads back as itself if and only if no level files a declared number under unknown |
| Codec.DigestRoundTripExactly | src/action_result/action_result.rs:780-826 | the same if-and-only-if for a Digest |
| Codec.FileNodeRoundTripExactly | src/action_result/action_result.rs:344-402 | the same if-and-only-if for a FileNode with its digest |
| Codec.OutputFileRoundTripExactly | src/action_result/action_result.rs:1496-1563 | the same if-and-only-if for an OutputFile with its digest |
| Codec.OutputDirectoryRoundTripExactly | src/action_result/action_result.rs:1789-1846 | the same if-and-only-if for an OutputDirectory with its digests |
| Codec.EncodingIsInjective | src/proto/action_result.proto:136-147 | two messages have the same bytes exactly if they are the same message, as hashing needs |
| Codec.MergedActionResultUndeclared | src/action_result/action_result.rs:1174-1176 | the reader never files a declared field under unknown, at any level, for any input |
| Codec.ConcatenationLaw | src/action_result/action_result.rs:1145-1180 | if `a` parses, reading `a` followed by `b` is reading `b` onto the result of `a`, failure included |
| Codec.ConcatenatedEncodings | src/action_result/action_result.rs:1145-1180 | two encodings in a row read as the second combined onto the first: appended lists, last non-default scalars |
| Codec.WrittenInTagOrder | src/proto/action_result.proto:136-147 | in a message without unknown fields of its own, tags never descend and only the two repeated fields occur more than once |
| Codec.OutputFileWrittenInTagOrder | src/proto/action_result.proto:136-147 | the same for an OutputFile, where nothing is repeated |
| Codec.OutputDirectoryWrittenInTagOrder | src/proto/action_result.proto:136-147 | the same for an OutputDirectory, where nothing is repeated |
| Codec.DigestWrittenInTagOrder | src/proto/action_result.proto:136-147 | the same for a Digest |
| Codec.FileNodeWrittenInTagOrder | src/proto/action_result.proto:136-147 | the same for a FileNode |
| Codec.WrittenInTagOrderThroughout | src/proto/action_result.proto:136-147 | if no message of the tree has unknown fields, every message of the tree is written in tag order and without duplicates |
| Codec.OnlySetFieldsAreWritten | src/action_result/action_result.rs:1216-1248 | a number occurs in an encoding without unknown fields if and only if its value is not the default |
| Codec.OnlySetFieldsAreWrittenBelow | src/action_result/action_result.rs:1546-1563 | the same for the messages an action result is made of |
| Normalisation.Normalises | src/action_result/action_result.rs:1145-1248 | for all accepted bytes, parse after write after parse is parse, in any walking order |
| Normalisation.RewritingGrows | src/action_result/action_result.rs:1184-1214 | rewriting accepted bytes adds at most five bytes, and none unless the exit code is negative |
| Normalisation.ShortExitCodeGrows | src/action_result/action_result.rs:1155-1161 | every negative exit code has a six-byte form that is accepted and rewritten as eleven bytes, so the bound is reached |
| Normalisation.MergedActionResultSize | src/action_result/action_result.rs:1145-1214 | what a message grows by when bytes are read into it is bounded by those bytes, whatever was merged or replaced |
| Normalisation.SameActionResultSameSize | src/action_result/action_result.rs:1184-1214 | equal messages have encodings of equal length, whatever order their tables are in |
| SchemaCrossing.SameBytesWithoutContent | src/proto/action_result.proto:262-267 | an OutputFile without content and the matching FileNode have the same bytes |
| SchemaCrossing.ReadAsFileNode | src/action_result/action_result.rs:344-402 | a reader of FileNode accepts every OutputFile and keeps the content as an unknown field |
| SchemaCrossing.CrossingPreservesOutputFile | src/action_result/action_result.rs:1496-1563 | an OutputFile read as a FileNode, rewritten in any order and read back is unchanged |
| CacheFolders.CacheFolder.ProcessActionCacheResponse | src/net/process_action_cache.rs:32-82 | the gates created are those for the digests listed, up to the first failure; if none fails, the call succeeds exactly for a readable action result or any other file, and the gates that stand afterwards are those before and those of the blobs its content mentions; nothing else changes |
| CacheFolders.CacheFolder.TouchListed | src/net/process_action_cache.rs:50-78 | the gates created form a prefix of the listed digests: all of them, or those before the touch that fails |
| CacheFolders.CacheFolder.ProcessExistingActionCaches | src/net/process_action_cache.rs:20-31 | the scan creates the gates of every cached action result, whatever order the directory is walked in, and goes on after errors |
| CacheFolders.ScanOpensExactly | src/net/process_action_cache.rs:20-78 | after a scan without failures a gate stands if and only if it did before or some readable action result in the folder mentions the blob |
| CacheFolders.ScanIsComplete | src/net/process_action_cache.rs:20-78 | so for every cached file whose content parses as an action result, the gates of its output files, stdout and stderr all stand |
| CacheFolders.CacheFolder.SaveFile | src/net/downloader.rs:207-224 | a received file is inserted exactly if there was none; a failed insertion panics and poisons the lock, and a poisoned lock makes every save panic |
| CacheFolders.CacheFolder.FetchFile | src/net/downloader.rs:232-290 | exactly a download is inserted, unless the insertion fails, which is an error, or the lock is poisoned, which is a panic; every other outcome leaves the folder alone; at most eight requests |
| Protocol.ListedExactly | src/net/process_action_cache.rs:50-78 | a digest gets a gate exactly if an output file, stdout or stderr has it; directories get none |
| Protocol.ListedInOrder | src/net/process_action_cache.rs:50-78 | the touches come in the order of the output files, then stdout, then stderr, and a missing digest takes no place |
| Protocol.ListedInExactly | src/net/process_action_cache.rs:36-48 | a file has a list if and only if it is named as an action result, is cached and parses |
| Protocol.DiskChangesExactly | src/net/downloader.rs:207-224 | inserting, evicting and touching change the presence and size of the one file they are about and of no other |
| Gates.UnreadableOpensNothing | src/net/process_action_cache.rs:47-48 | processing a blob, a missing file or a malformed action result creates no gate, starts no touch and notes nothing |
| CacheFolders.FailedTouchExactly | src/net/process_action_cache.rs:50-78 | after a failed touch all gates of the action result stand if and only if those not tried were there or were listed earlier |
| Gates.FailedTouchLeavesIncomplete | src/net/process_action_cache.rs:24-27 | a freshly started proxy whose first gate file fails ends up with an action result read, nothing left to do for it, and a gate missing |
| Gates.StepKeepsComplete | src/net/client_proxy_server.rs:97-121 | reading, touching, inserting, saving, evicting and every other step keep completeness, unless a touch fails or a gate file is evicted |
| Gates.RunGatesAreComplete | src/net/process_action_cache.rs:20-78 | in every run in which gate files can be created and none is evicted: if the content of a cached action result parses and has the digest on an output file, stdout or stderr, then the file is still to be read, or the gate stands or is about to be created |
| Gates.CompleteAtRest | src/net/process_action_cache.rs:20-78 | once nothing is left to be read or touched in such a run, the gate stands |
| Gates.EvictedGateExactly | src/net/client_proxy_server.rs:74-90 | evicting a gate file that the disk cache keeps track of leaves a complete folder incomplete if and only if an action result that was read lists the blob and no touch of it is to come |
| Runs.StepKeeps | src/net/client_proxy_server.rs:53-292 | every step of every request, every eviction and every poll keeps the log lawful and the state in agreement with it |
| Runs.RunIsBehaviour | src/net/client_proxy_server.rs:281-345 | every sequence of steps from a fresh start is a behaviour, so what holds of all behaviours holds of all runs |
| Runs.BehaviourIsRun | src/net/client_proxy_server.rs:281-345 | and every behaviour is such a sequence of steps |
| Runs.RunUploadsAreJustified | src/net/background_uploader.rs:160-279 | every upstream PUT follows a HEAD that did not report the object, and before that look, dequeue, gate test and size test of this very upload in this order; the file was small enough and, for a blob, its gate was standing at the gate test |
| Runs.RunPutsExactly | src/net/background_uploader.rs:247-279 | the uploader sends a PUT if and only if HEAD has just reported the object absent and the file is still there; what follows from the answer to HEAD always comes next |
| Runs.RunFinishesExactly | src/net/background_uploader.rs:247-279 | an upload ends after its PUT, or without one exactly where HEAD has just found the object present, given up, or found it absent with the file gone |
| Runs.RunGatesHaveOrigins | src/net/process_action_cache.rs:36-78 | a gate stands at the end of a run if and only if it stood at the start, was touched for an action result that lists the blob, or was cached by a request that named it, and was not evicted since |
| Runs.RunPlainGatesHaveOrigins | src/net/process_action_cache.rs:36-78 | if the disk cache did not keep track of the gate file of a blob at the start and no request names it, it stands if and only if it stood at the start or an action result that lists the blob was processed; it is never lost |
| Runs.RunConservesRequests | src/net/background_uploader.rs:61-69 | over any interleaving, the requests enqueued are, in order, those dequeued followed by those still queued |
| Runs.RunUploadsOneAtATime | src/net/background_uploader.rs:146-158 | between two uploads begun in a run, the first has finished |
| Runs.RunStaysQuiet | src/net/background_uploader.rs:160-185 | for each dequeue, its look at the clock, and every user-facing request of the run: the request is at least ten seconds older than the look if and only if it came before the look |
| Runs.RequestSlipsIn | src/net/background_uploader.rs:160-185 | from any state with a quiet user and a queued request, a request may come between look and dequeue, and then something is dequeued at the time at which the user was active |
| Requests.RequestSlipsInFromStart | src/net/background_uploader.rs:160-185 | such a run from a freshly started proxy: a PUT, ten seconds of quiet, a look, a request, and the dequeue all the same |
| Runs.RunIgnoresPutOrder | src/net/client_proxy_server.rs:192-201 | a dequeued request is started if and only if its gate stood at the gate test, whatever opened it and in whatever order, and its file was there and small enough at the size test |
| Runs.RunEnqueuesOncePerResidency | src/net/downloader.rs:207-224 | a name is enqueued at most once for each eviction of its file, plus once if the file was not there at first |
| Runs.RunFetchesAreGated | src/net/client_proxy_server.rs:74-101 | every upstream GET for a blob follows a request that found it cached, or that had found its gate standing with one of the origins of a gate |
| Runs.RunFilesHaveSources | src/net/downloader.rs:95-138 | every cached file was there at first, was PUT, or came from a 200 with a readable length within the limit |
| Trace.UploadJustified | src/net/background_uploader.rs:247-279 | the justification of an upload, for every lawful log |
| Trace.GateStandsExactly | src/net/process_action_cache.rs:36-78 | for every lawful log, a gate file is on the disk if and only if it appeared at some time and was not evicted since |
| Trace.LookSeparates | src/net/background_uploader.rs:160-173 | for every lawful log, a look at the clock tells exactly the requests before it from those after it by ten seconds |
| Trace.DecisionExactly | src/net/background_uploader.rs:187-214 | the fate of a dequeued request as an if-and-only-if on what came before its gate test and its size test |
| Trace.DequeuedInOrder | src/net/background_uploader.rs:175-185 | what was dequeued is a prefix of what was enqueued |
| UploaderPoll.PollParks | src/net/background_uploader.rs:146-217 | a call always ends, and then it has just seen its future pending or just seen the queue empty, so no wake-up is lost |
| UploaderPoll.PollConserves | src/net/background_uploader.rs:146-217 | a call takes requests off the front of the queue and loses none; with a recent user request it takes none, unless it is past its look at the clock |
| UploaderPoll.TurnsDescend | src/net/background_uploader.rs:170-217 | each step of a call lowers the length of the queue or, with that unchanged, how far the uploader is from parking |
| UploaderPoll.WholeTurn | src/net/background_uploader.rs:160-217 | the four steps from look to decision, undisturbed, are one turn: sleep, park, drop or start, and the call goes on from there |
| UploaderPoll.ActiveUserMeansSleep | src/net/background_uploader.rs:160-173 | a poll less than ten seconds after a request takes nothing, sleeps five seconds from its look at the clock, and ends pending |
| Progress.QueueDrains | src/net/background_uploader.rs:146-217 | from any state, once the user is quiet, six steps of the uploader for each queued or late request and four more bring a moment with nothing queued and nothing active, whatever else happens meanwhile |
| Progress.QueueStaysDrained | src/net/background_uploader.rs:146-217 | each step takes off at least one unit of work, and without late requests the uploader ends up and stays drained |
| UploaderPoll.PollIsRun | src/net/background_uploader.rs:146-217 | a whole call is a run of the state machine that moves only the uploader, its clock and the log, stamping the clock exactly if it starts an upload |
| ProxyObjects.BackgroundUploader.Poll | src/net/background_uploader.rs:146-218 | the method leaves the object as the call is specified to leave it, and stamps the upload clock exactly if it starts an upload |
| ProxyObjects.BackgroundUploader.PollFuture | src/net/background_uploader.rs:148-158 | polling the active future, HEAD and then PUT, either parks the call or clears the way for a decision |
| ProxyObjects.BackgroundUploader.TakeTurn | src/net/background_uploader.rs:160-214 | sleep, park, drop or start, with both tests made at dequeue time |
| ProxyObjects.UploadChannel.Upload | src/net/background_uploader.rs:55-69 | the request joins the end of the queue and wakes an uploader that waits for the queue |
| ProxyObjects.ClientProxy.GetRequest | src/net/client_proxy_server.rs:53-175 | the whole new state of the folder, the reply and the number of requests sent upstream are those of the specified GET |
| ProxyObjects.ClientProxy.PutRequest | src/net/client_proxy_server.rs:210-279 | the whole new state of folder and queue and the reply are those of the specified PUT |
| ProxyObjects.ClientProxy.Serve | src/net/client_proxy_server.rs:309-340 | the request clock is stamped for every request, and only the request's own handler has any effect |
| Requests.GetFromCache | src/net/client_proxy_server.rs:74-140 | a cached file is the reply and nothing is asked for; a blob with neither file nor gate is not found |
| Requests.GetFromUpstream | src/net/client_proxy_server.rs:91-172 | otherwise the last answer decides: not worth downloading means not found, a whole body is cached, its gates opened, and sent; only four rounds without either give an error |
| Requests.PutExactly | src/net/client_proxy_server.rs:210-279 | reply, folder, lock and queue after a PUT, in every case of a broken body, a poisoned lock, a file that is there and an insertion that fails |
| Requests.GetIsRun | src/net/client_proxy_server.rs:53-175 | a GET is a run of the state machine that restores all it does not say it changes; what its log tells of the request, refused, served, asked for so often, fetched with this body, is what the reply says, with at most eight requests upstream |
| Requests.PutIsRun | src/net/client_proxy_server.rs:210-279 | a PUT is a run of the state machine: saved before processed before enqueued, skipped, or none of these, as the reply says |
| Requests.ProcessIsRun | src/net/process_action_cache.rs:32-82 | reading a file and touching its gates one by one, up to the first failure, is a run that leaves of the disk what processing in one go is specified to leave |
| Requests.PoisonIsFinal | src/net/downloader.rs:207-224 | after one failed insertion on behalf of a PUT, no series of requests changes the folder or the queue |
| Requests.PoisonedExactly | src/net/downloader.rs:207-224 | the lock ends up poisoned if and only if some request of the series was a PUT of a missing file that could not be inserted |
| Requests.ScanIsRun | src/net/process_action_cache.rs:20-31 | the start-up scan is a run of the state machine, and its result does not depend on the order |
| Requests.HeadAnswerExactly | src/net/client.rs:67-122 | the first answered request of eleven decides: the object is present if and only if that is a 200 with a readable length, and only if none is answered is the upload given up |
| Retry.ConnectReport | src/net/client.rs:20-65 | for every failure pattern: how many requests, which answer, and exactly how much sleep |
| Retry.ConnectBudget | src/net/client.rs:67-122 | at most max(t,0)+1 rounds and s·(1+m+…+m^(t-1)) of sleep |
| Retry.BudgetIsReached | src/net/client.rs:20-65 | the budget is attained if everything fails |
| Retry.GeometricClosedForm | src/net/client.rs:53-59 | (m-1) times the series is m^k - 1 |
| Retry.FetchBudget | src/net/downloader.rs:66-164 | the composed loops send at most two requests a round, and each loop keeps to its own series |
| Retry.FetchResult | src/net/downloader.rs:66-164 | for every script: no answer before the last one ended the fetch, the result is what the last one called for, none only after all rounds failed, and requests, rounds and both sleeps are given exactly |
| Retry.FetchFileResult | src/net/downloader.rs:253-261 | with the constants of fetch_file: up to four rounds, and 140 s of backoff before it gives up |
| Retry.FetchFileFails | src/net/downloader.rs:253-261 | if every request fails, exactly eight are sent, with 140 s and 2 s of sleep |
| Retry.ReceivedExactly | src/net/downloader.rs:95-138 | an answer is downloaded if and only if it is a 200 with a readable length within the limit and its body arrives whole; only a broken body of such an answer is tried again |
| Retry.FetchFileBudget | src/net/downloader.rs:253-261 | at most 8 GETs, 140 s of outer and 2 s of inner backoff |
| Retry.HeadCheckExactly | src/net/background_uploader.rs:248-254 | HEADs are sent until one is answered, at most 11, and the backoff is exactly 500·(4^k-1)/3 ms for k retries |
| Retry.NoDurationOverflows | src/net/downloader.rs:253-261 | no sleep ever computed comes near the limit of a Duration |
| Retry.ContentLengthRoundTrip | src/net/downloader.rs:47-64 | a decimal length reads back as itself exactly if it fits in 64 bits |
| Retry.ContentLengthExactly | src/net/downloader.rs:47-64 | a length is known if and only if the header is an optional plus sign, zeros and the decimal of a number below 2^64 |
| Keys.PathsAreReadExactly | src/net/proxy_request.rs:25-62 | how any path is read, by its segments and whatever slashes surround them: repository form, short forms, everything else, and where reading panics |
| Keys.EveryPathHasSegments | src/net/proxy_request.rs:25-27 | there are no paths but those and rows of slashes |
| Keys.SlashesAreTheRoot | src/net/proxy_request.rs:48-60 | a path of slashes only is read with an empty digest; the name `index.html` is never used |
| Keys.ReadsRepositoryForm | src/net/proxy_request.rs:25-42 | a path naming repository, type and digest is read as just these |
| Keys.StoreKeysAreInjective | src/net/remote_cache_server.rs:126-131 | requests read from any two paths share a key in the object store if and only if repository, type and digest all agree |
| Keys.SecondHop | src/net/proxy_request.rs:14-61 | how the second proxy reads the query, whatever trailing slashes the upstream address has |
| Keys.TwoHopsCollideExactly | src/net/remote_cache_server.rs:126-131 | two requests share a file name, or an object-store key, on the second proxy if and only if type and joined repository and digest agree |
| Keys.TwoHopsAreInjective | src/net/remote_cache_server.rs:126-131 | with digests that neither begin with an underscore nor have two in a row, they share one if and only if they are the same request |
| Keys.DigestsCollideExactly | src/net/proxy_request.rs:10-21 | two digests collide in some pair of repositories if and only if one is the other led up to by underscores |
| Keys.UnderscoresCollide | src/net/proxy_request.rs:14-61 | two requests for different blobs, read through both hops, end up under one file name and one key |
| Keys.SecondHopLosesType | src/net/proxy_request.rs:18-21 | the second proxy never reads the request the first one made, and reads type "unknown" exactly if there is a digest |
| Keys.FileNamesTellTypes | src/net/proxy_request.rs:10-12 | the `ac__` and `cas__` prefixes tell the types apart, and file names are injective in type and digest |
| Keys.GateFilesExactly | src/net/proxy_request.rs:10-12 | a request has some gate file as its cached file if and only if its type is `enable_cas`, `enable_cas_` or begins with `enable_cas__` |
| Keys.RequestNamesGateFile | src/net/proxy_request.rs:25-42 | for every digest there is a path that is read as a request whose cached file is the gate file of that digest |
| Keys.GateFileOfBlob | src/net/client_proxy_server.rs:74-76 | the gate file created for a digest and the file a GET or a PUT looks for are of one name |
| Keys.BlobsAreNotGateFiles | src/net/proxy_request.rs:10-12 | requests for action results and blobs never have a gate file as their cached file |
| Keys.PrefixesAreApart | src/net/client_proxy_server.rs:74-76 | no file name begins with two of the prefixes `ac__`, `cas__` and `enable_cas__`, so names fall into the kinds the state machine tells apart |
| SendStream.SendIsFaithful | src/net/buffered_send_stream.rs:72-96 | for every file and script the chunks sent are together the file up to where it was read, non-empty and at most 4096 bytes; completion without error means all of it |
| SendStream.SendEndsExactly | src/net/buffered_send_stream.rs:72-96 | the first turn that sends no chunk tells how the poll ends: parked, receiver gone, read failed, all sent, or chunk refused |
| SendStream.SendCompletes | src/net/buffered_send_stream.rs:72-96 | if nothing fails, one turn more than the bytes left always completes |
| SendStream.BufferedSendStream.Poll | src/net/buffered_send_stream.rs:72-96 | the object's poll does what is specified, and completion means that what was sent is the file |
| SendStream.FileChunkStream.Poll | src/net/buffered_send_stream.rs:38-46 | returns the next stretch of the file and advances past it, the end exactly at the end, or a read error without moving |
| BodyStreaming.YieldsPrefix | src/net/client.rs:174-191 | for every schedule, the chunks yielded followed by those left are the body |
| BodyStreaming.ResultsExactly | src/net/client.rs:174-191 | a poll that does not time out reports what the body does: pending, broken, its next chunk, or the end if and only if all chunks have been yielded |
| BodyStreaming.TimesOutExactly | src/net/client.rs:175-185 | a poll times out if and only if it comes three seconds or more after the one before |
| BodyStreaming.EndMeansAll | src/net/client.rs:174-191 | a stream that ends without error has yielded the whole body |
| BodyStreaming.GapsAreShort | src/net/client.rs:175-185 | without a timeout, every gap between consecutive polls is below three seconds |
| BodyStreaming.OnlyTheBodyWakes | src/net/client.rs:175-187 | after a pending poll the task is woken if and only if the body moves, however much time passes |
| BodyStreaming.TimeoutNeedsTheBody | src/net/client.rs:175-187 | a timeout after a pending poll is noticed only once the body has moved |
| BodyStreaming.StalledBodyHangs | src/net/client.rs:175-187 | if the body does not move again, no poll follows a pending one |
| BodyStreaming.BodyStreamer.Poll | src/net/client.rs:174-191 | the object's poll does what is specified, yields the body's next chunk or, at its end, nothing, and after pending can be woken by the body alone |

## Left out

- Directory and DirectoryNode: they follow the pattern of the message types that are modelled.
- The protobuf runtime is not part of the repository. Its byte-level operations follow the Protocol Buffers "Encoding"
  guide. A group in unknown fields is skipped as a whole, and the number on its end tag is not compared.
- A singular submessage is read into a fresh or copied object that then takes the place of the one held; each message
  owns its submessages, so this differs from reading in place only in object identity. After a failed read the
  contents of the object are not specified.
- Codec.RoundTripExactly: stated for encodings below 2^32 bytes, because lengths and sizes are 32-bit numbers; a larger
  message is written with wrong prefixes. So are the members that build on it.
- Normalisation.Normalises: stated for a rewritten message below that bound, which leaves out only accepted inputs
  within five bytes of it.
- Reflection, descriptors, accessors and the embedded descriptor bytes.
- Names in the state machine are told apart by the prefixes `ac__`, `cas__` and `enable_cas__`; any other name is one of
  a fourth kind. Repositories and digests are segments of a URI path, and hashes hold no path separators, so a gate file
  is identified with the hash. The repository a request names is not part of its file name, here as in the program.
- `LruDiskCache` is a map with an evict step that may happen at any time to any file it keeps track of. Gate files that
  were only touched are not among them, but it may take up those it finds in the folder at start-up: which gate files it
  keeps track of at the start is arbitrary. Its size bound is not modelled.
- A failed insertion leaves the cached files as they were. The state machine lets a request that panics end without a
  trace and does not record the poisoned lock; `Requests.GetIsRun` and `Requests.PutIsRun` cover it all the same.
- The other panics of the handlers (creating or writing a temporary file) end a request the same way and poison nothing.
- A task that streams a body may also be polled for reasons of its own outside the stream. `BodyStreaming.Driven`
  describes one that is polled only when the stream's own wake-ups call for it.
- One writer for each temporary file, and no eviction between the presence check and opening the file within one reply.
- Gates.RunGatesAreComplete: assumes that gate files can be created and are not evicted; what happens otherwise is
  `CacheFolders.FailedTouchExactly` and `Gates.EvictedGateExactly`. So do the other members about completeness.
- The branch of `poll` for a closed channel (`background_uploader.rs:181-184`) is not modelled: the service holds a
  sender for as long as it runs.
- Reading the content of one file, and the existence check with the insertion under the lock, are single steps.
- In the state machine a fetch may be retried any number of times; the bound is in `Retry` and joined to it by
  `Requests.GetIsRun`. Progress is stated as a bound on steps of the uploader (`Progress`), not over infinite runs.
- Requests.GetIsRun: the handler objects run one request without interruption; interleavings are the business of the
  state machine.
- UploaderPoll.PollIsRun: the clock and the folder stand still during one call of `poll`, which is a condition of this
  lemma and of the objects; in the state machine they move between any two steps of a call. A sleep is counted from the
  look at the clock. The future of an upload is three stages (HEAD, PUT, done), each answered by a script.
- The length announced by HEAD or Content-Length is not compared with the body, by the program or here.
- hyper, tokio, sockets, the S3 client, `proxy.rs`, `server_start.rs`, the Unix connector: replaced by answers.
- `server_error.rs`, header construction in `server_io.rs`, `terminator.rs`, `unix_socket/uri.rs`, configuration,
  logging and argument parsing.
- The action-cache handling of `remote_cache_server.rs`, which repeats the client's PUT path; only its key mapping is
  modelled.
- A path on which the program panics has no reading in the model; the panic itself ends the request.
