# Janus: verified models of its core protocols

Janus is a control plane that runs coding agents. This project models the parts of it that are
protocols or algorithms rather than plumbing, and proves what they are for. Each collection of the
database is a map, each update or transaction is one atomic step, timestamps are integers, and
whatever a model cannot see (decoding, redaction, hashing, JSON parsing, the clock, what other
workers do, which operation fails) is a parameter that ranges over every possibility.

Where the original changes state, the model is a class whose methods update its fields, and every
method equals a function of the old state. The guarantees are proved of those functions: over
every run of a state machine, over every interleaving, or as an exact condition.

## What is modelled

**Log store.** `Text` has the character boundaries of UTF-8 and the two rounding loops. `LogNames`
has chunk files and the index encoded in their names. `LogDirectory` describes a directory of chunk
files relative to all text appended so far. `LogStore` says what writing, cutting out the middle and
measuring come to; `LogEdits` has the same append as the sequence of file operations it makes, also
over files that overlap. `LogStream` is the class over directory and row, any of whose operations may
fail and whose files may be whatever earlier failures left. `LogTheorems` says what a stream holds after
any sequence of completed appends. `LogCutOff` says what it holds when an append is cut off after any
file operation, and exactly when something is lost. `LogLeftovers` says what a cut makes of any files,
`LogAftermath` what an append does over files that failed ones left, and `LogRetries` exactly when no
files overlap afterwards, that retries end well, and what holds over runs with failures. `LogPaging` says
what a reader gets page by page, and exactly when that is everything; `LogReader` follows a reader while
the stream is written and cut; `LogTiling` says when marker and chunks account for every cursor. The directory is keyed by a datatype of file names;
`LogNames.RenderInjective` shows that rendering it to text loses nothing.

**Operation journal and work queue.** `WorkQueue` is the leased queue with the history of all claims
and of all accepted uses of a claim; an action carries the time its caller read, which may be older
than the times of actions before it. `Journal` has operations, steps and idempotency records;
`Operations` is the class over the stored collections, whose methods are the actions of both.

**Blob store.** `BlobStore` writes files, object records and references one after the other. A
`World` says after how many steps an operation is cut off and what others do before each step: they
drop references, and where the storage lock is not held also add them and note failed deletions. So
every statement holds for a crash or error between any two steps.

**Asynchronous tasks.** `AsyncTask` has the conditional updates of a task's row and the operations
that consist of several of them, with arbitrary updates by others in between.

**Event log.** `EventLog` has transactions under snapshot isolation, with and without the append
lock. `EventReader` has the store's operations, retried commits, readers that follow the log by
cursor, and a worker that persists its position and restarts.

**Provider streams.** `Sse` is the incremental parser as an automaton over bytes and as the class
that buffers chunks, `SseRoundTrip` prints frames and parses them back, `StreamTypes` says what a
consumer rebuilds from stream events, and `OpenaiChat`, `OpenaiResponses` and `Anthropic` are the
three assemblers. Each has a `ResultIsWhatWasSent`: the completed result in terms of the fields that the
provider sent alone.

**Identity.** `Base32` specifies the codec of section 6 of RFC 4648 on sequences of bits and proves
the 32-bit buffer loops against it; `Totp` has the truncation of section 5.3 of RFC 4226, the
verification of RFC 6238 and the replay guard; `LoginRate` has the sliding window with several
attempts under way at once.

**Container commands.** `Shell` quotes words and lexes them back by the quoting rules of sections
2.2.1 and 2.2.2 of the POSIX Shell Command Language.

## Where the code and its description differ

- A truncation marker names only the range removed by the latest cut. `LogTiling.TiledIff` shows that
  after any sequence of appends marker and chunks account for every cursor if and only if no two cuts
  kept different tails; `LogTiling.TilingLost` is a stream that loses it with its second append.
- A page can skip a multi-byte character that did not fit and go on with the next chunk, and it can
  stall: a character wider than the limit, or a cursor inside the last character of a chunk, ends the
  reading for good. `LogPaging.FollowReadsEverything` shows that a reader gets everything if and only if
  no page skips and none stalls; `LogPaging.SkippingExample`, `LogPaging.StallExample` and
  `LogPaging.InsideExample` are inputs. With a limit of at least four bytes and a start between two
  characters only skipping is left (`LogTheorems.FourBytesSuffice`).
- An append updates its row last. When one fails before that, the next starts at the same cursor. After
  its writes files overlap unless it overwrites every file left beyond the cursor
  (`LogAftermath.NextAppendIff`). When its text fits the tail, they still overlap at its end unless it
  overwrites or replaces all of them (`LogRetries.WholeAppendIff`, with an input in
  `LogRetries.OverlapExample`). The cut of a longer text may absorb what was left, as in
  `LogRetries.MendingExample`, and `LogRetries.WhatIsLeft` says what it leaves; trying the same append again
  always ends without overlaps (`LogRetries.RetriesEndWell`).
- An append that is cut off loses something that it should keep if and only if it stops while a file is
  being rewritten, with a kept part not yet written back (`LogCutOff.LossIff`); `LogCutOff.LossExample` is
  a stream that loses a character so.
- A dead-lettered item can still be completed or failed by a worker that read its clock before its
  claim ran out (`WorkQueue.DeadForever` has the exact condition, `WorkQueue.LateReportRemoves` an input).
- Five failures a minute is the bound for attempts one after the other. With k attempts under way at
  once it is four more than k (`LoginRate.WindowBound`), and that many are possible
  (`LoginRate.BoundIsReached`).
- The replay guard makes a counter work once. Two counters with the same six digits let the same code
  work twice: exactly the codes that two counters after the enrolment have (`Totp.CodeTwiceIff`).
- A commit that was given up after unknown answers releases the lock while the server may still apply
  it. The next append then conflicts, unless the server has dropped that commit (`EventLog.ConflictIff`).
- Storing a reference does not clear the intent of a deletion that failed before, so the next recovery
  deletes a reference that was stored again (`BlobStore.SurvivesIff`).
- The parser removes all leading whitespace of a data line and all surrounding whitespace of an event
  name, where sections 9.2.5 and 9.2.6 of the WHATWG HTML standard remove one space.
  `SseRoundTrip.RoundTripIff` says exactly which frames survive; `SseRoundTrip.BlanksAreLost` is one that
  does not.
- The final check of the sweep for a new reference, and its branch for a record that is no longer
  trash, never apply, because adding a reference takes the storage lock (`BlobStore.Store.Discard`).
- The branch of `begin_step_claimed` that lets an existing failed step run never commits
  (`Journal.FailedStepNeverRuns`), as long as operations are finished only with terminal statuses;
  `Journal.LiveFinishRunsTwice` shows that this condition is needed.
- The rate window lasts a little under 61 seconds, because the age is cut down to whole seconds.

## Model

| member | source | states |
|---|---|---|
| Text.CharBoundaryAtOrBefore | crates/runtime/src/log_store.rs:610-616 | the downward loop finds the greatest character boundary at or below the limit |
| Text.CharBoundaryAtOrAfter | crates/runtime/src/log_store.rs:618-624 | the upward loop finds the least character boundary at or above the offset |
| Text.Floor | crates/runtime/src/log_store.rs:610-616 | the greatest boundary at or below a position |
| Text.Ceil | crates/runtime/src/log_store.rs:618-624 | the least boundary at or above a position |
| Text.RoundingIsNear | crates/runtime/src/log_store.rs:610-624 | on UTF-8 text both loops move by at most three bytes |
| Text.CharactersAreText | crates/runtime/src/log_store.rs:171 | every string of characters of one to four bytes satisfies what the proofs assume of text |
| Text.KeptCharacters | crates/runtime/src/log_store.rs:399-406 | cutting at rounded positions keeps exactly the whole characters before and after |
| LogNames.ParseUndoesRender | crates/runtime/src/log_store.rs:582-598 | parsing a rendered chunk name gives its cursors back for all 64-bit cursors, and the marker's name gives none |
| LogNames.RenderInjective | crates/runtime/src/log_store.rs:591-598 | different chunk files never share a name |
| LogDirectory.ListingUnique | crates/runtime/src/log_store.rs:524-542 | sorting by start cursor gives one listing, in whatever order the directory is read |
| LogDirectory.ListsInOrder | crates/runtime/src/log_store.rs:524-542 | without overlaps no two files start together |
| LogStore.SplitText | crates/runtime/src/log_store.rs:600-608 | the loop computes the greedy cutting into whole characters |
| LogStore.SplitLosesNothing | crates/runtime/src/log_store.rs:600-608 | the parts join to the text, none is empty or over the limit, each is text, and all but the last are at most three bytes short of the limit |
| LogStream.LogStream.ReadChunks | crates/runtime/src/log_store.rs:524-542 | returns every file of the directory, once, sorted by start cursor, whether files overlap or not |
| LogStream.LogStream.ReadChunksFrom | crates/runtime/src/log_store.rs:550-580 | selecting files by their names gives exactly those that end beyond the cursor, sorted, the marker first where files start together; without overlaps the same chunks as reading all files and filtering |
| LogStream.LogStream.EndOf | crates/runtime/src/log_store.rs:561-574 | the end cursor parsed from a file name is the one stored in the file |
| LogNames.Padded | crates/runtime/src/log_store.rs:597 | zero-padded rendering in twenty digits, whose value is the number |
| LogNames.Marker | crates/runtime/src/log_store.rs:449-456 | the marker names the removed range, on the system channel, in one-byte characters |
| LogNames.MarkerSays | crates/runtime/src/log_store.rs:449-456 | its text says, in decimal digits without leading zeros, how many bytes are missing |
| LogStream.LogStream.TrimChunk | crates/runtime/src/log_store.rs:415-446 | removes a chunk file and writes its kept prefix and suffix back; of these operations as many are carried out as succeed |
| LogDirectory.TrimmedCovers | crates/runtime/src/log_store.rs:415-446 | trimming uncovers exactly the removed cursors |
| LogDirectory.TrimmedKeeps | crates/runtime/src/log_store.rs:415-446 | trimming leaves faithful, disjoint files and touches no other file |
| LogStream.LogStream.CutChunk | crates/runtime/src/log_store.rs:399-446 | one chunk is cut at the rounded positions, as far as operations succeed |
| LogStream.LogStream.DropFrom | crates/runtime/src/log_store.rs:393-446 | one chunk of the pass is cut where it reaches into the middle, and the dropped range grows to hold the cut |
| LogStream.LogStream.DropMiddle | crates/runtime/src/log_store.rs:391-447 | the loop over all chunks makes the edits of the pass, up to the first that fails; completed it is the pass that the next rows are about |
| LogStore.PassDone | crates/runtime/src/log_store.rs:386-447 | a pass keeps exactly the positions before the rounded head end and from the rounded tail start on |
| LogStore.PassDropsTheCut | crates/runtime/src/log_store.rs:391-414 | when both ends of the cut were on disk, the reported range is the whole cut |
| LogStore.CutKeepsSpared | crates/runtime/src/log_store.rs:386-463 | a pass and its marker leave a well-formed directory with exactly the spared positions |
| LogStore.FirstCutTiles | crates/runtime/src/log_store.rs:448-463 | after the first cut the marker names exactly the cursors that chunks do not hold |
| LogTiling.TiledAfterAppend | crates/runtime/src/log_store.rs:391-463 | after an append over the limit, marker and chunks account for every cursor if and only if nothing was cut before, or they did before and the kept tail did not move |
| LogTiling.TiledIff | crates/runtime/src/log_store.rs:366-474 | after any sequence of appends, marker and chunks account for every cursor if and only if no two cuts kept different tails |
| LogTiling.TilingLost | crates/runtime/src/log_store.rs:448-463 | a stream of two appends whose marker and chunks leave a cursor out |
| LogTiling.DroppedWasOnDisk | crates/runtime/src/log_store.rs:391-414 | the first dropped position was on disk, and a pass that drops nothing changes nothing |
| LogStream.LogStream.Truncate | crates/runtime/src/log_store.rs:386-463 | makes the edits of the cut in order, up to the first that fails |
| LogStream.LogStream.WriteMarker | crates/runtime/src/log_store.rs:448-463 | removes an old marker and puts the new one in place, if anything was dropped |
| LogEdits.EditsAreTheAppend | crates/runtime/src/log_store.rs:172-205 | the file operations of an append, all carried out, leave exactly the directory of the state after it |
| LogEdits.EditsAreOver | crates/runtime/src/log_store.rs:172-205 | the same over files that overlap, for every order in which files that start together are listed |
| LogEdits.OverIsTheAppend | crates/runtime/src/log_store.rs:172-205 | without overlaps both are the same append |
| LogEdits.RetentionIsCut | crates/runtime/src/log_store.rs:386-463 | the file operations of a cut are the cut |
| LogStream.LogStream.Measure | crates/runtime/src/log_store.rs:373-385 | of whatever files there are: the first cursor is the least of them, the retained bytes are those of all chunks and, once the limit is passed, of the marker, and the flag says whether it is |
| LogDirectory.RetainedLength | crates/runtime/src/log_store.rs:373-385 | the sum over a listing is the length of the payload, plus that of the marker where it counts |
| LogStream.LogStream.EnforceRetention | crates/runtime/src/log_store.rs:366-474 | cuts once the raw total passes the limit and, completed, returns what the resulting directory measures to, retained bytes included |
| LogStream.LogStream.WriteParts | crates/runtime/src/log_store.rs:172-188 | writes the parts at consecutive cursors from the next one, up to the first that fails |
| LogStore.WrittenFromEnd | crates/runtime/src/log_store.rs:172-188 | appended chunks are faithful to the longer text and cover exactly its new end |
| LogStream.LogStream.Append | crates/runtime/src/log_store.rs:154-229 | rejects bad retention and closed streams unchanged; otherwise, whatever files are there and for any number of operations that succeed, files, row and answer are exactly those of the append cut off there; the row is updated last, only if its values fit 63 bits, and only then does the text count as appended: raw total and next cursor grow by the input and the text, and the retained bytes are those of the files, or grow by the text below the limit; it fails only if an operation does or the row does not fit; a stream that holds what retention keeps still does |
| LogStream.LogStream.Store | crates/runtime/src/log_store.rs:171-227 | the same for the part behind the checks |
| LogStream.LogStream.ChangeFiles | crates/runtime/src/log_store.rs:171-205 | the file operations of an append are made in order up to the first that fails; completed they give the new row |
| LogStream.LogStream.CutFiles | crates/runtime/src/log_store.rs:190-205 | the second half of that, after the writes |
| LogStream.LogStream.CutPositions | crates/runtime/src/log_store.rs:399-406 | the two rounded cut positions of a chunk, in order |
| LogStore.AfterAppend | crates/runtime/src/log_store.rs:154-229 | the state after an append extends the text, adds the raw length, and has no overlapping files |
| LogStore.AppendIsSound | crates/runtime/src/log_store.rs:154-229 | an append to a stream that holds exactly what retention keeps leaves one that does |
| LogStream.LogStream.constructor | crates/runtime/src/log_store.rs:123-140 | a new stream satisfies the invariant with nothing appended |
| LogStore.FastFormAgrees | crates/runtime/src/log_store.rs:191-205 | the constant-time first cursor and retained bytes are what re-reading the directory would give |
| LogStore.KeptStep | crates/runtime/src/log_store.rs:386-447 | cutting now and cutting again after more text keeps what one cut of all the text keeps |
| LogStore.AppendComplete | crates/runtime/src/log_store.rs:174-205 | after an append the disk holds exactly what retention keeps of the whole text |
| LogTheorems.RetainedText | crates/runtime/src/log_store.rs:366-474 | after any sequence of appends the payload on disk, read in order, is the whole text, or once both limits are passed the text without the middle between rounded head end and rounded tail start |
| LogTheorems.RowIsExact | crates/runtime/src/log_store.rs:366-474 | after any sequence of appends: the next cursor is the length of the text, the total that of the raw input, the flag says that it passed the limit, the retained bytes are those of the payload and, if the flag is set, of the marker, and the first cursor is the least of all files |
| LogTheorems.StreamAfter | crates/runtime/src/log_store.rs:154-229 | the state after any sequence of appends satisfies the invariant and holds the text and raw total of all of them |
| LogTheorems.CanonicalRetention | crates/runtime/src/log_store.rs:366-474 | the same character by character: kept exactly if nothing had to be cut, or it ends within the head, or it starts within the tail |
| LogTheorems.SplitsDoNotMatter | crates/runtime/src/log_store.rs:154-229 | two streams fed the same text hold the same payload however appends and chunks were split |
| LogTheorems.StoredBytesAreAppendedBytes | crates/runtime/src/log_store.rs:174-188 | each stored byte is the appended byte of its cursor and channel, stored once, between the row's cursors |
| LogTheorems.PayloadBounds | crates/runtime/src/log_store.rs:386-447 | over the raw limit the payload is at most the limit, and once the text is over it too at least the limit minus six |
| LogCutOff.CutOffAnywhere | crates/runtime/src/log_store.rs:172-205 | after every file operation of an append to a sound stream the files hold faithful, disjoint pieces of the old and new text and nothing else; of what was there or written and is to be kept, exactly the characters of the one file being rewritten that are not yet written back are missing |
| LogCutOff.LossIff | crates/runtime/src/log_store.rs:415-446 | an append that is cut off loses something that it should keep if and only if it stops inside the rewriting of a file |
| LogCutOff.LossExample | crates/runtime/src/log_store.rs:415-446 | limit one, head zero, "ab": stopping after the file is removed loses the "b" |
| LogCutOff.CutOffWriting | crates/runtime/src/log_store.rs:172-188 | as long as the new text is being written, no file that was there is changed or lost |
| LogAftermath.NextAppendIff | crates/runtime/src/log_store.rs:169-188 | whatever failed before, after the writes of the next append, before it cuts, no files overlap if and only if it has overwritten every file that ends beyond the cursor it starts at |
| LogAftermath.CutOffKeeps | crates/runtime/src/log_store.rs:154-229 | over whatever files failures left, and wherever an append is cut off: what ends by the next cursor stays faithful to the text and stored once |
| LogAftermath.TidyCompletes | crates/runtime/src/log_store.rs:169-227 | a completed append of any length whose writes overwrite or whose cut absorbs every file that was left where its text goes leaves all files before the new cursor faithful and disjoint |
| LogRetries.TidyIff | crates/runtime/src/log_store.rs:169-227 | if the text fits the tail, that condition is also necessary |
| LogRetries.WholeAppendIff | crates/runtime/src/log_store.rs:169-227 | a whole append whose text fits the tail leaves no overlapping files if and only if it overwrites every file beyond the cursor it starts at, or replaces it if it is the marker |
| LogRetries.WhatIsLeft | crates/runtime/src/log_store.rs:386-463 | for a text of any length, each chunk file at the end is what the cut leaves of a file that was there after the writes, and all that it leaves of those is there |
| LogRetries.RemovedEntirely | crates/runtime/src/log_store.rs:393-446 | the cut removes a file without a trace if and only if it cuts all of its text |
| LogRetries.TidyHoldsText | crates/runtime/src/log_store.rs:169-227 | of the text of such an append exactly what the cut spares is on disk |
| LogRetries.RetriesEndWell | crates/runtime/src/log_store.rs:169-227 | however often an append was cut off, and wherever: tried again and completed, no files overlap, all are faithful, and of its text exactly what the cut spares is on disk |
| LogAftermath.AsIfNeverTried | crates/runtime/src/log_store.rs:169-227 | after a cut-off while writing, an append that overwrites what was left gives exactly the state it would have given without the failed one |
| LogAftermath.RetryCompletes | crates/runtime/src/log_store.rs:169-227 | the same append again completes one that was cut off while writing |
| LogRetries.RetryNeverOverlaps | crates/runtime/src/log_store.rs:169-205 | if its text fits the tail, then no files overlap after its writes either, after any number of cut-off tries |
| LogRetries.FailuresKeep | crates/runtime/src/log_store.rs:154-229 | over any run of appends, cut off anywhere over any files left, or completed tidily: the history is the text of the completed ones, and what ends by the next cursor is faithful to it and stored once |
| LogRetries.OverlapExample | crates/runtime/src/log_store.rs:169-188 | a failed row update below the limit after which a different text leaves overlapping files |
| LogRetries.MendingExample | crates/runtime/src/log_store.rs:169-205 | a failed row update over the limit: the same or a longer text overlaps what was left after the writes, but the cut of the longer one leaves no overlap |
| LogStream.LogStream.Read | crates/runtime/src/log_store.rs:268-327 | an expired cursor is refused; otherwise the page of the files that end beyond the cursor, without overlaps that of the pending chunks; a limit of one byte to one mebibyte is used as it is, and no page is over the limit asked for, except one byte for none |
| LogStream.LogStream.CollectPage | crates/runtime/src/log_store.rs:284-321 | the loop computes the page that the next rows are about |
| LogStream.LogStream.TakeFrom | crates/runtime/src/log_store.rs:290-319 | the piece taken of one chunk, with its cursors |
| LogPaging.PageIsFaithful | crates/runtime/src/log_store.rs:286-321 | for any text and limit: returned chunks are whole characters at the cursors they name, ordered, disjoint, and within the limit |
| LogPaging.PageIsLongest | crates/runtime/src/log_store.rs:286-321 | each piece starts at the first character from the cursor on and takes as many whole characters as fit what the pieces before it leave of the limit |
| LogPaging.PageStopsWhenFull | crates/runtime/src/log_store.rs:286-321 | a page ends before the last chunk only where the next one has no character that starts from the cursor on, or its first does not fit |
| LogPaging.GaplessIff | crates/runtime/src/log_store.rs:286-321 | wherever it starts, a page leaves out nothing between its ends if and only if no cut chunk is followed by one that still fits |
| LogPaging.SkippingExample | crates/runtime/src/log_store.rs:304-321 | a three-byte limit that loses a three-byte character |
| LogPaging.OneByteNeverSkips | crates/runtime/src/log_store.rs:304-321 | with one-byte characters no page skips, and a page is empty only when nothing is pending |
| LogPaging.FollowReadsEverything | crates/runtime/src/log_store.rs:268-327 | for any text, limit and start, following the end cursor delivers every byte whose character starts at or after the start, if and only if no page skips and the last one does not stall |
| LogPaging.StallsIff | crates/runtime/src/log_store.rs:300-307 | a page that returns nothing has stalled if and only if something was due |
| LogPaging.OneByteIsSmooth | crates/runtime/src/log_store.rs:268-327 | with one-byte characters no page skips or stalls |
| LogPaging.FourBytesSmooth | crates/runtime/src/log_store.rs:268-327 | with a limit of at least four bytes and a start between two characters, everything is read if and only if no page skips |
| LogPaging.StallExample | crates/runtime/src/log_store.rs:304-307 | one byte asked for, one three-byte character there: nothing is ever delivered |
| LogPaging.InsideExample | crates/runtime/src/log_store.rs:290-307 | a cursor inside the last character of a chunk: the next chunk is never delivered, whatever the limit |
| LogPaging.FollowInOrder | crates/runtime/src/log_store.rs:268-327 | across all pages and for any text nothing comes twice or out of order |
| LogTheorems.ReadersSeeEverything | crates/runtime/src/log_store.rs:268-327 | in every stream, for any limit and start, each character comes at most once and in order, and every retained one from the start on comes if and only if no page skips and none stalls |
| LogTheorems.FourBytesSuffice | crates/runtime/src/log_store.rs:268-327 | with a limit of at least four bytes a reader who starts between two characters sees everything if and only if no page skips |
| LogTheorems.OneByteReadersSeeEverything | crates/runtime/src/log_store.rs:268-327 | with one-byte characters every reader sees everything |
| LogTheorems.FollowIsAppendedText | crates/runtime/src/log_store.rs:268-327 | every payload chunk a reader ever gets is the appended text at its cursors |
| LogReader.ReaderKeepsUp | crates/runtime/src/log_store.rs:268-327 | however appends, cuts and pages alternate, a reader gets pieces of the final text in order, none twice; and if no page skipped a character, all that is still on disk before its cursor |
| LogReader.CaughtUpIff | crates/runtime/src/log_store.rs:286-321 | a reader who had everything on disk before its cursor still has after a page if and only if the page skipped no character |
| WorkQueue.AttemptsAreClaims | crates/infrastructure/src/operations.rs:303-342 | in every reachable state attempts are the claims issued, never more than five, even after the item left the queue |
| WorkQueue.FencedForever | crates/infrastructure/src/operations.rs:355-464 | once an item is claimed again, every earlier nonce is rejected by every call forever, whatever the clocks read |
| WorkQueue.LeasesDisjoint | crates/infrastructure/src/operations.rs:293-400 | in whatever order calls read their clocks: uses of an earlier claim lie strictly before a later claim and all of its uses, as long as no worker reads its clock before its claim did, or renews or releases to before a time it already used |
| WorkQueue.OrderedLeasesDisjoint | crates/infrastructure/src/operations.rs:293-400 | the same for clock readings that are in order altogether |
| WorkQueue.GivenTimeIsPrudent | crates/infrastructure/src/operations.rs:319-342 | claims with a nonnegative time to live are in order by themselves |
| WorkQueue.InOrderIsPrudent | crates/infrastructure/src/operations.rs:293-400 | clock readings that are in order altogether meet all these conditions |
| WorkQueue.DeadForever | crates/infrastructure/src/operations.rs:303-370 | a dead-lettered item is never leased and never live again, and it stays as it is if and only if nobody reports on its last claim with a clock reading from before the claim ran out |
| WorkQueue.LateReportRemoves | crates/infrastructure/src/operations.rs:357-370 | a run from the empty queue: a completion whose clock read 49 removes an item that a sweep at 60 dead-lettered |
| WorkQueue.EarlyRenewalOverlaps | crates/infrastructure/src/operations.rs:375-400 | a renewal to before a time already used lets two leases overlap: the condition on renewals is needed |
| WorkQueue.ReadThenUpdate | crates/infrastructure/src/operations.rs:407-464 | in every reachable state an accepted failure update decides on the attempts the item still has |
| WorkQueue.PredictionAgrees | crates/infrastructure/src/operations.rs:466-488 | the dead-letter prediction for a live claim is what a later accepted failure does |
| WorkQueue.RetryIsLater | crates/infrastructure/src/operations.rs:423-442 | a retryable failure waits 1, 1, 2, 4 or 8 seconds by the attempts made, and up to a quarter more |
| WorkQueue.RunKeeps | crates/infrastructure/src/operations.rs:293-464 | over whole runs the queue keeps its invariant, and claims and uses are never taken back |
| Operations.OperationStore.EnqueueWork | crates/infrastructure/src/operations.rs:264-287 | inserts an unclaimed item, due now, with no attempts |
| Operations.OperationStore.OldestClaimable | crates/infrastructure/src/operations.rs:319-342 | finds an oldest claimable item, or shows there is none |
| Operations.OperationStore.ClaimWork | crates/infrastructure/src/operations.rs:293-353 | sweeps, then leases, as two steps |
| Operations.OperationStore.SweepWork | crates/infrastructure/src/operations.rs:303-317 | dead-letters exactly the items that are out of attempts and whose lease has run out |
| Operations.OperationStore.LeaseWork | crates/infrastructure/src/operations.rs:319-342 | takes an oldest item that is for this handler, not dead, due, with attempts left and without a running lease, under a fresh nonce and until the time given, or there is none; nothing else changes |
| Operations.OperationStore.CompleteWork | crates/infrastructure/src/operations.rs:357-370 | removes the item exactly if its nonce is the one given and its lease has not run out; nothing else changes |
| Operations.OperationStore.RenewWork | crates/infrastructure/src/operations.rs:375-400 | extends the lease, by at least a second, exactly if the item is live, its nonce is the one given and its lease has not run out |
| Operations.OperationStore.ReadFailing | crates/infrastructure/src/operations.rs:413-421 | reads the attempts of the item held under the nonce |
| Operations.OperationStore.UpdateFailed | crates/infrastructure/src/operations.rs:422-463 | exactly if the nonce is the one given and the lease has not run out: releases the item until the retry, or dead-letters it after five attempts or on demand |
| Operations.OperationStore.WorkWillDeadLetter | crates/infrastructure/src/operations.rs:466-488 | predicts for an owned claim whether a failure would be final |
| Operations.OperationStore.CheckLease | crates/infrastructure/src/operations.rs:503-517 | the ownership check inside a transaction |
| Operations.OperationStore.Create | crates/infrastructure/src/operations.rs:142-258 | creates a queued operation with its running record and its work, or answers from a record that has not expired without creating anything: reused or stored for the same digest, refused for another |
| Operations.OperationStore.InsertOperation | crates/infrastructure/src/operations.rs:167-216 | the new operation is queued and its record is running |
| Operations.OperationStore.BeginStepClaimed | crates/infrastructure/src/operations.rs:494-582 | checks the lease, then begins the step |
| Operations.OperationStore.BeginStep | crates/infrastructure/src/operations.rs:518-581 | inserts the step row first and rolls back when the operation is not live; a new step is to be run, a succeeded one is not, a running one needs reconciliation |
| Operations.OperationStore.CompleteStepClaimed | crates/infrastructure/src/operations.rs:587-634 | marks an existing step succeeded for the lease holder, keeping a known reference; nothing else changes |
| Operations.OperationStore.Finish | crates/infrastructure/src/operations.rs:638-718 | an answered finish writes the outcome as in the row below, whatever its status; a missing operation changes nothing; the invariant is kept if the status is terminal |
| Operations.OperationStore.WriteOutcome | crates/infrastructure/src/operations.rs:654-706 | on the stored rows: the operation has the status given and no current step, result and problem are those given or the old ones where absent, no other operation changes, exactly its records show the status, and exactly its running steps fail, and only on attention |
| Operations.OperationStore.FinishClaimed | crates/infrastructure/src/operations.rs:723-820 | the same, exactly for a live operation and the lease holder; otherwise nothing changes |
| Operations.OperationStore.UpdateProgressClaimed | crates/infrastructure/src/operations.rs:896-967 | records progress only for a live operation and the lease holder |
| Operations.OperationStore.AssertClaimed | crates/infrastructure/src/operations.rs:826-841 | answers whether the lease is owned |
| Operations.OperationStore.PruneExpiredIdempotency | crates/infrastructure/src/operations.rs:1047-1062 | removes exactly the expired records |
| Journal.StepRunsAtMostOnce | crates/infrastructure/src/operations.rs:494-582 | over every interleaving a caller is told to run a step at most once, and never when it has a row |
| Journal.FailedStepNeverRuns | crates/infrastructure/src/operations.rs:535 | in every reachable state beginning an existing failed step is rolled back |
| Journal.TerminalForever | crates/infrastructure/src/operations.rs:559-579 | a finished operation never becomes live again |
| Journal.SucceededForever | crates/infrastructure/src/operations.rs:525-527 | a succeeded step stays so, keeps a reference, and is answered with already succeeded |
| Journal.LiveFinishRunsTwice | crates/infrastructure/src/operations.rs:638-697 | a finish with a live status would let a step run twice |
| Journal.RetriedRequest | crates/infrastructure/src/operations.rs:148-165 | the same request inside its window creates nothing and is answered with the first operation, if and only if no call whose clock had passed the window cleared or took over the record |
| Journal.RecordStaysIff | crates/infrastructure/src/operations.rs:148-230 | a record speaks for its request exactly until such a call |
| Journal.RecordsShowOutcomes | crates/infrastructure/src/operations.rs:698-706 | in every reachable state an idempotency record shows its operation's outcome |
| Journal.OutcomeIsLastGiven | crates/infrastructure/src/operations.rs:638-820 | over every run, an operation that was finished has in the end the status, the result and the problem that were given last |
| Journal.RunKeeps | crates/infrastructure/src/operations.rs:494-820 | failed steps belong to finished operations and none runs on attention, over whole runs |
| BlobStore.ReferencesAreReadable | crates/infrastructure/src/managed_storage.rs:64-68 | safety means every reference leads to exactly its content, of the recorded length |
| BlobStore.Store.Write | crates/infrastructure/src/managed_storage.rs:69-111 | cut off anywhere, every reference stays readable; a stored result has its reference; a length mismatch is never reported; it ends unfinished only if it is cut off or its temporary file is cleaned away; of files, records and references only those of the content can be new |
| BlobStore.Store.ConfirmFile | crates/infrastructure/src/managed_storage.rs:74-76 | a file that is there is taken over only if the recorded length agrees, which it always does |
| BlobStore.Store.PlaceFile | crates/infrastructure/src/managed_storage.rs:82-106 | the file appears under its hash with its whole content or not at all |
| BlobStore.Store.VerifyLength | crates/infrastructure/src/managed_storage.rs:120-159 | compares with the record, or rebuilds a lost record from the file |
| BlobStore.Store.RegisterReference | crates/infrastructure/src/managed_storage.rs:161-202 | one transaction inserts the record unless present and sets the reference |
| BlobStore.Store.DropReference | crates/infrastructure/src/managed_storage.rs:205-223 | removes the reference, or records an intent when it cannot |
| BlobStore.Store.RecoverCleanup | crates/infrastructure/src/managed_storage.rs:228-285 | run to the end, of a reference that others leave alone: with an intent due by now neither the reference nor the intent is left, otherwise both are exactly as before; the count is that of the due intents, all of them reachable; an unreachable one is kept, backed off by 1, 2, 4, 8, 16, 32 or 60 seconds, and stops the run; whatever others do meanwhile, only due references go and no other intent is lost |
| BlobStore.Store.RetryDue | crates/infrastructure/src/managed_storage.rs:237-284 | the loop over the due intents |
| BlobStore.SurvivesIff | crates/infrastructure/src/managed_storage.rs:228-285 | a reference survives a completed recovery that others leave alone if and only if it has no intent due by then, and its intent survives if and only if it is due later; what survives is as it was |
| BlobStore.FailedDropIsMade | crates/infrastructure/src/managed_storage.rs:205-285 | a deletion that could not be made, and was noted, is made by a completed recovery at that time or later |
| BlobStore.NoDeletionIsForgotten | crates/infrastructure/src/managed_storage.rs:237-284 | however a recovery ends, an intent that others leave alone and that did not fail is as it was or gone with its reference |
| BlobStore.Store.RecoverOne | crates/infrastructure/src/managed_storage.rs:237-282 | one due intent: its reference and then itself are deleted, or it is backed off |
| BlobStore.Store.SweepUnreferenced | crates/infrastructure/src/managed_storage.rs:291-382 | cut off anywhere it is safe, and it ends unfinished exactly if it is cut off; completed with no drops, records are exactly the referenced ones, all present, and the count is right |
| BlobStore.Store.SweepOne | crates/infrastructure/src/managed_storage.rs:316-380 | a referenced candidate is kept and marked present, any other removed |
| BlobStore.Store.SweepAll | crates/infrastructure/src/managed_storage.rs:315-381 | visits every candidate; cut off, only candidates have lost a file or record |
| BlobStore.Store.Visit | crates/infrastructure/src/managed_storage.rs:316-380 | one iteration leaves the sweep with one candidate less |
| BlobStore.Store.Discard | crates/infrastructure/src/managed_storage.rs:330-379 | trash mark, file and record go in this order; the last check for a new reference never fires |
| BlobStore.Store.CleanIncoming | crates/infrastructure/src/managed_storage.rs:415-427 | removes all temporary files |
| AsyncTask.TerminalStays | crates/runtime/src/service.rs:1723-1741 | in every race a finished task keeps its status, exit code and signal |
| AsyncTask.CancelWins | crates/runtime/src/service.rs:685-717 | a cancellation recorded while live ends as canceled or lost; recorded while queued, the task never runs |
| AsyncTask.DeliveredAtMostOnce | crates/runtime/src/service.rs:1013-1034 | delivery of a task is claimed at most once in any run |
| AsyncTask.GoneStays | crates/runtime/src/service.rs:939-951 | a deleted task does not come back |
| AsyncTask.Service.StartAsyncTask | crates/runtime/src/service.rs:632-774 | answers with a running task nobody canceled, under the identity the executor gave, or with a finished one; after an error the task is not live, and the error says why; if nobody else acts, a good handle gives exactly the new running task, and each failure exactly a lost one |
| AsyncTask.Service.RefuseStart | crates/runtime/src/service.rs:666-684 | a cancellation before the start leaves the task finished |
| AsyncTask.Service.Launch | crates/runtime/src/service.rs:685-773 | the three executor outcomes and the conditional transition to running |
| AsyncTask.Service.CancelAsyncTask | crates/runtime/src/service.rs:787-825 | whatever others do, an answer reports a finished task, canceled or lost if it was live; if nobody else acts, exactly the live task is lost, for the reason of its status |
| AsyncTask.Service.AwaitCancel | crates/runtime/src/service.rs:805-824 | the polling loop ends and answers only with finished tasks |
| AsyncTask.Service.CancelStarted | crates/runtime/src/service.rs:1856-1885 | polls for the watcher and falls back to lost |
| AsyncTask.Service.MarkAsyncTaskLost | crates/runtime/src/service.rs:1887-1928 | afterwards the task is not live; a missing row is reported |
| AsyncTask.Service.Finalize | crates/runtime/src/service.rs:1689-1751 | a live row ends as canceled if and only if that is forced or was requested, else as succeeded if and only if the exit code is 0, else as failed, with the exit given; every other row and a finished one stay as they are |
| AsyncTask.StatusTellsExit | crates/runtime/src/service.rs:1713-1717 | in every reachable state a succeeded task has exit code 0, a failed one another or none, neither was canceled, a lost one has a reason, and a live one no exit |
| AsyncTask.SettleDecides | crates/runtime/src/service.rs:1689-1751 | settling a live task decides, for the rest of every run, its exit and whether it is canceled, succeeded or failed |
| AsyncTask.WasSettled | crates/runtime/src/service.rs:1689-1751 | a task that is succeeded, failed or canceled at the end was settled while it was live, with the exit it has: with code 0 if it is succeeded, without it if it is failed |
| AsyncTask.Service.RecoverUncertain | crates/runtime/src/service.rs:1595-1611 | restart recovery marks exactly the live tasks lost |
| AsyncTask.Service.RequestCancellation | crates/runtime/src/service.rs:793-804 | records the request on a live task that has none |
| AsyncTask.Service.MarkRunning | crates/runtime/src/service.rs:690-711 | only a queued task without a request becomes running |
| AsyncTask.Service.SetLost | crates/runtime/src/service.rs:1901-1918 | only a live task becomes lost |
| AsyncTask.Service.GiveUp | crates/runtime/src/service.rs:1883-1884 | marking lost and reading again reports a finished task |
| AsyncTask.Service.DeleteSessionResources | crates/runtime/src/service.rs:946-951 | removes exactly the session's tasks |
| AsyncTask.Service.ClaimTaskDelivery | crates/runtime/src/service.rs:1013-1034 | claims exactly a finished task whose delivery is neither claimed nor completed |
| AsyncTask.Service.CompleteTaskDelivery | crates/runtime/src/service.rs:1036-1051 | marks the delivery completed |
| EventLog.LogIsGapFree | crates/infrastructure/src/events.rs:237-302 | for every interleaving committed cursors are 1 to the counter and the log only grows at its end |
| EventLog.StepAppends | crates/infrastructure/src/unit_of_work.rs:86-107 | a commit appends exactly the transaction's events in order; sent again, it appends nothing |
| EventLog.NoConflictUnderLock | crates/infrastructure/src/events.rs:215-226 | when every transaction takes the lock before its snapshot and none begins while a given-up commit is unresolved, no append meets a conflict |
| EventLog.ConflictIff | crates/infrastructure/src/unit_of_work.rs:86-107 | a transaction under the lock meets a conflict if and only if a given-up commit was unresolved when it began and the server has not dropped that one |
| EventLog.ConflictWithoutLock | crates/infrastructure/src/unit_of_work.rs:7-19 | without the lock an append can be aborted |
| EventReader.EventStore.BeginUnitOfWork | crates/infrastructure/src/unit_of_work.rs:35-59 | starts a transaction under the lock if and only if one of five attempts works and all before it failed transiently; any other error ends it at once and leaves everything as it was |
| EventReader.EventStore.AppendInTx | crates/infrastructure/src/events.rs:237-302 | returns the cursor the event will have, which is then the last of the transaction, or aborts on a conflict: another snapshot, or another transaction with events that are not committed |
| EventReader.EventStore.Commit | crates/infrastructure/src/unit_of_work.rs:86-107 | it succeeds exactly if an acknowledgment is the first answer of four that is not lost; then the log grew by exactly the events; otherwise by those or nothing, never twice |
| EventReader.EventStore.SendCommit | crates/infrastructure/src/unit_of_work.rs:86-91 | one attempt: applied or not, as the answer has it, and over only if the answer arrives |
| EventReader.EventStore.ServerApply | crates/infrastructure/src/unit_of_work.rs:86-91 | a commit request is applied once however often it arrives |
| EventReader.EventStore.Rollback | crates/infrastructure/src/unit_of_work.rs:109-111 | leaves log and counter as they were |
| EventReader.EventStore.ReadAfter | crates/infrastructure/src/events.rs:330-353 | returns the longest visible run right after the cursor, up to the limit asked for and up to a thousand; no limit is zero |
| EventReader.EventStore.FindRows | crates/infrastructure/src/events.rs:333-344 | the sorted query, with at most as many rows as asked for and at most a thousand; no limit is zero |
| EventReader.ReaderHoldsAPrefix | crates/infrastructure/src/events.rs:324-353 | over any interleaving and any visibility a reader holds the first events of the log, in order, none missing or twice |
| EventReader.NextEventsFollow | crates/infrastructure/src/events.rs:324-353 | what a query of any part of the log returns are exactly the next events, and some if all are visible |
| EventReader.WorkerLosesNothing | crates/infrastructure/src/events.rs:355-381 | across batches, persisted positions and restarts everything up to the position was handled as the log has it |
| Sse.SseParser.Push | crates/models/src/sse.rs:19-47 | draining the buffer line by line is feeding the bytes one by one |
| Sse.SseParser.Position | crates/models/src/sse.rs:22 | finds the first line end |
| Sse.SseParser.TakeLine | crates/models/src/sse.rs:27-44 | the effect of one line on event name, data lines and frames |
| Sse.DataLineMeans | crates/models/src/sse.rs:27-44 | a data line, with or without blanks behind the colon and a carriage return, adds what follows the blanks |
| Sse.EventLineMeans | crates/models/src/sse.rs:27-44 | an event line sets the name without the blanks around it |
| Sse.EmptyLineMeans | crates/models/src/sse.rs:27-44 | an empty line ends a frame, if there is anything in it, and starts from nothing |
| Sse.OtherLinesAreIgnored | crates/models/src/sse.rs:27-44 | every other line, such as a comment, changes nothing |
| Sse.FeedConcat | crates/models/src/sse.rs:19-47 | feeding two pieces is feeding their concatenation |
| Sse.ChunkingDoesNotMatter | crates/models/src/sse.rs:20-26 | frames and final state do not depend on how the bytes are cut |
| Sse.PipelineDependsOnBytes | crates/models/src/sse.rs:19-47 | so neither does what any assembler behind the parser ends up with |
| SseRoundTrip.PrintedParses | crates/models/src/sse.rs:27-44 | what comes back for any event name and data lines |
| SseRoundTrip.RoundTripIff | crates/models/src/sse.rs:27-44 | a printed frame comes back unchanged if and only if nothing in it would be trimmed and it is not empty |
| SseRoundTrip.BlanksAreLost | crates/models/src/sse.rs:27-44 | a data line with two leading blanks comes back without them |
| StreamTypes.AppendReasoningSummary | crates/models/src/stream_types.rs:86-109 | inserts a line break exactly before a capitalized long delta between two non-blanks |
| StreamTypes.SummaryAddsOnlyBreaks | crates/models/src/stream_types.rs:83-109 | the display form is the verbatim text with a line break before exactly those deltas that meet what is before them without blanks, are at least 20 bytes long and begin with an upper-case letter |
| OpenaiChat.DeltasReplayToResult | crates/models/src/openai_chat.rs:151-325 | events are numbered 1 to n and replaying them gives the completed text, verbatim and displayed reasoning; and the tool calls if and only if all slot indexes fit 32 bits |
| OpenaiChat.ResultIsWhatWasSent | crates/models/src/openai_chat.rs:151-325 | for every chunk sequence: completed if and only if the end was sent; then text and verbatim reasoning are all contents and all reasonings in order, the display form is that of the nonempty reasonings, finish reason and usage are the last sent, and the calls are those of the indexes that a name was sent for, in order, each with its last id and name and all its arguments |
| OpenaiChat.StreamReceived | crates/models/src/openai_chat.rs:151-281 | from any state: text, reasoning, slots, finish reason and usage grow by what was sent, and the events pass on every nonempty content and reasoning, every usage report and one delta per call, in order |
| OpenaiChat.StreamFaithful | crates/models/src/openai_chat.rs:151-281 | from any state, a consumer that agrees still agrees after any chunks |
| OpenaiChat.EventsDependOnBytes | crates/models/src/openai_chat.rs:151-281 | events and state depend only on the bytes of the response |
| OpenaiChat.OpenaiChatAssembler.IngestData | crates/models/src/openai_chat.rs:151-281 | the nested loops over fields are one chunk's step, the one that the rows before are about |
| OpenaiChat.OpenaiChatAssembler.IngestChoice | crates/models/src/openai_chat.rs:199-279 | one choice: finish reason, reasoning, content, tool calls |
| OpenaiChat.OpenaiChatAssembler.IngestReasoning | crates/models/src/openai_chat.rs:206-221 | the verbatim reasoning grows by the field, that the field was seen is kept, and one event passes it on unless it is empty |
| OpenaiChat.OpenaiChatAssembler.IngestContent | crates/models/src/openai_chat.rs:222-235 | the text grows by the field, and one event passes it on unless it is empty |
| OpenaiChat.OpenaiChatAssembler.IngestCalls | crates/models/src/openai_chat.rs:236-278 | the loop over the tool-call deltas |
| OpenaiChat.OpenaiChatAssembler.IngestCall | crates/models/src/openai_chat.rs:237-276 | there are slots up to the index; the one named takes the id and name that are given and the arguments behind its own, and no other slot changes |
| OpenaiChat.OpenaiChatAssembler.Finish | crates/models/src/openai_chat.rs:283-325 | truncated without a terminal frame, else the result of the fields |
| OpenaiResponses.AliasesAreNeverRemapped | crates/models/src/openai_responses.rs:318-364 | for every event sequence an alias keeps the valid slot it first got |
| OpenaiResponses.DeltasLandInOneSlot | crates/models/src/openai_responses.rs:259-280 | every argument delta of an item grows the arguments of the one slot that its id resolves to in the end, by the delta, and no other slot |
| OpenaiResponses.DeltaGrows | crates/models/src/openai_responses.rs:259-280 | one argument delta: where it resolves, that it grows this slot only, and the event that says so |
| OpenaiResponses.ItemSends | crates/models/src/openai_responses.rs:294-309 | a merged item gives the slot it resolves to its call id as id, its name, and its arguments in place of the deltas, as far as it has them |
| OpenaiResponses.SlotsAreWhatWasSent | crates/models/src/openai_responses.rs:259-364 | for every event sequence: the slot that a name resolves to has the last call id sent under its names, or else the name it was first mentioned by, the last name, and the last final arguments followed by the deltas after them |
| OpenaiResponses.EnsureToolKeeps | crates/models/src/openai_responses.rs:318-364 | after resolving a call all its names resolve, and none was taken from another slot |
| OpenaiResponses.EnsureToolResolves | crates/models/src/openai_responses.rs:318-364 | a call resolves to the slot of its item id if that is known, else to that of its call id, else to a new one; new names resolve there, and nothing else changes |
| OpenaiResponses.EnsureToolFields | crates/models/src/openai_responses.rs:318-364 | the slot keeps id and arguments and takes a name that is given; a new one is named after the call id, else the item id, else its number |
| OpenaiResponses.MergedStandsForAll | crates/models/src/openai_responses.rs:395-423 | the result has distinct ids, represents every named slot, and carries the longest arguments per id |
| OpenaiResponses.EarlierCallsStay | crates/models/src/openai_responses.rs:395-423 | the calls come in the order in which their ids first appear, with the name of the first slot |
| OpenaiResponses.TextReplays | crates/models/src/openai_responses.rs:217-257 | events are numbered consecutively and their text deltas rebuild the text and the reasoning |
| OpenaiResponses.ResultIsWhatWasSent | crates/models/src/openai_responses.rs:167-434 | for every event sequence: completed if and only if an end was sent; then the text is all text in order, the reasoning the display form of all nonempty reasoning deltas, and the usage the last sent |
| OpenaiResponses.StreamReceived | crates/models/src/openai_responses.rs:167-257 | from any state: text, usage and failure are what was sent, and the events pass on every nonempty text and reasoning and every failure, in order |
| OpenaiResponses.OpenaiResponsesAssembler.IngestEvent | crates/models/src/openai_responses.rs:167-215 | one event updates the fields as its step says and keeps the alias table valid |
| OpenaiResponses.OpenaiResponsesAssembler.ResolveTool | crates/models/src/openai_responses.rs:318-364 | the loops over the keys compute the resolved table and slot |
| OpenaiResponses.OpenaiResponsesAssembler.MergeToolItem | crates/models/src/openai_responses.rs:294-309 | merges one item into its slot |
| OpenaiResponses.OpenaiResponsesAssembler.MergeToolItems | crates/models/src/openai_responses.rs:286-292 | merges a list of items one after the other |
| OpenaiResponses.OpenaiResponsesAssembler.FunctionArgumentsDelta | crates/models/src/openai_responses.rs:259-280 | appends to the resolved slot and emits its delta |
| OpenaiResponses.OpenaiResponsesAssembler.FindKnown | crates/models/src/openai_responses.rs:332-333 | finds the first key that is known |
| OpenaiResponses.OpenaiResponsesAssembler.LinkOthers | crates/models/src/openai_responses.rs:336-341 | links the other keys without taking one from another slot |
| OpenaiResponses.OpenaiResponsesAssembler.InsertKeys | crates/models/src/openai_responses.rs:360-362 | registers the keys of a new slot |
| OpenaiResponses.OpenaiResponsesAssembler.AddCall | crates/models/src/openai_responses.rs:414-422 | keeps the longer arguments of two calls with one id |
| OpenaiResponses.OpenaiResponsesAssembler.Finish | crates/models/src/openai_responses.rs:391-434 | the merging loop computes the result; listed ids are distinct |
| Anthropic.DeltasReplayToResult | crates/models/src/anthropic.rs:147-353 | events are numbered 1 to n and replaying them gives the completed text and displayed reasoning; and the tool arguments if and only if all slot indexes fit 32 bits |
| Anthropic.ResultIsWhatWasSent | crates/models/src/anthropic.rs:147-353 | for every event sequence: completed if and only if the end was sent; then the text is all text in order, the reasoning the display form of all thinking, stop reason and token counts are the last sent, and there is one call for every block that started, with its id and name and the argument deltas of its number since then |
| Anthropic.StreamReceived | crates/models/src/anthropic.rs:147-320 | the same from any state, and the events pass on all text, thinking and output counts in order |
| Anthropic.AnthropicAssembler.Ingest | crates/models/src/anthropic.rs:147-320 | one event updates the fields as its step says |
| Anthropic.AnthropicAssembler.Finish | crates/models/src/anthropic.rs:322-353 | truncated without a terminal frame, else the result of the fields |
| Base32.Encode | crates/identity/src/interface.rs:1680-1699 | the buffer loop computes the RFC 4648 characters although high bits are lost; the length is the ceiling of 8n/5 |
| Base32.Drain | crates/identity/src/interface.rs:1688-1692 | the inner loop emits every complete group and leaves fewer than five bits |
| Base32.Decode | crates/identity/src/interface.rs:1702-1722 | the buffer loop regroups the digits; an unknown character is an error |
| Base32.SymbolMeaning | crates/identity/src/interface.rs:1707-1713 | a character reads as a digit exactly if its capital stands there in the alphabet, is skipped exactly if it is a separator, and is an error otherwise |
| Base32.Base32RoundTrip | crates/identity/src/interface.rs:1680-1722 | decoding undoes encoding for every byte sequence |
| Base32.NoiseIsTolerated | crates/identity/src/interface.rs:1706-1713 | also when letters changed case and separators were put in anywhere |
| Base32.InsertedSeparators | crates/identity/src/interface.rs:1711 | padding, spaces and hyphens anywhere do not change the cleaned text |
| Base32.CleanedReadsTheSame | crates/identity/src/interface.rs:1706-1713 | a text and its cleaned form have the same digits |
| Base32.UnknownIsError | crates/identity/src/interface.rs:1712 | a text has no digits exactly if some character is unknown |
| Base32.LowerCaseReadsTheSame | crates/identity/src/interface.rs:1707-1710 | lower-casing does not change the cleaned text |
| Base32.ShiftIn | crates/identity/src/interface.rs:1686-1687 | shifting into 32 bits never loses a pending bit |
| Base32.EncodedLength | crates/identity/src/interface.rs:1680-1699 | the number of characters, all from the alphabet |
| Base32.EncodingSpells | crates/identity/src/interface.rs:1680-1699 | the text read as a number in base 32 is the input read in base 256, with zero bits behind it up to a multiple of five |
| Base32.DecodingSpells | crates/identity/src/interface.rs:1702-1722 | decoded bytes read in base 256 are the digits read in base 32 without the bits that do not fill a byte |
| Totp.TotpCode | crates/identity/src/interface.rs:1753-1761 | truncation reads four bytes inside the twenty-byte digest and gives at most six digits |
| Totp.ConstantTimeEq | crates/identity/src/interface.rs:1789-1798 | the accumulating loop decides equality |
| Totp.VerifyTotp | crates/identity/src/interface.rs:1766-1783 | the least matching counter above the minimum whose thirty seconds, or those before or after, hold the time, or none exists |
| Totp.AcceptedCountersIncrease | crates/identity/src/interface.rs:755-804 | over every interleaving of logins accepted counters strictly increase from the enrolment counter |
| Totp.SameCounterOnce | crates/identity/src/interface.rs:785-804 | a counter that was accepted is never accepted again |
| Totp.CodeTwiceIff | crates/identity/src/interface.rs:755-804 | for every code and enrolment: some interleaving of logins that present the code is accepted twice if and only if two counters after the enrolment have it |
| Totp.NothingBeforeEnrolment | crates/identity/src/interface.rs:768-789 | without a stored counter no login is accepted |
| Totp.Owner.Login | crates/identity/src/interface.rs:772-804 | verifies against what was read; granted exactly if a counter matched and the row still holds an older one, which it then replaces |
| Totp.Owner.ReadCounter | crates/identity/src/interface.rs:768-771 | a login reads the stored counter, or minus one |
| LoginRate.LoginRate.Allow | crates/identity/src/interface.rs:184-194 | pruning the front leaves exactly the recent failures; an attempt is allowed exactly while there are fewer than five failures or the fifth last is at least 61 seconds old |
| LoginRate.LoginRate.Record | crates/identity/src/interface.rs:196-198 | appends the failure of an attempt that passed the check, whatever others are under way, and keeps the bound |
| LoginRate.WindowBound | crates/identity/src/interface.rs:176-199 | any interval shorter than 61 seconds holds at most four failures more than there were attempts under way at once |
| LoginRate.BoundIsReached | crates/identity/src/interface.rs:176-199 | for every number of attempts at once there is a run that reaches the bound, within one instant |
| Shell.QuoteIsOneWord | scripts/deploy_image.js:419-425 | a quoted value lexes as one word, the value, whatever it contains |
| Shell.ImageAndCommandLexesBack | scripts/deploy_image.js:458-461 | the built text lexes to the image, the rest of the entrypoint and the command |
| Shell.CommandAloneLexesBack | scripts/deploy_image.js:427-461 | without an entrypoint there is no option, and the text lexes to the image and the command, absent, one string or a list |
| Shell.ArgvIsPreserved | scripts/deploy_image.js:439-461 | with the entrypoint option the container's arguments are the original ones |
| Shell.EntrypointLexesBack | scripts/deploy_image.js:439-461 | with an entrypoint, one string or a list, the text lexes to the option, its first string, the image, the other strings and the command |

## Left out

- LogStream.LogStream.Append: an appended text is shorter than 2^63 bytes, as every string is.
- LogAftermath.TidyCompletes: for a text longer than the tail the condition is sufficient only, since a piece with other text whose name the cut writes again later would also do no harm.
- LogRetries.FailuresKeep: an append that completes without being tidy is not followed any further; if its text fits the tail, files overlap then.
- LogReader.ReaderKeepsUp: a reader whose cursor has expired is taken to go on from the first cursor it is told; appends do not fail there.
- Redaction and lossy decoding of appended input: the appended text is an arbitrary UTF-8 text.
- Temporary files of `write_atomic`, and errors of reading files, which leave the same files as an error of the operation after it.
- Changing the retention of a stream between appends.
- Rendering of chunk files as JSON; a file holds its chunk.
- MongoDB failures and retries of single updates; a transaction is one step, except for event commits.
- Journal.StepRunsAtMostOnce: assumes that operations are finished with terminal statuses; `Journal.LiveFinishRunsTwice` shows why.
- WorkQueue.LeasesDisjoint: assumes workers that are careful with the clock readings of their own claim, and claims whose reading is not before that of the claim they replace; `WorkQueue.EarlyRenewalOverlaps` shows why for renewals.
- Operations.OperationStore.PruneExpiredIdempotency: the second collection it prunes, of command records, is not modelled.
- `stale_running`, operation listings, versions and change events of operations: queries and notifications.
- BlobStore.Store.Write: a partly written temporary file is modelled as empty, since only its complete content is renamed.
- BlobStore.Store.RecoverCleanup: due intents are visited in an arbitrary order, which includes the sorted one; references that others add lead to objects that are already stored.
- SHA-256 is any injective function; directory creation and syncing are not modelled.
- AsyncTask.Service.StartAsyncTask: the executor, timeouts and the log stream are parameters; the watcher is one of the others.
- Runtimes, terminals and notification of listeners.
- The choice of a projection worker's first position when none was persisted.
- JSON parsing in the assemblers and its error return: events arrive parsed, with absent and mistyped fields as missing.
- Anthropic.DeltasReplayToResult: whether tool arguments are complete relative to the provider's blocks is not claimed, since slots and block indexes can differ.
- OpenaiResponses.TextReplays: tool arguments are not replayed, since a later item replaces them.
- Reasoning durations, request bodies and tool name mangling.
- HMAC-SHA1 and the six-digit rendering of a code: a code is any function of the counter.
- Recovery codes, passkeys, sessions and origins.
- Shell.Lex: characters outside quotes that would start an operator, comment or expansion make it fail instead of being interpreted; double quotes are not modelled.
- The web client, configuration, wiring and the remaining crates.
