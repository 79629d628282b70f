# A verified model of CharlieBot's core logic

CharlieBot runs coding agents and keeps their conversations. Much of its core is code where a fast,
stateful or incremental form has to agree with a simple one: a page of a chat log served from a
partly parsed suffix instead of the whole file, a judgment kept as two counters instead of two
scans, a stream translated block by block instead of at once, a date computed by five divisions
instead of a calendar. These Dafny modules model that code and prove the agreement for every input
and every run.

What is proved, component by component:

- **Chat-event pages** (`PhysicalLines`, `TailWalk`, `LiveRange`, `Archive`, `ChatStore`,
  `ChatSession`). Over any run of appends (also ones landing between stats, count, walk and read),
  rewrites, evictions and page reads, every page equals split-the-whole-file, parse, slice, unless a
  lone CR makes the line counter wrong; then it is moved on by no more lines than the counter misses.
  The backward walk, the forward and backward extensions and the full build are all covered, on every
  content: CR, LF and CRLF terminators and torn last lines. Over any run of saves, cache loads,
  rotations and range reads, a range read is the slice of the list of all saved events. Where the
  code leaves its own contract there is an if-and-only-if and a concrete log that shows it: a lone CR
  shifts the page of a cold walk by exactly the lines the counter misses, a blank line
  in an archived prefix shifts indices for good, and a skipped line makes the warm cache and the file
  read disagree.
- **Finalize judgments** (`FinalizeFold`): the incremental fold answers what the whole-list scans do.
- **Run queue** (`RunQueue`): the cooperative protocol of one session as a state machine over its
  await-free blocks. Over every interleaving it refines a ledger that serves items first come, first
  served, and that accounts for every item and every outcome.
- **Streaming translation** (`ChatProtocol`, `StreamReport`, `StreamTranslator`,
  `StreamEquivalence`): a strict client accepts every emitted stream, nothing is lost or reordered,
  the blocks, the stop reason and the usage are read off the chunks alone, and on ordinary streams
  the result is that of the non-streaming translation.
- **Hook turns** (`HookHistory`, `HookTurn`, `HookMeaning`, `StreamTurn`): exactly which hooks are
  accepted and what each gives, that in every accepted history a hook that names a turn names the
  latest prompt's, and idle comes after Stop, prompt and start, that the driving loop writes a result
  only after an ordered, failure-free history whose events have all been written, that the schedule
  of arrivals decides what every round comes to, and how often the process is terminated.
- **Document builder** (`MarkupTree`, `DomBuilder`): real elements with parent links, mutated in
  place, refine a tree of values; a reference that knows only open tags says what every stream means,
  and which tags are open is said token by token.
- **Math spans** (`MathScan`, `MathPages`): what a span is, independently of the search, and that
  the scan and the range merge are the only tiling and the only interval list there are.
- **Worker log** (`WorkerLog`, `WorkerRows`, `WorkerReader`, `WorkerSession`, `StaleLog`): which rows
  a log's events give, one by one; the in-place incremental reader against a read of the whole log,
  including what a projection that raises halfway leaves behind; the panel over a whole history of
  appends, evictions and polls; and, for every cache entry and every log, exactly when the two
  answer alike.
- **Accounts and relays** (`Accounts`, `Relay`, `RelayTurn`): the headroom reading by reading, the
  selection rule with its numeric bound, met exactly by an example, and the bounded relay loop:
  exactly when it relays and why it ends, with choices from what its own processes and everyone else
  observed, so that it waits for failed logins and rejections.
- **Git listings** (`Decimals`, `GitRecords`) and **row splicing** (`RowSplice`): round trips, the
  first error of a malformed listing, and byte-for-byte equality.
- **Minute text** (`CivilTime`): civil-from-days over all integers is the Gregorian calendar
  (ISO 8601:2004, section 3.2.1).

`Prelude` holds shared datatypes and sequence helpers. `dafny verify dfyconfig.toml` checks everything.

## How the code is modelled

Objects that the source updates in place are classes with the same fields (the memo and its file,
the chat-event store, the fold, the session lane, the translator, the hook state and bridge, the DOM
elements, the cache entry, the transcript store, the relay watch). Loops are loops. Files are byte
sequences with a modification time, a size and an inode; parsing one line is a function parameter.
Processes, sockets and clocks are parameters: a schedule of arrivals, a sequence of process runs, a
landing append.

What the proofs take as given, and the code relies on:

- A stat's (mtime, size) identifies one version of the chat file, and a rewrite publishes under a
  fresh inode and a fresh signature (`LiveRange.LiveFile`).
- No append puts an LF right after content that ends in a lone CR (`PhysicalLines.ExtensionExact`
  says why this is exact).
- Rotation cutoffs do not go back to an earlier ISO week than the newest archive file.
- Every future of the queue belongs to one item, and no task is cancelled.
- Two pool accounts with the same directory are the same login.
- For a read to answer as a whole read: the worker log keeps every complete line a read has tried, or
  is read while it is shorter than the parsed offset (`StaleLog.StaleOffset` says what happens
  otherwise).

Where code and documentation differ, the code is modelled: the pool's documentation says a rejection
holds an account at zero until its reset, but a newer plan-wide panel reading replaces it
(`Accounts.RejectionHoldsExact`, `Accounts.RejectionForgotten`); the walk's documentation takes the
line counter as the physical line count, which a lone CR breaks (`LiveRange.WalkAnswerExact`); the
worker log's comment says a log that shrank restarts its entry, but one that shrank and grew back
before the next read does not (`StaleLog.CutAndRegrown`).

## Model

| member | source | states |
|---|---|---|
| PhysicalLines.LinesAppend | src/core/chat_events.py:54-70 | the lines of two byte strings glued at a line boundary are the lines of each, which is what parsing an appended tail alone rests on |
| PhysicalLines.LinesAppendSeam | src/core/chat_events.py:54-70 | a CR at the end of one part and an LF at the start of the next fuse: exactly the empty line the second part would start with is lost |
| PhysicalLines.ExtensionExact | src/core/chat_events.py:511-526 | after complete lines, splitting an appended tail on its own agrees with splitting the whole if and only if no CRLF pair straddles the seam |
| PhysicalLines.SegmentsAreLines | src/core/chat_events.py:54-70 | translating CRLF and CR to LF, splitting on LF and dropping the last empty piece gives the physical lines of a one-pass CR, LF and CRLF reader, and the right ends-on-a-boundary flag, for every byte string |
| PhysicalLines.RawLineSpans | src/core/chat_events.py:73-101 | the raw spans, in order, cut exactly the physical lines out of the buffer, each starting where the terminator before it ended, and the flag says whether the buffer ends on a line boundary |
| PhysicalLines.BoundaryOfSuffix | src/core/chat_events.py:104-150 | a line boundary found inside a suffix of the file, the cut itself excepted, is a line boundary of the whole file, so a chunk edge that tears a CRLF does no harm |
| PhysicalLines.LinesAreTermFree | src/core/chat_events.py:54-70 | no physical line holds a CR or LF |
| PhysicalLines.UnlinesRoundTrip | src/core/chat_events.py:630 | writing terminator-free lines back, each with an LF, and splitting again gives the lines |
| PhysicalLines.LineCountFormula | src/core/ndjson.py:42-55 | the LF-only line counter falls short of the physical line count by exactly the CRs that stand alone (a final one is counted as the unterminated last line) |
| PhysicalLines.CountAgreesIff | src/core/ndjson.py:42-55 | the LF-only counter is the physical line count if and only if no CR stands alone, or the only one is the last byte |
| PhysicalLines.MissedLinesAre | src/core/ndjson.py:42-55 | for every content the physical line count is the LF-only count plus the lone CRs, a final one aside |
| PhysicalLines.MissedLinesGrow | src/core/ndjson.py:42-55 | an append never repairs the counter: what it misses of a content it misses of every extension that tears no CRLF |
| PhysicalLines.GluedLine | src/core/chat_events.py:262-272 | a line written after a torn one becomes part of it: the file has no new line, and its last one is longer |
| PhysicalLines.TranslationSplits | src/core/chat_events.py:65-69 | the translated text splits on LF into the physical lines, plus one empty piece exactly when the bytes end on a boundary |
| PhysicalLines.LineOf | src/core/chat_events.py:54-70 | one line ends at LF, CR or CRLF and is itself without it; an empty rest is no line |
| TailWalk.WalkTailLineTexts | src/core/chat_events.py:104-150 | for every content, chunk size, budget and count: the answer, if any, is the last count lines of the bytes before size, the raw offset they start at, a line boundary with exactly the other lines before it, and the right boundary flag; None means that there are too few lines, or that the walked span went over the budget, by at most a chunk, before the stop rule fired and before the start of the file |
| TailWalk.SuffixAnswers | src/core/chat_events.py:126-150 | the lines found in a read suffix, its possibly cut first one excepted, are the last lines of the file |
| TailWalk.SuffixBoundary | src/core/chat_events.py:126-150 | a line boundary of the read suffix, its possibly cut head excepted, is one of the file and cuts off the same bytes |
| TailWalk.StopAnswers | src/core/chat_events.py:131-150 | the stop rule is right: with enough complete spans in the joined chunks, the last count of them answer the walk |
| TailWalk.ChunkStep | src/core/chat_events.py:129-144 | the chunks read so far, joined newest first, are the bytes from the read position on |
| TailWalk.Texts | src/core/chat_events.py:148-149 | the texts of the last count spans are the last count physical lines |
| LiveRange.ForwardDenotes | src/core/chat_events.py:511-526 | extending an entry by the parsed tail alone denotes what parsing the grown content denotes |
| LiveRange.BackwardDenotes | src/core/chat_events.py:528-539 | prepending the walked lines before the covered bytes denotes the longer suffix |
| LiveRange.FullDenotes | src/core/chat_events.py:500-509 | the full build denotes the whole content from line 0 |
| LiveRange.LiveRangeMemo.AppendToFile | src/core/chat_events.py:262-272 | any append that moves the stat and tears no CRLF, lone CRs included, changes the file and leaves the memo sound |
| LiveRange.LiveRangeMemo.RewriteFile | src/core/chat_events.py:469-471 | a rewrite to any content under a fresh inode leaves the memo sound: its entry can no longer be extended or served for the new content |
| LiveRange.LiveRangeMemo.ExtendForward | src/core/chat_events.py:511-526 | a same-inode grown file extends the entry to cover the whole content, whatever was appended since the stat |
| LiveRange.LiveRangeMemo.ExtendBackward | src/core/chat_events.py:528-539 | the extended list is the suffix from the asked line of one full split-and-parse of the covered bytes; None leaves the memo as it was |
| LiveRange.LiveRangeMemo.BuildWalk | src/core/chat_events.py:541-570 | a cold build over any content, with appends landing before the count, before the second stat and before the walk: the list is the parse of the walk's answer for the bytes the first stat described, which is the true suffix moved on by exactly the lines the LF-only counter misses |
| LiveRange.LiveRangeMemo.FullBuild | src/core/chat_events.py:500-509 | the fallback serves every line of the content read, an append landing after the stat included |
| LiveRange.LiveRangeMemo.LiveRangeLines | src/core/chat_events.py:452-509 | for every content of the file, through all four paths, with appends landing at each of the five gaps between stats, count, walk and read: the served list is the suffix of one full split-and-parse of a content the file held during the call, moved on by no more lines than the LF-only counter misses of it; not at all for a read from line 0, and by exactly that many on a cold memo without races |
| LiveRange.LiveRangeMemo.LoadPage | src/core/chat_events.py:339-343 | a live page equals splitting, parsing and slicing that whole content, with the same exact shift where the counter is wrong |
| LiveRange.ServedWindow | src/core/chat_events.py:343 | the caller's slice relative to the served start is the slice of the full list |
| LiveRange.Replay | src/core/chat_events.py:452-570 | over every run of appends, inode-swapping rewrites, evictions and racing page reads, on any contents: there is one answer a step; files[k] is the file before step k, and step k takes it to files[k + 1] exactly as an append or rewrite that the file admits does; the answer to a read of [lo, hi) is the full-parse page of a content between the one before and the one after that step, at lo and hi moved on by no more lines than the LF-only counter misses of it; nothing else answers, and every memo entry keeps denoting exactly its covered lines |
| LiveRange.Perform | src/core/chat_events.py:452-570 | one step of a run: an append or a rewrite changes the file exactly as it says if the file admits it, a read answers a page of a content held meanwhile |
| LiveRange.WalkAnswerLags | src/core/chat_events.py:551-567 | for every content and start the walk's list is the suffix that starts as many lines late as the LF-only counter misses |
| LiveRange.WalkAnswerExact | src/core/chat_events.py:551-567 | the list a cold walk answers, which is the one BuildWalk parses, is the true suffix if and only if no CR stands alone, or the only one is the last byte, or the window starts past both the count and the lines |
| LiveRange.LoneCrMislabelsLines | src/core/chat_events.py:551-567 | a concrete three-line content with one lone CR for which the walk's list has line 2 where line 1 belongs |
| LiveRange.ServesTheWrongLine | src/core/chat_events.py:323-343 | on that content a cold memo, asked for line 1, answers the page of line 2 |
| LiveRange.LiveFile.Append | src/core/ndjson.py:294-297 | an append adds its bytes and one version to the file's history |
| LiveRange.LiveFile.Rewrite | src/core/chat_events.py:630 | a rewrite replaces the content under a fresh inode and adds one version |
| LiveRange.LiveRangeMemo.Evict | src/core/chat_events.py:244-245 | dropping the entry keeps the memo sound |
| LiveRange.SuffixGrows | src/core/chat_events.py:511-526 | complete lines from a boundary on grow by exactly the lines of an appended tail |
| LiveRange.PageOfLine | src/core/chat_events.py:339-343 | a page of one line is the event of that line, or nothing if it has none or is past the end |
| LiveRange.PagesAddUp | src/core/chat_events.py:339-343 | pages of adjacent ranges add up, and a range that ends before it starts is empty |
| Archive.SplitLines | src/core/chat_events.py:581-616 | the split loop archives exactly the non-blank lines of the maximal prefix of blank lines and events before the cutoff, and keeps every line from there on in order |
| Archive.SplitPoint | src/core/chat_events.py:584-616 | the split comes right before the first line that is neither blank nor an event before the cutoff |
| Archive.LoadArchiveRange | src/core/chat_events.py:387-408 | concatenating the overlapping sub-slices file by file is the slice of the concatenation of all files |
| Archive.PagesAreSlots | src/core/chat_events.py:339-343 | two sequences of lines with holes have the same page for every range if and only if they agree at every index |
| Archive.CompactPagesExact | src/core/chat_events.py:584-592 | dropping the holes of a prefix leaves every page unchanged if and only if no event comes after one of those holes |
| Archive.WarmCachePagesExact | src/core/chat_events.py:344-357 | the warm cache (indices count events) and the file read (indices count physical lines) give the same pages for every range if and only if no event comes after a blank or malformed line |
| Archive.AppendToWeekAtEnd | src/core/chat_events.py:622-628 | appending to the cutoff's weekly file adds the events after all archived ones, whether the week's file is new or already there |
| Archive.ListingStaysSorted | src/core/chat_events.py:410-426 | the listing stays in chronological order of weeks |
| Archive.AppendExtendsWeek | src/core/chat_events.py:625-628 | an append in the newest archived week grows that file and no other |
| Archive.AppendOpensWeek | src/core/chat_events.py:625-628 | an append in a later week opens a new last file |
| Archive.SplitIs | src/core/chat_events.py:584-616 | a number is the split point if and only if every line before it is blank or an event before the cutoff, and the line there, if any, is malformed, has no time or is not before the cutoff |
| Archive.WeeksStartOnMonday | src/core/chat_events.py:618-628 | for every week, negative ones included, exactly the seven days from a Monday have the same index, counted on from Monday 1970-01-05 |
| ChatStore.RotatedSlots | src/core/chat_events.py:575-635 | a rotation moves the parsed events of the split-off prefix behind all archived events, in order, leaves the rest of the live lines as they are, and archives as many events as lines it took |
| ChatStore.RotationPagesExact | src/core/chat_events.py:575-635 | a rotation leaves every global-index page unchanged if and only if nothing was archived or no event comes after a blank line in the archived prefix |
| ChatStore.RotateOnceKeeps | src/core/chat_events.py:575-635 | a rotation that takes no blank line away changes no page, whatever it leaves in the log |
| ChatStore.RotationsKeepPages | src/core/chat_events.py:575-635 | over any sequence of rotations with non-decreasing cutoffs, none of which takes a blank line with an event after it, every page at every global index stays the same |
| ChatStore.RotationsExact | src/core/chat_events.py:575-635 | over any sequence of rotations with non-decreasing cutoffs every page at every global index stays the same if and only if each of them is clean: it archives nothing, or no event comes after a blank line of the prefix it takes; what one of them shifts, no later one shifts back |
| ChatStore.NoBlankIsClean | src/core/chat_events.py:575-635 | rotations that take no blank line are clean, blank lines they leave behind included |
| ChatStore.NoBlankAtAll | src/core/chat_events.py:575-635 | in a log without blank lines no sequence of rotations takes one |
| ChatStore.BlankLineShifts | src/core/chat_events.py:584-592 | a concrete log, a blank line and two old events, whose rotation makes index 1 mean the second event instead of the first |
| ChatStore.MalformedLineSkews | src/core/chat_events.py:344-357 | a concrete log, a malformed line and an event, which the warm cache has at index 0 and the file read at index 1 |
| ChatStore.KeptReadsBack | src/core/chat_events.py:618-630 | both halves written back read back as the same lines |
| ChatStore.OldLinesParse | src/core/chat_events.py:584-616 | of blank lines and old events, exactly the events survive into the archive, one event a line |
| ChatStore.RangeIsGlobalPage | src/core/chat_events.py:323-362 | all three branches of the range read answer the same thing: the page of the global index over archived events followed by live lines |
| ChatStore.ChatEventStore.LoadEvents | src/core/chat_events.py:274-281 | the first read caches the parsed events of the file; later reads return that list |
| ChatStore.ChatEventStore.SaveEvent | src/core/chat_events.py:262-272 | for every file and cache, torn last lines included: the file gets the line's bytes, which are one new last line, or the end of the torn one; a warm cache gets one new last event and stays the parse of the file wherever it was and the file ended on a boundary |
| ChatStore.ChatEventStore.LoadRange | src/core/chat_events.py:323-362 | for every global range and every content: the page of archived events followed by the live lines of a content the file held during the call, the live index moved on by no more lines than the LF-only counter misses of it, or, for an unarchived session with a warm cache, the slice of the cached events |
| ChatStore.ChatEventStore.LoadArchivedSessionLive | src/core/chat_events.py:338-343 | the live-only branch of an archived session, with racing appends and on any content |
| ChatStore.ChatEventStore.LoadUnarchived | src/core/chat_events.py:344-357 | the live-only branch of an unarchived session, from the warm cache or from the file |
| ChatStore.ChatEventStore.LoadBothHalves | src/core/chat_events.py:358-362 | the straddling branch joins the archived tail and the live head without gap or overlap |
| ChatStore.ChatEventStore.Rotate | src/core/chat_events.py:575-635 | the rotation with its offset update: the offset stays the number of archived events, the halves are those of one rotation, and the cache is dropped exactly when something moved |
| ChatStore.LaggingIsGlobalPage | src/core/chat_events.py:323-362 | every range answer, late or not, is a page of the global index: moved on by the lag exactly for a range that lies wholly in the live part of an archived session, by nothing for every other |
| ChatStore.AppendedLine | src/core/chat_events.py:262-272 | a line written after whole lines is one more line; after a torn one it lengthens that one |
| ChatStore.UnlinesCountsRight | src/core/chat_events.py:630 | what a rotation writes back holds no CR, so the LF-only counter is right about it |
| ChatSession.Session | src/core/chat_events.py:262-635 | over every run of saves, cache loads, rotations and range reads, in any order, with a clock that does not go back: the answer to a read of [start, end) is exactly that slice of the list of all events saved before it, and at the end archive, live file and cache hold exactly that list; a rotation whose cutoff goes back is not run |
| ChatSession.Perform | src/core/chat_events.py:262-635 | one act: a read answers its slice of the log, a save adds its event, a rotation or a cache load changes nothing of the log |
| ChatSession.Save | src/core/chat_events.py:262-272 | saving an event adds it at the end of the log that archive, live file and cache hold |
| ChatSession.Rotate | src/core/chat_events.py:575-635 | a rotation moves the log between the halves and keeps every event and its index |
| ChatSession.Load | src/core/chat_events.py:323-362 | whatever branch answers it, a range read is the slice of the log |
| ChatSession.SliceOfLog | src/core/chat_events.py:323-362 | with nothing but saved lines all branches of the range read give the slice of the log, because no line is missed and no slot is empty |
| ChatSession.RotatedLog | src/core/chat_events.py:575-635 | archived events followed by live events are the same list before and after a rotation |
| FinalizeFold.MasterWokeAfterSummary | src/core/finalize_effects.py:42-50 | the two-pass scan answers whether a master output follows the last terminal summary of the thread |
| FinalizeFold.MarkDecidesWake | src/core/chat_events.py:200-202 | more outputs than the mark means exactly that one came after the last terminal summary |
| FinalizeFold.MarkSurvives | src/core/chat_events.py:188-195 | an event that is no summary of the thread leaves its mark meaningful |
| FinalizeFold.CountsGrow | src/core/chat_events.py:190-192 | the number of master outputs in a prefix never exceeds that of the list, and a difference means an output in between |
| FinalizeFold.Fold.Absorb | src/core/chat_events.py:188-195 | absorbing one event keeps the fold the summary of the longer list |
| FinalizeFold.Fold.Build | src/core/chat_events.py:180-186 | building over a list gives the fold of that list |
| FinalizeFold.Fold.SummaryPresent | src/core/chat_events.py:197-198 | the O(1) answer is the whole-list scan's |
| FinalizeFold.Fold.MasterWoke | src/core/chat_events.py:200-202 | the O(1) answer is the whole-list scan's |
| FinalizeFold.FoldMatchesScans | src/core/chat_events.py:262-303 | loading any prefix and absorbing the rest leaves both answers equal to the two scans of the whole list, for every thread |
| FinalizeFold.EventsCount | src/core/finalize_effects.py:26-34 | a master output is an assistant, master_done or assistant_error event; a terminal summary is a worker_summary of the thread with no status or one that is not running |
| RunQueue.SessionLane.MarkBusy | src/core/thinking_state.py:24-45 | a busy session keeps its interval start; an idle one starts at the resumed record's time or now |
| RunQueue.SessionLane.Enqueue | src/agents/master_cc_queue.py:33-53 | from every reachable state: the item is the last owned one, the session is busy, a live consumer is registered, and a new busy interval opens exactly when the session was idle |
| RunQueue.SessionLane.EnsureConsumer | src/agents/master_cc_queue.py:48-52 | a new consumer is created and registered exactly when none is registered or the registered one is done; else nothing changes |
| RunQueue.SessionLane.StartConsumer | src/agents/master_cc_queue.py:108-124 | a consumer's first get finds the item it was created for |
| RunQueue.SessionLane.Settle | src/agents/master_cc_queue.py:216-227 | the running item's future is still pending and is settled exactly once |
| RunQueue.SessionLane.Teardown | src/agents/master_cc_queue.py:230-243 | the await-free exit leaves no consumer, no queue and no busy state |
| RunQueue.SessionLane.FinishItem | src/agents/master_cc_queue.py:216-243 | the end of an item settles the oldest unsettled item and either goes on with the next queued one or tears down, and it tears down exactly when the queue is empty |
| RunQueue.SessionLane.FinishTail | src/agents/master_cc_queue.py:244-253 | a consumer past its teardown, still broadcasting, disturbs nothing when it ends, even if a new consumer already runs |
| RunQueue.SessionLane.QueuedUserEventIds | src/agents/master_cc_queue.py:467-485 | the ids are exactly those of the enqueued items that are not settled |
| RunQueue.EventIdsAre | src/agents/master_cc_queue.py:476-485 | an id is in the answer if and only if it is not empty and one of the items carries it |
| RunQueue.SessionLane.Do | src/agents/master_cc_queue.py:106-253 | every step of every interleaving at await points keeps the lane consistent and does to it exactly what the ledger's step says: a new item joins the open ones, a resumed working task settles the oldest with the step's outcome, and nothing else changes |
| RunQueue.SessionLane.Drain | src/agents/master_cc_queue.py:119-243 | from every reachable state the consumer alone settles every owned item and leaves the session idle |
| RunQueue.Interleave | src/agents/master_cc_queue.py:33-253 | over every interleaving the lane is what the ledger's steps make of it: exactly the items with new futures were added, in order; one item is done, oldest first, for every step that resumed a working task, its future settled with that step's outcome; what was settled keeps its outcome; an unsettled item implies busy and a live registered consumer; no consumer implies not busy and nothing unsettled |
| RunQueue.ViewIsSound | src/agents/master_cc_queue.py:33-253 | a consistent lane is a sound ledger: the open items are the last ones, exactly their futures are pending, and one consumer serves exactly while any is open |
| RunQueue.AdmittedAre | src/agents/master_cc_queue.py:33-53 | over every run of ledger steps the items added are those whose future is neither known at the start nor that of an earlier one, in order |
| RunQueue.SettledAre | src/agents/master_cc_queue.py:216-243 | over every run one item is done for each step that resumes a working task, oldest first, with that step's outcome |
| RunQueue.SettledStays | src/agents/master_cc_queue.py:216-227 | a future once settled keeps its outcome to the end of every run |
| RunQueue.SessionLane.GoOn | src/agents/master_cc_queue.py:119-124 | after an item the consumer gets the next one if there is one, and else deregisters, drops the queue and clears the busy state |
| RunQueue.SessionLane.Put | src/agents/master_cc_queue.py:41-47 | the queue exists from the first item on and the item is its last |
| RunQueue.SessionLane.Take | src/agents/master_cc_queue.py:121-122 | a get on a non-empty queue takes its head and makes it the current item |
| RunQueue.WithQueuedIds | src/agents/master_cc_queue.py:480-484 | the loop adds the non-empty ids of the queued items |
| ChatProtocol.FeedAllAppend | src/api/anthropic_proxy.py:322-346 | a client reads a concatenation as it reads its parts |
| ChatProtocol.AddChunks | src/api/anthropic_proxy.py:322-346 | the reference assembly of a chunk stream stays well formed: open calls point at distinct tool blocks and an open text is the last block |
| ChatProtocol.AddTool | src/api/anthropic_proxy.py:400-445 | a tool delta has no meaning exactly when it has no index, or opens a call without id or name; any other keeps the assembly well formed |
| StreamTranslator.Translator.EventsForChunk | src/api/anthropic_proxy.py:322-346 | the events of a chunk are accepted by the client, which then holds the assembly the chunk leads to; it raises exactly when the reference has no meaning for it |
| StreamTranslator.Translator.HandleText | src/api/anthropic_proxy.py:329-341 | a text delta goes to the one open text block, opened after all tool blocks are stopped |
| StreamTranslator.Translator.EnsureTextBlock | src/api/anthropic_proxy.py:367-384 | opening a text block first stops every open tool block and takes the next number |
| StreamTranslator.Translator.CloseTextBlock | src/api/anthropic_proxy.py:386-391 | an open text block is stopped once |
| StreamTranslator.Translator.CloseToolBlocks | src/api/anthropic_proxy.py:393-398 | every open tool block is stopped once, in opening order |
| StreamTranslator.Translator.HandleToolDelta | src/api/anthropic_proxy.py:400-445 | a tool delta opens or extends its call's block as the reference does, or raises exactly when the reference has no meaning |
| StreamTranslator.Translator.OpenToolBlock | src/api/anthropic_proxy.py:412-430 | a new call closes the text block and takes the next block number |
| StreamTranslator.Translator.AppendArguments | src/api/anthropic_proxy.py:432-444 | an argument fragment goes to the call's open block |
| StreamTranslator.Translator.HandleChoice | src/api/anthropic_proxy.py:327-345 | one choice: text, then tool deltas, then the finish reason |
| StreamTranslator.Translator.FinishEvents | src/api/anthropic_proxy.py:348-365 | finishing stops everything that is open, tells the last finish reason in the client's words and the last usage once, and ends the message; StreamReport.ReportIs says from the chunks which words and counts these are |
| StreamTranslator.StopsAccepted | src/api/anthropic_proxy.py:393-398 | stopping the open calls one by one is accepted and leaves nothing open |
| StreamTranslator.TranslateStream | src/api/anthropic_proxy.py:288-445 | for every chunk stream: it raises exactly when the reference assembly fails; otherwise a strict client accepts every event from the start (consecutive block numbers, deltas to open blocks of their kind, each block stopped once, no text block open beside another), ends with nothing open, and holds the assembled blocks; read off the chunks alone, the blocks are headed by the texts and by the id and name of each delta that opens a call, the stop reason is tool_use for a last non-empty finish reason tool_calls, max_tokens for length, end_turn for none or stop and else that reason itself, and the token counts are those of the last usage, each 0 when absent |
| StreamTranslator.PopAll | src/api/anthropic_proxy.py:393-398 | popping the dict emits one stop an open call, in insertion order |
| StreamTranslator.Translator.HandleToolDeltas | src/api/anthropic_proxy.py:342-343 | a choice's tool deltas are handled in order until one raises |
| StreamTranslator.Translator.StartEvents | src/api/anthropic_proxy.py:302-320 | a stream starts with one message start |
| StreamEquivalence.StreamConserves | src/api/anthropic_proxy.py:322-445 | whatever the interleaving, the blocks carry all text and, per call index, all argument fragments, in arrival order |
| StreamEquivalence.ChunkCarries | src/api/anthropic_proxy.py:322-346 | the same for one chunk |
| StreamEquivalence.ToolBlocksAre | src/api/anthropic_proxy.py:255-267 | the non-streaming tool loop fails exactly when a call lacks id or name, and reads empty arguments as an empty object |
| StreamEquivalence.StreamMirrors | src/api/anthropic_proxy.py:322-346 | on ordinary streams the assembly mirrors the accumulated message, or the message has a call without id or name |
| StreamEquivalence.StreamingAgrees | src/api/anthropic_proxy.py:242-365 | for streams of single choices with text before tool deltas and new call indices increasing: the streamed and the non-streaming translation both fail, or give the same content, stop reason and usage |
| CivilTime.CivilIsValid | src/api/files.py:188-205 | every integer day count, negative ones included, gives a valid proleptic Gregorian date |
| CivilTime.CivilSteps | src/api/files.py:188-205 | one day later is the calendar's next day under the leap-year rule, for every day count |
| CivilTime.CivilEpoch | src/api/files.py:190 | day 0 is 1970-01-01 |
| CivilTime.CivilIncreases | src/api/files.py:188-205 | later days are later dates |
| CivilTime.CivilRoundTrip | src/api/files.py:188-205 | a days-from-civil defined by adding up months and years maps the date back to the day count |
| CivilTime.CivilReaches | src/api/files.py:188-205 | every valid date is the date of its own day count, so the map is a bijection |
| CivilTime.DaysFromCivilIncreases | src/api/files.py:188-205 | the inverse is strictly increasing |
| CivilTime.YearOfEraBounds | src/api/files.py:196-198 | the divided-down year of the 400-year era is the one whose days the day of the era lies in, leap days at 4, 100 and 400 years included |
| CivilTime.CivilPlace | src/api/files.py:193-198 | era, year and day of year add up to the day number and are in range |
| CivilTime.PlaceDecides | src/api/files.py:193-202 | a day number determines era, year of era and day of year |
| CivilTime.FormatMtimeIsTheMinute | src/api/files.py:188-205 | for every epoch, fractional and negative ones included, date, hour and minute are in range and name exactly the minute that holds the instant |
| CivilTime.MinuteSplit | src/api/files.py:188-189 | hour and minute take the seconds of the day apart, in range |
| HookHistory.IdleComesLast | src/cli/claude_sub_bridge.py:405-428 | in every accepted history an idle notification comes after the Stop, which comes after a prompt submission, which comes after the session start |
| HookHistory.OnlyOnce | src/cli/claude_sub_bridge.py:197-199 | no accepted history has two session starts or two Stops |
| HookHistory.StopMessageIs | src/cli/claude_sub_bridge.py:351-367 | the candidate is the message of the one accepted Stop |
| HookHistory.BatchesDiffer | src/cli/claude_sub_bridge.py:258-261 | no message id and index pair is accepted, and so emitted, twice |
| HookHistory.TurnMeans | src/cli/claude_sub_bridge.py:112-130 | the flags say exactly whether a session start, a prompt, a Stop and an idle notification are in the accepted history |
| HookHistory.IdleConcludes | src/cli/claude_sub_bridge.py:405-428 | an idle turn went through start, prompt, Stop and idle in that order, and its candidate is that Stop's message |
| HookHistory.BelongsToLatestPrompt | src/cli/claude_sub_bridge.py:234-252 | over every accepted history: a turn hook or idle notification that carries any of the four correlation fields carries, under the one key that the first prompt established, the same non-empty string as the latest accepted prompt before it |
| HookHistory.PromptsShareKey | src/cli/claude_sub_bridge.py:218-244 | every accepted prompt carries a non-empty string under the key that the first one established |
| HookHistory.CurrentTurnIff | src/cli/claude_sub_bridge.py:234-252 | after a prompt a tool hook, a compaction or a failure of this session is allowed if and only if it carries none of the four fields, or the latest prompt's string under the established key |
| HookHistory.TurnHooksComeLater | src/cli/claude_sub_bridge.py:405-428 | every turn hook comes after a start and, after that, a prompt; a displayed message names its turn |
| HookHistory.SessionEndsIdle | src/cli/claude_sub_bridge.py:437-444 | a session ends in an accepted history only before any prompt or after an idle notification |
| HookHistory.EveryHookBelongs | src/cli/claude_sub_bridge.py:142-159 | every accepted hook names this session and this directory, every prompt is the expected one, and no permission request is accepted |
| HookHistory.StopIsFinal | src/cli/claude_sub_bridge.py:351-367 | an accepted Stop has empty lists of background tasks and of scheduled ones and no active stop hook |
| HookTurn.HookTurnState.Handle | src/cli/claude_sub_bridge.py:161-185 | a hook is accepted if and only if the accepted history allows it and its payload holds what its kind needs; accepted, it joins the history and returns exactly its chat events; rejected, it changes nothing; a failure is set only by an accepted StopFailure. BelongsToLatestPrompt, CurrentTurnIff, AcceptedIff and EventsAre say on payloads what this comes to |
| HookTurn.HookTurnState.HandleSessionStart | src/cli/claude_sub_bridge.py:187-216 | accepted exactly once, for this session, directory and start source |
| HookTurn.HookTurnState.HandleUserPromptSubmit | src/cli/claude_sub_bridge.py:218-232 | accepted exactly after the start, with the expected prompt and a correlation, under the key of the first prompt if there was one; it acknowledges the turn |
| HookTurn.HookTurnState.HandleMessageDisplay | src/cli/claude_sub_bridge.py:246-281 | accepted exactly for the turn of the latest prompt (HookHistory.BelongsToLatestPrompt) and a new batch; it emits its delta unless that is empty |
| HookTurn.HookTurnState.HandlePreToolUse | src/cli/claude_sub_bridge.py:283-305 | a well-formed tool use of the current turn is emitted as it is |
| HookTurn.HookTurnState.HandlePostToolUse | src/cli/claude_sub_bridge.py:307-336 | a tool result, an error result for a failure |
| HookTurn.HookTurnState.HandlePostCompact | src/cli/claude_sub_bridge.py:338-349 | a compaction event with a known trigger |
| HookTurn.HookTurnState.HandleStop | src/cli/claude_sub_bridge.py:351-367 | accepted exactly once in the current turn, with no background work and no active stop hook; it keeps the message |
| HookTurn.HookTurnState.HandleStopFailure | src/cli/claude_sub_bridge.py:369-403 | a known failure word sets the failure and emits the error, after a rate-limit event for rate_limit |
| HookTurn.HookTurnState.HandleNotification | src/cli/claude_sub_bridge.py:405-427 | known and non-blocking types only; an idle prompt needs the prompt and the Stop before it |
| HookTurn.HookTurnState.HandleIdlePrompt | src/cli/claude_sub_bridge.py:411-422 | idle is accepted exactly when the prompt and the Stop were, for the same turn |
| HookTurn.HookTurnState.HandleSessionEnd | src/cli/claude_sub_bridge.py:437-444 | a session end inside an active turn is rejected |
| HookTurn.HookTurnState.HandleTurnHook | src/cli/claude_sub_bridge.py:167-178 | the dispatch of the hooks of the acknowledged turn accepts exactly what the history and the payload rules allow |
| HookTurn.HookTurnState.HandleSessionHook | src/cli/claude_sub_bridge.py:163-185 | the rest of the dispatch; an unknown hook and a permission request are always rejected |
| StreamTurn.HookBridge.RecordFailure | src/cli/claude_sub_bridge.py:480-483 | the first failure is kept, in the bridge and in the turn state |
| StreamTurn.HookBridge.ServeHook | src/cli/claude_sub_bridge.py:508-516 | the hook joins the history exactly when it is accepted, with its events queued in order; afterwards a failure is recorded exactly if one was before, the hook was rejected or it is a StopFailure |
| StreamTurn.HookBridge.Serve | src/cli/claude_sub_bridge.py:485-522 | one connection: a hook joins the history exactly when it is accepted, and a failure is recorded exactly if one was before, the request is not an acceptable hook or it reports one |
| StreamTurn.HookBridge.Take | src/cli/claude_sub.py:729-730 | reading the queue keeps what was written, followed by what waits, equal to every event of the accepted hooks in order |
| StreamTurn.Decide | src/cli/claude_sub.py:732-755 | with the queue empty, from what the accepted hooks amount to: a recorded failure ends the turn (as unknown delivery while unacknowledged), else prompt, Stop and idle complete it with the Stop's message, else a deadline that applies ends it, else the loop goes on |
| StreamTurn.Round | src/cli/claude_sub.py:724-772 | one round, whatever connects at its two awaits, comes to exactly one thing, decided by the history and failure it starts with, the stop request, the deadlines, and the probe with the hooks served during it; it serves exactly the connections of the awaits it reaches; and unless it was asked to stop it has written every event of the hooks accepted before it |
| StreamTurn.StreamTurn | src/cli/claude_sub.py:720-789 | over every schedule: the connections served in the rounds taken determine the accepted history, the recorded failure and what every round comes to; all rounds but the last leave the turn running and the last comes to the outcome; standard output is the events of the accepted hooks in order, everything accepted before the last round included, then a result exactly if that round starts answered; and the process termination is tried once when the turn ends in an error, twice exactly when the branch's own try raised, never when it completes |
| StreamTurn.CompletesExactly | src/cli/claude_sub.py:744-747 | of the rounds a turn takes, one that starts with prompt, Stop and idle accepted, no failure and no stop request is the last and completes the turn with that Stop's message; no other round does |
| StreamTurn.TurnIsDetermined | src/cli/claude_sub.py:720-789 | a schedule determines how many rounds a turn takes, how it ends (which of several failures aside) and whether its own termination raised |
| StreamTurn.AfterAppend | src/cli/claude_sub_bridge.py:485-536 | connections served in two awaits leave the history and the failure that serving them in one leaves |
| StreamTurn.CompletedMeansConcluded | src/cli/claude_sub.py:744-747 | a completed turn's history holds start, prompt, Stop and idle in that order, and the result is that Stop's message |
| StreamTurn.HookBridge.ServeAll | src/cli/claude_sub_bridge.py:485-536 | any number of connections served during one await leave exactly the history of the acceptable hooks among them, in order, and keep the first failure |
| StreamTurn.Drain | src/cli/claude_sub.py:729-730 | draining writes every queued event, in order |
| StreamTurn.ProbeProcess | src/cli/claude_sub.py:757-766 | a dead process ends the turn with an early exit if the prompt is acknowledged after the probe and with unknown delivery otherwise; an unreadable one ends it as a failed probe; a live one lets it go on; exactly the hooks that arrive meanwhile are served |
| StreamTurn.EndBranch | src/cli/claude_sub.py:725-755 | a branch that ends the turn raises its own error, and counts as having terminated the process, exactly when the termination did not raise |
| StreamTurn.Rounds | src/cli/claude_sub.py:724-772 | the loop, up to the first round that does not leave the turn running: the same, with what its branch's termination came to |
| StreamTurn.WaitForEvent | src/cli/claude_sub.py:768-772 | the wait writes at most one event, none when it times out, and serves exactly the hooks that arrive meanwhile |
| StreamTurn.DeadlinesAre | src/cli/claude_sub.py:732-755 | an unanswered turn without a failure ends as unknown delivery exactly when it is unacknowledged 30 seconds after its start, and as timed out exactly when it is acknowledged and 7200 seconds old; else the loop goes on |
| StreamTurn.ProbesAre | src/cli/claude_sub.py:757-766 | the process is probed exactly from half a second after the last probe on |
| MarkupTree.StepWrites | src/core/artifact_check.py:183-204 | one token grows the tree by exactly what a reference that knows only the open tags writes |
| MarkupTree.TreeIsRepairedStream | src/core/artifact_check.py:176-211 | for every token stream the tree, written out, is the stream with the missing ends filled in innermost first, stray ends dropped and adjacent data merged; OpenTagsStep says which elements are open |
| MarkupTree.CloseDownToWritten | src/core/artifact_check.py:192-197 | an end tag closes everything open inside its element, innermost first, and nothing below it |
| MarkupTree.DataWritten | src/core/artifact_check.py:199-204 | data joins the text before it or starts a new one |
| MarkupTree.TreeKeepsTextAndOrder | src/core/artifact_check.py:214-228 | for every stream the text of the tree is all its data in arrival order, and the elements in document order are those of the start tags in arrival order |
| MarkupTree.RoundTripIffWellNested | src/core/artifact_check.py:176-211 | writing the tree gives the stream back, adjacent data merged and void elements in one spelling, if and only if the stream is well nested |
| MarkupTree.WellNestedRoundTrip | src/core/artifact_check.py:176-211 | the round trip for well-nested streams |
| MarkupTree.OpenTagsStep | src/core/artifact_check.py:183-197 | what each token does to the list of open tags: a start tag joins it unless void, an end tag leaves those below the last one with its tag, or all if none but the root has it, and nothing else changes it |
| MarkupTree.Nearest | src/core/artifact_check.py:192-197 | the index is 0 if and only if no open element but the root has the tag; otherwise it has the tag and every open element above it has another one |
| MarkupTree.NearestIs | src/core/artifact_check.py:192-197 | only one index is like that, so any search that finds such an element finds the one an end tag closes |
| MarkupTree.DictOfIs | src/core/artifact_check.py:184 | a repeated attribute name has the value of its last pair |
| DomBuilder.StackIsParentChain | src/core/artifact_check.py:178-197 | the stack is the parent chain from the root to the current element, each element the last child of the one before it |
| DomBuilder.PopElements | src/core/artifact_check.py:192-197 | cutting the stack makes every removed element a finished child of the one below |
| DomBuilder.TreeBuilder.HandleStartTag | src/core/artifact_check.py:183-187 | a start tag gives the element that was on top a new last child with this tag, these attributes and a parent link, pushed on the stack unless the tag is void |
| DomBuilder.TreeBuilder.HandleStartEndTag | src/core/artifact_check.py:189-190 | a self-closed tag gives the element on top a new last child and leaves the stack as it is |
| DomBuilder.TreeBuilder.HandleEndTag | src/core/artifact_check.py:192-197 | if an open element other than the root has the tag, exactly the elements below the last such one stay on the stack; otherwise nothing changes |
| DomBuilder.TreeBuilder.HandleData | src/core/artifact_check.py:199-204 | data extends a last text child or adds one |
| DomBuilder.ParseDom | src/core/artifact_check.py:207-211 | the elements under the root stand for the tree of the whole stream, parent links included, with the elements open after each token as OpenTagsStep says |
| DomBuilder.TextBelow | src/core/artifact_check.py:227-228 | the recursive text of the elements is the text of the nodes they stand for |
| DomBuilder.Descendants | src/core/artifact_check.py:214-218 | the elements yielded have the labels of the nodes below, in document order |
| DomBuilder.ReadPage | src/core/artifact_check.py:207-228 | whatever the stream, the text read off the elements is all its data and the descendants are its start tags in order |
| DomBuilder.TreeBuilder.AddElement | src/core/artifact_check.py:183-190 | a new element with its parent link becomes a finished last child |
| DomBuilder.TreeBuilder.PushElement | src/core/artifact_check.py:183-187 | a new element with its parent link becomes the last child and the top of the stack |
| DomBuilder.TreeBuilder.CutStack | src/core/artifact_check.py:192-197 | deleting the stack from a depth on closes those elements |
| DomBuilder.Feed | src/core/artifact_check.py:183-204 | each token takes the tree's step on the elements |
| DomBuilder.TreeBuilder.Find | src/core/artifact_check.py:192-197 | the loop from the top of the stack finds the last open element with the tag, the root left out |
| MathScan.InlineDollar | scripts/prerender_math.js:39-51 | it finds $...$ exactly when one starts here: the first closing dollar that is not escaped, with no earlier unescaped newline |
| MathScan.DisplayDollar | scripts/prerender_math.js:54-62 | it finds $$...$$ exactly when one starts here, with a non-empty content free of dollars |
| MathScan.Bracket | scripts/prerender_math.js:66-77 | it finds a bracketed span exactly when one starts here: the first unescaped close, not followed by ] for \\], with no earlier unescaped newline for \\( |
| MathScan.MathSpanAt | scripts/prerender_math.js:80-86 | it finds a span, with its display mode, exactly when one of the four classes starts here |
| MathScan.LiveNext | scripts/prerender_math.js:43-44 | skipping the unit after a backslash never lands inside a pair |
| MathScan.SpanIsUnique | scripts/prerender_math.js:80-86 | at most one span starts at a place, in one display mode |
| MathScan.SpanContent | scripts/prerender_math.js:177-181 | a span is its open delimiter, a non-empty content and the matching close delimiter |
| MathScan.ScanMathSpans | scripts/prerender_math.js:88-109 | the scan terminates, and its spans tile the text together with plain units and escape pairs at none of which a span starts |
| MathScan.SpansAreOrdered | scripts/prerender_math.js:88-109 | spans come in order, do not overlap and lie inside the text |
| MathScan.TilingIsUnique | scripts/prerender_math.js:88-109 | the spans are determined by the text: any two such tilings are the same |
| MathScan.InlineIs | scripts/prerender_math.js:39-51 | $...$: no white space after the opening dollar; the close is the first unescaped dollar with no white space before and no digit after it, and no unescaped newline comes earlier |
| MathScan.DisplayIs | scripts/prerender_math.js:54-77 | the exact ends of bracketed and of $$...$$ spans, unit by unit |
| MathScan.ClassesAre | scripts/prerender_math.js:80-86 | which delimiters open which class, and which classes are displayed |
| MathScan.Prices | scripts/prerender_math.js:39-51 | two prices in a row are no math, $x$ is, and $x$1 is not |
| MathPages.SortedKeeps | scripts/prerender_math.js:136 | sorting by start keeps the same ranges and covers the same positions |
| MathPages.MergeRanges | scripts/prerender_math.js:137-143 | the merged ranges are non-empty, apart from each other by at least one uncovered position, and cover exactly the positions the input covers |
| MathPages.SeparatedIsUnique | scripts/prerender_math.js:137-143 | ranges that far apart are determined by what they cover, so the merge depends on the union alone |
| MathPages.RangeIsInside | scripts/prerender_math.js:137-143 | a protected range lies inside one merged range |
| MathPages.RenderRun | scripts/prerender_math.js:159-175 | a run is written with each scanned span replaced and everything else copied |
| MathPages.RunIdentity | scripts/prerender_math.js:159-175 | replacing each span by itself gives the run back |
| MathPages.PrerenderMath | scripts/prerender_math.js:146-157 | the page is the maximal intervals of the protected positions as they are and, between them, runs scanned on their own with each span's content typeset |
| MathPages.PageIdentity | scripts/prerender_math.js:146-175 | with every span replaced by itself the page is the input |
| MathPages.ProtectedVerbatim | scripts/prerender_math.js:150-152 | for every renderer the k-th protected range stands in the page byte for byte, right after everything up to the range before it and the rendered run between the two |
| MathPages.PageIsDetermined | scripts/prerender_math.js:146-157 | the ranges and spans used depend on the text and the protected positions alone |
| MathPages.RunIsPieces | scripts/prerender_math.js:159-175 | a written run is, in order, the texts between its spans as they are and each span rendered |
| MathPages.TypesetIs | scripts/prerender_math.js:177-181 | katex gets the text between the delimiters, which are one unit long for a single dollar and two otherwise |
| WorkerLog.ProjectAppend | src/api/threads.py:605-651 | projecting in two parts, tool names carried over, is projecting at once |
| WorkerLog.ProjectContinues | src/api/threads.py:605-651 | an emitted row is never rewritten or dropped by later events |
| WorkerLog.ProjectRaises | src/api/threads.py:605-651 | whether the projection raises depends on the events alone, not on rows or names so far: exactly when some event is bad |
| WorkerLog.DatasAppend | src/api/threads.py:566-571 | events of whole lines read in two parts are those read at once |
| WorkerLog.CommittedAppend | src/api/threads.py:567-572 | after whole lines, the complete part of a grown log is them followed by the complete part of the rest |
| WorkerReader.CacheEntry.Append | src/api/threads.py:605-651 | the in-place projection leaves rows and names of the whole-list projection, those it added before raising included |
| WorkerReader.CacheEntry.AppendOne | src/api/threads.py:605-651 | one event adds exactly the rows and names that the whole-list projection adds for it, and WorkerRows says which rows these are |
| WorkerReader.SoundOutcome | src/api/threads.py:558-572 | reading on from a sound entry answers what a read of the whole log answers |
| WorkerReader.PoisonedOutcome | src/api/threads.py:558-572 | after a read that raised, every later read of a log that still holds the bad line raises too, so the leftover rows are never returned |
| WorkerReader.Refresh | src/api/threads.py:558-572 | for every entry and content: the pass adds the projection of the complete lines from the offset on, and moves the offset past them unless it raised; from an entry in step it raises exactly when a whole read raises, and otherwise leaves exactly the whole projection in the entry |
| WorkerReader.WorkerLogReader.Read | src/api/threads.py:546-574 | whatever has happened to the log, answer and cache are exactly those of one projection step from the offset, restarted below it; for every history of appends, torn lines, removals, evictions, and cuts that keep what was read or fall below the offset, the answer is the projection of all complete lines of the current log, or a raise exactly when that projection raises; WorkerRows.ReadRowsAre says event by event which rows that is |
| WorkerReader.WorkerLogReader.MemoHit | src/api/threads.py:577-602 | the memo answers exactly when the size is the offset, and then what a read would return, whatever has happened to the log |
| WorkerReader.WorkerLogReader.Write | src/api/threads.py:523-526 | any new content; one that keeps every line a read has tried, or falls below the offset, leaves a sound cache sound |
| WorkerReader.WorkerLogReader.AppendToLog | src/api/threads.py:546-554 | any append to any log; it leaves a sound cache sound unless the log had been cut below the offset and not read since |
| WorkerReader.EnvelopeExact | src/api/threads.py:682-693 | after one envelope the client holds the whole projection if and only if it held a prefix of it, or more rows than there are |
| WorkerReader.RowsGrow | src/api/threads.py:668-671 | a log that only grew keeps every row it had, in place |
| WorkerReader.Client.Poll | src/api/threads.py:658-693 | over a growing log each poll that does not raise leaves the client with exactly the whole projection |
| WorkerReader.WorkerLogReader.Rows | src/api/threads.py:676-679 | the memo, or else a read, gives the whole projection |
| WorkerReader.CacheEntry.AppendToolUses | src/api/threads.py:613-624 | the blocks of an assistant message, a raise after the name is recorded included |
| WorkerReader.CacheEntry.AppendToolResults | src/api/threads.py:625-640 | the blocks of a user message, each result under its carried tool name and capped |
| WorkerReader.WorkerLogReader.Remove | src/api/threads.py:556-558 | a removed log leaves the cache sound |
| WorkerReader.WorkerLogReader.Evict | src/api/threads.py:542 | an evicted entry leaves the cache sound |
| StaleLog.RaisedReadLeavesRows | src/api/threads.py:556-602 | a log read while empty, then with a bad second line, then cut back to nothing: memo and read both answer the row of the first line, which a whole read does not |
| StaleLog.CutAndRegrown | src/api/threads.py:553-574 | a log read, cut to nothing and grown back to its old length before the next read: memo and read both answer the old row, which a whole read does not |
| StaleLog.StaleOffset | src/api/threads.py:553-574 | exactly when a read is right, for every cache slot and every log: it restarts below the offset; or, where it first meets a line boundary, a bad line is met by both or by neither, and if by neither the entry holds the rows that the log holds before that boundary and every tool result after it looks up the same tool name |
| StaleLog.StaleRows | src/api/threads.py:553-574 | with the offset at a line boundary and a log that reads well: an entry, left by whatever reads, raised ones included, answers right if and only if its rows are those of the bytes before the offset and every tool result after it looks up the same name |
| StaleLog.ProjectAgrees | src/api/threads.py:605-651 | from starts with equally many rows the same events end in the same rows if and only if the starts have the same rows and every tool result looks up the same name, names that the events themselves record counted in |
| StaleLog.ProjectApart | src/api/threads.py:605-651 | how many rows events add, and whether they raise, does not depend on what came before |
| StaleLog.RegrownIsWrong | src/api/threads.py:553-574 | by that condition the log that was cut and grew back is answered wrong |
| StaleLog.LeftoverIsWrong | src/api/threads.py:568-573 | by that condition the rows left behind by a raised read are answered wrong |
| WorkerSession.Session | src/api/threads.py:546-693 | over every history of appends, torn lines, evictions and polls: after each act the panel shows the whole projection of the complete lines of the log at the last poll for which that projection does not raise |
| WorkerSession.ShownGrows | src/api/threads.py:668-671 | over every such history no row the panel has shown is changed, moved or taken away |
| Accounts.ScopedWindowCaps | src/core/claude_accounts.py:326-351 | a live model-scoped window at u percent caps the headroom at max(0, 1 - u/100) whatever the event reading is |
| Accounts.RejectionHoldsExact | src/core/claude_accounts.py:326-371 | with a rejection whose reset is ahead, the carried reading is that rejection if and only if no newer plan-wide panel reading exists, and the headroom is zero if and only if it is, or the newer reading is full |
| Accounts.RejectionForgotten | src/core/claude_accounts.py:326-371 | a concrete rejected account that a newer panel sample makes four fifths free before its reset |
| Accounts.LiveOfElements | src/core/claude_accounts.py:288-308 | the live windows are exactly those not expired and readable by the model |
| Accounts.HighestBounds | src/core/claude_accounts.py:311-323 | the folded utilization is at least every live window's |
| Accounts.BindingIsHighest | src/core/claude_accounts.py:421-439 | the binding window is a live one with the highest utilization |
| Accounts.ResetBonus | src/core/claude_accounts.py:442-449 | the bonus is between 0 and 0.10, and positive only above the minimum headroom |
| Accounts.Select | src/core/claude_accounts.py:374-412 | None exactly when no unexcluded healthy account has headroom, which HeadroomIs gives reading by reading; otherwise an available account, idle whenever an available one is, within the score tie of the best contender and within 0.12 of every contender's headroom, and the least recently active among the near ties |
| Accounts.BoundIsMet | src/core/claude_accounts.py:374-412 | a concrete pool where Select chooses an account with exactly 0.12 less headroom than another contender, so the bound cannot be lowered |
| Accounts.BestScore | src/core/claude_accounts.py:410 | the best score of the contenders |
| Accounts.LeastRecent | src/core/claude_accounts.py:411-412 | the first least recently active account of those within the tie |
| Accounts.PoolMemory.ObserveRateLimit | src/core/claude_accounts.py:208-235 | a payload teaches nothing exactly when it has no utilization and is no rejection; else it becomes the account's reading: one of the payload's utilizations and at least each of them, a full one for a bare rejection, and only a rejection holds the account, until the reset it names or for 3600 seconds |
| Accounts.MaxOfIs | src/core/claude_accounts.py:208-235 | the utilization kept is one of the payload's and none is higher |
| Accounts.Keep | src/core/claude_accounts.py:399-404 | exactly the unexcluded healthy accounts with headroom are available |
| Accounts.KeepIdle | src/core/claude_accounts.py:407 | exactly the available accounts no other session holds are idle |
| Accounts.HeadroomIs | src/core/claude_accounts.py:326-371 | reading by reading: zero while a rejection that counts is ahead, else 1 minus the largest utilization that counts, never below 0, and 1.0 if none counts |
| Accounts.UnreadIsFree | src/core/claude_accounts.py:363-368 | an account with no event reading and no live window with a utilization has headroom 1.0 |
| Accounts.SelectFresh | src/core/claude_accounts.py:374-412 | a pool with an unexcluded account with credentials, no recent failed login and no reading always has a choice |
| Accounts.Unavailable | src/core/claude_accounts.py:390-404 | no process goes to an excluded account, to one without credentials, or to one whose login failed within 15 minutes |
| Accounts.PanelReadingIs | src/core/claude_accounts.py:311-323 | the panel reading is the largest utilization of the live windows, a hundredth of its percentage, at the panel's time; there is none if no live window has one |
| Accounts.BindingIs | src/core/claude_accounts.py:421-439 | the binding window is the first live one with a utilization that no other exceeds |
| Accounts.BonusIs | src/core/claude_accounts.py:442-449 | above a headroom of 0.10 a binding window that lapses within a day earns a tenth in proportion to how soon, and anything else earns nothing |
| Relay.RelayWatch.Observe | src/core/claude_relay.py:92-115 | termination is asked for exactly at the first tool result after an arming warning, with no rejection before it |
| Relay.TerminatesOnce | src/core/claude_relay.py:92-115 | a process is asked to terminate at most once |
| Relay.TranscriptStore.Move | src/core/claude_accounts.py:491-515 | the copy lands under the other account and the source stays; it fails exactly when the source is missing or the sizes differ |
| Relay.MoveToNextAccount | src/core/claude_relay.py:146-167 | the next account is another one, the one the selection rule picks, and both accounts then hold the transcript; exactly without a session id, with no other account available, or with a missing source or a copy of another size there is none, and the error says which; nothing but the copy changes, and no transcript disappears |
| Relay.RelayWatch.ObserveInfo | src/core/claude_relay.py:95-107 | a rejection asks for a relay and disarms; a warning at the line with its reset far enough ahead arms one; the account's reading is stored either way |
| Relay.HistorySnoc | src/core/claude_relay.py:92-115 | what one more event adds to the history: a rejection, an arming warning, a safe stop, a named login failure |
| Relay.ArmingIs | src/core/claude_relay.py:92-107 | a warning arms if and only if some utilization is at least 0.90 and its reset is unknown or more than 45 minutes ahead |
| Relay.ReasonMeans | src/core/claude_relay.py:92-115 | what a process's events ask for, event by event: a rejection anywhere, else a tool result after an arming warning, else nothing |
| RelayTurn.Stream | src/agents/master_cc_run.py:870-887 | a process's events, folded one by one, give the decision its exit code, its standard error and its whole history determine (a failed login, else a rejection, else a safe stop), and leave in the pool's memory exactly the readings of its events in order |
| RelayTurn.Overhear | src/core/claude_accounts.py:208-240 | what other runs and the usage panel report meanwhile is remembered in order |
| RelayTurn.RunProcess | src/agents/master_cc_run.py:843-897 | one process: the conversation id is kept from the first one on, the transcript it leaves, if any, is under its account, and its readings, the overheard ones and a failed login are remembered |
| RelayTurn.RunTurn | src/agents/master_cc_run.py:881-913 | for every behaviour of the processes and everything observed meanwhile: after each process the loop relays if and only if the process asks for it, the limit allows it, the conversation has an id, another account is available and the copy does not fail, and otherwise the turn ends with the outcome that names the first of these that is missing; so there are at most four processes; each relayed one resumes the turn's conversation, the given one or else the one its first process reports, on the account the selection rule picks from what is remembered at that moment; memory and transcripts are at every process's end exactly what the runs and the copies make of them; no transcript disappears |
| RelayTurn.GoOn | src/agents/master_cc_run.py:889-912 | after a process: the next one, or the outcome that ends the turn there |
| RelayTurn.RelayOn | src/core/claude_relay.py:146-167 | the process that resumes the conversation on the next account, or exactly why there is none |
| RelayTurn.FailedLoginWaits | src/agents/master_cc_run.py:881-913 | in every turn, a later process runs on an account whose login failed only if the cooldown lies between that failure and the decision |
| RelayTurn.HeldAccountWaits | src/agents/master_cc_run.py:881-913 | in every turn, no relay goes to an account remembered as rejected with its reset ahead, unless a newer plan-wide panel reading exists |
| RelayTurn.RejectedAccountWaits | src/agents/master_cc_run.py:881-913 | in every turn, an account whose own process ended in a rejection that is still ahead is not relayed to again unless a newer plan-wide panel reading exists, as long as nobody else read the account meanwhile |
| RelayTurn.ReadingStays | src/agents/master_cc_run.py:870-913 | an account's reading is what its own process left until somebody reads it again |
| RelayTurn.DecisionMeans | src/agents/master_cc_run.py:881-887 | a failed login is the reason exactly if the process failed and its standard error or one of its texts says so; otherwise its events decide |
| RelayTurn.LastTaught | src/core/claude_accounts.py:208-235 | after a process's events the account's reading is that of the last event that taught something |
| GitRecords.SplitTerminated | src/api/git.py:278 | splitting NUL-terminated tokens gives them back and an empty last one |
| GitRecords.ParseNumstat | src/api/git.py:267-296 | the index loop reads the entries its token grammar gives, or its first error |
| GitRecords.ParseNameStatus | src/api/git.py:299-319 | the index loop reads the status map its token grammar gives, or its first error |
| GitRecords.NumstatReads | src/api/git.py:267-296 | what git prints in the numstat form reads back entry by entry: tabs in paths, renames and binary files included |
| GitRecords.StatusReads | src/api/git.py:299-319 | what git prints in the name-status form reads back as the letter of each path |
| GitRecords.ListingsRoundTrip | src/api/git.py:267-319 | printing any list of changes in both forms and parsing gives the entries and the letters back |
| GitRecords.PathsAreKeys | src/api/git.py:408-416 | every path of the first listing is a key of the second |
| GitRecords.JoinRows | src/api/git.py:409-423 | one row an entry with its path's letter, and the totals; it fails exactly when a path has no letter |
| GitRecords.DiffFiles | src/api/git.py:396-423 | the manifest of two listings, with the order in which their errors win |
| GitRecords.ManifestOfChanges | src/api/git.py:396-423 | for every list of changes with distinct paths: one row a change, in order, with its path, letter, old path, added lines and deleted lines (0 for a binary file), and the totals are the lines added and the lines deleted over all changes |
| GitRecords.OneRecord | src/api/git.py:283-295 | the first count of a record is the lines added, the second the lines deleted |
| GitRecords.OneRename | src/api/git.py:286-290 | a rename has no path after the counts, then the old and the new path; a binary file counts 0 |
| GitRecords.OneStatus | src/api/git.py:306-319 | a status is the letter of the path after it, of a rename of the second path |
| GitRecords.TooFewTabs | src/api/git.py:278-284 | after any records in order, one with fewer than two tabs is the error |
| GitRecords.BadRecord | src/api/git.py:284-295 | after any records in order, a rename without its two paths is the error, and else a count that is no number |
| GitRecords.BadStatus | src/api/git.py:306-319 | after any statuses in order, one without the path it needs, or the two of a rename or copy, is the error |
| Decimals.DecimalValue | src/api/git.py:293-294 | a count printed in decimal reads back |
| RowSplice.ScalarExact | src/api/sessions.py:536-555 | the scalar form writes what json.dumps writes if and only if the value is None, a boolean, an integer or a string without quote, backslash, control or non-ASCII character |
| RowSplice.StaticSegments | src/api/sessions.py:521-533 | the loop cuts the row into rendered static runs and derived keys, in order |
| RowSplice.SpliceRow | src/api/sessions.py:596-602 | the loop renders the segments with the request's values, or raises on the first value it cannot render |
| RowSplice.SpliceIsPlaced | src/api/sessions.py:521-602 | splicing writes the row with each derived value in its place, empty runs and adjacent derived keys included |
| RowSplice.OverlayIsPlaced | src/api/sessions.py:503-507 | assigning the derived values onto declared keys keeps the row's order |
| RowSplice.OverlayAppends | src/api/sessions.py:503-507 | the assignments append something if and only if some derived key is not declared |
| RowSplice.SpliceExact | src/api/sessions.py:580-585 | the spliced bytes are those of the overlaid row if and only if the row declares every derived key |
| RowSplice.SplicedRow | src/api/sessions.py:500-602 | for every row, every placement of the derived keys and every values of the code's types: the bytes of the overlaid row if and only if the row declares every derived key |
| RowSplice.JoinAppend | src/api/sessions.py:602 | joined runs of members are joined members |
| RowSplice.SpliceableAt | src/api/sessions.py:597-601 | a derived segment renders as the member json.dumps writes for its key and value |
| RowSplice.ValueTexts | src/api/sessions.py:536-555 | the texts of null, both booleans, a negative integer and a plain string |
| RowSplice.MemberText | src/api/sessions.py:521-533 | a member is its quoted key, a colon and its value, without spaces |
| RowSplice.RowText | src/api/sessions.py:521-533 | members are parted by commas, between braces |
| StreamReport.ReportIs | src/api/anthropic_proxy.py:222-239 | over every chunk stream with a meaning: the reported stop reason is tool_use for a last non-empty finish reason tool_calls, max_tokens for length, end_turn for none or stop, and else that reason itself; input and output tokens are prompt and completion tokens of the last usage, each 0 when absent |
| StreamReport.BlocksAre | src/api/anthropic_proxy.py:322-445 | which blocks a stream has, read off its texts and tool deltas in order: text opens a block unless one is open, a call index seen since the last text opens none, and any other index opens a tool block under its delta's id and name |
| StreamReport.ChunksReport | src/api/anthropic_proxy.py:322-346 | the finish reason kept is the last non-empty one of all choices, and the usage kept that of the last chunk with one |
| HookMeaning.AcceptedIff | src/cli/claude_sub_bridge.py:161-444 | a hook that the history allows is accepted if and only if its payload holds what its kind needs, kind by kind: which fields, of which types, from which words |
| HookMeaning.EventsAre | src/cli/claude_sub_bridge.py:161-444 | which chat events an accepted hook gives, kind by kind |
| HookMeaning.SaidIsDisplayed | src/cli/claude_sub_bridge.py:246-281 | the assistant texts of a turn are the non-empty deltas of its displayed messages, in order |
| HookMeaning.ServedSays | src/cli/claude_sub_bridge.py:485-536 | whatever connects, what a turn says is the displayed deltas of the accepted hooks, each once and in order |
| WorkerRows.RowsAre | src/api/threads.py:605-651 | over every event list that does not raise, in log order, each event gives: an assistant message its non-empty text, then a row with name and input for each tool use; a user message a row for each tool result, its first 20000 characters with the truncation flag, under the name last recorded for its id; any other event exactly one row |
| WorkerRows.ReadRowsAre | src/api/threads.py:546-574 | what a read of a log answers, if it does not raise, is exactly these rows for the events of its complete lines |
| WorkerRows.RaisesIff | src/api/threads.py:605-651 | a projection raises if and only if one of its events cannot be projected, which is said field by field |
| WorkerRows.TextsAndUses | src/api/threads.py:605-624 | the text rows are the non-empty texts of the assistant messages and the tool-use rows the names and inputs of the tool uses, each in log order |
| WorkerRows.LineIs | src/api/threads.py:566-572 | an empty or unparsable line gives no event, any other exactly one, and a line without its LF none yet |

## Left out

- File errors: failed stats, opens and reads, and the branches that log and answer an empty page, are not modelled; the file is always readable, or absent where a branch asks for that.
- UTF-8 decoding and JSON parsing are one function from a line's bytes to an optional event; a line that decodes but is not an object is only modelled where the code raises on it (the worker log).
- Blank lines: `str.strip` in the rotation and the JSON reader's whitespace test are one classification of lines, so their difference on exotic white space is not modelled.
- Archive memos: the stat-keyed memos of archive files and of their listing are not modelled; the listing is read as it is.
- Memo eviction: least-recently-used order is an arbitrary eviction step.
- ISO weeks are chronological week indices; the year and week digits of the file names, and that sorting names sorts weeks, are not modelled.
- ChatSession.Session: no append overtakes a read in it, because LiveRange.Replay and ChatStore.ChatEventStore.LoadRange cover those; torn last lines, blank lines and malformed lines do not occur in it, because saves write none; ChatStore.ChatEventStore.SaveEvent, ChatStore.RotationsExact and Archive.WarmCachePagesExact cover those.
- Event identity: filling in missing ids and timestamps when an event is saved.
- Queue payloads: relaying the conversation id and account from item to item, the persistence read-backs, the zero-output guard and the MASTER_DONE fields. The still-thinking flag is not modelled, because the code does not re-check it after its awaits.
- Cancellation of a queue consumer, which only happens at shutdown, and boot-time re-attachment.
- SSE framing, message ids and model names of the streamed messages; tool arguments are compared as raw text, not as decoded JSON, with empty text read as an empty object.
- StreamEquivalence.StreamingAgrees: covers single-choice streams whose text comes before tool deltas and whose call indices first appear in increasing order, because outside of these the two translations order blocks differently.
- Hook error messages: a rejection is a kind of error, not its text; fixed fields of the emitted events (uuids, working directory, empty lists) and the shaping of tool-result content are not modelled.
- StreamTurn.StreamTurn: hooks that arrive while the foreground process is being terminated, tmux itself, the plugin files and the session marker are not modelled; of a termination the number of tries and whether the branch's own one raised is modelled, not its signals and waits, nor the error texts.
- HTML tokenizing (attribute syntax, character references) and the class tokens of elements; the void-tag list is a parameter, so the results hold for any list.
- The regular expressions of the protected ranges are a given list of non-empty matches; KaTeX is a function parameter.
- Worker rows carry no timestamps: the time a row gets when its event has none is a clock reading.
- Worker rows built from unknown event types are one kind of row; a row that fails validation there falls back to a raw row in the code and is the same kind here.
- Utilizations, headrooms and scores are exact reals, so floating-point rounding near the tie is not modelled; matching a scope label against a model family is a given predicate.
- RelayTurn.RunTurn: what others observe is applied after the process's own events, at the moment of the decision, instead of interleaved with them; compaction on the new account, subagent sidecars of a transcript and the final model notice are not modelled.
- Python's int() takes more spellings than decimal digits; those are a given function.
- The `%02d` and year text of the minute stamp: the stamp's numbers are modelled, not its characters.
- RowSplice.SplicedRow: the memo of segments per metadata object, and the list brackets around the rows, are not modelled.
- The marked rebuild of the workers panel, whose claim depends on another writer of a shared memo.
- Sidebar broadcasts, logging, pages, the ordinal-label scan, page heights, the transcriber, backups and command lines: plumbing, or members that would only add easy claims.
