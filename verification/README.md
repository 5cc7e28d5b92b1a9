# Verified model of VIATOR's data paths

VIATOR gathers national rail timetables (GTFS and NeTEx), repairs and cuts them
for the journey planners OTP and MOTIS, and extracts the rail stations of each
feed. This project models the parts of that work where a subtle mistake would
silently change data, and proves what they are relied on for. The model follows
the code branch by branch.

The modules follow the program:

- **Skip filter** (`SkipSpec`, `SkipLocality`, `SkipMoves`, `SkipFilter`,
  `SkipTree`, `SkipMeaning`; app/station_extract_skip.py). A byte-level state machine that
  drops XML subtrees from a stream before the parser sees them. `SkipSpec.Scan`
  is the meaning on a whole document, the class `SkipFilter` the chunked
  program, `SkipTree` the tree of tokens with its printer.
- **Download** (`Download`, `DownloadLoop`, `DownloadWhole`, `DownloadDelivers`;
  app/feed_fetch.py).
  The resumable download against a server that chooses every answer. Assumed:
  a strong validator names one byte sequence (section 8.8.2.2 of RFC 9110) and a
  206 under If-Range comes from the version it names (section 13.1.5).
- **Refresh records** (`Refresh`, `RefreshProtocol`, `RefreshRecord`,
  `RefreshMeaning`; app/refresh_progress.py). The claim, lease and fencing protocol over a shared
  table: claims run statement by statement under the session's advisory lock,
  every other transaction is one statement, stamped with the time it began.
- **Calendars** (`CalendarSpec`, `CalendarMotis`, `CalendarFrame`,
  `CalendarConvert`, `CalendarMeaning`; app/netex_calendar.py). The conversion of NeTEx calendars
  for MOTIS, in memory and as a stream, against the days the frame means.
- **Frames as bytes** (`FrameStream`, `FrameRewriter`, `FrameEdit`, `FrameTags`,
  `FrameReading`, `FramePieces`, `FrameRender`, `FrameLibrary`, `FrameConvert`,
  `FrameDocument`, `FrameMeaning`; app/netex_calendar.py). The conversion of one
  frame's bytes (chunked searches, edits, the XML written, and the parts that are
  read out of bytes) and the streaming rewrite of a document with these
  conversions, for any chunks.
- **Course refit** (`CourseRefit`, `RefitEdits`, `RefitPass`, `RefitCourses`,
  `RefitMeaning`; app/netex_motis_repair.py). Courses given patterns that match their passing
  times, down to the bytes of the file.
- **Stations** (`StationLists`, `StationSpec`, `StationOrder`, `StationTally`,
  `StationReader`, `StationPlaces`, `StationResult`, `StationCount`,
  `StationArchive`, `StationMeaning`; app/station_extract_netex.py). The NeTEx station reader with
  its packed tallies and early filtering, against an order-free meaning.
- **Snapshot** and **WarmQueue** (app/station_extract.py), **GtfsLines**
  (app/station_extract_gtfs.py), **CrossBorder** and `CrossBorderMeaning`
  (app/gtfs_cross_border_filter.py), **Heap** (app/otp_heap.py). `Bytes` holds
  byte strings and searches.

A method is proved against a function of its inputs or its old state; what that
function means is stated in the modules named Meaning and in `DownloadDelivers`,
in terms of the inputs alone, with the constants written out.

Where the code does not meet the plain statement of a property, the model keeps
the code and the theorem gives the exact condition:

- `_Transfer.start` says that a full answer always meets a new transfer. A resume
  that failed after its last byte keeps the old one, and the next full request
  adds to it (`Download.StaleTransfer`); the result is right exactly when the
  transfer before the last request could be resumed or was empty
  (`Download.DownloadIsOneVersion`), which holds for instance when a fully
  delivered body ends cleanly.
- `auto_build_heap` says it gives the largest heap that fits; it can be one
  gigabyte short (`Heap.OneShort`), and `AutoBuildHeap` says exactly when.
- `_derive` keeps points by id: the refit result holds exactly when no pattern of
  a refitted course repeats a kept point (`CourseRefit.RefitReads`), and exactly
  then a second refit changes nothing (`CourseRefit.SecondRefit`). With points
  a, b, a the course does not match and a second refit moves it again
  (`CourseRefit.RepeatedPoint`, `CourseRefit.RepeatedAgain`).
- A file that already has an id the refit makes can break its result
  (`CourseRefit.TakenId`); `CourseRefit.RefitReadsAlways` says when. The calendar
  conversion promises its result for frames without a period of an id it makes.
- A frame that gives a day type two UIC periods, or takes days away, is no reason
  for a conversion, although MOTIS reads only the first assignment
  (`CalendarMeaning.TwoPeriods`, `CalendarMeaning.LeftAloneReads`).
- A journey is filtered by what is known of its Line when it is read; a Line
  given differently afterwards does not bring it back
  (`StationReader.RedefinedLine`), and `StationArchive.ReadArchive` is stated of
  the journeys as read.
- The cross-border filter adds the parents of the stops called at, not the
  parents of those: a called boarding area on a platform of a station leaves the
  platform without its station (`CrossBorder.TwoLevels`); the output is consistent
  exactly when that does not happen (`CrossBorder.WrittenConsistent`).
- A file re-wrapped to the very size of its download is never yielded as a
  snapshot (`Snapshot.QuietFetch`), never mislabelled.
- The skip filter ends a name outside a cut at any byte of `\s`, which includes
  vertical tab and form feed, and inside a cut only at the delimiters listed;
  its set of names is not empty (an empty one would match any `<` before a
  delimiter).

## Model

| member | source | states |
|---|---|---|
| `SkipFilter.FilterDocument` | app/station_extract_skip.py:84-355 | However the bytes are divided into chunks, with any bytes primed first, the output and the reported cuts are those of one scan of the whole document |
| `SkipTree.FilterWellFormed` | app/station_extract_skip.py:77-355 | On every well-formed document, in any chunks, handed over at any byte: the output is the printing of the tree without its outermost elements of the set that begin after the hand-over, and each removed element is reported once, in order |
| `SkipTree.FilteredDocument` | app/station_extract_skip.py:77-355 | The scan of a printed document is the printing of the pruned tree: text, comments, CDATA, processing instructions, both quotes, `>` in values, self-closing tags, same-name nesting |
| `SkipTree.PruneFromStart` | app/station_extract_skip.py:77-83 | Without a hand-over the pruned tree is simply the tree without its outermost elements of the set |
| `SkipTree.NodesOutside` | app/station_extract_skip.py:325-355 | Outside a cut, any well-formed content is scanned to its end and gives exactly its pruned printing and its removed names |
| `SkipTree.NodesInCut` | app/station_extract_skip.py:266-323 | Inside a cut, any well-formed content gives back nothing and leaves the nesting depth as it was |
| `SkipFilter.SkipFilter.Run` | app/station_extract_skip.py:134-153 | One buffer moves the filter exactly as far as the scan of buffer and future bytes agree, and the carry kept is at most the lookahead |
| `SkipFilter.SkipFilter.Prime` | app/station_extract_skip.py:116-121 | Primed bytes set the state only: nothing of them is given back, no element begun in them is cut |
| `SkipFilter.SkipFilter.Feed` | app/station_extract_skip.py:123-124 | What a chunk gives back, followed by the scan of what is carried and to come, is the scan from before it |
| `SkipFilter.SkipFilter.Finish` | app/station_extract_skip.py:126-127 | The last bytes are scanned as the end of the document |
| `SkipFilter.SkipFilter.ToTerminator` | app/station_extract_skip.py:155-173 | Looking for `-->`, `]]>`, `?>` or `>` in a buffer advances as the scan does, whatever follows |
| `SkipFilter.SkipFilter.ToTagEnd` | app/station_extract_skip.py:175-195 | Quotes and the end of a start tag of the dropped name, across buffers, as the scan reads them |
| `SkipFilter.SkipFilter.InCut` | app/station_extract_skip.py:266-310 | Inside a cut the nearest of the four searches decides, as the scan does |
| `SkipFilter.SkipFilter.MarkupInCut` | app/station_extract_skip.py:312-323 | A comment, CDATA or processing instruction inside a cut hides its content; a declaration is passed |
| `SkipFilter.SkipFilter.OutsideCut` | app/station_extract_skip.py:325-355 | Outside, the first event of the expression decides; the tail that may still become one is kept back |
| `SkipFilter.SkipFilter.First` | app/station_extract_skip.py:250-264 | A remembered search returns what a fresh search within the limit would |
| `SkipFilter.SkipFilter.Known` | app/station_extract_skip.py:238-248 | A memo is used only while it answers the question asked |
| `SkipFilter.SearchTag` | app/station_extract_skip.py:208-220 | The first tag of the name, by repeated finds, is the first place where the tag stands |
| `SkipFilter.SearchMarkup` | app/station_extract_skip.py:222-229 | The first `<!` or `<?` within the bounds, by finds of its second byte |
| `SkipLocality.OutsideSettled` | app/station_extract_skip.py:95-97 | The lookahead suffices: an event that begins before the kept tail is the same whatever bytes follow |
| `SkipMeaning.Printed` | app/station_extract_skip.py:41 | The printing of text, comments, CDATA and processing instructions, in bytes |
| `SkipMeaning.IsElement` | app/station_extract_skip.py:40-41 | The elements the theorems cover, in bytes: any name without blanks, quotes and markup, quoted values with anything but `<` and their quote |
| `SkipMeaning.IsContent` | app/station_extract_skip.py:41 | And the other content: text without `<`, bodies that do not hold their own end |
| `SkipMeaning.LeftOfOne` | app/station_extract_skip.py:77-83 | Gone is an element exactly when its name is the qualifier and a name of the set; every other stays with what is left of its content, every other node as it is |
| `SkipMeaning.LeftInOrder` | app/station_extract_skip.py:77-83 | Nodes side by side are left side by side |
| `SkipMeaning.LeftAfterHandOver` | app/station_extract_skip.py:116-121 | With a hand-over only elements that begin at or after it go |
| `SkipMeaning.ShownIs` | app/station_extract_skip.py:116-121 | Of what is left exactly the bytes before the hand-over are not given back |
| `SkipMeaning.ReportedOne` | app/station_extract_skip.py:82-83 | An element that goes is reported by its local name, nothing in it is |
| `SkipMeaning.NeverClosed` | app/station_extract_skip.py:266-310 | In any bytes, well-formed or not: a dropped element without an end tag lets nothing after it out |
| `DownloadLoop.DownloadInto` | app/feed_fetch.py:824-861 | The retry loop with its objects gives the outcome, the number of requests and the seconds waited of the pure run, for every server |
| `DownloadLoop.LiveTransfer.Start` | app/feed_fetch.py:444-456 | A full answer sets size, validator, ranges and limits of the transfer; a refused coding stops it |
| `DownloadLoop.LiveTransfer.AcceptRange` | app/feed_fetch.py:468-483 | A 206 is accepted exactly when it continues the file at its next byte, for the same full size, uncoded |
| `DownloadLoop.LiveTransfer.AppendBody` | app/feed_fetch.py:485-505 | Chunks go to the file, the hash and the count together, never past the room announced |
| `DownloadLoop.LiveTransfer.Get` | app/feed_fetch.py:711-722 | A request from byte 0 |
| `DownloadLoop.LiveTransfer.GetMissing` | app/feed_fetch.py:725-745 | A range request and every answer to it |
| `DownloadLoop.LiveAttempts.Resume` | app/feed_fetch.py:910-936 | The budget and the stall count of resumes, as the pure step |
| `DownloadLoop.LiveAttempts.Restart` | app/feed_fetch.py:900-907 | The budget of restarts, as the pure step |
| `DownloadLoop.LiveAttempts.Busy` | app/feed_fetch.py:939-957 | The budget of busy waits, as the pure step |
| `DownloadLoop.Recover` | app/feed_fetch.py:863-882 | What follows a failed request: give up, wait, resume, switch the coding or start anew, as `DownloadDelivers` says of each answer |
| `DownloadDelivers.FileArrives` | app/feed_fetch.py:824-957 | From a server that has one version under a strong ETag and in turn is busy (429, 500, 502, 503, 504), says nothing, breaks off after some bytes or sends all: the file comes, whole, exactly when its script keeps within eight resumes, never two in a row without a byte, five busy waits with bytes held and two new starts without; else the download is given up |
| `DownloadDelivers.ScriptDelivers` | app/feed_fetch.py:824-957 | The same from any moment of a download, with what is left of the limits |
| `DownloadDelivers.EventStep` | app/feed_fetch.py:863-882 | What each of these answers makes of the state |
| `DownloadDelivers.BusyWaits` | app/feed_fetch.py:939-957 | A busy answer to a resume, up to five times: the same transfer and file, no restart, resume or stall counted, the delay waited |
| `DownloadDelivers.RestDelivers` | app/feed_fetch.py:725-745 | A 206 with all that is missing completes the file |
| `DownloadDelivers.RestCut` | app/feed_fetch.py:910-936 | A 206 cut after some bytes keeps them and is resumed |
| `DownloadDelivers.RestSilent` | app/feed_fetch.py:910-936 | No answer to a resume is a stall; the second in a row gives up |
| `DownloadDelivers.RestRefused` | app/feed_fetch.py:875-907 | A whole file, a refused range or another version answered to a resume starts anew, up to twice |
| `DownloadDelivers.RestFails` | app/feed_fetch.py:863-882 | Every other error answered to a resume gives up |
| `DownloadDelivers.FullDelivers` | app/feed_fetch.py:711-722 | A plain answer whose body comes whole gives the file |
| `DownloadDelivers.FullCut` | app/feed_fetch.py:863-936 | A plain answer cut after some bytes is resumed when its version can be named in a range request, else started anew |
| `DownloadDelivers.FullFails` | app/feed_fetch.py:900-907 | A busy server or none, from byte 0: started anew, up to twice |
| `DownloadDelivers.FullOther` | app/feed_fetch.py:816-882 | Not modified; 406 once more in the other coding; every other error gives up |
| `DownloadDelivers.FullUnpacked` | app/feed_fetch.py:538-619 | A gzip body is taken unpacked, up to the limit of what it may unpack to |
| `DownloadDelivers.FullRefused` | app/feed_fetch.py:114-118 | A body in a coding that is not unpacked is refused |
| `DownloadDelivers.FullTooLong` | app/feed_fetch.py:485-530 | A body past the length announced ends the download |
| `DownloadDelivers.ValidatorIs` | app/feed_fetch.py:635-662 | A version is named by its strong ETag, else by a date at least a second before the answer's; ranges are offered unless the answer denies them |
| `Download.DownloadEnds` | app/feed_fetch.py:84-97 | Whatever the server does: at most 17 requests, at most 509 seconds of waiting, never two stalled resumes in a row before going on |
| `Download.TwoStallsGiveUp` | app/feed_fetch.py:910-921 | The second resume in a row without a new byte ends the download |
| `Download.RoundKeepsVersion` | app/feed_fetch.py:863-897 | One request against a server that obeys If-Range keeps the partial file the beginning of one version |
| `Download.DownloadIsOneVersion` | app/feed_fetch.py:824-882 | Over every run against a server that obeys If-Range, at every head of the loop the file is the beginning of a single version; a success has its file's own size and digest exactly when the transfer before its last request could be resumed or was still empty |
| `Download.DownloadIsExact` | app/feed_fetch.py:824-861 | If a fully delivered resumed body ends cleanly, every success has the size and digest of its file, and the announced length |
| `DownloadWhole.DownloadIsWhole` | app/feed_fetch.py:824-861 | If moreover announced lengths are those of the versions, a success of announced length is a whole version |
| `DownloadWhole.WholeRound` | app/feed_fetch.py:725-745 | A transfer that can be resumed knows the size of the version its validator names, after every request |
| `DownloadWhole.AtTheStart` | app/feed_fetch.py:832-833 | The state a download starts with meets what these theorems ask |
| `Download.StaleTransfer` | app/feed_fetch.py:875-880 | A server that obeys If-Range and cuts the connection right after the last resumed byte makes the result count and hash five bytes for a file of one |
| `Download.AppendedBytes` | app/feed_fetch.py:485-505 | What appending a body does to file, count and hash, however it ends |
| `Refresh.RunningForIsWhatSurvives` | app/refresh_progress.py:230-248 | The worker's condition holds exactly when some running record of the session would survive the expiry |
| `Refresh.CheckFreeIsClaim` | app/refresh_progress.py:395-412 | `check_free` refuses exactly when a claim from that state would, with the same refusal, although it looks in another order |
| `RefreshMeaning.ClaimedWhen` | app/refresh_progress.py:216-329 | Said of the rows before it: a claim is taken exactly when no record of the session with a heartbeat in the last 300 seconds clashes (the same scope; the whole session's against a single provider's; `osm` with neither) |
| `RefreshMeaning.ClaimedIs` | app/refresh_progress.py:354-390 | The record taken: the run, the stamps, all counts zero, no follow-up, and the start of the interrupted refresh it replaces; no other record changes but those expired |
| `RefreshMeaning.RefusedIs` | app/refresh_progress.py:332-392 | A refusal names a living record that clashes, and when it started |
| `RefreshMeaning.ExpireIs` | app/refresh_progress.py:216-227 | Interrupted are exactly the session's running records silent for more than 300 seconds, as of their last heartbeat |
| `RefreshMeaning.ProgressIs` | app/refresh_progress.py:482-494 | Counts and heartbeat are written exactly to a running record of the run |
| `RefreshMeaning.FinishIs` | app/refresh_progress.py:595-609 | And its end; without a follow-up its extract stays |
| `RefreshMeaning.FollowUpIs` | app/refresh_progress.py:683-778 | A follow-up is written exactly to a finished record of its run, touched only while queued |
| `RefreshMeaning.ResumedIs` | app/refresh_progress.py:706-731 | At a start exactly the follow-ups queued or running of provider refreshes finished in the last 24 hours are queued again |
| `RefreshMeaning.QueuedIsResumed` | app/refresh_progress.py:653-731 | The follow-up queued by a refresh that finished is queued again after a restart within 24 hours |
| `RefreshRecord.Blocker` | app/refresh_progress.py:314-329 | The oldest running record that forbids the scope, or none |
| `RefreshRecord.Records.Claim` | app/refresh_progress.py:332-392 | A claim takes the row or is refused, changing nothing, by the oldest blocker or its own running record |
| `RefreshRecord.Records.CheckFree` | app/refresh_progress.py:395-412 | Expires, then answers as a claim would for every run id and total |
| `RefreshRecord.RefreshRun.Execute` | app/refresh_progress.py:468-480 | A fenced statement; the lease is known lost exactly when a statement reached the database and found the row not its own |
| `RefreshRecord.RefreshRun.Beat` | app/refresh_progress.py:491-494 | A beat writes the heartbeat unless the run is finishing |
| `RefreshRecord.RefreshRun.Done` | app/refresh_progress.py:574-584 | Each ended task is counted in exactly one bucket; at most fifty failed labels are kept; a running record of the run gets exactly these counts |
| `RefreshRecord.RefreshRun.Finish` | app/refresh_progress.py:595-609 | On a running record of the run: the end state, the counts, which add up to the total, and the follow-up: queued by a finished refresh with the module on, `off` with it off, none for one that did not finish, the old one without a follow-up |
| `RefreshProtocol.NeverBoth` | app/refresh_progress.py:314-392 | In every interleaving a session never has the whole-session refresh running together with a single provider's |
| `RefreshProtocol.StepKeeps` | app/refresh_progress.py:332-412 | Every step of every process keeps the invariant, claims interrupted at any statement included |
| `RefreshProtocol.ClaimAlone` | app/refresh_progress.py:332-392 | A claim that nobody interrupts is the one-step claim |
| `RefreshProtocol.Fenced` | app/refresh_progress.py:460-494 | A run that neither runs nor is about to never runs again, and no later beat, write or finish of it changes anything |
| `RefreshProtocol.LosingTheRowIsForGood` | app/refresh_progress.py:460-480 | A run that loses its row in any way (expired, taken over, ended) is fenced off from that step on |
| `RefreshProtocol.LeaseHolds` | app/refresh_progress.py:216-227 | A run whose heartbeat is within the lease leaves running exactly by its own finish |
| `RefreshProtocol.BeatingKeepsTheRow` | app/refresh_progress.py:216-227 | A refresh that beats in time keeps its row through any run of the system until it ends it |
| `RefreshProtocol.FollowUpsOwnRecord` | app/refresh_progress.py:683-731 | Follow-up writes change only the follow-up of finished records, a pass only that of its own run |
| `RefreshProtocol.FinishedRecord` | app/refresh_progress.py:332-392 | A finished record changes otherwise only when a claim takes its row |
| `RefreshProtocol.FollowUpFenced` | app/refresh_progress.py:761-778 | A pass whose refresh was replaced writes nothing, ever |
| `RefreshProtocol.TakingReplaces` | app/refresh_progress.py:354-390 | A row changes its run only by a claim, and then the old run is gone from the table |
| `CalendarFrame.DayBits.Set` | app/netex_calendar.py:206-220 | The bits are a set of ordinals: setting a day adds or removes exactly it, growing at both ends |
| `CalendarFrame.DayBits.Span` | app/netex_calendar.py:222-229 | First day and bits stand for exactly the days, tight at both ends; none when it never runs |
| `CalendarFrame.Calendar.Note` | app/netex_calendar.py:274-282 | What is noted of the assignments seen |
| `CalendarFrame.Calendar.NeedsIt` | app/netex_calendar.py:284-302 | A conversion is needed exactly as decided on the whole frame, so exactly as `CalendarMotis.NeededIs` says |
| `CalendarMotis.NeededIs` | app/netex_calendar.py:284-302 | Exactly when some assignment names an operating day, or a plain period defined in the frame, or (all periods named being defined) a day type has both a period and a date |
| `CalendarMeaning.LeftAloneReads` | app/netex_calendar.py:288-297 | In a frame left alone, a day type with one assignment, by a defined period of plain bits without weekdays, is read right exactly when it is not taken away or has no day |
| `CalendarMeaning.TwoPeriods` | app/netex_calendar.py:284-302 | A frame left alone although MOTIS loses the second period of its day type |
| `CalendarMeaning.PeriodNames` | app/netex_calendar.py:333-344 | The days a period assignment names: from the first bound to the last, own or of the operating day named, with a bit set, on a weekday of the day type |
| `CalendarMeaning.DayNames` | app/netex_calendar.py:317-331 | Without a period: the operating day named, else the date |
| `CalendarMeaning.DecidedByHighest` | app/netex_calendar.py:400-401 | A day is decided by the last of the assignments of the highest order that name it |
| `CalendarMeaning.NotNamedNotRun` | app/netex_calendar.py:304-315 | A day nothing names is no day of the day type |
| `CalendarMeaning.PeriodIs` | app/netex_calendar.py:250-272 | Of several periods of one id the last counts |
| `CalendarMeaning.DayIs` | app/netex_calendar.py:254-256 | Of several operating days of one id the last with a date counts |
| `CalendarMeaning.DayTypeIs` | app/netex_calendar.py:267-268 | Of several day types of one id the last gives the weekdays |
| `CalendarMeaning.KnownIs` | app/netex_calendar.py:346-353 | The day types that get a period: those defined in the frame and those an assignment that can be resolved names, also when they never run |
| `CalendarFrame.Calendar.Apply` | app/netex_calendar.py:304-315 | The days of the assignment's day type gain or lose exactly the days it names; no other day type changes; an unresolved one is ignored |
| `CalendarSpec.AssignmentDays` | app/netex_calendar.py:317-331 | The days listed are exactly the days the assignment names: period, bits and weekdays, operating day, or date |
| `CalendarSpec.PeriodDays` | app/netex_calendar.py:333-344 | Exactly the days of a period within its dates and bits; none when a bound is unknown or they are reversed |
| `CalendarFrame.Calendar.Render` | app/netex_calendar.py:346-375 | One period and one assignment per day type, each standing for exactly its days; one that never runs gets 1 January 2000 and the bit 0 |
| `CalendarSpec.LastWins` | app/netex_calendar.py:304-315 | Applied in turn, the last assignment about a day decides it |
| `CalendarSpec.SortedReading` | app/netex_calendar.py:400-401 | Applied by (order, position), a day is on exactly when the last assignment in that order that is about it adds it |
| `CalendarSpec.ListedReading` | app/netex_calendar.py:608-629 | A day type listed in order gets the same days when its assignments are applied as listed |
| `CalendarSpec.StreamedApplies` | app/netex_calendar.py:608-629 | With the definitions first, reading as a stream is applying as listed |
| `CalendarConvert.PlanFrame` | app/netex_calendar.py:384-401 | Something is to be written exactly when an assignment names an operating day or a plain period of the frame, or, with all periods named defined, a day type has a period and a date; out of the frame with it MOTIS (first assignment only, UIC bits, no weekdays) reads for every day type the days the frame means; with one block it drops nothing and needs no further conversion |
| `CalendarConvert.UnknownNeverRuns` | app/netex_calendar.py:346-353 | A day type neither defined nor given days in the frame, which gets no period, runs on no day |
| `CalendarConvert.Scan` | app/netex_calendar.py:608-629 | The streamed reading, and an out-of-order count that is 0 exactly when every day type is listed in order |
| `CalendarConvert.PlanSpooled` | app/netex_calendar.py:588-605 | The same promise for a streamed frame whose definitions come first and that counts nothing out of order |
| `CalendarMotis.RewrittenReads` | app/netex_calendar.py:408-435 | Out of the rewritten frame MOTIS reads for each day type exactly the days rendered |
| `CalendarMotis.RewrittenIsFinal` | app/netex_calendar.py:284-302 | A rewritten frame of one block has no open reference, nothing else assigned, and needs no conversion |
| `FrameDocument.RewriteStream` | app/netex_calendar.py:512-548 | For every division into chunks, every limit of memory of at least the 256 bytes kept and starts of frames no longer than those: each complete frame is written as its conversion (or as it is), every other byte copied once and in order; a converted frame held in memory, or listed in schema order, is one out of which MOTIS reads the days meant |
| `FrameDocument.WriteFrame` | app/netex_calendar.py:500-509 | A frame in memory is written as its conversion, or as it is |
| `FrameDocument.WriteSpooled` | app/netex_calendar.py:588-605 | A frame too large for memory, read as a stream from the temporary file |
| `FrameRewriter.SpoolFrame` | app/netex_calendar.py:554-585 | The bytes of a frame too large for memory are cut after the first end tag of the document, wherever chunks end |
| `FrameStream.FrameSettled` | app/netex_calendar.py:488-497 | A frame complete in what has been read is the first of the document, whatever follows |
| `FrameStream.FlushedIsCopied` | app/netex_calendar.py:535-538 | What is written before the kept tail holds no start of a frame, so any rewriting of the rest goes on from there |
| `FrameStream.CopiedBefore` | app/netex_calendar.py:525-531 | Bytes in which no frame starts are copied |
| `FrameEdit.FindTag` | app/netex_calendar.py:438-455 | Read in chunks of any size with 256 bytes kept between them, the search finds the first match of the whole range |
| `FrameEdit.EndsInOrder` | app/netex_calendar.py:441-443 | Of two matches the earlier does not end later, so the first to be complete is the first |
| `FrameMeaning.ClosingIs` | app/netex_calendar.py:408-435 | An end tag is found exactly where its bytes stand, with only blanks before the `>` |
| `FrameMeaning.OpeningIs` | app/netex_calendar.py:408-435 | A start tag exactly where its name stands, not followed by a word byte, up to the next `>`, and whether a `/` stands before that |
| `FrameMeaning.PrefixedIs` | app/netex_calendar.py:71 | A frame starts exactly where `<`, a name, `:` and the frame's name stand as a whole word, with that prefix |
| `FrameMeaning.BareIs` | app/netex_calendar.py:71 | Or, without a prefix, `<` and the frame's name as a whole word |
| `FrameMeaning.CompleteIs` | app/netex_calendar.py:488-497 | A complete frame runs from the first start to the first end tag of its prefix behind it |
| `FrameMeaning.HeadIs` | app/netex_calendar.py:71 | A start with a prefix is taken as one |
| `FrameMeaning.NamesAre` | app/netex_calendar.py:408-435 | The names of a frame, of its block and of its container |
| `FrameMeaning.PeriodIs` | app/netex_calendar.py:363-369 | The bytes of a written period: its tags in the prefix, version, quoted id, both dates at midnight, the bits |
| `FrameMeaning.AssignmentIs` | app/netex_calendar.py:371-376 | The bytes of a written assignment: id and period by day type, order 1, the two references |
| `FrameMeaning.DefinitionsAre` | app/netex_calendar.py:250-272 | The elements read as definitions, by name |
| `FrameEdit.CopyRange` | app/netex_calendar.py:458-463 | The bytes of the range, once and in order; none when it is reversed |
| `FrameEdit.CopyEdited` | app/netex_calendar.py:466-476 | The bytes of the range with each edit's text instead of its bytes |
| `FrameEdit.WriteConverted` | app/netex_calendar.py:408-435 | Read and copied in chunks, the frame is edited as by searches over its whole bytes; nothing is written when its block does not end |
| `FrameConvert.NewBytes` | app/netex_calendar.py:408-435 | On the bytes of a frame, what is written is the bytes of the rewritten parts: every byte outside the first block is kept, in its place |
| `FrameConvert.NewParts` | app/netex_calendar.py:408-435 | The pieces written stand for the rewritten parts: periods before the end of the first container, or in one of their own, assignments for the first block or last |
| `FrameConvert.NewStand` | app/netex_calendar.py:346-375 | Every piece written stands for its part: one element whose bytes are read as that definition or those assignments, or the end of a container; between them nothing is read |
| `FramePieces.FrameRead` | app/netex_calendar.py:384-399 | What is read out of the bytes of a frame is the parts its pieces stand for, and no others |
| `FrameConvert.PartsAreRead` | app/netex_calendar.py:384-399 | However a frame is divided into pieces, their parts are the same: those read out of its bytes |
| `FrameConvert.WrittenIsRead` | app/netex_calendar.py:408-435 | Out of the bytes written are read the rewritten parts: the periods and assignments of the plan in their places, all else as before |
| `FrameConvert.NotAsItIs` | app/netex_calendar.py:284-302 | A frame of one block that needs a conversion, left as it is, is not one out of which MOTIS reads the days meant |
| `FrameRender.RenderIsGood` | app/netex_calendar.py:346-375 | The XML of each period and assignment written, with its tags and attributes, is one element, holds no tag of a block, of a container's end or of a definition inside, and is read as what it was written for |
| `FrameRender.PeriodStands` | app/netex_calendar.py:363-369 | A written UicOperatingPeriod is one element and is read as its period |
| `FrameRender.AssignmentStands` | app/netex_calendar.py:371-376 | A written DayTypeAssignment is one element and is read as its assignment |
| `FrameLibrary.LibraryExists` | app/netex_calendar.py:346-375 | The elements written tell apart what they are written for, so values and dates can be quoted and elements read back as `RenderIsGood` asks |
| `FrameConvert.ConvertFrame` | app/netex_calendar.py:381-405 | Left alone exactly when the parser refuses it, it needs nothing or its block does not end; else the bytes are those with the plan written in, and out of what is read in them MOTIS reads the days the original means |
| `FrameConvert.ConvertSpooled` | app/netex_calendar.py:588-605 | The same from the temporary file, for definitions first and nothing out of order; otherwise the bytes as they are |
| `CourseRefit.FilterIsSubsequence` | app/netex_motis_repair.py:648-662 | A distinct subsequence is the filter by its own members exactly when each member stands once in the whole |
| `CourseRefit.RefitReads` | app/netex_motis_repair.py:693-744 | With ids made that the file does not hold: after the refit every course that names a pattern of the file (with no other kind of point in it) has its points as a list, at least two, exactly when no pattern of a refitted course repeats a point the course keeps |
| `CourseRefit.RefitReadsAlways` | app/netex_motis_repair.py:693-744 | Whatever ids the file holds: the same exactly when each course not dropped fits the last pattern of its id, old or derived behind the one it comes from |
| `CourseRefit.TakenId` | app/netex_motis_repair.py:720-721 | A later pattern that already has the id made: the course is refitted to it and does not match |
| `CourseRefit.RepeatedPoint` | app/netex_motis_repair.py:653-662 | Points a, b, a and a course at a and b: refitted, and still not matching its pattern |
| `CourseRefit.MovedReads` | app/netex_motis_repair.py:714-726 | A refitted course matches its derived pattern exactly when its pattern has the kept points once each |
| `CourseRefit.SecondRefit` | app/netex_motis_repair.py:729-744 | A second refit changes nothing exactly when no pattern of a refitted course repeats a point the course keeps (with ids the file does not hold; in general, exactly when each course not dropped fits the pattern it names in the end) |
| `CourseRefit.UnchangedIsRead` | app/netex_motis_repair.py:729-744 | A file is left as it is exactly when each of its courses fits the pattern it names |
| `CourseRefit.RepeatedAgain` | app/netex_motis_repair.py:653-662 | With points a, b, a a second refit moves the course again |
| `CourseRefit.LinksGone` | app/netex_motis_repair.py:747-760 | No dropped course and no link to one is left |
| `CourseRefit.RestStays` | app/netex_motis_repair.py:729-744 | All other text, patterns, links and courses stay |
| `CourseRefit.NewIdsDiffer` | app/netex_motis_repair.py:720-721 | Derived ids are different for different patterns and numbers |
| `RefitEdits.EditsGiveRefit` | app/netex_motis_repair.py:763-773 | In whatever order the edits are queued, applying them to the bytes of the file gives the bytes of the refitted file |
| `RefitEdits.Apply` | app/netex_motis_repair.py:763-773 | Edits applied in order of place, one that begins inside an earlier one skipped |
| `RefitEdits.CopiedUpTo` | app/netex_motis_repair.py:763-773 | Bytes outside the edits are copied |
| `RefitPass.IsSubsequence` | app/netex_motis_repair.py:648-650 | The iterator search decides the subsequence relation |
| `RefitPass.Derive` | app/netex_motis_repair.py:653-662 | The bytes cut out of the pattern are those of the derived pattern |
| `RefitCourses.State.Course` | app/netex_motis_repair.py:693-726 | The edits, derived patterns, numbers and dropped ids after one more course |
| `RefitCourses.DropLinks` | app/netex_motis_repair.py:747-760 | The edits that remove the links naming a dropped course |
| `RefitCourses.RefitFile` | app/netex_motis_repair.py:729-744 | The bytes of the file become those of the file refitted |
| `RefitMeaning.CourseBecomes` | app/netex_motis_repair.py:681-726 | A course is missing exactly when the pattern it names is in the file without other points, its times are not that pattern's points (or fewer than two), and no two or more of its points in order, at pairwise different ids, are its times; another keeps its times and id, and its pattern changes exactly when it does not match |
| `RefitMeaning.LinkBecomes` | app/netex_motis_repair.py:747-760 | A link is missing exactly when it names such a course |
| `RefitMeaning.OutcomeIs` | app/netex_motis_repair.py:681-690 | Left, refitted or dropped, by the positions of the times in the last pattern of the id |
| `RefitMeaning.SubsequenceIs` | app/netex_motis_repair.py:648-650 | A subsequence is read at strictly increasing positions |
| `RefitMeaning.KeptAre` | app/netex_motis_repair.py:653-662 | A derived pattern keeps all text between points and, in order, the points kept |
| `StationTally.TallyAdd` | app/station_extract_netex.py:591-603 | The packed integer is a map from group to count |
| `StationTally.TallyItems` | app/station_extract_netex.py:606-610 | The groups of a tally with their counts, each once |
| `StationSpec.NormOnce` | app/station_extract_netex.py:772-783 | Completing a journey from its Line twice is completing it once |
| `StationReader.EarlyIsLate` | app/station_extract_netex.py:855-867 | Filtering by what is known of a Line when the journey is read is filtering at the end |
| `StationReader.UniqueIsSettled` | app/station_extract_netex.py:855-867 | Where ids each name one Line, no Line is given anew, differently, after a journey that names it, whatever the order of the elements |
| `StationReader.SettledIsAsRead` | app/station_extract_netex.py:855-867 | When no Line is given anew, differently, after a journey that names it, the journeys as read when they came make the calls of the whole archive |
| `StationReader.RedefinedLine` | app/station_extract_netex.py:855-867 | A journey whose Line is a bus when it is read and rail in the end is passed over |
| `StationReader.Journeys.IdOf` | app/station_extract_netex.py:626-634 | Group numbers are stable and name their group; refused past the limit |
| `StationReader.Journeys.ReadJourney` | app/station_extract_netex.py:855-874 | What one journey adds to the tallies |
| `StationReader.KeepRail` | app/station_extract_netex.py:877-892 | Every tally keeps exactly its groups that end as rail; empty ones are removed |
| `StationReader.ReadJourneys` | app/station_extract_netex.py:895-917 | After the pass the tallies count the journeys, as read when they came, that the whole archive keeps, each with the group it ends with, wherever its Line stood |
| `StationPlaces.RailGroups` | app/station_extract_netex.py:967-983 | Groups without a Line take their pattern's; those that end as rail are kept with their counts |
| `StationPlaces.ReadPattern` | app/station_extract_netex.py:1010-1028 | The points a pattern serves get the calls of its journeys, and no others |
| `StationPlaces.PlaceNotes.NoteAssignment` | app/station_extract_netex.py:1138-1156 | Each point keeps the places it is assigned to |
| `StationPlaces.PlaceNotes.NoteStopPlace` | app/station_extract_netex.py:1167-1197 | Ids, parents, rail, modeless and quays of the StopPlaces read |
| `StationResult.ReadStructure` | app/station_extract_netex.py:1078-1096 | After the pass the tallies of points, the assignments and the StopPlaces are those of the archive |
| `StationResult.PlaceAll` | app/station_extract_netex.py:1097-1101 | Every call counts at every place its point is assigned to |
| `StationArchive.WantedQuaysSuffice` | app/station_extract_netex.py:1111-1125 | Dropping the other Quays moves no called place and no root of one |
| `StationArchive.KeepQuays` | app/station_extract_netex.py:1111-1125 | Kept are Quays called places name, enough for each of them, and no others |
| `StationArchive.StationsOfUse` | app/station_extract_netex.py:1097-1313 | Stations counted with the Quays kept are those of all the Quays |
| `StationArchive.FindRoot` | app/station_extract_netex.py:1200-1213 | The loop gives the root |
| `StationOrder.RootIsTop` | app/station_extract_netex.py:1200-1213 | A chain of at most 16 parents leads to its top |
| `StationOrder.RootInCycle` | app/station_extract_netex.py:1200-1213 | Parents that come back leave the StopPlace its own root |
| `StationCount.UseOf` | app/station_extract_netex.py:1235-1242 | The calls and operators of a place by mode |
| `StationCount.AddPlace` | app/station_extract_netex.py:1297-1309 | The calls and operators of a place go to its station, mode by mode |
| `StationArchive.CountStations` | app/station_extract_netex.py:1292-1313 | Calls by mode and operators of every station are the reference ones |
| `StationArchive.ReadArchive` | app/station_extract_netex.py:895-1313 | The stations read through all the dictionaries are those of the order-free meaning of the archive with each journey as read when it came; of the archive itself when no Line is given anew, differently, after a journey that names it; refused only when these journeys, and their groups with a pattern's Line, make more than a million groups |
| `StationMeaning.OneMoreJourney` | app/station_extract_netex.py:855-1313 | A journey without a pattern adds to a station's calls by a mode one for each point it calls at and each assignment of the point to a place that leads there and counts so; every other count is as before |
| `StationMeaning.OneMoreOnPattern` | app/station_extract_netex.py:957-1313 | One that follows a pattern adds one for each pattern of that id, each point served and each such assignment, on the pattern's Line if it has none |
| `StationMeaning.NoJourneys` | app/station_extract_netex.py:855-1313 | Without journeys every count is zero |
| `StationMeaning.RailCounts` | app/station_extract_netex.py:331-341 | A journey of mode rail counts as suburban exactly when its submode is suburban, else as main, wherever it is placed |
| `StationMeaning.OtherNever` | app/station_extract_netex.py:331-341 | A journey of another mode counts nowhere |
| `StationMeaning.NoModeCounts` | app/station_extract_netex.py:1245-1289 | One without a mode counts as main at a rail StopPlace; at one without a mode, by default, unless its submode is of another mode, as suburban if that is; nowhere else |
| `StationMeaning.OwnMode` | app/station_extract_netex.py:772-783 | A journey with a mode keeps it; its submode is its own, else its Line's if that has the mode |
| `StationMeaning.LineMode` | app/station_extract_netex.py:772-783 | A journey without a mode takes its Line's mode and submode |
| `StationMeaning.OperatorsAre` | app/station_extract_netex.py:1282-1309 | A station has exactly the operators brought by groups that call where one counts |
| `StationMeaning.BringsWhen` | app/station_extract_netex.py:829-852 | When a group brings an operator, its own or its Line's: by the mode it counts by, by the same kept mode, or without a mode as main rail |
| `StationMeaning.GivenIs` | app/station_extract_netex.py:829-852 | Under what a group's calls and operators are kept |
| `StationMeaning.CallIn` | app/station_extract_netex.py:855-1028 | A group calls at a point exactly when a journey of it does, itself or on a pattern that serves it |
| `StationMeaning.UseIn` | app/station_extract_netex.py:1138-1156 | A group calls at a place exactly when it calls at a point assigned to it |
| `StationMeaning.StopPlaceIs` | app/station_extract_netex.py:1216-1232 | The StopPlace of an assignment: of its Quay, else the one named, else of the Quay named as one |
| `StationMeaning.PlacesAre` | app/station_extract_netex.py:1158-1197 | Which StopPlaces are defined, rail, and rail by default |
| `StationMeaning.PatternLineIs` | app/station_extract_netex.py:957-964 | The Line of a pattern: its own, else that of its Route |
| `StationMeaning.PlacedNowhere` | app/station_extract_netex.py:1292-1300 | A call whose place names nothing counts nowhere |
| `StationMeaning.RootIs` | app/station_extract_netex.py:1200-1213 | At most 16 parents up, each defined in the archive |
| `StationMeaning.RootIsCut` | app/station_extract_netex.py:1200-1213 | A longer chain that does not come back is cut at the sixteenth parent |
| `StationMeaning.ParentIs` | app/station_extract_netex.py:1167-1197 | Of several StopPlaces of one id the last with a parent gives it |
| `StationMeaning.QuayIs` | app/station_extract_netex.py:1167-1197 | The last StopPlace that lists a Quay has it |
| `StationMeaning.LineIs` | app/station_extract_netex.py:855-867 | Of several Lines of one id the last counts |
| `StationMeaning.RouteIs` | app/station_extract_netex.py:957-964 | Of several Routes of one id the last with a Line counts |
| `StationOrder.AnyOrder` | app/station_extract_netex.py:855-1313 | Every order of the same Lines, Routes, journeys, patterns, assignments and StopPlaces gives the same calls by mode and the same operators |
| `Snapshot.LabelledRight` | app/station_extract.py:1391-1550 | In every interleaving of refreshes, uploads and snapshots, what is yielded is labelled with the version of the very bytes yielded; the digest alone sees to it |
| `Snapshot.AtOnce` | app/station_extract.py:1391-1550 | In every interleaving, what a snapshot yields is what one taken undisturbed at some moment of the run would have yielded: file and state were there together |
| `Snapshot.QuietSnapshot` | app/station_extract.py:1422-1458 | Undisturbed, a snapshot ends with the verification of the slot's file against the state or the upload named |
| `Snapshot.QuietFetch` | app/feed_fetch.py:1090-1101 | After a fetch from any state, an undisturbed snapshot yields the file with its download's label, except when it was re-wrapped to the very size of its download |
| `Snapshot.QuietOldFetch` | app/station_extract.py:1472-1487 | After a fetch that saved an old state, only a file that was not re-wrapped is yielded, and why another is not |
| `Snapshot.Between` | app/station_extract.py:1490-1507 | Between a new file and its state, it is yielded with the old label exactly when it is the very file the old state describes |
| `Snapshot.QuietUpload` | app/station_extract.py:1472-1487 | An upload is yielded under its own label, no other file is |
| `Snapshot.QuietNothing` | app/station_extract.py:1422-1458 | Without a file or a state the snapshot is skipped |
| `Snapshot.ReplacedIsRefused` | app/station_extract.py:1422-1458 | A file replaced or removed since it was opened is refused |
| `GtfsLines.Lines` | app/station_extract_gtfs.py:162-189 | Whatever the blocks: the lines of the text, up to exactly the first record past the bound |
| `GtfsLines.SplitBlock` | app/station_extract_gtfs.py:192-207 | `splitlines` and the endings one by one give the same whole lines and rest |
| `GtfsLines.Counted` | app/station_extract_gtfs.py:210-216 | Lines are counted to their record and refused at the first past the bound |
| `GtfsLines.SizeOfRecord` | app/station_extract_gtfs.py:210-216 | What is counted at a line is the size of its record's text so far |
| `GtfsLines.SplitExtends` | app/station_extract_gtfs.py:192-207 | Whatever comes next, the whole lines of a block are lines of the text (a `\r\n` across blocks included) |
| `GtfsLines.SplitJoins` | app/station_extract_gtfs.py:192-207 | The whole lines of a block and what is left are the block |
| `GtfsLines.LineEndIs` | app/station_extract_gtfs.py:150-154 | A line ends at the first `\r\n`, `\r` or `\n` |
| `GtfsLines.LinesJoin` | app/station_extract_gtfs.py:162-189 | The lines concatenate to the text |
| `GtfsLines.Columns.Place` | app/station_extract_gtfs.py:232-237 | The last place of the name within the record |
| `GtfsLines.ValueOf` | app/station_extract_gtfs.py:219-237 | The value is the one a dictionary of header and record would hold |
| `CrossBorder.StopCountries` | app/gtfs_cross_border_filter.py:357-380 | Countries inherited from parents, in the order in which the stops with a parent are first met |
| `CrossBorder.InheritedIs` | app/gtfs_cross_border_filter.py:376-378 | With stations that have no parent the order does not matter: a stop without a country takes its station's |
| `CrossBorder.Classify` | app/gtfs_cross_border_filter.py:392-426 | The countries each route calls in, and for each trip the row of lowest sequence, the first of those |
| `CrossBorder.Collect` | app/gtfs_cross_border_filter.py:429-444 | The rows of kept trips, in order, and their stops |
| `CrossBorder.KeptTrips` | app/gtfs_cross_border_filter.py:588-626 | Kept are exactly the trips of routes that span two countries, departing home when that is asked |
| `CrossBorder.Filter` | app/gtfs_cross_border_filter.py:545-690 | Every table written is filtered by the kept sets, of exactly the kept trips, their stop times and what those name; a consistent feed becomes a consistent one exactly when what stands two levels above a stop called at is itself called at or a parent of one, so always when nothing does |
| `CrossBorder.WrittenConsistent` | app/gtfs_cross_border_filter.py:488-542 | Filtering every table by the kept sets keeps all references of a consistent feed exactly when stations are reached in that way |
| `CrossBorder.TwoLevels` | app/gtfs_cross_border_filter.py:664-669 | A stop called at on a platform of a station: the platform is written, the station it names is not |
| `CrossBorder.HomesApart` | app/gtfs_cross_border_filter.py:619-626 | Different home countries never keep the same trip id |
| `CrossBorder.HomesTogether` | app/gtfs_cross_border_filter.py:619-626 | A trip id kept without a home is kept by exactly the home it departs |
| `CrossBorder.FilterForHomes` | app/gtfs_cross_border_filter.py:545-690 | The outputs for different homes share no trip, and each holds exactly the trips of the output without a home that depart it |
| `CrossBorderMeaning.KeptWhen` | app/gtfs_cross_border_filter.py:588-626 | Said of the rows: a trip is kept exactly when its route (of rail, if that is asked) calls in two known countries and, with a home, the first row of the trip by sequence is there |
| `CrossBorderMeaning.RailRoutesAre` | app/gtfs_cross_border_filter.py:592-603 | Every route counts, or only those of rail |
| `CrossBorderMeaning.TablesAre` | app/gtfs_cross_border_filter.py:488-542 | Which rows of every table are written, said of the trips kept |
| `CrossBorderMeaning.AgenciesAre` | app/gtfs_cross_border_filter.py:488-542 | The agencies of the routes written; all of them when those name none or the table has no ids |
| `CrossBorderMeaning.KeptInOrder` | app/gtfs_cross_border_filter.py:488-542 | Rows are kept in their order |
| `CrossBorderMeaning.OwnCountryIs` | app/gtfs_cross_border_filter.py:357-380 | Of several rows of one stop the last gives its country |
| `CrossBorderMeaning.ParentOfIs` | app/gtfs_cross_border_filter.py:357-380 | And the last with a parent its parent |
| `WarmQueue.Warm.QueueWarm` | app/station_extract.py:1716-1741 | Queued, merged or refused; one entry per pending job, at most 64, newest configuration, merged hashes |
| `WarmQueue.Warm.Take` | app/station_extract.py:1753-1762 | The job in hand is always pending; its run answers every request waiting for it |
| `WarmQueue.Warm.Get` | app/station_extract.py:1744-1748 | The entry moves from the queue to the worker's hand |
| `WarmQueue.Warm.NothingLost` | app/station_extract.py:1744-1762 | With an empty queue and nothing in hand every accepted request has been answered by a run |
| `WarmQueue.TakenIsFaithful` | app/station_extract.py:1753-1762 | A run has the newest configuration and the merged hashes of the requests it answers |
| `Heap.GigabytesRead` | app/otp_heap.py:162-175 | A number of gigabytes written and read back is that number |
| `Heap.CapIs` | app/otp_heap.py:181-199 | The cap derived for a heap, read back from its text |
| `Heap.AutoBuildHeap` | app/otp_heap.py:209-241 | None exactly when no heap of at least the minimum fits; else one that fits, two more would not, and it is the largest exactly when one more than the first guess does not fit |
| `Heap.OneShort` | app/otp_heap.py:233-239 | With 37 GB, 8 of them reserved, and the default headroom the result is 24g, although 25 fits |
| `Heap.CapOf` | app/otp_heap.py:181-199 | The cap of a heap is the heap and the largest of four, a sixth of it and the headroom asked for |
| `Heap.HeadroomWidens` | app/otp_heap.py:181-199 | More headroom never narrows the cap, and past what the heap needs each gigabyte widens it by one |
| `Heap.CapOfDefault` | app/otp_heap.py:181-199 | A heap not given or not readable gets the cap of twelve gigabytes |
| `Heap.Pairings` | app/otp_heap.py:150-161 | The pairs of heap and cap documented |
| `Heap.MegabytesRead` | app/otp_heap.py:162-175 | Megabytes count as the gigabytes they need, at least one |
| `Heap.NotANumber` | app/otp_heap.py:162-175 | Anything but digits before the unit is no heap |
| `Heap.BlanksIgnored` | app/otp_heap.py:162-175 | Blanks before a heap do not count |

## Left out

- httpx, asyncio, SQLAlchemy, zipfile, zlib, expat and the expression engine: taken as steps, functions or inputs; XML elements and csv rows are given as parsed records.
- SHA-256: a digest stands for the bytes it was taken of, so collisions are left out.
- `start_tag_end` and `root_prefix` of the skip filter, and the choice of the hand-over byte: one-branch searches.
- Namespace declarations collected by `_ns_decls`: fixed in `FrameDocument.RewriteStream`, so what the parser reads is a function of the frame and its prefix.
- FrameDocument.RewriteStream: asks that no start of a frame, as far as it has been read at any moment, and no tag looked for in one is longer than the 256 bytes kept, as the source states of its tags, and that the memory limit is at least that.
- CalendarConvert.PlanFrame: day types are rendered in any order, not sorted by name.
- CalendarConvert.PlanSpooled: nothing is promised for a frame whose definitions do not come first or that lists a day type out of order; the source promises nothing either.
- FrameConvert.ConvertFrame: asks that every tag looked for is at most 256 bytes long, as `_find` does; what MOTIS reads is promised for frames whose block, container and definition tags are those of the elements (none in a comment or CDATA section, no block inside another) and have the frame's prefix.
- FrameRender.RenderIsGood: how the XML library quotes a value, the form of a date, and that the parser reads back an element written so are taken as given; so is what it reads in one element of the original.
- FrameConvert.ConvertSpooled: as FrameConvert.ConvertFrame and CalendarConvert.PlanSpooled.
- FrameEdit.FindTag: asks that the first match is at most 256 bytes long, as the source states of its tags.
- CourseRefit.RefitReads: that the expressions find exactly these items in the bytes is taken as given.
- RefreshRecord.Blocker: of several records started at the same time any may be named, as the database may.
- The public view of the refresh records (`_public_*`, singles shown), progress throttling and the beat threads: display and timing only.
- StationArchive.ReadArchive: of the limits only that on journey groups is modelled, and not that every archive past it is refused; those on points, assignments, quays, StopPlaces and stations are taken as not reached.
- The census, names, positions and codes of stations, and the mode words read from the XML: display or per-element parsing.
- WarmQueue.Warm.Take: a worker killed between taking a job and beginning it is outside the model; the code catches every exception of a run.
- CrossBorder.Filter: members copied unfiltered (pathways, levels, fares) are not part of consistency; the country of a stop's code or position is an input.
- Heap.GigabytesRead: digits are the ASCII ones.
- The failure record of the extracts (`_remember`), child-process limits and file locks: operating-system behaviour or easy members.
- Web routes, settings, metrics, logging, credentials, polygons and projections: plumbing or floating point.
