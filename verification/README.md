# Parser service: a verified model

The service crawls category pages listed in the table `product_parsers`, starts a product
page for every link it finds there, and joins the translations of each product. It runs as
a daemon that is controlled over a Unix socket or by the Windows service manager. This
project models four parts of it in Dafny and proves what holds of all their runs.

**The crawl** (`Crawl*.dfy`, `Tally.dfy`, `ParserMain.dfy`). Module `Crawl` gives the
scheduler's fields, the live workers and the history as one value, and one function for
each slot. A run is any list of events that are possible where they happen: worker events
in any order, pauses and resumes anywhere, the load timer once. `CrawlSlots` says who gets a
slot at each of them. The class
`ParserMain.ParserMain` has the fields and loops of the program and is proved, slot by
slot, to do to its fields what those functions do; rows are shared objects that
`PageParser.RunDestructor` rewrites in place. `Dispatch`, `EventLoop` and `Exec` stand for
Qt's event loop delivering the events, together with what the site's pages answer.

Assumptions: `1 <= MaxThreadsCount`, fixed for the run; the table does not change, its
queries succeed and its row order is stable, so that a row is identified by its position;
each page loads once, hands over its links before it ends, and ends once; each row leads
through a finite chain of pages (`Site`), whose last page answers "false" to the next-page
script. In `Crawl` a loaded product worker can end; in `CrawlJoin` it ends only when its
replies have come, one for each language, and their join emits the end.

Five facts about the code that its callers may not expect come out of the proofs:
- Completion is reported as soon as the last worker ends with no row waiting, even if that
  happens while paused with rows never read. It means "everything crawled" exactly when the
  whole table had been read (`CompletionTheorem`; an example is `PausedRunReportsTooEarly`).
  A report with rows unread comes exactly when the last worker ends while disabled, no link
  is queued, no row is left and the table is not exhausted (`EarlyReportExactly`).
- A row put back while paused is not taken up again by `resume` (`PausedRunStalls`). A
  crawl stalls with rows waiting exactly when the last worker ends while disabled, no link
  is queued and a row is left or put back (`StallExactly`).
- If `pause` comes before the load timer fires, the load reads nothing, and the crawl never
  starts, resumed or not (`PausedLoadNeverStarts`). A load starts nothing exactly when it
  runs while disabled or the table is empty (`LoadStartsNothingExactly`).
- With an empty table completion is never reported (`MaximalRuns`).
- A product whose replies decode to the same language twice holds its slot for ever and
  completion is never reported (`ClashBlocksCompletion`). With the product workers waiting
  for their replies, a maximal unpaused run completes exactly when the table is not empty
  and no product of the site has such replies (`CompletesExactly`).

So, paused or not: once no worker is left, completion has been reported exactly if no row is
waiting and the load had read a row (`StalledOrReported`), and everything was crawled exactly
if no row is waiting and the whole table was read (`IdleIsCompleteExactly`).

**The command channel of the Unix port** (`Channel.dfy`, `Numbers.dfy`, `CommandServer.dfy`,
`CommandLaws.dfy`, `CrawlControl.dfy`). A `char` is one decoded character of the stream. The
loop of `slotReady` stops at an empty line, so how a stream is cut into chunks can matter:
it does not matter exactly for the streams called `Settled` (`ChunkIndependence`), which
include all streams without an empty line (`ChunkIndependenceWithoutEmptyLines`). Sockets
are numbers that are never reused. `CrawlControl` runs the command server and the crawl in
one process: what the sockets send decides when the crawl is paused.

**The control handshake of the Windows port** (`Handshake.dfy`, `HandshakeRuns.dfy`,
`HandshakeAnswers.dfy`, `HandshakeQuit.dfy`, `Startup.dfy`, `StartupEnds.dfy`,
`Service*.dfy`). Every atomic step of every thread is a function on the shared state; a run
is any interleaving. `condition.wait` releases the mutex atomically and wakes only through
`wakeAll`. `Handshake` allows any number of calls of `handler()` at a time. In `Service`
they come from where they come from in the program: one from `serviceMain`, for the startup,
and any number from the dispatcher thread, one after another.

Since `wakeAll` wakes every waiting call, a call can report RUNNING or PAUSED before its own
callback has run. From a resting loop with calls that have just arrived, some run gets there
if and only if two posting calls are in flight (`EarlyExactly`, for all codes). The one such
overlap the service has is a control sent while the startup call is in flight:
`ControlDuringStartup` gives the whole run from process start, for every posting code. With a
service manager that sends no posting control during start-pending it cannot happen
(`Service.StatusIsHonest`).

If Windows has called serviceMain and start() gives up before the event loop, by its timeout or
because no application was created, serviceMain waits for the second semaphore as long as the
process lives (`StartupEndsFromStart`).

Not every call returns once the service is stopped. Whatever is sent and however the threads
interleave, a call is left waiting for ever if and only if it is a posting call that had not
got the mutex when the wakeup for the stop was given; all others return
(`HandshakeQuit.QuitStrandsExactly`, `ServiceQuit.QuitStrandsExactly`). The service has two
such cases: the startup call, if the stop is sent while it is in flight (`StopDuringStartup`),
and a posting control sent after the stop (`ControlAfterStop`). With a service manager that
sends no posting control during start-pending, every call returns if and only if it sends
none after a stop or shutdown either (`EveryCallReturnsExactly`).

**The product parser** (`Template.dfy`, `ProductScript.dfy`, `ScriptLines.dfy`,
`ReplyJoin.dfy`, `ReplyContents.dfy`). The script is filled by fourteen replacements, one
after another. They work on each hole by itself (`ChainDistributes`), so they equal one
substitution if no value contains the placeholder of a later column
(`ScriptIsSubstitution`). A value that does is filled again: the script then comes out wrong
exactly if that column does not hold its own placeholder (`LaterPlaceholderLeaks`;
`ColumnLeaksExactly` is the general condition on one column). The replies of the translation
service are joined in any order. The language is cut out of the label "source-target" by the
length of the source, which is right exactly when both codes have the same length
(`LabelDecodes`); the worker ends exactly when no two replies decode to the same language
(`EndsOnce`), and the correct labels of two languages can clash (`TwoLabelsClash`).

## Model

| member | source | states |
|---|---|---|
| ParserMain.ParserMain.Pause | parsermain.cpp:27-30 | only the disabled flag is set |
| ParserMain.ParserMain.Resume | parsermain.cpp:32-35 | only the disabled flag is cleared; nothing is started |
| ParserMain.ParserMain.Load | parsermain.cpp:37-68 | the offset restarts, one batch is read and pages fill the free slots |
| ParserMain.ParserMain.ManageLinks | parsermain.cpp:70-92 | each link in turn takes a free slot or joins the end of the queue |
| ParserMain.ParserMain.ManageCategoryPage | parsermain.cpp:94-116 | the row goes back to the front and the freed slot goes to a waiting link, else to pages (pinned by `LinkGoesFirst` and `RowsGoNext`) |
| ParserMain.ParserMain.DrainLinks | parsermain.cpp:139-149 | waiting links start first to last while slots are free |
| ParserMain.ParserMain.ManageParsers | parsermain.cpp:118-177 | every branch on sender, queued links, queued rows and table, the completion report included |
| ParserMain.ParserMain.WpFinished | parsermain.cpp:184-214 | a loaded page starts a page parser, a loaded link a product parser, anything else nothing |
| ParserMain.ParserMain.LoadPage | parsermain.cpp:216-233 | nothing while disabled, else pages start from the front of the queue while slots are free |
| ParserMain.ParserMain.LoadDbData | parsermain.cpp:235-273 | nothing while disabled, else the next batch of new rows joins the end of the queue |
| ParserMain.PageParser.RunDestructor | pageparser.cpp:36-47 | the row moves to the next page and goes back, or its chain ends |
| ParserMain.NextFound | pageparser.cpp:36-47 | the row is shared: only this worker's page changes, no row queued or on another worker does |
| ParserMain.Exec | parsermain.cpp:37-177 | the object's run on the pages' answers is the model's run; if it reports completion unpaused, everything was crawled |
| CrawlSafety.StepKeepsBasics | parsermain.cpp:70-177 | counters equal live workers within the limit, links are FIFO and wait only for a full pool, queued rows plus page workers stay within 2*Max-1 |
| CrawlSlots.LinkGoesFirst | parsermain.cpp:101-149 | at a worker's end a waiting link starts before any row, the next page included; nothing else starts and the table is not read |
| CrawlSlots.RowsGoNext | parsermain.cpp:112-160 | with no link waiting and not disabled: waiting rows take exactly the free slots from the front, a next page ahead of all others; no link starts, the table is not read |
| CrawlSlots.TableGoesLast | parsermain.cpp:157-173 | with no link and no row waiting: the next rows of the table are read, at most MaxThreadsCount, and take the free slots in order; completion is reported exactly if there are none and no other worker is live |
| CrawlSlots.PausedEndStartsNothing | parsermain.cpp:94-177 | disabled with no link waiting: nothing starts and nothing is read, the row goes back to the front, and when completion is reported |
| CrawlSlots.LinksTakeFreeSlots | parsermain.cpp:70-92 | a page's links take the free slots in their order, the others join the end of the queue |
| CrawlSlots.LoadTakesTheFirstRows | parsermain.cpp:37-68 | the load reads the first rows, as many as there are slots, and starts them all in table order |
| CrawlSlots.TotalStopStartsOver | parsermain.cpp:126-137 | a total stop forgets all that waits, and the next batch is the beginning of the table |
| CrawlRows.StepKeepsDepthFirst | parsermain.cpp:216-273 | the queue is started rows and then the unstarted rows up to the offset in table order; first launches follow the table |
| CrawlRows.NextLaunch | parsermain.cpp:100-114 | an unstarted row is launched only when no started row waits, and then it is the next of the table |
| CrawlOwnership.StepKeepsSettled | parsermain.cpp:94-124 | every row read is in exactly one of queue, live page worker, finished, and stands at the right page of its chain |
| CrawlOwnership.WorkerAlone | pageparser.cpp:36-47 | the row of a live page worker is nowhere else |
| CrawlHistory.StepKeepsLogged | parsermain.cpp:70-233 | launches are exactly the pages counted per row, discoveries exactly the links of the pages that handed theirs over |
| CrawlRuns.RunKeepsInv | parsermain.cpp:27-273 | all of these hold after every run, pauses included |
| CrawlRuns.ProgressWithin | parsermain.cpp:216-233 | no row has more pages launched than its chain is long, nor more links handed over than pages launched |
| CrawlRuns.IdleIsCompleteExactly | parsermain.cpp:138-175 | with no worker left, paused or not: everything crawled if and only if the whole table was read and no row waits |
| CrawlRuns.CompletionTheorem | parsermain.cpp:163-173 | reported once with queues and workers empty; everything crawled if and only if the whole table was read |
| CrawlRuns.EnabledHandlerReportsAll | parsermain.cpp:157-173 | a report made while not disabled means everything was crawled, whatever pauses came before |
| CrawlRuns.WorkConservation | parsermain.cpp:94-177 | never paused: an idle slot means no link, no row and no unread row anywhere |
| CrawlRuns.CrawlCompleteness | parsermain.cpp:37-177 | never paused: at completion every page of every chain was loaded and every link launched, each as often as it occurs |
| CrawlTermination.StepSpendsOne | parsermain.cpp:70-177 | each worker event lowers the count of events still to come by exactly one, nothing else changes it |
| CrawlTermination.RunsAreBounded | parsermain.cpp:70-177 | from any reachable state, paused or not, no run has more worker events than the count still to come |
| CrawlTermination.RunsFromStart | parsermain.cpp:37-177 | no run has more worker events than four for each page and two for each link |
| CrawlTermination.LiveMeansEnabled | parsermain.cpp:179-214 | a run stops exactly when no worker is live |
| CrawlTermination.StoppedIsDone | parsermain.cpp:138-175 | a work-conserving crawl with no event left has crawled everything and reported it exactly once |
| CrawlTermination.MaximalRuns | parsermain.cpp:37-177 | a maximal unpaused run crawls everything, reports once (never for an empty table) and takes exactly that many events |
| CrawlTermination.StalledOrReported | parsermain.cpp:138-175 | with pauses: once no worker is left, completion was reported if and only if no row waits and the load had read a row |
| CrawlPauses.PausedStretch | parsermain.cpp:216-238 | while disabled no page is launched, no row read, and links still start in order |
| CrawlPauses.PausedRunReportsTooEarly | parsermain.cpp:157-173 | a paused run that reports completion with rows never read |
| CrawlPauses.PausedRunStalls | parsermain.cpp:94-116 | a paused run after which a row waits for ever |
| CrawlPauses.PausedLoadNeverStarts | parsermain.cpp:20-68 | a load that fires while paused: nothing starts, before or after resume, and nothing is reported |
| CrawlPauses.LoadStartsNothingExactly | parsermain.cpp:37-68 | the load starts nothing if and only if it runs while disabled or the table is empty |
| CrawlPauses.StallExactly | parsermain.cpp:94-177 | a worker's end leaves rows waiting and no worker if and only if it is the last, while disabled, with no link queued and a row left |
| CrawlPauses.EarlyReportExactly | parsermain.cpp:118-177 | completion is reported with rows unread if and only if the last worker ends while disabled, no link and no row left, the table not exhausted |
| CrawlPauses.DrainStartsOne | parsermain.cpp:101-111 | a drain loop starts exactly one link |
| CrawlPauses.BoundIsReached | parsermain.cpp:157-162 | the bound 2*Max-1 is reached for every Max |
| Channel.IndexIsFirst | qtservice/src/qtservice_unix.cpp:369-372 | the position found is that of the first CRLF |
| Channel.ChunkIndependence | qtservice/src/qtservice_unix.cpp:322-378 | all ways of cutting a stream give the same commands and leftover if and only if it is settled |
| Channel.ChunkIndependenceWithoutEmptyLines | qtservice/src/qtservice_unix.cpp:322-378 | a stream without an empty line is cut in any way with the same outcome and leaves no complete line behind |
| Channel.LeftUnfinished | qtservice/src/qtservice_unix.cpp:369-378 | what a settled stream leaves in the cache contains no CRLF |
| Channel.FirstLineIsTaken | qtservice/src/qtservice_unix.cpp:326-377 | a line without CRLF at the front of the cache is taken with its CRLF; an empty one ends the reading and leaves the rest |
| Channel.UnfinishedLineStays | qtservice/src/qtservice_unix.cpp:369-378 | text without a CRLF stays in the cache |
| Channel.Conservation | qtservice/src/qtservice_unix.cpp:322-378 | for any stream and chunks, lines consumed with their CRLFs followed by the cache are the bytes received |
| Channel.CommandsAreLines | qtservice/src/qtservice_unix.cpp:326-360 | for any stream and chunks, the commands executed are the lines consumed, empty ones left out |
| Channel.RoundTrip | qtservice/src/qtservice_unix.cpp:94-108 | printed commands decode to themselves if and only if none is empty or contains a CRLF |
| CommandServer.QtServiceSysPrivate.GetCommand | qtservice/src/qtservice_unix.cpp:369-378 | the first line is returned and removed with its CRLF, or nothing happens |
| CommandServer.QtServiceSysPrivate.SlotReady | qtservice/src/qtservice_unix.cpp:322-361 | all commands that can be taken are executed and answered in order |
| CommandServer.QtServiceSysPrivate.Run | qtservice/src/qtservice_unix.cpp:328-358 | calls and reply of one command under the service flags |
| CommandLaws.CommandOutcome | qtservice/src/qtservice_unix.cpp:328-358 | for each command word, numbers and anything else, under each flag: the calls made and the answer written |
| CommandLaws.AnswerIsHonest | qtservice/src/qtservice_unix.cpp:328-358 | the answer is "true" if and only if a call was made or the command is "alive", else "false" |
| CommandLaws.CallsOfInputs | qtservice/src/qtservice_unix.cpp:322-361 | for any inputs of any sockets: stop, pause and resume are called as often as their commands are decoded and the flags allow, processCommand with the numbers decoded in their order |
| CommandLaws.StopsExactly | parserservice.cpp:3-7 | the service is told to stop if and only if some socket sends "terminate" |
| CommandServer.SocketIsolation | qtservice/src/qtservice_unix.cpp:322-378 | a socket's replies, one per command, and leftover depend on its own chunks only |
| CommandServer.RepliesOfSettledStream | qtservice/src/qtservice_unix.cpp:322-361 | however interleaved and cut, a settled stream gets the replies of its whole text |
| CommandServer.LastVerdictWins | parserservice.cpp:50-58 | with CanBeSuspended the calls made leave the verdict of the last pause or resume decoded, else none |
| CrawlControl.DaemonRunsTheCrawl | parserservice.cpp:50-58 | the crawl inside the daemon runs as a crawl whose pauses and resumes are the calls the sockets led to |
| CrawlControl.SchedulerObeysLastVerdict | parserservice.cpp:3-58 | in every run of the daemon the scheduler is disabled if and only if the last pause or resume decoded from any socket is a pause |
| CrawlControl.NoPauseCommandIsComplete | parserservice.cpp:50-58 | if no pause command is decoded, completion is reported only of a complete crawl |
| Numbers.NumberRoundTrip | qtservice/src/qtservice_unix.cpp:236-239 | printing and reading a number is the identity for every int |
| Numbers.PlusAndZero | qtservice/src/qtservice_unix.cpp:347-350 | a plus sign and a leading zero make no difference |
| Numbers.OutOfRangeIsZero | qtservice/src/qtservice_unix.cpp:347-350 | a number outside the range of int is read as 0 |
| Numbers.NoNumeralIsZero | qtservice/src/qtservice_unix.cpp:347-350 | so is everything that is not an optional sign and digits |
| CommandServer.SendCommandArrives | qtservice/src/qtservice_unix.cpp:347-350 | a sent code, negative ones included, is processed as that code |
| CommandServer.SendCmd | qtservice/src/qtservice_unix.cpp:94-108 | the controller learns whether its command was accepted, and exactly its actions happen |
| Handshake.StepKeepsNoLostWakeup | qtservice/src/qtservice_win.cpp:598-660 | a call that waits, or is about to, has its event queued or being handled before the wakeup |
| Handshake.StepKeepsEventInv | qtservice/src/qtservice_win.cpp:603-653 | each posted event belongs to one call and is taken at most once |
| Handshake.StepKeepsAnswered | qtservice/src/qtservice_win.cpp:574-596 | the callback run for a call is the one its control code asks for |
| HandshakeRuns.NoWakeupIsLost | qtservice/src/qtservice_win.cpp:574-660 | these hold in every interleaving of any number of calls |
| HandshakeAnswers.CallbacksRun | qtservice/src/qtservice_win.cpp:574-653 | once nobody can step and the loop runs: a call has had its callback if and only if its code is 256, 1, 2, 3, 5 or 128 to 255, and it is start, stop, pause, resume or processCommand(code - 128) accordingly |
| HandshakeAnswers.StatusIsShown | qtservice/src/qtservice_win.cpp:609-635 | in every interleaving a call shows the pending status of its code until it waits, and its final status until it unlocks |
| HandshakeAnswers.OthersKeepStatus | qtservice/src/qtservice_win.cpp:603-655 | the status changes only by startup, stop, pause and continue calls, and only under the mutex |
| HandshakeRuns.WokenExactly | qtservice/src/qtservice_win.cpp:598-600 | of the calls woken, the callback has run for the event's own call and no other |
| HandshakeRuns.StatusFollowsCallback | qtservice/src/qtservice_win.cpp:609-635 | one posting call at a time: nothing after the wait happens before its own callback returned |
| HandshakeRuns.StatusFollowsCallbackFromStart | qtservice/src/qtservice_win.cpp:609-635 | the same from the start of the event loop, for every run with one posting call at a time |
| HandshakeRuns.StatusIsHonest | qtservice/src/qtservice_win.cpp:603-668 | one posting call at a time, startup first: RUNNING is reported only of a service that is up, PAUSED only of a paused one, and each such call does report it |
| HandshakeRuns.EarlyStatus | qtservice/src/qtservice_win.cpp:613-634 | any other call waiting at a wakeup can report its final status before its callback |
| HandshakeRuns.OverlapReportsEarly | qtservice/src/qtservice_win.cpp:609-634 | for any two posting calls: a run in which the second reports its final status with its callback not run |
| HandshakeRuns.EarlyExactly | qtservice/src/qtservice_win.cpp:598-635 | from a resting loop some run lets a call go on before its callback if and only if two posting calls are in flight |
| HandshakeRuns.EveryCallReturns | qtservice/src/qtservice_win.cpp:603-660 | while the loop runs, a state in which nobody can step has every call finished |
| HandshakeRuns.RunsAreBounded | qtservice/src/qtservice_win.cpp:574-660 | without new calls every run is finite, with an explicit bound |
| HandshakeRuns.AfterQuitNobodyIsWoken | qtservice/src/qtservice_win.cpp:582-585 | once quit has taken effect a waiting call waits for ever |
| HandshakeRuns.QuitStrandsLateCall | qtservice/src/qtservice_win.cpp:574-612 | a call that gets the mutex after the stop was handled waits with the loop gone |
| HandshakeQuit.QuitStrandsExactly | qtservice/src/qtservice_win.cpp:574-634 | from the wakeup for a stop on, new calls included: once nobody can step, a call waits if and only if it is a posting call that had not got the mutex by then, and every other has returned |
| HandshakeQuit.QuitStrandsExactlyFromStart | qtservice/src/qtservice_win.cpp:574-634 | the same for every run from the start of the event loop, cut at that wakeup |
| Startup.BootKeepsFirst | qtservice/src/qtservice_win.cpp:802-824 | the first semaphore is passed only after all arguments are appended or the failure flags are set |
| Startup.BootKeepsSecond | qtservice/src/qtservice_win.cpp:826-839 | the second semaphore is passed only once application and handler object exist |
| Startup.BootKeepsThreads | qtservice/src/qtservice_win.cpp:706-727 | the success flag is cleared only if serviceMain is never called |
| StartupEnds.TimeOutIsNoNeed | qtservice/src/qtservice_win.cpp:802-816 | the 20 second timeout is never the only way on |
| StartupEnds.StartupEndsFromStart | qtservice/src/qtservice_win.cpp:706-839 | the startup ends with the event loop and a call of handler() or a failed registration, or start() gives up and then serviceMain, if called, waits for ever |
| StartupEnds.CallsNeedAll | qtservice/src/qtservice_win.cpp:541-566 | handler() is called only if the handler could be registered and the application created |
| StartupEnds.ConsoleFromStart | qtservice/src/qtservice_win.cpp:706-727 | the console flag is what the dispatcher thread noted |
| Service.StartupOrder | qtservice/src/qtservice_win.cpp:541-566 | in every interleaving: arguments read complete, no call before the handler object, start() at most once |
| Service.EveryCallReturns | qtservice/src/qtservice_win.cpp:541-660 | while the loop runs, a service that can make no handshake step has every call finished |
| ServiceAnswers.CallbacksRun | qtservice/src/qtservice_win.cpp:541-653 | the callbacks of all codes, for every run of the service |
| Service.StepsAreBounded | qtservice/src/qtservice_win.cpp:541-660 | each call of handler() costs at most fifteen handshake steps in any interleaving with the startup |
| Service.StatusIsHonest | qtservice/src/qtservice_win.cpp:541-668 | no posting control during start-pending: statuses are honest and no call gets ahead of its callback |
| ServiceOverlap.ControlDuringStartup | qtservice/src/qtservice_win.cpp:541-634 | for any arguments and posting code: a run from process start in which a control during startup gets ahead of its callback, PAUSED reported of a service not paused |
| ServiceOverlap.StopDuringStartup | qtservice/src/qtservice_win.cpp:541-612 | a run from process start after which the startup call waits with the loop gone |
| ServiceQuit.ServiceRunsTheHandshake | qtservice/src/qtservice_win.cpp:541-660 | the handshake inside the service runs as a handshake whose calls are the startup's and the controls |
| ServiceQuit.QuitStrandsExactly | qtservice/src/qtservice_win.cpp:574-634 | the stranded calls, exactly, for every run of the service |
| ServiceQuit.EveryCallReturnsExactly | qtservice/src/qtservice_win.cpp:541-634 | no posting control during start-pending: once no handshake step is possible every call has returned if and only if no posting control was sent after a stop or shutdown |
| ServiceQuit.ControlAfterStop | qtservice/src/qtservice_win.cpp:574-634 | for any arguments, a run from process start: startup, stop, then a posting control that waits with the loop gone |
| Template.ReplaceConcat | productparser.cpp:36-49 | a replacement goes piece by piece where no occurrence can straddle |
| Template.ChainDistributes | productparser.cpp:36-49 | the chain of replacements over a template is the chain over each of its holes |
| Template.ChainIsSubstitution | productparser.cpp:36-49 | the chain of replacements equals one simultaneous substitution if no value contains a later placeholder and no value can combine with what follows its hole |
| Template.LaterPlaceholderLeaks | productparser.cpp:36-49 | for any template: if one value contains a later name's placeholder and the rest are harmless, chain and substitution agree if and only if that name's value is its own placeholder |
| ProductScript.Parse | productparser.cpp:32-49 | the method's result is the chain of fourteen replacements (what that is: `ScriptLines.ParseFile`) |
| ScriptLines.ParseFile | productparser.cpp:32-49 | if no value contains a later placeholder, the script that runs is the written-out text, every column in its own line |
| ScriptLines.FilledScript | getProductItem.js:1-25 | the fourteen replacements make of the repository's script exactly those lines, followed by the rest |
| ProductScript.ScriptIsSubstitution | getProductItem.js:1-25 | for the repository's script: if no value contains a later placeholder, the fourteen replacements are one simultaneous substitution |
| ProductScript.ColumnLeaksExactly | productparser.cpp:36-49 | all columns but one settled: one substitution if and only if the replacements make of that column's placeholder its value |
| ProductScript.LaterPlaceholderLeaks | productparser.cpp:36-49 | one column contains a later column's placeholder, the rest are harmless: the repository's script comes out as one substitution if and only if that later column holds its own placeholder |
| ReplyJoin.ProductParser.ProductCreate | productparser.cpp:86-113 | what one reply adds, and when the end is emitted |
| ReplyJoin.EndsOnce | productparser.cpp:99-112 | one reply per language: the end comes with the last one, if and only if all decoded languages differ |
| ReplyJoin.EndedExactly | productparser.cpp:86-113 | after any of the replies, in any order: the end has come if and only if all are in and decode to different languages |
| ReplyJoin.TwoLabelsClash | productparser.cpp:92-112 | labels "ru-en" and "ru-xen": the end never comes |
| CrawlJoin.ClashBlocksCompletion | parsermain.cpp:138-175 | paused or not: once a product with clashing replies was launched, its worker is live for ever and completion is not reported |
| CrawlJoin.CompletesExactly | parsermain.cpp:70-177 | a maximal unpaused run in which product workers wait for their replies completes if and only if the table is not empty and the replies of every product of the site decode to different languages |
| ReplyJoin.JoinEndsOnce | productparser.cpp:64-113 | distinct languages with codes as long as the source's, any order: exactly one end, by the last reply |
| ReplyContents.JoinedTexts | productparser.cpp:92-98 | after all replies in any order: each language's title, content, announcement, description and location come from its own texts, newlines as "<br>", cut at 254 characters, and there is no other entry |
| ReplyContents.JoinedFields | productparser.cpp:99-111 | the six fields are filled by the last reply, each from its own key; the slug is what follows the last slash of the name |
| ReplyContents.BreaksAtNewline | productparser.cpp:95-97 | every newline becomes "<br>" and nothing else changes |
| ReplyContents.LastSectionAfterSlash | productparser.cpp:109-109 | what follows the last slash |
| ReplyContents.UnlabelledIsWhole | productparser.cpp:92-92 | a label without a dash is taken for the language itself |
| ReplyJoin.OrderDoesNotMatter | productparser.cpp:94-98 | the five maps are the same for every order of the replies |
| ReplyJoin.LabelDecodes | productparser.cpp:92-92 | the language is decoded right if and only if both codes have the same length |

## Left out

- ParserMain.ParserMain.Load: does not read site_settings again; MaxThreadsCount is fixed for the run, and the timer that calls it is an event, its interval left out.
- CommandServer.SendCmd: the reply is taken to be complete when the controller reads it; a partial read is not modelled.
- CrawlControl: the quit after "terminate" is a call like any other and does not end a run; what is proved of all runs holds of those that end there.
- Qt plumbing: signals, threads as objects, `deleteLater`, the WebEngine; only the resulting events are modelled.
- SQL, the network, JSON decoding and the scripts' work in the page: their results are parameters. `ManageLinks` gets the links in the order of `link_map.keys()`, `ProductCreate` the decoded label and texts.
- `stopAllThread`: the single load emits it before any parser is connected, and the destructor's emission is not modelled; the TotalStop branch of `manage_parsers` is modelled but no run takes it.
- The other columns of a row: the crawl uses its position and category_url, the script its fourteen values; printing a float is not modelled, the price is given as printed.
- The first-timer arithmetic, `encodeName`, socket paths, `QSettings`, installation, logging and `exec()` argument handling.
- QtServiceSysPrivate: the bytes are taken as decoded characters; UTF-8 sequences cut by a chunk boundary and NUL characters are not modelled.
- `QString::toInt` with surrounding whitespace; the model's numerals are an optional sign and digits.
- Handshake: the Windows threads are modelled on values, as an interleaving of atomic steps, because their code runs concurrently; teardown after the event loop, spurious wakeups and failing service-manager calls other than registration are not modelled.
- ProductScript.ScriptIsSubstitution: the lines of getProductItem.js after the object literal stand as any text that neither contains a placeholder nor ends in the beginning of one.
