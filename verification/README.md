# Verification of serial-proxy

A Dafny model of the serial-proxy daemon, with proofs about it: the event loop it runs on (`src/ae.c`,
`src/ae_epoll.c`), the serial data plane (`src/serial.c`), the INI parser (`src/ini.c`), the configuration registry
(`src/config.c`) and the cron callback (`src/server.c`, `src/server.h`). `dafny verify dfyconfig.toml` checks all of it.

## How the model is built

Each part has two sides. The *specification* side is a state machine or a set of functions on values; the theorems are
about it. The *heap* side has the form of the C code (classes with the same fields, linked lists, in-place buffers, the
same loops), and every method there is proved to take the value of the heap through the step the specification says.
The specification itself is held by laws in terms of what goes in and comes out: bytes read and written, clock readings,
characters of the file, the descriptors epoll is given and gives back.

| file | what it holds |
|---|---|
| `EventTable.dfy`, `TableTheorems.dfy` | the fd-indexed table with `maxfd` and `setsize`, and the epoll interest set behind it; what a slot holds after any calls |
| `Proxy.dfy` | the data plane as a state machine: handlers, the two dispatch loops, reconnection, turns and runs |
| `Delivery.dfy`, `DeliveryTheorems.dfy` | what one handler call, one pass over the fired array and a whole run deliver |
| `OrderTheorems.dfy` | exactly when the order of the fired array matters |
| `RunTheorems.dfy` | what runs deliver exactly, which runs use a freed link, and which devices end up mute |
| `Witnesses.dfy` | small legal passes in which the less expected behaviours happen |
| `SerialNodes.dfy`, `ProxyServer.dfy` | the data plane on the heap, refining `Proxy.dfy` |
| `Timers.dfy`, `TimerTheorems.dfy`, `TimerLife.dfy` | the timer list as a sequence: one pass exactly, and lives of timers over runs |
| `TimerDeadlines.dfy`, `TimerDeletions.dfy` | when the timers that a pass leaves are due, and which it marks, told from the callbacks alone |
| `TimerList.dfy` | the timer list on the heap, refining `Timers.dfy`, and the poll timeout |
| `Polling.dfy` | which timers a poll waits for, and what the pass after its sleep does |
| `Cron.dfy` | the cron callback, its period test and what it means for poll timeouts |
| `IniGrammar.dfy`, `IniRoundTrip.dfy` | the line grammar and its functional parser; printing and reading back |
| `IniMeaning.dfy` | what lines mean, told from their characters alone |
| `IniParser.dfy` | the parser working in place on its line buffer, refining `IniGrammar.dfy` |
| `Configuration.dfy`, `ConfigurationTheorems.dfy` | the configuration handler on values, and what any sequence of calls builds |
| `Splitting.dfy`, `Settings.dfy` | how a setting is split into words, what numbers and names of settings mean, and what the file of a device builds |
| `Registry.dfy` | the same handler on the linked lists of nodes |
| `Startup.dfy` | from the lines of the file, through the in-place parser and the handler, to a connected server |
| `Shutdown.dfy` | `serialTerm`, with the memory and descriptors it gives back |
| `DaemonSpec.dfy` | the whole daemon as a state machine, and what every run of it keeps |
| `DaemonTheorems.dfy`, `DaemonDelivery.dfy` | its schedule and its deliveries, told from clock readings and descriptors alone |
| `Daemon.dfy` | the daemon on the heap: data plane, timer list and cron in one loop, from start-up to shutdown |

The kernel and the clock are an environment: what fires, what `read`, `write` and `open` give, which descriptors are
handed out, whether `epoll_ctl` refuses a registration, and every clock reading are parameters, universally quantified.
Assumptions about them are preconditions: `epoll_wait` returns distinct registered descriptors and readiness that was
asked for, or errors and hang-ups (`EventTable.KernelReturns`); new descriptors are not in use (`Proxy.FreshFds`).
A read is a nonempty chunk of at most BUFSIZ bytes, "try again", or a failure; an end of file counts as either of the
last two, since the program looks at an `errno` that `read` need not have set.

## What the proofs found

- A link registered for reading and writing is handed its full mask in the readable loop and dispatched again in the
  writable loop, so one chunk can be written to it twice in a pass. `ExactMultiplicity` says exactly when, and
  `WrittenTwice` shows it.
- The order of the fired array can matter to a virtual that is not a writer: a master whose early write is refused loses
  its link before the virtual is served, or after (`OrderCanMatter`). `OrderExact` gives the exact condition, on what
  fired and what the kernel refuses; without refused writes to the master the order never matters
  (`OrderIrrelevant`). In runs that avoid that condition a virtual that is not a writer gets every chunk, whatever else
  fails (`NonWriterRun`).
- When a read fails in a call that also writes, the write part goes on with the link just freed, although the comment at
  `src/serial.c:542` means to exclude that. The model records a fault instead of the undefined behaviour that follows;
  `FaultExactly` and `RunFaultExactly` give the exact condition for a pass and for a run, and `FaultReachable` shows it
  in the first turn after start-up. A hang-up reported together with input is enough, even for a link that only asked to
  read.
- `_serialCreateLink` ignores the result of `aeCreateFileEvent` (`src/serial.c:289-293`): a link whose descriptor is not
  below `setsize`, or that epoll refuses, stays connected but unregistered. Such a device is never read and never written
  again, and no reconnection retries it (`MuteForever`). `MuteRunExactly` says exactly which devices end up so after a
  run, and `MuteReachable` shows one right after start-up.
- `serialRemoveVirtualNode` never advances `prev`, so removing any member empties the list. `serialTerm` still gives
  everything back exactly once, but computes the flags of each master after its virtuals left the list: a master with a
  writer keeps its slot for writing, with a freed link in it.
- Deleted timers keep counting for the poll timeout until a pass unlinks them. `TimeoutExact` says exactly when that
  changes the timeout, and `DeletedTimerShortensSleep` shows it.
- Loading a configuration twice adds no node, but can flag a writer that the first time was named before its virtuals
  (`ReplayCanFlagWriter`). `ReplayExact` says exactly which files a second load leaves unchanged.
- Where text and code disagree the model follows the code: `aeResizeSetSize` refuses when `maxfd >= setsize`, not
  "minus one" (`src/ae.c:84-94`); `CONFIG_MAX_RECONNECT_INTERVAL_MS` is one hour, not 24 (`src/server.h:36`); the
  repository's README shows comma-separated virtuals once, but the code splits at spaces only, so that line asks for one
  virtual (`CommaIsNoSeparator`).

## Model

| member | source | states |
|---|---|---|
| EventTable.MaxFdIsGreatest | src/ae.c:145-154 | the maximum is -1, or the greatest descriptor whose slot is in use |
| EventTable.MaxFdUnique | src/ae.c:151-153 | whatever scan ends on a used slot with only empty ones above has found that maximum |
| EventTable.DeleteUndoesCreate | src/ae.c:119-155 | deleting a mask just created on an empty slot restores every mask, the maximum and the interest set |
| EventTable.EventLoop.constructor | src/ae_epoll.c:39-56 | a new loop has empty slots, no maximum and an empty interest set |
| EventTable.EventLoop.ApiAddEvent | src/ae_epoll.c:73-88 | ADD exactly on an absent descriptor, MOD otherwise; the descriptor is then watched for input exactly if the old mask or the new one is readable, for output exactly if one is writable; a refusal changes no interest |
| EventTable.EventLoop.ApiDelEvent | src/ae_epoll.c:90-106 | the descriptor keeps the remaining interest, or leaves the set when none remains |
| EventTable.EventLoop.CreateFileEvent | src/ae.c:119-137 | succeeds exactly below setsize and unrefused; failure changes neither table, maximum nor interest set; the invariant is kept |
| EventTable.EventLoop.DeleteFileEvent | src/ae.c:139-155 | only the given mask leaves only that slot; after the downward scan the maximum is again the greatest used descriptor, and the interest set equals the table |
| EventTable.EventLoop.ResizeSetSize | src/ae.c:90-106 | fails, changing nothing, exactly when a used descriptor would not fit; otherwise masks, maximum and interest set are those of before |
| EventTable.EventLoop.Poll | src/ae_epoll.c:108-131 | in order, each fired entry has the descriptor reported, readable exactly for input, writable exactly for output, an error or a hang-up |
| EventTable.RunCalls | src/ae.c:90-155 | over any sequence of create, delete and resize calls, table and maximum stay in step, with every ADD on an absent descriptor and every MOD or DEL on a present one; exactly the used slots are watched, for input exactly if readable and for output exactly if writable |
| TableTheorems.BitsExactly | src/ae.c:90-155 | after any calls a slot is registered for reading, or writing, if and only if some accepted creation asked for it and no later deletion withdrew it |
| TableTheorems.ClientOfLast | src/ae.c:119-137 | a slot in use serves whom the last accepted creation named, whatever was deleted or resized since |
| TableTheorems.InterestExactly | src/ae_epoll.c:73-106 | in every valid loop exactly the used slots are watched, each for input and output exactly as its mask says |
| Proxy.FirstWriterIsFirst | src/serial.c:676-690 | the writer of a master is its first flagged virtual in list order, none if none is flagged |
| Proxy.ReconnectExact | src/serial.c:371-410 | reconnection links exactly the masters that were up or could be opened, and virtuals of those alone; links that were up are untouched; new ones hold no bytes and are registered exactly if they fit the table and epoll does not refuse |
| Proxy.ReconnectKeeps | src/serial.c:376-409 | the same for one master and its virtuals |
| Delivery.HandleFrame | src/serial.c:535-614 | a handler call touches no link and writes no log entry of another device |
| Delivery.HandleEffect | src/serial.c:535-614 | what a handler call reads, offers and leaves pending for its own device, when the link is lost, and when a freed link is used |
| Delivery.ReadableEffect | src/ae.c:385-394 | after the readable loop a device holds exactly what it received in this pass, and was offered exactly its early write |
| Delivery.WritableEffect | src/ae.c:395-404 | the writable loop adds exactly the one late write of each device |
| DeliveryTheorems.PassOffers | src/ae.c:384-404 | in one pass a device is offered at most one chunk, at most twice, and it is the whole chunk its own source received in that pass: no stale byte, no byte of another device |
| DeliveryTheorems.EarlyExact | src/ae.c:385-394 | the first of two offers is made exactly when the device fired both ways, its own read did not fail, its source stands before it, and the source has its link at that moment |
| DeliveryTheorems.LateExact | src/ae.c:395-404 | the other offer is made exactly when the device fired writable and it and its source have their links at that moment |
| DeliveryTheorems.LinkSurvival | src/serial.c:556-614 | in a pass a device loses its link if and only if its read fails or a write to it is refused |
| DeliveryTheorems.ExactMultiplicity | src/serial.c:547-595 | when no link is lost: written once if fired writable, once more exactly when also fired readable after its source |
| DeliveryTheorems.ReadBeforeWrite | src/ae.c:384-404 | while its master keeps its link, a non-writer virtual fired writable is offered, once, the whole chunk read in the same pass, and nothing else |
| OrderTheorems.SafeDelivery | src/ae.c:384-404 | a non-writer virtual whose master is not at risk is offered the whole chunk of the pass when linked and fired writable, whatever the order and whatever else fails |
| OrderTheorems.OrderExact | src/ae.c:384-404 | all permutations of the fired array give a non-writer virtual the same if and only if it is not linked and fired writable together with a master that a refused write can take away |
| OrderTheorems.OrderIrrelevant | src/ae.c:384-404 | so if nothing is written to the master or no write to it is refused, permuting the fired array changes nothing that its non-writer virtuals get |
| Witnesses.OrderCanMatter | src/ae.c:384-404 | two orders of one legal fired array, of which one delivers to a non-writer virtual and the other does not |
| Witnesses.WrittenTwice | src/ae.c:385-403 | an error-free first turn in which one chunk of the writer is written to the master twice |
| DeliveryTheorems.NoErrorsNoLosses | src/serial.c:556-614 | without I/O errors no link is lost, so the three results above hold for every device |
| DeliveryTheorems.FailedReadCloses | src/serial.c:597-614 | a device whose read fails has no link when the readable loop ends |
| DeliveryTheorems.FaultExactly | src/serial.c:535-554 | in a pass a freed link is used if and only if some device fires both ways and its read fails |
| RunTheorems.RunFaultExactly | src/serial.c:535-554 | over every run, a freed link is used if and only if some turn is of that kind; every other run stays within defined behaviour |
| Witnesses.FaultReachable | src/serial.c:547-553 | such a turn is legal right after start-up, whether or not the master is registered for writing |
| RunTheorems.RunExact | src/serial.c:412-614 | over every error-free run, what is written to a device is exactly, turn by turn and in order, the chunk of its source whenever it was linked and fired writable, and once more when it fired readable after its source: nothing lost, nothing added |
| RunTheorems.NonWriterRun | src/serial.c:412-614 | over every run in which no turn is one whose array order matters to it, whatever else fails, a non-writer virtual is offered exactly the chunks its master read in the turns in which it was linked and fired writable, each once, in order |
| RunTheorems.MuteRunExactly | src/serial.c:289-296 | after any run a device is mute if and only if it was before, or some turn connected it, without a link by then, to a descriptor that is not below setsize or that epoll refuses |
| Witnesses.MuteReachable | src/serial.c:289-296 | a device is mute right after the first connection, or after a first turn that connects it, when the table is too small for its descriptor |
| RunTheorems.MuteForever | src/serial.c:371-408 | over every run, a device with an unregistered link is never read, never written and never reconnected |
| DeliveryTheorems.RunDeliveries | src/serial.c:412-614 | over every run, with whatever errors, no more is delivered than that: deliveries to a device are nonempty prefixes of an order-preserving choice of the chunks of its one source, read in the same turn, each used at most once (twice if registered both ways); for a master the source is its first flagged virtual |
| DeliveryTheorems.RunSilent | src/serial.c:581-595 | a master without a flagged virtual is never written to |
| DeliveryTheorems.RunWellFormed | src/serial.c:289-296 | in every state of a run links belong to configured devices and no two share a descriptor |
| ProxyServer.Server.constructor | src/serial.c:499-504 | a server over configured lists, nothing connected, is a valid start of the state machine |
| ProxyServer.Server.GetVirtualWriterNode | src/serial.c:676-690 | walking the list finds the node of the first flagged virtual, or none |
| ProxyServer.Server.EventFlags | src/serial.c:307-324 | the flags computed from the lists are those of the device |
| ProxyServer.Server.FreeLink | src/serial.c:342-364 | the link leaves node, state and table; its slot is empty before the descriptor can be handed out again; every other link and slot stays coherent |
| ProxyServer.Server.ReadHandler | src/serial.c:597-614 | the abstract read, with the link gone exactly after a failure |
| ProxyServer.Server.WriteLink | src/serial.c:556-579 | the abstract write of the pending bytes, with the target freed when nothing is taken |
| ProxyServer.Server.WriteHandler | src/serial.c:581-595 | a virtual takes from its own master, a master from its first flagged virtual |
| ProxyServer.Server.EventHandler | src/serial.c:535-554 | the abstract handler, the use of a freed link being recorded as a fault |
| ProxyServer.Server.BeforeSleep | src/serial.c:412-429 | every receive length of every master and virtual is cleared, nothing else changes |
| ProxyServer.Server.Register | src/serial.c:289-296 | the new link is the node's, registered with the node's flags, or unregistered with an empty slot if that failed |
| ProxyServer.Server.Connect | src/serial.c:480-497 | one device is connected to a fresh descriptor, or stays as it was |
| ProxyServer.Server.Reconnect | src/serial.c:371-410 | both list walks together are the abstract reconnection, and coherence is kept |
| ProxyServer.Server.ValidAfterFree | src/serial.c:342-364 | freeing one link with its slot emptied first keeps links and registrations coherent |
| ProxyServer.Server.ValidAfterConnect | src/serial.c:289-296 | linking one device to a fresh descriptor keeps them coherent |
| ProxyServer.Server.SlotOf | src/ae.c:386-391 | the slot of a descriptor that was polled holds the link of the device it was polled for, or is empty once that link is gone |
| ProxyServer.Server.DispatchReadable | src/ae.c:385-394 | one entry of the readable loop reaches the device that was polled, or none |
| ProxyServer.Server.DispatchWritable | src/ae.c:395-404 | one entry of the writable loop reaches the device that was polled, or none |
| ProxyServer.Server.EntriesLegal | src/ae_epoll.c:112-129 | whatever epoll returns stands for distinct registered devices that hold those descriptors |
| ProxyServer.Server.ProcessFileEvents | src/ae.c:384-405 | from the poll to the end of the writable loop no event is misdirected, and the outcome is one pass of the state machine over the devices polled |
| ProxyServer.Server.OneTurn | src/ae.c:436-443 | for any choice of when to reconnect, one iteration of the main loop is one turn of the state machine and keeps links and registrations coherent; `Daemon` makes the choice |
| ProxyServer.ServerDelivers | src/serial.c:412-614 | the bound of RunDeliveries holds in every state a server reaches |
| ProxyServer.ServerDeliversExactly | src/serial.c:412-614 | as long as nothing failed, what was written in it is exactly that of RunExact |
| ProxyServer.ServerFaultExactly | src/serial.c:535-554 | a server has used a freed link if and only if a device fired both ways and its read failed in some turn of its run |
| Timers.LexicographicIsTotal | src/ae.c:236-239 | comparing seconds, then milliseconds below 1000, is comparing total milliseconds |
| Timers.ActAllGrows | src/ae.c:187-217 | callbacks only add timers in front, newest first, and mark timers |
| Timers.EarliestIsLeast | src/ae.c:230-243 | the earliest deadline is one of the list's and none is before it |
| Polling.TimeoutExact | src/ae.c:230-243 | the timeout is that of the timers not deleted if and only if there is no timer, or one not deleted is due already or no later than every deleted one; it is never longer |
| Polling.DeletedTimerShortensSleep | src/ae.c:230-243 | a deleted timer that is due first does cut the sleep short |
| Polling.FullSleepRunsEarliest | src/ae.c:350-405 | after a sleep of the whole timeout the pass calls the earliest timer, or finalises it if it was deleted, even if the clock was set back |
| Polling.ShortSleepRunsNone | src/ae.c:350-369 | after a shorter sleep, under a clock not set back, no timer fires |
| TimerTheorems.PassExact | src/ae.c:246-318 | a pass leaves the timers created in it, newest first, then the old list in order minus exactly those marked when visited, which are what is finalised; exactly the unmarked due ones fire, in order |
| TimerTheorems.StepsExact | src/ae.c:272-316 | the same after any number of visits |
| TimerTheorems.SkewMakesDue | src/ae.c:260-266 | after the clock went back every unmarked timer of the list fires |
| TimerDeadlines.AddedDue | src/ae.c:187-204 | a timer created with a delay at a reading is due exactly that delay later |
| TimerDeadlines.ActionsProduce | src/ae.c:187-217 | callbacks make exactly the timers their creations ask for, with the next identifiers and those deadlines |
| TimerDeadlines.PassDeadlines | src/ae.c:246-318 | after a pass every timer made in it is due its delay after its reading; a kept one that was called and asked for more is due the delay it asked for after the reading of that moment; every other one is due when it was, or in the first second of the epoch if the clock went back |
| TimerDeletions.MarksOnly | src/ae.c:206-217 | a deletion marks the live timer with that identifier, and no other |
| TimerDeletions.PassDeletions | src/ae.c:246-318 | a pass drops a timer if and only if it was marked before, or the callback of one visited earlier was called and deleted it; a kept one is marked afterwards if and only if its own callback asked for no more, or one called in the pass deleted it |
| TimerLife.RunsKeepInv | src/ae.c:187-318 | over all runs identifiers decrease along the list, stay below the next one and are never reused; no timer fires after deletion, and each is finalised at most once, after it |
| TimerLife.PassKeeps | src/ae.c:246-318 | a pass with arbitrary callbacks keeps that invariant |
| TimerLife.DeletedIsGoneNextPass | src/ae.c:277-288 | a timer deleted before a pass is unlinked and finalised in it |
| TimerList.TimerLoop.AddMillisecondsToNow | src/ae.c:173-185 | the deadline is exactly the delay after the reading, with milliseconds below 1000 |
| TimerList.TimerLoop.CreateTimeEvent | src/ae.c:187-204 | the new timer is the head, gets the next identifier and is due exactly its delay after the reading |
| TimerList.TimerLoop.DeleteTimeEvent | src/ae.c:206-217 | succeeds exactly for a live timer, which is marked and stays in the list |
| TimerList.TimerLoop.Unlink | src/ae.c:277-288 | a marked timer leaves the linked list, wherever it is, and no other does |
| TimerList.TimerLoop.Unskew | src/ae.c:260-267 | exactly when the clock went back, every deadline moves to the epoch |
| TimerList.TimerLoop.VisitTimer | src/ae.c:272-316 | one iteration is one abstract visit, and the test for identifiers above maxId is never met |
| TimerList.TimerLoop.ProcessTimeEvents | src/ae.c:246-318 | terminates and is the abstract pass, for callbacks that create and delete timers; the result is the number that fired |
| TimerList.TimerLoop.SearchNearestTimer | src/ae.c:230-243 | the event found has the earliest deadline, deleted ones included; none exactly for an empty list |
| TimerList.TimerLoop.PollTimeout | src/ae.c:350-384 | through struct timeval and back, the timeout is exactly max(0, earliest deadline - now), or -1 exactly when waiting is allowed and there is no timer |
| Cron.CronServer.SetHz | src/config.c:107-110 | a value from 1 to 500 is taken as it is, a smaller one becomes 1, a larger one 500 |
| Cron.CronServer.SetReconnectInterval | src/config.c:111-118 | a value from 1000 to 3600000 is taken as it is, others become the nearer bound |
| Cron.CronServer.ServerCron | src/server.c:88-101 | always asks to be called again, 2 to 1000 ms later, after the longest whole number of milliseconds of which hz fit in a second; calls serialCron exactly on the ticks of its period; a shutdown request stops the loop without skipping the work |
| Cron.CronServer.RunCron | src/server.c:88-101 | any number of runs reconnects on exactly the ticks given by TicksExact |
| Cron.PeriodDefined | src/server.h:40-41 | for clamped settings the period test divides by no zero, and P*T <= interval < (P+1)*T |
| Cron.TicksExact | src/server.h:40-41 | reconnection runs on every tick if the interval is at most one tick, else on exactly the multiples of P |
| Cron.TimeoutsWithinTick | src/ae.c:305-312 | under a clock that does not go back, no poll is given more than one tick to sleep, over every run |
| IniGrammar.ErrorIsFirstBad | src/ini.c:121-173 | the result is 0, or the least number of a line that is malformed or whose call is rejected |
| IniGrammar.CallsIgnoreAnswers | src/ini.c:121-165 | parsing goes on after errors: the calls do not depend on the handler's answers |
| IniGrammar.PairLine | src/ini.c:138-155 | a name=value line of a normal pair means exactly that pair |
| IniGrammar.PairsExactlyNormal | src/ini.c:138-155 | the pairs some line means are exactly the normal ones |
| IniGrammar.SectionLine | src/ini.c:125-132 | a section line means its section if and only if the name is at most 49 characters and holds no bracket and no inline comment |
| IniGrammar.ContinuationLine | src/ini.c:118-123 | an indented line continues the previous name if and only if there is one and the text is normal |
| IniMeaning.SpacesAre | src/ini.c:28-42 | white space is the space, the tab, the line break, the vertical tab, the form feed and the carriage return, and nothing else |
| IniMeaning.PairMeans | src/ini.c:138-161 | a line with an equals sign or a colon is the pair of what stands before it and after it, without the blanks around and without a comment that a semicolon after a blank starts |
| IniMeaning.SectionMeans | src/ini.c:125-132 | a section line names what stands in its brackets, cut to 49 characters, whatever follows |
| IniMeaning.ContinuationMeans | src/ini.c:118-124 | an indented line continues the value before it with the whole of its text |
| IniMeaning.PairAfterSection | src/ini.c:118-161 | after any lines and a section line, a line with a name and a value, indented or not, is the call of that section, name and value: the section has forgotten the name before it |
| IniMeaning.MoreAfterPair | src/ini.c:118-161 | any number of indented lines after that continue that name, cut to 49 characters |
| IniMeaning.CommentsDoNotCount | src/ini.c:115-118 | leaving out a blank line or a comment, indented or not, changes no call, and the result only by the line less |
| IniMeaning.MarkDoesNotCount | src/ini.c:104-111 | leaving out a byte order mark before the first line changes nothing |
| IniMeaning.ErrorParsed | src/ini.c:133-163 | a line with no mark and no bracket, or an open bracket, makes no call, and its number is the result unless there was an error before |
| IniRoundTrip.FgetsLosesNothing | src/ini.c:177-180 | the pieces of any text make it up again, and each but the last is a whole line or 199 characters |
| IniRoundTrip.FgetsSplits | src/ini.c:177-180 | reading lines back from the text gives the lines that were joined |
| IniRoundTrip.RoundTripLines | src/ini.c:73-174 | parsing the printed lines makes exactly the calls printed and gives 0 if each is accepted |
| IniRoundTrip.RoundTrip | src/ini.c:73-180 | the same from the text of the file, for lines that fit the buffer |
| IniParser.RstripInPlace | src/ini.c:28-34 | the string is stripped at its end, by NULs written inside its old extent only |
| IniParser.LskipFrom | src/ini.c:37-42 | the place of the first character that is not white space |
| IniParser.FindCharsOrComment | src/ini.c:47-62 | the place of the first of the characters or inline comment, or of the NUL |
| IniParser.Strncpy0 | src/ini.c:65-70 | the copy is terminated inside its buffer and cut at one less than its size |
| IniParser.PairInPlace | src/ini.c:138-161 | name, value and remembered name are those of the grammar, in place |
| IniParser.SectionInPlace | src/ini.c:125-136 | the section buffer holds the name of the grammar, and is untouched if the bracket is not closed |
| IniParser.ParseBuffer | src/ini.c:111-161 | one line in the buffer means what the grammar says and leaves its next context in the two name buffers |
| IniParser.ParseNext | src/ini.c:100-165 | one iteration of the loop, from the read of the line with its byte order mark, means what the grammar says |
| IniParser.ParseStream | src/ini.c:73-174 | for every sequence of bounded lines, calls and result are those of the functional parser, every write staying inside its buffer |
| ConfigurationTheorems.CallsBuild | src/config.c:150-217 | after any calls: masters are the different sections, virtuals the different device.suffix names asked for, both newest first; a virtual is a writer exactly when a writer setting named it after it was asked for; the last baudrate counts |
| ConfigurationTheorems.ReplayAddsNothing | src/config.c:158-192 | repeating the whole sequence adds no master and no virtual |
| ConfigurationTheorems.ReplayExact | src/config.c:150-217 | repeating the whole sequence leaves the very same lists if and only if every writer setting for a virtual that the file asks for is heard the first time |
| ConfigurationTheorems.ReplayCanFlagWriter | src/config.c:199-212 | a file with its writer before its virtuals, whose second load changes the lists |
| Splitting.TokensAreWords | src/config.c:179-195 | no token is empty or holds a space |
| Splitting.OneWord | src/config.c:179-195 | a value without spaces is one token, whatever else it holds |
| Splitting.SpaceSeparates | src/config.c:179-195 | what stands before a space and after it is split independently |
| Splitting.TokensOfSpaced | src/config.c:179-195 | splitting undoes joining: words joined by any positive number of spaces are the tokens, in order |
| Splitting.CommaIsNoSeparator | src/config.c:179-195 | comma-separated names are one token |
| Settings.AtoiOfNumber | src/config.c:165-166 | reading a number undoes writing it, after any blanks, sign and leading zeros, and whatever follows that is no digit |
| Settings.AtoiOfNone | src/config.c:165-166 | a text that does not go on with a digit is 0 |
| Settings.CaseDoesNotCount | src/config.c:165-200 | names of settings are the same exactly when they differ in nothing but the case of letters |
| Settings.BaudrateBuilt | src/config.c:165-166 | the baudrate of a device is the number that its last baudrate setting writes |
| Settings.BaudrateDefault | src/serial.c:431-455 | and 9600 if there is none |
| Settings.VerdictExactly | src/config.c:150-217 | a setting is rejected exactly if it is none of the three, and ends the process exactly if a name does not fit in 4096 bytes |
| Settings.DeviceBuilt | src/config.c:150-230 | from the lines of a file: the device has the baudrate written, and as its virtuals the words of its virtuals setting, the last one first, each under the name device.word, of which exactly the one named is the writer |
| ConfigurationTheorems.LoadedAsAsked | src/config.c:150-227 | for every file, the lists are what its settings ask for and the handler never ends the process |
| Registry.Registry.GetNode | src/serial.c:644-658 | the first master in list order with that name, or none |
| Registry.Registry.GetVirtualNode | src/serial.c:660-674 | the first virtual of that master with that name, or none |
| Registry.Registry.AddNode | src/serial.c:616-623 | the node becomes the first master; lists stay acyclic and disjoint |
| Registry.Registry.AddVirtualNode | src/serial.c:506-514 | the node becomes the first virtual of that master alone, owned by it; all other lists are as they were |
| Registry.Registry.AddVirtuals | src/config.c:179-195 | the token loop adds a virtual for every new token and fails exactly when some name does not fit |
| Registry.Registry.ConfigHandler | src/config.c:150-217 | the linked lists change as the handler on values says, with its verdict |
| Startup.RegistryLists | src/serial.c:499-504 | the lists built by the handler are ones the data plane can work on, nothing linked, each virtual owned by its master |
| Startup.KnownAreTaken | src/config.c:165-216 | a line is counted as an error for its setting exactly if the handler answers 0 |
| Startup.LoadFile | src/config.c:219-230 | the parser in its buffers and the handler, called line by line, leave the lists of CallsBuild without exit; the result is the number of the first line that is malformed or no setting |
| Startup.SerialInit | src/serial.c:499-504 | from any configuration file, read that way: the lists are those it asks for and the run starts with links, registrations and table coherent |
| Shutdown.Termination.RemoveVirtualNode | src/serial.c:516-533 | removing any member empties the whole list; removing another node changes nothing |
| Shutdown.Termination.EventFlags | src/serial.c:307-324 | the flags for the list a node has at that moment |
| Shutdown.Termination.FreeLink | src/serial.c:342-364 | link and descriptor are given back once, and the flags computed now leave the slot |
| Shutdown.Termination.FreeNode | src/serial.c:457-478 | the node is given back once; its master's list is emptied exactly if it was a member |
| Shutdown.Termination.SerialTerm | src/serial.c:711-748 | the walk visits every device, touches nothing already given back, and ends with none pending |
| Shutdown.Termination.NothingHeld | src/serial.c:711-748 | then every node, link and descriptor was given back exactly once |
| Shutdown.Termination.SlotsLeft | src/serial.c:720-742 | and a slot is still registered, for writing, if and only if a master with a writer held it |
| Shutdown.ShutDown | src/serial.c:711-748 | all of this together, from any valid running server |
| DaemonSpec.CronPass | src/ae.c:246-318 | a pass over a list that holds only cron's timer calls it exactly if its deadline has come, and leaves that timer alone in the list |
| DaemonSpec.ReconnectsOnTicks | src/server.c:88-101 | over every run from the start, the turns that reconnect are exactly those of cron's n-th run for n divisible by the period; and no poll is given more than a tick while the clock does not go back |
| DaemonSpec.StopsExactly | src/server.c:37-101 | over every run from the start, the loop is told to stop if and only if cron has run in a turn in or before which a signal came |
| DaemonSpec.RunIsRun | src/ae.c:436-443 | the data plane goes through the run made of the turns of the daemon |
| DaemonSpec.LawfulIsLegal | src/ae.c:436-443 | and that run is a legal one if the kernel keeps to what it was asked, so that every result on runs holds of the daemon |
| DaemonTheorems.CronOnSchedule | src/ae.c:246-318 | over every run from the start, whatever the clock does, cron runs in a turn if and only if its deadline has come: 1000 / hz milliseconds after the end of its last run, one after the start, or what a clock set back has left of it; and every poll is given exactly the time to it, or none |
| DaemonTheorems.RunsApart | src/server.c:88-101 | while no clock goes back, two runs of cron are at least 1000 / hz milliseconds apart |
| DaemonTheorems.SteadyExactly | src/ae.c:350-369 | the clock counts as steady if and only if no reading of the run went back |
| DaemonDelivery.WatchedByKind | src/serial.c:307-324 | a registered virtual is watched for output, and for input exactly if flagged as a writer; a master for input, and for output exactly if one of its virtuals is flagged |
| DaemonDelivery.OnlyRegisteredWatched | src/ae_epoll.c:73-106 | no other descriptor is watched |
| DaemonDelivery.VirtualServed | src/serial.c:547-595 | in every turn in which its master is not at risk, a non-writer virtual is written the whole of what read gave for its master, once, if and only if it has a link and epoll reported its descriptor for output, an error or a hang-up |
| DaemonDelivery.ServedWithoutErrors | src/serial.c:547-595 | in a turn without errors every device is written what read gave for its source, once if reported for output, an error or a hang-up, and once more if reported for input too, after its source |
| Daemon.InterestIs | src/ae_epoll.c:73-106 | what epoll watches are the registered devices, each with its flags |
| Daemon.EntriesAre | src/ae_epoll.c:108-131 | what epoll returns stands for the devices that hold the descriptors |
| Daemon.Daemon.CronPart | src/ae.c:246-318 | the pass over the timers runs cron exactly if its deadline has come, and keeps its timer |
| Daemon.Daemon.FilePart | src/ae.c:333-404 | clearing, the timeout of the list, and the dispatch of what the poll returned, leaving timers and cron alone |
| Daemon.Daemon.OneTurn | src/ae.c:333-412 | one iteration over data plane, timer list and cron: the timeout is that of the list, and the turn reconnects exactly if cron ran on a tick of its period |
| Daemon.Daemon.Iterate | src/ae.c:436-443 | one iteration takes the whole daemon through one step of the state machine, and only what was allocated since joins its footprint |
| Daemon.Daemon.AeMain | src/ae.c:436-443 | the loop takes it through as many steps as are given, and ends early exactly when cron has stopped it |
| Daemon.ServerInit | src/server.c:130-142 | the cron timer and the devices of the file make a fresh daemon at the start of the state machine |
| Daemon.ServerTerm | src/server.c:144-162 | everything of the devices is given back, and the cron timer is found and deleted |
| Daemon.RunDaemon | src/server.c:330-373 | start-up, loop and shutdown in one: from any configuration file, whatever kernel, clock and signals do, a legal run that reconnects on its ticks; stopped by a signal, it ends with nothing held |

## Left out

- Device setup inside `_serialCreateLink` (opening, pseudo-terminals, symbolic links, line settings, baud-rate tables): foreign calls, replaced by "fails, or gives a fresh descriptor".
- The second descriptor `sfd` of a link: it is opened and closed with the link and never polled.
- After a fault (a link used after it was freed) the program's behaviour is undefined; the model goes on as if the use had done nothing.
- `close` makes the kernel forget a descriptor; in `serialTerm` the model's interest set keeps what the program last asked for.
- epoll refusing a MOD or DEL that fits its interest set, whose result `aeApiDelEvent` ignores: taken not to happen.
- The handler function fields of a slot: the program registers only one handler.
- Timer finalizers (always NULL here), negative delays and negative identifiers passed to deletion.
- The duration of the `usleep` in `serialBeforeSleep` and all elapsed real time: timing claims are about timeouts, deadlines and ticks.
- In `Daemon.dfy` the body of the cron callback follows the pass that calls it instead of standing inside; it touches no timer, so nothing else could tell.
- The event loop of the C code is one structure; here the file events, the timers and cron are three objects that the daemon holds.
- `aeProcessEvents` without both kinds of events, `aeWait`, `aeGetFileEvents`, `aeGetApiName`: unused by this program.
- Integer overflow and allocation failure: integers are unbounded, and `new` succeeds. `atoi` is on unbounded integers.
- The other settings of `_serverConfigHandler`, log levels, `_yesnotoi`, `_serialEventString`: plain lookups and copies.
- Logging, syslog, the pid file, daemonizing, options, and opening the configuration file. A signal is an input that asks for shutdown; a second SIGINT, which ends the process at once, is not modelled.
- The main loop is modelled for any finite number of iterations; one that ends before cron stops it gives nothing back.
- `serialDelNode`: never called, and with the same `prev` as `serialRemoveVirtualNode`.
