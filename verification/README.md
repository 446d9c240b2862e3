# Verified models of the intercom, the ALSA list code and the x264 front end

This project models the parts of the repository that keep state across many operations, and proves what
they keep. Everything is Dafny; `dafny verify dfyconfig.toml` checks it.

How it is laid out: each stateful component has a *specification* on values (what one step does) and the
*program* as the source writes it: classes with mutable fields, linked nodes, arrays changed in place,
loops. Every method of the program is proved equal to its specification step, and the main results are
lemmas about the specification over every input or every run.

| component | specification | program | results |
|---|---|---|---|
| intrusive list (`list.h`) | | `IntrusiveList` | `IntrusiveList` |
| dlopen cache (`dlmisc.c`) | `DlobjSpec` | `DlobjCache` | `DlobjRuns`, `DlobjLaws`, `DlobjVersions` |
| async handlers (`async.c`) | `AsyncHandlers` | `AsyncHandlers.Registry` | `AsyncHandlers` |
| expression evaluator (`confeval.c`) | `ConfEval`, `CNumbers` | `ConfEval.EvalString` | `ConfEvalRoundTrip`, `TouchingMinus`, `ApplyLaws`, `Literals` |
| intercom client (`main.c`) | `ClientSpec`, `Keepalive` | `ClientProgram` | `ClientRuns`, `ClientOutcomes`, `ClientBeats` |
| intercom server (`mainvicom_srv.py`) | `ServerSpec` | `ServerProgram` | `ServerRuns`, `ServerFailures`, `ServerOutcomes`, `ServerBeats` |
| client and server together | `Session` | | `Session`, `Framing` |
| audio FIFO (`mainvicom_domru.py`) | `ByteFifo` | `ByteFifo.Fifo` | `ByteFifo` |
| timestamps, qpfile, filter chain (`x264.c`) | `Pts`, `QpFile`, `FilterChain` | same modules | same modules |
| bitmaps and drawing (`main.c`) | `Rows`, `BitmapFile`, `Framebuffer` | `BitmapFile`, `Framebuffer`, `BouncingNotice` | same modules |

## Where the code falls short

The models follow the code. Where a natural promise turned out false, there is a lemma with the exact
condition under which it holds.

- After a bracketed operand the evaluator drops one more character (`alsa-lib/src/confeval.c:187-189`), so an
  operator that touches the bracket is lost. Mostly the expression is then rejected (`RoundTripIffSpaced`); but
  before a negative literal its minus sign is read as the operator, and `(6)*-2` gives 4
  (`TouchingMinusGivesWrongValue`) while `(6)+-2` is right (`TouchingSumIsRight`). `HarmlessIff` says for each
  operator when the value is right, and `RoundTripIffFaithful` for a whole tree, expression by expression: a
  wrong value inside can be hidden by what is around it (`ZeroHidesMistakes`). The documentation's
  example `$[$CARD + 1]` (`alsa-lib/src/conf.c:321-327`) does not show that the space can matter.
- The dlopen cache's counter is an unsigned int that wraps (`OverflowUnloadsHeld`); a cache hit does not look
  at the symbol version (`HitIgnoresVersion`), which is no matter while each key is asked for with one version
  (`OneVersionGets`), and otherwise exactly for loaders that turn no version down (`VersionsHonouredIff`).
  `put` looks records up by function, so each of the counting laws holds of a function over all runs exactly
  when no two keys name it (`LawsIffOneKey`); otherwise a library can be unloaded while it is held
  (`AliasUnloadsOther`).
- A failing `sigaction` is the only thing that breaks the handler invariant (`StepKeepsIff`); after a failed
  restore the next add aborts exactly when the application had another disposition than the default
  (`AbortAfterFailedRestore`). After a failed install every further add reports success with nothing installed
  (`AfterFailedInstall`).
- A denial whose send fails leaves the client showing the idle screen without a connection
  (`ConnectedUnlessDenialFails`), until the socket is used next and not longer (`DisconnectedIff`). In the no-internet mode a silent server is never noticed
  (`SilentServer`).
- `stop_proc` raises exactly when the video handle still holds a process that has been collected, or the
  local audio handle is the placeholder (`StopProcCompletesIff`); the supervisor leaves such a handle exactly when a
  restart finds no stream (`SupervisorLeavesStaleIff`), and the next quiet report then ends the session
  (`FailedRestartCrashes`), as in a run of thirteen events (`FailedRestartReached`). An exception while the
  endpoint is being opened leaves the placeholder for good: from then on, and only then, no session gets past
  its first step (`StuckIffOpeningRaised`).
- `prev_status` lags one `await` behind the report it stands for. While a newer report is being flushed the
  session and the client disagree (`FlushingDisagrees`), unless the client is disconnected
  (`OfflineAgreementIff`). A call that could not be accepted is reported as over while it is still pending (`SaysWhatIs`).
- The padded row of `read_bmp` is counted in pixels, the bitmap format's in bytes. Pictures of a given shape
  are read right exactly when the two agree, or there is at most one row or no pixel (`ReadsRightIff`;
  `PaddingIff` says for which widths they agree). A file can even end before the code's last row, and the
  screen then shows what memory held (`ShortFileShowsMemory`, `ShortFileShown`).
- `fb_fill` stores two bytes for each pixel whatever the pixel size. It stays inside its rectangle exactly with
  two bytes a pixel or more (`FillsInsideIff`), and with one byte it leaves the frame buffer exactly at the
  last pixel of the screen (`FillFitsIff`).
- The bouncing notice shares its position between two bitmaps and stays on the screen exactly when they have
  one size and leave three rows (`NoticeInBoundsIff`).
- Pulldown 64 has a factor of 1 but shows two and a half frames a picture (`SixFourRunsAhead`).

## Model

| member | source | states |
|---|---|---|
| CNumbers.ToLong | alsa-lib/src/conf.c:666-681 | a converted 64-bit value is the 32-bit one congruent to it, and itself if it fits |
| CNumbers.TruncDivMod | alsa-lib/src/confeval.c:229-240 | truncated division and remainder obey C's law of `/` and `%` |
| CNumbers.BitAndRange | alsa-lib/src/confeval.c:229-240 | `&` of two w-bit two's complement values is a w-bit value, for every w |
| CNumbers.BitwiseLaws | alsa-lib/src/confeval.c:229-240 | every bit of `&` is the conjunction, and every bit of the or-operator the disjunction, of the operands' bits |
| CNumbers.BitsDetermine | alsa-lib/src/confeval.c:229-240 | two numbers with the same bits are equal, so these laws fix both operators |
| ApplyLaws.ExactOrUndefined | alsa-lib/src/confeval.c:229-240 | the evaluator's `+`, `-` and `*` give the exact result, and none exactly when it does not fit |
| ApplyLaws.DivisionDefinedIff | alsa-lib/src/confeval.c:229-240 | its `/` and `%` have a value if and only if the divisor is not 0 and the quotient is not the least number by -1 |
| ApplyLaws.QuotientAndRemainder | alsa-lib/src/confeval.c:229-240 | its quotient and remainder together make up the dividend, the remainder being smaller than the divisor and of the dividend's sign |
| ApplyLaws.DivisionUnique | alsa-lib/src/confeval.c:229-240 | no other quotient and remainder do |
| ApplyLaws.BitsOfResult | alsa-lib/src/confeval.c:229-240 | its `&` and bitwise or always have a value, with the conjunction and disjunction of the operands' bits |
| ApplyLaws.BitsWeigh | alsa-lib/src/confeval.c:229-240 | those bits are the number's in base two, with the sign repeated for ever |
| ApplyLaws.OtherCharacters | alsa-lib/src/confeval.c:150-165 | no other character is an operator |
| Literals.LiteralValue | alsa-lib/src/conf.c:666-680 | blanks, sign, prefix and digits in base 8, 10 or 16 convert to the value by places, and fail with ERANGE exactly when that does not fit |
| Literals.LiteralOnly | alsa-lib/src/conf.c:666-680 | nothing else converts |
| Literals.DigitsAre | alsa-lib/src/confeval.c:59-73 | the digits of each base |
| Literals.VariableAlone | alsa-lib/src/confeval.c:75-120 | what a variable stands for: integers of both sizes, strings through their literals, no node, other nodes, and the callback's errors |
| Literals.ResultIsNumber | alsa-lib/src/confeval.c:242-245 | whatever the text, a result is a number, in a 64-bit node exactly when it does not fit 32 bits |
| Literals.EntryCases | alsa-lib/src/confeval.c:257-273 | the entry point evaluates `$[`, looks any other name up as it is, and rejects a text without a dollar |
| Literals.Rejected | alsa-lib/src/confeval.c:141-227 | an operand followed by no operator, by an operator alone, or by more than one operand is an error |
| Literals.StartRejected | alsa-lib/src/confeval.c:167-221 | so are a bracket that is not closed, a number that does not fit, and any other start |
| Literals.BlankRejected | alsa-lib/src/confeval.c:224-227 | and nothing at all |
| ConfEval.FindCloseIsFirst | alsa-lib/src/confeval.c:43-57 | the search stops exactly at the first index where the bracket depth is zero, and fails exactly when there is none |
| ConfEval.FindEndOfExpression | alsa-lib/src/confeval.c:43-57 | the scanning loop finds that index |
| ConfEval.EvalOperand | alsa-lib/src/confeval.c:167-221 | one operand: bracket, variable or number, its value and where the scan resumes, with every error code |
| ConfEval.EvalString | alsa-lib/src/confeval.c:122-246 | the LEFT, OP, RIGHT, END loop terminates on every string and computes what the recursive-descent grammar gives, errors included |
| ConfEvalRoundTrip.EvalRendered | alsa-lib/src/confeval.c:122-246 | the result for every layout of every expression tree, bracket nesting and blanks included |
| ConfEvalRoundTrip.RoundTrip | alsa-lib/src/confeval.c:122-246 | the text of a tree in which no touching operator does harm evaluates to the tree's meaning in C arithmetic, errors and undefined arithmetic included |
| ConfEvalRoundTrip.SpacedIsFaithful | alsa-lib/src/confeval.c:187-189 | a text spaced after left brackets is such a text, whatever its variables hold |
| ConfEvalRoundTrip.RoundTripIffNode | alsa-lib/src/confeval.c:187-189 | a node with right operands and a value evaluates to its meaning if and only if its operator does not touch, or is lost without harm |
| ConfEvalRoundTrip.RoundTripIffFaithful | alsa-lib/src/confeval.c:187-189 | in any tree with a value, every expression evaluates to its own meaning if and only if no touching operator does harm |
| TouchingMinus.HarmlessIff | alsa-lib/src/confeval.c:229-240 | for each operator, the values for which its loss before a negative literal gives the right result all the same: every sum but that of the least number, some remainders and some bitwise ors, never `-`, `*`, `/` and `&` |
| ConfEvalRoundTrip.RoundTripIffSpaced | alsa-lib/src/confeval.c:187-189 | where no touching operator is followed by a negative literal (for that case see RoundTripIffNode), the text of a tree with a value evaluates to it if and only if it is spaced, and is rejected otherwise |
| ConfEvalRoundTrip.TouchingMinusGivesWrongValue | alsa-lib/src/confeval.c:187-189 | a text that evaluates to a wrong value without an error |
| ConfEvalRoundTrip.TouchingSumIsRight | alsa-lib/src/confeval.c:187-189 | an unspaced text that evaluates to the right value |
| ConfEvalRoundTrip.ZeroHidesMistakes | alsa-lib/src/confeval.c:229-240 | any expression with a value, right or wrong, times 0 evaluates to 0 |
| ConfEvalRoundTrip.RenderBalanced | alsa-lib/src/confeval.c:43-57 | the text of a tree is balanced in both kinds of bracket, so that the search for a closing bracket passes over it |
| ConfEvalRoundTrip.EvaluateStringRoundTrip | alsa-lib/src/confeval.c:257-273 | the entry point on a whole `$[...]` gives the meaning of the tree inside |
| IntrusiveList.RingInverse | alsa-lib/include/list.h:65-109 | around a well-formed circle `next` and `prev` are mutually inverse at every node |
| IntrusiveList.RingUnique | alsa-lib/include/list.h:50-51 | the pointers determine the sequence of nodes a traversal meets |
| IntrusiveList.ListAdd | alsa-lib/include/list.h:65-73 | the new node comes first and the circle is whole again |
| IntrusiveList.ListAddTail | alsa-lib/include/list.h:79-87 | the new node comes last and the circle is whole again |
| IntrusiveList.ListInsert | alsa-lib/include/list.h:94-102 | the new node stands between its two neighbours, at any index, and the circle is whole again |
| IntrusiveList.ListDel | alsa-lib/include/list.h:105-109 | the node at any index leaves, the others keep their order, and the node's own pointers stay as they were |
| IntrusiveList.ListEmpty | alsa-lib/include/list.h:112-115 | true exactly for the circle with no nodes |
| IntrusiveList.RemovedInserted | alsa-lib/include/list.h:94-109 | deleting an inserted node restores the list, wherever it went in |
| DlobjCache.DlobjList.Search | alsa-lib/src/dlmisc.c:318-331 | the walk finds the first record with the key, a missing library name being a key of its own, or none |
| DlobjCache.DlobjList.Get0 | alsa-lib/src/dlmisc.c:309-369 | on the linked list: a hit adds a reference, a miss opens and appends, and each of the three failures leaves the list alone with the library closed again |
| DlobjCache.DlobjList.Get | alsa-lib/src/dlmisc.c:371-383 | the new cache and result are those of the specification |
| DlobjCache.DlobjList.Get2 | alsa-lib/src/dlmisc.c:385-400 | the same with a double reference |
| DlobjCache.DlobjList.Put | alsa-lib/src/dlmisc.c:402-424 | the first record with the function loses a reference, never below zero, and the three return codes |
| DlobjCache.DlobjList.Drop | alsa-lib/src/dlmisc.c:436-440 | a record is unlinked, its library closed and its memory freed, while the saved next pointer stays good |
| DlobjCache.DlobjList.Cleanup | alsa-lib/src/dlmisc.c:426-442 | one walk that unlinks as it goes leaves exactly the referenced records, in order, in a whole circle, and closes each other record's library once, in order |
| DlobjCache.DlobjList.Follow | alsa-lib/include/list.h:58-59 | the walk's next pointer, which may be read only from a node that has not been freed |
| DlobjCache.DlobjList.Free | alsa-lib/src/dlmisc.c:438-440 | a record and its node are freed, neither for the second time |
| DlobjSpec.CleanupStep | alsa-lib/src/dlmisc.c:431-441 | what one turn of that walk does to the records still to come and those kept |
| DlobjRuns.CleanupSplits | alsa-lib/src/dlmisc.c:426-442 | every record is either kept or closed, and both happen in list order |
| DlobjRuns.PutNothing | alsa-lib/src/dlmisc.c:402-424 | a put of no function, of one not cached, or without references changes nothing, with its return code |
| DlobjRuns.RunSound | alsa-lib/src/dlmisc.c:309-442 | over every run, failed loads included: keys are unique, each record holds what the loader gives for its key, and for each library successful opens minus closes equals its cached records |
| DlobjLaws.LawsIffOneKey | alsa-lib/src/dlmisc.c:309-442 | for any loader and function, each of these holds over all runs if and only if no two keys name the function: its counter is the references handed out less those given back, modulo 2^32; while fewer than 2^32 are held it stays cached with that count and its library open; a cleanup keeps it exactly while the count is not a multiple of 2^32; `put` tells the last reference from the others and from a function not cached |
| DlobjLaws.LawsIffInjective | alsa-lib/src/dlmisc.c:309-442 | hence each law holds for all functions if and only if different keys name different functions |
| DlobjRuns.GetResult | alsa-lib/src/dlmisc.c:309-369 | after any run, a get gives the function of a cached key, else what an uncached caller gets, else nothing if an allocation fails; and exactly when that is what an uncached caller would get |
| DlobjVersions.OneVersionGets | alsa-lib/src/dlmisc.c:309-400 | over every run that asks for each key with one version, failed loads and cleanups included, a get gives what an uncached lookup with that version would, unless it needs memory that there is not |
| DlobjVersions.HitIgnoresVersion | alsa-lib/src/dlmisc.c:318-330 | after one get without a version, a version the loader turns down is served all the same |
| DlobjVersions.VersionsHonouredIff | alsa-lib/src/dlmisc.c:318-330 | over all runs with any versions a get gives what an uncached lookup would if and only if the loader turns down no version of a symbol it defines |
| DlobjRuns.OverflowUnloadsHeld | alsa-lib/src/dlmisc.c:385-400 | a run of 2^31 double references after which a cleanup unloads a held function |
| DlobjLaws.AliasUnloadsOther | alsa-lib/src/dlmisc.c:402-424 | any two keys of one function in different libraries: a put and a cleanup unload the library whose reference is still held |
| AsyncHandlers.StepKeepsIff | alsa-lib/src/async.c:110-162 | an add or delete keeps the invariant if and only if it makes no failing `sigaction` call, and from the invariant the assertion holds |
| AsyncHandlers.FailureIff | alsa-lib/src/async.c:110-162 | failure is reported if and only if a `sigaction` call fails, and then no disposition changes |
| AsyncHandlers.AbortAfterFailedRestore | alsa-lib/src/async.c:126-139 | after a failed restore the next add aborts if and only if the application's disposition was not the default |
| AsyncHandlers.AfterFailedInstall | alsa-lib/src/async.c:126-139 | after a failed install and any further adds, an add succeeds with nothing installed; deleting the handler leaves the default action, which is right if and only if that was the application's |
| AsyncHandlers.InstalledIffHandlers | alsa-lib/src/async.c:110-162 | over every run with successful calls: the library's handler is installed if and only if there are handlers, an emptied list has the original disposition back, and the assertion never fails |
| AsyncHandlers.Registry.AddHandler | alsa-lib/src/async.c:110-141 | on the linked list: the handler is last, and disposition, saved action and outcome are those of the specification |
| AsyncHandlers.Registry.DelHandler | alsa-lib/src/async.c:148-162 | on the linked list: the handler at any place leaves, and disposition, saved action and outcome are those of the specification |
| Keepalive.ClosedForm | mainvicom/main.c:625-631 | after any trace the counter is the maximum of the initial value plus pings minus ticks and, for each ping, pings minus ticks from it on |
| Keepalive.TimeoutIff | mainvicom_srv/mainvicom_srv.py:255-287 | exactly which traces of pings and ticks run the counter down |
| Keepalive.SilentTimeout | mainvicom/main.c:763-776 | a silent peer is timed out on exactly tick c + 6, never earlier |
| Keepalive.AttentiveNeverTimesOut | mainvicom/main.c:625-631 | a peer that pings between any two ticks is never timed out |
| ClientBeats.CounterIsTrace | mainvicom/main.c:625-689 | over every run the client's counter is what the rules make of the pings it heard and the ticks it counted since it connected |
| ClientBeats.GivesUpIff | mainvicom/main.c:763-776 | over every run, on a due tick with a working send, the client gives up exactly if that trace has run down, and never on an attentive server |
| ServerBeats.CounterIsTrace | mainvicom_srv/mainvicom_srv.py:208-287 | over every run the session's counter is what the rules make of the pings it read and the heartbeats it flushed since it began |
| ServerBeats.ClosesIff | mainvicom_srv/mainvicom_srv.py:279-287 | over every run a session decides to close only at a flushed heartbeat, and then exactly if that trace has run down |
| ServerBeats.AttentiveClient | mainvicom_srv/mainvicom_srv.py:255-287 | over every run a client of which a ping is read between any two heartbeats is never given up |
| ClientProgram.MainVicom.StopProgramsNow | mainvicom/main.c:279-318 | both children are reaped and forgotten |
| ClientProgram.MainVicom.SwitchModeTo | mainvicom/main.c:320-374 | the whole client state after a mode switch, children, socket and system calls included |
| ClientProgram.MainVicom.HandleKey | mainvicom/main.c:469-515 | the client after a key, in every mode and with failing sends |
| ClientProgram.MainVicom.HandleStatus | mainvicom/main.c:543-580 | the client after a status report |
| ClientProgram.MainVicom.HandleMessage | mainvicom/main.c:541-636 | the client after a message, with failing sends and forks |
| ClientProgram.MainVicom.TryConnect | mainvicom/main.c:643-692 | the client after a look at its reconnect timer and pending connection |
| ClientProgram.MainVicom.HandleTimers | mainvicom/main.c:642-778 | the client after its timers |
| ClientProgram.MainVicom.MainLoop | mainvicom/main.c:456-780 | over any inputs the loop goes through exactly the states of the specification's run |
| ClientRuns.ChildrenAndSockets | mainvicom/main.c:279-374 | over every run, against any server: the viewing modes have a live video child, a talk also an audio child, the resting modes neither; children forked minus reaped and sockets opened minus closed are exactly the ones held |
| ClientRuns.CommandsOnlyWhenAllowed | mainvicom/main.c:475-514 | over every run, each command leaves only in its mode and situation: the door is opened only with live video, a call accepted only while announced, only an open view denied; audio starts only in an accepted call |
| ClientRuns.AcceptAnswersCall | mainvicom/main.c:485-492 | over every run, each accept is preceded by a call announcement with no idle, no-internet or no-connection mode entered in between |
| ClientRuns.CallFlow | mainvicom/main.c:542-620 | a call from announcement to hang-up goes through its modes and sends exactly request, accept, open and deny |
| ClientRuns.ManualFlow | mainvicom/main.c:557-564 | a call coming in during a view the user opened is accepted at once |
| ClientRuns.ConnectedUnlessDenialFails | mainvicom/main.c:502-513 | a key keeps "every mode but no-connection has a socket" if and only if it is not a denial whose send fails |
| ClientRuns.SocketKeepsConnected | mainvicom/main.c:518-639 | no socket event breaks it |
| ClientRuns.TimerKeepsConnected | mainvicom/main.c:641-778 | no timer breaks it |
| ClientRuns.SocketlessIdle | mainvicom/main.c:502-513 | over every run, a state that breaks it is idle or dark with no children, and the next use of the socket ends it |
| ClientRuns.DisconnectedIff | mainvicom/main.c:502-513 | over every run, a client outside the no-connection mode lacks a socket if and only if a denial has failed and nothing has used the socket since |
| ClientRuns.SilentServer | mainvicom/main.c:747-776 | with a silent server a client gives up on exactly tick c + 6, but never in the no-internet mode |
| ClientOutcomes.KeyOutcome | mainvicom/main.c:469-515 | for every mode and key, with a socket and a working send: the mode after it, the children, and exactly the commands sent, the door's in both talking and viewing |
| ClientOutcomes.KeyFails | mainvicom/main.c:469-515 | the same with a failing send |
| ClientOutcomes.ReportOutcome | mainvicom/main.c:545-553 | for every connected client a lost line, a quiet one and the end of streams lead to their modes without children, and none ends the connection |
| ClientOutcomes.CallOutcome | mainvicom/main.c:554-575 | a call is accepted at once in a view and its stream asked for otherwise; a failing send ends the connection |
| ClientOutcomes.StreamOutcome | mainvicom/main.c:581-620 | video and audio come on exactly if their child runs or can be started, audio only in an accepted call |
| ClientOutcomes.OtherOutcome | mainvicom/main.c:576-634 | a ping counts, and unknown messages change nothing |
| ClientOutcomes.SocketOutcome | mainvicom/main.c:518-539 | a hang-up or an error ends the connection in every mode, and silence changes nothing |
| ClientOutcomes.TimerOutcome | mainvicom/main.c:720-777 | what is due is done: the ping sent, the idle screen dark, and a counter that has run out ends the connection after the ping |
| ClientOutcomes.ConnectOutcome | mainvicom/main.c:643-692 | what each state of a connection attempt leads to |
| ServerProgram.Globals.StopAll | mainvicom_srv/mainvicom_srv.py:56-82 | process table, handles and whether it raises, for every state of the three handles |
| ServerProgram.Globals.StopFfmpegA | mainvicom_srv/mainvicom_srv.py:84-94 | the same for the audio process alone |
| ServerProgram.Globals.StartFfmpegAV | mainvicom_srv/mainvicom_srv.py:97-106 | two new processes behind the video handle, or nothing if it is set |
| ServerProgram.Globals.StartFfmpegA | mainvicom_srv/mainvicom_srv.py:108-120 | a new process behind the audio handle, or nothing if it is set |
| ServerProgram.Globals.SupervisePass | mainvicom_srv/mainvicom_srv.py:147-182 | one pass of the supervisor: what is polled, killed and restarted, with and without a stream |
| ServerRuns.RunInv | mainvicom_srv/mainvicom_srv.py:143-294 | the session's invariant after every interleaving of awaits, supervisor passes, process exits and exceptions |
| ServerRuns.HandlesFollowStatus | mainvicom_srv/mainvicom_srv.py:184-294 | over every interleaving: every live process is behind a handle, no status means no handle and no process, a local audio endpoint exists only in a call, and a session that has ended leaves nothing |
| ServerRuns.SaysWhatIs | mainvicom_srv/mainvicom_srv.py:190-278 | over every interleaving, what the server says is so: video and audio replies with their processes, quiet reports with nothing running, save for a call that could not be accepted |
| ServerRuns.ReportsChangesIff | mainvicom_srv/mainvicom_srv.py:262-278 | a status is reported if and only if it differs from the last one, unless clearing up meets a stale handle |
| ServerRuns.CallServed | mainvicom_srv/mainvicom_srv.py:215-245 | a call served from the stream request to the accept, whatever was streaming before: video with what was missing started, the sound so far killed and replaced, audio on at once or when the endpoint has been created |
| ServerRuns.RefusedCallStays | mainvicom_srv/mainvicom_srv.py:230-236 | a call that cannot be accepted is reported as over, while the session goes on taking it for pending |
| ServerRuns.DenialClears | mainvicom_srv/mainvicom_srv.py:249-254 | a denial, at any status, clears every handle and process and changes nothing else, or with a stale video handle ends the session with the handle still set |
| ServerRuns.SilentClient | mainvicom_srv/mainvicom_srv.py:279-293 | a silent client is given up on exactly tick c + 6; then nothing is left running, or with a stale video handle the session ends on that tick with the handle still set |
| ServerRuns.StopProcCompletesIff | mainvicom_srv/mainvicom_srv.py:56-82 | `stop_proc` completes, and then leaves no handle and no live process, if and only if no video process has been collected and the endpoint is no placeholder |
| ServerRuns.SupervisorLeavesStaleIff | mainvicom_srv/mainvicom_srv.py:147-169 | the supervisor leaves a collected process behind a handle if and only if it finds a dead one and no stream |
| ServerRuns.FailedRestartCrashes | mainvicom_srv/mainvicom_srv.py:262-267 | after such a pass the next quiet report ends the session with the handle still set |
| ServerRuns.RunOf | mainvicom_srv/mainvicom_srv.py:143-294 | every sequence of awaits, supervisor passes and exits has its run |
| ServerFailures.FailedRestartReached | mainvicom_srv/mainvicom_srv.py:147-169 | a run without exceptions from outside in which a failed restart ends the session with the handle still set |
| ServerFailures.StuckIffOpeningRaised | mainvicom_srv/mainvicom_srv.py:122-132 | over every run, the server has a placeholder left behind between sessions if and only if an exception has ever come while an endpoint was being opened |
| ServerFailures.StuckSaysNothing | mainvicom_srv/mainvicom_srv.py:79-82 | over every run, after such an exception no session gets past its first step and nothing is said |
| ServerRuns.BenignRunsNeverCrash | mainvicom_srv/mainvicom_srv.py:143-294 | with the stream always at hand and no exception from outside, no interleaving and no process exit crashes a session |
| ServerOutcomes.SupervisorRestores | mainvicom_srv/mainvicom_srv.py:147-181 | after a pass the audio process runs, the old one exactly if it still did and else a new one; so does the video pair if the stream can be had, and otherwise nothing of it; processes without a handle are left alone |
| ServerOutcomes.SessionStarts | mainvicom_srv/mainvicom_srv.py:189-208 | a session starts with a fresh counter, stops what is left, and says `e` and `s0` |
| ServerOutcomes.LoopTopOutcome | mainvicom_srv/mainvicom_srv.py:210 | a session goes on exactly if it has not decided to close and the client is there |
| ServerOutcomes.StatusOutcome | mainvicom_srv/mainvicom_srv.py:262-278 | a call is reported with everything left running, a quiet or lost line once all is stopped |
| ServerOutcomes.PingOutcome | mainvicom_srv/mainvicom_srv.py:278-281 | a flushed report becomes the status, and a due ping is said |
| ServerOutcomes.LeavingOutcome | mainvicom_srv/mainvicom_srv.py:289-290 | a session that leaves its loop ends with nothing running, or crashes on a stale handle |
| ServerOutcomes.RaisedOutcome | mainvicom_srv/mainvicom_srv.py:189-290 | an exception at any await ends the session with everything as it was |
| ServerOutcomes.PollingOutcome | mainvicom_srv/mainvicom_srv.py:211-212 | data is read, and otherwise the status is asked for |
| ServerOutcomes.StreamRefused | mainvicom_srv/mainvicom_srv.py:215-229 | a request for which there is no stream starts the first sound only, and without network nothing |
| ServerOutcomes.CommandOutcome | mainvicom_srv/mainvicom_srv.py:230-261 | a ping counts; an accept without a call and anything unknown do nothing |
| ServerOutcomes.FlushedOutcome | mainvicom_srv/mainvicom_srv.py:234-262 | after a flushed reply the status is asked for |
| Session.OfflineAgreementIff | mainvicom_srv/mainvicom_srv.py:192-278 | over every joint run: while the session's status is -1, the last message in flight that is no ping is `s0`, or there is none and the client shows no internet or is disconnected, if and only if no newer report is being flushed or the client is disconnected with only pings in flight |
| Session.FlushedReport | mainvicom_srv/mainvicom_srv.py:262-278 | over every joint run: a report being flushed is the last report in flight, or the client has heard it and is in one of its modes |
| Session.FlushingDisagrees | mainvicom_srv/mainvicom_srv.py:262-278 | a run in which the status is -1 while the last message in flight reports a quiet line |
| Session.CallAgreement | mainvicom/main.c:542-636 | over every joint run: with no report in flight, a client that shows a call or no internet is right |
| Session.AudioCausality | mainvicom_srv/mainvicom_srv.py:230-245 | over every joint run: audio children started ≤ `a` replies ≤ `a` commands |
| Session.AcceptAnswersReport | mainvicom/main.c:485-492 | over every joint run: each `a` the client sends answers an `s2` of the server that it heard before, at that message's place in the stream, with no resting mode entered in between |
| Session.HeardOutcome | mainvicom/main.c:541-636 | what each of the server's messages, as written on the wire, leads to at a connected client |
| Framing.RoundTrip | mainvicom_srv/mainvicom_srv.py:208-214 | the server's line reader and filter recover every sequence of client commands, with at most one NUL pending |
| Framing.ReadConcat | mainvicom_srv/mainvicom_srv.py:208-214 | it does not matter how the stream is cut |
| Framing.NoiseDropped | mainvicom_srv/mainvicom_srv.py:204-214 | control characters and whatever is not ASCII make no difference to a line |
| Framing.ArrivedPrefix | mainvicom/main.c:478-507 | at every moment the commands read are a prefix of those sent |
| ByteFifo.Fifo.Put | mainvicom_srv/mainvicom_domru.py:52-54 | bytes are appended while the FIFO runs and dropped after |
| ByteFifo.Fifo.Get | mainvicom_srv/mainvicom_domru.py:56-62 | what is returned and what is left are the old contents |
| ByteFifo.Fifo.Length | mainvicom_srv/mainvicom_domru.py:75-79 | the number of bytes, or 0 once closed |
| ByteFifo.NothingLost | mainvicom_srv/mainvicom_domru.py:46-114 | in every interleaving of the two threads, with copy and delete as separate steps and closing at any moment, the frames emitted, the one in hand and the buffer are the bytes accepted, in order |
| ByteFifo.FramesAreWhole | mainvicom_srv/mainvicom_domru.py:101-109 | every frame is 320 bytes, except one empty last frame that only closing can cause |
| ByteFifo.FrameComes | mainvicom_srv/mainvicom_domru.py:101-109 | with 320 bytes there and the FIFO running, seven steps of the consumer emit exactly those bytes, whatever is put in meanwhile |
| ByteFifo.NoFrameYet | mainvicom_srv/mainvicom_domru.py:103-108 | with fewer it goes round its loop, and once closed it ends |
| Pts.Timestamps | x264/x264.c:1964-2013 | for any proposals, each timestamp is the proposal, or one frame's ticks, at least one, above the last if the proposal is not; they are non-negative and strictly increasing, and the two largest are the last two |
| Pts.PtsIncreases | x264/x264.c:2001-2013 | timestamps increase strictly between any two pictures |
| Pts.PtsNonNegative | x264/x264.c:2001-2013 | no timestamp is negative |
| Pts.UncorrectedIff | x264/x264.c:2001-2010 | the correction never fires if and only if the proposals are non-negative and strictly increasing |
| Pts.PulldownProposals | x264/x264.c:1992-1997 | the pulldown branch proposes the sum of the durations so far, rounded to the nearest tick |
| Pts.PulldownUncorrected | x264/x264.c:1992-2010 | in every pulldown mode the correction never fires |
| Pts.DriftIsPeriodic | x264/x264.c:267-276 | the accumulator's distance from the steady rate, exactly, for every picture of the five steady modes |
| Pts.PulldownRate | x264/x264.c:267-276 | in those modes the accumulator is exact at every multiple of the pattern, and timestamps stay within one tick of the rate |
| Pts.SixFourRunsAhead | x264/x264.c:271 | in mode 64 the accumulator runs ahead by three frames every two pictures |
| Pts.FieldsAlternate | x264/x264.c:267-276 | in modes 22, 32 and euro top and bottom fields alternate without a break over all pictures, two for each frame's time |
| Pts.DurationIsFields | x264/x264.c:283-284 | the durations are half a frame for each field that Table D-1 of ITU-T H.264 gives |
| QpFile.LineForIff | x264/x264.c:1810-1845 | a frame is given the one line with its number that no earlier line reaches |
| QpFile.ValidIff | x264/x264.c:1829-1844 | a line is accepted if and only if its letter is one of the six and its QP from -1 to 81; its letter then has its type, and the encoder's QP is the line's, automatic exactly for none or -1 |
| QpFile.GrantsOnce | x264/x264.h:249-255 | different letters ask for different types, and a line for one choice alone |
| QpFile.WellFormedLookup | x264/x264.c:1806-1846 | for a strictly increasing valid file that is a map lookup: a frame is granted its line's type and QP, and automatic choice if it is not listed |
| QpFile.WantedIs | x264/x264.c:1806-1846 | the same for any file, rejected lines included |
| QpFile.Reader.Parse | x264/x264.c:1806-1846 | one frame: the position after reading on and rewinding, the type and QP granted, the lines read, and when the file is given up |
| QpFile.Reader.ParseIfOpen | x264/x264.c:2017-2018 | one frame of the loop, with the reader left past nothing that a later frame needs |
| QpFile.Reader.ParseFrames | x264/x264.c:1982-2018 | every frame of any file of complete lines is granted its line's type and QP until a line is rejected, and lines read are at most lines plus frames |
| FilterChain.TokensJoin | x264/x264.c:1328-1339 | tokens hold no slash, and joined by slashes give back the string, less one slash at its end |
| FilterChain.ParseSplits | x264/x264.c:1333-1336 | a name holds no colon, and name, colon and arguments give back the token |
| FilterChain.CutToken | x264/x264.c:1330-1338 | one turn in the buffer: the two pointers read as name and arguments, the rest is untouched, and the scan resumes at it |
| FilterChain.ParseChain | x264/x264.c:1328-1339 | the loop that overwrites what it scans terminates and passes exactly the calls of the pure split, up to the first that fails, and all its pointers still read so at the end |
| BitmapFile.PaddingIff | mainvicom/main.c:168-169 | the code's row padding agrees with the bitmap format's if and only if the width and pixel size are among those listed |
| BitmapFile.RowsAre | mainvicom/main.c:168-169 | the code's row is the least multiple of four pixels that holds the width, the format's the least multiple of four bytes |
| BitmapFile.ReadBmp | mainvicom/main.c:138-180 | for any file, short ones included: size and image are those of the header, the image's rows being what was read at the code's places, last row first, over what memory held |
| BitmapFile.StackedRow | mainvicom/main.c:172-177 | image row k is what was read of the file's row k from the end |
| BitmapFile.ReadsRightIff | mainvicom/main.c:168-177 | every complete file of a shape is read as the format means it, whatever memory held, if and only if the row lengths agree, there is at most one row, or no pixel |
| BitmapFile.ShortFileShowsMemory | mainvicom/main.c:168-177 | a complete two-pixel file whose upper pixel comes out as what memory held |
| Framebuffer.DisplayBmp | mainvicom/main.c:182-189 | the frame buffer afterwards is the old one with the image's rows drawn in, all inside it |
| Framebuffer.DrawnRow | mainvicom/main.c:185-188 | each row drawn reads back at its screen row |
| Framebuffer.DrawnElsewhere | mainvicom/main.c:185-188 | no byte outside the rows changes |
| Framebuffer.DisplayedPixel | mainvicom/main.c:185-188 | screen pixel (x+k, y+i) shows image pixel (k, i) |
| Framebuffer.ReadThenDisplay | mainvicom/main.c:138-189 | screen row y+i from column x shows what was read of the file's row h-1-i, which is the format's row wherever the row lengths agree |
| Framebuffer.ShortFileShown | mainvicom/main.c:168-189 | the two-pixel file on the screen: what memory held |
| Framebuffer.FillRect | mainvicom/main.c:191-200 | the frame buffer afterwards is the old one with a two-byte store for each pixel of the rectangle, in order |
| Framebuffer.FilledPixel | mainvicom/main.c:193-199 | with two bytes a pixel or more every pixel of the rectangle ends up with the colour |
| Framebuffer.FilledAt | mainvicom/main.c:193-199 | the same at screen pixel (x+k, y+i) |
| Framebuffer.FilledElsewhere | mainvicom/main.c:193-199 | no byte that is not stored to changes |
| Framebuffer.FillsInsideIff | mainvicom/main.c:196-198 | filling changes no byte outside the rectangle, for all contents, if and only if a pixel has two bytes or more, or the rectangle is empty |
| Framebuffer.FillFitsIff | mainvicom/main.c:193-199 | on the screen every store is inside the frame buffer if and only if a pixel has two bytes or more, or the rectangle is empty or does not reach the last pixel |
| BouncingNotice.Notice.Bounce | mainvicom/main.c:698-715 | one move of both axes with reflection |
| BouncingNotice.MovedTurns | mainvicom/main.c:698-715 | a move that would leave the room turns the notice round, and any other goes on at the same speed |
| BouncingNotice.LeavesFarEdge | mainvicom/main.c:698-715 | it comes away from the far edge at once |
| BouncingNotice.PaceKept | mainvicom/main.c:698-743 | over every run between equal rooms it stays in the room and keeps its pace |
| BouncingNotice.Notice.Tick | mainvicom/main.c:697-716 | one tick on the frame buffer: cleared at the old position, drawn at the new one, all accesses inside it |
| BouncingNotice.FitsDraws | mainvicom/main.c:697-716 | for a rectangle on the screen the draw is inside the frame buffer, and the clearing if and only if a pixel has two bytes, or the rectangle is empty or short of the last pixel |
| BouncingNotice.Notice.Run | mainvicom/main.c:695-745 | any run of ticks with either bitmap: if the notice is safe, every fill and every draw is inside the frame buffer, on a one-byte screen as long as no clearing reaches the last pixel |
| BouncingNotice.WideClears | mainvicom/main.c:695-745 | with two bytes a pixel or more no clearing of a safe notice leaves the frame buffer |
| BouncingNotice.BounceInBoundsIff | mainvicom/main.c:697-743 | along one axis every clearing and drawing of every sequence of ticks stays on the screen if and only if both bitmaps leave the same room and the start fits |
| BouncingNotice.NoticeInBoundsIff | mainvicom/main.c:412-415 | for the client's start position and speeds and bitmaps no larger than the screen, that is if and only if the bitmaps have one size and leave three rows |

## Left out

- EvalString: does not model allocation failures (ENOMEM); the variable callback is a function of the name, so its side effects and the order of its calls are not observed. Signed overflow and division by zero are one `Undefined` outcome.
- CNumbers.ToLong: takes `long` as 32 bits and `char` as unsigned, as on the ARM target; with a 64-bit `long` the conversion is the identity.
- ListInsert: the list operations take the node sequence as a ghost argument; `list_entry`'s pointer arithmetic is a field of the node.
- DlobjCache.DlobjList.Cleanup: the plugin directory reset that follows it and the mutex are not modelled, so operations are atomic; the loader is deterministic, and its error text is dropped.
- AsyncHandlers.Registry.DelHandler: stops after the restored disposition; the rest looks at a node that is already unlinked and calls library code that is not here. The signal handler's walk of the list and failing allocations are not modelled.
- ClientProgram.MainVicom.HandleTimers: which timer is due is an input, not a computation on the clock; drawing and screen power are not part of the mode switch.
- ClientProgram.MainVicom.HandleMessage: a receive is one pair of bytes; what follows in the same chunk is ignored by the code too. A fork gives any pid but 0.
- ServerSpec.Resume: the session is a transition step from await to await, not a coroutine; `handle_client` with several clients at once, failing process starts and the waiting times are not modelled, and an exception from outside can arrive at any await.
- Session.OfflineAgreementIff: one session, one message a receive and no reconnect within it.
- Session.CallAgreement: says nothing of a client that shows the idle screen, which a user's denial can cause at any status.
- ByteFifo.NothingLost: the audio frames' further way, and data that arrives after closing, are not modelled.
- Pts.Timestamps: integers are unbounded and timestamps before correction are inputs; the rounding of the timebase multiplier and of the duration table to floating point is not modelled (every duration is a multiple of one half, hence exact).
- QpFile.Reader.ParseFrames: lines are complete records; how `fscanf` reads malformed text and a failing seek are not modelled.
- FilterChain.ParseChain: a filter is a call that fails at a given number; what filters do is not modelled.
- BitmapFile.ReadBmp: the header's fields are inputs; a file that cannot be opened, failing allocations, 32-bit wrap-around of sizes and widths beyond float precision are not modelled.
- BouncingNotice.Notice.Run: the clock that spaces the ticks is an input, and the two modes' other work between ticks is left to the client model.
- Command line options, help, the encoder itself, `aserver`, the SIP and HTTP code behind the interface, and the simpler server are separate programs or plumbing around the parts modelled.
