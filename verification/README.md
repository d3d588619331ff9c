# Lute, modelled and proved in Dafny

Lute is a network library built from reactors: one event loop per thread, non-blocking sockets,
callbacks, and a small HTTP layer on top. This project models its state machines and proves what
they promise over whole runs.

| file | what it models |
|---|---|
| `TimerModel.dfy`, `TimerIndex.dfy`, `TimerQueue.dfy` | timers: a machine that knows them by number only, with the theorems; the two ordered sets over reusable, hand-freed addresses; the queue as written, which refines the machine |
| `Connection.dfy` | a connection's output path, shutdown, close and event dispatch, over real buffers |
| `LoopModel.dfy`, `EventLoop.dfy` | the task queue: a step relation over all interleavings, and the loop's code as runs of it |
| `ServerModel.dfy`, `Server.dfy` | the life of connections between the acceptor's loop and the I/O loops, and the server's code as steps of it |
| `ConnectorModel.dfy`, `Connector.dfy` | the client's connector on its loop, and its code as steps of it |
| `Poller.dfy` | channels and the epoll table against the kernel's interest list |
| `Buffer.dfy`, `Codec.dfy` | the growable two-index buffer and its network-order integers |
| `HttpSyntax.dfy`, `HttpLayout.dfy` | requests as text: how they are parsed, printed and cut, and exactly which texts are requests |
| `HttpContext.dfy`, `HttpServer.dfy`, `HttpResponse.dfy` | the incremental parser, the server's answers to the reads of a connection, the response printer |
| `Basics.dfy` | what several of these share |

Two kinds of file alternate. A `...Model` file is a machine on values: a state, the steps the
environment and the code may take, an invariant, and theorems about every run. The file beside it
holds the class whose methods are the source's, with its fields; each method is proved to change
the object as the machine's step says, so the theorems are about that code. The source's own
assertions are preconditions of the methods that make them, and the callers are proved to meet
them; where an assertion can fail, the method answers whether it held and its contract says exactly
when. System calls are parameters: every result the kernel may give is covered. User callbacks and
other threads are scripts: every sequence of operations they may perform is covered, re-entrantly
where the source allows it.

## What turned out to be conditional

Each of these fails for some inputs; the condition is exact, for all inputs, and a run or call that
fails stands beside it.

- A dispatch meets the assertion in `handleClose` if and only if, on a live connection, it is not a
  hang-up without IN but with PRI or RDHUP on a socket at end of file, and on a closed one it brings
  neither a hang-up without IN nor end of file (`Connections.TCPConnection.HandleEvent`,
  `Connections.ClosedTwice`).
- A closed connection can still get a hang-up if and only if its channel asked for nothing when it was
  closed: updating such a channel registers it again, and the kernel reports hang-ups unasked. So
  closing is safe in all that follows if and only if the connection reads or has a backlog at that
  moment, and a caller must not stop reading on a connection without a backlog and then close it, or
  else `handleClose` runs twice (`ServerModel.WhenClosingIsSafe`, `ServerModel.RunsMeetAssertions`,
  `ServerModel.InterestedRunsMeetAssertions`, `ServerModel.HangUpAfterClose`,
  `Connections.TCPConnection.WhenStillWatched`, `Connections.HangUpAfterClose`,
  `Pollers.WatchedForNothing`).
- The loop blocks in poll with work queued if and only if it is the first poll of a call of `loop()`,
  everything queued was queued by the loop's own thread before that call, the call before it left no
  wakeup behind, and nobody has asked this one to quit (`LoopModel.WhenPollBlocksOnWork`,
  `LoopModel.FirstPollBlocks`, `LoopModel.FirstPollMayBlock`).
- A `quit()` that another thread makes during a call of `loop()` ends it if and only if it does not fall between the two stores
  with which `loop()` begins, to `looping_` and to `quit_` (`LoopModel.WhenQuitIsHonoured`,
  `LoopModel.QuitEndsTheLoop`, `LoopModel.QuitMayBeLost`).
- A cancel keeps a timer out of the queue for good if and only if the timer's insertion has reached
  the loop (`TimerModel.WhenCancelCounts`, `TimerModel.CancelMayOvertake`).
- A context can be parsed again, whatever arrives, if and only if no line that names a known method
  has been rejected; otherwise the assertion in `setMethod` fails on the next read. A request with an
  unsupported version is such a line (`HttpServers.OnMessage`, `HttpSyntax.NextCallMeetsAssertion`,
  `HttpSyntax.UnsupportedVersionBreaksReuse`).
- A run of the connector, with timers firing at any time, meets every assertion if and only if no retry
  timer that fires while a connection is wanted and the used channel still waits for its deferred reset
  starts an attempt that does not fail at once. It is enough that no timer fires in the event phase
  that set it (`ConnectorModel.RunsMeetAssertions`, `ConnectorModel.PatientRunsMeetAssertions`,
  `ConnectorModel.EarlyTimerBreaksAssertion`, `ConnectorModel.EarlyTimerMayBeHarmless`).
- `connectDestroyed` finds the channel ready for removal if and only if the connection has been
  established and not been destroyed before, has no backlog if it is shutting down, does not read if it
  is shutting down or closed, and, if it is up, its down callback does not leave reading switched on
  (`Connections.TCPConnection.ConnectDestroyed`, `Connections.DestroyedTooEarly`,
  `Connections.DestroyedQuietly`, `Connections.DestroyedWhileReading`,
  `Connections.DestroyedReadingAgain`). A server that outlives its connections calls it on closed ones
  only (`ServerModel.HoldsTheTicket`).

## Model

| member | source | states |
|---|---|---|
| TimerModel.RunsOnTime | polaris/src/TimerQueue.cc:162-215 | on every run no callback is early, a one-shot timer runs at most once, and two runs of a repeating timer belong to alarms at least its interval apart |
| TimerModel.DueWhenAsked | polaris/src/TimerQueue.cc:125-215 | whatever happens after a timer is made, it is queued and runs for exactly the time asked for, and from then on for exactly one interval after the alarm that ran it last |
| TimerModel.AlarmAlwaysSet | polaris/src/TimerQueue.cc:38-50 | whenever no alarm is being handled and a timer is queued, the alarm is armed (or fired, unread) for no later than the earliest expiration or 100 microseconds after arming, across inserts, cancels, spurious alarms and re-entrant callbacks |
| TimerModel.AlarmIsForEarliest | polaris/src/TimerQueue.cc:38-50 | and no sooner: while nobody cancels, the alarm of an idle queue is set for exactly the earliest expiration, or the smallest delay after it was set |
| TimerModel.AlarmWasForEarliest | polaris/src/TimerQueue.cc:76-96 | with cancels too, an alarm that is set was set, somewhere on the run, for exactly the expiration that was the earliest then |
| TimerModel.ArmsForEarliest | polaris/src/TimerQueue.cc:136-224 | every step leaves the alarm alone, consumes it, or sets it for the earliest timer there then is |
| TimerModel.AlarmRunsBatch | polaris/src/TimerQueue.cc:162-178 | one alarm runs exactly the timers due when it began, once each, in order of expiration, whatever callbacks and other threads do meanwhile |
| TimerModel.DueTimersRun | polaris/src/TimerQueue.cc:162-178 | of the timers queued when an alarm begins it runs those whose time has come and no others, for the expiration they had, the earlier first |
| TimerModel.AlarmComplete | polaris/src/TimerQueue.cc:162-178 | the same for a whole handling from its beginning to the end of reset |
| TimerModel.CancelSettles | polaris/src/TimerQueue.cc:145-160 | after a cancel of an inserted timer, in any continuation: it is never queued again; it never runs again if it was queued, and exactly once more if the current batch still owes it a run |
| TimerModel.WhenCancelCounts | polaris/src/TimerQueue.cc:125-160 | in every reachable state, cancelling an existing timer keeps it out of the queue in all continuations if and only if its insertion is not still on its way |
| TimerModel.OvertakingIsForgotten | polaris/src/TimerQueue.cc:125-160 | from every state, a cancel of a timer whose insertion is pending is followed by that insertion |
| TimerModel.CancelMayOvertake | polaris/src/TimerQueue.cc:125-134 | a whole run from the start in which a cancel overtakes the insertion and the timer's callback runs all the same |
| TimerModel.NeverLost | polaris/src/TimerQueue.cc:202-215 | a queued timer that nobody cancels stays queued or owed a run, or is a one-shot timer that has run |
| TimerModel.InvStep | polaris/src/TimerQueue.cc:136-224 | every step, including those inside callbacks, keeps: no timer in two places, numbers not reused, batch in order, runs spaced, alarm set |
| TimerModel.PlacedStep | polaris/src/TimerQueue.cc:136-215 | pending, queued and in-flight timers stay disjoint, and the batch in flight stays sorted and due |
| TimerModel.LogStep | polaris/src/TimerQueue.cc:162-215 | every step keeps the log of runs on time and spaced by the interval, also against the next run a timer may have |
| TimerModel.AlarmStep | polaris/src/TimerQueue.cc:136-143 | every step keeps the alarm early enough for every queued timer, relying only on changes of the earliest timer re-arming it |
| TimerIndex.SameSize | polaris/src/TimerQueue.cc:147-159 | sets that list the same timers have the same size, which the source asserts around every operation |
| TimerIndex.HeadIsEarliest | polaris/src/TimerQueue.cc:217-219 | the first entry of the ordered set is the earliest timer of the queue, and the set is empty exactly when the queue is |
| TimerIndex.ExpiredIsDue | polaris/src/TimerQueue.cc:184-189 | the entries below the sentry, in set order, are exactly the timers due, each once, by expiration |
| TimerIndex.ExpiredLeaves | polaris/src/TimerQueue.cc:188-196 | erasing them by entry from one set and by (address, sequence) from the other removes the same timers |
| TimerIndex.AfterCreate | polaris/src/TimerQueue.cc:125-130 | a new timer at any free address, including one used before, leaves objects, sets and cancel set in step with the machine |
| TimerIndex.AfterAdd | polaris/src/TimerQueue.cc:226-252 | inserting a live timer into both sets is the machine's insertion |
| TimerIndex.AfterCancel | polaris/src/TimerQueue.cc:149-155 | an id found among the active timers names a live object whose entry is in the other set; removing both and freeing it is the machine's cancel |
| TimerIndex.AfterMiss | polaris/src/TimerQueue.cc:156-158 | an id not found, stale ones included, cancels at most that very timer of the current batch and touches no object |
| TimerIndex.InactiveIsPending | polaris/src/TimerQueue.cc:125-143 | between alarms a live timer that is in neither set is one whose insertion is on its way |
| TimerIndex.BatchNames | polaris/src/TimerQueue.cc:191-196 | each entry taken out still refers to the object that was issued with its address |
| TimerIndex.AfterBegin | polaris/src/TimerQueue.cc:180-200 | taking the expired entries out is the machine's start of an alarm |
| TimerIndex.AfterRun | polaris/src/TimerQueue.cc:172-174 | the next timer of the batch is still the live object that was taken out |
| TimerIndex.NextAlive | polaris/src/TimerQueue.cc:205-208 | in reset too: the object is alive, is the same timer, and the cancel set holds its id exactly if it was cancelled in this batch |
| TimerIndex.ResetRestart | polaris/src/TimerQueue.cc:207-210 | putting a repeating timer back with its new expiration keeps objects and sets in step |
| TimerIndex.ResetDelete | polaris/src/TimerQueue.cc:211-214 | freeing a finished or cancelled timer removes exactly that object from what is live |
| TimerIndex.RequeuedNext | polaris/src/TimerQueue.cc:205-215 | one turn of the loop in reset adds exactly the timer put back, one interval after the alarm |
| TimerIndex.ResetEnds | polaris/src/TimerQueue.cc:202-224 | when every timer of the batch has been dealt with, the queue stands for the machine's next state |
| TimerQueues.UpTo | polaris/src/TimerQueue.cc:184-188 | the entries before a sentry, all of them, in set order |
| TimerQueues.ResetTimerfd | polaris/src/TimerQueue.cc:76-96 | the alarm is set for the time asked for, or 100 microseconds from now if that is sooner |
| TimerQueues.TimerQueue.constructor | polaris/src/TimerQueue.cc:104-113 | an empty queue with the alarm off |
| TimerQueues.TimerQueue.NewTimer | polaris/include/polaris/Timer.h:20-25 | a timer with the next sequence number at any free address; the id is good until it is freed |
| TimerQueues.TimerQueue.Insert | polaris/src/TimerQueue.cc:226-252 | the timer enters both sets; the answer is whether it became the earliest |
| TimerQueues.TimerQueue.AddTimer | polaris/src/TimerQueue.cc:125-130 | called in the loop, allocation and insertion are two consecutive steps of the machine |
| TimerQueues.TimerQueue.RunAdd | polaris/src/TimerQueue.cc:125-130 | addTimer at whatever free address the allocator picks, in the loop or from another thread, which leaves the insertion pending; as long as addresses are left the timer is made, and inserted if in the loop; ids given before stay good |
| TimerQueues.RoomIsLeft | polaris/include/polaris/Timer.h:20-25 | an address is free as long as fewer timers have ever been made than there are addresses |
| TimerQueues.TimerQueue.RunQueuedInsertion | polaris/src/TimerQueue.cc:129-143 | the functor queued by another thread inserts its timer, if that is alive and pending, and does nothing else |
| TimerQueues.TimerQueue.InsertAndArm | polaris/src/TimerQueue.cc:138-142 | both sets gain the timer and the alarm is set again exactly if it became the earliest |
| TimerQueues.TimerQueue.AddTimerInLoop | polaris/src/TimerQueue.cc:136-143 | insertion, re-arming exactly if the earliest timer changed |
| TimerQueues.TimerQueue.CancelInLoop | polaris/src/TimerQueue.cc:145-160 | cancels the timer the id was issued for; an id whose address is now another timer's changes nothing in the machine |
| TimerQueues.TimerQueue.EraseAndFree | polaris/src/TimerQueue.cc:149-155 | an active id is that of a live timer; both sets lose it, its object is freed, and that is the machine's cancel |
| TimerQueues.TimerQueue.RememberCancel | polaris/src/TimerQueue.cc:156-158 | an inactive id is remembered only while callbacks run; the machine moves only if the id is that of the timer it was issued for |
| TimerQueues.TimerQueue.GetExpired | polaris/src/TimerQueue.cc:180-200 | returns, in order, all entries up to now and removes exactly these from both sets |
| TimerQueues.TimerQueue.ReadTimerfd | polaris/src/TimerQueue.cc:58-68 | reading consumes an alarm that has fired and nothing else |
| TimerQueues.TimerQueue.Collect | polaris/src/TimerQueue.cc:164-167 | time passes, the alarm is read, and what was due when it began leaves both sets, in set order |
| TimerQueues.TimerQueue.TakeExpired | polaris/src/TimerQueue.cc:162-170 | handleRead up to the first callback is the machine's start of an alarm |
| TimerQueues.TimerQueue.StartCalling | polaris/src/TimerQueue.cc:169-170 | cancels from now on are remembered, and only those |
| TimerQueues.TimerQueue.BeginCallback | polaris/src/TimerQueue.cc:172-174 | the next timer of the batch is alive and the machine moves past it |
| TimerQueues.TimerQueue.RunOps | polaris/src/TimerQueue.cc:125-134 | any sequence of adds, cancels and passing time leaves the batch in flight alone, and each contributes in turn what it asks for |
| TimerQueues.TimerQueue.RunCallback | polaris/src/TimerQueue.cc:172-174 | the object run is alive and is the timer it was when taken out; the callback may add and cancel timers, each of which happens, and the batch is untouched by that |
| TimerQueues.TimerQueue.RunAll | polaris/src/TimerQueue.cc:169-175 | the callback loop gets through the whole batch |
| TimerQueues.TimerQueue.PutBack | polaris/src/TimerQueue.cc:209-210 | a repeating timer re-enters both sets, due one interval after the alarm |
| TimerQueues.TimerQueue.Free | polaris/src/TimerQueue.cc:211-214 | a finished or cancelled timer's object is gone, and nothing live refers to it |
| TimerQueues.TimerQueue.ResetOne | polaris/src/TimerQueue.cc:205-215 | puts one live timer back one interval from the alarm, or frees it; it is not touched again |
| TimerQueues.TimerQueue.RunEntry | polaris/src/TimerQueue.cc:172-174 | one turn of the callback loop moves the machine past one timer and the local vector still names the batch |
| TimerQueues.TimerQueue.Requeue | polaris/src/TimerQueue.cc:205-215 | the loop in reset deals with each timer of the batch once |
| TimerQueues.TimerQueue.ArmNext | polaris/src/TimerQueue.cc:217-223 | the alarm is set for the earliest queued timer if that is a valid time |
| TimerQueues.TimerQueue.Reset | polaris/src/TimerQueue.cc:202-224 | is the machine's end of an alarm |
| TimerQueues.TimerQueue.EndAlarm | polaris/src/TimerQueue.cc:175-177 | the cancel set stops collecting and reset follows |
| TimerQueues.TimerQueue.RunOp | polaris/src/TimerQueue.cc:125-134 | what a callback or another thread asks of the queue is exactly what the machine does, and leaves the batch in flight alone |
| TimerQueues.TimerQueue.HandleRead | polaris/src/TimerQueue.cc:162-178 | from any valid queue and with any callbacks: a run of the machine back to idle whose log grows by exactly the due batch, and in which every callback contributes all it asks for, with both sets, the objects and the numbering in step throughout |
| TimerQueues.TimerQueue.Run | polaris/src/TimerQueue.cc:125-224 | any script of adds, cancels, queued insertions, passing time and alarms with callbacks is a run of the machine to which each contributes exactly what it asks for |
| TimerQueues.Life | polaris/src/TimerQueue.cc:104-224 | a queue from its construction through any such script: no callback was early, a one-shot timer ran at most once, runs of a repeating one belong to alarms at least its interval apart, and with anything queued the timerfd is set early enough for the first entry |
| Connections.PromisedMore | polaris/src/TCPConnection.cc:146-197 | an accepted payload adds itself, whole and last, to what the peer is promised; a faulted or late one adds nothing |
| Connections.Conserved | polaris/src/TCPConnection.cc:157-196 | wherever a payload is cut between kernel and backlog, bytes sent plus backlog grow by the payload, or by nothing if the connection was broken |
| Connections.TCPConnection.constructor | polaris/src/TCPConnection.cc:33-54 | a connecting connection with empty buffers and no interest |
| Connections.TCPConnection.BecomeConnected | polaris/src/TCPConnection.cc:311-314 | connected with read interest, the callback due once |
| Connections.TCPConnection.ConnectEstablished | polaris/src/TCPConnection.cc:309-317 | up once, with read interest, and then exactly what the up callback does |
| Connections.TCPConnection.WriteThrough | polaris/src/TCPConnection.cc:157-180 | with no backlog the payload is offered to the kernel; what was taken, whether the connection is broken, and when completion is announced |
| Connections.TCPConnection.Update | polaris/src/EPollPoller.cc:106-138 | where an update leaves the channel: out of the kernel exactly if it was there and asks for nothing |
| Connections.TCPConnection.Backlog | polaris/src/TCPConnection.cc:183-196 | the rest joins the output buffer, write interest follows, and the high-water notice is sent exactly on crossing the mark |
| Connections.TCPConnection.Offer | polaris/src/TCPConnection.cc:157-196 | both halves: bytes to the wire, bytes to the backlog, notices in order |
| Connections.TCPConnection.SendLive | polaris/src/TCPConnection.cc:146-197 | on a live connection a payload is accepted as a whole or missing as a whole; bytes sent plus backlog stay the concatenation of the accepted payloads |
| Connections.TCPConnection.SendInLoop | polaris/src/TCPConnection.cc:146-197 | the same for any state, with late payloads given up; write interest stays exactly the presence of a backlog |
| Connections.TCPConnection.WhatBecomesOfAPayload | polaris/src/TCPConnection.cc:157-180 | with no backlog the kernel takes what it takes of a payload, EPIPE and ECONNRESET alone break the connection, and completion is announced exactly if all was taken; behind a backlog a payload waits |
| Connections.TCPConnection.WhatMovesOn | polaris/src/TCPConnection.cc:347-358 | a backlog moves on by what the kernel takes of it |
| Connections.TCPConnection.NoticeHighWater | polaris/src/TCPConnection.cc:183-190 | the high-water notice is queued exactly when the mark is reached from below, with the size reached |
| Connections.TCPConnection.Send | polaris/src/TCPConnection.cc:97-115 | only a connected connection takes the payload, as sendInLoop does; in any other state nothing changes |
| Connections.TCPConnection.ShutdownInLoop | polaris/src/TCPConnection.cc:208-214 | half-closes exactly when nothing is being written |
| Connections.TCPConnection.Shutdown | polaris/src/TCPConnection.cc:199-206 | from connected only: half-close now if there is no backlog, else when it drains |
| Connections.TCPConnection.ForceClose | polaris/src/TCPConnection.cc:242-248 | a live connection queues one close, which stays queued until it has closed the connection; otherwise nothing changes |
| Connections.TCPConnection.RunUser | polaris/src/TCPConnection.cc:337-337 | any sequence of sends, shutdowns, force-closes, consumption of input and switching of reading by a callback, on a live connection or a closed one, does what it asks for, each in turn, keeps conservation both ways, the write-interest law and the direction of the state, and closes nothing synchronously; of a closed connection it says what becomes of the channel |
| Connections.TCPConnection.RunOp | polaris/src/TCPConnection.cc:97-307 | each call of the application does exactly what it asks for, in the state the connection is in |
| Connections.TCPConnection.Transmit | polaris/src/TCPConnection.cc:97-115 | a payload sent in the loop is taken by a connected connection only, one queued by another thread always, if only to be given up |
| Connections.EverythingIsSent | polaris/src/TCPConnection.cc:97-115 | a callback that neither shuts down nor closes sends all its messages, in order and nothing else, and what it does not consume stays to be read |
| Connections.TCPConnection.Consume | polaris/include/polaris/Buffer.h:168-174 | the application takes bytes from the front of what was received |
| Connections.TCPConnection.Flush | polaris/src/TCPConnection.cc:351-358 | what the kernel takes leaves the backlog from the front |
| Connections.TCPConnection.FinishWrite | polaris/src/TCPConnection.cc:359-367 | with the backlog empty: write interest off, completion announced, half-close if one is due |
| Connections.TCPConnection.HandleWrite | polaris/src/TCPConnection.cc:347-380 | the backlog moves on; emptying it drops write interest, announces completion and lets a requested half-close through |
| Connections.TCPConnection.HandleClose | polaris/src/TCPConnection.cc:382-394 | the connection is down and its channel asks for nothing but what the down callback, run once, switches on; the kernel then has the channel exactly if it did not have it before, but for that callback; the answer is whether the source's assertion held |
| Connections.TCPConnection.BecomeDown | polaris/src/TCPConnection.cc:385-388 | down, and the channel asks for nothing, which takes it out of the kernel or puts it there |
| Connections.TCPConnection.WhenStillWatched | polaris/src/TCPConnection.cc:382-394 | a connection closed in any way, whose down callback leaves reading alone, is watched by the kernel afterwards if and only if it neither read nor had a backlog |
| Connections.TCPConnection.ForceCloseInLoop | polaris/src/TCPConnection.cc:262-268 | closes a live connection in the same way, leaves a closed one alone |
| Connections.TCPConnection.StartRead | polaris/src/TCPConnection.cc:293-299 | read interest on, also for a connection that has closed, whose channel then asks for events again |
| Connections.TCPConnection.StopRead | polaris/src/TCPConnection.cc:301-307 | read interest off, and with it a closed connection asks for nothing again |
| Connections.TCPConnection.ConnectDestroyed | polaris/src/TCPConnection.cc:319-328 | for every state and every down callback: the channel may be removed if and only if the connection is known to the poller, has no backlog if it is shutting down, does not read if it is shutting down or closed, and its down callback does not leave reading on; then it is out of the poller, and a connected one is down with its callback run once |
| Connections.TCPConnection.GoDown | polaris/src/TCPConnection.cc:321-326 | a connected one goes down, and reads afterwards exactly if its callback says so last |
| Connections.TCPConnection.Receive | polaris/src/TCPConnection.cc:333-333 | exactly the bytes delivered join the input, and the sign of the answer tells data, end of file and error apart |
| Connections.TCPConnection.HandleRead | polaris/src/TCPConnection.cc:330-345 | what was delivered is received and the message callback does what it does with it; end of file closes, and then runs the down callback; errors do neither; the assertion in handleClose holds unless end of file meets a closed connection |
| Connections.TCPConnection.Received | polaris/src/TCPConnection.cc:334-344 | data runs the message callback, end of file closes, an error does nothing |
| Connections.TCPConnection.HandleReadable | polaris/src/Channel.cc:82-84 | the read callback runs exactly for IN, PRI or RDHUP |
| Connections.TCPConnection.HandleReadiness | polaris/src/Channel.cc:82-88 | the read and write half of a dispatch: input moves exactly on a read event, output alone exactly on a write event |
| Connections.TCPConnection.HandleEvent | polaris/src/Channel.cc:62-90 | for every established connection, live or closed, every set of reported events, and every behaviour of the close callback and of the message callback: the assertions hold if and only if a live connection does not get the mix that closes twice, and a closed one neither a hang-up without IN nor end of file; a hang-up without IN leaves it closed; otherwise input is received exactly on a read event, and with none of these output moves exactly on a write event |
| Connections.TCPConnection.HalfCloseIsComplete | polaris/src/TCPConnection.cc:199-214 | before close, a half-closed connection has delivered every accepted byte to the kernel |
| Connections.TCPConnection.InputIsComplete | polaris/src/TCPConnection.cc:330-345 | at all times what the application has taken is a prefix of what the kernel delivered and the input buffer is the rest |
| Connections.TCPConnection.Control | polaris/src/TCPConnection.cc:199-307 | shutdown, force-close and switching of reading, on a closed connection too, move no bytes and keep the laws |
| Connections.TCPConnection.Step | polaris/src/TCPConnection.cc:146-394 | each thing that can happen to a connection in its loop does what it asks for and takes nothing back, and meets the source's assertions if and only if it is not a dispatch or a destruction of the failing kind, on a live connection or on a closed one that the kernel still watches |
| Connections.TCPConnection.RunDispatch | polaris/src/Channel.cc:62-90 | a dispatch comes to a live connection, or to a closed one that the kernel still watches |
| Connections.TCPConnection.RunQueuedClose | polaris/src/TCPConnection.cc:262-268 | a queued close closes a live connection, its down callback running once, and leaves a closed one alone; it runs once for each request, and without a request nothing happens |
| Connections.TCPConnection.RunQueuedDestroy | polaris/src/TCPServer.cc:90-99 | a queued connectDestroyed meets its assertion exactly as stated for it |
| Connections.TCPConnection.Run | polaris/src/TCPConnection.cc:146-394 | over every script of kernel results, callbacks, other threads' payloads and closes, up to an assertion that fails: each event in turn has done what it asks for, accepted payloads are exactly wire plus backlog in order, deliveries exactly taken plus buffered input in order, half-close is complete, callbacks fire at most once each, and a connection whose close was asked for is down when no request is left; and no assertion fails if nobody switches reading and poll does not report the mix that closes twice |
| Connections.DestroyedTooEarly | polaris/src/TCPConnection.cc:319-328 | a call on a connection shutting down that fails the assertion |
| Connections.ClosedTwice | polaris/src/Channel.cc:66-84 | one dispatch, of HUP and PRI at end of file, that runs handleClose twice |
| Connections.HangUpAfterClose | polaris/src/TCPConnection.cc:382-388 | a connection that has stopped reading is closed, the kernel watches it again, and a hang-up closes it once more |
| Connections.ReadsAfter | polaris/src/TCPConnection.cc:289-307 | after any operations a closed connection reads exactly if the last of them about reading says so |
| Connections.DestroyedWhileReading | polaris/src/TCPConnection.cc:293-328 | so does a call on a closed connection that was told to read again |
| Connections.DestroyedReadingAgain | polaris/src/TCPConnection.cc:319-328 | and a call on a connection that is up and whose down callback starts reading |
| Connections.DestroyedQuietly | polaris/src/TCPConnection.cc:319-328 | a call on one shutting down that meets it, because reading was stopped |
| LoopModel.ExactlyOnceInOrder | polaris/src/EventLoop.cc:141-150 | on every interleaving the functors run are a prefix of those pushed, in push order, and what is left is exactly the rest of the batch and the queue |
| LoopModel.NoLostWakeup | polaris/src/EventLoop.cc:96-113 | if the loop is in poll with work queued, the eventfd is readable or a producer is between push and wakeup, unless it is the first poll of a call of loop() and the work is what the loop's thread queued before that call |
| LoopModel.NeverBlocksOnWork | polaris/src/EventLoop.cc:96-150 | without such early pushes there is no exception |
| LoopModel.WhenPollBlocksOnWork | polaris/src/EventLoop.cc:89-150 | in every reachable polling state with work queued, in any call of loop(): nobody has interrupted or is about to interrupt poll if and only if it is the first poll of that call, all that is queued was pushed by the loop's thread before it, the call before left no wakeup, and quit has not been asked of this one |
| LoopModel.FirstPollBlocks | polaris/src/EventLoop.cc:89-98 | what the caller of loop() can check: with work queued, the first poll starts unwoken if and only if all of it was queued by the caller's own thread and no wakeup is left from an earlier call, which is so at the first |
| LoopModel.FirstPollMayBlock | polaris/src/EventLoop.cc:147-149 | for any functor, a run in which the first poll blocks on it |
| LoopModel.NoLostQuit | polaris/src/EventLoop.cc:119-131 | a loop in poll although its flag is set has been woken or is about to be |
| LoopModel.WhenQuitIsHonoured | polaris/src/EventLoop.cc:92-131 | a quit from another thread stays asked for as long as the call of loop() lasts if and only if it did not fall between the stores to looping_ and quit_ |
| LoopModel.QuitEndsTheLoop | polaris/src/EventLoop.cc:96-131 | once the flag is set behind those stores, every schedule has at most the poll under way left before loop() ends |
| LoopModel.QuitMayBeLost | polaris/src/EventLoop.cc:92-93 | for any thread, a run in which its quit falls there and the loop blocks in poll again, with no flag and nobody to wake it |
| LoopModel.FirstCallIsSettled | polaris/src/EventLoop.cc:89-95 | no wakeup is left over at the first call of loop() |
| LoopModel.DrainedWakeupIsHonoured | polaris/src/EventLoop.cc:195-217 | everything pushed before the eventfd is read has run by the time the loop polls again or stops |
| LoopModel.DrainRunsItsBatch | polaris/src/EventLoop.cc:204-217 | one drain runs exactly what was queued at its swap; later pushes wait for the next |
| LoopModel.EarlyStep | polaris/src/EventLoop.cc:141-150 | until the first poll returns every step keeps: if only the loop's thread has pushed, nobody has written the eventfd |
| LoopModel.FifoStep | polaris/src/EventLoop.cc:141-217 | every step keeps pushed = run, then batch, then queue |
| LoopModel.InvStep | polaris/src/EventLoop.cc:89-217 | every step of every thread keeps order, wakeup and quit promises |
| EventLoops.EventLoop.constructor | polaris/src/EventLoop.cc:58-68 | nothing queued, not looping |
| EventLoops.EventLoop.Other | polaris/src/EventLoop.cc:119-150 | another thread's push and wakeup, or quit and wakeup, are separate steps, each doing what it says; before loop() and after it too, where quit only resets the flag |
| EventLoops.EventLoop.OtherPush | polaris/src/EventLoop.cc:141-145 | the push, behind which the thread owes its wakeup |
| EventLoops.EventLoop.OtherQuit | polaris/src/EventLoop.cc:119-126 | the flag is set while the loop runs, and reset otherwise |
| EventLoops.EventLoop.QueueInLoop | polaris/src/EventLoop.cc:141-150 | a push by the loop's thread, before loop(), in a handler or in a functor: the functor is queued once, behind all that is, and the eventfd written exactly when functors are being called |
| EventLoops.EventLoop.PushOwn | polaris/src/EventLoop.cc:142-145 | the push under the mutex |
| EventLoops.EventLoop.Perform | polaris/src/EventLoop.cc:133-150 | any sequence of calls by the loop's thread, with other threads in between, is a run of the machine; each functor queued is pushed, in order, and a quit sets the flag |
| EventLoops.QueuedInOrder | polaris/src/EventLoop.cc:141-150 | while no other thread pushes, exactly the functors queued by the loop's thread are pushed, once each and in order |
| EventLoops.EventLoop.QuitHere | polaris/src/EventLoop.cc:119-131 | quit by the loop's own thread |
| EventLoops.EventLoop.HandleRead | polaris/src/EventLoop.cc:195-202 | reading the eventfd clears it |
| EventLoops.EventLoop.SwapOut | polaris/src/EventLoop.cc:205-211 | the swap takes everything pending and leaves nothing |
| EventLoops.EventLoop.RunOne | polaris/src/EventLoop.cc:213-215 | one functor runs; what it and others push goes to the new queue, in order, and a quit sets the flag |
| EventLoops.EventLoop.RunBatch | polaris/src/EventLoop.cc:213-215 | the loop over the batch runs each of its functors once, in order, and nothing else, and all they queue is pushed |
| EventLoops.EventLoop.DoPendingFunctors | polaris/src/EventLoop.cc:204-217 | runs exactly what was pending when called, in order, for every behaviour of the functors and of other threads, and leaves queued exactly what these pushed |
| EventLoops.EventLoop.Poll | polaris/src/EventLoop.cc:97-99 | poll reports the eventfd exactly if it is readable when poll returns and the event list was not full without it |
| EventLoops.EventLoop.HandleEvents | polaris/src/EventLoop.cc:105-111 | the wakeup handler runs exactly if poll reported it |
| EventLoops.EventLoop.Iterate | polaris/src/EventLoop.cc:96-113 | one iteration, from poll to the next test of quit_, is a run of the machine that runs one batch, all that was queued before included; everything queued in handlers, functors and by other threads is pushed, in order, and a quit in a handler sets the flag |
| EventLoops.EventLoop.TestQuit | polaris/src/EventLoop.cc:96-96 | the loop goes on into poll exactly if the flag is not set |
| EventLoops.EventLoop.TurnOnce | polaris/src/EventLoop.cc:96-114 | a turn that finds the flag set does nothing more; any other is one iteration |
| EventLoops.EventLoop.Begin | polaris/src/EventLoop.cc:89-95 | looping_ is set, other threads may do anything, then quit_ is cleared |
| EventLoops.EventLoop.Turns | polaris/src/EventLoop.cc:96-114 | any number of turns, until the flag is seen: the batches of these turns run one after the other, and exactly what their handlers, functors and other threads push is pushed |
| EventLoops.EventLoop.End | polaris/src/EventLoop.cc:115-117 | other threads may do anything before looping_ is reset |
| EventLoops.EventLoop.Loop | polaris/src/EventLoop.cc:89-117 | loop(), called for the first time or again, is a run of the machine in which every turn until the flag is seen runs its batch, and exactly what happens meanwhile is pushed |
| ByteBuffer.Buffer.constructor | polaris/include/polaris/Buffer.h:31-38 | empty, with 8 bytes to prepend |
| ByteBuffer.Buffer.Swap | polaris/include/polaris/Buffer.h:53-57 | contents change places |
| ByteBuffer.Buffer.RetrieveAll | polaris/include/polaris/Buffer.h:163-166 | empties |
| ByteBuffer.Buffer.Retrieve | polaris/include/polaris/Buffer.h:168-174 | drops the first bytes; indices return to the start when nothing is left |
| ByteBuffer.Buffer.RetrieveAsString | polaris/include/polaris/Buffer.h:196-201 | splits the content |
| ByteBuffer.Buffer.RetrieveAllAsString | polaris/include/polaris/Buffer.h:192-194 | takes the content |
| ByteBuffer.Buffer.Unwrite | polaris/include/polaris/Buffer.h:222-225 | drops the last bytes |
| ByteBuffer.Buffer.HasWritten | polaris/include/polaris/Buffer.h:217-220 | bytes written behind the writer join the content |
| ByteBuffer.Buffer.Slide | polaris/include/polaris/Buffer.h:411-419 | the overlapping copy in place loses nothing, given the source's assertion on the reader index |
| ByteBuffer.Buffer.Grow | polaris/include/polaris/Buffer.h:408-409 | a larger array with the same content |
| ByteBuffer.Buffer.MakeSpace | polaris/include/polaris/Buffer.h:407-421 | room for len with the content unchanged; the assertion before the slide always holds when reached; storage stays within max(initial size + 8, peak content + largest append + 7) |
| ByteBuffer.Buffer.EnsureWritableBytes | polaris/include/polaris/Buffer.h:212-215 | room for len, content unchanged, storage bound kept |
| ByteBuffer.Buffer.CopyBehind | polaris/include/polaris/Buffer.h:229-229 | bytes placed behind the writer leave the content alone |
| ByteBuffer.Buffer.Append | polaris/include/polaris/Buffer.h:227-231 | content grows by the data at its end |
| ByteBuffer.Buffer.Prepend | polaris/include/polaris/Buffer.h:336-341 | content grows by the data at its front |
| ByteBuffer.Buffer.AppendInt | polaris/include/polaris/Buffer.h:247-284 | appends the network-order bytes of any of the eight integer types: byte by byte the digits to base 256 of the value, or of its two's complement, from the most significant down |
| ByteBuffer.Buffer.PrependInt | polaris/include/polaris/Buffer.h:344-379 | prepends the same bytes, the old content intact behind |
| ByteBuffer.Buffer.AppendList | polaris/include/polaris/Buffer.h:247-284 | values appended one after the other lie behind the old content in network order |
| ByteBuffer.Buffer.PeekInt | polaris/include/polaris/Buffer.h:63-120 | whichever value of the type has its encoding at the front of the content, that value is returned |
| ByteBuffer.Buffer.ReadInt | polaris/include/polaris/Buffer.h:288-334 | decodes the first bytes and drops exactly these |
| ByteBuffer.Buffer.ReadNext | polaris/include/polaris/Buffer.h:288-334 | one read takes the first value of a list and leaves what decodes to the others |
| ByteBuffer.Buffer.ReadList | polaris/include/polaris/Buffer.h:288-334 | reads one value of each type and leaves the bytes behind them |
| ByteBuffer.Buffer.ReadBack | polaris/include/polaris/Buffer.h:247-334 | a list appended in front of any bytes is read back as that list, the bytes behind it untouched |
| ByteBuffer.Buffer.FindCRLF | polaris/include/polaris/Buffer.h:134-143 | the first CR LF at or after start, or none exists |
| ByteBuffer.Buffer.Scatter | polaris/src/Buffer.cc:30-42 | readv fills the writable tail before the side buffer |
| ByteBuffer.Buffer.Account | polaris/src/Buffer.cc:45-50 | what fits is counted, what spilled is appended: together exactly the bytes delivered |
| ByteBuffer.Buffer.ReadFd | polaris/src/Buffer.cc:26-53 | content grows by exactly the bytes delivered, in order, spilled or not; the side buffer is used only if offered, and then at most 131071 bytes are read |
| Codec.NumberOfBigEndian | polaris/include/polaris/Buffer.h:247-280 | laying a number out in bytes and reading it back is the identity |
| Codec.BigEndianOfNumber | polaris/include/polaris/Buffer.h:63-120 | and conversely, for any bytes |
| Codec.DecodeEncode | polaris/include/polaris/Buffer.h:63-120 | every value of each signed or unsigned type of 8 to 64 bits survives the trip through network order |
| Codec.DecodesPrefix | polaris/include/polaris/Buffer.h:63-120 | bytes that begin with an encoded value read as that value |
| Codec.EncodeDecode | polaris/include/polaris/Buffer.h:63-120 | every byte string of the type's width is the image of exactly one value |
| Codec.ByteAt | polaris/include/polaris/Buffer.h:247-284 | byte i of an encoded value is its digit to base 256 at that place, from the most significant down, in two's complement if negative |
| Codec.PowersOf256 | polaris/include/polaris/Buffer.h:247-284 | the ranges of the types of 8 to 64 bits |
| Codec.FirstRoundTrip | polaris/include/polaris/Buffer.h:288-334 | reading one value leaves the bytes behind it untouched |
| Codec.ListRoundTrip | polaris/include/polaris/Buffer.h:247-334 | any list of typed values laid out one after the other decodes with the same types to the same list, following bytes untouched |
| Codec.InListOrder | polaris/include/polaris/Buffer.h:247-284 | in a list each value lies behind those before it and in front of those after it |
| HttpSyntax.LineEndStable | app/http/src/HttpContext.cc:61-61 | text arriving behind a complete line does not move the end of that line |
| HttpSyntax.NextMore | app/http/src/HttpContext.cc:59-95 | a turn of the loop that gets somewhere goes the same way with more text behind |
| HttpSyntax.ParseMore | app/http/src/HttpContext.cc:55-97 | parsing a piece and then the rest is parsing the whole |
| HttpSyntax.CutsDoNotMatter | app/http/src/HttpContext.cc:55-97 | however the text is cut, verdict, method, target, version and headers are those of one piece; before a verdict, everything is |
| HttpSyntax.ReadsTarget | app/http/src/HttpContext.cc:31-37 | path and query come back, the query with its question mark |
| HttpSyntax.ReadsVersion | app/http/src/HttpContext.cc:38-48 | both versions are recognised |
| HttpSyntax.ReadsRequestLine | app/http/src/HttpContext.cc:23-52 | a well-formed request line is accepted with all its parts |
| HttpSyntax.Trimmed | app/http/include/http/HttpRequest.h:101-110 | any run of isspace characters around a value is removed and none inside |
| HttpSyntax.Spaces | app/http/include/http/HttpRequest.h:103-108 | what counts as space: tab, line feed, vertical tab, form feed, carriage return and blank |
| HttpSyntax.ReadsField | app/http/src/HttpContext.cc:77-79 | a field line sets that header to the trimmed value |
| HttpSyntax.ReadsFields | app/http/src/HttpContext.cc:74-84 | any list of field lines gives the map with later values over earlier |
| HttpSyntax.ReadsBody | app/http/src/HttpContext.cc:88-94 | the empty line ends the headers and the body is what is buffered |
| HttpSyntax.ParseRender | app/http/src/HttpContext.cc:23-97 | parsing undoes printing for every well-formed request (sections 3 and 5 of RFC 9112), consuming all of it |
| HttpLayouts.CompleteExactly | app/http/src/HttpContext.cc:55-97 | for every text: a fresh parse completes a request if and only if the text is an accepted request line, lines that each have a colon, one that has none, and the body; the request is then made of exactly these parts, later lines of a name over earlier ones |
| HttpLayouts.RejectedExactly | app/http/src/HttpContext.cc:60-72 | for every text: a fresh parse rejects it if and only if its first line is complete and not an accepted request line |
| HttpLayouts.LaidOut | app/http/src/HttpContext.cc:59-95 | whatever text completes a request can be cut up in that way |
| HttpLayouts.Accepts | app/http/src/HttpContext.cc:59-95 | and whatever is laid out in that way completes the request of its parts, consuming all of it |
| HttpLayouts.OneLayout | app/http/src/HttpContext.cc:59-95 | there is only one such way to cut a text |
| HttpLayouts.AcceptedExactly | app/http/src/HttpContext.cc:23-52 | a line is accepted as a request line if and only if it is a known method, a target cut at its first question mark and a known version, one space between |
| HttpLayouts.AcceptedLineHasParts | app/http/src/HttpContext.cc:23-52 | and the request then holds just these parts |
| HttpSyntax.MethodAfterParse | app/http/include/http/HttpRequest.h:37-40 | while parsing succeeds, the method is unset whenever a request line is expected |
| HttpSyntax.AssertionHoldsNext | app/http/include/http/HttpRequest.h:37-40 | the next call meets the assertion if and only if this one succeeded or its first line names no known method |
| HttpSyntax.NextCallMeetsAssertion | app/http/include/http/HttpRequest.h:37-40 | with any text arriving later, the next call meets the assertion if and only if this one succeeded or its first line names no known method |
| HttpSyntax.RejectedAtOnce | app/http/src/HttpContext.cc:62-70 | only a request line is ever rejected, it stays in the buffer, and the request holds what was read of it |
| HttpSyntax.UnsupportedVersionBreaksReuse | app/http/src/HttpContext.cc:38-48 | after any request with an unsupported version, the assertion fails on the next call |
| HttpContexts.SkipSpace | app/http/include/http/HttpRequest.h:103-104 | the first loop of addHeader trims on the left |
| HttpContexts.DropSpace | app/http/include/http/HttpRequest.h:106-108 | the second trims on the right |
| HttpContexts.NextLine | app/http/src/HttpContext.cc:61-63 | the first complete line in the buffer, if any |
| HttpContexts.HttpRequest.SetMethod | app/http/include/http/HttpRequest.h:37-57 | with no method set, as the source asserts: each of the five methods is recognised by its name, and nothing else is |
| HttpContexts.HttpRequest.AddHeader | app/http/include/http/HttpRequest.h:101-110 | changes one header and nothing else |
| HttpContexts.HttpRequest.Swap | app/http/include/http/HttpRequest.h:124-132 | requests change places |
| HttpContexts.HttpContext.ProcessRequestLine | app/http/src/HttpContext.cc:23-52 | request and verdict, also for a rejected line |
| HttpContexts.HttpContext.ProcessTarget | app/http/src/HttpContext.cc:28-49 | target and version, also of a rejected line |
| HttpContexts.HttpContext.ProcessVersion | app/http/src/HttpContext.cc:38-48 | HTTP/1.0 and HTTP/1.1, each as itself, and nothing else |
| HttpContexts.HttpContext.TakeLine | app/http/src/HttpContext.cc:60-84 | what a complete line does in either state |
| HttpContexts.HttpContext.Turn | app/http/src/HttpContext.cc:59-95 | one turn of the loop, on context and buffer |
| HttpContexts.HttpContext.ParseRequest | app/http/src/HttpContext.cc:55-97 | terminates from every state but kGotAll, with the assertion in setMethod met, and leaves context, buffer and verdict as the specification says |
| HttpContexts.HttpContext.Reset | app/http/include/http/HttpContext.h:38-42 | as new |
| HttpServers.OnMessage | app/http/src/HttpServer.cc:52-65 | the answer to one read: 400, a response and whether the connection closes, or nothing; the parser is never entered in kGotAll or kExpectBody; the context is fit for every next read if and only if no line naming a known method was rejected |
| HttpServers.OnRequest | app/http/src/HttpServer.cc:68-83 | a response to the request as parsed, and a context as new; the connection closes if told so, or if it is of version 1.0 and not told to stay |
| HttpServers.WhenItCloses | app/http/src/HttpServer.cc:70-74 | case by case: "close" closes, "Keep-Alive" stays open, and without either a connection of version 1.0 closes and one of version 1.1 does not |
| HttpServers.Fitness | app/http/include/http/HttpRequest.h:37-40 | what a parse leaves can be parsed with anything behind it if and only if the answer was not a refusal of a line naming a known method |
| HttpServers.Read | app/http/src/HttpServer.cc:52-83 | one read: the bytes join what was left over, and the answer is that of the whole |
| HttpServers.Serve | app/http/src/HttpServer.cc:52-83 | the answers to any sequence of reads on one connection are the specified ones, one for each |
| HttpServers.AnsweredInFull | app/http/src/HttpServer.cc:52-83 | a sequence of reads is answered to its end if and only if no read fails the assertion in setMethod |
| HttpServers.FirstAnswer | app/http/src/HttpServer.cc:52-83 | nothing is said before the first verdict, and the first answer is that of this verdict |
| HttpServers.CutsDoNotChangeTheAnswer | app/http/src/HttpServer.cc:52-83 | however a request is cut into reads, the first answer is that to the whole of it: the same refusal, or a response to a request with the same head and the same decision to close |
| HttpResponses.DecimalRoundTrip | app/http/src/HttpResponse.cc:13-21 | printed numbers read back |
| HttpResponses.AppendField | app/http/src/HttpResponse.cc:27-30 | one field line |
| HttpResponses.AppendStatusLine | app/http/src/HttpResponse.cc:12-16 | the status line |
| HttpResponses.AppendFraming | app/http/src/HttpResponse.cc:18-24 | close, or length and keep-alive |
| HttpResponses.AppendHeaders | app/http/src/HttpResponse.cc:26-31 | the custom headers, one line each, in order |
| HttpResponses.AppendBody | app/http/src/HttpResponse.cc:32-34 | the empty line and the body |
| HttpResponses.AppendToBuffer | app/http/src/HttpResponse.cc:11-35 | the whole response behind what the buffer held; in an empty buffer a peer that cuts the status line at its blanks and reads the rest by the rules of this parser gets code, message, headers and body as they were |
| HttpResponses.PrintedReadsBack | app/http/src/HttpResponse.cc:18-34 | a peer reading the printed header section by this parser's rules gets the framing and custom headers and the exact body |
| HttpResponses.HeardAsSaid | app/http/src/HttpResponse.cc:11-35 | the same of the whole text: code, message, headers and body |
| HttpResponses.EndIsTold | app/http/src/HttpResponse.cc:18-24 | the peer hears whether the connection ends with the response, unless a custom header says otherwise |
| HttpResponses.CustomIsTold | app/http/src/HttpResponse.cc:26-31 | and every custom header with the value it was given |
| HttpResponses.LengthIsTold | app/http/src/HttpResponse.cc:20-23 | on a connection that stays open the peer learns the body's length, unless a custom header overrides it |
| Pollers.Channel.constructor | polaris/src/Channel.cc:19-28 | no interest, not registered |
| Pollers.Channel.EnableReading | polaris/include/polaris/Channel.h:64-67 | read interest on, kernel in step, other channels as before |
| Pollers.Channel.DisableReading | polaris/include/polaris/Channel.h:68-71 | read interest off, write interest kept |
| Pollers.Channel.EnableWriting | polaris/include/polaris/Channel.h:72-75 | write interest on, read interest kept |
| Pollers.Channel.DisableWriting | polaris/include/polaris/Channel.h:76-79 | write interest off, read interest kept |
| Pollers.Channel.DisableAll | polaris/include/polaris/Channel.h:80-83 | the mask is empty; a channel the kernel had is out of it, one it did not have is registered for nothing, and still gets hang-ups |
| Pollers.Channel.Update | polaris/src/Channel.cc:57-60 | whatever mask the channel has, the kernel has it afterwards, and index is kDeleted exactly if it was kAdded and the mask is empty |
| Pollers.Channel.Remove | polaris/src/Channel.cc:95-99 | off the table and out of the kernel |
| Pollers.EPollPoller.constructor | polaris/src/EPollPoller.cc:36-43 | nothing registered |
| Pollers.EPollPoller.EpollCtl | polaris/src/EPollPoller.cc:160-180 | adds only what is absent, modifies and deletes only what is present, so no call fails |
| Pollers.EPollPoller.UpdateChannel | polaris/src/EPollPoller.cc:106-139 | the mask the kernel has becomes the channel's; an added channel that asks for nothing is taken out, any other is or becomes kAdded; nothing else changes |
| Pollers.EPollPoller.Register | polaris/src/EPollPoller.cc:111-124 | a new or deleted channel is added, marked kAdded |
| Pollers.EPollPoller.TablesOn | polaris/src/EPollPoller.cc:113-124 | adding a channel keeps table, indices and kernel registrations in agreement |
| Pollers.EPollPoller.MasksOn | polaris/src/EPollPoller.cc:123-124 | and every channel watched for exactly what it asks |
| Pollers.EPollPoller.Reregister | polaris/src/EPollPoller.cc:125-138 | an added channel is modified, or deleted and marked when it wants nothing |
| Pollers.EPollPoller.RemoveChannel | polaris/src/EPollPoller.cc:141-158 | gone from table and kernel, marked kNew |
| Pollers.EPollPoller.FillActiveChannels | polaris/src/EPollPoller.cc:84-104 | exactly the channels of the reported descriptors, each with its events and each the one in the table |
| Pollers.EPollPoller.Poll | polaris/src/EPollPoller.cc:57-82 | the same, and the event list has room to spare afterwards |
| Pollers.EPollPoller.KernelAgrees | polaris/src/EPollPoller.cc:106-158 | in every valid poller, which each operation keeps, a channel is watched for exactly what it asks, and index is kAdded if and only if the kernel has it registered |
| Pollers.Operate | polaris/include/polaris/Channel.h:64-83 | an operation on one channel changes its mask and its index as asked and leaves every other channel alone; a channel that asks for nothing can be removed |
| Pollers.AsAsked | polaris/include/polaris/Channel.h:64-83 | each operation changes the events it names and no others |
| Pollers.Run | polaris/src/EPollPoller.cc:106-158 | after any script of operations on any number of channels the kernel watches each for exactly what its own operations ask, its index is what they make it, and that is kAdded if and only if it is registered |
| Pollers.WatchedForNothing | polaris/src/EPollPoller.cc:106-124 | a channel that has stopped asking and is then told to ask for nothing is registered again, and poll hands it a hang-up |
| Pollers.SilencedTwice | polaris/src/EPollPoller.cc:106-138 | the calls that lead there |
| ServerModel.AssertionsHold | polaris/src/TCPServer.cc:59-99 | in every state that any run reaches before an assertion fails, the next step, a hang-up on a channel registered for nothing included, meets the assertions if and only if it is not a close event on a closed connection: establish comes once and in its own loop, the first close finds the connection live, erase finds one entry, remove finds no interest left and never happens during event handling |
| ServerModel.RunsMeetAssertions | polaris/src/TCPServer.cc:59-99 | of all interleavings exactly those meet every assertion in which no closed connection gets a hang-up |
| ServerModel.WhenClosingIsSafe | polaris/src/TCPConnection.cc:382-394 | in every reachable state, closing a live connection, by an event or a queued close, is followed by no second close in any continuation if and only if its channel asks for something at that moment |
| ServerModel.InterestedRunsMeetAssertions | polaris/src/TCPServer.cc:59-99 | all interleavings in which closes find interest meet every assertion |
| ServerModel.HangUpAfterClose | polaris/src/TCPConnection.cc:242-268 | a run from the start at whose end a hang-up fails the assertion |
| ServerModel.SilentForever | polaris/src/TCPConnection.cc:382-394 | a closed connection the kernel does not have stays so |
| ServerModel.EverythingOnce | polaris/src/TCPConnection.cc:309-328 | on any run up to a failing assertion, callbacks for up and down, handleClose and connectDestroyed each ran as often as the state says, at most once |
| ServerModel.OnlyForward | polaris/src/TCPConnection.cc:309-394 | no run takes a connection back to an earlier state |
| ServerModel.MapIsExact | polaris/src/TCPServer.cc:90-99 | the map holds a connection if and only if it is not closed or its removal is still queued |
| ServerModel.QuietMeansClean | polaris/src/TCPServer.cc:85-99 | with nothing queued, closed connections are erased and destroyed exactly once, all others are up and in the map |
| ServerModel.AcceptedIsMapped | polaris/src/TCPServer.cc:59-83 | an accepted connection is in the map under a new name and comes up on its loop, at once or in a drain there |
| ServerModel.EstablishedIsUp | polaris/src/TCPConnection.cc:309-317 | established, it is up, told so once, and reads |
| ServerModel.ClosedIsRemoved | polaris/src/TCPConnection.cc:382-394 | a connection that closes is down, told so once, and asks for nothing; it leaves the map at once or its removal is queued on the acceptor's loop |
| ServerModel.RemovedIsDestroyed | polaris/src/TCPServer.cc:90-99 | the removal erases it and has it destroyed on its own loop |
| ServerModel.DestroyedIsGone | polaris/src/TCPConnection.cc:319-328 | on every run, destroying it removes its channel and touches nothing else |
| ServerModel.CloseIsQueued | polaris/src/TCPConnection.cc:242-248 | a close asked for is queued on the connection's loop exactly if the connection is live |
| ServerModel.AssertedStep | polaris/src/TCPServer.cc:90-96 | the invariant implies all of the source's assertions at every step but a close event on a closed connection, at which handleClose fails |
| ServerModel.InvStep | polaris/src/TCPServer.cc:59-99 | every step that meets the assertions keeps each connection's one ticket: establish, remove or destroy, never two; and that the kernel has a live connection's channel exactly if it asks for something |
| ServerModel.HoldsTheTicket | polaris/src/TCPServer.cc:90-99 | connectDestroyed is called on closed connections only, not destroyed before, in a drain of their loop |
| Servers.TCPServer.constructor | polaris/src/TCPServer.cc:27-27 | no connections, counter at 1 |
| Servers.TCPServer.NewConnection | polaris/src/TCPServer.cc:59-83 | a new name in the map and connectEstablished run or queued on its loop |
| Servers.TCPServer.CreateConnection | polaris/src/TCPServer.cc:62-80 | a connection under a name not used before, connecting, on the loop chosen, in the map |
| Servers.TCPServer.RemoveConnection | polaris/src/TCPServer.cc:85-88 | at once on the acceptor's loop, else queued there |
| Servers.TCPServer.RemoveConnectionInLoop | polaris/src/TCPServer.cc:90-99 | erases an entry that is there and always queues connectDestroyed |
| Servers.TCPServer.HandleClose | polaris/src/TCPConnection.cc:382-394 | down once, then removal; a second call is told apart by its assertion |
| Servers.TCPServer.GoDown | polaris/src/TCPConnection.cc:385-390 | closed and asking for nothing; the kernel forgets the channel, or gets it back if it did not have it |
| Servers.TCPServer.SetInterest | polaris/include/polaris/Channel.h:64-83 | a live connection's channel gains or loses interest |
| Servers.TCPServer.ForceClose | polaris/src/TCPConnection.cc:242-248 | a live connection queues a close on its loop |
| Servers.TCPServer.SetState | polaris/include/polaris/TCPConnection.h:174-174 | the state changes and nothing else |
| Servers.TCPServer.ConnectDestroyed | polaris/src/TCPConnection.cc:319-328 | removes a channel without interest, in a drain of its loop |
| Servers.TCPServer.RunTask | polaris/src/EventLoop.cc:213-215 | a queued functor does what the machine says |
| Servers.TCPServer.Run | polaris/src/TCPServer.cc:59-99 | any interleaving of the loops whatever is carried out up to the first assertion that fails; none fails exactly on the runs the machine says, and then it ends where the machine does |
| Servers.TCPServer.DoStep | polaris/src/EventLoop.cc:96-113 | each step is done and its assertions hold exactly as the machine says |
| ConnectorModel.AssertionsHold | polaris/src/Connector.cc:113-115 | on every run in which no wanted retry timer overtakes the deferred reset with an attempt that does not fail at once: the channel is null each time connecting starts, startInLoop begins disconnected, an event of a watched channel finds its attempt under way, and never two retries are pending |
| ConnectorModel.WhenAssertionsHold | polaris/src/Connector.cc:127-137 | the next step after such a run meets the assertions if and only if it is not a retry timer firing while wanted, with the reset still queued, whose connect(2) does not fail at once |
| ConnectorModel.RunsMeetAssertions | polaris/src/Connector.cc:113-189 | of all runs, with no assumption on the timer, exactly those meet every assertion in which no wanted timer overtakes the reset with an attempt that does not fail at once |
| ConnectorModel.PatientRunsMeetAssertions | polaris/src/Connector.cc:176-184 | no timer firing in the event phase that set it is sufficient for that |
| ConnectorModel.EarlyTimerBreaksAssertion | polaris/src/Connector.cc:176-184 | a run from the start at whose end an early timer fails the assertion |
| ConnectorModel.EarlyTimerMayBeHarmless | polaris/src/Connector.cc:176-184 | a run with as early a timer whose attempt fails at once, and which meets every assertion |
| ConnectorModel.FailsAtOnceInv | polaris/src/Connector.cc:64-103 | an attempt that fails at once keeps the invariant with the reset still queued |
| ConnectorModel.SocketsAccounted | polaris/src/Connector.cc:64-189 | every socket created is closed once, handed over once, or held while connecting: exactly one of these |
| ConnectorModel.AttemptEnds | polaris/src/Connector.cc:139-189 | on every run, an event on the socket under way hands it over if and only if it is writable without an error of either kind and still wanted; an error closes it and sets a timer exactly if a connection is wanted; a good socket nobody wants is closed; and the channel is given up in each case |
| ConnectorModel.AttemptGoesOn | polaris/src/Connector.cc:113-125 | an attempt under way holds its new socket and watches it |
| ConnectorModel.AttemptIsPutOff | polaris/src/Connector.cc:76-82 | one worth another try closes its socket, and a timer is set exactly if a connection is wanted |
| ConnectorModel.AttemptIsHopeless | polaris/src/Connector.cc:84-101 | a hopeless one closes its socket and is not tried again |
| ConnectorModel.TimerTries | polaris/src/Connector.cc:38-46 | a timer starts an attempt exactly if a connection is still wanted |
| ConnectorModel.ClosingStartsOver | polaris/src/Connector.cc:105-111 | after its connection closes a client that wants another starts over at once and with the first delay |
| ConnectorModel.QueuedCloseRuns | polaris/src/TCPClient.cc:139-155 | a close asked for comes about in the drain after it, unless the connection has closed meanwhile |
| ConnectorModel.StopEndsTheAttempt | polaris/src/Connector.cc:55-62 | on every run the queued stop closes the socket of an attempt under way, sets no timer, and does nothing otherwise |
| ConnectorModel.StartConnects | polaris/src/Connector.cc:32-36 | in the loop a start attempts a connection at once, elsewhere it is queued |
| ConnectorModel.StopIsQueued | polaris/src/Connector.cc:48-53 | stop wants nothing more and queues the rest |
| ConnectorModel.DelaysDouble | polaris/src/Connector.cc:180-185 | since the last restart the k-th delay is min(500 * 2^k, 30000) ms |
| ConnectorModel.KeepsTrying | polaris/src/Connector.cc:38-46 | a started connector that nobody stopped and whose attempt did not end for good is connected, connecting, or has a retry or start pending |
| ConnectorModel.StopIsFinal | polaris/src/Connector.cc:48-53 | after stop no socket is created or handed over any more, although a pending retry timer is not cancelled |
| ConnectorModel.StopCleansUp | polaris/src/Connector.cc:55-62 | once stopInLoop has run every socket not handed over is closed |
| ConnectorModel.InvStep | polaris/src/Connector.cc:32-189 | every step keeps ledger, delays, the order of the deferred reset, and that something is pending while wanted |
| ConnectorModel.AttemptFails | polaris/src/Connector.cc:166-189 | a failed attempt closes its socket, defers the reset, and schedules a retry only if wanted |
| ConnectorModel.ConnectInv | polaris/src/Connector.cc:64-103 | from any state in which the source may call connect(2), each of its results keeps the invariant |
| Connectors.Connector.constructor | polaris/src/Connector.cc:18-25 | disconnected, first delay 500 ms |
| Connectors.Connector.Start | polaris/src/Connector.cc:32-36 | at once in the loop, else queued |
| Connectors.Connector.StartInLoop | polaris/src/Connector.cc:38-46 | connects if still wanted; its assertion is its precondition, and that of connecting only if connect(2) does not fail at once |
| Connectors.Connector.Stop | polaris/src/Connector.cc:48-53 | no longer wanted, stopInLoop queued |
| Connectors.Connector.StopInLoop | polaris/src/Connector.cc:55-62 | gives up an attempt under way |
| Connectors.Connector.TryConnect | polaris/src/Connector.cc:64-103 | connecting, retry or close, by the result; a used channel matters only to connecting |
| Connectors.Connector.Restart | polaris/src/Connector.cc:105-111 | first delay again, wanted again, and a new attempt |
| Connectors.Connector.StartConnecting | polaris/src/Connector.cc:113-125 | a channel on the new socket; the assertion is its precondition |
| Connectors.Connector.RemoveAndResetChannel | polaris/src/Connector.cc:127-135 | the channel stays until the queued reset |
| Connectors.Connector.HandleWrite | polaris/src/Connector.cc:139-164 | a socket error or a self-connect leads back to disconnected with nothing handed over; otherwise the socket is handed over, or closed if nobody wants it |
| Connectors.Connector.HandleError | polaris/src/Connector.cc:166-174 | an attempt under way is retried |
| Connectors.Connector.Retry | polaris/src/Connector.cc:176-189 | closes the socket; schedules and doubles if wanted |
| Connectors.Connector.RunAfter | polaris/src/Connector.cc:180-184 | a timer is set for startInLoop, with its delay recorded |
| Connectors.Connector.RemoveConnection | polaris/src/TCPClient.cc:139-155 | the client restarts the connector if it wants another connection |
| Connectors.Connector.Run | polaris/src/Connector.cc:32-189 | any run in which no wanted timer overtakes the reset with an attempt that does not fail at once is carried out with every assertion met, ending where the machine does |

## Left out

- System calls are replaced by parameters; wall clock and timer clock are one clock, in whole microseconds, and `addTime` is addition without its floating-point rounding.
- The order of events within one `epoll_wait` result, which is arbitrary here, and spurious failures of `timerfd_settime`, `epoll_ctl` and eventfd reads, which the source only logs.
- `Sockets.cc`, `InetAddress`, `Acceptor` with its idle descriptor, thread pools and the loop-thread handshake: an arbitrary loop is chosen for each connection.
- Logging, names, contexts and `receiveTime`.
- Destructors: those of the loop, the timer queue (which frees what is queued), the server and the client; the server here outlives its connections.
- `Timer::s_numCreated_` counts across all queues of the process; here each queue numbers its own timers.
- The ordered sets of the timer queue are sets walked in their order by (expiration, address); their tree is not modelled.
- `shutdown` and `forceClose` test and set the state in one step of the loop's thread; the race in calling them from other threads is not modelled, nor is `forceCloseWithDelay`.
- Connections.TCPConnection.StartRead: not before the connection is established, when only the server holds it.
- Connections.TCPConnection.StopRead: not before the connection is established, when only the server holds it.
- Weak and shared pointers: a connection lives as long as something queued refers to it, and `tie` always succeeds.
- The error callback of a connection, which only logs.
- In the server machine a connection is reduced to its lifecycle; bytes are in the connection class, which also covers a closed connection that is told to read again, and queued functors are a bag, so that any order is covered.
- `Connection` callbacks may send, shut down, force-close, consume input and switch reading; reconfiguring the connection's callbacks from inside them is not modelled.
- `quit` from another thread tests `looping_` and stores `quit_` in one step, so a quit that sees `looping_` on one side of a store in `loop` and acts on the other is not modelled.
- `runAfter` and its relatives, `abortNotInLoopThread`, eventfd overflow and the 10-second poll timeout (a timeout is a poll that returns nothing).
- Connectors.Connector.Start: called once, and not after `stop`, although the source allows both.
- A `stop` of the connector from another thread falls between, not inside, the loop's steps, so the race of `stop` with `restart` is not modelled.
- `TCPClient` beyond its `removeConnection` and its wish for another connection.
- `Buffer::shrink`, `findEOL`, `retrieveUntil` and `toStringPiece`, which would add only easy members.
- Integer widths of buffer indices and of the connection counter: both are unbounded.
- HTTP pipelining and `Content-Length` of requests, which the source does not implement; `methodString`; user handlers (`httpCallback_`) and the status codes they set.
- `app.cc`, the CDN main program, databases and files.
