# Order-book server: a verified model

This project models the stateful server side of an order-book service and proves what its step-by-step updates keep
over all runs.

| file | part |
|---|---|
| `common.dfy` | 64-bit words with wrap-around, orders, optional values |
| `session.dfy` | one TCP session: write queue, disconnect protocol, the strand's handlers in any order |
| `hello_parser.dfy` | the HELLO frame: grammar, byte parser, decimal text |
| `client_side.dfy`, `order_list.dfy` | a client's own orders: the specification, and the linked list with stored iterators |
| `registry.dfy`, `client_list.dfy` | clients and the reverse session index: the specification, and the objects |
| `tcp_server.dfy` | sessions, strands and registry together: the HELLO/reconnect protocol |
| `server_liveness.dfy` | which clients are left on dead sessions, and what session ownership rules out |
| `book_spec.dfy`, `order_book.dfy` | one side of the book as a map; the three-index object; market-data updates |
| `book_steps.dfy` | one side under concurrent writers and readers, one statement per step |
| `update_steps.dfy` | updates over both sides under concurrent writers, in one sequence of commits |
| `book_overlap.dfy`, `overlap_runs.dfy` | which commands may overlap a reader without tearing its report |
| `command_queue.dfy`, `broadcaster.dfy` | the absorbing queue, and the pipeline from enqueue to session |
| `dom_manager.dfy` | the periodic broadcast timer |
| `wire.dfy` | binary encoding, decoding and framing |

Each part has a specification in values (a state, one function per handler, runs of events), theorems about all runs,
and, where the program updates objects, a class whose methods are proved to take the specified steps.

What the model assumes of the surroundings: a strand runs one handler at a time; calls into a strand from inside it run
at once, others wait in order; every asynchronous operation completes at most once, with success or an error; a
cancelled wait completes as aborted unless its success is already queued; the io context has one thread. Sockets, clocks
and completion orders are otherwise arbitrary events. The disconnect callback of the server makes no calls on sessions,
and such calls would do nothing (`SessionProtocol.NothingAfterDisconnect`).

Where the code and its documentation disagree:

- `get_session` throws on an unknown id (src/client_list/client_list.cpp:102-103); its header promises a null session
  (src/client_list/client_list.h:41-46), on which `HandleMessage` relies. The server model uses the documented answer;
  `TcpServers.AsCodedNobodyRegisters` says what the code does instead.
- `push` clears the queue for every command without a client id, market-data updates included
  (src/snapshots_broadcaster/command_queue.h:119-120); the comment above and the design note exempt them. The model
  follows the code; `CommandQueues.PushAsDocumentedIff` says when the two agree, `CommandQueues.UpdateAbsorbsSnapshot`
  gives an input on which they do not.
- `unsubscribe` clears the flag on a copy (src/client_list/client_list.cpp:218-219). The model follows the code;
  `Registries.UnsubscribeAsDocumentedIff` says when that is what is documented, `Registries.SubscriptionIsForever` what
  it leads to.
- Handlers hold sessions weakly (src/TCP_server/session.cpp:15, 24, 45, 80, 115), so the registry alone owns them, and
  `DoAccept` discards the session that `OnAccept` returns (src/TCP_server/tcpserver.cpp:44-45): as coded an accepted
  session has no owner before its first HELLO, and `ServerLiveness.AsCodedOnlyAccepts` says what follows. The server
  model keeps every accepted session, as the handshake needs. A session released later could take no step that matters
  except a HELLO (`ServerLiveness.ReleasedSessionsOnlyGreet`); on the sessions that clients have, which are owned, only
  `ServerLiveness.Abandons` loses a client (`ServerLiveness.OwnedGreetingsOnlyAbandon`). `WriteErrorThenHello` and
  `StopThenHello` are stated for sessions that a client still has in between.

Properties one might expect that the code does not have, each with the exact condition under which it holds:
`Registries.CompleteIffNotBoundTwice`, `ServerLiveness.ClientsStayLiveIff`, `ClientSides.AddConsistentIffFresh`,
`DomManagers.ParametersCurrentIff`, `OrderBooks.ReportIsExact`, `Wire.SnapshotReencodes`, `Wire.UpdateReencodes`,
`HelloParser.HelloRoundTrip`, `BookOverlap.OverlapExactIffHarmless`, `OverlapRuns.SequenceExactIffHarmless`,
`UpdateSteps.TopsOfOneVersionIff`, `CommandQueues.PushAsDocumentedIff`, `Registries.UnsubscribeAsDocumentedIff`,
`TcpServers.AsCodedIffKnown`.

`dafny verify dfyconfig.toml` checks the project.

## Model

| member | source | states |
|---|---|---|
| SessionProtocol.WriterDiscipline | src/TCP_server/session.cpp:78-145 | in every order of handlers: at most one async_write outstanding; while connected, outstanding write, write_in_progress_ and non-empty queue coincide and the write is of the queue's front, and exactly one read is outstanding once started; disconnected implies socket closed or queue empty |
| SessionProtocol.InOrderDelivery | src/TCP_server/session.cpp:78-145 | messages completed, started and accepted are nested prefixes of all messages sent, read-callback sends included; at most one started write is uncompleted; while connected, completed messages followed by the queue are everything sent |
| SessionProtocol.NothingAfterDisconnect | src/TCP_server/session.cpp:23-158 | from disconnect on, no handler accepts a message, starts a write or calls the callback again, and the session stays disconnected |
| SessionProtocol.DisconnectReportedOnce | src/TCP_server/session.cpp:23-158 | the socket is closed exactly if a Stop took effect; closed implies disconnected; the disconnect callback ran once exactly if the session disconnected without Stop, otherwise never |
| SessionProtocol.QueueNeverStalls | src/TCP_server/session.cpp:103-145 | from any connected reachable state, letting as many writes succeed as there are queued messages is possible and completes everything sent |
| SessionProtocol.StepKeepsInv | src/TCP_server/session.cpp:23-158 | every handler keeps the inductive invariant tying queue, flags, outstanding operations and histories |
| SessionProtocol.RunAccepts | src/TCP_server/session.cpp:59-92 | over any run, accepted messages extend the earlier ones by a prefix of those sent meanwhile, by all of them unless the session disconnected |
| SessionProtocol.Session.StartSession | src/TCP_server/session.cpp:14-21 | starting marks the session as reading and performs the first Read |
| SessionProtocol.Session.StopSession | src/TCP_server/session.cpp:23-37 | Stop disconnects and closes once; afterwards and after any disconnect it does nothing |
| SessionProtocol.Session.Read | src/TCP_server/session.cpp:39-57 | arms one more read, or reports the disconnect on a closed socket |
| SessionProtocol.Session.ProcessRead | src/TCP_server/session.cpp:59-76 | an error reports the disconnect; a frame runs the callback's calls in order, then reads again |
| SessionProtocol.Session.SendMsg | src/TCP_server/session.cpp:78-92 | queues the message unless disconnected or closed, and starts writing if no write is in progress |
| SessionProtocol.Session.Write | src/TCP_server/session.cpp:103-126 | starts writing the queue's front; clears the flag on an empty queue; reports the disconnect on a closed socket |
| SessionProtocol.Session.ProcessWrite | src/TCP_server/session.cpp:128-145 | retires the write; success pops the front and writes on, error reports the disconnect |
| SessionProtocol.Session.NotifyDisconnectOnce | src/TCP_server/session.cpp:147-158 | the first call disconnects, clears flag and queue and runs the callback; later calls change nothing |
| HelloParser.ParseClientId | src/TCP_server/tcpserver.cpp:131-168 | equals the grammar's answer for every byte frame: the decimal value modulo 2^64 if the frame is a HELLO, else 0 |
| HelloParser.Trim | src/TCP_server/tcpserver.cpp:135-145 | finds the bounds of the frame without leading spaces and trailing spaces, CRs and LFs |
| HelloParser.ParseDigits | src/TCP_server/tcpserver.cpp:159-167 | succeeds exactly on all-digit ranges, with their decimal value in wrapping 64-bit arithmetic |
| HelloParser.HelloUnique | src/TCP_server/tcpserver.cpp:131-168 | the grammar is unambiguous: a frame announces at most one digit string |
| HelloParser.ClientIdOfHello | src/TCP_server/tcpserver.cpp:131-168 | a frame of the grammar is read as its digits' value modulo 2^64 |
| HelloParser.NotHello | src/TCP_server/tcpserver.cpp:143-164 | a frame whose trimmed core is not HELLO, a space and digits is read as 0 |
| HelloParser.HelloRoundTrip | src/TCP_server/tcpserver.cpp:93-168 | a HELLO carrying the decimal text of n is read as n modulo 2^64, which is n exactly for n below 2^64 |
| HelloParser.RejectedFrames | src/TCP_server/tcpserver.cpp:75-81 | id 0, the error reply, is given exactly to frames outside the grammar and to multiples of 2^64 |
| HelloParser.SpelledFramesAreRead | src/TCP_server/tcpserver.cpp:131-168 | byte by byte: spaces, 72 69 76 76 79 32, bytes 48 to 57, then any mix of 32, 13 and 10 is read as the digits' value modulo 2^64, and every other frame as 0 |
| HelloParser.DigitsInDecimal | src/TCP_server/tcpserver.cpp:159-167 | the value of a digit string is decimal: a further digit d makes it ten times the value plus d - 48 |
| BookSpec.BeforeIsStrictTotal | src/bid_ask_book/bid_ask_book.h:46-58 | both comparators are strict total orders on orders with distinct ids |
| BookSpec.CommandsSpelledOut | src/bid_ask_book/bid_ask_book.cpp:10-140 | every order with non-zero price and quantity and a new id is entered, every such replacement under one resting id is made, a cancel removes that id alone; anything else changes nothing |
| BookSpec.RestsIffEnteredLast | src/bid_ask_book/bid_ask_book.cpp:10-140 | after any log an order rests exactly if some command entered it, with non-zero price and quantity and its id free or replaced, and no later command displaced it |
| BookSpec.BestIffFirst | src/bid_ask_book/bid_ask_book.h:46-58 | an order is the best exactly if its price is the side's extremum, its quantity the largest at that price, and its id the smallest among those |
| BookSpec.SortedListingUnique | src/bid_ask_book/bid_ask_book.cpp:177-197 | the priority listing, and with it the best order, is determined by the id-to-order map alone |
| BookSpec.HeadIsBest | src/bid_ask_book/bid_ask_book.cpp:177-197 | the front of the priority index comes before every other resting order |
| BookSpec.ReplayKeepsKeys | src/bid_ask_book/bid_ask_book.cpp:10-140 | after any log, every resting order is stored under its own id and has non-zero price and quantity |
| BookSpec.ReplayPerId | src/bid_ask_book/bid_ask_book.cpp:20-140 | after any log, what rests under an id is the fold of only those commands that name it |
| BookSpec.SameSublogsSameBook | src/bid_ask_book/bid_ask_book.cpp:20-140 | logs that agree per id, i.e. differ by commuting commands on different ids, give the same book |
| BookSpec.ReplaceIsCancelThenNew | src/bid_ask_book/bid_ask_book.cpp:80-140 | replacing a resting order by an acceptable one is cancelling it and entering the new one |
| BookSpec.NewThenCancel | src/bid_ask_book/bid_ask_book.cpp:20-78 | entering an order and cancelling it restores the book exactly if its id was not resting |
| BookSpec.ApplyMovesSum | src/bid_ask_book/bid_ask_book.cpp:25-140 | how each command moves the true sum of resting quantities |
| BookSpec.LevelsPartition | src/bid_ask_book/bid_ask_book.cpp:228-262 | the true quantities of the distinct price levels, before wrapping, add up to the true sum of the whole side |
| OrderBooks.InsertKeepsIndexes | src/bid_ask_book/bid_ask_book.h:60-75 | inserting at the right places keeps the three indexes holding the same orders, each in its order |
| OrderBooks.RemoveKeepsIndexes | src/bid_ask_book/bid_ask_book.h:60-75 | so does unlinking an order from all three |
| OrderBooks.TotalFollows | src/bid_ask_book/bid_ask_book.cpp:20-140 | wrapping the total by the command's change gives the new sum modulo 2^64 |
| OrderBooks.ReplacedTotal | src/bid_ask_book/bid_ask_book.cpp:98-99 | the two wrapping updates of a replacement leave the new sum modulo 2^64 |
| OrderBooks.RangeIsLevel | src/bid_ask_book/bid_ask_book.cpp:235-241 | the equal_range of a price is exactly the orders of the whole side at that price, with their quantity sum |
| OrderBooks.OrderSide.NewOrder | src/bid_ask_book/bid_ask_book.cpp:20-50 | keeps the three indexes and the total in agreement; enters the order exactly if price and quantity are non-zero and the id is not resting, else changes nothing |
| OrderBooks.OrderSide.CancelOrder | src/bid_ask_book/bid_ask_book.cpp:52-78 | keeps the agreement; removes exactly the order under the id, if any |
| OrderBooks.OrderSide.ReplaceOrder | src/bid_ask_book/bid_ask_book.cpp:80-140 | keeps the agreement; puts the new order under the id exactly if its price and quantity are non-zero, the ids are equal and rest, else changes nothing |
| OrderBooks.OrderSide.Reposition | src/bid_ask_book/bid_ask_book.cpp:101-104 | modify re-positions the order so that both ordered indexes stay sorted |
| OrderBooks.OrderSide.Best | src/bid_ask_book/bid_ask_book.cpp:177-197 | the best order of a non-empty side, the all-zero order of an empty one |
| OrderBooks.OrderSide.PriceInfo | src/bid_ask_book/bid_ask_book.cpp:228-242 | exactly the ids resting at the price, each once, and their quantity sum modulo 2^64 |
| OrderBooks.ReportedLevelsGiveTotal | src/bid_ask_book/bid_ask_book.cpp:228-262 | the quantities the price queries report for the distinct resting prices, wrapped as they are, add up in 64-bit arithmetic to the maintained total |
| OrderBooks.OrderSide.Serve | src/bid_ask_book/bid_ask_book.cpp:20-140 | one command changes the book as its specification says and keeps the indexes and the total in agreement |
| OrderBooks.OrderSide.ServeAll | src/bid_ask_book/bid_ask_book.cpp:20-140 | so the object, after any log of commands, holds exactly the replay of the log |
| OrderBooks.OrderBook.NewBid | src/bid_ask_book/bid_ask_book.cpp:20-34 | enters the order among the bids exactly if price and quantity are non-zero and the id is not resting there, and leaves the asks alone |
| OrderBooks.OrderBook.NewAsk | src/bid_ask_book/bid_ask_book.cpp:36-50 | enters the order among the asks exactly if price and quantity are non-zero and the id is not resting there, and leaves the bids alone |
| OrderBooks.OrderBook.CancelBid | src/bid_ask_book/bid_ask_book.cpp:52-64 | changes the bids as the Cancel command says and leaves the asks alone |
| OrderBooks.OrderBook.CancelAsk | src/bid_ask_book/bid_ask_book.cpp:66-78 | changes the asks as the Cancel command says and leaves the bids alone |
| OrderBooks.OrderBook.ReplaceBid | src/bid_ask_book/bid_ask_book.cpp:80-109 | replaces among the bids exactly if the new price and quantity are non-zero and both ids are the same resting one, and leaves the asks alone |
| OrderBooks.OrderBook.ReplaceAsk | src/bid_ask_book/bid_ask_book.cpp:111-140 | replaces among the asks exactly if the new price and quantity are non-zero and both ids are the same resting one, and leaves the bids alone |
| OrderBooks.OrderBook.GenerateMDUpdate | src/bid_ask_book/bid_ask_book.cpp:199-219 | without a concurrent writer: nothing exactly if both sides are empty, else for each side the extremal price (0 if empty), the full level quantity there and the side's total, both modulo 2^64 |
| OrderBooks.ReportIsExact | src/bid_ask_book/bid_ask_book.cpp:199-219 | total and level quantity are the true sums exactly if these are below 2^64; a side below 2^64 has 0 < best quantity <= total |
| OrderBooks.ReportCanWrapToZero | src/bid_ask_book/bid_ask_book.cpp:29 | beyond that, a non-empty side can be reported with level and total 0 |
| BookSteps.TotalTracksSum | src/bid_ask_book/bid_ask_book.cpp:20-140 | under every interleaving: total plus the in-flight writer's pending adjustment is the sum of resting quantities modulo 2^64; with the mutex free the total is that sum and the book is the replay of the commands in commit order |
| BookSteps.ReadersSeeCommittedVersions | src/bid_ask_book/bid_ask_book.cpp:199-219 | a concurrent update's price, level and total come from committed versions in commit order; the unlocked load returns the sum before or after the command in flight or a replacement's halfway value |
| BookSteps.EmptyOrderMeansEmptySide | src/bid_ask_book/bid_ask_book.cpp:199-208 | a concurrent reader finds the all-zero order exactly if the committed version it read was empty, so nothing is returned exactly if each side was empty when read |
| BookSteps.UndisturbedReaderIsExact | src/bid_ask_book/bid_ask_book.cpp:199-219 | a reader no writer overlapped reports one committed version exactly, whatever ran before and after |
| BookSteps.DisturbedReaderCanTear | src/bid_ask_book/bid_ask_book.cpp:199-219 | a reachable run in which a cancelled bid leaves a best price with an empty level |
| BookSteps.PendingBalances | src/bid_ask_book/bid_ask_book.cpp:27-104 | at each statement of each critical section, total and pending adjustment balance the book |
| BookSteps.StepKeepsInv | src/bid_ask_book/bid_ask_book.cpp:20-219 | every step of writers and readers keeps the invariant |
| BookOverlap.OverlapExactIffHarmless | src/bid_ask_book/bid_ask_book.cpp:199-219 | in any reachable state where a reader has just read its best price: every interleaving of one command with the rest of the read reports the side before or after the command if and only if the command misses, or enters or cancels an order strictly behind that price |
| BookOverlap.HarmlessIsExact | src/bid_ask_book/bid_ask_book.cpp:199-219 | then whatever level and total the reader can see, of any statement of the command, belong to one version |
| BookOverlap.HarmfulTears | src/bid_ask_book/bid_ask_book.cpp:199-219 | any other command has a statement at which the old level and the loaded total fit neither version; for a replacement it is the halfway total |
| BookOverlap.OverlapPlaces | src/bid_ask_book/bid_ask_book.cpp:20-219 | whatever the interleaving, the reader sees the old level with the total at some statement of the command, or the new level with the new total |
| BookOverlap.RealizePlacement | src/bid_ask_book/bid_ask_book.cpp:20-219 | and each of those statements is reached by a run |
| OverlapRuns.HarmlessOverlapsAreExact | src/bid_ask_book/bid_ask_book.cpp:199-219 | in every interleaving of any number of writers and readers: a reader that met only harmless commands, committed between its reads or in flight at its load, reports the version at its load, or that version with the command in flight |
| OverlapRuns.SequenceExactIffHarmless | src/bid_ask_book/bid_ask_book.cpp:199-219 | any number of commands may overlap a reader, in every interleaving, and leave its report right exactly if each of them is harmless at the version it meets |
| OverlapRuns.HarmlessRunKeepsTop | src/bid_ask_book/bid_ask_book.cpp:177-242 | harmless commands, however many, keep the best price and the whole level there |
| OverlapRuns.TearingOverlap | src/bid_ask_book/bid_ask_book.cpp:199-219 | otherwise there is a run in which the commands before the first harmful one commit and that one tears the report |
| OverlapRuns.ValidCommandsCommit | src/bid_ask_book/bid_ask_book.cpp:20-140 | from any reachable state with the mutex free, exactly the commands with non-zero price and quantity, and one id in a replacement, can start, and each has a run that commits its change to book and total |
| UpdateSteps.UpdateReadsInCommitOrder | src/bid_ask_book/bid_ask_book.cpp:199-219 | with both sides under concurrent writers: the six reads of an update, best bid, best ask, bid level, ask level, bid total, ask total, see versions of one sequence of commits of both sides, in that order |
| UpdateSteps.NothingIffEachEmpty | src/bid_ask_book/bid_ask_book.cpp:202-208 | an update returns nothing exactly if the bids were empty at its first read and the asks at its second |
| UpdateSteps.TopsOfOneVersionIff | src/bid_ask_book/bid_ask_book.cpp:202-203 | the best bid is that of every version up to the read of the best ask, and both then belong to one version, exactly if every bid command committed in between keeps it |
| UpdateSteps.KeepsBestIff | src/bid_ask_book/bid_ask_book.h:46-58 | a command keeps the best price exactly if it misses, enters an order not ahead of it, leaves another order at it, or moves an order to it |
| UpdateSteps.CrossedReport | src/bid_ask_book/bid_ask_book.cpp:202-203 | a reachable run in which the update finds best bid 100 and best ask 90 although no version has orders on both sides |
| UpdateSteps.QuietUpdateIsOneVersion | src/bid_ask_book/bid_ask_book.cpp:199-219 | an update during which nothing commits and whose loads meet no writer reports one version of the whole book |
| UpdateSteps.StepKeepsInv | src/bid_ask_book/bid_ask_book.cpp:20-219 | every step of writers and updates on the two sides keeps the invariant |
| CommandQueues.QueueIsPendingSuffix | src/snapshots_broadcaster/command_queue.h:117-136 | in every run the queue is exactly the unpopped pushes from the last broadcast onward; a broadcast can only be at its head |
| CommandQueues.AbsorptionRefinesFifo | src/snapshots_broadcaster/command_queue.h:117-136 | popped then queued is an in-order subsequence of the pushes, and every absorbed push precedes a broadcast that was popped or is queued |
| CommandQueues.NothingLost | src/snapshots_broadcaster/command_queue.h:117-136 | pushed = popped + queued + absorbed as multisets |
| CommandQueues.PushedAsAsked | src/snapshots_broadcaster/command_queue.h:117-123 | the pushes all these statements speak of are exactly the commands pushed, in order |
| CommandQueues.StepKeepsInv | src/snapshots_broadcaster/command_queue.h:117-136 | push and pop keep the queue invariant |
| CommandQueues.PushAsDocumentedIff | src/snapshots_broadcaster/command_queue.h:111-123 | a push absorbs what is documented exactly if it is for one client, or is a snapshot broadcast over nothing but snapshots for single clients, or meets an empty queue |
| CommandQueues.UpdateAbsorbsSnapshot | src/snapshots_broadcaster/command_queue.h:111-123 | an update for all, pushed after a snapshot for a client, loses that snapshot, which is documented to stay |
| CommandQueues.CommandQueue.Push | src/snapshots_broadcaster/command_queue.h:117-123 | a command without client id clears the queue first; the command goes to the back |
| CommandQueues.CommandQueue.Pop | src/snapshots_broadcaster/command_queue.h:128-136 | takes the oldest command |
| Broadcasting.EndToEnd | src/snapshots_broadcaster/broadcaster.h:54-93 | for a client from its registration on, in any run of the pipeline and of its session, over the snapshots requested in the run: receipts name, in order, positions at which the session accepted a requested snapshot unaltered; while the session is connected they are in the order of the requests and all concern the client, and every request concerning it that was not handled before it registered is accepted or pending, or a later one for all is |
| Broadcasting.EnqueuedAsRequested | src/snapshots_broadcaster/broadcaster.h:30-32 | the commands the pipeline carries are the snapshots requested in its stages, each with its payload and for its client, in order |
| Broadcasting.RequestsQueue | src/snapshots_broadcaster/broadcaster.h:30-32 | a request for one client waits behind what is queued, one for all replaces it; no client is touched |
| Broadcasting.HandleReaches | src/client_list/client_list.cpp:247-259 | handling adds the snapshot to the strand of its client, or of every subscribed one if it is for all, and to no other; the io thread halts exactly if its client is not registered |
| Broadcasting.JoinIsReady | src/client_list/client_list.cpp:74-86 | a client that registers on a session in any state of its protocol is ready to be served, and no other client is touched |
| Broadcasting.StageServes | src/snapshots_broadcaster/broadcaster.h:54-93 | every stage of the pipeline, handlers of the client's session and other clients joining and leaving included, keeps the served client's invariant |
| Broadcasting.DeliverServes | src/TCP_server/session.cpp:78-92 | running the oldest send of the client's strand on its session keeps the served client's invariant, whether the session accepts or refuses it |
| Broadcasting.SendAccepts | src/TCP_server/session.cpp:78-92 | a connected session accepts a message at the end of all it accepted; a disconnected one is left as it was |
| Broadcasting.HandleServes | src/client_list/client_list.cpp:247-259 | handling a posted command dispatches it to the client exactly if it concerns it |
| Broadcasting.ServedOrSuperseded | src/snapshots_broadcaster/broadcaster.h:54-93 | while the session is connected, a command concerning the client and not handled before it registered reaches it or is on its way, or a later broadcast is |
| Broadcasting.Broadcaster.EnqueueSnapshot | src/snapshots_broadcaster/broadcaster.h:30-32 | the queue ends with a snapshot command of this payload for this client, behind what was queued, or alone if it is for all |
| Broadcasting.Broadcaster.RunOnce | src/snapshots_broadcaster/broadcaster.h:54-80 | one turn of the loop pops the oldest command and posts its handler behind the earlier ones |
| DomManagers.OneChainNeverDies | src/snapshots_broadcaster/dom_manager.cpp:35-65 | in every interleaving: at most one armed wait; none while stopped; while broadcasting a wait is armed or a successful completion is queued |
| DomManagers.OneSnapshotPerExpiry | src/snapshots_broadcaster/dom_manager.cpp:48-65 | each expired wait is sent once, or ignored while stopped, or still queued |
| DomManagers.StepMovesChains | src/snapshots_broadcaster/dom_manager.cpp:35-65 | a start adds one chain, a stop removes the armed one, and a handled completion merges its chain with the armed wait; the invariant is kept |
| DomManagers.StaleChainsMerge | src/snapshots_broadcaster/dom_manager.cpp:48-65 | handling what is queued always leaves exactly one armed wait while broadcasting, none otherwise, and nothing queued |
| DomManagers.ParametersCurrentIff | src/snapshots_broadcaster/dom_manager.cpp:35-65 | all live chains keep the last start's interval and flag, exactly until a start takes effect over a queued completion with other parameters |
| DomManagers.StaleParametersWin | src/snapshots_broadcaster/dom_manager.cpp:35-65 | then the stale completion re-arms the timer with the earlier start's parameters |
| DomManagers.DomManager.StartBroadcasting | src/snapshots_broadcaster/dom_manager.cpp:35-41 | starting while off turns broadcasting on and arms a wait; while on it changes nothing |
| DomManagers.DomManager.StopBroadcasting | src/snapshots_broadcaster/dom_manager.cpp:43-46 | turns broadcasting off and aborts the armed wait, leaving queued completions |
| DomManagers.DomManager.ScheduleNextBroadcast | src/snapshots_broadcaster/dom_manager.cpp:48-53 | re-arms the timer, aborting what was armed, if broadcasting is on |
| DomManagers.DomManager.OnTimer | src/snapshots_broadcaster/dom_manager.cpp:53-64 | an aborted completion, or one handled while off, does nothing; otherwise one broadcast snapshot is enqueued if there is one, and the timer re-armed |
| DomManagers.DomManager.SendSnapshot | src/snapshots_broadcaster/dom_manager.cpp:67-98 | enqueues a snapshot command for the client, or for all, if the book has a snapshot |
| ClientSides.RunRefinesPlain | src/client_list/client_list.cpp:40-195 | with fresh ids every run is that of a plain sequence: add appends, remove by id deletes exactly that order and keeps the rest in order, remove without id drops the newest; the query returns the sequence and never throws |
| ClientSides.StepRefinesPlain | src/client_list/client_list.cpp:40-70 | the same for one operation |
| ClientSides.RemoveByIdIsExcept | src/client_list/client_list.cpp:56-64 | removing by id removes exactly the order with that id |
| ClientSides.AddConsistentIffFresh | src/client_list/client_list.cpp:40-46 | an addition keeps list and map in agreement exactly if its id is fresh |
| ClientSides.RepeatedIdBreaksQuery | src/client_list/client_list.cpp:40-64 | adding a listed id again and removing it once leaves a stale node, and the query throws |
| ClientSides.QueryReturnsOrders | src/client_list/client_list.cpp:173-195 | while list and map agree the query returns every order in arrival order |
| ClientSides.ApplyKeepsWellFormed | src/client_list/client_list.cpp:40-70 | repeated ids included: entries describe their id, and point at its newest node |
| OrderLists.OrderList.PushBack | src/client_list/client_list.cpp:43-44 | push_back on real nodes appends one new node and keeps the links |
| OrderLists.OrderList.Erase | src/client_list/client_list.cpp:63-67 | erase through an iterator unlinks exactly that node and keeps the links |
| OrderLists.AddKeepsIterators | src/client_list/client_list.cpp:40-46 | adding keeps every stored iterator pointing at the newest list node of its id, repeated ids included |
| OrderLists.RemoveByIdSlots | src/client_list/client_list.cpp:56-64 | so does erasing through a stored iterator |
| OrderLists.RemoveLastSlots | src/client_list/client_list.cpp:65-69 | and popping the back, which is never done on an empty list |
| OrderLists.ClientSide.AddOrder | src/client_list/client_list.cpp:40-46 | list and map change as specified; stored iterators stay valid |
| OrderLists.ClientSide.RemoveOrder | src/client_list/client_list.cpp:49-70 | list and map change as specified for a given id, a missing id and no id; stored iterators stay valid |
| OrderLists.ClientSide.GetOrders | src/client_list/client_list.cpp:173-195 | walks the list and looks every id up; a missing key throws |
| Registries.RegistrySound | src/client_list/client_list.cpp:74-98 | in every run, null sessions, repeated HELLOs and shared sessions included, each reverse entry names a registered client whose current session it is; the reverse index is injective |
| Registries.ClientFollowsItsOperations | src/client_list/client_list.cpp:74-220 | over any run that does not remove the client: its bids are what its own bid operations make of them and its asks what its own ask operations do, its session is the last it was given, and it is subscribed exactly if it was or ever subscribed |
| Registries.QueriesReturnOwnOrders | src/client_list/client_list.cpp:136-195 | with fresh ids, what is queried of a client is the plain sequence of its own bid, and of its own ask, operations since it registered, whatever else ran in between |
| Registries.UnknownUntilAdded | src/client_list/client_list.cpp:74-98 | a client comes into being only with a session, unsubscribed and without orders, and goes with its removal |
| Registries.CompleteIffNotBoundTwice | src/client_list/client_list.cpp:74-98 | the converse is kept by every operation exactly unless it binds a session that is already another client's |
| Registries.SingleBindingsMutuallyInverse | src/client_list/client_list.cpp:74-98 | in runs that never bind a session twice the two maps are mutually inverse |
| Registries.ApplyKeepsSound | src/client_list/client_list.cpp:74-98 | one operation keeps the reverse index right |
| Registries.UnsubscribeAsDocumentedIff | src/client_list/client_list.cpp:214-220 | unsubscribe does what it is documented to do exactly for clients that are unknown or not subscribed |
| Registries.SubscriptionIsForever | src/client_list/client_list.cpp:206-220 | a subscribed client stays subscribed in every run, whatever is unsubscribed, until it is removed |
| ClientLists.ClientList.ChangeBids | src/client_list/client_list.cpp:137-161 | bid operations throw on an unknown id, else change the client's bids as specified and nothing else in the registry |
| ClientLists.ClientList.ChangeAsks | src/client_list/client_list.cpp:146-170 | ask operations throw on an unknown id, else change the client's asks as specified and nothing else in the registry |
| ClientLists.ClientList.GetBids | src/client_list/client_list.cpp:173-183 | the bids in arrival order; throws on an unknown client and on a listed id without entry |
| ClientLists.ClientList.GetAsks | src/client_list/client_list.cpp:185-195 | the asks in arrival order; throws on an unknown client and on a listed id without entry |
| ClientLists.ClientList.PerformAll | src/client_list/client_list.cpp:74-220 | the object, over any run of operations, holds what the registry specification says |
| ClientLists.ClientList.AddSession | src/client_list/client_list.cpp:74-86 | binds the session, moving the reverse entry, and keeps orders and flag |
| ClientLists.ClientList.RemoveSession | src/client_list/client_list.cpp:89-98 | removes the client and its reverse entry |
| ClientLists.ClientList.GetSession | src/client_list/client_list.cpp:101-107 | the current session, possibly null; throws on an unknown id |
| ClientLists.ClientList.Subscribe | src/client_list/client_list.cpp:206-212 | sets the flag of a known client, throws otherwise |
| ClientLists.ClientList.Unsubscribe | src/client_list/client_list.cpp:214-220 | changes nothing: the flag is cleared on a copy |
| ClientLists.ClientList.GetSubscribedClients | src/client_list/client_list.cpp:223-232 | exactly the subscribed ids, each once |
| ClientLists.ClientList.FindClientIdBySession | src/client_list/client_list.cpp:262-269 | finds only a client whose current session this is |
| TcpServers.ReconnectSafety | src/TCP_server/tcpserver.cpp:75-107 | over all runs: every session ever bound to an id, except the current one, is disconnected or has a Stop on its strand, and is disconnected once its strand has run dry |
| TcpServers.DisconnectHandledOnce | src/TCP_server/tcpserver.cpp:97-107 | over all runs the reverse index is right and no session's disconnect is handled twice, or at all after Stop took effect |
| TcpServers.LateDisconnectHarmless | src/TCP_server/tcpserver.cpp:97-107 | a disconnect leaves every client whose current session is another one untouched |
| TcpServers.DepartedSessions | src/TCP_server/tcpserver.cpp:97-107 | HandleDisconnect removes at most the client its session is current for; the guard on the current session never fails |
| TcpServers.ReconnectKeepsOrders | src/TCP_server/tcpserver.cpp:83-94 | a HELLO makes the session current and subscribed, keeps the client's orders and touches no other client |
| TcpServers.ProjectionIsRun | src/TCP_server/tcpserver.cpp:52-107 | inside the server every session runs the session protocol on exactly its own handlers |
| TcpServers.SpokenIsSent | src/TCP_server/tcpserver.cpp:75-95 | what the server sends to a session, replies and calls whose turn came on its strand, is what that protocol run is sent |
| TcpServers.StrandsAreFifo | src/TCP_server/session.cpp:23-37 | what is put on a session's strand, notices, Stops and broadcast snapshots, is what ran there followed by what waits, in order |
| TcpServers.ServerSessionsDeliverInOrder | src/TCP_server/tcpserver.cpp:52-107 | what a session completed and started are nested prefixes of what the server sent to that session; until disconnect, completed followed by queued is all of it; nothing put on its strand is lost or reordered |
| TcpServers.FramesMakeGreetingCalls | src/TCP_server/tcpserver.cpp:75-95 | on every session, what a frame puts on its strand and the reply made at once are exactly the calls HandleMessage makes on that session, in order |
| ServerLiveness.ClientsStayLiveIff | src/TCP_server/tcpserver.cpp:75-107 | in every reachable state with every client on a live session, sessions under several ids included: a step leaves a client on a disconnected or stopping session exactly if it handles a HELLO on such a session, or loses a session several clients have, by its disconnect or by one of them moving on |
| ServerLiveness.AlwaysLiveIff | src/TCP_server/tcpserver.cpp:75-107 | over whole runs, every client always has a live session exactly if no step is of these two kinds |
| ServerLiveness.ReportReleasesUnlessShared | src/TCP_server/tcpserver.cpp:97-107 | after its disconnect is handled some client still has the session exactly if one besides the client of the reverse entry had it |
| ServerLiveness.SupersededIsReleasedUnlessShared | src/TCP_server/tcpserver.cpp:83-91 | after a HELLO takes a client to another session, some client still has the old one exactly if another client had it too |
| ServerLiveness.OwnedGreetingsOnlyAbandon | src/TCP_server/session.cpp:45-56 | on a session some client has, and which is therefore still owned, no HELLO comes from the dead: there a client is lost exactly by abandoning a shared session |
| ServerLiveness.SecondHelloThenDisconnect | src/TCP_server/tcpserver.cpp:97-107 | from any state, a session that says HELLO under two ids and disconnects leaves the first client on it; only the second one is removed |
| ServerLiveness.AbandonedClient | src/TCP_server/tcpserver.cpp:97-107 | so from a fresh server: one connection, HELLO 1, HELLO 2, end of stream, and client 1 stays registered to the dead session |
| ServerLiveness.ReleasedSessionsOnlyGreet | src/TCP_server/session.cpp:14-56 | whatever happens on a session no client has, other than a HELLO, changes neither the registry nor any other session or strand |
| ServerLiveness.AsCodedOnlyAccepts | src/TCP_server/tcpserver.cpp:52-68 | with the acceptor discarding the session as it does, no session has an owner before its first HELLO, and runs in which only owned sessions' handlers run consist of accepts alone |
| ServerLiveness.DisciplinedRunsLeaveNoClientBehind | src/TCP_server/tcpserver.cpp:75-107 | in runs without double bindings and without HELLOs from disconnected or stopping sessions, every client's session is neither disconnected nor stopping, and finds its client |
| ServerLiveness.WriteErrorThenHello | src/TCP_server/session.cpp:59-76 | after a write error on a session a second client has, so that it is still owned, a HELLO frame already read registers one more client on the dead session |
| ServerLiveness.StopThenHello | src/TCP_server/session.cpp:23-76 | so does a HELLO frame already read when a Stop takes effect on a session some client still has; that session never reports a disconnect |
| ServerLiveness.DeadClientStays | src/TCP_server/tcpserver.cpp:97-107 | a client of a disconnected session stays registered in every run until the next HELLO for its id |
| TcpServers.StepKeepsInv | src/TCP_server/tcpserver.cpp:75-107 | every event of sessions, strands and handlers keeps the server invariant |
| TcpServers.AsCodedIffKnown | src/client_list/client_list.cpp:101-107 | with the get_session that throws, HandleMessage does what is documented exactly on known ids and non-HELLOs |
| TcpServers.AsCodedNobodyRegisters | src/client_list/client_list.cpp:101-107 | so from an empty registry a run registers nobody, and ends in the exception exactly if it contains a HELLO |
| TcpServers.GreetingCallsAnswer | src/TCP_server/tcpserver.cpp:75-95 | the calls, text by text: a HELLO's session is sent "OK HELLO ", the id in decimal and a line feed, after the session that loses the client was sent the INFO text and stopped; every other frame gets the ERR text alone |
| TcpServers.TcpServer.HandleMessage | src/TCP_server/tcpserver.cpp:75-95 | registry and calls on sessions, in order, as specified for errors, first HELLOs, repeats and reconnects; the texts are those of GreetingCallsAnswer |
| TcpServers.TcpServer.HandleDisconnect | src/TCP_server/tcpserver.cpp:97-107 | removes the client the session is current for, if the reverse index knows it |
| Wire.SnapshotRoundTrip | bid_ask_snaphot_interface/bid_ask_interface.h:121-142 | decoding an encoded snapshot gives it back for all field values |
| Wire.UpdateRoundTrip | bid_ask_snaphot_interface/bid_ask_interface.h:99-118 | decoding an encoded update gives it back for all field values |
| Wire.SnapshotReencodes | bid_ask_snaphot_interface/bid_ask_interface.h:121-142 | a buffer of the right size is reproduced exactly if it carries the snapshot type byte, which deserialize does not check |
| Wire.UpdateReencodes | bid_ask_snaphot_interface/bid_ask_interface.h:99-118 | a buffer of the right size is reproduced exactly if it carries the update type byte, which deserialize does not check |
| Wire.ByteOfWord | bid_ask_snaphot_interface/bid_ask_interface.h:99-104 | byte i of an encoded word is the word divided by 256 to the power i, modulo 256 |
| Wire.SnapshotLayout | bid_ask_snaphot_interface/bid_ask_interface.h:121-131 | 961 bytes, type byte 0; bid i at 1 + 24i and ask i at 481 + 24i, each id, price and quantity, every byte given by division of the field |
| Wire.UpdateLayout | bid_ask_snaphot_interface/bid_ask_interface.h:85-104 | 49 bytes, type byte 3; the six fields at 1, 9, 17, 25, 33 and 41, every byte given by division of the field |
| Wire.SplitEncoded | src/client.cpp:150-175 | any concatenation of encoded messages splits by type byte and size into the same messages |
| Wire.EncodeSplit | src/client.cpp:150-175 | only such concatenations split |
| Wire.FramingUnambiguous | src/client.cpp:150-175 | different message sequences never share a byte stream |
| Wire.SerializeUpdate | bid_ask_snaphot_interface/bid_ask_interface.h:99-104 | the buffer filled in place is the encoding: its type byte is 3 and each field lies least significant byte first at its offset |
| Wire.SerializeSnapshot | bid_ask_snaphot_interface/bid_ask_interface.h:121-131 | the buffer filled in place, bids then asks, is the encoding: its type byte is 0 and each field lies least significant byte first at its offset |
| Wire.DecodedUpdateLies | bid_ask_snaphot_interface/bid_ask_interface.h:111-118 | the fields decoded are those that lie in the buffer, byte by byte, whatever its type byte |
| Wire.DecodedSnapshotLies | bid_ask_snaphot_interface/bid_ask_interface.h:133-142 | the orders decoded are those that lie in the buffer, byte by byte, whatever its type byte |
| Wire.DeserializeUpdate | bid_ask_snaphot_interface/bid_ask_interface.h:111-118 | decodes exactly the buffers of 49 bytes, to the fields that lie in them |
| Wire.DeserializeSnapshot | bid_ask_snaphot_interface/bid_ask_interface.h:133-142 | decodes exactly the buffers of 961 bytes, to the orders that lie in them |

## Left out

- Broadcasting.EndToEnd: follows one registration of a client; messages left on the strand of the session that a later
  HELLO replaces belong to that earlier registration, and two clients sharing a session are not followed together. The
  io thread's handlers and the strands are values, not objects. Snapshot commands only.
- TcpServers.ReconnectSafety: the broadcaster appears in the server's runs as `Post`, a message put on the strand of any
  accepted session at any time; which messages those are is `Broadcasting.EndToEnd`.
- BookSteps.ReadersSeeCommittedVersions: a read under the shared mutex is one step. It speaks of one side; both sides
  in one sequence of commits are `UpdateSteps`.
- BookOverlap.OverlapExactIffHarmless: one overlapping command; any number is `OverlapRuns.SequenceExactIffHarmless`,
  where a report is asked to be that of the version at its load, since values alone may return by chance.
- OrderBooks.OrderSide.PriceInfo: promises nothing about the order of the ids within a level; the container library's
  internals are replaced by sorted sequences and a map.
- DomManagers.DomManager.SendSnapshot: the snapshot is an input, since the book's snapshot function returns canned data
  and the manager calls one that is not declared.
- Object lifetimes: every accepted session is kept alive in the server's runs; what a released one could not do is
  stated in `ServerLiveness`, not built into the steps.
- `GetTopSnapshot`, market-data update commands past the queue, the server's own accept and shutdown, destructors,
  `try_pop`.
- The remaining registry queries (`size`, `get_all_sessions`, `is_subscribed`) and null sessions in a broadcast.
- The TCP client: it passes payloads without their type byte to a decoder that wants it; only its message sizes are
  used.
- src/protocol.cpp, console, GUI, logger, database interface, random snapshots and floating-point prices.
