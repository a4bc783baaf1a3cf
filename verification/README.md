# capstomp in Dafny

capstomp lets MySQL statements publish to a STOMP broker through shared pools of sockets. A pool keeps
three lists (connections in use, connections waiting, transactions in creation order) under one mutex.
A transactional statement stores a numbered transaction, sends, and finally marks it finished. Only the
statement whose transaction is first takes the finished prefix of the store; it then commits those
transactions and gives back their connections, also those of other statements, which have long left.
`force_commit` cuts across that order.

This project models that protocol twice and proves the two agree.

* As a state machine (`Protocol`). A step is one region run under the pool mutex, one exchange on a socket,
  or one hand-back of a connection. A run is any sequence of steps of any number of statements, with every
  failure exit of `src/udf.cpp`, every socket outcome, limits that change at any time and forced commits.
  `Ownership` holds the central invariant: who owns which connection (the statement that took it, nobody,
  the statement that drained it). `Order`, `Fates`, `Turns`, `Leases` and `Wire` add a record of what a run
  did, with an invariant each. `Runs`, `Termination` and `StoreRuns` state the results for all runs.
* As objects updated in place (`Capstomp`, `Udf`, `Stores`, `Headers`): connections, pools, the store, the
  three entry points MySQL calls, and the header parser, with the program's loops. Their methods are
  proved against the list functions of `PoolLists` and the socket functions of `SocketIo`, which the
  state machine uses too, and leave every other statement in flight as it is. `Alone` closes the circle: a
  commit that nobody interrupts in the state machine is the function that the object's `Commit` is proved to
  compute, and every run of the socket loops is an outcome that the state machine allows for.

`SocketLaws` says what the socket functions come to in terms of the script's events alone, and `Calls` follows
one statement through a run and ties `capstomp_init` of the object to the steps of the machine.
`ReceiptWindow`, `Endpoint` and `Headers` treat the receipt counter, pool names and header arguments.
`Mishaps` and `Overtaking` hold runs in which the code does not do what one would hope.

## Where the code and its intent part

* `src/pool.cpp:269` looks at a list element before testing for the end of the list. The look goes past the
  end exactly when every other stored transaction has finished, so that the drain empties the store
  (`PoolLists.WalksPastEndIff`). The model tests first; the prefix is the same.
* Transactions are drained in creation order, but their COMMIT frames are sent outside the pool mutex, and
  nothing orders the COMMITs of two drainers. `Overtaking.Overtakes` is a run without errors and without forced
  commits that drains transaction 1, then 2, and sends the COMMIT of 2 first. A COMMIT is in turn, with all
  earlier ones attempted, if and only if no other statement holds an earlier transaction in its batch
  (`Runs.CommitInTurnIff`, `Runs.OrderStaysIff`); whatever is overtaken is pending in a batch without the
  overtaker (`Runs.OvertakenIsPending`). Within one batch the COMMITs are in order (`Runs.BatchAttemptedInOrder`).
* `src/store.cpp:54` compares with `>`, so the store holds up to one pool more than `max_pool_count`.
  `StoreRuns.StoreBounded` proves that bound and `StoreRuns.OnePoolTooMany` reaches it for every limit.
* `store::get` drops the store lock between choosing a pool and taking a connection
  (`src/store.cpp:73-80`). The model makes the two one step: an assumption that no erase falls in between.
* `src/connection.cpp:492-498` tests `error_` after `close()` has cleared it. A disconnect while a reply is
  awaited is therefore a normal return on a closed socket (`SocketIo.DisconnectReturnsNormally`).
* The receipt handler sets one flag for all receipts, so a late receipt of an earlier frame ends the wait for
  a later one. `SocketIo.StaleReceiptEndsTheWait` is such a history, `SocketIo.WaitIsForTheReplyIffNoOther`
  says exactly when the wait is for the right reply, and `SocketIo.NoReceiptIsLeftOver` and
  `Runs.NothingOutstanding` that it is so until a COMMIT fails.
* A refusal is told from success by its text alone (`src/connection.cpp:506-509`), so a reply that refuses with
  an empty text reads as success. `SocketLaws.RefusalIsRaised` gives both halves.
* A failed COMMIT is only logged (`src/connection.cpp:403-424`) and leaves its socket open, even when part of
  the frame was written. "Committed" here means that the commit was attempted, once. The socket goes back to
  the pool and the next statement reuses it (`Mishaps.CutCommitIsReused`). Only this can put a live socket out
  of step: a waiting socket carries complete transactions if and only if every COMMIT attempt made on it was
  written whole (`Runs.IdleSocketCompleteIffCommitsWhole`).
* A plain statement without rows advances the receipt counter, and may reset it, without sending anything.
  `ReceiptWindow.WindowIffEveryKindSends` gives the exact condition for the promised window.
* Pool names are not escaped. A name fixes the fragment, and no history of the store ever reuses a socket that
  leads elsewhere, if and only if exactly one `#` follows the name's first `@` (`Endpoint.FragmentFixedIff`,
  `Mishaps.NeverMisdirectedIff`). A raw URI that ends in `/v#a#b` has a name that fails this: the readings
  with path `/v` and with path `/v#a` share a pool (`Endpoint.HashInPathIsAmbiguous`). The histories that fail
  use both readings. A history whose URIs are all cut at their first `#`, or all at their last, never reuses a
  socket that leads elsewhere (`Mishaps.CutAlikeIsNeverMisdirected`); how btpro::uri cuts them is not part of
  this model.

Assumptions: MySQL calls `capstomp_deinit` exactly once when `capstomp_init` returned 0 and never otherwise;
a frame is never empty; a receipt handler runs at most once; a broker sends CONNECTED only in answer to LOGON
(`SocketIo.PastLogon`) and a receipt only on the socket on which it was asked for; limits are those of
`src/conf.cpp` and so not negative, and the request limit is at least 1 where a window is claimed.

## Model

| member | source | states |
|---|---|---|
| Ownership.StepKeeps | src/pool.cpp:68-345 | every step of every statement, failures and forced commits included, keeps the ownership invariant: lists disjoint, each active connection owned by exactly one statement or by a finished stored transaction, stored and pending transactions on distinct active connections, first stored transaction unfinished |
| Ownership.DrainShape | src/pool.cpp:226-299 | finishing the first transaction takes it and exactly the finished ones that follow it without a gap, and passes their connections to the draining statement |
| Ownership.DeferShape | src/pool.cpp:226-264 | finishing any other transaction only marks it and leaves its connection active and owned by nobody |
| Ownership.ForceKeeps | src/pool.cpp:302-345 | a forced commit leaves the unfinished transactions and takes the others' connections out of everyone's ownership |
| Runs.NothingLeaks | src/connection.cpp:535-568 | whenever no statement is in flight the store and the active list are empty, every transaction created has had exactly one commit attempt and every connection handed out came back exactly once |
| Runs.OneOperator | src/connection.cpp:426-438 | a connection worked on by a statement, its own or one it drained, is active, is not waiting in the pool, and is worked on by no other statement |
| Runs.DeferredHasNoOperator | src/pool.cpp:226-299 | stored transactions name distinct active connections; a stored transaction is finished exactly when no statement works on its connection |
| Runs.DrainedInCreationOrder | src/pool.cpp:198-300 | without forced commits the drained batches followed by the store are the numbers 1 to the counter in order; with them no number is lost or repeated and the store and each batch stay increasing |
| Runs.RetiredInOrder | src/pool.cpp:207-300 | a transaction whose predecessors and itself have finished has been handed out; without forced commits it is handed out only then |
| Runs.NobodyIsStranded | src/pool.cpp:226-299 | every stored transaction waits for one created no later that is first in the store, unfinished, and whose statement is in flight |
| Runs.CommittedAtMostOnce | src/connection.cpp:366-439 | each created transaction is in exactly one of the store, one statement's pending batch, or attempted, and no commit is attempted twice |
| Runs.BatchAttemptedInOrder | src/connection.cpp:441-470 | in every run no COMMIT of a batch is attempted before those of earlier transactions in the same batch |
| Runs.CommitInTurnIff | src/connection.cpp:441-470 | in every run, forced commits included, the next COMMIT of a statement finds all earlier numbers attempted if and only if no other statement holds an earlier transaction in its batch |
| Runs.OrderStaysIff | src/connection.cpp:441-470 | attempts so far in creation order without a gap stay so with the next COMMIT if and only if no other statement holds an earlier transaction |
| Runs.OvertakenIsPending | src/connection.cpp:535-568 | an earlier transaction whose COMMIT is overtaken is pending in the batch of another statement, and that batch does not contain the overtaker |
| Overtaking.Overtakes | src/connection.cpp:535-568 | for any URI an error-free run without forced commits drains transaction 1, then 2, and attempts the COMMIT of 2 first |
| Runs.ReturnedAtMostOnce | src/connection.cpp:426-438 | each get is answered by at most one return, and by none while its statement is in flight |
| Runs.EraseLosesNothing | src/store.cpp:111-125 | no active connection means no stored transaction, no pending batch, no statement in flight and every transaction attempted; the size of the active list is all that erase tests |
| Runs.ForceTakesTheReady | src/pool.cpp:302-345 | a forced commit attempts exactly the finished transactions, keeps the others in order, and makes each forced connection inactive, once |
| Runs.SocketsBounded | src/pool.cpp:68-130 | active and waiting connections together never exceed the largest max_pool_sockets used so far, though reuse tests nothing; waiting ones never exceed the largest pool_sockets |
| Runs.PeaksWithin | src/pool.cpp:91-97 | the largest socket limit used in a run is no more than any bound on the limits its gets were made with |
| Runs.EverySocketBracketed | src/connection.cpp:348-439 | on every socket, open or closed, in every run, a SEND tagged t comes after BEGIN t and before any COMMIT t; on an open socket whose COMMIT attempts were all written whole no frame was cut, so its bytes are these frames |
| Runs.IdleSocketCompleteIffCommitsWhole | src/connection.cpp:366-439 | socket by socket, in every run: a waiting socket carries LOGON, plain SENDs and complete BEGIN t, SEND t, COMMIT t blocks and nothing else if and only if every COMMIT attempt on it was written whole |
| Runs.LiveSocketIsBlocks | src/connection.cpp:348-470 | a socket in use whose COMMIT attempts were written whole carries complete units and at most one open block, in every run |
| Runs.ErrorFreeSocketIsBlocks | src/connection.cpp:348-470 | in an error-free run a socket carries a LOGON, plain SENDs and whole BEGIN t, SEND t, COMMIT t blocks, at most the last one open, whoever sends the COMMIT |
| Runs.CommitsWaitForReplies | src/connection.cpp:441-470 | in every run each COMMIT of a batch of two or more is sent only after the COMMITs before it had their own receipts delivered, except those that failed, lost their socket or used one on which an earlier COMMIT had failed; an error-free run has no exceptions |
| Runs.NothingOutstanding | src/connection.hpp:165-192 | between exchanges no receipt is outstanding on a socket on which no COMMIT has failed |
| Calls.LifeCycle | src/udf.cpp:104-135 | in every run, whatever others do in between, each step of a statement is followed by the step the entry points take next; after an exception from connect or BEGIN that is a row or deinit only if errors are hidden, and otherwise the commit |
| Calls.InitIsItsSteps | src/udf.cpp:104-135 | the steps of one capstomp_init, read off the object's socket, can be taken one after the other and end where rows are served exactly when the object's Init returns 0, and before the commit exactly when it returns 1 |
| Calls.ConnectAgrees | src/connection.cpp:233-269 | machine and object agree on the socket that connect leaves: reused exactly when live with the same password, new with its LOGON alone, or none |
| Termination.MeasureDrops | src/connection.cpp:535-568 | every step other than a new call and an idle forced commit lowers the measure of remaining work |
| Termination.SchedulesAreFinite | src/connection.cpp:441-470 | without new calls a schedule is no longer than the measure |
| Termination.SomethingToDo | src/udf.cpp:67-143 | a statement in flight has its next step enabled, however connecting or the exchange turns out, and the step is progress |
| Termination.SomeOutcome | src/connection.cpp:690-731 | and there always is an outcome, at worst a failure, with which it can be taken |
| Termination.StuckMeansDone | src/connection.cpp:535-568 | a schedule that cannot go on has reached quiescence with empty lists |
| Mishaps.CutCommitIsReused | src/connection.cpp:403-438 | for any two URIs there is a run in which a COMMIT is cut short, its socket goes back to the pool open, out of step and with a receipt due, and the next statement may reuse it |
| Mishaps.CutAlikeIsNeverMisdirected | src/connection.cpp:233-254 | in a history whose URIs are all cut at their first '#', or all at their last, no statement ever reuses a socket that leads elsewhere, whatever the names |
| Mishaps.NeverMisdirectedIff | src/connection.cpp:233-254 | no history of the store lets a statement with this pool name reuse a socket that leads elsewhere if and only if exactly one '#' follows the name's first '@' |
| Alone.UninterruptedCommitRetires | src/connection.cpp:535-568 | a commit run by the state machine without interruption changes the lists as the object's commit does |
| PoolLists.FinishSplits | src/pool.cpp:207-300 | on an ordered store get_uncommited either only marks the caller's transaction or hands out it and the finished run after it |
| PoolLists.WalksPastEndIff | src/pool.cpp:262-284 | the walk over the finished prefix goes past the last transaction if and only if the drain empties the store, which is when all the others had finished |
| PoolLists.LoopIsForce | src/pool.cpp:308-342 | the loop that erases while it walks the store computes the closed form: keep the unfinished in order, give the others' connections back in order |
| PoolLists.GiveBackAllSeparates | src/pool.cpp:132-189 | giving connections back removes each from the active list, adds no more than fit to the waiting list, and keeps the lists apart |
| PoolLists.LastBackFirstOut | src/pool.cpp:132-189 | a live connection given back while there is room is the next one handed out, and the others wait as before; without room or socket nothing is added |
| PoolLists.LastInFirstOut | src/pool.cpp:132-189 | several given back wait in the opposite order, before those that waited |
| PoolLists.RetireKeepsOthers | src/connection.cpp:426-438 | a commit leaves active every other connection that no finished transaction is on |
| PoolLists.RetireKeepsOpen | src/pool.cpp:132-189 | after a commit a connection newly waiting for reuse is one whose socket was open when given back |
| PoolLists.RetireKeepsUnfinished | src/pool.cpp:207-300 | a commit leaves every other unfinished transaction in the store |
| SocketIo.SendWritesPrefix | src/connection.cpp:690-731 | whatever the short writes and refusals, the bytes written are a prefix of the frame, and all of it exactly when send returns |
| SocketIo.ReadReturnsQuiet | src/connection.cpp:482-510 | a normal return of read leaves the wait over and no error text, writes nothing and opens nothing |
| SocketIo.ReadWaits | src/connection.cpp:482-510 | past the logon a normal return on an open socket has consumed one of the receipts due, with one due the awaited one |
| SocketIo.WaitIsForTheReplyIffNoOther | src/connection.hpp:165-192 | the wait always ends with the awaited reply if and only if no other receipt is still expected |
| SocketIo.StaleReceiptEndsTheWait | src/connection.hpp:165-192 | a COMMIT whose reply never comes leaves its socket open and its receipt outstanding, and that receipt then ends the wait for the next frame's |
| SocketIo.NoReceiptIsLeftOver | src/connection.cpp:482-510 | along a history of exchanges without failures every frame that asked for a receipt has had its own before the next is sent |
| SocketIo.ReachKeepsAim | src/connection.cpp:233-269 | whatever socket connect leaves open, reused or new, leads to the URI's fragment if open sockets did before |
| SocketIo.ExchangeIsSound | src/connection.cpp:690-731 | every run of send and then read is an outcome the state machine allows for, receipts included |
| SocketIo.SendIsSound | src/connection.cpp:690-731 | so is every run of send alone |
| SocketIo.WaitIsSound | src/connection.cpp:482-510 | so is every run of read alone while a receipt is awaited |
| SocketIo.CommitIsSound | src/connection.cpp:366-424 | so is every COMMIT attempt: with a receipt a sound exchange; without one, what its probe reads dropped, a sound send |
| SocketIo.CommitKeepsCount | src/connection.cpp:366-424 | a COMMIT attempt that leaves its socket open, on whichever thread, leaves the request counter as it was |
| SocketIo.ReachCounts | src/connection.cpp:233-254 | connect keeps the counter of a socket it reuses and starts a new socket's at zero |
| SocketLaws.SendReturnsIff | src/connection.cpp:690-731 | on an open socket a non-empty frame is sent if and only if the script starts with accepting events whose bytes reach its length, and no further event is used; else what was accepted is written and the first other event decides the exception |
| SocketLaws.Delivered | src/connection.hpp:165-192 | frames handed over end the wait exactly if one is the LOGON's answer, an ERROR or an expected receipt; the error left is that of the last refusal or ERROR among them, each receipt counting once |
| SocketLaws.WaitEndsAtNoise | src/connection.cpp:482-510 | a wait outlasts every event that does not answer it, and the first other event ends it, with the exception or answer it brings |
| SocketLaws.RefusalIsRaised | src/connection.cpp:506-509 | a wait answered by a refusal, of a LOGON or of a frame, raises the refusal's text if and only if the text is not empty |
| SocketLaws.AskedReturnsIff | src/connection.hpp:165-192 | a frame with a receipt asked, on a link without an old error, goes through if and only if the socket accepts all of it and the answer is no refusal with a text, or a disconnect |
| SocketLaws.UnaskedNeverWaits | src/connection.hpp:165-192 | a frame without a receipt goes through if and only if it is accepted, and uses no event beyond that |
| SocketLaws.ProbeTells | src/connection.cpp:271-287 | the probe reads all that waits and tells a live socket, otherwise unchanged, from a disconnect and from a failure |
| SocketLaws.AskedCommitWritesIff | src/connection.cpp:366-424 | a COMMIT with a receipt is written whole if and only if the socket accepts it |
| SocketLaws.UnaskedCommitWritesIff | src/connection.cpp:366-424 | a COMMIT without a receipt is written whole if and only if the probe finds the socket alive and it then accepts the frame |
| SocketLaws.ReachReuses | src/connection.cpp:233-269 | a live socket logged on with the same password is kept and nothing is written |
| SocketLaws.ReachOpensAnew | src/connection.cpp:233-254 | any other is given up: connect returns if and only if dialling and LOGON succeed, and what it leaves open is then new, for the fragment, with its own LOGON and the password stored |
| SocketLaws.SecondCall | src/connection.cpp:233-254 | after a call whose socket stayed open, a call with the same password on a live socket keeps it and writes nothing, one with another password leaves only a new socket |
| ReceiptWindow.WantedAlwaysAsks | src/connection.cpp:612-617 | a statement that wants receipts asks whatever the counter; one that does not asks only at the limit |
| ReceiptWindow.EveryLimitthAsks | src/connection.cpp:583-617 | of statements that send a frame, do not want receipts and are each given back by their owner, exactly every request_limit-th asks |
| ReceiptWindow.EveryWindowAsks | src/connection.cpp:583-617 | if every statement sends a frame that may ask, any request_limit statements in a row on one socket include one that asks, although drained connections skip the reset |
| ReceiptWindow.WindowIffEveryKindSends | src/connection.cpp:583-617 | histories of given kinds of statement all keep the window if and only if each kind sends such a frame |
| ReceiptWindow.OneFewerMayBeQuiet | src/connection.cpp:612-617 | the window is tight: request_limit - 1 statements may all go without a request |
| StoreRuns.ErasedPoolsWereComplete | src/store.cpp:111-125 | over any history of the store, each erased pool had attempted every commit and got back every connection |
| StoreRuns.StoreBounded | src/store.cpp:31-71 | with limits never above M and S the store never has more than M + 1 pools and (M + 1) * S sockets |
| StoreRuns.OnePoolTooMany | src/store.cpp:54-58 | for every limit M some history ends with M + 1 pools |
| StoreRuns.ReuseKeepsDestination | src/connection.cpp:233-254 | over any history, a socket that connect reuses was opened for a URI with the same pool name as the one now asked for: for the same fragment if the name has one '#' or both URIs were cut alike; for the same login, fragment and joined address and path if neither has an '@' in its login or a '#' in its address or path; for the same URI if both are well-formed |
| Endpoint.NameFixesFragment | src/store.cpp:11-29 | a pool name determines login, fragment, and address and path joined, of a URI with no '@' in its login and no '#' in its address or path |
| Endpoint.NameDecodes | src/store.cpp:11-29 | a well-formed URI is read back from its pool name |
| Endpoint.DecodeNames | src/store.cpp:11-29 | a text with an '@' and a later '#' is the name of what it decodes to |
| Endpoint.FragmentFixedIff | src/store.cpp:11-29 | all URIs with one name have one fragment if and only if exactly one '#' follows the name's first '@' |
| Endpoint.DecodesFragmentIff | src/store.cpp:11-29 | decoding a name gives the URI's own fragment if and only if no '#' stands between the first '@' and it |
| Endpoint.SameNameSameFragment | src/store.cpp:11-29 | two URIs with one name have one fragment when both were cut at their first '#', or both at their last |
| Endpoint.HashInPathIsAmbiguous | src/store.cpp:11-29 | every raw text with two hashes has two readings with different fragments and one pool, and its name fails the condition |
| Capstomp.Connection.Close | src/connection.cpp:67-89 | the socket is closed and destination, password hash, counter and error text are cleared; transaction and settings stay |
| Capstomp.Connection.Init | src/connection.cpp:91-96 | settings are taken over, transaction number and error text cleared, the socket kept |
| Capstomp.Connection.Handle | src/connection.cpp:26-59 | frames delivered by the parser have the effect of their handlers, in order |
| Capstomp.Connection.Read | src/connection.cpp:482-510 | the read loop computes ReadLoop over every environment |
| Capstomp.Connection.Connected | src/connection.cpp:271-287 | the probe drains what is waiting, and closes the socket on a disconnect |
| Capstomp.Connection.SendBuffer | src/connection.cpp:690-731 | the send loop computes SendLoop over every environment and returns the buffer's size |
| Capstomp.Connection.Send | src/connection.hpp:165-192 | arms or cancels the wait, then writes the frame |
| Capstomp.Connection.Logon | src/connection.cpp:310-346 | LOGON is sent, its answer awaited, and a session required |
| Capstomp.Connection.Begin | src/connection.cpp:348-364 | counts the request; for a transactional URI appends a numbered transaction, points back to it and exchanges BEGIN, with a receipt exactly if the URI wants one or the counter is at the limit |
| Capstomp.Connection.SendContent | src/connection.cpp:663-688 | sends the row with the transaction's tag; a receipt is asked exactly if there is no transaction and the URI wants one or the counter is at the limit; returns the size sent |
| Capstomp.Connection.CommitTransaction | src/connection.cpp:366-439 | one COMMIT attempt on the transaction's own connection, exceptions swallowed; another statement's connection is given back, as the attempt left it if it is kept; the own one is not given back |
| Capstomp.Connection.CommitBatch | src/connection.cpp:441-470 | makes the COMMIT attempt of every transaction, with a receipt exactly when there are two or more, the URI wants one or the counter is at the limit; the link of each other statement's connection is then what its attempt left if kept, closed if destroyed, and all connections but its own are given back in order; an empty batch commits nothing |
| Capstomp.Connection.Commit | src/connection.cpp:535-568 | computes Retire on the pool's lists, keeps the pool valid with every back pointer intact, and touches no connection but its own and those of finished transactions; each of those either stays active as it was or had its COMMIT attempt and was given back with the link that left; its own is given back after its own COMMIT, or, left active for a stored finished transaction, unchanged |
| Capstomp.Connection.ForceCommit | src/connection.cpp:570-581 | attempts the COMMIT and, by the back pointer, changes nothing but this connection, so the pool mutex held by the caller is never taken again |
| Capstomp.Connection.Release | src/connection.cpp:583-610 | clears the transaction, resets a counter at the limit, and gives the connection back |
| Capstomp.Pool.Get | src/pool.cpp:68-130 | hands out the first waiting connection, which is the one returned last, its socket as it was, else a new closed one, and refuses exactly when none waits and too many are active; the pool stays valid, the connection is held by the caller alone, and no other connection is touched |
| Capstomp.Pool.ReleaseConnection | src/pool.cpp:132-189 | a live connection is kept while there is room and stays as it is; otherwise it is removed and closed |
| Capstomp.Pool.CreateTransaction | src/pool.cpp:198-204 | the next number goes to the end of the store, unfinished |
| Capstomp.Pool.GetUncommitted | src/pool.cpp:207-300 | returns Batch and leaves Finish, with store order and back pointers kept |
| Capstomp.Pool.ForceCommit | src/pool.cpp:302-345 | computes Force with the connections whose socket survives its COMMIT, returns the number of finished transactions, keeps the pool valid, and touches only connections of finished transactions, each of which had its COMMIT attempt and was given back with the link that left |
| Capstomp.Pool.ActiveSize | src/pool.hpp:47-51 | the number of active connections |
| Udf.Init | src/udf.cpp:67-143 | 1 exactly when connecting threw and errors are not hidden, and then the transaction begun, if any, is finished and the connection handed on; otherwise 0 with the connection held, its socket closed after an exception, and no other connection touched; a LOGON or BEGIN that the broker refuses with a text is such an exception; a socket left open holds the call's password; a refused call leaves its socket closed, and of other statements' connections touches only those of finished transactions, which it leaves alone or commits |
| Udf.Row | src/udf.cpp:272-346 | skips a row on a closed socket when errors are hidden, else exchanges the SEND; an exception closes the socket, a row that the broker refuses with a text among them, and then the size is 0; the pool is untouched |
| Udf.Statement | src/udf.cpp:348-371 | a whole call, refused or not, changes the pool by at most one begun transaction and one commit, leaves the connection active only for a finished transaction waiting in the store, leaves every other statement's finished connection as it was or committed and given back, its counter unchanged while it is open, and moves the request counter of a socket that stays open as one more use does in ReceiptWindow.Count, by its owner or deferred |
| Udf.Deinit | src/udf.cpp:348-371 | a commit leaves any other statement in flight exactly as it was, still holding its connection; if it defers, no connection changes |
| Udf.Force | src/pool.cpp:302-345 | so does a forced commit |
| Udf.Handover | src/pool.cpp:226-299 | in a store of any length, with only the first and one later transaction unfinished, the later finishes and leaves everything to the first, whose commit then empties the store, makes the COMMIT attempt of each on that one's connection, the later's included, and frees every connection |
| Udf.Defer | src/pool.cpp:226-264 | finishing a later transaction changes nothing but its mark |
| Udf.Drain | src/connection.cpp:441-470 | when all others have finished, the first's commit attempts every COMMIT and gives back every connection with the link that left |
| Stores.Store.SelectPool | src/store.cpp:31-71 | an existing pool always, a new one unless there are already more pools than the limit |
| Stores.Store.Get | src/store.cpp:73-80 | the pool is selected, and stays created even when it has no connection to give; the store stays valid |
| Stores.Store.Erase | src/store.cpp:111-125 | removes exactly a known pool without active connections, which then has nothing stored |
| Stores.Store.Commit | src/store.cpp:127-146 | forces the commits of a known pool and returns how many; each forced connection had its COMMIT attempt and was given back; the store stays valid |
| Headers.SendFrame.FillKvHeader | src/udf.cpp:154-207 | pushes the piece's header if it has a key and a value, and says whether the key is the tag |
| Headers.SendFrame.SplitKvHeader | src/udf.cpp:209-223 | the pointer loop stays in bounds and pushes exactly the valid pieces of the split at '&', in order |
| Headers.SendFrame.FillHeaders | src/udf.cpp:230-265 | the same over all non-empty string arguments from a position on |
| Headers.Content | src/udf.cpp:291-308 | the destination gets the routing key if there is one; the JSON content type is added if and only if the call is for JSON and no valid header has that key |
| Headers.ParseJoins | src/udf.cpp:209-223 | parsing a & b is parsing a, then b |
| Headers.PieceGivesIff | src/udf.cpp:154-207 | a piece without '&' parses to a header exactly if it is that key and value around its first '=', neither empty, and to nothing exactly if it is no such text |
| Headers.PrintThenParse | src/udf.cpp:209-223 | printing writable headers and parsing the text gives them back |
| Headers.ParseRange | src/udf.cpp:154-223 | the results of parsing are exactly the lists of headers with non-empty keys free of '=' and '&' and non-empty values free of '&' |
| Headers.ArgsJoin | src/udf.cpp:230-265 | headers spread over several arguments parse as those arguments joined by '&' |

## Left out

- A transaction record is a value in the pool's list and its iterator is its number: list nodes and the aliasing of iterators are not modelled (`src/transaction.hpp:9-60`). Connections are objects, and their identity is their iterator.
- Creation timestamps of transactions, the pool address inside transaction ids and total counters: no effect on behaviour. A transaction id is its number within the pool.
- Creating sockets, name resolution, `poll`, `recv` and `write`: a script of events that may be any sequence; an exhausted script is a timeout.
- Parsing and serialising STOMP frames (stompconn and stomptalk are not part of this model): frames are records, and `encode` turns them into bytes. The SEND record carries its transaction only; destination, headers and payload are in `Headers`.
- URI parsing: a URI is given by its parts; the password enters as its hash, whose collisions are not considered.
- A socket that fails during LOGON is not recorded among the closed sockets of `Wire`.
- Waiting times, the journal, state numbers for debugging, status texts, configuration setters, `settings::parse`, `clear` and argument checks of `capstomp_init` before `store::get`.
- Runs.EverySocketBracketed: after a COMMIT cut short, recorded as `Torn`, what a broker makes of the bytes that follow is not modelled.
- Runs.NothingOutstanding: a late receipt that a probe or a failing send reads is not recorded, so on a socket on which a COMMIT has failed the outstanding receipts are an upper bound.
- ReceiptWindow.EveryWindowAsks: counts BEGIN and the SEND of plain rows; requests carried by COMMIT frames would only add to them.
- Headers.Content: the text of the JSON content type is a parameter, and the key is the `content-type` of STOMP 1.2.
- Stores.Store.Get: that no erase comes between choosing the pool and taking a connection is assumed, as in `StoreRuns`.
