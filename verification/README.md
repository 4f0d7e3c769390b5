# A model of the CogServer storage backends

The repository stores an AtomSpace on a remote CogServer.  It has two client backends: a simple one
(one socket, one lock, one request at a time) and a production one (`CogChannel`: a de-duplicating
ordered buffer of messages, four workers with a socket each, callbacks that enqueue further requests,
and a barrier across the four sockets).  The repository says that both do the same thing and that
the barrier is a fence.  This project models both and proves when, and in what sense, that is so.

`dafny verify dfyconfig.toml` checks the whole project.

## How it is built

* **The channel** (`MsgOrder`, `Protocol`).  `MsgOrder` has the messages, `operator<` and the buffer as a
  class.  `Protocol` is the channel as a step system: client calls and barriers, workers that pop
  (any message: the pop order is left open), send, receive and run callbacks step by step, one FIFO per
  socket and direction, and one server handler per socket that stops at a barrier until all four have
  arrived.  The state carries its own history (epoch and position of every call, the order in
  which the server applied requests, what each callback has done), so that theorems can speak of whole runs.
* **What holds in every reachable state** (`Flow`, `History`), **what follows from it** (`Guarantees`,
  `Origins`, `Cuts`) and **that the work ends** (`Drain`).
* **Both backends do the same thing** (`SimpleBackend`, `Sequences`, `Expansion`, `Refinement`): if the
  requests between two barriers are independent, every run ends with the store and the table of the
  program done in order.  `SyncLoad` and `PerKey` give conditions that a client can check.
* **The wire** (`Receive`, `Sexpr`, `ListScan`, `AList`, `AListLoop`): the receiving loop over a byte buffer,
  printing and parsing of atoms and values, the bracket scan over lists, and the association-list loop.
* **Commands and callbacks** (`RawNames`, `Commands`, `Messages`, `CogIO`, `Load`, `Probe`, `Fetches`): the message texts and
  how they are read, the packets and callbacks, an arbitrary server, and what loads and fetches have done when their
  barrier returns.
* **Where code and intention part** (`Runs`, `Scripts`, `Lazy`, `Merging`, `Repeats`, `Gaps`, `OneList`,
  `WholeLoads`, `CrossedLoads`): the 19-character test, two tables, and names sent without escapes, each with the
  exact condition on programs and the shortest run.  `Lazy` runs any program so that of the calls with one text
  only the first in each epoch is kept.
* **The rest of the simple backend** (`SimpleSocket`, `FrameCache`, `Address`).

Three things the model takes from how they are used, because their code is not in the repository:
`async_buffer` (an insertion is dropped when an equivalent message is still queued; a barrier waits for an
empty queue and idle workers and then hands its message once to each worker), the server (one handler
per socket; it replies to all but the set and update commands; everything else about it is a
parameter), and the s-expression routines (`get_next_expr` brackets one expression and reports how many
parentheses stay open; `decode_atom` and `decode_value` read one expression from a position).
Randomly drawn barrier ids are fresh numbers.

Where code and documentation differ, the model follows the code:

* The comment at `CogChannel.h:84-94` says every update gets a sequence number; the test compares 19
  characters with a literal of 18, so no message that the client builds gets one, and equal updates are
  merged (`Gaps.UpdatesAppliedExactly`).  Theorems about the channel hold for any numbering rule.
* `operator<` does not look at the packet, so a request merged with an equal text for another table is never
  answered for its own (`Gaps.FetchesServedExactly`).
* `getAtom` puts a node's name into its request as it is, so that it may ask for another atom
  (`RawNames.FetchAsksForItsAtom`), and may take away a load's request (`CrossedLoads.LoadsWholeExactly`).
* The barrier is a fence for queued commands only: `getAtom` first asks on the caller's own socket, which
  waits at no barrier (`Probe.SurelySeenExactly`).
* The comment at `CogSimpleIO.cc:50-54` says that each call holds the lock around its exchange;
  `proxy_open` and `proxy_close` do not (`SimpleSocket.SafeExactlyWhenOneAtATime`).
* The search for ` . ` in an association list is not checked; a pair without it sends the decoder back
  to position 2 (`AListLoop.LoopEndsUnlessThrownBackTwice`).
* A colon in the path of an address without a port is taken for the port's (`Address.DefaultPortTaken`).

## Model

| member | source | states |
|---|---|---|
| MsgOrder.LiteralTestAcceptsOneText | opencog/persist/cog-storage/CogChannel.h:90-104 | the test for a sequence number accepts exactly the 18-character literal itself, so no newline-terminated update is numbered |
| MsgOrder.StrictWeakOrder | opencog/persist/cog-storage/CogChannel.h:106-116 | the comparison is irreflexive and transitive and its equivalence is transitive |
| MsgOrder.TextLessExactly | opencog/persist/cog-storage/CogChannel.h:111-116 | texts are ordered by the first character in which they differ, the smaller first, and a text comes before its extensions |
| MsgOrder.EquivalenceClasses | opencog/persist/cog-storage/CogChannel.h:106-116 | two messages are the same element of the set exactly when both are unnumbered with equal text, or have the same number |
| MsgOrder.InsertKeepsOneOfEachClass | opencog/persist/cog-storage/CogChannel.h:84-116 | insertion keeps the order, adds exactly the new message when no equivalent one is queued, and otherwise changes nothing |
| MsgOrder.NumberedFirstNewestFirst | opencog/persist/cog-storage/CogChannel.h:106-116 | in a sorted queue numbered messages precede all others, newest first, and no two elements are equivalent |
| MsgOrder.MsgBuffer.Enqueue | opencog/persist/cog-storage/CogChannel.cc:337-353 | a message is lost exactly when it is unnumbered and its text is already queued; otherwise the queue gains exactly that message; the order and the counter are kept |
| MsgOrder.MsgBuffer.PopFront | opencog/persist/cog-storage/CogChannel.h:106-116 | the front is taken and nothing else: the newest of the numbered messages if there are any, and otherwise the least of the texts |
| Flow.StepFlow | opencog/persist/cog-storage/CogChannel.cc:337-395 | every step of clients, workers and server keeps the invariant: order on every socket, at most one reply outstanding, barriers in step, calls conserved |
| History.ReachableIsSound | opencog/persist/cog-storage/CogChannel.cc:337-395 | in every reachable state the store is the replay of the requests applied, each reply is the answer to its own request, and each callback has done a prefix of what its reply asks for |
| Guarantees.NothingLostOrInvented | opencog/persist/cog-storage/CogChannel.cc:337-364 | in every reachable state the calls are exactly those queued, under way, applied or dropped, each once, and every dropped one is represented by an equal kept call of its epoch |
| Guarantees.MergedExactlyWhenWaiting | opencog/persist/cog-storage/CogChannel.h:84-116 | a call, by a client or by a callback, is merged if and only if its text is unnumbered and already queued |
| Guarantees.RepliesArePaired | opencog/persist/cog-storage/CogChannel.cc:357-378 | the reply a worker takes is the only one on its socket and is the answer to the request it sent, which was applied once |
| Guarantees.NothingOutstandingWhenIdle | opencog/persist/cog-storage/CogChannel.cc:357-363 | a worker that is not waiting has no reply outstanding, whatever no-reply commands it sent |
| Guarantees.FenceHolds | opencog/persist/cog-storage/CogChannel.cc:380-395 | when the server applies a request, every call of an earlier epoch, also those made by callbacks and on other sockets, has been applied, and its callback is complete |
| Guarantees.BarrierCompletesCallbacks | opencog/persist/cog-storage/CogChannel.cc:357-395 | when a barrier can return, each call with a reply, or the equal call it was merged with, was answered and its callback has made all its changes and requests |
| Guarantees.NumberedCallsAllApplied | opencog/persist/cog-storage/CogChannel.h:84-104 | in every drained run a numbered text is applied as often as it was enqueued |
| Guarantees.EnclosedCommand | opencog/persist/cog-storage/CogChannel.cc:380-395 | wherever a command stands in the server's order, every call of an earlier epoch was applied before it and every one of a later epoch after it |
| Guarantees.AloneCommand | opencog/persist/cog-storage/CogIO.cc:285-293 | a command alone in its epoch stands strictly between the earlier and the later epochs |
| Guarantees.ClearIsExact | opencog/persist/cog-storage/CogIO.cc:285-293 | after a clearing the store is the replay, on the empty store, of what was applied after it; earlier epochs came before, later ones after; if it is alone in its epoch the cut is exact |
| Guarantees.DrainedMeansSent | opencog/persist/cog-storage/CogChannel.cc:222-229 | when the plain barrier of closing returns, every call that was not merged has been applied, or is a no-reply command on the wire |
| Guarantees.NothingAfterClose | opencog/persist/cog-storage/CogStorage.cc:103-110 | once a command alone in the last epoch has been applied, it is the last, and every other call came before |
| Origins.EveryCall | opencog/persist/cog-storage/CogIO.cc:197-222 | what holds of the clients' calls, and of what their callbacks request, holds of every call of every run |
| Origins.ClearingProgram | opencog/persist/cog-storage/CogIO.cc:285-293 | in every drained run of every program that clears in some epoch, whatever else is called in it (an equal clearing included): everything earlier was applied before the clearing, everything later after it, and the store is what came after on an empty store; exact if the clearing is alone |
| Origins.ClosingProgram | opencog/persist/cog-storage/CogStorage.cc:103-110 | in every run in which a client closes the connection, whatever else is called: earlier epochs were applied before the closing, later ones behind it (commands without reply may still be on the wire); if it is alone in the last epoch, it is applied last of all |
| Cuts.KillDataCuts | opencog/persist/cog-storage/CogIO.cc:285-293 | barrier, clear, barrier, while other clients call what they like: everything enqueued before it began is gone, everything enqueued after it returned survives |
| Cuts.KillDataIsExact | opencog/persist/cog-storage/CogIO.cc:285-293 | if nobody else calls anything meanwhile, what survives is exactly what was enqueued after it returned |
| Cuts.CloseCuts | opencog/persist/cog-storage/CogStorage.cc:103-110 | barrier, proxy-close, barriers, while other clients call what they like, also afterwards: the closing was applied, everything enqueued before it began came before it, and what was enqueued behind a later barrier came after it |
| Cuts.CloseIsLast | opencog/persist/cog-storage/CogStorage.cc:103-110 | if nobody else calls anything from the barrier on, nothing is applied after the closing and everything was applied before it |
| Drain.StepLowers | opencog/persist/cog-storage/CogIO.cc:197-222 | every step of workers and server lowers a lexicographic measure, although callbacks enqueue more |
| Drain.NoDeadlock | opencog/persist/cog-storage/CogChannel.cc:357-395 | while anything is left, some worker or handler can move; the four barrier messages never block each other |
| Drain.DrainCompletes | opencog/persist/cog-storage/CogChannel.cc:380-395 | from every reachable state the system can run empty |
| Drain.NoEndlessDrain | opencog/persist/cog-storage/CogIO.cc:197-222 | there is no endless run without client calls |
| Drain.EveryBarrierReturns | opencog/persist/cog-storage/CogStorage.cc:118-121 | from every reachable state a barrier can come to return |
| Sequences.OrderAndRepetitionIrrelevant | opencog/persist/cog-storage/CogChannel.h:84-116 | commuting operations, the idempotent ones repeated or merged at will, have the same result in any order |
| Refinement.AsyncDoesWhatSimpleDoes | README.md:165-168 | for every program, schedule and server: if the requests of each epoch are independent and repeated ones are numbered or idempotent, the channel ends with the store and table of the one-at-a-time backend |
| SyncLoad.LoadsAgree | opencog/persist/cog-storage/CogIO.cc:249-273 | any program of loads and fetches of lists ends with the tables and values of the same loads done one at a time |
| SyncLoad.PlainFetchIsLook | opencog/persist/cog-storage/CogIO.cc:166-195 | fetching a link, or a node with a plain name, by itself is one of these loads |
| PerKey.OrderlyProgramsAgree | opencog/persist/cog-storage/CogIO.cc:82-144 | on a server that keeps atoms apart, programs of stores, removals, updates, fetches and loads agree with the one-at-a-time backend if what is called between two barriers is all looks, or concerns different atoms or different keys |
| PerKey.EveryKeeperServes | opencog/persist/cog-storage/CogIO.cc:82-144 | every way of treating single atoms and of printing lists makes such a server, because texts determine commands |
| Receive.DoRecv | opencog/persist/cog-storage/CogChannel.cc:250-316 | the receiving loop, on its byte buffer and without an index outside it, returns the specified reply or error and leaves the specified rest on the socket |
| Receive.SkipIdle | opencog/persist/cog-storage/CogChannel.cc:280-288 | the leading idle characters of a read are skipped, and no other |
| Receive.CutIdle | opencog/persist/cog-storage/CogChannel.cc:289-298 | the trailing idle characters of a read are cut, and no other |
| Receive.AnyCutReassembles | opencog/persist/cog-simple/CogSimpleStorage.cc:259-326 | every cutting of a clean reply into reads, with idle characters at their ends and as whole reads, returns exactly the reply and consumes exactly those reads |
| Receive.OutcomeExactly | opencog/persist/cog-storage/CogChannel.cc:250-316 | for all arrivals: a reply is returned if and only if some read ends in a newline, idle characters aside, before a close or a failure; it is what was kept of the reads up to the first such, and these are consumed; otherwise the close or failure is reported, whatever has come |
| Receive.ReadsKeepAll | opencog/persist/cog-storage/CogChannel.cc:250-268 | whatever the size of the buffer, the reads bring exactly the bytes that arrive before a close or a failure, in order, and none more than the buffer holds |
| Receive.PromptIsFirstRead | opencog/persist/cog-storage/CogChannel.cc:250-316 | when the prompt is expected, the first read with more than idle characters is the answer |
| Receive.BothBackendsReassemble | opencog/persist/cog-simple/CogSimpleStorage.cc:275-277 | with buffers of 8192 and of 4096 bytes both backends return the same whole reply from the same reads and consume the same |
| Receive.OneByteReadsDecide | opencog/persist/cog-storage/CogChannel.cc:250-316 | a newline-terminated reply survives being read byte by byte if and only if it has no inner newline, NUL or idle character |
| Sexpr.ParseInvertsPrint | tests/persist/cog-storage/ValueSaveUTest.cxxtest:622-637 | parsing a printed atom gives the atom and the text behind it, whatever quotes, backslashes and parentheses its names have |
| Sexpr.ParseInvertsPrintValue | tests/persist/cog-storage/ValueSaveUTest.cxxtest:639-660 | the same for vectors of numbers and strings, nested values and atoms |
| Sexpr.PrintedNumbers | examples/fetch-store.scm:31 | the printed form of a vector of numbers |
| Sexpr.PrintedStrings | examples/fetch-store.scm:71 | the printed form of a vector of strings |
| ListScan.DecodeAtomList | opencog/persist/cog-storage/CogIO.cc:197-222 | the `l`/`r` loop meets exactly the elements that the list specification says, and reports errors as it does |
| ListScan.ScanMovesForward | opencog/persist/cog-storage/CogIO.cc:204-221 | on every reply, well formed or not, the texts taken are pieces of the reply that lie strictly one behind the other |
| ListScan.ListScanInvertsPrinting | opencog/persist/cog-simple/CogSimpleIO.cc:201-234 | for every printed list of atoms the loop meets exactly these atoms, in order, each with its own printed text |
| AList.RoDecodeAlist | opencog/persist/cog-common/ListUtils.cc:35-74 | the atom's values become the left-to-right override by the pairs the loop takes, its wrap-around after a missing separator included; the table gains exactly the keys, the atoms at some place inside a value, and the atom; a loop without end is reported |
| AList.OverrideIsLastPair | opencog/persist/cog-common/ListUtils.cc:53-73 | a key gets the value of its last pair, and all other keys keep theirs |
| AList.AtomsInAreMentioned | opencog/persist/cog-common/ListUtils.cc:62-69 | the atoms found in a value are exactly those to which some path of indices through its nested vectors leads |
| AList.HousedMembers | opencog/persist/cog-common/ListUtils.cc:62-69 | the table gains exactly the keys, the atoms at some path in a value, and the atom itself |
| AList.AListRoundTrip | opencog/persist/cog-common/ListUtils.cc:26-34 | decoding a printed list of pairs reads exactly these pairs, in order |
| AListLoop.LoopEndsUnlessThrownBackTwice | opencog/persist/cog-common/ListUtils.cc:53-73 | the loop with its unchecked search ends if and only if it does not meet a pair without separator both on its way and again from where it is thrown back to |
| AListLoop.EndlessExactly | opencog/persist/cog-common/ListUtils.cc:53-73 | the decoder reports a loop without end exactly when the loop does not end |
| AListLoop.SeparatedListsEnd | opencog/persist/cog-common/ListUtils.cc:53-73 | a list with all its separators is decoded to the end |
| AListLoop.TwoBareKeysNeverEnd | opencog/persist/cog-common/ListUtils.cc:58-60 | a list of two bare keys is decoded for ever |
| RawNames.MisleadingExactly | opencog/persist/cog-storage/CogIO.cc:166-193 | the text a single fetch makes of an atom is another atom's printed form if and only if it is a node whose name is the escaped form of the other's |
| Commands.SameTextExactly | opencog/persist/cog-storage/CogIO.cc:82-321 | two commands are sent as the same text if and only if they are the same, or one is a single fetch and the other the key request for the atom its raw name stands for |
| Messages.CommandIsRead | opencog/persist/cog-storage/CogIO.cc:60-335 | a reader of the protocol takes the message of every proper command apart into the operation, the atoms in their places, the values and the flags that the command means |
| Messages.FetchIsRead | opencog/persist/cog-storage/CogIO.cc:166-195 | a single fetch is read as the key request for the link, or for the node whose name is read between the quotes as sent, and as nothing if that name breaks the quotes |
| Messages.ProbeIsRead | opencog/persist/cog-storage/CogIO.cc:166-186 | the probe before a single fetch is read as the question for the very atom that the fetch would ask for |
| CogIO.PacketsDifferExactly | opencog/persist/cog-storage/CogIO.cc:135-216 | in one table, two commands have the same text but different packets if and only if one is a single fetch with a misleading name and the other the key request it is mistaken for |
| CogIO.TextDeterminesPacket | opencog/persist/cog-storage/CogIO.cc:135-216 | in one table, without misleading single fetches, requests with the same text have the same callback and packet |
| CogIO.RepliesAre | opencog/persist/cog-storage/CogIO.cc:82-133 | exactly the store and update messages have the prefixes that are not replied to |
| CogIO.CallbackRequests | opencog/persist/cog-storage/CogIO.cc:197-222 | only list callbacks enqueue, and only key requests for the atoms of their reply |
| CogIO.RequestsAreForKeys | opencog/persist/cog-storage/CogIO.cc:212-216 | on a server that prints its lists, what a callback enqueues is the key request of a listed atom |
| CogIO.CallbacksAreFit | opencog/persist/cog-storage/CogIO.cc:197-222 | the client's callbacks meet the assumptions of the channel's theorems |
| CogIO.CallbackIsDecoder | opencog/persist/cog-storage/CogIO.cc:297-302 | for every reply, the keys callback's changes, made in order, leave on the atom what the decoder's loop leaves, touch no other atom's values, and make members of the table exactly the keys, the atoms inside values and the atom |
| CogIO.FetchedValueIsSet | opencog/persist/cog-storage/CogIO.cc:146-158 | a reply that begins with a printed value, whatever follows it, leaves exactly that value under the key on the atom, changes no other value, and makes members of the table exactly the atoms at some path in it |
| CogIO.FetchedNothingRemoves | opencog/persist/cog-storage/CogIO.cc:146-158 | a reply that is no expression, such as false, removes the value under the key and changes nothing else |
| CogIO.ListedAreAdded | opencog/persist/cog-storage/CogIO.cc:197-222 | the list callback adds exactly the atoms met in the reply to the table and sets no value |
| CogIO.ListPlanInOrder | opencog/persist/cog-storage/CogIO.cc:197-222 | element by element, the list callback puts the atom in the table and then asks for the keys of the text it was decoded from |
| CogIO.OtherRepliesIgnored | opencog/persist/cog-storage/CogIO.cc:99-111 | the replies to removals, clearing and proxy commands are thrown away |
| Load.OneTableAgrees | opencog/persist/cog-storage/CogIO.cc:197-222 | if the clients use the atoms of one table and make no misleading single fetch, calls with equal text carry equal packets in every reachable state, and every call is led by its own packet |
| Load.FetchesAreAnswered | opencog/persist/cog-storage/CogIO.cc:135-144 | when a barrier can return, every fetch of whose text the first call since the last barrier carries its packet has been answered, and its own callback has made all its changes |
| Fetches.ValueIsFetched | opencog/persist/cog-storage/CogIO.cc:135-158 | when a barrier can return after a value fetch or a query led by its own packet, the value that the server's answer begins with has been put under the key on the atom, and its atoms are in the table; or the value was removed if the answer is none |
| Fetches.FetchedValueStays | opencog/persist/cog-storage/CogIO.cc:135-158 | if no other call of this or a later epoch concerns the key, the table has there exactly what the answer says |
| Load.LoadIsComplete | opencog/persist/cog-storage/CogIO.cc:249-263 | when a load's barrier can return, and the load and the key requests of its epoch are led by their own packets, every atom of the server's list is in the table and the pairs of its keys reply have been put on it |
| Repeats.AlwaysAppliedExactly | opencog/persist/cog-storage/CogChannel.h:84-116 | an unnumbered text that no callback requests is applied as often as the program calls it, in every drained run, if and only if the program does not call it twice between the same two barriers |
| Repeats.RepeatsCanMerge | opencog/persist/cog-storage/CogChannel.cc:337-364 | every program that does has a drained run in which it is applied less often |
| Repeats.SurelyServedExactly | opencog/persist/cog-storage/CogChannel.h:111-116 | a request of a program, with an unnumbered text that no callback requests, is applied with its own packet in every drained run, its callback complete, if and only if the first request with that text since the last barrier carries the same packet |
| Repeats.AlwaysServedExactly | opencog/persist/cog-storage/CogChannel.h:111-116 | every request of a program with such a text gets its own answer in every drained run if and only if the program does not make it twice with different packets between the same two barriers |
| Merging.RepeatedCommandsMerge | opencog/persist/cog-storage/CogChannel.h:84-116 | the shortest such run: two equal unnumbered commands are applied once |
| Merging.SecondPacketIsLost | opencog/persist/cog-storage/CogChannel.h:111-116 | a run in which a fetch merged with an equal text but another packet is never served |
| Merging.CallbackPacketIsLost | opencog/persist/cog-storage/CogIO.cc:212-216 | a run in which a callback's request, merged with a client's equal text, is never served |
| Gaps.NothingTakesSequence | opencog/persist/cog-storage/CogChannel.h:95-99 | no message that the client builds gets a sequence number |
| Gaps.UpdatesAppliedExactly | opencog/persist/cog-storage/CogIO.cc:123-133 | with the test as written, a program has every update applied in every drained run if and only if it does not make the same update twice between two barriers |
| Gaps.UpdatesAreMerged | opencog/persist/cog-storage/CogIO.cc:123-133 | the shortest run in which an update made twice reaches the server once |
| Gaps.NumberedUpdatesAllApplied | opencog/persist/cog-storage/CogChannel.h:84-104 | with the intended test every update made is applied, in every drained run |
| Gaps.FetchesServedExactly | opencog/persist/cog-storage/CogIO.cc:135-144 | for every command but the key requests, whatever the tables: a program has each such request answered for its own packet, on every schedule, if and only if it does not make it for two packets between the same two barriers |
| Gaps.TwoTablesLoseAnAnswer | opencog/persist/cog-storage/CogIO.cc:135-144 | the shortest run of a program that does: with two tables, a fetch made while the same text waits leaves its atom without the value that the one-at-a-time backend puts there |
| RawNames.FetchAsksForItsAtom | opencog/persist/cog-storage/CogIO.cc:166-195 | a single fetch asks for the keys of its own atom if and only if the atom is a link or its name has neither quotes nor backslashes |
| OneList.MistakenFetchLosesAnAnswer | opencog/persist/cog-storage/CogIO.cc:166-222 | the shortest run, in one table, of a program that is crossed in the sense of the next row: a node with a misleading name is fetched while a list is loaded, and the listed atom it is mistaken for never gets its values |
| CrossedLoads.LoadsWholeExactly | opencog/persist/cog-storage/CogIO.cc:166-222 | an arbitrary program, in any tables, loads all its lists whole, on every server that prints lists and under every schedule, if and only if between two barriers with a list all lists are for its table, and no single fetch that is the first with its text has the text of a listed atom's key request but another packet than that atom's in that table |
| CrossedLoads.TwoListsExactly | opencog/persist/cog-storage/CogIO.cc:197-263 | two lists requested beside each other, the same or different ones, are both loaded whole if and only if they are for one table |
| CrossedLoads.OneFetchExactly | opencog/persist/cog-storage/CogIO.cc:166-222 | a list with one single fetch beside it is loaded whole if and only if the atom is no node with a misleading name, and is of the list's table or sent as no key request |
| CrossedLoads.OwnFetchProtects | opencog/persist/cog-storage/CogIO.cc:166-222 | if the atom that a fetch is mistaken for is itself fetched first, the list is loaded whole all the same |
| Probe.ProbeSeesFinishedEpochs | opencog/persist/cog-storage/CogIO.cc:182-186 | a probe is answered from a store that has every call of the epochs the server has finished |
| Probe.SurelySeenExactly | opencog/persist/cog-storage/CogChannel.cc:320-331 | after a barrier has returned, a probe surely sees the calls of a text made before it if and only if the server replies to that text |
| Probe.FetchAfterBarrierInVain | opencog/persist/cog-storage/CogIO.cc:166-195 | a run in which an atom is stored, the barrier has been sent on all four sockets and has returned, and fetching the atom finds it unknown and requests nothing |
| Fetches.FetchAtomAsks | opencog/persist/cog-storage/CogIO.cc:166-195 | fetching an atom changes nothing if the probe is answered by an empty list, and otherwise makes exactly one call, with the key request of the atom's raw name for the atom in its table, which then waits |
| Fetches.AtomIsFetched | opencog/persist/cog-storage/CogIO.cc:166-195 | end to end: an atom the server knows is fetched; when a barrier can return and the call is led by its own packet, the pairs of the server's answer have been put on the atom, and what they mention is in the table |
| SimpleSocket.GuardedRunsArePaired | opencog/persist/cog-simple/CogSimpleIO.cc:50-72 | with all exchanges under the lock, in every interleaving, each thread gets the reply to its own request, and nothing is outstanding while the lock is free |
| SimpleSocket.SafeExactlyWhenOneAtATime | opencog/persist/cog-simple/CogSimpleStorage.cc:223-241 | with exchanges outside the lock, no reply can go astray if and only if no two threads ever wait at the same time |
| SimpleSocket.ProxyCloseTakesAnothersReply | opencog/persist/cog-simple/CogSimpleStorage.cc:229-241 | a run in which closing the proxy, its locked barrier included, takes the reply of another thread's fetch |
| FrameCache.Store.CacheFrame | opencog/persist/cog-simple/CogSimpleIO.cc:341-352 | both maps become those of caching the frames below first and then the frame, never replacing an entry |
| FrameCache.Store.WriteFrame | opencog/persist/cog-simple/CogSimpleIO.cc:354-381 | state and messages go on as one step of the run: a frame not cached is sent once and cached with all below it; a cached one changes nothing; the short name is returned either way |
| FrameCache.Store.StoreFrameDAG | opencog/persist/cog-simple/CogSimpleIO.cc:383-387 | writes the frame and switches to several spaces |
| FrameCache.Store.KillData | opencog/persist/cog-simple/CogSimpleIO.cc:288-301 | sends the clearing and empties both maps |
| FrameCache.CacheIsKnown | opencog/persist/cog-simple/CogSimpleIO.cc:341-387 | in every run the cached frames are exactly those written since the last clearing and those below them; they are closed under outgoing sets |
| FrameCache.SentExactlyWhenNew | opencog/persist/cog-simple/CogSimpleIO.cc:354-381 | writing a frame sends its definition if and only if neither it nor a frame above it has been written since the last clearing, and otherwise nothing |
| FrameCache.ReadInvertsEncode | opencog/persist/cog-simple/CogSimpleIO.cc:368-377 | a reader of frames gets back the whole hierarchy from what is sent, whatever follows |
| FrameCache.DefinitionReads | opencog/persist/cog-simple/CogSimpleIO.cc:368-381 | a definition is read as defining its frame |
| FrameCache.ShortNameReads | opencog/persist/cog-simple/CogSimpleIO.cc:341-352 | a short name is read as a frame of that name |
| FrameCache.KnownIsTaught | opencog/persist/cog-simple/CogSimpleIO.cc:341-387 | in every run the frames that are not sent again are exactly those that stand somewhere in a definition sent since the last clearing, as the server reads it |
| FrameCache.SentOnlyWhenNew | opencog/persist/cog-simple/CogSimpleIO.cc:354-381 | once a frame has been written, writing it or a frame below it sends nothing until the data are killed |
| FrameCache.InverseExactlyWhenNamesDiffer | opencog/persist/cog-simple/CogSimpleIO.cc:341-352 | the two maps are inverse to each other if and only if the known frames have distinct names |
| Address.BackendsAgree | opencog/persist/cog-simple/CogSimpleStorage.cc:112-128 | both backends take every URI apart alike |
| Address.ExplicitPortFound | opencog/persist/cog-storage/CogChannel.cc:100-115 | for every host, port and path, taking the printed address apart gives that host and port |
| Address.DefaultPortTaken | opencog/persist/cog-storage/CogChannel.cc:105-115 | without a port, the default is taken if and only if the path has no colon, or its first colon is followed by the default |
| Address.RejectedExactly | opencog/persist/cog-simple/CogSimpleStorage.cc:54-88 | a URI is rejected, by both backends, if and only if it does not start with cog:// or has a question mark |
| Address.ColonInPathTaken | opencog/persist/cog-storage/CogChannel.cc:105-115 | cog://h/a:b is taken apart to the port b, and cog://h/ to the default 17001 |

## Left out

- Socket system calls, name resolution, socket options and partial sends: foreign I/O; only byte streams, reads and failures are modelled.
- The unset table in the packet of `getAtom`'s probe (CogIO.cc:184): it is taken to start out null, as is meant.
- Channels sharing a thread: `do_send` does not look at the owner of the thread's socket; one channel per thread is assumed.
- Wrap-around of the sequence counter at the end of `size_t`: numbers are unbounded.
- Exceptions thrown in callbacks: a list callback does what it did before the fault, and a badly formed list or pair ends the decoding; the abort of the process that the source mentions is not modelled.
- AList.RoDecodeAlist: where the source would go round for ever, the method returns and says so, with the pairs put so far.
- Receive.AnyCutReassembles: is about replies, not about the unterminated prompt that is read and thrown away when a connection is opened (Receive.DoRecv covers that read).
- ListScan.DecodeAtomList: decodes through a given decoder; the printed lists of the theorem fix it to the parser of `Sexpr`, and comments inside lists are not modelled.
- PerKey.OrderlyProgramsAgree: assumes a server that treats each atom by itself; removals that take links along are covered by the general theorem, `Refinement.AsyncDoesWhatSimpleDoes`, only.
- Probe.SurelySeenExactly: is about texts without sequence number, as all texts the client builds are.
- Gaps.FetchesServedExactly: leaves out the key requests, which callbacks make as well; for them the exact condition is that of `CrossedLoads.LoadsWholeExactly`.
- Drain.StepLowers: assumes what `CogIO.CallbacksAreFit` proves of the client, that list requests lead to key requests and these to none.
- SimpleSocket.GuardedRunsArePaired: the texts a thread sends are arbitrary, so what it does with a reply does not matter and is not modelled.
- FrameCache.ReadInvertsEncode: is about names without quotes and backslashes; how other names of frames are written is not in the repository.
- FrameCache.CacheIsKnown: frames filled in by loadFrameDAG are not modelled, because the decoding of frames is not in the repository; frames are values, equal when their names and hierarchies are.
- Several AtomSpaces in the simple backend beyond the name cache: the source calls this incomplete and broken.
- The execution of queries and the semantics of proxies: the server's; of `runQuery` the message, its packet and its callback are modelled.
- The textual form of numbers: numbers are any non-empty text of the characters numbers are written with.
- Order in which workers pop: any order is allowed, so the order of the buffer matters only for merging.
- Statistics, monitoring texts, watermarks, stalling and the flush of the buffer: not part of what is computed.
- Guile bindings, type registration and build files: plumbing.
