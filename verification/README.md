# Verification of a collection of concurrent C and C++ programs

The programs are small, but most of them are protocols: threads or processes over shared rings,
semaphores and mutexes, a UDP broadcast network, a TCP broker. Each is modelled as a machine whose
steps are single semaphore operations, lock operations, datagrams, critical sections or accesses to
shared memory, with the number of threads, the capacities and the lengths as parameters; theorems
hold for every interleaving of these steps. What the source updates in place is also a class with the
same fields. Its methods either are proved to do what functions of the machine do (`CyclicQueue`,
`SharedMemory`, `SharedBuffer`, `ResultList`, `Package`, `LogsQueue`, `WorkerTable`, `Server`), or
have a contract of their own that lemmas relate to runs of the machine (`Client`, in `ClientRuns`).

| module | program | subject |
|---|---|---|
| `Reduction`, `CyclicQueue` | hw9 | pairwise parallel sum over a cyclic queue read without its lock |
| `PinCheck`, `Pipeline`, `SharedMemory` | os_ihw2 | three stages of workers over two bounded rings |
| `Chunks`, `Encoding`, `ChunkClaims`, `ListEncoder`, `ResultList` | ihw4, version 1 | parallel encoder with a sorted doubly linked list |
| `Comparer`, `SlotEncoder`, `ResultsArray` | ihw4, versions 2 and 3 | the same with claimed slots and a sort |
| `Messages`, `Client`, `Network`, `ClientRuns`, `Delivery`, `Provenance`, `Service`, `Passage`, `Storm` | os_ihw4, mark 10 | UDP broadcast protocol over a lossy network |
| `SplitMutexRing`, `SharedBuffer`, `Admission` | os_hw8 | one ring under two mutexes |
| `LogsQueue` | os_ihw3, mark 10 | bounded queue with an enqueue that never blocks |
| `PinsQueue`, `Broker`, `WorkerTable`, `Poller`, `Server` | os_ihw3, mark 4-5 | TCP broker with slot tables and two queues |
| `Fibonacci`, `Factorial`, `Wrapping` | os_hw3 | modular arithmetic with overflow flags |
| `Prelude`, `Sums`, `Ring` | all | stock definitions; sums over sequences; the ring buffer |

Sizes that are parameters: the number of generators n and the capacity of the queue of hw9, with
2 <= n <= capacity (for n = 1 the program would declare an array of length zero); workers and
capacities of os_ihw2 and os_hw8; threads and string length of ihw4; clients, their roles
and the size of the log queue of os_ihw4. What a socket answers, which receive fails, which datagram
copies are lost, which numbers and pins are drawn, and whether a mutex is found taken are arbitrary
inputs of the steps.

Two results concern behaviour the programs do not seem to intend:

- The guard of the broker's second stage (os_ihw3/mark-4-5/net/server.c:212-215) skips the stage when
  the queue to the second stage is full and the queue from it is empty. That state is modelled as
  written: it is reachable, it lasts forever, and it is the only one in which pins cannot move when
  every stage has workers. No unconditional progress is claimed.
- The comparer of versions 2 and 3 of the encoder cuts a 64-bit difference down to int. It is an order
  on chunk numbers exactly up to 2^31 chunks, so the theorem on the printed output asks for that. No
  string the programs can read comes near: they take at most 2047 characters from a file or the
  console (ihw4/version_2/encoder_config.h:18), or one command-line argument. The limit excludes no
  real input.

The source calls `store_result` and the printing loops with results that may be missing; those cases
are part of the model. Where a comment of the source and its code differ, the code is modelled: a
comment in os_hw8/reader.c:5-6 speaks of a single reader process, the code admits two.

## Model

| member | source | states |
|---|---|---|
| `Reduction.FrontIsTheSum` | hw9/main.cpp:191-209 | When the main thread reads `Front()`, exactly one entry is unread and it is n(n+1)/2 modulo 2^32, in every interleaving of n generators, n-1 adders and the main thread |
| `Reduction.MaximalRunsReturnTheSum` | hw9/main.cpp:191-217 | A run that cannot be continued has returned, with the sum as its answer: no interleaving hangs or answers anything else |
| `Reduction.TwentyGeneratorsReturn210` | hw9/main.cpp:19-20 | The constants of the program (20 generators, 64 cells) give 210 |
| `Reduction.EveryRunEnds` | hw9/main.cpp:140-209 | Every run has at most 24n steps |
| `Reduction.NeverDeadlocked` | hw9/main.cpp:98-119 | Whenever the main thread is blocked, some pusher can take a step |
| `Reduction.NeverOverfull` | hw9/main.cpp:58-68 | There are never more than n unread entries, so a write never reaches an unread cell |
| `Reduction.UnlockedReadsAreSafe` | hw9/main.cpp:107-119 | The reads of `PopPair` outside the lock find a written, unread entry, and never the cell a pusher is writing |
| `Reduction.LastPairIsTight` | hw9/main.cpp:195-207 | The counting argument is tight: the last pair is popped only after all earlier pushers have finished |
| `Reduction.LastEntry` | hw9/main.cpp:205-207 | After all pairs and all adders, the one entry left is the sum |
| `Reduction.PusherCarries` | hw9/main.cpp:98-105 | A step of a pusher leaves the sum carried by pending threads, the ring and the main thread unchanged modulo 2^32; only the addition of an adder reduces it |
| `Reduction.MainCarries` | hw9/main.cpp:191-204 | A step of the main thread leaves the carried sum unchanged modulo 2^32 |
| `Reduction.RoomToWrite` | hw9/main.cpp:98-105 | A pusher that has yet to write finds fewer than n unread entries |
| `Reduction.PairIsWritten` | hw9/main.cpp:107-119 | Every semaphore permit, taken or not, stands for an entry that is written |
| `Reduction.PusherDecreases` | hw9/main.cpp:140-170 | Each step of a generator or adder lowers the whole-run measure |
| `Reduction.MainDecreases` | hw9/main.cpp:191-209 | Each step of the main thread lowers the whole-run measure |
| `Reduction.ReachableIsSound` | hw9/main.cpp:58-209 | The invariant (lock owner, permits, ring contents, carried sum) holds in every reachable state |
| `CyclicQueue.CyclicQueue.Push` | hw9/main.cpp:98-105 | In place: the number becomes the newest entry, and one permit is posted |
| `CyclicQueue.CyclicQueue.PopPair` | hw9/main.cpp:107-119 | In place: the two oldest entries leave the queue in order, for two permits |
| `CyclicQueue.CyclicQueue.Front` | hw9/main.cpp:121-123 | The oldest entry |
| `CyclicQueue.CyclicQueue.Back` | hw9/main.cpp:125-128 | The newest entry, also when the write index has wrapped |
| `Ring.Ring.PutHolds` | hw9/main.cpp:98-105 | A ring that holds a queue shorter than its size holds it with the new entry appended after a put; the ring underlies all queues here |
| `Ring.Ring.DropHolds` | hw9/main.cpp:107-119 | The cell at the read index is the oldest entry; advancing the index removes just that entry |
| `Ring.Ring.StoreHolds` | hw9/main.cpp:98-105 | Writing the cell at the write index disturbs no entry as long as the ring is not full |
| `Ring.Ring.IndicesDiffer` | os_hw8/writer.c:184-187 | Between empty and full, the read and the write index never meet |
| `Pipeline.NeverDeadlocked` | os_ihw2/mark-4-5/workers.c:53-107 | For any workers with at least one at each stage and any capacity from 1, every reachable state has an enabled step |
| `Pipeline.StalledIsDrained` | os_ihw2/mark-4-5/workers.c:127-219 | If only new pins could set the pipeline going again, both rings are empty and every worker waits at the start of its loop |
| `Pipeline.PinsAreConserved` | os_ihw2/mark-4-5/workers.c:127-219 | Pin by pin: produced equals held by workers plus both rings plus consumed; and what was sent to a ring equals what was received from it followed by its contents, in order |
| `Pipeline.OnlyStraightPinsAreConsumed` | os_ihw2/mark-4-5/workers.c:25-36 | A consumed pin passed the parity check, and is never consumed more often than produced |
| `PinCheck.StraightMeansOddBits` | os_ihw2/mark-4-5/workers.c:30-32 | A pin passes the parity check exactly when an odd number of its 32 bits are one |
| `PinCheck.ParityCountsBits` | os_ihw2/mark-4-5/workers.c:30-32 | The parity is that of the number of positions with a one bit |
| `Pipeline.DrainedDeliversEverything` | os_ihw2/mark-4-5/workers.c:127-219 | When the pipeline comes to rest, the pins consumed are exactly the pins produced |
| `Pipeline.EveryPinTakesTwentySteps` | os_ihw2/mark-4-5/workers.c:53-107 | A run makes at most twenty steps per pin, and exactly twenty per pin when it comes to rest |
| `Pipeline.NoWorkIffStalled` | os_ihw2/mark-4-5/workers.c:53-107 | No step is enabled without a new pin exactly when no work is left |
| `Pipeline.SectionsAreExclusive` | os_ihw2/mark-4-5/workers.c:53-107 | No two workers are ever inside the section of the same ring |
| `Pipeline.PermitIsBacked` | os_ihw2/mark-4-5/workers.c:53-107 | A worker about to write finds a free cell, one about to read finds a pin |
| `Pipeline.SendKeepsBalance` | os_ihw2/mark-4-5/workers.c:80-107 | Each step of sending keeps the permit accounting of a ring |
| `Pipeline.ReceiveKeepsBalance` | os_ihw2/mark-4-5/workers.c:53-79 | Each step of receiving keeps the permit accounting of a ring |
| `Pipeline.SendConserves` | os_ihw2/mark-4-5/workers.c:80-107 | No step of sending loses or duplicates a pin |
| `Pipeline.ReceiveConserves` | os_ihw2/mark-4-5/workers.c:53-79 | No step of receiving loses or duplicates a pin; at the last stage it leaves as consumed |
| `Pipeline.ReachableIsSound` | os_ihw2/mark-4-5/resources.c:62-83 | From the initial semaphore values, the permit and conservation invariants hold in every reachable state |
| `SharedMemory.SharedMemory.SendPin` | os_ihw2/mark-6-7/workers.c:80-107 | In place: the pin becomes the newest; the whole operation is the five machine steps of sending |
| `SharedMemory.SharedMemory.WaitForPin` | os_ihw2/mark-6-7/workers.c:53-79 | In place: the oldest pin is taken; the whole operation is the five machine steps of receiving |
| `SharedMemory.SharedMemory.constructor` | os_ihw2/mark-4-5/resources.c:62-83 | The semaphore values the shared memory starts with |
| `ResultList.ResultList.StoreResult` | ihw4/version_1/main.c:134-178 | On the heap: next and prev stay mutually inverse, head and tail right, the list acyclic and ascending, strictly if the chunk number is new; its nodes are the old ones plus the new one, placed where `Insert` puts it |
| `ResultList.ResultList.FindPredecessor` | ihw4/version_1/main.c:141-149 | The backward scan stops at the last node with a smaller chunk number: all nodes behind that place have no smaller one |
| `ResultList.ResultList.LinkBehind` | ihw4/version_1/main.c:151-178 | Splicing in behind a node, or at the head, keeps all links right |
| `ResultList.EncodeChunk` | ihw4/version_1/main.c:216-249 | Encoding a chunk in place stops after 128 characters or at the end of the string, and leaves the rest zero |
| `ResultList.ResultList.PrintEncodingResults` | ihw4/version_1/main.c:180-198 | Walking the list prints, for each chunk, the codes before its first NO_CODE and nothing behind it |
| `ListEncoder.EveryInterleavingPrints` | ihw4/version_1/main.c:127-249 | For every interleaving of any number of threads, once nothing more can happen the list is the results in chunk order, and what is printed is the sequential specification |
| `ListEncoder.EveryRunEnds` | ihw4/version_1/main.c:216-249 | A run has at most two steps per chunk and one per thread |
| `ListEncoder.AlwaysStrictlyAscending` | ihw4/version_1/main.c:134-178 | In every reachable state the list ascends strictly: no chunk is in it twice |
| `ListEncoder.InsertKeepsStrict` | ihw4/version_1/main.c:134-178 | Inserting a chunk number not yet there keeps the list strictly ascending |
| `ListEncoder.InsertAddsOne` | ihw4/version_1/main.c:134-178 | Insertion adds exactly the one result |
| `ListEncoder.StepAccounts` | ihw4/version_1/main.c:127-132 | Each claimed chunk is with exactly one thread or once in the list |
| `Encoding.LettersHaveCodes` | ihw4/version_1/main.c:5-81 | Exactly the letters have a code other than NO_CODE |
| `Encoding.LetterRoundTrip` | ihw4/version_1/main.c:5-81 | Decoding the code of a letter gives the letter back |
| `Encoding.PrintsEverythingIffLetters` | ihw4/version_1/main.c:180-198 | All codes are printed exactly when the text consists of letters; otherwise a chunk is cut at its first character without a code |
| `Encoding.PrintedDecodes` | ihw4/version_1/main.c:180-198 | For letters the printed codes decode to the text, and two such texts never print alike |
| `Encoding.PrintInOrder` | ihw4/version_1/main.c:180-198 | Printing the results in chunk order is the sequential specification |
| `Encoding.PrintedPieces` | ihw4/version_1/main.c:180-198 | What is printed for any text: for each chunk of 128 characters, the codes of those before the first one that is no letter; the rest of the chunk is left out and the next chunk follows |
| `Encoding.LettersEndSomewhere` | ihw4/version_1/main.c:180-198 | There is such a position in every chunk |
| `Chunks.PrintingStops` | ihw4/version_1/main.c:189-193 | What is printed of a chunk's cells is all before the first NO_CODE, and no more |
| `Chunks.StopIsUnique` | ihw4/version_1/main.c:189-193 | And nothing else is: any prefix without NO_CODE that ends at one, or at the end, is what is printed |
| `Chunks.PrintCodes` | ihw4/version_1/main.c:189-193 | The inner printing loop, as a loop: the cells before the first NO_CODE |
| `Chunks.PiecesPrint` | ihw4/version_1/main.c:180-198 | For any character encoding, the printed text consists of these pieces, chunk by chunk |
| `Encoding.NoCodeIsNeverPrinted` | ihw4/version_1/main.c:180-198 | NO_CODE never appears in the output |
| `Chunks.PaddingIsInvisible` | ihw4/version_1/main.c:200-214 | The zeroed rest of a chunk does not show in the output |
| `Chunks.ChunkSplit` | ihw4/version_1/main.c:216-249 | Chunk k, found by its offset, is the first chunk of what follows the chunks before it |
| `SlotEncoder.EveryInterleavingPrints` | ihw4/version_2/main.c:124-221 | For every interleaving that cannot be continued, and whatever permutation qsort yields in comparer order, the output is the same sequential specification as in version 1 |
| `SlotEncoder.AllSlotsFilled` | ihw4/version_2/main.c:188-221 | When all threads have ended, exactly the claimed slots are filled, one per chunk |
| `SlotEncoder.SlotIsAvailable` | ihw4/version_2/main.c:128-135 | A thread that claims a slot gets one inside the array |
| `SlotEncoder.OwnSlotIsEmpty` | ihw4/version_2/main.c:128-135 | No stored result is overwritten |
| `Comparer.ComparerIsAnOrderIff` | ihw4/version_2/main.c:137-144 | The comparer, which cuts a 64-bit difference down to int, orders chunk numbers correctly if and only if there are at most 2^31 chunks, which every string the program can read has |
| `Comparer.CompareFails` | ihw4/version_2/main.c:137-144 | The first pair the comparer gets wrong |
| `SlotEncoder.EveryRunEnds` | ihw4/version_2/main.c:188-221 | A run has at most three steps per chunk and one per thread |
| `SlotEncoder.CharactersAreEnoughSlots` | ihw4/version_3/main.c:187-238 | One slot per character, as version 3 allocates, is enough |
| `SlotEncoder.StepKeepsFullInv` | ihw4/version_3/main.c:195-232 | Each step keeps every slot owned by one thread, free or filled, and every chunk accounted for once |
| `SlotEncoder.FinalStatePrints` | ihw4/version_3/main.c:85-114 | After sorting, the final array prints the sequential specification |
| `ResultsArray.Package.StoreResult` | ihw4/version_2/main.c:128-135 | In place: the result goes to the next free slot, which was empty; a missing result stores nothing |
| `ResultsArray.StoreIsTwoSteps` | ihw4/version_2/main.c:128-135 | Without interference, the two steps of the interleaving model that claim a slot and fill it do the same |
| `ResultsArray.Package.GetNextChunkNo` | ihw4/version_2/main.c:124-126 | In place: chunk numbers are handed out one by one |
| `ResultsArray.Package.PrintEncodingResults` | ihw4/version_2/main.c:150-170 | The printing loops yield the codes of the slots up to the first NO_CODE of each |
| `Client.Client.SkipMessagesNotFromTheServer` | os_ihw4/mark-10/net/client-tools.c:148-176 | Whichever receive fails, if any: without a failure exactly the messages before the first one for this client are dropped, and it is found or the inbox is empty; otherwise exactly those dropped before the failure |
| `Client.UnaddressedIsLongest` | os_ihw4/mark-10/net/client-tools.c:148-176 | The messages skipped are the longest prefix without one for this client |
| `Client.LongestIsUnaddressed` | os_ihw4/mark-10/net/client-tools.c:148-176 | And only they are |
| `Client.Client.ClientShouldStop` | os_ihw4/mark-10/net/client-tools.c:209-229 | True exactly when the socket is dead, a receive fails (which the source asserts not to happen), or the first message for this client is a shutdown message; which messages are left |
| `Client.Client.ReceiveData` | os_ihw4/mark-10/net/client-tools.c:231-257 | Whichever receive fails, if any: unless it fails before, the first message for this client is returned, or stops it if it is a shutdown message; messages of other clients never end the loop, although `continue` evaluates its condition; nothing behind is touched; it waits exactly when there is none |
| `Client.Client.ReceivePin` | os_ihw4/mark-10/net/client-tools.c:299-320 | A pin is received exactly when no receive fails before and the first message for this worker is a pin, and it is that one; accepted pins are, in order, the addressed pins consumed |
| `Client.Client.SendManagerCommandToServer` | os_ihw4/mark-10/net/client-tools.c:336-354 | A failed send or receive, or a shutdown message, answers NO_CONNECTION; else the answer is that of the first message for the manager, and the final assertion holds; without such a message it waits |
| `ClientRuns.SkippingIsARun` | os_ihw4/mark-10/net/client-tools.c:148-176 | In the machine of the network, skipping is a run of single receives that moves just those messages from the inbox to those received |
| `ClientRuns.ReceivingIsARun` | os_ihw4/mark-10/net/client-tools.c:231-257 | In the machine of the network, receiving the first message for a client is a run of single receives; a pin is held from then on, a shutdown message stops the client |
| `Client.Client.Take` | os_ihw4/mark-10/net/client-tools.c:231-244 | Consuming one message keeps the accepted pins equal to the addressed pins consumed |
| `Messages.AddressedKinds` | os_ihw4/mark-10/net/server-tools.c:82-100 | Besides shutdown messages a client is addressed by only one kind of message, and by name |
| `Messages.ClientMessagesMissClients` | os_ihw4/mark-10/net/client-tools.c:18-35 | No message a client sends addresses a client |
| `Messages.ShutdownReaches` | os_ihw4/mark-10/net/server-tools.c:82-100 | A shutdown message reaches every client, or exactly the clients it names |
| `Provenance.AlwaysDisciplined` | os_ihw4/mark-10/net/server-tools.c:141-175 | In every reachable state of the whole system, every message sent or under way obeys the rules on sender, receiver and kind which `receive_data` depends on |
| `Provenance.StepDisciplined` | os_ihw4/mark-10/net/server-tools.c:190-303 | No step of any component sends a message outside these rules |
| `Provenance.AcceptedPinsPassedEveryStage` | os_ihw4/mark-10/net/server-tools.c:141-215 | Every pin a third stage worker accepts was broadcast to it by the server, resent and accepted by a second stage worker, broadcast to the second stage, and produced by a first stage worker after the parity check |
| `Provenance.PinsMultiplyBySecondWorkers` | os_ihw4/mark-10/net/server-tools.c:159-175 | With S second stage workers, a pin is broadcast to the third stage at most S times as often as first stage workers produced it, and so are all pins together, however much is lost |
| `Provenance.EveryCallIsAnswered` | os_ihw4/mark-10/net/server-tools.c:141-303 | Exact accounts over every run: the pins from each stage (one pin, or all), the orders and the shutdowns they ask for are in the server's inbox, lost on the way to it, about to be answered, or answered by exactly one broadcast each |
| `Provenance.ReachedServerReacts` | os_ihw4/mark-10/net/server-tools.c:141-303 | When nothing to the server was lost or waits there, it has passed on every pin produced, answered every order and sent every shutdown asked for, once each |
| `Provenance.CallsAreBegun` | os_ihw4/mark-10/net/client-tools.c:286-354 | What calls for a reaction is exactly what the clients have produced and ordered |
| `Provenance.AcceptedPinsAreResent` | os_ihw4/mark-10/net/client-tools.c:299-320 | Over every run, the pins the second stage accepted are exactly those it holds and those it has resent |
| `Provenance.EveryClientGetsEverything` | os_ihw4/mark-10/net/client-tools.c:231-257 | A client receives each broadcast once, unless its copy is lost or still waits |
| `Provenance.LosslessRunsDeliverEverything` | os_ihw4/mark-10/net/server-tools.c:141-215 | If nothing was lost, then at rest each pin was accepted by every second stage worker as often as it was produced, and by every third stage worker that often for each second stage worker |
| `Provenance.QuietMeansAtRest` | os_ihw4/mark-10/net/server-tools.c:305-360 | When there is nothing left to react to: running clients have received and resent everything, a polling server has answered everything, a logging one has sent its logs, an ended one has said farewell |
| `Provenance.PlanSettles` | os_ihw4/mark-10/net/server-tools.c:141-303 | What the poller plans about a message is exactly what the message calls for: its pin to the next stage, the result of the order, the shutdown of the clients named |
| `Provenance.StepSettled` | os_ihw4/mark-10/net/server-tools.c:135-303 | Each step of each component keeps these accounts |
| `Provenance.StepSharpened` | os_ihw4/mark-10/net/client-tools.c:299-320 | Each step keeps the accounts of accepted, held and resent pins |
| `Passage.PinsCanGoThrough` | os_ihw4/mark-10/net/server-tools.c:141-215 | Any pin that passes the parity check can go all the way: a run in which the third stage worker accepts it |
| `Passage.OrdersCanStopClients` | os_ihw4/mark-10/net/server-tools.c:238-256 | Clients of any role can be stopped: a run in which a manager's order does it |
| `Delivery.EveryDatagramIsAccountedFor` | os_ihw4/mark-10/net/client-tools.c:275-284 | Conservation of datagrams over every run, by any measure on messages: at the server and at each client, what was sent by anybody waits, has been received, or was lost |
| `Delivery.StepBalanced` | os_ihw4/mark-10/net/client-tools.c:275-284 | Each step keeps that balance, wherever in an inbox a copy arrives |
| `Service.OrdersAreCarriedOut` | os_ihw4/mark-10/net/server-tools.c:238-303 | When nothing to the server was lost or waits, each order has had one result, Success exactly for one of the six components, and the clients it names one shutdown message |
| `Service.OnlyTwoResults` | os_ihw4/mark-10/net/server-tools.c:238-256 | The server never reports an internal error or a missing connection |
| `Service.TellingIsCounted` | os_ihw4/mark-10/net/server-tools.c:82-100 | What a client was told, by name or by the farewell, is in its inbox, or lost, or the client has stopped because of it |
| `Service.ClientsStopOnlyWhenTold` | os_ihw4/mark-10/net/client-tools.c:231-257 | A client stops only if a manager ordered it for its role, or the server has said farewell |
| `Service.ClientsStopWhenTold` | os_ihw4/mark-10/net/client-tools.c:231-257 | When nothing is lost and nothing waits, a client runs exactly when nobody has ordered clients of its role to stop and the server has not said farewell |
| `Service.EveryLogIsSentOnce` | os_ihw4/mark-10/net/server-tools.c:135-139 | Each message is logged as often as its kind asks for; a log that got into the queue is in it, in hand, or sent once; the queue is never overfull |
| `Service.LogsAreTakenIn` | os_ihw4/mark-10/net/server-tools.c:342-345 | No log is turned away unless the mutex was taken or the queue is too small for all of them |
| `Service.AnnouncementsArrive` | os_ihw4/mark-10/net/client-tools.c:18-35 | Each announcement reaches the server once, unless it is lost or still waits |
| `Storm.NoBroadcastStorm` | os_ihw4/mark-10/net/server-tools.c:305-340 | Over every run, for any size of the log queue, the server's broadcasts and all steps taken in reaction to a message are bounded by what the clients send of their own accord: a fixed charge for each send |
| `Storm.QuietClientsComeToRest` | os_ihw4/mark-10/net/server-tools.c:305-340 | If clients send nothing of their own accord, the number of further steps is at most the cost of the present state |
| `Storm.ReactionsLower` | os_ihw4/mark-10/net/server-tools.c:190-360 | Every reaction, one datagram or one log operation at a time, lowers the weighted measure over inboxes, pending operations, logs and held pins, by at least one and at least one per broadcast |
| `Storm.SpontaneousCharge` | os_ihw4/mark-10/net/client-tools.c:18-35 | An announcement, a new pin or an order raises the measure by at most its charge, and makes the server broadcast nothing yet |
| `Storm.PollLowers` | os_ihw4/mark-10/net/server-tools.c:305-340 | Taking one datagram lowers the measure; the server's own datagrams set off nothing |
| `Storm.PlanCost` | os_ihw4/mark-10/net/server-tools.c:141-303 | A datagram costs more than all that the poller does about it, one log or send at a time |
| `Storm.PerformLowers` | os_ihw4/mark-10/net/server-tools.c:135-175 | Each single operation of the poller lowers the measure |
| `Storm.RunCost` | os_ihw4/mark-10/net/server-tools.c:305-360 | The accounts of a run: cost left plus broadcasts made is at most cost at the start plus charges |
| `SplitMutexRing.SectionsUseDifferentCells` | os_hw8/writer.c:171-202 | A writer and a reader inside their sections never use the same cell, although they hold different mutexes |
| `SplitMutexRing.WritersOverwriteOnlyEmptyCells` | os_hw8/writer.c:184-187 | A writer only ever overwrites -1 |
| `SplitMutexRing.ReadersReadTheOldestNumber` | os_hw8/reader.c:148-152 | A reader only ever obtains the oldest number not yet read, which lies between 0 and 10 |
| `SplitMutexRing.NumbersAreReadInOrder` | os_hw8/reader.c:135-173 | The numbers read are a prefix of the numbers written, and the ring is never overfull |
| `SplitMutexRing.WritersPutInWhatTheyDraw` | os_hw8/writer.c:171-202 | In every run, the numbers put into the ring are those the writers drew, in that order |
| `SplitMutexRing.AnyNumberCanBeDrawn` | os_hw8/writer.c:171-202 | A writer at its cell can write exactly the numbers from 0 to 10 |
| `SplitMutexRing.SectionsAreExclusive` | os_hw8/writer.c:179-199 | Two writers are never inside together, nor two readers |
| `SplitMutexRing.NeverDeadlocked` | os_hw8/reader.c:135-173 | With a writer and a reader, some process can always take a step |
| `SplitMutexRing.StepKeepsInv` | os_hw8/writer.c:171-202 | Each semaphore operation and each access keeps the accounting of permits, locks and cells |
| `SplitMutexRing.ReachableInv` | os_hw8/common.c:37-60 | From the initial semaphore values, the invariant holds in every reachable state |
| `SplitMutexRing.StoreContents` | os_hw8/writer.c:184-186 | Storing hits an empty cell and disturbs no entry, also while a reader has cleared but not yet left its cell |
| `SplitMutexRing.DropContents` | os_hw8/reader.c:150-152 | Leaving a cleared cell removes just the oldest number |
| `SharedBuffer.SharedBuffer.Write` | os_hw8/writer.c:184-187 | In place: the cell was -1, and the number becomes the newest |
| `SharedBuffer.SharedBuffer.Read` | os_hw8/reader.c:148-154 | In place: the oldest number is taken, its cell cleared and its factorial computed |
| `SharedBuffer.SharedBuffer.constructor` | os_hw8/writer.c:140-152 | The cleared memory with -1 in every cell holds the empty queue |
| `SharedBuffer.FactorialInRange` | os_hw8/reader.c:42-48 | For the numbers that can be read, the factorial stays within 32 bits |
| `Admission.AtMostOneWriter` | os_hw8/writer.c:105-139 | At most one writer gets to work |
| `Admission.AtMostTwoReaders` | os_hw8/reader.c:106-132 | At most two readers get to work |
| `Admission.NeverTooMany` | os_hw8/reader.c:106-132 | Those admitted are recorded once each and never exceed the places |
| `Admission.AllPlacesAreFilled` | os_hw8/reader.c:106-132 | When every candidate has been dealt with, as many work as there are places or candidates, whichever are fewer |
| `LogsQueue.PermitsAddUp` | os_ihw3/mark-10/net/server-logs-queue.h:61-117 | Free permits, the size and the permits held in the middle of an operation make up the capacity, in every reachable state |
| `LogsQueue.SizeAssertionsHold` | os_ihw3/mark-10/net/server-logs-queue.h:80-106 | Both assertions on the size hold whenever they are evaluated |
| `LogsQueue.LogsComeOutInOrder` | os_ihw3/mark-10/net/server-logs-queue.h:92-117 | Logs come out in the order they went in |
| `LogsQueue.FailedEnqueueChangesNothing` | os_ihw3/mark-10/net/server-logs-queue.h:61-76 | Whatever other threads do meanwhile, the calls of a thread that fail touch nothing in the queue and give back every permit they take |
| `LogsQueue.EnqueueIsWaitFree` | os_ihw3/mark-10/net/server-logs-queue.h:61-90 | Whatever other threads do, the next step of an enqueue is always possible, and it has at most six after the first |
| `LogsQueue.EnqueueAlone` | os_ihw3/mark-10/net/server-logs-queue.h:61-90 | The steps of one enqueue without interference: nothing without a permit or the mutex, else the log is appended |
| `LogsQueue.DequeueAlone` | os_ihw3/mark-10/net/server-logs-queue.h:92-117 | The steps of one dequeue without interference take the oldest log |
| `LogsQueue.NoPermitIsLost` | os_ihw3/mark-10/net/server-logs-queue.h:61-117 | Between calls, the free permits are the free cells and the added permits the logs, however many enqueues failed |
| `LogsQueue.StepKeepsInv` | os_ihw3/mark-10/net/server-logs-queue.h:61-117 | Each step of each thread keeps the accounting |
| `LogsQueue.LogsQueue.NonblockingEnqueue` | os_ihw3/mark-10/net/server-logs-queue.h:61-90 | In place, whatever state another thread inside has left the queue in: succeeds exactly when a permit is free and the mutex is; otherwise nothing changes |
| `LogsQueue.LogsQueue.Dequeue` | os_ihw3/mark-10/net/server-logs-queue.h:92-117 | In place: the oldest log leaves the queue and its permit is freed |
| `PinsQueue.PinsQueue.TryPut` | os_ihw3/mark-4-5/net/pin.h:27-36 | In place: refuses exactly when full, else appends; the position assertion holds |
| `PinsQueue.PinsQueue.TryPop` | os_ihw3/mark-4-5/net/pin.h:37-46 | In place: refuses exactly when empty, else takes the oldest pin; the position assertion holds |
| `Poller.CountersAreRight` | os_ihw3/mark-4-5/net/server-tools.c:135-161 | However accepts and polls interleave, each counter is the number of slots that are not -1, so the insertion assertions hold |
| `Poller.PinsAreAccountedFor` | os_ihw3/mark-4-5/net/server.c:256-284 | Over any number of passes, the pins popped from a queue followed by its contents are the pins received into it, in order; each popped pin was sent or is recorded as lost; no queue is overfull |
| `Broker.NoWorkerIsSkipped` | os_ihw3/mark-4-5/net/server.c:89-136 | The loop that stops when the counter is zero checks live slots only, in order, leaving none out on the way; if it ends well and leaves room, it has checked every slot that was live at the start, each exactly once |
| `Broker.PollCounterIsRight` | os_ihw3/mark-4-5/net/server.c:89-136 | The loop with the counter in its guard does what going through all live slots does |
| `Broker.SendCounterIsRight` | os_ihw3/mark-4-5/net/server.c:138-189 | Likewise for sending |
| `Broker.NoWorkerGoesWithout` | os_ihw3/mark-4-5/net/server.c:138-189 | A send that ends well and leaves pins has served every live slot exactly once |
| `Broker.PollTableIsPoll` | os_ihw3/mark-4-5/net/server.c:89-136 | What a poll is, said by the slots it checked: live, in order, none left out, each while there was room and nothing had failed; their pins are queued in order, the dead ones freed, all others kept; when it may end |
| `Broker.SendTableIsSend` | os_ihw3/mark-4-5/net/server.c:138-189 | What a send is, likewise: each slot while a pin was left; one pin in order for each worker not found dead, sent exactly when the socket took it; workers found dead before or while sending freed, all others kept; when it may end |
| `Poller.StuckForever` | os_ihw3/mark-4-5/net/server.c:211-215 | With the first queue full and the second empty, no pin moves any more, whatever workers there are and whatever they do |
| `Poller.StuckIsReachable` | os_ihw3/mark-4-5/net/server.c:191-215 | That state is reachable: one first stage worker alone suffices |
| `Poller.PinsCanMoveUnlessStuck` | os_ihw3/mark-4-5/net/server.c:191-254 | With workers at every stage, a pin can move if and only if the broker is not in that state |
| `Poller.FirstStageIsAPoll` | os_ihw3/mark-4-5/net/server.c:191-209 | The first stage polls its workers into the first queue; its early exit makes no difference |
| `Poller.SecondStageIsASendAndAPoll` | os_ihw3/mark-4-5/net/server.c:211-234 | Unless the broker is stuck, the second stage is a send from the first queue and then, if no socket failed, a poll into the second whose outcome does not matter |
| `Poller.ThirdStageIsASend` | os_ihw3/mark-4-5/net/server.c:236-254 | The third stage sends from the second queue; its early exit makes no difference |
| `Poller.FirstStageReceives` | os_ihw3/mark-4-5/net/server.c:191-209 | If every first stage worker has a pin, a pass receives one from each, as far as there is room |
| `Poller.SecondStageMovesPins` | os_ihw3/mark-4-5/net/server.c:211-234 | If every socket takes a pin, a pass sends one to each second stage worker, as far as there are pins, and receives one from each that has one, as far as there is room; none is lost; nothing of this exactly when the broker is stuck |
| `Poller.ThirdStageSends` | os_ihw3/mark-4-5/net/server.c:236-254 | If every socket takes a pin, a pass sends one to each third stage worker, as far as there are pins |
| `Poller.AcceptGoesToItsStage` | os_ihw3/mark-4-5/net/server-tools.c:163-255 | A new worker changes the table of its stage only, in its first free slot |
| `Poller.StepKeepsInv` | os_ihw3/mark-4-5/net/server.c:191-254 | Each accept and each stage keeps the counters right and the pins accounted for |
| `Broker.InsertKeepsConsistent` | os_ihw3/mark-4-5/net/server-tools.c:135-161 | Insertion finds a slot exactly when the counter is below the size, and keeps the counter right |
| `Broker.InsertTakesFirstFree` | os_ihw3/mark-4-5/net/server-tools.c:135-161 | The descriptor goes into the first free slot and all other slots stay as they are; a full table stays as it is |
| `Broker.PollChecksInOrder` | os_ihw3/mark-4-5/net/server.c:89-136 | Going through a list of slots checks a prefix of it, and all of it unless the queue is full or a socket failed; the list of the live slots is what the loop goes through, by `PollCounterIsRight` |
| `Broker.PollReportsFailures` | os_ihw3/mark-4-5/net/server.c:110-124 | A poll returns false exactly when a socket it checked failed in an unknown way, and it ends there |
| `Broker.PollHadRoom` | os_ihw3/mark-4-5/net/server.c:89-94 | There was room for a pin before each check |
| `Broker.PollReceives` | os_ihw3/mark-4-5/net/server.c:126-133 | The pins received are those of the checked slots, in order |
| `Broker.PollQueues` | os_ihw3/mark-4-5/net/server.c:126-133 | The queue grows by the pins received, in order, and is never overfilled |
| `Broker.PollFreesDeadWorkers` | os_ihw3/mark-4-5/net/server.c:99-119 | Exactly the slots of checked dead workers are freed |
| `Broker.SendChecksInOrder` | os_ihw3/mark-4-5/net/server.c:138-189 | Sending skips no live slot while there are pins and no socket has failed |
| `Broker.SendTakesInOrder` | os_ihw3/mark-4-5/net/server.c:160-163 | Pins are taken in the order of the queue |
| `Broker.SendFates` | os_ihw3/mark-4-5/net/server.c:165-179 | One pin is taken for each checked slot not found dead, and it is lost exactly when the send fails |
| `Broker.SendReportsFailures` | os_ihw3/mark-4-5/net/server.c:165-179 | A send returns false exactly when a socket it checked failed in an unknown way, and it ends there |
| `Broker.SendHadPins` | os_ihw3/mark-4-5/net/server.c:138-144 | There was a pin left before each check |
| `Broker.SendFreesDeadWorkers` | os_ihw3/mark-4-5/net/server.c:150-174 | Exactly the slots of checked workers found dead, before or while sending, are freed |
| `Broker.SentOrLost` | os_ihw3/mark-4-5/net/server.c:160-179 | Every popped pin is either sent or lost |
| `WorkerTable.WorkerTable.Insert` | os_ihw3/mark-4-5/net/server-tools.c:135-161 | In place: the first free slot takes the descriptor and no other slot changes; -1 is returned exactly when the table is full; the assertions hold |
| `WorkerTable.WorkerTable.PollWorkers` | os_ihw3/mark-4-5/net/server.c:89-136 | In place, with the counter in the loop guard: the sockets asked are live ones in order, every one of them if the poll ends well and leaves room; their pins are appended, exactly the dead ones freed, and the poll fails exactly if one asked did; the put assertion holds |
| `WorkerTable.WorkerTable.SendPinsToWorkers` | os_ihw3/mark-4-5/net/server.c:138-189 | In place, likewise for sending: one pin taken in order for each worker asked and not found dead, sent exactly when its socket took it; exactly those found dead, before or while sending, freed; the pop assertion holds |
| `Server.Server.PollFirstStage` | os_ihw3/mark-4-5/net/server.c:191-209 | In place: the stage is the step of the interleaving model; with workers and room, somebody is asked |
| `Server.Server.PollSecondStage` | os_ihw3/mark-4-5/net/server.c:211-234 | In place: the stage with its guard as written, and with the outcome of the poll ignored, is the step of the model; with workers and pins somebody is served, and with room asked, unless the broker is stuck; then nobody is; after a failed send nobody is polled |
| `Server.Server.PollThirdStage` | os_ihw3/mark-4-5/net/server.c:236-254 | In place: the stage is the step of the model; with workers and pins, somebody is served |
| `Server.Server.AcceptWorker` | os_ihw3/mark-4-5/net/server-tools.c:163-255 | In place: a new worker goes to the table of its stage, or is turned away when that is full |
| `Fibonacci.CalculateFibonacciNum` | os_hw3/main.c:20-69 | Matrix squaring returns F(n) modulo 2^64; the flag is true exactly when F(n) does not fit 64 bits, and otherwise the result is F(n) itself |
| `Fibonacci.SquareAndMultiply` | os_hw3/main.c:30-67 | The loop, for an unsigned type of any size; it may multiply with wrap-around only when F(n) does not fit |
| `Fibonacci.Multiply` | os_hw3/main.c:39-48 | Callers must show that no product and no sum wraps, unless F(n) does not fit; the result is the power of the summed exponents, reduced |
| `Fibonacci.OverflowFrom93` | os_hw3/main.c:27 | F(n) is at least 2^64 exactly from 93 on, the constant of the source |
| `Fibonacci.PowerPlus` | os_hw3/main.c:39-65 | Powers of the Fibonacci matrix multiply by adding exponents |
| `Fibonacci.FibPlus` | os_hw3/main.c:39-65 | The addition formulas for Fibonacci numbers |
| `Fibonacci.ExactPower` | os_hw3/main.c:39-65 | As long as F(top) fits, no multiplication of powers up to `top` wraps |
| `Fibonacci.ExactMultiplication` | os_hw3/main.c:39-65 | A multiplication of unsigned matrices in which nothing wraps is the integer one |
| `Factorial.CalculateFactorial` | os_hw3/main.c:75-89 | The loop returns n! modulo 2^64, and its sticky flag is true exactly when n! does not fit 64 bits |
| `Factorial.OverflowFrom21` | os_hw3/main.c:75-89 | n! is at least 2^64 exactly from 21 on |
| `Factorial.ZeroFrom66` | os_hw3/main.c:76 | The result is zero exactly from 66 on, and 66! is 2^64 times an odd number, as the comment in the source has it |
| `Factorial.ZeroIffEnoughTwos` | os_hw3/main.c:76 | For any width w, n! is zero modulo 2^w exactly when n! has at least w factors of two |
| `Factorial.FactorialSplits` | os_hw3/main.c:76 | n! is two to the power of Legendre's count, times an odd number |
| `Factorial.TwosStep` | os_hw3/main.c:76 | Legendre's count grows by the factors of two of each new factor |
| `Factorial.FactorialOfInt` | os_hw8/reader.c:42-48 | The loop on 32-bit integers computes the factorial without overflow wherever the factorial fits |
| `Factorial.OnlySmallFactorialsFit` | os_hw8/reader.c:42-48 | 32 bits hold the factorial exactly up to 12 |

## Left out

- Sockets, files, pipes, fork, mmap, signals, sleeping, log texts and random generation: their outcomes are inputs of the steps where they matter.
- Failing malloc, semaphore, mutex and sendto calls, EINTR and thread cancellation, in all programs.
- Zero-length datagrams and datagrams of a wrong size: the inboxes of os_ihw4 hold whole messages; in `Client` any other receive error is the outcome `Failed`.
- The network of os_ihw4 may lose any copy of a datagram and may overtake within an inbox, but it does not duplicate datagrams. A delayed copy is one that later datagrams overtake.
- Storm.NoBroadcastStorm: signals and SIGALRM after an order to stop the server are not steps of their own; the poller and the logger may each end at any time between two messages or logs, and once both have, one shutdown message is sent.
- The log queue inside the machine of os_ihw4 is a number of logs, and each of its operations one step; its single steps are those of `LogsQueue`: the queue of os_ihw3 takes the same ones.
- The third stage quality check of os_ihw2 and os_ihw4 (a cosine) decides nothing but a log line.
- Each locked section of the broker of os_ihw3 mark 4-5 is a single step, because its mutex is held throughout; reading a counter before taking the mutex is part of that step.
- The shutdown sequence of that broker, after which accepts and polls no longer interleave.
- qsort is a library function: any permutation ascending under the comparer is allowed as its result.
- Admission.AtMostOneWriter: the named semaphores and the shared memory are those of a first start; leftovers of earlier, killed processes are not modelled.
- Version 3 of the encoder differs from version 2 in OpenMP critical sections instead of atomic counters and in the size of the array; both are the machine of `SlotEncoder`.
- os_ihw2 marks 6-7 and 8 run the protocol of marks 4-5 with other semaphores; the reference counting of resources in marks 8 to 10 is not modelled.
- os_ihw3 mark 10 beyond its log queue: its manager commands clear slots without touching the counter, so the counter law of mark 4-5 does not hold there.
- os_ihw1, os_hw5, os_hw6, os_hw7, os_hw9, hw2, hw8 and ihw2: simple loops, finite handshakes, floating point, or protocols that rely on timing.
