# A verified model of the Swarm

The Swarm is a distributed computer. Data is split by an erasure code into shards, one for each
peer; programs and puts are passed around as transactions; each peer runs every program on its own
shards; and any two shards of a result rebuild it. This project models the parts of the program
that make this work and proves, for all inputs and all runs, what they promise together, and
exactly when they keep the promise.

| file | what it models |
|---|---|
| `Types.dfy` | identifiers, bytes, the number `K` of sufficient shards |
| `Galois.dfy` | fields whose addition is XOR, and GF(2^8) as one of them |
| `ReedSolomon.dfy` | encoding and decoding over a systematic linear code |
| `Instructions.dfy`, `Processor.dfy` | instructions, the mock processor, the shard processor with its context and write-back |
| `Logic.dfy` | programs as Boolean circuits, with nonzero bytes for true |
| `Provenance.dfy` | which of the initial values a linear program adds up, and with it when two computations agree for all values |
| `CodedComputation.dfy` | computing on shards against computing on data |
| `Histories.dfy` | puts and programs in the order a peer carries them out, when two orders amount to the same, and what shards of different orders decode to |
| `DataMemory.dfy` | the data memory: the specification of one turn of its event loop and the class that performs it |
| `Recollection.dfy`, `OpenSessions.dfy`, `Distribution.dfy` | collecting data back, collections that never end, and following how far a put has spread, over whole runs |
| `Requests.dfy` | what one data memory asks of other peers, answers and announces |
| `MemoryBus.dfy`, `PendingReads.dfy` | interleavings of reads and writes on the bus between processor and memory, and programs whose reads are served between queued writes |
| `InstructionMemory.dfy`, `ProgramIdentity.dfy` | the quorum for each program, and which requests count as one program |
| `Completion.dfy`, `Retrieval.dfy`, `Reports.dfy` | what completion implies for the data memory, which results can be collected, and when a spread is reported |
| `ConsensusGraph.dfy` | transaction buffering and streaming around the consensus graph |
| `Behaviour.dfy`, `Node.dfy` | routing, response channels and the distribution; one peer as a machine of two modules and two queues |
| `ResponseChannels.dfy`, `NetworkShards.dfy`, `Agreement.dfy` | who gets answered and asked, what becomes of the shards the network brings, and which distribution the peers end up with |
| `EndToEnd.dfy`, `Answers.dfy` | any number of peers, each with its own history, and what a collection among them returns |
| `Reachability.dfy`, `CollectionRuns.dfy`, `Departures.dfy` | runs that exist: peers catch up, collections are answered, and the two orders of events that spoil an answer or a row |

A module that updates its fields in the program is a class here. Its methods are proved against
functions on values, and the properties of whole runs are lemmas about those functions. The order
in which a hash map is iterated, answers of the network and of the consensus graph, and schedules
are parameters or steps of a machine, so every statement holds for all of them.

## The erasure code

The library that computes the code is not part of the repository. What is taken for granted about
it: shard `i` is a fixed linear combination, byte by byte, of the two data shards; the first two
shards are the data; any two rows of coefficients are independent; reconstruction solves for the
data and fills the gaps. Nothing else is assumed: that reconstruction works is proved by Cramer's
rule over any field whose addition is XOR (`ReedSolomon.Code.RoundTrip`). `Galois.GF256IsField`
and `ReedSolomon.VandermondeCode` show that the assumptions can be met for every number of shards
that fits distinct bytes.

## What the end-to-end theorems rest on

Every statement about the whole computer names its hypotheses; these are the ones to know.

- One order. The peers act on recognised transactions (src/behaviour/mod.rs:794-809), whose order
  may still change (src/consensus/graph.rs:49-51); finalised ones are only logged. The machine of
  `EndToEnd.dfy` therefore gives each peer a history of its own. `EndToEnd.ShardsMatchMock` and
  `Answers.AnyPeersDecodeToMock` speak of peers whose history is one and the same `agreed`;
  `Histories.ShardKeptIff` says when another order does no harm.
- Puts before programs. Shards of fresh data come over the network while programs come from the
  instruction memory, so a program may overtake a put. In the machine it may; the history of that
  peer then has the two commands in the other order (`Departures.OvertakenPut`).
- A drained bus. In the machine a program starts, and a put is stored, when the writes of the program
  before have been applied. `MemoryBus.AlwaysEarlyIff`, `PendingReads.ReadsMixIff` and
  `Processor.StaleWriteBack` say exactly when this does not matter.
- One distribution, accepted before the machine starts. `Agreement.PeersAgreeIff` says exactly when the peers have the same.
- Operations that the shards support. The machine runs every program at every peer, and
  `EndToEnd.ShardsMatchHistory` says what each peer then holds. Only data shards support all five
  operations (`CodedComputation.CommutesExactly`), so the comparison with the mock asks for linear
  programs, or for data shards (`EndToEnd.DataPeersMatchMock`, `Answers.DataPeersRecollection`).

## Where the code departs from what one would expect

- The repository's README names addition, subtraction and inversion as the supported operations;
  the processors also have `Nand` and `Nor`. These are right on data shards and wrong on every
  parity shard (`CodedComputation.CommutesExactly`).
- An instruction with a missing operand is skipped by the shard processor and ends the mock's run.
  Whether this happens can be told from the ids in memory (`Processor.MockAgainstDirect`), and so
  can whether it makes a difference (`Processor.SkippingAddsLate`, `Provenance.SkippingIsHarmlessIff`).
- The shard processor writes back operands it only read, and reads missing ones while it runs, so an
  update that arrives in the meantime may be lost or used (`Processor.StaleWriteBack`,
  `Processor.UpdateIsUsed`; `Processor.OperandArrivesMidway` is the smallest case).
- A read on the bus may overtake queued writes, and a program that starts while writes wait may
  compute from old values and put them back (`MemoryBus.OvertakingRead`, `MemoryBus.EarlyProgramIff`,
  `MemoryBus.AlwaysEarlyIff`, `PendingReads.ReadsMixIff`).
- Putting an id again keeps the locations of its old shards, so a full distribution is reported too
  early (`Distribution.FullAfterPutAgain`, `Reports.ReportedIff`).
- A notice about a peer without an assigned shard ends the data memory (`Completion.StopsOnUnassignedPeer`).
- A notice taken before the storage is initialised is thrown away, so a program may be announced as
  finished and its result not be known well enough to be collected (`Retrieval.LostNotice`,
  `Retrieval.ResultRetrievableIff`).
- Only the first transaction of an event carries the hash of the event (`ConsensusGraph.FlattenAt`), so
  equal programs further back share an identifier and one completion (`ProgramIdentity.SharedCompletion`).
- A sync that fails after taking the scheduled transactions loses them (`ConsensusGraph.NothingLostIff`).
- A request that arrives before the storage is initialised leaves its peer waiting
  (`ResponseChannels.EarlyRequestIsStranded`, `ResponseChannels.StrandedIff`).
- A collection whose shards do not all come stays open for ever, and every further request for the id is
  swallowed by it, so the id can no longer be collected (`OpenSessions.EndsIff`,
  `OpenSessions.EmptyRepliesStrand`); one that gets a shard id outside the code ends without a word
  (`OpenSessions.ClosesSilentlyIff`).
- Peers that recognise two initialisation transactions in different orders keep different
  distributions (`Agreement.OrdersDisagree`, `Agreement.PeersAgreeIff`).
- A program that overtakes a put leaves that peer with another row (`Departures.LostResult`,
  `Departures.OvertakingIsHarmlessIff`).
- Collecting from peers that have not carried out the same commands decodes without an error, possibly
  to a value that never existed (`Departures.WrongAnswer`, `Departures.TornAnswer`,
  `Histories.MixedDecodeIff`, `Answers.ResponseIff`).

## Model

| member | source | states |
|---|---|---|
| `Galois.GF256IsField` | src/processor/single_threaded.rs:121-146 | bytes with XOR as addition and multiplication through logarithms form a field, so the fields the code is stated over include GF(2^8) |
| `ReedSolomon.VandermondeCode` | src/encoding/reed_solomon.rs:10-30 | normalised Vandermonde rows over GF(2^8) with distinct points form a code with unit data rows and pairwise independent rows |
| `ReedSolomon.Encode` | src/encoding/reed_solomon.rs:46-74 | chunking, parity extension and in-place encoding give, for every shard id below the total, that row of the code applied to the data |
| `ReedSolomon.Decode` | src/encoding/reed_solomon.rs:76-92 | placing shards by id, reconstruction, truncation and flattening compute `Decoded`, in any order of the map, with an error for an id outside the code |
| `ReedSolomon.Code.RoundTrip` | src/encoding/reed_solomon.rs:46-92 | decoding any two or more shards of an encoding, whatever their ids, returns the data |
| `ReedSolomon.Code.DecodeConsistent` | src/encoding/reed_solomon.rs:76-92 | any map of at least two shards that belong to the encoding of some data decodes to that data |
| `ReedSolomon.Code.DecodeFails` | src/encoding/reed_solomon.rs:76-92 | decoding succeeds exactly with valid ids, shards of the right size and at least two of them; the wrong-id error is returned exactly for an id at or above the total, and each of the other two exactly for its cause |
| `ReedSolomon.Code.DecodeThenEncode` | src/encoding/reed_solomon.rs:46-92 | any two shards with valid ids are the shards of the data they decode to |
| `ReedSolomon.Code.DecodesToIff` | src/encoding/reed_solomon.rs:46-92 | `K` shards decode to some data if and only if their ids are valid and each of them is that shard of the data |
| `Instructions.MapZip` | src/processor/single_threaded.rs:108-118 | the in-place loop computes the byte-wise combination of both arrays |
| `Instructions.FetchDefined` | src/processor/instruction.rs:91-136 | mapping operands to values and transposing succeeds exactly when every listed argument is present, and keeps operation and operand order |
| `Processor.MockCalculate` | src/processor/mock.rs:34-63 | byte by byte, `Plus` and `Sub` give XOR, `Inv` the operand, `Nand` 0 where both are nonzero and 1 elsewhere, `Nor` 0 where either is nonzero and 1 elsewhere |
| `Logic.WithConstants` | src/processor/mock.rs:51-60 | `Nand` with zeroes is all ones, `Nor` with zeroes and `Nand` with ones negate, `Nor` with ones is all zeroes, on either side |
| `Logic.CircuitOf` | src/processor/single_threaded.rs:134-143 | a program of `Nand`, `Nor` and copying on any values, and one of all five operations on values of 0 and 1, leaves at every byte the truth values of its Boolean circuit |
| `Logic.MockCircuitOf` | src/processor/mock.rs:51-60 | so does the mock when every operand is there |
| `Logic.ShefferPeirceCheck` | input/sheffer_peirce_check/program.json:1-22 | on all values nowhere both true or both false, the program of the repository's check leaves all ones and all zeroes |
| `Processor.MockExecuteOn` | src/processor/mock.rs:106-119 | the loop computes the recursive specification, including the partial storage left by a missing operand |
| `Processor.MockAgainstDirect` | src/processor/mock.rs:106-119 | the mock succeeds exactly when every operand is in memory or assigned before its use, which is exactly when no instruction would be skipped, and then leaves the memory of the direct interpreter |
| `Processor.MockStopsAtFirstMissing` | src/processor/mock.rs:106-119 | otherwise it leaves the memory of the longest prefix without a missing operand |
| `Processor.ResultsTell` | src/processor/single_threaded.rs:277-314 | the result reported for each instruction is its result id if all operands are in memory or were assigned by earlier instructions that ran, and the missing-shard error otherwise |
| `Processor.SkippingAddsLate` | src/processor/single_threaded.rs:290-297 | after a missing operand, the ids that skipping still assigns and stopping does not; all other ids agree, and the memories are equal if there are none and differ for all values if one of them is new |
| `Provenance.TracedIsComputed` | src/processor/single_threaded.rs:277-314 | what a linear program leaves, with and without skipping, is for all values the XOR of the initial values its trace names |
| `Provenance.SameForAllValuesIff` | src/processor/single_threaded.rs:121-146 | two traces give an id the same value for all initial values exactly when they are equal on it |
| `Provenance.SkippingIsHarmlessIff` | src/processor/single_threaded.rs:290-297 | stopping and skipping leave the same memory for all values of the ids in memory if and only if the traces read off the program are equal |
| `Processor.ShardProcessor.Calculate` | src/processor/single_threaded.rs:121-146 | the same results byte by byte, so the shard processor's arithmetic is the mock's |
| `Processor.ShardProcessor.RetrieveOperand` | src/processor/single_threaded.rs:149-159 | an operand comes from the context if it is there and from memory otherwise |
| `Processor.ShardProcessor.RetrieveOperands` | src/processor/single_threaded.rs:160-259 | all operands of an operation as memory overridden by the context has them, or an error if one is missing |
| `Processor.ShardProcessor.PrepareContext` | src/processor/single_threaded.rs:262-275 | the prefetched context is memory restricted to the arguments of the program, in any order of requests |
| `Processor.ShardProcessor.Execute` | src/processor/single_threaded.rs:277-314 | results are those of the direct interpreter, and the queued writes, applied, leave its memory |
| `Processor.CacheRefinement` | src/processor/single_threaded.rs:262-314 | prefetching, running in the context and writing it back in any order equals loading, computing and storing directly, for memory and results |
| `Processor.StaleWriteBack` | src/processor/single_threaded.rs:262-314 | with updates of some ids arriving at any time, while operands are fetched, between instructions or at the end, the outcome is for all values the program and then the updates if and only if none of the ids is an operand or assigned by an instruction that runs |
| `Processor.UpdateIsUsed` | src/processor/single_threaded.rs:149-159 | what comes in before an instruction is used by it and all later ones for whatever the context lacks: the program runs in two parts, on the memory before and after, in one context |
| `CodedComputation.SupportedCommutes` | src/processor/single_threaded.rs:121-146 | Plus, Sub and Inv on any shard, and all five operations on a data shard, give that shard of the result on data |
| `CodedComputation.Homomorphism` | src/processor/single_threaded.rs:277-314 | a whole program on shard `i` of encoded memory gives shard `i` of the encoded final memory and the same results, for any aliasing; for all five operations when `i` is a data shard |
| `CodedComputation.MatchesMock` | src/processor/mock.rs:106-119 | the same against the mock, which succeeds exactly when the shard run reports no missing operand |
| `CodedComputation.NonLinearFails` | src/processor/single_threaded.rs:134-143 | on every parity shard of every code there is data on which Nand and Nor are wrong |
| `CodedComputation.CommutesExactly` | src/processor/single_threaded.rs:121-146 | an operation is right on shard `i` for all data if and only if it is linear or `i` is a data shard |
| `Histories.MockIsOutcome` | src/processor/mock.rs:106-119 | over any sequence of puts and programs in which no operand is missing, told from the ids alone, the mock and the skipping interpreter have the same memory |
| `Histories.ProgramOnRow` | src/processor/single_threaded.rs:277-314 | one program that the shard supports, run on its row through the context and the bus, leaves that row of the encoded result |
| `Histories.HeldIsRow` | src/processor/single_threaded.rs:277-314 | over any sequence of puts and programs, a peer whose shard supports them holds its row of the encoded outcome; data shards support all five operations |
| `Histories.SwapIndependent` | src/behaviour/mod.rs:794-809 | two commands of which neither assigns what the other reads or assigns may change places anywhere in a history |
| `Histories.PlansAgreeIff` | src/behaviour/mod.rs:794-809 | two orders of commands give an id the same value for all data if and only if their traces are equal on it |
| `Histories.ShardKeptIff` | src/behaviour/mod.rs:794-809 | on every single peer, one order instead of another leaves the shard of an id it should have, for all data, if and only if the traces are equal on it |
| `Histories.MixedDecodeIff` | src/encoding/reed_solomon.rs:76-92 | `K` shards from peers with different histories decode to the value of the agreed history, for all data, if and only if each of these histories has the same trace of the id |
| `DataMemory.Initialize` | src/data_memory/mod.rs:184-243 | a memory is created exactly when the collected distribution covers the ids 0 to total, with that distribution and empty maps, and its initialisation is announced |
| `DataMemory.CollectKeepsLast` | src/data_memory/mod.rs:184-198 | a peer listed more than once has the last shard id listed for it |
| `DataMemory.CollectAssigns` | src/data_memory/mod.rs:184-198 | exactly the listed peers have one |
| `DataMemory.InitializedDataMemory.OnPrepareService` | src/data_memory/mod.rs:499-526 | the shards to hand out become the encoding of the data, and the service is announced |
| `DataMemory.InitializedDataMemory.OnStorageRequestTx` | src/data_memory/mod.rs:527-569 | an assigned peer requests its shard, or takes it from what it hands out itself; an unassigned one does nothing |
| `DataMemory.InitializedDataMemory.HandleServeShardResponse` | src/data_memory/mod.rs:397-422 | a served shard is stored and reported, a missing one changes nothing |
| `DataMemory.InitializedDataMemory.OnServeRequested` | src/data_memory/mod.rs:570-581 | the reply is the shard still handed out, if any |
| `DataMemory.InitializedDataMemory.ObserveNewLocation` | src/data_memory/mod.rs:345-370 | the confirmed shard is no longer handed out and its location is known |
| `DataMemory.InitializedDataMemory.OnStoreConfirmed` | src/data_memory/mod.rs:595-655 | the reports are made at exactly `K` and exactly total known locations, and handing out ends at the latter |
| `DataMemory.InitializedDataMemory.OnAssignedRequested` | src/data_memory/mod.rs:656-667 | the reply is the stored shard, if any |
| `DataMemory.InitializedDataMemory.OnListRequested` | src/data_memory/mod.rs:668-688 | the ids with at least `K` known locations are listed, with these locations |
| `DataMemory.InitializedDataMemory.HandleAssignedResponse` | src/data_memory/mod.rs:424-481 | a new shard joins the open session; the `K`-th ends it, is decoded, and answered unless decoding fails |
| `DataMemory.InitializedDataMemory.OnRecollectRequest` | src/data_memory/mod.rs:689-764 | refusal for unknown and insufficient ids; otherwise a session is opened once and each known location asked once, local shards being taken directly |
| `DataMemory.InitializedDataMemory.OnPeerShardsActualized` | src/data_memory/mod.rs:777-790 | each listed id gains the location of the peer's shard; an unassigned peer ends the module |
| `DataMemory.InitializedDataMemory.OnBusRead` | src/data_memory/mod.rs:793-810 | the answer is some stored shard of the id, none if there is none |
| `DataMemory.InitializedDataMemory.OnBusWrite` | src/data_memory/mod.rs:811-821 | the value becomes the assigned shard of the id; an unassigned peer ignores it |
| `DataMemory.InitializedDataMemory.Handle` | src/data_memory/mod.rs:485-821 | dispatching an event performs the turn that `Step` specifies, for the order in which the map of locations was iterated, which visits each once |
| `DataMemory.InitializedDataMemory.Loop` | src/data_memory/mod.rs:485-821 | the event loop performs the run that `Run` specifies, and stops early exactly if the module has ended |
| `DataMemory.ReadsOwnShard` | src/data_memory/mod.rs:793-810 | with only assigned shards stored, the answer to a read does not depend on map order |
| `Requests.AssignedRequestIff` | src/data_memory/mod.rs:722-764 | a stored shard is requested exactly when a collection of its data starts, of the peer known to have it, and never of this peer itself |
| `Requests.ServeRequestIff` | src/data_memory/mod.rs:527-569 | a shard of fresh data is requested exactly on another peer's storage request, of that peer, and it is the assigned one |
| `Requests.AnnouncesExactly` | src/data_memory/mod.rs:397-422 | every event makes the memory announce exactly a prepared service, a stored shard, the shard or the list asked for, each once and as it is, or nothing of the kind |
| `Requests.RunAnnounces` | src/data_memory/mod.rs:485-821 | so over whole runs, in order |
| `Recollection.Sessions` | src/data_memory/mod.rs:424-481 | in every run open sessions hold fewer than `K` shards, decoding gets exactly `K` with distinct ids in an open session, and an answer is what the shards just decoded stand for |
| `Recollection.NewSessionPerResponse` | src/data_memory/mod.rs:722-776 | between two successful responses for one id a session for it was opened |
| `Recollection.RecollectionCorrect` | src/data_memory/mod.rs:424-481 | if the shards delivered for an id belong to one encoding, every successful response is the encoded data, for every order, duplication, loss and mix of local and remote shards |
| `Recollection.LastShardAnswers` | src/data_memory/mod.rs:424-481 | the shard that makes up the number brings that answer and ends the session |
| `Recollection.ShardsComeFrom` | src/data_memory/mod.rs:424-481 | whatever is in a session or passed to the decoder was there before, was just delivered for that id, or is stored here |
| `OpenSessions.ClosesIff` | src/data_memory/mod.rs:424-481 | an event closes an open collection exactly when it brings a new shard and `K - 1` are held; otherwise the shard joins, and nothing else changes the collection |
| `OpenSessions.ClosesSilentlyIff` | src/data_memory/mod.rs:455-461 | the closing event answers exactly when all shard ids are in the code, and says nothing otherwise |
| `OpenSessions.RequestsAreSwallowed` | src/data_memory/mod.rs:722-727 | in every run, while a collection is open a request for its id has no effect at all |
| `OpenSessions.EndsIff` | src/data_memory/mod.rs:424-481 | an open collection ends at some point of what follows exactly when the shards held and delivered make `K` distinct ones; until then nothing is asked, decoded or answered for the id |
| `OpenSessions.EmptyRepliesStrand` | src/data_memory/mod.rs:722-776 | for every id and pair of locations, a run with two empty replies after which the id is never collected again, whatever is requested, unless `K` shards of it are delivered unasked |
| `Distribution.PutIsTracked` | src/data_memory/mod.rs:595-655 | after a put of an id without known locations, the shards handed out are exactly the unconfirmed ones until all are confirmed, and both reports are made once, at their thresholds, the full one only with all ids located |
| `Distribution.FullAfterPutAgain` | src/data_memory/mod.rs:372-382 | a full report means all shards confirmed, in all runs of distinct confirmations, if and only if no location was known at the put, or so many foreign ones that the report is never made |
| `Distribution.EarlyReport` | src/data_memory/mod.rs:639-655 | otherwise there are distinct confirmations of a proper part of the shards after which a full distribution is reported |
| `Reports.ReportedIff` | src/data_memory/mod.rs:595-655 | in every run, with confirmations of any ids and notices of programs, an event brings a report exactly when it confirms a shard and the shards told of so far number `K`, or the total, the former report first if both are due |
| `Distribution.ServesLastPut` | src/data_memory/mod.rs:372-388 | in every run what is handed out for an id belongs to the encoding of the data last put under it |
| `MemoryBus.Interleavings` | src/data_memory/mod.rs:793-821 | under every schedule writes are applied in the order sent and each read sees a prefix of them; without an assigned shard none is applied and nothing is read |
| `MemoryBus.DrainedProgram` | src/processor/single_threaded.rs:303-312 | once the queue is empty, memory is what the program that wrote computed, so the next one starts from it; also without an assigned shard |
| `MemoryBus.ReadNowOrLater` | src/data_memory/mod.rs:793-821 | a read before draining equals one after it exactly when no queued write changes that id |
| `MemoryBus.EarlyProgramIff` | src/processor/single_threaded.rs:262-314 | for given values, a program that reads everything while writes wait leaves what it would leave after draining if and only if no waiting write changes one of its operands, these being in memory and not assigned by it |
| `MemoryBus.UnchangedReads` | src/processor/single_threaded.rs:262-314 | for every program that condition is sufficient |
| `MemoryBus.ChangedOperandCancels` | src/processor/single_threaded.rs:262-314 | a program and a waiting write that changes its operand without making a difference, so the converse fails |
| `MemoryBus.AlwaysEarlyIff` | src/processor/single_threaded.rs:262-314 | for all values in memory and in the queue, a linear program may start early if and only if two traces read off the program and the ids are equal |
| `PendingReads.ReadsMixIff` | src/data_memory/mod.rs:793-821 | whichever part of the queue each single read saw, while prefetching and during the run, a linear program leaves for all values what it leaves after draining if and only if two traces read off the program, the queued ids and these points are equal |
| `PendingReads.UntouchedReads` | src/data_memory/mod.rs:793-821 | every program does, for all operations, whose operands are not among the queued ids |
| `MemoryBus.OvertakingRead` | src/data_memory/mod.rs:793-821 | a schedule of the bus after which, with everything drained, memory is not what the two programs leave one after the other |
| `InstructionMemory.InstructionStorage.ComputeAffectedDataIds` | src/instruction_storage/mod.rs:119-125 | the list has each result id of the program once |
| `InstructionMemory.InstructionStorage.OnFinalizedProgram` | src/instruction_storage/mod.rs:159-165 | a new program is tracked with its result ids, a known one stays as it is, and it is passed on in both cases |
| `InstructionMemory.InstructionStorage.OnExecutedProgram` | src/instruction_storage/mod.rs:166-192 | the report is counted, completion announced if it was the deciding one, and the peer's fresh shards announced if the program is known |
| `InstructionMemory.Quorum` | src/instruction_storage/mod.rs:68-110 | in every run completion of a program was announced once if enough distinct peers reported it after it was first finalised, and not at all otherwise; its state is told by these reporters alone |
| `InstructionMemory.EventTells` | src/instruction_storage/mod.rs:159-192 | in every run each event brings exactly: the program, if finalised, known or not; completion, if the report is the deciding one; and then the notice with the results first finalised, if the program is known |
| `ProgramIdentity.SameIdIff` | src/processor/mod.rs:44-51 | a request gets the hash of its program and the hash handed out with it, and two requests in a stream of events with distinct hashes get the same identifier if and only if the programs hash alike and neither is first in its event |
| `ProgramIdentity.SharedCompletion` | src/behaviour/handlers.rs:218-221 | equal programs that are not first in their events are both passed to the processor, and completion is announced once for the two, when enough distinct peers have reported either |
| `ProgramIdentity.ReportersAreAuthors` | src/behaviour/handlers.rs:202-226 | the peers counted for a program are exactly the authors of reports on it that come after a request for it |
| `ProgramIdentity.ProgramsInOrder` | src/behaviour/handlers.rs:202-226 | the processor is given exactly the programs requested, with their identifiers, once each and in order |
| `Completion.CompletionIsAnnounced` | src/instruction_storage/mod.rs:166-192 | completion is followed at once by a notice for the same program, and by then at least the threshold of distinct peers was announced with its results |
| `Completion.AffectedAreResults` | src/instruction_storage/mod.rs:118-134 | the ids announced for a program are the results of the program first finalised under that identifier |
| `Completion.StopsOnUnassignedPeer` | src/data_memory/mod.rs:777-790 | the data memory has ended exactly when it was handed a notice about a peer without an assigned shard |
| `Completion.ReceivedIsLocated` | src/data_memory/mod.rs:777-790 | whatever a notice announced to a running memory stays located for ever |
| `Completion.RefusedIff` | src/data_memory/mod.rs:689-721 | a running memory refuses to collect an id exactly when it knows fewer than `K` of its shards, and otherwise opens a session unless one is open |
| `Retrieval.RefusalIff` | src/data_memory/mod.rs:689-721 | in every run, a request is answered with the id being unknown exactly when nothing was told of it, and with too few shards exactly when some but fewer than `K` were; a refusal is all it brings |
| `Completion.ListedIff` | src/data_memory/mod.rs:668-688 | the list of stored data has exactly the ids whose collection would not be refused, with their known locations |
| `Completion.JoinedMeansRetrievable` | src/data_memory/mod.rs:777-790 | if the data memory took every notice from the start, and the one paired with completion, every result has `K` shards located and collecting it is not refused |
| `Retrieval.MemoryIsRun` | src/data_memory/mod.rs:213-268 | in every run of a peer the memory is where the events it handled after its initialisation have led it, and has emitted its initialisation and then what these make it emit; those before left no trace |
| `Retrieval.RetrievableIff` | src/data_memory/mod.rs:689-721 | in every run of a peer, a running memory agrees to collect an id, and lists it, exactly when confirmations and notices handled after initialisation told of `K` distinct shards |
| `Retrieval.ResultRetrievableIff` | src/data_memory/mod.rs:777-790 | with one shard per peer, a result never put as data can be collected exactly when notices of `K` distinct reporters were handled after initialisation |
| `Retrieval.NoticesAreConserved` | src/behaviour/mod.rs:722-734 | in every run the notices handed over are, in order, those taken before initialisation, those handled and those waiting |
| `Retrieval.CompletionMeansRetrievable` | src/network.rs:129-130 | if no notice was taken before initialisation and the one paired with completion was handled, every result can be collected |
| `Retrieval.LostNotice` | src/data_memory/mod.rs:245-268 | for every program and two reporters, a run in which completion is announced, every notice is taken, the first of them too early, and the result is refused |
| `ConsensusGraph.GraphWrapper.Next` | src/consensus/graph.rs:257-298 | the loop computes the recursive specification and terminates on finitely many pending events |
| `ConsensusGraph.GraphWrapper.Poll` | src/consensus/graph.rs:325-351 | one transaction of the finalised stream, or else of the recognised one, or nothing |
| `ConsensusGraph.NextTxTakesFirst` | src/consensus/graph.rs:257-298 | one call hands out the first remaining transaction, or finds that nothing remains |
| `ConsensusGraph.TransactionStream` | src/consensus/graph.rs:301-351 | over every run what was handed out on a stream, followed by what remains, is the in-order flattening of the events that reached it |
| `ConsensusGraph.FlattenAt` | src/consensus/graph.rs:276-287 | each transaction of each event has its place in the flattening; it carries the hash of the event if it is the first one and the initial zero hash otherwise |
| `ConsensusGraph.PollIsEmptyIff` | src/consensus/graph.rs:333-351 | a poll yields nothing exactly when both streams were handed out completely |
| `ConsensusGraph.PollHandsOut` | src/consensus/graph.rs:333-351 | in every run a poll hands out the next finalised transaction exactly when that stream is not handed out completely, the next recognised one exactly when only the finalised stream is, and nothing when both are |
| `ConsensusGraph.GraphWrapper.PushTx` | src/consensus/graph.rs:236-238 | the transaction is appended to the buffer |
| `ConsensusGraph.GraphWrapper.DoApplySync` | src/consensus/graph.rs:185-222 | success and each of the three errors for exactly their causes; a failing push keeps the buffer, later failures lose it |
| `ConsensusGraph.GraphWrapper.CreateStandaloneEvent` | src/consensus/graph.rs:224-234 | the buffer goes into the event, or is lost if it cannot be created |
| `ConsensusGraph.SchedulingConserves` | src/consensus/graph.rs:185-239 | over every run scheduled transactions are, in order, those of the batches taken and then those in the buffer, and a batch is lost exactly when its call failed on the peer or on creation |
| `ConsensusGraph.NothingLostIff` | src/consensus/graph.rs:209-222 | every scheduled transaction is in an event or in the buffer if and only if no call that failed after taking the buffer came after something was scheduled since the last one that took it |
| `Behaviour.NetworkBehaviour.RespondAll` | src/behaviour/mod.rs:425-453 | every channel waiting under the request is answered with the response, in order, and none waits any more |
| `Behaviour.NetworkBehaviour.OnMemoryOutput` | src/behaviour/mod.rs:405-578 | requests go out for shards to be served and collected, replies go to the waiting channels of the same request, stored and prepared data become transactions, and responses and reports are shown to the user |
| `Behaviour.NetworkBehaviour.OnIncomingRequest` | src/behaviour/mod.rs:949-983 | the matching event goes to the data memory and the channel waits under the request |
| `Behaviour.NetworkBehaviour.OnAssignedRequestId` | src/behaviour/mod.rs:885-887 | the id now stands for the request, and nothing else changes |
| `Behaviour.NetworkBehaviour.OnResponse` | src/behaviour/mod.rs:888-948 | only a response of the kind of the request with that id is passed on, with the shard id of the request |
| `Behaviour.NetworkBehaviour.BuildDistribution` | src/behaviour/mod.rs:762-775 | every known or connected peer is numbered once, from 0, in some order |
| `Behaviour.AcceptedIff` | src/data_memory/mod.rs:184-198 | such a distribution is accepted exactly when the number of peers is the total, and is a bijection onto 0 to total |
| `Node.SingleShardAlways` | src/behaviour/mod.rs:405-424 | in every run every outstanding serve request, served shard and stored shard has the id assigned to this peer, and there are none if it has no assignment |
| `Node.BusReadIsDetermined` | src/data_memory/mod.rs:793-810 | in every run the bus answers with this peer's own shard of the id, if stored, and nothing otherwise |
| `ResponseChannels.EachChannelOnce` | src/behaviour/mod.rs:949-983 | in every run and for every request the channels it arrived on are, in order, those answered and then those waiting |
| `ResponseChannels.AnswersAreGenuine` | src/behaviour/mod.rs:425-490 | each answer is a reply of the data memory to that same request |
| `ResponseChannels.WaitingIsAttended` | src/behaviour/mod.rs:425-490 | whoever waits for a request that was handled has the request or its reply in flight, and only requests handled are replied to |
| `ResponseChannels.DropsNothingMore` | src/data_memory/mod.rs:213-268 | an initialised memory takes no request early any more |
| `ResponseChannels.StrandedIff` | src/data_memory/mod.rs:245-268 | somebody waits for a request with nothing in flight exactly when it has arrived and was taken before initialisation as often as it arrived |
| `ResponseChannels.EarlyRequestIsStranded` | src/data_memory/mod.rs:245-268 | for every accepted distribution and every request, a run that leaves the peer waiting after initialisation |
| `ResponseChannels.RequestsAreCounted` | src/behaviour/mod.rs:949-983 | in every run every arrival of a request was taken early, handled or is still queued |
| `ResponseChannels.EverythingIsDelivered` | src/behaviour/mod.rs:405-578 | in every run what the user was shown, what consensus was given, and which requests were made to which peers, followed by what is queued, is all the data memory emitted for them, in order |
| `NetworkShards.ShardsAreConserved` | src/behaviour/mod.rs:885-948 | in every run the responses that arrived under an id last given to a request of their kind, each as the shard id requested and the shard received, present or not, are in order the shards taken before initialisation, handled and queued; nothing else brings a shard |
| `NetworkShards.HandledHasArrived` | src/behaviour/mod.rs:885-948 | whatever shard a session was handed or a peer was served arrived in such a response |
| `NetworkShards.InputsInOrder` | src/behaviour/mod.rs:888-983 | in every run requests of peers, shards from the network, distributions and everything forwarded are taken by the data memory in the order in which they came, none left out and none repeated |
| `Agreement.InitialisedByFirstAccepted` | src/data_memory/mod.rs:225-243 | the memory is initialised exactly when an acceptable distribution was taken, with the first such one, and distributions are taken in the order of their transactions |
| `Agreement.PeersAgreeIff` | src/behaviour/mod.rs:794-809 | initialised peers have the same distribution if and only if the first acceptable transaction each has recognised carries the same one |
| `Agreement.PeersAgree` | src/behaviour/mod.rs:794-809 | in particular, initialised peers that recognise these transactions in one order, however far each has come, have the same distribution |
| `Agreement.OrdersDisagree` | src/consensus/graph.rs:49-51 | for any two acceptable distributions that differ, two peers that recognise both in different orders end up with different ones for good |
| `Agreement.DistributionNeverChanges` | src/data_memory/mod.rs:495-497 | no later step changes the distribution |
| `EndToEnd.StepKeeps` | src/data_memory/mod.rs:485-821 | every step of every peer keeps, for programs of all five operations: the stored shards, with queued writes applied, are what the peer's own history makes it hold; what is handed out belongs to the data last put; every shard sent, collected or decoded was held by its peer after some beginning of its history |
| `EndToEnd.ShardsMatchHistory` | src/data_memory/mod.rs:793-810 | in every run a drained peer stores exactly what its history makes it hold, and its bus reads that; it is its row of the encoded outcome if its shard supports the programs |
| `EndToEnd.ShardsMatchMock` | src/processor/mock.rs:106-119 | if that history has no missing operand, it is the row of the encoded mock memory |
| `EndToEnd.DataPeersMatchMock` | src/processor/mock.rs:34-63 | with all five operations, the peers with data shards store their rows of the encoded mock memory |
| `Answers.AnyPeersDecodeToMock` | src/encoding/reed_solomon.rs:76-92 | in every run shards of an id from any `K` drained peers with the same history, which their shards support, decode to the value the mock computed |
| `Answers.DataPeersDecodeToMock` | src/encoding/reed_solomon.rs:76-92 | with all five operations, the two data shards decode to the value the mock computed |
| `Answers.ResponseIff` | src/data_memory/mod.rs:424-481 | in every run every response was decoded from `K` shards, each held by its peer after some beginning of its history, and it is a given value, such as the mock's at some point, if and only if each of these shards is that shard of the value |
| `Answers.RecollectionMatchesMock` | src/data_memory/mod.rs:424-481 | from any point on, if the shards taken reflect histories that they support and that give the id its agreed value, every response is the value the mock has |
| `Answers.DataPeersRecollection` | src/data_memory/mod.rs:424-481 | with all five operations at all peers, every response to a collection answered by the peers with data shards is the value the mock has |
| `Answers.SettledRecollection` | src/data_memory/mod.rs:722-776 | once every peer holds its shard of the mock's value, and as long as no command assigns to the id and no older reply is delivered, every response is that value, whatever else the peers carry out, with all five operations and in whatever order |
| `Answers.SameValueSettles` | src/data_memory/mod.rs:424-481 | a peer holds its shard of the agreed value once its history gives the id that value by operations its shard supports |
| `Reachability.CatchUp` | src/processor/single_threaded.rs:322-358 | from any point a running peer that lacks the rest of a history, whose puts were handed out to it, can carry it out, and nothing changes at any other peer |
| `Reachability.AllReach` | src/behaviour/mod.rs:794-809 | for all commands with data of the right size and any author of the puts there is a run from the start after which every peer has carried out all of them in order |
| `CollectionRuns.AnswerIsReachable` | src/data_memory/mod.rs:722-776 | from any point of any run, if the asking peer knows locations of the id and `K` of the peers there run, can follow the agreed history and have shards that support it, some continuation ends with the response that carries the mock's value |
| `CollectionRuns.EveryValueIsCollected` | src/data_memory/mod.rs:722-776 | for all commands, any author, any asking peer, any id the mock has and any two peers whose shards support the programs, a run from the start ends with the response that carries the mock's value |
| `Departures.TornAnswer` | src/data_memory/mod.rs:424-481 | for all histories, programs and ids, with operations that both shards support, a run from the start that collects from one peer before and one after the program; the response is the value before exactly if the one shard did not change, and the value after exactly if the other did not |
| `Departures.WrongAnswer` | src/data_memory/mod.rs:424-481 | a run from the start whose last response is a value the mock has at no point |
| `Departures.OvertakenPut` | src/data_memory/mod.rs:527-569 | for all histories, data and programs, a run in which one peer runs the program before the put reaches it and all others afterwards |
| `Departures.OvertakingIsHarmlessIff` | src/processor/single_threaded.rs:290-297 | the late peer has the shards it should have, for all data, if and only if tracing the program with the put and without it gives the same with the put added last |
| `Departures.UntouchedPutIsHarmless` | src/processor/single_threaded.rs:290-297 | it has if the program neither reads nor assigns the id put |
| `Departures.LostResult` | src/processor/single_threaded.rs:290-297 | for all data, a run whose late peer, all done and drained, has no shard of what the program computed |

## Left out

- Transport, peer discovery, codecs, timers, metrics, user interface and start-up wiring: input and output only.
- The consensus graph: foreign; it appears as a source of events that may refuse pushes and creations, so gossip and finality are not modelled.
- Signatures and program hashing: foreign; identifiers are opaque values with equality.
- The arithmetic of the erasure library: replaced by the linear code described above; the matrix it uses is not part of this model.
- Full queues and closed channels: the program ends there; runs simply stop, and queues are unbounded.
- Widths of integers: identifiers and counts are natural numbers; none of the modelled code computes with identifiers beyond counting from zero.
- Unused code: the old behaviour, the traits of the instruction storage and the mock encoding.
- Bus traffic before initialisation: it is ignored by the program and not recorded here.
- `Instructions.Calc`: byte arrays have one fixed size in the program, so a missing byte of a shorter second operand cannot occur; it reads as zero here.
- `EndToEnd.StepKeeps`: a program is one step between a drained bus and its queued writes; programs that start earlier, or meet updates while they run, are `PendingReads.ReadsMixIff` and `Processor.StaleWriteBack`, not steps of this machine.
- `EndToEnd.ShardsMatchMock`: initialisation happens before the machine starts, so notices, requests and puts that come too early are in `Retrieval.dfy` and `ResponseChannels.dfy` only.
- `MemoryBus.EarlyProgramIff`: with an operand missing, or assigned by the program itself, equality for given values may come about by chance; what holds for all values is exact in `MemoryBus.AlwaysEarlyIff` and `PendingReads.ReadsMixIff`.
- `MemoryBus.UnchangedReads`: one direction; the converse fails for programs in which a changed operand cancels out (`MemoryBus.ChangedOperandCancels`).
- `PendingReads.UntouchedReads`: one direction, for the same reason.
- `CollectionRuns.AnswerIsReachable`: that some continuation answers, not that every fair one does; requests and replies may be lost.
- `Retrieval.CompletionMeansRetrievable`: that the located peers still answer is not claimed; a request may be lost.
