# A verified model of the toolkit's schedulers, protocols, hashes and parsers

The project models the self-contained logic of a C++ game-server toolkit and proves what its callers
rely on. Every part has values and functions that say what the code computes, lemmas about those
functions over all inputs or all runs, and, where the code updates objects in place, classes whose
methods are proved to do what the functions say.

- **Callback scheduler** (`callback_*.dfy`). RPC trees of serials, parallels and leaves, with timeouts
  and cancellation. A run is a sequence of small steps of an explicit stack of activations, so that a
  leaf which replies inside its own `request()` is an ordinary push. The invariant holds between any two
  statements of a cascade; the class follows the steps. Which leaves reply inside `request()` is part
  of the tree. All trees of a run are known from the start, with their final ids; they are submitted
  at any time. `callback_build.dfy` builds them with `setChildren`; `callback_ticks.dfy` says who
  leaves the queue in a turn of `run()`, `callback_timely.dfy` and `callback_line.dfy` in which order it
  times out and requests; `callback_witness.dfy` holds the runs that do what the comments of the code
  rule out.
- **Task-tree scheduler** (`async*.dfy`). Trees of any depth, calls going down and completions going up
  by recursion, replies from outside. A leaf may end inside its own `call()`, so going down turns into
  going up and that into going down again; `async_once.dfy` says for which trees a task is done twice,
  `async_turns.dfy` who is called before whom in any run.
- **Hashes** (`md5*.dfy`, `jenkins*.dfy`, `crc32*.dfy`, `crc16*.dfy`, `murmur.dfy`). A streaming digest
  against RFC 1321, three alignment branches against one definition on bytes, table-driven against
  bit-by-bit division, and injectivity of every step of Murmur. Published values are computed by the
  definitions themselves: a digest of RFC 1321 (`md5_digest.dfy`), a value of lookup3.c
  (`jenkins_vector.dfy`), check values of the CRCs (`hash_values.dfy`) and keys from the tables of
  libmemcached. The numerals in these files are the registers after each step.
- **RPC protocol** (`rpc*.dfy`). Emitter, dispatcher and a network that keeps every message it was ever
  given, so that anything sent may arrive never, once or often, in any order. Serialization is a
  parameter of which only a faithful round trip of non-empty texts is required; handlers may answer
  differently every time. `rpc_outcomes.dfy` says which callback a request gets, and when.
- **URL** (`url*.dfy`). Parser and printer of `TinyURL`, with the exact domain of their round trip;
  `url_grammar.dfy` writes the grammar down as concatenations and proves that exactly its texts are read,
  `url_reading.dfy` adds numbers, repeated names and the order of printing.
- **Connection pool** (`pool*.dfy`). Any number of threads interleaving the check, the increment, the
  base pool and the decrement; `pool_order.dfy` says which connection a grab returns.
- **Messages** (`message*.dfy`), **cache** (`cache*.dfy`), **sharding** (`sharding.dfy`) and
  **splitting** (`split.dfy`).

Where the code does not keep what its comments promise, the code is modelled as it is and the exact
condition is proved: `LeavesIff`, `NextTickExactly` and `PairStuck` ("this will timeout next tick"),
`NoRaceIff` and `BreaksIff` (a parallel with a child that completes within its own `request()`),
`TimeoutSweeps` (an RPC below one that was answered by id), `OnceIff` (a serial whose last child
completes inside its own `call()`), `LimitIff` (a pool limit with several threads),
`ConnectionPoolWithLimit.Release` (a connection that was not in use), `EndsIff` (a read loop that spins
on an incomplete body), `EveryCodeIff` (shard numbers that are not powers of two), `RoundTrip` of
`TinyURL`, `RoundTripByName` and `RoundTripByType`.
`set_to` on level 0 of the cache reports false although it stores the value; the model does too.

Machine integers are written out where they matter: the 32-bit words of the hashes, the 29 and 32 bits
of the MD5 counters, `strtol` and the conversion to `int` of a port, the 16 and 24 bits of a message
header, the 32-bit register of the 16-bit CRC. Counters that only count events or hand out ids are
unbounded. Time is a parameter of the operations that look at the clock.

## Model

| member | source | states |
|---|---|---|
| CallbackTheorems.EveryRunOneOutcome | common/callback.cpp:102-187 | In every run of submissions, replies and ticks, with serial leaves replying inside their own request(), every callback of an RPC runs at most once, it is canceled at most once, and a called RPC is never timed out or canceled |
| CallbackRun.StepKeeps | common/callback.cpp:290-329 | Every statement boundary of a cascade of requests and completions keeps the whole invariant: log, queues, children, time index, books and the stack of pending activations |
| CallbackRun.StepDescends | common/callback.cpp:290-329 | Every step makes a lexicographic measure smaller, so a cascade of re-entrant calls always ends |
| CallbackCall.NotCalledYet | common/callback.cpp:314-329 | An RPC that is still in the wait queue when triggerCall reaches it has not been called, although called RPCs stay queued until their parent returns |
| CallbackTimeout.TimeoutKeeps | common/callback.cpp:331-356 | A timeout with the cancellations below it keeps the invariant |
| CallbackApi.ScanQuiet | common/callback.cpp:255-275 | The whole timeout loop keeps the invariant, whatever it cancels under entries it has yet to meet |
| CallbackApi.WholeRun | common/callback.cpp:250-288 | Where a run ends: with no activation pending and the invariant intact, or in the undefined iteration of ParallelCallBack::request |
| CallbackTheorems.LateReplyIgnored | common/callback.cpp:304-312 | A reply by id for an RPC that was called, timed out, canceled or never requested changes nothing |
| CallbackTheorems.BooksBalance | common/callback.cpp:290-356 | Between calls, rpc_requested is rpc_called plus rpc_timeouted plus the cancels of waiting RPCs plus the size of the wait queue, and rpc_canceled counts the canceled |
| CallbackProgress.NoTimeoutLost | common/callback.cpp:250-301 | One turn of run(), timeout loop and ready loop together, takes every overdue RPC that was requested with a finite timeout out of the wait queue, wherever it ends well |
| CallbackTimely.IndexInOrder | common/callback.cpp:290-302 | In every reachable state wait_by_time_ is in order of creation, entries of one time in the order of their requests |
| CallbackTimely.TurnInOrder | common/callback.cpp:250-288 | A turn of run() first times out RPCs that waited, the oldest first and of one age the one requested first, each only if its own time is over or a child of it has timed out before; after that it requests and calls only |
| CallbackTimely.InsertPlace | common/callback.cpp:297-298 | A new entry of the multimap goes behind those that are not younger and in front of the younger ones |
| CallbackLine.ReadyRequested | common/callback.cpp:277-287 | A turn of run() requests every ready RPC and empties the ready queue |
| CallbackLine.ReadyOrder | common/callback.cpp:282-285 | It requests them by growing id, whatever runs inside each request |
| CallbackLine.ParallelOrder | common/callback.cpp:158-168 | In every legal run a child of a parallel is requested after every sibling with a smaller id |
| CallbackLine.AnswerFirst | common/callback.cpp:304-329 | A reply to a waiting RPC calls it before anything else happens, takes it out of the queue, and sets off requests and calls only |
| CallbackTicks.ScanExactly | common/callback.cpp:255-275 | Who leaves the queue in the timeout loop, for every state and time: exactly the RPCs that hang, by waiting parents, on one whose entry fires, because its time is over or because a child with an entry before it fires |
| CallbackTicks.SweptIff | common/callback.cpp:255-275 | Some turn of run() takes a waiting RPC out of the queue if and only if it, or an RPC it hangs on by waiting parents, has a timeout |
| CallbackTicks.NextTickExactly | common/callback.cpp:150-154 | The comment "this will timeout next tick", of a waiting composite one of whose children has timed out: it leaves the queue in the next turn of run(), both loops together, if and only if it was requested with a timeout or its waiting parent leaves, which ScanExactly reads off the state before the turn |
| CallbackTicks.StuckForever | common/callback.cpp:189-193 | At any depth: if neither the composite nor any RPC it hangs on by waiting parents has a timeout, it stays in the queue uncalled in every continuation of the run without a reply to its own id |
| CallbackTicks.LeavesIff | common/callback.cpp:150-154 | Exactly: a waiting composite with a timed-out child is taken out of the queue by the timeout loop of some turn of run(), in some continuation without a reply to its own id if and only if it, or an RPC it hangs on by waiting parents, has a timeout |
| CallbackTicks.LeavesRunIff | common/callback.cpp:150-154 | The same of whole continuations that end well, in forests without racy parallels |
| CallbackWitness.PairStuck | common/callback.cpp:150-154 | The run that gets there: a serial without a timeout over one leaf with a timeout is submitted, requested, and asked again after the leaf is overdue |
| CallbackOrder.SerialOrder | common/callback.cpp:112-148 | A serial child is requested only after every child with a smaller id was called |
| CallbackOrder.CompositeLast | common/callback.cpp:135-187 | A composite that nobody answered from outside is called after all its children |
| CallbackOrder.ParentWaits | common/callback.cpp:135-187 | The parent of a waiting RPC still has it among its children, and waits too if and only if it has not been called; it can only have been called by a reply to its own id |
| CallbackOrder.TimeoutSweeps | common/callback.cpp:102-108 | A timeout takes an RPC that waits strictly below out of the wait queue if and only if no composite between the two has been called |
| CallbackWitness.SweepMisses | common/callback.cpp:102-108 | The run in which it does not: a composite is answered by id while its leaf waits, and the timeout of the root misses the leaf |
| CallbackRace.BreaksIff | common/callback.cpp:158-187 | Of one cascade: it ends in the undefined iteration of ParallelCallBack::request if and only if it requests a parallel with a child that completes within its own request(); the test on the trees alone is NoRaceIff |
| CallbackRace.NeverBroken | common/callback.cpp:158-187 | If no parallel of the trees has such a child, no run of submissions, replies and ticks ever breaks |
| CallbackReach.NoRaceIff | common/callback.cpp:158-187 | Of the trees alone: no legal run of submissions, replies and ticks ends in the undefined iteration if and only if no parallel has a child that completes within its own request() |
| CallbackReach.WaitingHasWork | common/callback.cpp:112-187 | In every reachable state a waiting composite has children left; a serial has requested the first of them and a parallel all of them, and whatever it has requested waits or has timed out |
| CallbackProgress.BusyStep | common/callback.cpp:290-329 | Every step keeps it that a requested composite with children left has requested the ones it is waiting for |
| CallbackRace.RaceBreaks | common/callback.cpp:158-187 | Requesting a parallel with such a child breaks the run, whatever its other children do before |
| CallbackRace.SafeStep | common/callback.cpp:290-329 | As long as no such parallel is requested, no step erases from a map under iteration, and what is called inside a running loop completes within its own request |
| CallbackRace.Reaches | common/callback.cpp:112-148 | Requesting an RPC that completes leads to its call before the request is over |
| CallbackRace.Returns | common/callback.cpp:290-329 | Every cascade on top of a stack comes back to it, unless it breaks |
| CallbackCancel.ReachedAll | common/callback.cpp:102-108 | Canceling the children one by one, each with what is below it, reaches exactly the RPCs below |
| CallbackScheduler.AsyncRPC.SetChildren | common/callback.cpp:51-68 | Null entries are passed over; the others become children under fresh ids that grow in list order |
| CallbackBuild.Grow | common/callback.cpp:51-68 | setChildren on a composite, with or without children, takes roots with whole trees below them: the objects then are the forest in which these roots have their new ids and parent and their trees the new depths |
| CallbackBuild.Together | common/callback.cpp:198-212 | Trees built apart, with different ids, make one forest for the scheduler |
| CallbackScheduler.AsyncRPCScheduler.constructor | common/callback.h:170-200 | A scheduler for built trees starts tied to the initial state of the model, which is quiet |
| CallbackBuild.RunPair | common/callback.cpp:250-288 | The objects of PairStuck, built with setChildren and run through call and two ticks, end with the composite stuck |
| CallbackScheduler.AsyncRPCScheduler.TriggerRequest | common/callback.cpp:290-302 | Takes the objects along the model run from its frame to the frame below |
| CallbackScheduler.AsyncRPCScheduler.TriggerCall | common/callback.cpp:314-329 | The same for a completion, up through the parents |
| CallbackScheduler.AsyncRPCScheduler.ChildCalled | common/callback.cpp:135-187 | childCalled of both composites: erase, go on, and complete by id when nothing is left |
| CallbackScheduler.AsyncRPCScheduler.TriggerTimeout | common/callback.cpp:331-346 | The objects end in the state Timeout gives |
| CallbackScheduler.AsyncRPCScheduler.TriggerCancel | common/callback.cpp:348-356 | The objects end with exactly the RPC and what is below it canceled |
| CallbackScheduler.AsyncRPCScheduler.Call | common/callback.cpp:198-212 | Submission is the operation Submit of the model |
| CallbackScheduler.AsyncRPCScheduler.OnReply | common/callback.cpp:304-312 | A reply by id is the operation Answer of the model |
| CallbackScheduler.AsyncRPCScheduler.CheckTimeouts | common/callback.cpp:255-275 | The timeout loop over the time index is Scan of the model |
| CallbackScheduler.AsyncRPCScheduler.Run | common/callback.cpp:250-288 | run() is the operation Run of the model |
| AsyncTheorems.OnceEach | common/async.cpp:268-303 | In every run over trees without a serial of two or more children whose last child completes inside its own call(), no task is called twice and none is done twice |
| AsyncTheorems.CompositeLast | common/async.cpp:137-195 | In every run without a second done a composite is done only after everything below it is done |
| AsyncTheorems.SerialOrder | common/async.cpp:132-160 | In every run without a second done a serial child is called only after everything in the trees of the children before it is done |
| AsyncTheorems.ParentFirst | common/async.cpp:132-184 | In every run without a second done no task is called before its parent, and none is done that was not called |
| AsyncTheorems.DoneIff | common/async.cpp:291-303 | In every run without a second done a task is done exactly when all tasks without children under it are |
| AsyncTheorems.NothingWaits | common/async.cpp:291-303 | In every run without a second done nothing under a task that is done is in queue_wait_ |
| AsyncTheorems.WaitIs | common/async.cpp:268-303 | In every run without a second done queue_wait_ is, between operations, exactly what has been called and is not done |
| AsyncTheorems.Progress | common/async.cpp:132-195 | In every run without a second done some task without children waits under each called task that is not done, so replies can always finish it |
| AsyncTheorems.ReplyEffect | common/async.cpp:282-289 | A reply counts exactly if its task waits; without a second done it then ends no other task that needs a reply. Any other reply changes nothing |
| AsyncTheorems.OnePerReply | common/async.cpp:282-303 | In every run without a second done the tasks that needed a reply and are done are as many as the replies that found their task waiting |
| AsyncTheorems.RootsInOrder | common/async.cpp:111-124 | Preorder ids follow the child lists, so maps iterated by id are iterated in list order |
| AsyncTheorems.NoIdSkipped | common/async.cpp:111-124 | on_emit gives the tasks of a tree the next ids, one each and none skipped |
| AsyncTurns.RootsInTurn | common/async.cpp:223-265 | In every legal run, second dones included, of two emitted tasks the one emitted first is called first |
| AsyncTurns.ParallelInTurn | common/async.cpp:178-184 | In every legal run the children of a parallel are called in list order |
| AsyncTurns.RunCallsAll | common/async.cpp:252-265 | A turn of run() calls whatever was emitted before it and empties the ready queue |
| AsyncTurns.StatCounts | common/async.cpp:268-303 | In every legal run stat_ counts exactly the calls and the dones of the log |
| AsyncRun.NumberedOk | common/async.cpp:111-124 | on_emit gives a tree a well-formed forest on an interval of ids |
| AsyncRun.StepKeeps | common/async.cpp:223-303 | Emitting, running and replying leave no task uncalled that is due, none undone whose children are done, none waiting that is done; or some task has been done twice and the forest has a serial of two or more children whose last child completes inside its own call() |
| AsyncCascade.CallKeeps | common/async.cpp:268-280 | triggerCall, with all that ends inside it: afterwards everything due has been called and nothing that waits for a reply has ended, or a task has been done twice and a serial is to blame |
| AsyncCascade.FinishKeeps | common/async.cpp:291-303 | triggerDone, with all that is called inside it: afterwards no sibling is left uncalled, no emptied composite undone and nobody behind, or a task has been done twice and a serial is to blame |
| AsyncDone.FirstOfFamily | common/async.cpp:137-148 | The serial child that ends is always the first one left |
| AsyncCascade.AllQuick | common/async.cpp:137-148 | If nothing is left after the next child has been called, the last child completed inside its own call() and the serial is done already |
| AsyncCascade.QuickDone | common/async.cpp:132-195 | A task all of whose leaves end inside their own call() is done once its call() is over, at any depth |
| AsyncScheduling.AsyncScheduler.OnEmit | common/async.cpp:111-124 | Creates the tree with the ids Numbered gives and fills every children_ |
| AsyncScheduling.AsyncScheduler.Emit | common/async.cpp:223-230 | emit of any tree, with or without childless composites, is the operation Emit of the model |
| AsyncScheduling.AsyncScheduler.TriggerCall | common/async.cpp:268-280 | The objects end in the state Call gives, with everything that ends inside call() |
| AsyncScheduling.AsyncScheduler.TriggerDone | common/async.cpp:291-303 | The objects end in the state Finish gives |
| AsyncScheduling.AsyncScheduler.ChildIsDone | common/async.cpp:137-195 | child_done of both composites is ChildDone of the model |
| AsyncScheduling.AsyncScheduler.RunReady | common/async.cpp:252-265 | The ready part of run() is the operation Run of the model |
| AsyncScheduling.AsyncScheduler.Reply | common/async.cpp:282-289 | triggerDone of an id, a composite's as well, is the operation Reply; the result tells whether the task waited |
| AsyncOnce.OnceIff | common/async.cpp:132-160 | No task is ever done twice, in any run over a set of trees, if and only if none of the trees has, at any depth, a serial of two or more children whose last child completes inside its own call() |
| AsyncOnce.RiskyRuns | common/async.cpp:137-148 | One such tree alone, emitted, run and answered, has a task done twice |
| AsyncOnce.SafeIsClean | common/async.cpp:132-160 | A run that emits no such tree has no second done, so that everything said of runs without one holds of it |
| AsyncOnce.AnsweredEarly | common/async.cpp:282-303 | A reply to the id of a waiting composite ends it while children of it are not done |
| AsyncOnce.EndsAgain | common/async.cpp:137-195 | A composite that is done already is done again when the last child it has left ends: the other way to a second done |
| Md5Stream.InChunks | common/hashkit/nc_md5.c:198-296 | However a message is cut into chunks, Init, Update on each and Final give the digest of sections 3.1 to 3.5 of RFC 1321 of the whole message |
| Md5Stream.MD5_CTX.Update | common/hashkit/nc_md5.c:210-244 | The registers stay the fold over the whole blocks, the buffer the tail, and the two counters the length modulo 2^61 |
| Md5Stream.MD5_CTX.Final | common/hashkit/nc_md5.c:246-296 | The digest of exactly the message taken in, and a context of zeros |
| Md5Stream.MD5_CTX.Body | common/hashkit/nc_md5.c:90-195 | The do-while over whole blocks is the fold of the compression function |
| Md5Stream.MD5_CTX.Count | common/hashkit/nc_md5.c:216-220 | The carry out of lo is seen by its getting smaller |
| Md5Stream.MD5_CTX.PadOut | common/hashkit/nc_md5.c:251-263 | One bit and zeros, in one block or two |
| Md5Stream.Counted | common/hashkit/nc_md5.c:216-220 | hi and lo together count bytes modulo 2^61 |
| Md5Stream.LengthBytes | common/hashkit/nc_md5.c:265-273 | lo shifted by three and hi are the 64-bit bit count, low-order byte first |
| Md5Stream.Completed | common/hashkit/nc_md5.c:224-236 | A filled buffer is exactly the block that is missing |
| Md5Stream.Signature | common/hashkit/nc_md5.c:302-310 | One Update gives the digest of the key |
| Md5Stream.Hash | common/hashkit/nc_md5.c:312-323 | hash_md5 is the first register of the digest |
| Md5Spec.ChainConcat | common/hashkit/nc_md5.c:90-195 | Blocks can be processed in portions |
| Md5Body.OptIs | common/hashkit/nc_md5.c:45-52 | The optimized F and G are those of RFC 1321 |
| Md5Body.StepIs | common/hashkit/nc_md5.c:57-60 | A macro call is a step of section 3.4 of RFC 1321 on the registers in their rotated places |
| Md5Body.Round1 | common/hashkit/nc_md5.c:113-128 | The 16 unrolled calls are steps 0 to 15 by the index, shift and sine tables |
| Md5Body.Round2 | common/hashkit/nc_md5.c:131-146 | Steps 16 to 31 |
| Md5Body.Round3 | common/hashkit/nc_md5.c:149-164 | Steps 32 to 47 |
| Md5Body.Round4 | common/hashkit/nc_md5.c:167-182 | Steps 48 to 63 |
| Md5Digest.AlphanumericsDigest | common/hashkit/nc_md5.c:302-310 | The digest of the 62 letters and digits is the one printed in section A.5 of RFC 1321, two blocks long: so the constants, rotations and byte orders of the definition are those of the RFC |
| Words.RotatesLeft | common/hashkit/nc_md5.c:57-60 | The shift-and-or of the macros rotates to the left, by each of the 31 amounts |
| JenkinsHash.Hash | common/hashkit/nc_jenkins.c:75-230 | The word, half-word and byte branches all give Jenkins of the key bytes, for every address, key and length: they agree, and nothing behind the key matters |
| JenkinsHash.ByWords | common/hashkit/nc_jenkins.c:87-133 | The branch of aligned words; masked loads touch only words that hold a byte of the key |
| JenkinsHash.ByHalves | common/hashkit/nc_jenkins.c:134-186 | The branch of half words, none of which reaches behind the key |
| JenkinsHash.ByBytes | common/hashkit/nc_jenkins.c:187-224 | The branch of bytes |
| JenkinsHash.WordOf | common/hashkit/nc_jenkins.c:115-130 | Masking a load leaves exactly the bytes that are there |
| JenkinsSpec.MixIsBijective | common/hashkit/nc_jenkins.c:36-44 | mix has an inverse on (a, b, c), on both sides |
| JenkinsSpec.FinalIsBijective | common/hashkit/nc_jenkins.c:46-55 | final has an inverse on (a, b, c), on both sides |
| JenkinsVector.FourScoreHash | common/hashkit/nc_jenkins.c:28-55 | The definition gives the value stated in lookup3.c for its key of thirty bytes with initval 0 |
| JenkinsVector.AppleHash | common/hashkit/nc_jenkins.c:57-230 | With the initval of this file the key apple hashes to the value in the table of libmemcached |
| JenkinsVector.EmptyHash | common/hashkit/nc_jenkins.c:75-230 | A key without bytes is not mixed: 0xdeadbeef plus the initval |
| JenkinsSpec.LastBlock | common/hashkit/nc_jenkins.c:89-133 | Whole blocks go through mix and the last one to twelve bytes through final, also when the length is a multiple of twelve |
| Crc32Hash.HashCrc32a | common/hashkit/nc_crc32.c:111-123 | The table-driven loop is the CRC-32 of section 8 of RFC 1952, computed bit by bit |
| Crc32Hash.HashCrc32 | common/hashkit/nc_crc32.c:98-109 | hash_crc32 is bits 16 to 30 of it |
| Crc32Table.TableIs | common/hashkit/nc_crc32.c:27-92 | Every one of the 256 entries is eight steps of the division on its index |
| Crc32Spec.ByteAtOnce | common/hashkit/nc_crc32.c:105-107 | Eight steps on a register with a byte added are a table entry and a shift |
| Crc32Spec.EightXor | common/hashkit/nc_crc32.c:27-92 | The division is linear |
| Crc16Hash.HashCrc16 | common/hashkit/nc_crc16.c:55-66 | The low half of the 32-bit register is the zero-initialised CRC with polynomial 0x1021 |
| Crc16Table.TableIs | common/hashkit/nc_crc16.c:20-53 | Every one of the 256 entries is eight steps of the division on its index |
| Crc16Spec.ByteAtOnce | common/hashkit/nc_crc16.c:61-63 | The same for the 16-bit division |
| HashValues.Crc32Check | common/hashkit/nc_crc32.c:98-123 | The check value of CRC-32 is CBF43926, and hash_crc32 gives its bits 16 to 30 |
| HashValues.Crc16Check | common/hashkit/nc_crc16.c:55-66 | The check value of the zero-initialised CRC with polynomial 0x1021 is 31C3 |
| Murmur.HashMurmur | common/hashkit.cpp:21-82 | The loop and the fall-through switch compute Hash |
| Murmur.OneBlock | common/hashkit.cpp:41-53 | Keys that differ in exactly one aligned block of four bytes never collide |
| Murmur.OnlyTheTail | common/hashkit.cpp:57-70 | Keys of one length that differ only in the one to three bytes behind the last block never collide |
| Murmur.BlockInjective | common/hashkit.cpp:41-53 | A block step is injective in the hash and in the block |
| Murmur.FinishBack | common/hashkit.cpp:77-79 | The finalizer can be undone |
| HashValues.StrawberryHash | common/hashkit.cpp:21-82 | The hash of a key of two blocks and two bytes is the one in the table of libmemcached |
| HashValues.IckHash | common/hashkit.cpp:21-82 | So is that of a key of three bytes |
| RpcTheorems.OneOutcome | common/tinyrpc_client.h:165-216 | Over a network that loses, repeats and reorders, every emitted request is pending or has had exactly one callback, and the two kinds add up to the number emitted |
| RpcTheorems.DoneIsTheResult | common/tinyrpc_client.h:130-151 | A done callback gets what the handler returned when called with the argument of this very request |
| RpcTheorems.ErrorsAreTheServers | common/tinyrpc_server.h:63-115 | No reply of the server is mismatched or unreadable for its request; an error says what the server said |
| RpcTheorems.BlankOnlyTimesOut | common/tinyrpc_client.h:118-128 | A request that packs to nothing is sent blank and can only time out |
| RpcTheorems.TimedArePending | common/tinyrpc_client.h:181-212 | rpc_timeout_holders_ holds pending requests only |
| RpcTheorems.LateReplyIgnored | common/tinyrpc_client.h:181-188 | Once a request has had its callback, no reply to it changes anything |
| RpcTheorems.CheckedIs | common/tinyrpc_client.h:191-212 | checkTimeout ends exactly the timed requests whose time is over, in whatever order the hash map is met |
| RpcTheorems.CheckedTells | common/tinyrpc_client.h:191-212 | It makes one timeout callback for each of them and returns their number |
| RpcTheorems.RequestReply | common/tinyrpc_server.h:44-115 | What the server makes of a request that was really sent |
| RpcOutcomes.ThereAndBack | common/tinyrpc_client.h:130-188 | In every run a pending request that packs may arrive, and the reply sent then makes done with the handler's result, or the error for a type without a callback, another reply type or a result that packs to nothing: that one callback and no other |
| RpcOutcomes.ReplyEnds | common/tinyrpc_client.h:130-188 | Any reply to a pending request ends it with one callback: the error it carries, ReplyNotMatched, ReplyParseError, or done with what its body says |
| RpcOutcomes.ServerAnswers | common/tinyrpc_server.h:63-116 | Any message is answered under its own id and names, with the error of the first check that fails or the packed result |
| RpcOutcomes.TimeoutsAreOver | common/tinyrpc_client.h:191-212 | Over every run a timeout callback was made by a checkTimeout that found the request pending, with a timeout of ms >= 0 set last, and more than ms gone by since it was created |
| RpcOutcomes.OverTimesOut | common/tinyrpc_client.h:191-212 | checkTimeout makes the timeout callback for every pending request whose time is over |
| RpcOutcomes.EmitPends | common/tinyrpc_client.h:165-178 | emit makes the next id pending without a timeout and sends its message, and changes nothing else |
| RpcOutcomes.FirstCallbackStays | common/tinyrpc_server.h:98-104 | Over every run a type has a callback if and only if on was called for it, and it is the first one |
| RpcOutcomes.FirstRun | common/tinyrpc_server.h:44-116 | There is such a run: on, emit, request and reply end in done with the result |
| RpcOutcomes.TimedRun | common/tinyrpc_client.h:191-212 | A request with a timeout of ms times out when it is checked if and only if more than ms have passed |
| RpcTheorems.StepKeeps | common/tinyrpc_client.h:165-216 | Every step of client, server or network keeps the invariant |
| RpcObjects.RPCEmitter.EmitRequest | common/tinyrpc_client.h:172-178 | emit and pack do what the model says, with a fresh holder |
| RpcObjects.RPCEmitter.SetTimeout | common/tinyrpc.cpp:8-16 | The holder goes into the timeout table unless the timeout is -1 |
| RpcObjects.RPCEmitter.OnReply | common/tinyrpc_client.h:181-188 | One callback, and out of both tables |
| RpcObjects.RPCEmitter.CheckTimeouts | common/tinyrpc_client.h:191-212 | The loop over the timeout table, with the number of callbacks it made |
| RpcObjects.RPCDispatcher.On | common/tinyrpc_server.h:98-104 | The first callback of a request type stays |
| RpcObjects.RPCDispatcher.OnRequest | common/tinyrpc_server.h:107-116 | The reply of the model for the result of the handler |
| UrlTheorem.RoundTrip | common/url.cpp:344-396 | parse(make(u)) succeeds and gives back u if and only if u is well-formed, for every u whose port fits an int |
| UrlGrammar.ReadsIff | common/url.cpp:123-275 | url_parse reads schema, user info, host, port, path, query and fragment from a text if and only if the text is spelled from them by the grammar, which is written as concatenations |
| UrlReading.ParseIff | common/url.cpp:344-374 | parse gives u for a text if and only if the text up to its first NUL is spelled from parts that u holds: nothing for a missing part, the port as a number, the last value of a name |
| UrlReading.SlashOptional | common/url.cpp:190-222 | A host, with or without a port, may do without the slash behind it, with user info or without |
| UrlReading.AtolIs | common/url.cpp:361-362 | A port is read as strtol reads it from any text: white space, a sign, the longest row of digits, the limits of long, cut down to 32 bits |
| UrlReading.LastWins | common/url.cpp:364-368 | Of several pairs with one name the last value stays |
| UrlReading.PairsInOrder | common/url.cpp:376-396 | make prints the query by name, each name with its value and & |
| UrlReading.BeforeIff | common/url.cpp:376-396 | The names are in the order of their first difference, a part of a name before the name |
| UrlReading.PortPrinted | common/url.cpp:376-396 | A port is printed exactly if it is positive, by its digits without leading zeros |
| UrlTheorem.RestIff | common/url.cpp:166-260 | The text behind the user info is read back exactly if host, port, path, query and fragment are free of misread delimiters |
| UrlTheorem.UserIff | common/url.cpp:145-165 | The user info is read back exactly if both parts are there without their delimiters, or neither and no @ follows |
| UrlTheorem.RestShort | common/url.cpp:376-396 | What is parsed prints at most one character longer than its text |
| UrlTheorem.NoBracket | common/url.cpp:166-189 | A host that starts with a bracket is never read back |
| UrlTheorem.ParsedFree | common/url.cpp:344-374 | No parsed field holds a NUL |
| UrlRound.ParsePairs | common/url.cpp:92-122 | parse_query reads back the printed query map, trailing & and all |
| UrlRound.QueryOk | common/url.cpp:92-122 | Parsed names are free of = and parsed values of & |
| UrlRound.AtolDecimal | common/url.cpp:361-362 | A printed port is read back |
| UrlRound.PortShort | common/url.cpp:361-362 | A positive port is never printed longer than the text it was read from, through clamping and truncation |
| UrlClass.ReadUrl | common/url.cpp:123-275 | url_parse gives null exactly where the model has no result, and else the fields of the model |
| UrlClass.UrlRecord.ReadQuery | common/url.cpp:92-122 | The loop of parse_query appends the pairs of the model |
| UrlClass.UrlRecord.ReadHost | common/url.cpp:166-222 | Host and port, bracketed or not |
| UrlClass.TinyURL.ReadFrom | common/url.cpp:344-374 | parse gives the value of the model, or the empty value and false |
| UrlClass.TinyURL.Print | common/url.cpp:376-396 | make prints the text of the model, the query in key order |
| PoolTheorems.LimitOverrun | common/pool.h:262-305 | In every interleaving the connections in use never exceed conns_in_use_, which never goes below zero, and neither it nor the pool exceeds conns_max_ - 1 plus the number of threads |
| PoolTheorems.BoundReached | common/pool.h:262-296 | The bound is exact: some interleaving reaches it, for every limit and every number of threads |
| PoolTheorems.LimitIff | common/pool.h:262-296 | The limit holds in every interleaving if and only if there is one thread |
| PoolTheorems.OneHolder | common/pool.h:67-99 | No connection has two holders, and one that is held is marked in use |
| PoolTheorems.StepKeeps | common/pool.h:67-305 | Every step of every thread keeps the invariant |
| PoolTheorems.GrabbedIs | common/pool.h:67-76 | A grab marks exactly one more connection, and grows the pool only when all were in use |
| PoolOrder.GrabsLatest | common/pool.h:67-99 | In every interleaving grab returns a connection that nobody holds: of the free ones the one released last, of several the one made first, and a new one if none is free |
| PoolModel.FindMru | common/pool.h:174-182 | The free connection used last, and none exactly if all are in use |
| PoolModel.Max | common/pool.h:36-41 | The first greatest entry by operator< |
| PoolObjects.ConnectionPool.MaxElement | common/pool.h:174-176 | The loop of max_element |
| PoolObjects.ConnectionPool.Grab | common/pool.h:67-76 | grab of the base pool is Grabbed |
| PoolObjects.ConnectionPool.Release | common/pool.h:90-99 | release of the base pool is Released |
| PoolObjects.ConnectionPoolWithLimit.Grab | common/pool.h:262-296 | One more in use, or NULL exactly if the limit is reached |
| PoolObjects.ConnectionPoolWithLimit.Release | common/pool.h:298-305 | The counter goes down by one whatever is given back, and is right again if and only if the connection was in use |
| PoolObjects.ConnectionPoolWithLimit.CreateAll | common/pool.h:252-259 | Grows the pool to the limit and leaves in use what was in use |
| Message.RoundTripByName | common/message_dispatcher.h:97-119 | A message packed by name reaches the handler of that name with exactly its body if and only if the lengths fit their 16 and 24 bits |
| Message.PackedGoesTo | common/message_dispatcher.h:388-418 | Where a packed message goes for every length: rejected by the size check, by the header check, or cut at the 16-bit name length |
| Message.RoundTripByType | common/message_dispatcher.h:121-139 | By type a body of 2^24 bytes or more is delivered cut short |
| Message.WireByName | common/message_dispatcher.h:97-119 | The bytes that packing by name writes, one by one |
| Message.WireByType | common/message_dispatcher.h:121-139 | The bytes that packing by type writes, one by one |
| Message.DispatchByBytes | common/message_dispatcher.h:388-418 | What dispatch by name does with any bytes |
| Message.DispatchTypeByBytes | common/message_dispatcher.h:302-321 | What dispatch by type does with any bytes |
| Message.FirstHandlerStays | common/message_dispatcher.h:430-440 | A key has a handler if and only if one was bound to it, and it is the one bound first |
| Message.WithHeader | common/message.h:40-85 | Bit fields drop what does not fit; the flags that are not assigned stay |
| Message.ReadFrames | common/net_asio/connection.cpp:141-171 | Complete frames are handled one by one in order, with exactly their bytes; what follows decides how the call ends |
| Message.ReadSplits | common/net_asio/connection.cpp:141-171 | Every buffer is frames and then less than a header, an oversize header or an incomplete frame |
| Message.ReadByBytes | common/net_asio/connection.cpp:141-171 | readMessages takes out frames of six bytes and the size in the first three, 8192 at most; it returns true in front of less than six bytes, false in front of more than 8192, and spins in front of a frame that is not whole |
| Message.EndsIff | common/net_asio/connection.cpp:143-168 | readMessages ends on a buffer if and only if the buffer is not whole frames and then a header whose frame is incomplete |
| Message.StreamDelivers | common/message_dispatcher.h:388-418 | A stream of packed messages is taken apart into its frames, and each frame is what the dispatcher by name delivers to its handler; the program has both halves but not this path, since net_asio frames by the header of net_asio/message.h, which has no type_is_name, and dispatches to its own handlers |
| MessageObjects.MessageBuffer.WriteByName | common/message_dispatcher.h:97-119 | The buffer holds the packed message, or is unchanged |
| MessageObjects.MessageBuffer.WriteByType | common/message_dispatcher.h:121-139 | The same by type, with the type in its sixteen bits |
| MessageObjects.MessageNameDispatcher.Dispatch | common/message_dispatcher.h:388-418 | dispatch by name is the model |
| MessageObjects.MessageNameDispatcher.BindHandler | common/message_dispatcher.h:430-440 | The first handler of a name stays |
| MessageObjects.Connection.ReadMessages | common/net_asio/connection.cpp:141-171 | The loop over the read buffer hands out the frames and keeps the rest |
| CacheModel.AsyncIsSync | common/mycache2.in.h:253-327 | With a fixed store the AutoGet chain ends within maxlevel + 1 answers and delivers exactly one result, that of SyncMyCache::get, and the writes of get_and_cache |
| CacheModel.GetIff | common/mycache2.in.h:82-93 | get finds a value if and only if it is that of the first level with the key, among the levels 0 to 2 or to the depth given |
| CacheModel.CachedIs | common/mycache2.in.h:96-117 | get_and_cache writes a value found behind level 0 to the connected levels up to cachelv, and nothing else |
| CacheModel.DeletedFrom | common/mycache2.in.h:124-133 | del takes the key out of the levels 0 to 2 or to the depth given, and nothing else |
| CacheModel.CachingKeepsAgreement | common/mycache2.in.h:96-117 | get_and_cache keeps the agreement of all levels, for every key |
| CacheModel.CachingChangesNothing | common/mycache2.in.h:96-117 | get_and_cache changes the value that any get finds for no key at no depth where there was one, whether or not the levels agree |
| CacheModel.CachedAtLevelZero | common/mycache2.in.h:96-117 | Afterwards every get finds the same value in level 0 |
| CacheModel.DeletedMisses | common/mycache2.in.h:124-133 | After a del down to a level a get down to it misses, and other keys are untouched |
| CacheObjects.SyncMyCache.GetAndCache | common/mycache2.in.h:96-117 | The loop gives the value and leaves the levels of the model |
| CacheObjects.SyncMyCache.Lookup | common/mycache2.in.h:82-93 | get is the model |
| CacheObjects.SyncMyCache.Delete | common/mycache2.in.h:124-133 | del is the model; its result tells only whether the last level had the key, and is true without levels |
| CacheObjects.SyncMyCache.DeleteFrom | common/mycache2.in.h:58-78 | del_from takes the key out of one level and tells whether it was there |
| CacheObjects.AutoGet.OnResult | common/mycache2.in.h:259-301 | A hit delivers and fills, a miss makes the next AutoGet or delivers the miss |
| CacheObjects.AsyncGet | common/mycache2.in.h:253-327 | The chain of objects delivers one result and leaves the levels of get_and_cache |
| ShardingModel.EveryCodeIff | common/sharding.h:67-70 | Every hash code has a shard if and only if the number of shards is a power of two |
| ShardingModel.BehindTheLast | common/sharding.h:67-70 | Exactly the last 2^32 mod n codes fall behind the last shard |
| ShardingModel.Interval | common/sharding.h:67-70 | Shard i owns exactly one interval of 2^32 / n codes |
| ShardingModel.Monotone | common/sharding.h:67-70 | The shard number grows with the code |
| ShardingObjects.Sharding.ShardByHash | common/sharding.h:67-83 | When ready, every code but the last 2^32 mod n finds its shard |
| ShardingObjects.Sharding.AddShard | common/sharding.h:44-55 | A number is taken once, and -1 never |
| ShardingObjects.Sharding.IsReady | common/sharding.h:36-42 | All numbers below the number of shards are taken |
| Split.JoinSplit | common/redis.cpp:22-40 | Splitting and joining gives back every text |
| Split.SplitJoin | common/redis.cpp:22-40 | Joining and splitting gives back a list if and only if no element holds the delimiter |
| Split.PartAt | common/redis.cpp:30-40 | The parts are in text order: part k stands behind k delimiters and reaches up to the next one, and there is one part more than delimiters |
| Split.StrToVec | common/redis.cpp:30-40 | The loop over find gives the parts |
| Split.VecToStr | common/redis.cpp:22-28 | The loop gives the joined text |

## Left out

- Wall-clock, sockets, event loops, signals, logging, mutexes as such and object lifetime; the steps that run under one mutex are one step.
- User callbacks: they are events of a log and do not re-enter the scheduler, except for leaves that reply inside their own `request()` or `call()`.
- callback.cpp: wrap-around of the id counter; `scheduler` and `context` pointers, which `setChildren` copies before grandchildren may have them; `queue_ready_` is cleared before its loop instead of after it, which nothing inside the loop can see.
- CallbackScheduler.AsyncRPCScheduler.Run: like `OnReply`, requires that the cascade it starts does not end in undefined behaviour, which `BreaksIff` characterises.
- CallbackScheduler.AsyncRPC.SetChildren: requires that no RPC is listed twice, which would make two owners of one object.
- async.cpp: timeouts and cancellation, `wait_by_time_`, `clone`, and user-defined tasks that are given children, which nobody would call. A tree is a value until it is emitted; its objects are made by `OnEmit`, and somebody holds each of them to the end of the run, also when a second done would otherwise find its task destroyed.
- AsyncTheorems.ReplyEffect: replies are for tasks without children, as in all theorems about whole runs; `AsyncScheduler.Reply` takes the id of a composite too, which ends it before its children and lets them end it again (`AnsweredEarly`, `EndsAgain`).
- Md5Spec.Sine: the table of RFC 1321 is taken as its 64 constants; that they are integer parts of sines is not proved.
- nc_md5.c: `Body` reads the words of a block directly, as on little-endian machines; the `block` copy of other machines is not part of this model.
- nc_jenkins.c: big-endian machines.
- RpcObjects.RPCEmitter.SetTimeout: requires that the request has not had its outcome; afterwards the holder is destroyed and the reference `emit` returned is dangling.
- tinyrpc_client.h: callbacks that emit from inside a callback, wrap-around of the 64-bit request counter.
- url.cpp: bracketed hosts are parsed but never printed back, so no URL with one is well-formed; `host_type` and `href` are not kept.
- pool.h: `remove`, `clear`, `shrink` and a `setMaxConn` while connections are out; sleeping between checks; wrap-around above 2^32 connections.
- PoolObjects.ConnectionPoolWithLimit.Grab: with one thread waiting forever for a full pool does not return, so it requires room or a bounded wait.
- Message.DispatchByName: a name or body that would be read behind the message is one outcome, `Overread`, whatever the code would do there.
- MessageObjects.Connection.ReadMessages: requires that the loop ends, which `EndsIff` characterises.
- mycache2.in.h: one value type, levels that are connected for good, writes that succeed on every connected level, and a store that does not change while a chain of callbacks runs.
- Split.VecToStr: an empty vector is read out of bounds by the code and is excluded.
- message handlers' replies, protobuf serializers, the tables of tinytable and tinyorm, the ZMQ brokers, timers and state machines of the repository are not part of this model.
