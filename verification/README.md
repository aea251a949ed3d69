# RDMA sample protocols: models and proofs

The repository holds sample programs over the RDMA verbs library. Their interesting logic is credit accounting and small
two-party protocols driven by completion queues. This project models that logic in Dafny, one module per program or
component, and proves it against an explicit model of the device.

## The environment

Every protocol module replaces the verbs library by the same small environment:

- a queue pair is a reliable channel that delivers in order; posted receives are consumed first in, first out;
- a send that finds no posted receive waits (the programs set the receiver-not-ready retry to infinite);
- completions may be polled at any time after they exist and, unless a theorem says otherwise, in any order;
- a message or a one-sided write carries what its sender's buffer holds when it is delivered, so reusing a buffer too
  early shows up as wrong data.

Code that changes state step by step is written as Dafny methods and classes over fields and arrays, each proved equal to
a specification function. The protocols are state machines whose steps apply those same functions; `IsTrace` relates a
run of steps to the states it visits, and the theorems quantify over all runs. Handlers return the verbs they call as a
list of work items that later steps carry out in order. The thread barrier, whose code is two short lists of semaphore
calls, is a state machine only.

| file | what it models |
|---|---|
| `SrqPingPong.dfy` | `srq_pingpong.c`: tokens on many queue pairs with a shared receive queue |
| `XrcPingPong.dfy` | `xsrq_pingpong.c`: one server, many clients, round-robin send queues |
| `BurstWindow.dfy` | `intf.c`: the burst engine, the request ring, the received-data check |
| `ThreadBarrier.dfy` | `intf.c`: the start and finish barriers over threads |
| `FileTransfer.dfy` | `03_file-transfer`: chunked file transfer on one connection |
| `FileServer.dfy` | `03_file-transfer`: many connections on one completion queue and one poller |
| `MrExchange.dfy` | `02_read-write`: memory-region exchange and one-sided access |
| `CalcLowering.dfy` | `cc_pingpong.c`: lowering of calc operations, verification rounds, the gather list |
| `WireAddress.dfy` | `pingpong.c` and its callers: printed and parsed addresses |
| `Doubles.dfy` | the conversion of a 64-bit number to double and back |
| `Common.dfy`, `Counting.dfy`, `Modular.dfy`, `BitOps.dfy`, `ByteOrder.dfy`, `Folds.dfy` | C strings and constants, sums over sequences, remainders, bitwise operations, network order, folds |

## Findings

Some of what the programs look as if they promise holds only under a condition. Each is proved as an exact condition.

- `send_recv` waits for completions that can never come exactly when `0 < num_msgs < wr_burst`; the input checks let that
  through (`WaitsOnlyForOutstanding`, `InfeasibleHangs`). A burst of 0 passes the first check and divides by zero in the
  next (`CheckQueue`).
- A successful return of `send_recv` does not mean that its requests are done. Whatever the completion queue answers, all
  but less than two bursts of the credit are still outstanding (`ReturnLeavesOutstanding`), so from two bursts of messages
  on none is ever complete. Some return is complete exactly when there is nothing to do or the messages make at least one
  burst and less than two (`FinishedReturnIff`); every return is complete exactly when there is less than a burst of
  messages (`AlwaysFinishedIff`); some return leaves everything outstanding exactly when there is nothing to do or the
  ring takes all messages in whole bursts (`UntouchedReturnIff`).
- The received-data check is right for all messages exactly when both queue-pair indices agree in their low nibble and
  the rings are equal, or each ring is either not wrapped or a multiple of 16 (`CheckNeverMisfires`).
- In the region exchange both peers act exactly once if and only if no receive completion overtakes the completion of a
  send its message follows (`ExactlyOnceIffOrdered`); otherwise the run gets stuck (`SkippedPairGetsStuck`).
- MIN and MAX survive lowering exactly when the operands are all of one class; `Reversed` gives the class per type. For
  MIN on INT64 the exceptional class is the least value alone; on unsigned types it is zero
  (`ExtremalIsExactIff`).
- The first `--verify` check fails exactly for MIN and MAX of two operands of different classes (`FirstCheckIff`). For
  ADD a later check passes exactly when the running value is below 2^53 or has only zeros beyond its 53 leading bits,
  because `last_result` goes through `double` (`AddVerifyIff`, for running values from 0 to below 2^64 - 1024, outside of
  which C leaves the conversion undefined). Adding 1 to 2^53 on INT64 fails on the second message (`AddVerifyFails`).
- A failed thread creation does not stop the created threads: `run_threads` releases them and nothing between the start
  semaphore and `send_recv` looks at `thread_stop`, which only the report reads. After m of n threads were created, any
  number of threads up to m can be sending at once, and no more (`SendAfterFailureIff`). `BarrierSafety` therefore speaks
  of the end of the creation loop, not of its success.

## Model

| member | source | states |
|---|---|---|
| SrqPingPong.FindQp | examples/libibverbs-examples/srq_pingpong.c:595-604 | the search returns the first index with the number, and -1 exactly if there is none |
| SrqPingPong.PingPong.constructor | examples/libibverbs-examples/srq_pingpong.c:874-899 | the client starts with both bits pending on every queue pair, the server with the receive bit, counters at zero |
| SrqPingPong.PingPong.OnCompletion | examples/libibverbs-examples/srq_pingpong.c:955-991 | one completion updates counters and bit mask as the specification function `React` says, and posts rx_depth - num_qp receives exactly when that many have been used since the last refill, otherwise none |
| SrqPingPong.PingPong.OnBatch | examples/libibverbs-examples/srq_pingpong.c:938-993 | a batch raises rcnt and scnt by its receive and send completions; if the two-party system polls the same completions one by one, the variables are the ones it reaches and the sends are its new messages in order |
| SrqPingPong.EveryBatchRuns | examples/libibverbs-examples/srq_pingpong.c:929-938 | every batch of completions a side's queue can hold is such a sequence of polls of the two-party system |
| SrqPingPong.RefillsAreBatched | examples/libibverbs-examples/srq_pingpong.c:960-970 | in every reachable state, on both sides, routs is rx_depth less the receives since the last refill, which happens when num_qp are left |
| SrqPingPong.StepInv | examples/libibverbs-examples/srq_pingpong.c:880-995 | every delivery and every poll keeps the token invariant on each queue pair and the counting equations over all of them |
| SrqPingPong.Safety | examples/libibverbs-examples/srq_pingpong.c:750-757 | in every reachable state the shared receive queue covers all messages in flight, `routs` stays in num_qp..rx_depth, the counters stay at most iters + num_qp - 1, a send queue of depth 1 and the completion queue suffice |
| SrqPingPong.QuiescentIsDone | examples/libibverbs-examples/srq_pingpong.c:982-991 | with nothing in flight and nothing to poll both sides have met their quota |
| SrqPingPong.Progress | examples/libibverbs-examples/srq_pingpong.c:899-995 | deadlock freedom: until both sides have left the loop a delivery, a poll of a side that still loops, or an exit is possible |
| SrqPingPong.EveryRunCompletes | examples/libibverbs-examples/srq_pingpong.c:899-995 | every interleaving is bounded and ends with both counters of both sides in iters..iters + num_qp - 1 |
| XrcPingPong.XrcContext.PostSend | examples/libibverbs-examples/xsrq_pingpong.c:764-786 | a send uses the queue pair at the client's index plus its count, is signalled from the last test on, and counts |
| XrcPingPong.XrcContext.PostFirst | examples/libibverbs-examples/xsrq_pingpong.c:964-965 | the server opens with one send to each client |
| XrcPingPong.XrcContext.OnReceive | examples/libibverbs-examples/xsrq_pingpong.c:991-995 | a receive is answered exactly while the quota of that destination is not met |
| XrcPingPong.RoundRobinOrder | examples/libibverbs-examples/xsrq_pingpong.c:760-781 | the first send to client i uses queue pair i and each later one the next queue pair, after the last the first |
| XrcPingPong.RoundRobin | examples/libibverbs-examples/xsrq_pingpong.c:760-783 | any num_clients consecutive sends to a client use each send queue pair exactly once |
| XrcPingPong.UsesBalanced | examples/libibverbs-examples/xsrq_pingpong.c:781 | after k sends each queue pair has carried k / num_clients of them, rounded down or up |
| XrcPingPong.StepQueues | examples/libibverbs-examples/xsrq_pingpong.c:779-785 | the server's send queue pairs, shared by all clients and delivered in order, hold exactly the messages under way, each on the queue pair its send chose |
| XrcPingPong.StepInv | examples/libibverbs-examples/xsrq_pingpong.c:968-1005 | every step keeps one message per client relation, the send counts, the receive credits, the send queues and the single signalled send |
| XrcPingPong.Safety | examples/libibverbs-examples/xsrq_pingpong.c:276-297 | in every reachable state no receive queue underruns with one credit per client, neither side's receive or send completion queue (num_clients entries) overruns, no destination is sent more than num_tests messages |
| XrcPingPong.SendQueueFits | examples/libibverbs-examples/xsrq_pingpong.c:174 | a send queue of depth num_clients * num_tests holds every send ever posted on it |
| XrcPingPong.Progress | examples/libibverbs-examples/xsrq_pingpong.c:968-1005 | until the server and all clients have left the receive loop and the send-drain loop some step is possible, with each shared send queue delivering only its first message |
| XrcPingPong.EveryRunIsExact | examples/libibverbs-examples/xsrq_pingpong.c:764-1005 | every run over the shared send queues is bounded; at its end num_tests messages went each way per client, exactly one send each way per client was signalled and its completion reaped |
| BurstWindow.AcceptedIff | examples/libibverbs-examples/intf.c:2021-2043 | exactly the queues of a whole number of bursts, more than two of them, are accepted |
| BurstWindow.CheckQueueVerdict | examples/libibverbs-examples/intf.c:2021-2043 | which check rejects a setting, and which settings divide by zero |
| BurstWindow.SendRecv | examples/libibverbs-examples/intf.c:532-578 | for any answers of the completion queue the nested loops end where the step semantics does; the i-th burst is posted at i bursts modulo the ring; for accepted settings each stays inside the ring and hits no slot whose message is not yet consumed |
| BurstWindow.FillStepInv | examples/libibverbs-examples/intf.c:550-557 | posting a burst keeps credit plus outstanding equal to min(max_wrs, num_msgs) and never starts a burst past the message count |
| BurstWindow.PollStepInv | examples/libibverbs-examples/intf.c:563-574 | so does a poll of at most one burst |
| BurstWindow.BurstIsSafe | examples/libibverbs-examples/intf.c:551-556 | a burst's slots stay inside the ring, are consecutive, and none belongs to an outstanding request |
| BurstWindow.SendRecvResult | examples/libibverbs-examples/intf.c:546-577 | for any batching the window equation holds and a return is a success with the message count rounded up to whole bursts |
| BurstWindow.FailsIff | examples/libibverbs-examples/intf.c:563-573 | the call ends with code 1 if and only if an answer it polls is a failed poll or completions whose data check fails |
| BurstWindow.WaitsOnlyForOutstanding | examples/libibverbs-examples/intf.c:550-574 | the engine never waits on an empty queue if and only if num_msgs is not positive or at least one burst |
| BurstWindow.InfeasibleHangs | examples/libibverbs-examples/intf.c:546-574 | with fewer messages than a burst nothing is posted and no script of polls ends the wait |
| BurstWindow.ReturnLeavesOutstanding | examples/libibverbs-examples/intf.c:563-577 | every successful call, for any answers of the completion queue, leaves more than its credit less two bursts outstanding |
| BurstWindow.UntouchedReturnIff | examples/libibverbs-examples/intf.c:563-577 | some successful call returns with nothing completed if and only if there is nothing to do or the ring takes all messages in whole bursts |
| BurstWindow.FinishedReturnIff | examples/libibverbs-examples/intf.c:546-577 | some successful call returns with everything completed if and only if there is nothing to do or there are at least one burst and less than two bursts of messages |
| BurstWindow.AlwaysFinishedIff | examples/libibverbs-examples/intf.c:546-577 | every successful call returns with everything completed if and only if there is less than a burst of messages |
| BurstWindow.Prepare | examples/libibverbs-examples/intf.c:1015-1048 | the preparation loop links each slot to the next inside its burst and fills the sender's slots with bytes whose low nibble is the slot's and whose high nibble is the queue pair's |
| BurstWindow.ChainIsBurst | examples/libibverbs-examples/intf.c:1033-1044 | posting the request of a burst's first slot hands over exactly the slots of that burst |
| BurstWindow.IsDataValid | examples/libibverbs-examples/intf.c:488-523 | the check passes exactly if the picked byte of the picked message has the slot's low nibble below the queue pair's, and advances only then |
| BurstWindow.CheckNeverMisfires | examples/libibverbs-examples/intf.c:476-493 | the exact settings under which the expected byte equals the sent byte for all of n messages |
| BurstWindow.StepInv | examples/libibverbs-examples/intf.c:532-578 | every step of a sender and a receiver keeps both windows, the delivery order and the contents of the receiver's ring |
| BurstWindow.CheckAnswers | examples/libibverbs-examples/intf.c:488-503 | in every run, for any batching and any pick among the newly consumed messages, the check's verdict is whether the two rings agree on that message |
| BurstWindow.NoFalseError | examples/libibverbs-examples/intf.c:488-503 | with equal rings and queue-pair indices the received-data check never reports a false error, for any run, batching and random pick |
| BurstWindow.Land | examples/libibverbs-examples/intf.c:1015-1026 | copying a message from the sender's slot keeps the receiver's buffer equal to the bytes prepared for the slots its ring names |
| BurstWindow.CheckPolled | examples/libibverbs-examples/intf.c:488-523 | run on a poll of a run, on a buffer that holds what was delivered, the check passes exactly when the rings agree on the picked message, always with equal settings, and then moves to where the next poll starts |
| BurstWindow.Progress | examples/libibverbs-examples/intf.c:548-575 | a sender and a receiver with any accepted settings and num_msgs at least each burst never both get stuck |
| BurstWindow.BothComplete | examples/libibverbs-examples/intf.c:532-578 | their runs are bounded and end with both calls successful |
| ThreadBarrier.StepInv | examples/libibverbs-examples/intf.c:633-822 | every step of main and of the threads keeps the two semaphore equations |
| ThreadBarrier.BarrierSafety | examples/libibverbs-examples/intf.c:633-822 | no thread enters send_recv before the creation loop has ended, and main is past its last wait only when every created thread has signalled |
| ThreadBarrier.SendAfterFailureIff | examples/libibverbs-examples/intf.c:793-822 | after a creation that failed with m threads made, a number of threads can be sending at once if and only if it is at most m |
| ThreadBarrier.Progress | examples/libibverbs-examples/intf.c:655-674 | no reachable state deadlocks, with threads that skip the start wait and with a failed creation |
| ThreadBarrier.EveryRunJoins | examples/libibverbs-examples/intf.c:781-822 | every run is finite and ends with main finished and every created thread signalled |
| FileTransfer.ClientContext.OnReceive | examples/the-geek-in-the-corner/03_file-transfer/rdma-file-transfer/client.c:106-129 | the client's handler does to its context, and posts, what `ClientHandle` says |
| FileTransfer.ClientContext.SendFileName | examples/the-geek-in-the-corner/03_file-transfer/rdma-file-transfer/client.c:84-91 | the name and its NUL are put at the front of the buffer and written to the server |
| FileTransfer.ClientContext.SendNextChunk | examples/the-geek-in-the-corner/03_file-transfer/rdma-file-transfer/client.c:70-82 | the next bytes of the file, as many as read() answers, are put at the front of the buffer and written |
| FileTransfer.ServerContext.OnWrite | examples/the-geek-in-the-corner/03_file-transfer/rdma-file-transfer/server.c:84-131 | the server's handler finishes, appends to the file or stores the cut name, as `ServerHandle` says |
| FileTransfer.StepInv | examples/the-geek-in-the-corner/03_file-transfer/rdma-file-transfer/server.c:56-131 | every step keeps a single protocol token, the receives posted on both sides, and the contents at the token's place |
| FileTransfer.ContentIsPrefix | examples/the-geek-in-the-corner/03_file-transfer/rdma-file-transfer/server.c:98-111 | at every moment the server's file followed by the chunk under way is exactly what the client has read |
| FileTransfer.DoneMeansEqual | examples/the-geek-in-the-corner/03_file-transfer/rdma-file-transfer/server.c:92-129 | when the client sees DONE the files are equal and the server has the name, cut to 255 bytes |
| FileTransfer.NameArrives | examples/the-geek-in-the-corner/03_file-transfer/rdma-file-transfer/server.c:114-116 | a name of at most 255 bytes arrives whole, a longer one as its first 255 bytes |
| FileTransfer.BuffersAreSafe | examples/the-geek-in-the-corner/03_file-transfer/rdma-file-transfer/client.c:93-128 | no data or message buffer is overwritten before its transfer is consumed, and each client write finds a posted receive and the registered region |
| FileTransfer.Progress | examples/the-geek-in-the-corner/03_file-transfer/rdma-file-transfer/client.c:106-129 | until the client has disconnected some step is possible |
| FileTransfer.EveryRunCompletes | examples/the-geek-in-the-corner/03_file-transfer/rdma-file-transfer/client.c:111-124 | for any file and any split into reads the run is bounded and ends disconnected with equal files |
| FileTransfer.ReadyCount | examples/the-geek-in-the-corner/03_file-transfer/rdma-file-transfer/server.c:92-129 | with full reads the server sends one MR, ceil(length / BUFFER_SIZE) + 1 READY and one DONE, in this order |
| FileServer.Projection | examples/the-geek-in-the-corner/03_file-transfer/rdma-file-transfer/common.c:131-150 | however connections interleave on the shared completion queue and its single poller, what each goes through is a run of that connection alone |
| FileServer.ServerContentIsPrefix | examples/the-geek-in-the-corner/03_file-transfer/rdma-file-transfer/server.c:84-131 | on every connection of a server run the file and the chunk under way are what that client has read |
| FileServer.ServerDoneMeansEqual | examples/the-geek-in-the-corner/03_file-transfer/rdma-file-transfer/server.c:84-131 | a client of a server run that sees DONE has its file and name at the server |
| FileServer.ServerBuffersAreSafe | examples/the-geek-in-the-corner/03_file-transfer/rdma-file-transfer/server.c:84-131 | no step of a server run overwrites a buffer in use, also while its completion waits behind those of other connections, and each client write finds a posted receive |
| FileServer.ServerProgress | examples/the-geek-in-the-corner/03_file-transfer/rdma-file-transfer/common.c:131-150 | until every client has disconnected some step is possible: no connection blocks the poller for good |
| FileServer.AllTransfersComplete | examples/the-geek-in-the-corner/03_file-transfer/rdma-file-transfer/common.c:131-150 | every server run is bounded by the files' lengths and ends with all clients disconnected and all files equal |
| MrExchange.Connection.SendMr | examples/the-geek-in-the-corner/02_read-write/rdma-common.c:331-339 | the own region goes into the message buffer and is sent |
| MrExchange.Connection.OnCompletion | examples/the-geek-in-the-corner/02_read-write/rdma-common.c:180-235 | the handler changes the connection, and posts, what `React` says |
| MrExchange.StepInv | examples/the-geek-in-the-corner/02_read-write/rdma-common.c:180-235 | every step that keeps the completion order keeps program positions, messages and regions of both peers consistent |
| MrExchange.PrintsPeerText | examples/the-geek-in-the-corner/02_read-write/rdma-common.c:164-178 | at the disconnect branch the selected region holds the other peer's message, in write mode and in read mode |
| MrExchange.Progress | examples/the-geek-in-the-corner/02_read-write/rdma-common.c:180-257 | until both peers have finished a step that keeps the order is possible |
| MrExchange.OrderedRunCompletes | examples/the-geek-in-the-corner/02_read-write/rdma-common.c:203-234 | an orderly run has at most 48 steps and ends with one region message, one one-sided operation and one DONE per peer, in that order, at (SS_DONE_SENT, RS_DONE_RECV) |
| MrExchange.ExactlyOnceIffOrdered | examples/the-geek-in-the-corner/02_read-write/rdma-common.c:187-234 | a run in any polling order that cannot continue is exactly-once for both peers if and only if it kept the completion order |
| MrExchange.SkippedPairGetsStuck | examples/the-geek-in-the-corner/02_read-write/rdma-common.c:203-234 | from every initial state there is a run that skips (SS_MR_SENT, RS_MR_RECV) at the server and can neither continue nor finish |
| CalcLowering.PackForCalc | examples/libibverbs-examples/cc_pingpong.c:298-409 | packing returns the lowered opcode and signedness and writes eight bytes in network order, or fails and leaves the buffer alone |
| CalcLowering.PackedWord | examples/libibverbs-examples/cc_pingpong.c:158-202 | the packed word reads back as the zero-extended operand, its truth value for the logical operations, its negation in 32 bits for the 32-bit types and in 64 bits for all others for MIN |
| CalcLowering.ExtendMeaning | examples/libibverbs-examples/cc_pingpong.c:66-89 | the C value of a type's bytes: as they are for unsigned types, two's complement for signed ones |
| ByteOrder.MostSignificantFirst | examples/libibverbs-examples/cc_pingpong.c:401-402 | byte i of a converted word is the word without its lower bytes, modulo 256 |
| BitOps.BitOpAt | examples/libibverbs-examples/cc_pingpong.c:33-40 | each bit of a bitwise operation is the operation on the operands' bits |
| CalcLowering.OffloadIsWordFold | examples/libibverbs-examples/cc_pingpong.c:401-402 | byte order cancels: packing, folding on the device and unpacking is folding words, for any list |
| CalcLowering.DirectStep | examples/libibverbs-examples/cc_pingpong.c:152-220 | on the type's low bytes a device ADD, BXOR, BOR or BAND is the host's, whatever the high bytes of the accumulator hold |
| CalcLowering.DirectIsExact | examples/libibverbs-examples/cc_pingpong.c:364-378 | offloaded ADD, BXOR, BOR and BAND equal the host fold on every integer type and every list |
| CalcLowering.LogicalIsExact | examples/libibverbs-examples/cc_pingpong.c:344-357 | offloaded LXOR, LOR and LAND equal the host fold as truth values, and exactly from two operands on |
| CalcLowering.RanksAgree | examples/libibverbs-examples/cc_pingpong.c:158-202 | host and device order operands alike within one class and oppositely across the two classes |
| CalcLowering.WordRoundTrip | examples/libibverbs-examples/cc_pingpong.c:439-445 | unpacking undoes packing for MAX and MIN, negation included |
| CalcLowering.ExtremalIsExactIff | examples/libibverbs-examples/cc_pingpong.c:359-382 | offloaded MAX or MIN equals the host fold if and only if the list does not mix the two classes |
| CalcLowering.CalcContext.constructor | examples/libibverbs-examples/cc_pingpong.c:1547-1550 | given the two operands, the client starts as the end of the verification protocol that sends first and the server as the one that receives first |
| CalcLowering.CalcContext.PostSend | examples/libibverbs-examples/cc_pingpong.c:1147-1180 | the word sent is the device operation on the buffer and the packed second operand |
| CalcLowering.CalcContext.OnReceive | examples/libibverbs-examples/cc_pingpong.c:1699-1739 | on the message of any round the check's outcome is that round's, and a receiver that passes is exactly the sender of the next round |
| CalcLowering.TurnShape | examples/libibverbs-examples/cc_pingpong.c:1631-1760 | after k messages the ends hold the k-th word and the values stored for the last two messages |
| CalcLowering.ValueIsOffload | examples/libibverbs-examples/cc_pingpong.c:1160-1180 | the k-th running value is the offloaded fold of the first operand and k copies of the second |
| CalcLowering.FirstCheckIff | examples/libibverbs-examples/cc_pingpong.c:1259-1268 | the first check passes if and only if lowering is right on the two operands |
| CalcLowering.VerifyNeverFails | examples/libibverbs-examples/cc_pingpong.c:1259-1283 | with equal operands on both ends on which lowering is right, the check passes in every round whose running value a double represents |
| CalcLowering.VerifyInRange | examples/libibverbs-examples/cc_pingpong.c:1259-1283 | in particular in every round whose running value is in 0..2^53 |
| CalcLowering.AddVerifyIff | examples/libibverbs-examples/cc_pingpong.c:1270-1283 | for ADD and running values for which C defines the conversion a later check passes if and only if the value is below 2^53 or zero beyond its 53 leading bits |
| CalcLowering.AddVerifyFails | examples/libibverbs-examples/cc_pingpong.c:1270-1283 | adding 1 to 2^53 on INT64 the check on the second message fails on every machine |
| Doubles.NearestRepresentable | examples/libibverbs-examples/cc_pingpong.c:1279 | what the conversion yields is itself a number a double represents |
| Doubles.NearestIsClosest | examples/libibverbs-examples/cc_pingpong.c:1279 | the conversion to double yields a number that is at least as close as every representable one |
| Doubles.TiesToEven | examples/libibverbs-examples/cc_pingpong.c:1279 | halfway between two representable numbers the conversion takes the one that is an even multiple of their distance |
| Doubles.ExactIff | examples/libibverbs-examples/cc_pingpong.c:1279 | the conversion is exact if and only if the bits beyond the 53 leading ones are zero |
| Doubles.StaysBelowIff | examples/libibverbs-examples/cc_pingpong.c:1279 | a 64-bit number converts to a double that fits 64 bits if and only if it is below 2^64 - 1024 |
| CalcLowering.PrepareSgList | examples/libibverbs-examples/cc_pingpong.c:789-827 | the list has one entry per started group of operands, at the group's first operand, and no index is out of range |
| CalcLowering.InitGatherList | examples/libibverbs-examples/cc_pingpong.c:907-924 | with the group size the capability query answers, the list has as many entries as the request announces, each on exactly one packed operand |
| WireAddress.GidToWireGid | examples/libibverbs-examples/pingpong.c:81-89 | on hosts of either byte order the GID's bytes are written in order as two lower-case digits each, high digit first, then one NUL and nothing after it |
| WireAddress.WireGidSpells | examples/libibverbs-examples/pingpong.c:86-88 | every character is a digit or a lower-case letter from a to f, and each pair has its byte's value |
| WireAddress.WireGidIsHexDump | examples/libibverbs-examples/pingpong.c:86-88 | four words printed with eight digits each are the bytes printed with two |
| WireAddress.PadHexText | examples/libibverbs-examples/srq_pingpong.c:193 | a printed field has lower-case digits with the number's value, as many as its width and more only if needed |
| WireAddress.ScanForm | examples/libibverbs-examples/pingpong.c:76 | a scanned number is white space, a sign, a prefix and digits up to the first other character, modulo 2^32 |
| WireAddress.WireGidToGid | examples/libibverbs-examples/pingpong.c:67-79 | on hosts of either byte order the bytes are what the four groups scan to, an unreadable group repeating the previous value |
| WireAddress.ParsedWord | examples/libibverbs-examples/pingpong.c:75-77 | each parsed word is its group's number in network order, or the word before it where the group has none |
| WireAddress.GidRoundTrip | examples/libibverbs-examples/pingpong.c:67-89 | parsing undoes printing for every GID, whatever follows and whatever the variable held |
| WireAddress.SendAddress | examples/libibverbs-examples/srq_pingpong.c:192-195 | the message buffer starts with the printed line and its NUL |
| WireAddress.ReceiveAddress | examples/libibverbs-examples/srq_pingpong.c:218-220 | fields and GID hold what the scan converted, the rest what was there before; a word too long for the GID buffer, which the scan does not bound, is reported as an overrun |
| WireAddress.SrqLineText | examples/libibverbs-examples/srq_pingpong.c:192-194 | the line is LID, QPN, PSN with 4, 6 and 6 digits and the GID, joined by colons |
| WireAddress.XrcLineText | examples/libibverbs-examples/xsrq_pingpong.c:55-55 | the line is LID, both QPNs, PSN and SRQN with 4, 6, 6, 6 and 4 digits and the GID, joined by colons |
| WireAddress.LineRoundTrip | examples/libibverbs-examples/xsrq_pingpong.c:415-450 | every line of 32-bit fields and a GID is read back as it was, for both line formats |
| WireAddress.SrqLineFitsIff | examples/libibverbs-examples/srq_pingpong.c:154 | the line fits its buffer if and only if the LID has 16 bits and QPN and PSN have 24 |
| WireAddress.XrcLineFitsIff | examples/libibverbs-examples/xsrq_pingpong.c:55-57 | with a 16-bit LID and 24-bit QPNs and PSN the XRC line fits MSG_SIZE with its NUL if and only if the SRQN has at most 24 bits |

## Left out

- Device, protection domain, region, completion-queue and queue-pair creation, `ibv_modify_qp`, sockets, printing and
  command-line parsing other than the queue checks: plumbing over libraries that are not part of this model.
- Error completions, `die` paths and teardown: the models stop at the last useful completion, so a peer that disconnects
  while the other still polls is not modelled.
- `rc_pingpong.c`, `uc_pingpong.c`, `ud_pingpong.c` and `umr_rc.c`: single-queue-pair instances of the loop in
  `SrqPingPong`; `task_pingpong.c`, `dcini.c` and `dctgt.c` rest on device behaviour that is not visible in the source.
- The 01 basic client and server, `get_clock.c` and the Python under `exps/`.
- SrqPingPong: a side may also leave its loop between two completions of one polled batch; the runs proved about include
  all real ones. `iters` and `num_qp` are unbounded integers; event mode is not modelled.
- XrcPingPong: waiting for completion events, the lookup of a queue pair by number and the termination handshake over the
  sockets.
- BurstWindow: the accelerated posting interfaces (they post the same bursts), the inline-receive path of the data check,
  its use on the sender (which compares its own buffer with itself), the report it prints and the 32-bit width of `msg`,
  which reaches at most `num_msgs` rounded up to a burst.
- ThreadBarrier: time measurement, printing and the lock of the clock calibration; `send_recv` is one step that ends.
- FileTransfer: failures of open(), read() and write(), send completions (both handlers ignore them), and names that are
  empty or at least as long as the buffer. A name longer than 255 bytes is cut, as in the source.
- FileServer: the depth of the shared completion queue; connections are set up before the run starts, and their
  connection callbacks, which the event loop makes one at a time, may interleave freely.
- MrExchange: both programs run in the same mode, requests of one queue execute in posting order, and the regions hold
  whole texts; the busy wait for the connection is a send that is not yet enabled.
- CalcLowering: floating-point types; MAXLOC, MINLOC and PROD, which packing refuses; parsing of the operand string. The
  parser rejects 8- and 16-bit types, so the program never packs them; packing, unpacking and the checks handle them all
  the same and are modelled on them. More than two operands in the verification rounds, where the device would fold all
  of them again each time. The device executes the plain 64-bit operation its opcode names. What the machine does where C
  leaves the conversion from double undefined is an arbitrary function.
- WireAddress: numbers of more than 16 digits, for which the C library's conversion is not defined, are read modulo 2^32.
- The reads and writes on the sockets that carry the address lines, and the copies of the GID functions in `intf.c`.
