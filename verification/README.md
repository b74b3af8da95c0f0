# A model of the N-channel stop-and-wait transfer and of MyShell

This project models three parts of the repository and proves what they are for.

**The N-channel stop-and-wait file transfer** (`N-Channel-StopNWait`). A client cuts a file into
chunks, sends a batch of one packet per channel, polls the channels for acknowledgements in turn,
retransmits when a poll expires, and closes with a FIN. The server may drop any packet; otherwise it
writes the payload at the byte offset `seq_no` and echoes an acknowledgement. The number of channels
and the chunk size are arbitrary.

| file | contents |
|---|---|
| `Payload.dfy` | chunks, `strncpy`, the payload stream P and its division into packets |
| `Reassembly.dfy` | writing at offsets, in any order and with duplicates |
| `Protocol.dfy` | client, server and 2N packet queues as a state machine; the invariant of all runs |
| `Safety.dfy`, `Echo.dfy` | what holds in every run, however early timeouts fire |
| `StopAndWait.dfy` | runs in which timeouts fire on idle channels only: delivery, cost, termination |
| `PollBudget.dfy` | the same machine with a clock and the shrinking poll budget |
| `Premature.dfy` | the exact round-trip bound up to which delivery is guaranteed for all inputs |
| `Liveness.dfy` | every run can be completed, with and without the clock |
| `Certain.dfy`, `Loss.dfy`, `Guarantee.dfy` | for each input and number of channels, exactly when delivery is guaranteed: what an accepted FIN guarantees in every run, how every other packet can get lost, and the theorem |
| `Traces.dfy` | each end on its own; joined by order-keeping channels the two are exactly the machine |
| `Loops.dfy` | the events of connection_loop as a function of its environment, and why every finished client went through such events |
| `ClientSide.dfy`, `ServerSide.dfy` | the imperative code of the two ends, proved against the functions of the machine |
| `Transfer.dfy` | both loops together: a whole transfer |
| `ByteOrder.dfy` | `htonll`/`ntohll` and `hton_header` |

A run is a sequence of actions: client send, poll expiry, client read, FIN, server accept, server
drop, server exit. All interleavings are runs. Lemmas quantify over all inputs, all numbers of
channels, all chunk sizes and all runs.

**The shell's command line and job table** (`MyShell/shell.c`): the growing line buffer
(`LineBuffer.dfy`), the counting and the storing pass of the tokenizer (`Tokenizer.dfy`), the cutting
of pipelines (`PipelineSpec.dfy`, `Pipeline.dfy`) and the linked job list (`JobSpec.dfy`, `Jobs.dfy`).

**The autocomplete trie** (`MyShell/engine.c`): the order of completions (`Completion.dfy`) and the
heap of nodes (`Trie.dfy`).

## Assumptions

- Each channel is a reliable FIFO queue of whole packets. The only loss is the server's drop, which
  may hit any packet; the drop rate plays no role (the code says 0.3, `README.md` of the transfer says 0.1).
- The input is shorter than 2^64 - 1 bytes, because that number is the sentinel of `eof_seq_no`.
- End-to-end delivery is stated for runs whose poll expiries find the channel idle. `PollBudget`
  derives this from round trips of at most `TIMEOUT`, and `Premature.AlwaysDeliversIff` shows that no
  larger bound suffices for all inputs; `Guarantee.DeliversIff` gives the exact condition for each input
  and number of channels. For bounds from 1 to `TIMEOUT` a run can always be completed
  (`Liveness.TimelyCompletes`); for the bound 0 nothing can follow the first transmission, so there
  delivery at the exit is an empty promise (`Liveness.NothingAfterZero`). The safety results need
  none of this.
- `fork` returns a positive pid that is not in the job table.

## Where the code differs from what is promised

- The transfer's documentation promises an upload of the input. The code loses the last byte when the
  length is not a multiple of the chunk size (`utils.h:86-94`), and everything between a NUL byte
  and the end of its chunk arrives as NULs (`client.c:38`). The stream P is defined accordingly on
  all inputs; `Payload.StreamIsInputIff` says exactly when it is the input, and `Payload.LastByteLost`
  and `Payload.ByteAfterNulLost` give inputs for which it is not.
- The client never compares an acknowledgement with the outstanding packet (`client.c:83-90`), so a
  timeout that fires too early can end in a completed transfer with missing bytes.
- A line that begins with a separator and has another one is cut wrongly, because `lastPipe` = 0 also
  stands for "no separator yet" (`shell.c:1278-1292`). `PipelineSpec.NothingLostIff` is exact.
- On a last line without a newline that ends in a space, the counting pass finds one argument less than
  the line has; `Tokenizer.UnterminatedLineIff` is exact and `Tokenizer.UnterminatedCounterexample` is such
  a line. `Tokenizer.SlotsFitIff` says exactly when the storing pass still stays within the allocation.
- A command of 20 or more tokens in a pipeline does not fit its row; `PipelineSpec.FitsIff` and
  `Pipeline.Shell.Turn` say exactly when that happens.
- `badRedirectpipe` is never cleared, so after one redirection error neither pipelines nor ordinary
  commands get through any more (`Pipeline.Shell.Turn` says so; `PipelineSpec.RedirectErrorExample` is a
  line that records the error).

## Model

| member | source | states |
|---|---|---|
| `Payload.StrNCpyAt` | N-Channel-StopNWait/client.c:38 | byte d of the copied payload is the text's byte if no NUL precedes or equals it, and NUL otherwise |
| `Payload.ChunkWithin` | N-Channel-StopNWait/utils.h:81-100 | the k-th chunk read before the end of the input is exactly part k of the stream P: size, bytes after `strncpy`, end flag and file position |
| `Payload.ChunkAfterEnd` | N-Channel-StopNWait/utils.h:86-94 | reading once more after a short chunk gives an empty packet numbered with the length of P |
| `Payload.OffStrict` | N-Channel-StopNWait/client.c:46-50 | packet numbers grow strictly, so only the last packet of a transfer can be empty |
| `Payload.TotalReachesEnd` | N-Channel-StopNWait/client.c:27-52 | the packets of a transfer end exactly where P ends |
| `Payload.StreamIsInputIff` | N-Channel-StopNWait/README.md:4 | the transported stream is the input if and only if the length is a multiple of the chunk size and no chunk has another byte after a NUL |
| `Payload.LastByteLost` | N-Channel-StopNWait/utils.h:86-94 | for chunk size 2, the stream of the three bytes 7 8 9 is 7 8 |
| `Payload.ByteAfterNulLost` | N-Channel-StopNWait/client.c:38 | for chunk size 3, the stream of the bytes 7 0 9 is 7 0 0 |
| `Reassembly.WriteAtByte` | N-Channel-StopNWait/server.c:45-46 | length and every byte of the file after a seek and a write, including the hole left by a write beyond the end |
| `Reassembly.FileContents` | N-Channel-StopNWait/server.c:41-47 | after any sequence of writes drawn from a stream the file ends at the furthest write, covered bytes are the stream's, all others are NUL |
| `Reassembly.SameCoverage` | N-Channel-StopNWait/server.c:41-47 | two delivery histories covering the same offsets leave the same file |
| `Reassembly.Reassembled` | N-Channel-StopNWait/README.md:8 | any history drawn from the first n packets that has each at least once leaves the first n parts of P |
| `Reassembly.OrderAndDuplicatesIrrelevant` | N-Channel-StopNWait/README.md:8 | such a history leaves the same file as writing each packet once in order |
| `Protocol.SendKeepsClient` | N-Channel-StopNWait/client.c:28-51 | one iteration of the batch loop keeps the relation between the loop variables and P, and sends exactly the next data packet |
| `Protocol.AckKeepsClient` | N-Channel-StopNWait/client.c:78-93 | whatever is read reads no chunk, and keeps the client's invariant if and only if it does not acknowledge the sentinel 2^64 - 1 before the end of the input has been seen |
| `Protocol.AcceptKeepsServer` | N-Channel-StopNWait/server.c:38-66 | accepting a packet keeps the file equal to the replay of the accepted writes, all of them parts of P, and `last_seq_no` within P |
| `Protocol.StepKeeps` | N-Channel-StopNWait/client.c:22-140 | every action of either end keeps the invariant of the whole system |
| `Protocol.RunInv` | N-Channel-StopNWait/client.c:22-140 | the invariant holds in every reachable state |
| `Safety.NeverAWrongByte` | N-Channel-StopNWait/server.c:39-47 | in every run, with premature timeouts, duplicates and reordering, each byte of the output is the byte of P at that offset, or a hole no accepted packet has reached |
| `Safety.PacketsPartitionStream` | N-Channel-StopNWait/client.c:27-52 | across all batches packets are numbered contiguously from 0, visit the channels in turn, are marked neither last nor acknowledgement, are padded with NULs, concatenate to a prefix of P, and only the last can be empty |
| `Safety.EofMarksLastPacket` | N-Channel-StopNWait/client.c:30-50 | once the end is seen `eof_seq_no` is the number of the last packet sent and of no other; once its batch is out, the packets carry all of P, on whichever channel the short chunk fell |
| `Safety.Conservation` | N-Channel-StopNWait/server.c:31-67 | per channel, transmissions = accepted + dropped + in flight and acknowledgements = read + in flight; every step is one of these events or the exit |
| `Echo.RepliesEcho` | N-Channel-StopNWait/server.c:53-56 | in every run each packet towards the server is one the client sent on that channel, and each reply agrees with such a packet in data, size, number, last-packet flag and channel, and is marked as an acknowledgement |
| `Safety.ExitIsFinal` | N-Channel-StopNWait/server.c:121-176 | after the server has left its loop it writes and answers nothing more, however the run goes on |
| `StopAndWait.AckIsForOutstanding` | N-Channel-StopNWait/client.c:78-90 | the acknowledgement read on the polled channel is that of the outstanding, delivered packet, and is taken for the last one exactly if it is |
| `StopAndWait.PatientStepKeeps` | N-Channel-StopNWait/client.c:56-104 | every step whose timeouts fire on idle channels keeps the stop-and-wait invariant |
| `StopAndWait.PatientRunInv` | N-Channel-StopNWait/client.c:56-104 | the stop-and-wait invariant holds throughout every such run |
| `StopAndWait.Discipline` | N-Channel-StopNWait/client.c:56-104 | at most one packet or acknowledgement in flight per channel; `is_eof` is set, and FIN sent, only after every data packet has been written |
| `StopAndWait.EndToEnd` | N-Channel-StopNWait/server.c:19-68 | once FIN is accepted the output file is P and `last_seq_no` its length; it is the input if and only if the input survives the chunker |
| `StopAndWait.BoundedRun` | N-Channel-StopNWait/client.c:56-138 | with at most d drops a run has at most 3(T+1)+1+2d steps, T being the number of data packets |
| `StopAndWait.Progress` | N-Channel-StopNWait/client.c:22-140 | until both ends have finished, some step other than a drop is possible |
| `StopAndWait.CompletedRun` | N-Channel-StopNWait/client.c:56-138 | a completed run makes exactly one transmission per data packet, one for FIN and one per drop, and then nothing more can happen |
| `Liveness.Completes` | N-Channel-StopNWait/client.c:22-140 | every patient run, whatever was dropped in it, extends without further drops to one in which both ends have finished and the file is P |
| `PollBudget.BudgetHolds` | N-Channel-StopNWait/client.c:54-93 | in every timed run the running poll cannot expire before `TIMEOUT` has passed since the last transmission on its channel |
| `PollBudget.NeverFiresEarly` | N-Channel-StopNWait/client.c:66-77 | every expiry, including the 0 ms polls after an earlier channel timed out, comes at least `TIMEOUT` after the latest transmission on its channel |
| `PollBudget.RunRecorded` | N-Channel-StopNWait/client.c:54-93 | in every timed run the clock variables are what the events make them: time passed, start of the current poll and of the round, latest transmission per channel, acknowledgements that have arrived |
| `PollBudget.BudgetShrinks` | N-Channel-StopNWait/client.c:54-93 | the first poll of a channel has the budget 0 exactly if an earlier channel of the round has timed out, and the full one otherwise and after a timeout of its own |
| `PollBudget.ExpiresIff` | N-Channel-StopNWait/client.c:66-77 | a poll can expire if and only if nothing has arrived and either `TIMEOUT` has passed since the last action of the client, or it is the first poll of its channel and an earlier channel of the round has been sent again |
| `PollBudget.TimelyRunsArePatient` | N-Channel-StopNWait/client.c:54-93 | with round trips of at most `TIMEOUT`, timeouts fire on idle channels only |
| `PollBudget.TimelyEndToEnd` | N-Channel-StopNWait/server.c:19-68 | hence such a transfer delivers P completely |
| `Liveness.TimelyCompletes` | N-Channel-StopNWait/client.c:54-93 | every timed run that has kept a round-trip bound between 1 and `TIMEOUT` extends, keeping the bound and without further drops, to a completed one |
| `Liveness.NothingAfterZero` | N-Channel-StopNWait/client.c:54-93 | with the bound 0 no run gets beyond the first transmission |
| `Premature.WrongAcknowledgement` | N-Channel-StopNWait/client.c:83-90 | with longer round trips, the acknowledgement of a duplicate is taken for that of a packet still under way |
| `Premature.PrematureTimeoutLosesData` | N-Channel-StopNWait/client.c:83-90 | a concrete run, for every bound above `TIMEOUT`, in which the server exits with a byte missing |
| `Premature.AlwaysDeliversIff` | N-Channel-StopNWait/client.c:54-93 | delivery is guaranteed for all inputs, channels and runs if and only if the round-trip bound is at most `TIMEOUT` |
| `Certain.FinGuarantees` | N-Channel-StopNWait/client.c:56-104 | in every run, however early timeouts fire, an accepted FIN means that the whole first batch and the last packet have been written |
| `Certain.HarmlessDelivers` | N-Channel-StopNWait/client.c:56-104 | so the file is P in every run if there is at most one packet more than channels, or if the packets in between consist of NULs and the last one is not empty |
| `Loss.SmoothRun` | N-Channel-StopNWait/client.c:22-140 | there is a complete run without drops and timeouts |
| `Loss.PacketLost` | N-Channel-StopNWait/client.c:83-90 | for every packet outside the first batch but the last, a run with a single timeout in which the server exits without having written it |
| `Guarantee.Perform` | N-Channel-StopNWait/client.c:54-93 | every run with at most one timeout can be performed within any round-trip bound above `TIMEOUT` |
| `Guarantee.DeliversIff` | N-Channel-StopNWait/client.c:54-93 | for every input, chunk size and number of channels: delivery is guaranteed if and only if round trips take at most `TIMEOUT`, or there is at most one packet more than channels, or the packets in between consist of NULs and the last one is not empty |
| `Guarantee.DeliversWithoutNuls` | N-Channel-StopNWait/client.c:54-93 | for inputs without NULs and longer round trips: if and only if there is at most one packet more than channels |
| `ClientSide.InputFile.Fread` | N-Channel-StopNWait/utils.h:82 | reads the next bytes of the file into the buffer, as many as there are, and leaves the rest of the buffer alone |
| `ClientSide.GetNextChunk` | N-Channel-StopNWait/utils.h:81-100 | buffer, size, end flag and file position are those of the chunk function, the text NUL-terminated |
| `ClientSide.StrNCpyBuffer` | N-Channel-StopNWait/client.c:38 | stale bytes behind the terminator in the buffer never reach a packet |
| `ClientSide.BatchStep` | N-Channel-StopNWait/client.c:28-51 | iteration i of a batch sends the next data packet on channel i, and the loop goes on exactly if it was not empty and a channel is left |
| `ClientSide.Sender.SendOne` | N-Channel-StopNWait/client.c:29-50 | the loop body performs the machine's send step on all variables and one write on socket i |
| `ClientSide.Sender.SendBatch` | N-Channel-StopNWait/client.c:27-52 | a batch puts the next 1 to N data packets on channels 0, 1, ..., and is a sequence of send steps of the machine |
| `ClientSide.Sender.PollChannel` | N-Channel-StopNWait/client.c:64-77 | each expiry retransmits the channel's own packet; afterwards the budget is 0 if there was one and unchanged otherwise |
| `ClientSide.Sender.AwaitAcks` | N-Channel-StopNWait/client.c:54-93 | a round of polls performs the machine's read steps, retransmits exactly the expired packets in channel order, gives each channel the full budget or 0 after an earlier expiry, and restores the budget |
| `ClientSide.RoundEnd` | N-Channel-StopNWait/client.c:56-95 | a round ends in FIN exactly if `eof_seq_no` has been acknowledged, otherwise in the next batch or another round; the invariant is kept if and only if the sentinel was not acknowledged before the end of the input was seen |
| `ClientSide.Sender.Finish` | N-Channel-StopNWait/client.c:95-138 | FIN goes out on channel 0, once and once more per expiry, with the number `seq_no`, marked last and acknowledgement, carrying "exit"; the acknowledgement read can only set `is_eof`; `seq_no` grows by the size in FIN |
| `ClientSide.Sender.ConnectionLoop` | N-Channel-StopNWait/client.c:3-141 | the events are `LoopTrace` of the answers given, and variables and writes those of the machine's client after them; only data packets are written before FIN, each on its own channel, none skipped and for the first time in order; FIN is the packet with the length of P, sent exactly if some round after all data packets acknowledges the last number |
| `Loops.ClosedByRound` | N-Channel-StopNWait/client.c:87-95 | the transfer is closed only after all data packets have been sent and a round has acknowledged the last number |
| `Loops.FinishedIsLoop` | N-Channel-StopNWait/client.c:3-141 | every sequence of client events that ends with the return of connection_loop is `LoopTrace` of some answers |
| `ServerSide.OutputFile.Fwrite` | N-Channel-StopNWait/server.c:46 | byte by byte writing has the effect of one write at the file position, including holes |
| `ServerSide.Receiver.ServeConnection` | N-Channel-StopNWait/server.c:19-68 | a dropped packet changes nothing and is not answered; any other has the effect of the machine's accept step, and the one reply is the packet itself, field by field, marked as an acknowledgement |
| `ServerSide.ServedFile` | N-Channel-StopNWait/server.c:38-47 | the file is the replay of the accepted data packets alone |
| `ServerSide.ServedFin` | N-Channel-StopNWait/server.c:163-166 | `is_last` is set if and only if a FIN that was not dropped has arrived |
| `ServerSide.ServedNumbers` | N-Channel-StopNWait/server.c:65 | `last_seq_no` is the largest accepted number |
| `ServerSide.ServedStream` | N-Channel-StopNWait/server.c:38-47 | if the accepted data packets carry the first n parts of P, each at least once, the file is those n parts |
| `ServerSide.Receiver.ServiceLoop` | N-Channel-StopNWait/server.c:121-170 | the loop stops after the first sweep with an accepted FIN, and the file is the replay of what was accepted until then |
| `Traces.EndsFormARun` | N-Channel-StopNWait/client.c:22-140 | the two ends, each following its own code and joined by channels that keep the order, perform a run of the state machine whose state is the combination of theirs |
| `Traces.RunsSplit` | N-Channel-StopNWait/server.c:121-170 | conversely every run of the machine is such an interleaving of the two ends |
| `Transfer.LogIsAccepted` | N-Channel-StopNWait/server.c:41-47 | in every interleaving of the two ends the writes performed are those of the data packets the server accepted |
| `Transfer.EndsNeverWrong` | N-Channel-StopNWait/server.c:39-47 | however the two ends are interleaved, each byte of the file is that of P, or a hole none of the accepted packets has reached |
| `Transfer.EndsDeliver` | N-Channel-StopNWait/server.c:19-68 | if polls expire on idle channels only, an accepted FIN means that the file is P |
| `Transfer.TimelyEndsDeliver` | N-Channel-StopNWait/server.c:19-68 | the same for round trips of at most `TIMEOUT` |
| `Transfer.CompletedIsTransfer` | N-Channel-StopNWait/server.c:121-170 | every run of the machine in which the client has returned is an interleaving of connection_loop and the service loop, each against some environment |
| `Transfer.Run` | N-Channel-StopNWait/server.c:121-170 | connection_loop and the service loop together: both end in the state their environments determine; whatever interleaving explains their events, each byte is that of P or a hole no accepted packet has reached, and with polls expiring on idle channels only the output file is P once FIN has been accepted |
| `ByteOrder.RoundTrip` | N-Channel-StopNWait/utils.h:42-43 | `ntohll` undoes `htonll` for all 64-bit values on hosts of either endianness |
| `ByteOrder.NetworkOrder` | N-Channel-StopNWait/utils.h:42 | the memory image of `htonll(x)` is most significant octet first on either host (Appendix B of RFC 791) |
| `ByteOrder.FromBigEndian` | N-Channel-StopNWait/utils.h:42-43 | the octets of a 64-bit value determine it |
| `ByteOrder.OctetOrder` | N-Channel-StopNWait/utils.h:42-43 | the octets of 0x0102030405060708 are 1 to 8 in this order |
| `ByteOrder.HtonHeader` | N-Channel-StopNWait/utils.h:67-79 | bytes 0-7 are the octets of the size, 8-15 those of the number, 16 to 18 the last-packet flag, the type and the channel, on every host; the rest of the buffer is untouched |
| `ByteOrder.WireInjective` | N-Channel-StopNWait/utils.h:67-79 | different headers have different images |
| `LineBuffer.LineGet` | MyShell/shell.c:1084-1118 | returns the text through the first newline or the end of input, terminated within the block; capacity at most max(300, 2n); reallocations preserve all but one character of each capacity outgrown, fewer than 2n in total; fails only if more memory is needed than there is |
| `LineBuffer.MakeRoom` | MyShell/shell.c:1101-1111 | written characters + `len` is the tracked capacity and `len` stays at least 1, so the terminator always fits; the text written so far survives |
| `LineBuffer.FirstLineIs` | MyShell/shell.c:1113-1114 | a prefix that ends at its first newline, or at the end of input, is the first line |
| `Tokenizer.JoinOfTokens` | MyShell/shell.c:1120-1151 | the arguments of a line joined with single spaces are the line with runs of spaces collapsed |
| `Tokenizer.CollapseMerges` | MyShell/shell.c:1128-1129 | two spaces in a row count as one |
| `Tokenizer.TokensOfJoin` | MyShell/shell.c:1000-1010 | tokenizing the join of non-empty space-free words gives the words back |
| `Tokenizer.GetArgumentLength` | MyShell/shell.c:560-567 | on a newline-terminated line, the count is the number of arguments of the line without the newline |
| `Tokenizer.BreaksAreTokens` | MyShell/shell.c:560-567 | the spaces counted before the newline is stripped are one per run, which is one less than the arguments |
| `Tokenizer.UnterminatedLineIff` | MyShell/shell.c:560-567 | without a newline the count is right if and only if the line does not end in a space |
| `Tokenizer.UnterminatedCounterexample` | MyShell/shell.c:560-567 | on `ls` and one space without a newline, one argument is counted and two are stored |
| `Tokenizer.SlotsFitIff` | MyShell/shell.c:1735-1781 | without a newline every slot written is allocated if and only if the line does not end in a space or is a daemon line |
| `Tokenizer.InitArgs` | MyShell/shell.c:1120-1151 | stores exactly the arguments and the null terminator, dropping a leading `daemonize` when the flag was clear, and returns the index of the last |
| `Tokenizer.ArgumentsOfWords` | MyShell/shell.c:1130-1139 | a line of words gives these words, except that `daemonize` in front of others is dropped when the flag is clear |
| `Tokenizer.ParseLine` | MyShell/shell.c:1735-1781 | with a newline the count is the returned index plus one, or plus two for a daemon line; every slot written is allocated, also on a last line without a newline; says exactly for which lines the vector is one slot short |
| `Tokenizer.JoinArguments` | MyShell/shell.c:1000-1010 | the loop computes the join of its argument vector |
| `PipelineSpec.NothingLostIff` | MyShell/shell.c:1253-1337 | the commands rejoined with their separators are the argument vector if and only if the line does not both begin with a separator and have another one |
| `PipelineSpec.LeadingSeparatorCounterexample` | MyShell/shell.c:1278-1292 | for a separator, a word and another separator, the second command begins with the first separator itself |
| `PipelineSpec.RedirectErrorExample` | MyShell/shell.c:1263-1275 | a line with two input redirections before separators |
| `PipelineSpec.NoSepAfterLast` | MyShell/shell.c:1320-1327 | no separator follows `lastPipe`, so the separator test of the last copy loop never skips a slot |
| `PipelineSpec.FitsIff` | MyShell/shell.c:1278-1337 | every command fits its row of 20 slots if and only if it has fewer than 20 tokens |
| `PipelineSpec.SepsCounted` | MyShell/shell.c:1236-1244 | the separators are counted one by one, and the last one found is the last one there |
| `PipelineSpec.RedirectsCounted` | MyShell/shell.c:1263-1275 | an input redirection counts where `<` stands two before a separator and not at the very start |
| `Pipeline.Shell.CountPipes` | MyShell/shell.c:1231-1251 | counts the occurrences of the three separators, takes PIPE, MSG or SHM from the last one, NONE without one, and allocates two rows more than there are separators |
| `Pipeline.Shell.CutAt` | MyShell/shell.c:1278-1311 | at a separator the tokens since the previous one become the next null-terminated row, and the earlier rows are kept; overflows exactly for 20 tokens or more |
| `Pipeline.Shell.AtToken` | MyShell/shell.c:1263-1312 | one token of the scan: a second input redirection before a separator stops it, a separator cuts, and anything else only counts |
| `Pipeline.Shell.PipeFilter` | MyShell/shell.c:1253-1315 | `pipeCount` is the number `count_pipes` found and the rows hold the commands, unless a second input redirection before a separator raises the error, where the scan breaks off before cutting, or a too long command is reached before that; the input flag says whether there was a redirection |
| `Pipeline.Shell.OutputRedirection` | MyShell/shell.c:1317-1349 | adds the last command and the null row in the last allocated slot, and records an output redirection, unless that command is too long |
| `Pipeline.Shell.Turn` | MyShell/shell.c:1724-1904 | `lastPipe` is 0 again after every turn; nothing gets through once a redirection error has been recorded; otherwise a line with a separator is executed with all its commands in place and nothing lost outside the one bad family of lines, and a line without one goes on as an ordinary command; says exactly for which lines a row would overflow |
| `JobSpec.RemovedAt` | MyShell/shell.c:126-154 | with distinct pids, `removeJob` takes out exactly the one record |
| `JobSpec.AliveAfterRemoval` | MyShell/shell.c:1753-1757 | removing a finished background job leaves the set of jobs to be kept unchanged |
| `JobSpec.AliveOneMore` | MyShell/shell.c:1753-1757 | each removal of the pass takes out one more finished background job and keeps the order of the rest |
| `JobSpec.OpKeeps` | MyShell/shell.c:484-558 | every operation keeps the shell's own foreground record at the head, no other foreground job, and distinct positive pids |
| `JobSpec.OpEvolves` | MyShell/shell.c:484-558 | jobs only move from suspended to background, appear by spawn or suspend, and disappear by fg or by being reaped |
| `JobSpec.FgEffect` | MyShell/shell.c:484-521 | a delivered fg of a job takes exactly that record out of the table; otherwise nothing changes |
| `JobSpec.BgEffect` | MyShell/shell.c:523-558 | a delivered bg of a suspended job other than the parent makes exactly that record background; otherwise nothing changes |
| `JobSpec.InsertEffect` | MyShell/shell.c:1546-1586 | a spawned job is appended as background, a suspended one as suspended |
| `JobSpec.EveryRun` | MyShell/shell.c:104-208 | both hold throughout every run of operations, and `findFG_STATUS` is always -1 |
| `Jobs.JobTable.constructor` | MyShell/shell.c:1646-1657 | the table starts with the shell's own record alone |
| `Jobs.JobTable.Insert` | MyShell/shell.c:104-124 | appends the record to the chain, unless the last one has the same pid |
| `Jobs.JobTable.FindPid` | MyShell/shell.c:156-167 | returns the first cell with the pid, or null if there is none |
| `Jobs.JobTable.FindForeground` | MyShell/shell.c:169-182 | returns the pid of the first foreground record behind the head, or -1 |
| `Jobs.JobTable.ChangeStatus` | MyShell/shell.c:195-208 | changes the status of the first record with the pid and nothing else |
| `Jobs.JobTable.RemoveJob` | MyShell/shell.c:126-154 | removes the head for its own or a negative pid, otherwise all other records with the pid, keeping order; only clears the flag if a suspension was pending |
| `Jobs.JobTable.Spawn` | MyShell/shell.c:1546-1565 | appends a background record whose group is its own pid |
| `Jobs.JobTable.Suspend` | MyShell/shell.c:1567-1586 | appends a suspended record |
| `Jobs.JobTable.Fg` | MyShell/shell.c:484-521 | takes exactly the record of the job out if SIGCONT could be delivered, and changes nothing otherwise; discarding the returned head is harmless |
| `Jobs.JobTable.Bg` | MyShell/shell.c:523-558 | makes exactly the record of a suspended job background if it is not the parent and SIGCONT could be delivered, and changes nothing otherwise |
| `Jobs.JobTable.Reap` | MyShell/shell.c:1750-1759 | the loop that restarts at the head after each removal terminates, whatever `waitpid` answers from call to call; only background jobs found finished are gone, all others are left in order, and every background job left was found running; if nothing finishes during the pass, exactly the finished background jobs are gone |
| `Completion.AlphaIsAlphabet` | MyShell/engine.c:16 | the table has 27 characters in order, letters by code and the space last |
| `Completion.BeforeIff` | MyShell/engine.c:16 | the order of the listing, read off the strings: a proper prefix first, otherwise by the first differing character, letters by code and the space after z |
| `Completion.SortedIff` | MyShell/engine.c:114-139 | a listing is sorted if and only if it is sorted in that order |
| `Completion.SortedDistinct` | MyShell/engine.c:114-139 | a listing in the engine's order has no duplicates |
| `Completion.SortedUnique` | MyShell/engine.c:114-139 | a listing in that order is determined by its set of words |
| `Completion.CoversNext` | MyShell/engine.c:130-134 | appending the listing of the next child keeps the listing sorted and complete so far |
| `Completion.ListsFromTails` | MyShell/engine.c:141-159 | the sorted tails below a prefix, written behind it, are the sorted words with that prefix |
| `Trie.Node.constructor` | MyShell/engine.c:41-49 | a new node has 27 null children and ends no word |
| `Trie.Engine.PathIffWordBelow` | MyShell/engine.c:65-80 | a path exists in the trie if and only if it is empty or some inserted word goes through it |
| `Trie.Engine.Extend` | MyShell/engine.c:73-74 | linking a new child keeps the nodes a tree in which each node has one path, and adds no word |
| `Trie.Engine.Insert` | MyShell/engine.c:65-80 | adds exactly the word; the nodes stay a tree and every node but the root has an end mark at or below it |
| `Trie.Engine.InsertAll` | MyShell/engine.c:225-227 | after any sequence of insertions the trie holds exactly the inserted words |
| `Trie.Engine.Search` | MyShell/engine.c:82-97 | finds a word over a to z if and only if it was inserted |
| `Trie.Engine.RecursiveInsert` | MyShell/engine.c:114-139 | appends the given prefix in front of exactly the tails that complete the node's path to a word, sorted |
| `Trie.Engine.CompleteWord` | MyShell/engine.c:141-159 | fails if and only if the prefix is not empty and no word has it; with `op` equal to the prefix it appends exactly the inserted words with that prefix, without duplicates, sorted with the space after z |

## Left out

- Sockets, `accept`, the file-descriptor sets of `select` and short reads: replaced by packet queues. The order in which `select` and the sweep over the channels serve packets is an arbitrary interleaving in the state machine.
- Write and read errors, end of connection (a read of 0 bytes) and the zero-length `pollfds` arrays of the client.
- The zero-initialised header bytes and the 32-bit `int` of `payload_size`: numbers are unbounded, below 2^64 - 1 by assumption.
- Protocol.RunInv: the increment of `seq_no` after FIN is in `ClientSide.Sender.Finish` but not in the state machine, where nothing reads the number afterwards.
- The text "exit" in FIN is cut to the chunk size, where the code would overrun the packet for chunk sizes below 5; the server never looks at it.
- The state machine and `hton_header` use separate header types: the code itself never calls `hton_header`.
- ClientSide.Sender.ConnectionLoop: the answers of the environment do not acknowledge the sentinel 2^64 - 1, a number no server has been sent.
- Tokenizer.ParseLine: where the code would write outside the vector the model stops; what such a write does is not modelled. Lines have no inner newline, because `lineget` stops at the first.
- LineBuffer.LineGet: `realloc` always yields a new block in the model, and blocks are not freed; memory is a number the caller passes in.
- Tokenizer.InitArgs: an argument is one slot with a string; the one-byte allocation of each argument is ignored, as are all `malloc` sizes outside `lineget`.
- Pipeline.Shell.Turn: where the code would write outside a row of 20 slots the model stops; what such a write does is not modelled. Builtins, fg, bg, daemonize and the background mark are a flag or done before, on the argument vector handed in. Freeing, and the write into the last row just before it is replaced by null, are not modelled; neither is the execution of the pipeline.
- Jobs.JobTable.Fg: signals, terminal control and waiting are not modelled, only whether SIGCONT could be delivered. Nothing in the code ever sets `isSuspended`, so it is clear. The same holds for `Bg`.
- Freed list cells and nodes simply become unreachable; `freeNode` is not modelled.
- Trie.Node.constructor: the array of children is a sequence inside the record, as it is inside the C structure; the unused `data` field is dropped.
- Trie.Engine.Search, Trie.Engine.CompleteWord: words and prefixes over a to z, because these functions map no other character to a child; words inserted may contain spaces. The limit on the number of completions and the parameter `start`, always 0, are left out.
- The ncurses loop of the engine and everything else in `shell.c` (execution, redirection without pipes, message queues, shared memory, daemons).
- The other directories (selective repeat, load balancer, file system, cluster shell, voting, chat, HTTP and sniffer programs): they would add only simple results, or have no clean specification to prove.
