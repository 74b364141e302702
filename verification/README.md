# Interclus core: a verified model

Interclus is a small supervisor for RV32 boards. It runs eBPF packet policies behind a load-time check,
swaps programs and native modules at run time, receives new images over a serial line, and boxes every
compartment with RISC-V PMP. The C is freestanding, uses static memory and fixed bounds, so this model
follows it whole: same branches, same constants, same error codes.

Words of C are bounded naturals (`words.dfy`), bit operators are defined bit by bit (`bits.dfy`). Code that
works in place is a method or a class proved against a pure function; the theorems are about the functions.

| file | what it covers |
|---|---|
| `isa.dfy` | instruction words, encoder and decoder |
| `regtypes.dfy`, `dataflow.dfy` | the register-type lattice, the tables of the check, and what it accepts, stated without a worklist |
| `worklist.dfy`, `verifier.dfy` | the worklist in any order, and the lowest-first order of the source in place |
| `interpreter.dfy`, `soundness.dfy` | the interpreter, and what acceptance means for every run |
| `resolved.dfy` | runs that go on past the operations C leaves open, whatever those give |
| `corners.dfy` | where check and interpreter fall short of their comments, with exact conditions |
| `execution.dfy`, `packets.dfy` | single instructions of known programs, packet fields |
| `mavlink.dfy`, `screening.dfy`, `monitor.dfy` | the two shipped policies against their native twins, and the packet loops |
| `admission.dfy`, `shipped.dfy` | both shipped policies pass the load-time check |
| `crc.dfy`, `update.dfy`, `protocol.dfy` | CRC-16, the update receiver, the sender and the unreliable wire |
| `verdicts.dfy` | when the answer the sender takes is the receiver's |
| `gates.dfy`, `pmp.dfy` | descriptor gate, NAPOT encoding, the compartment table |
| `supervisor.dfy`, `safety.dfy`, `board.dfy` | slots, trust gate, rounds, PMP and service loop as a state machine; what holds over every run; the same in place |
| `images.dfy`, `leftovers.dfy`, `stalebytes.dfy` | what the gates read of an image, the image the tools build, what bytes behind an image can do, and runs from boot in which they do it |
| `deployment.dfy`, `quietwire.dfy` | client, wire and supervisor together: what a finished transfer means, and how it comes to its end |
| `trueanswers.dfy`, `answers.dfy` | when exactly the answer of a transfer is the verdict on the image that was sent |
| `rollback.dfy` | the default round and the rollback together |
| `frames.dfy` | the console frame machine and its sender |
| `wide.dfy`, `sha256.dfy` | 64-bit helpers on 32-bit limbs, SHA-256 against FIPS 180-4 |

## What the code does differently from its comments

- The register pass describes itself as accepting every program that writes before it reads. It is exactly
  this: a typing certificate exists *and* every load can be reached through instructions below it
  (`Verifier.CheckRegs`). `Corners.SafeButRefused` gives a well-typed program it refuses, and which another
  visiting order would accept. The states in which the worklist ends do not depend on the order
  (`Worklist.OrderDoesNotMatter`), the verdict does; `Worklist.BestOrder` says what the best order accepts.
- C leaves two operations of accepted programs open. A 32-bit division tests all 64 bits of the divisor register
  for zero but divides by the low 32 (`Corners.AcceptedButUndefined`). A negation of the least 64-bit value
  overflows the signed type it is done in (`Corners.AcceptedButOverflows`). These are all:
  `Corners.UndefinedExactly` for a step, `Corners.OpenRunsExactly` for a run, of any program. Whatever values they
  give, the run goes on safely (`Resolved.AnyValueSound`).
- The bounds test of a load adds before it compares. It is exact if and only if the context does not lie below
  the load size (`Soundness.BoundsExact`), so results about loads ask for a context at address 8 or above.
- The step limit 2^32 - 1 limits nothing, because the step counter wraps before it exceeds it
  (`Interpreter.FetchLoop`).
- `region_ok` asks for page alignment. NAPOT needs alignment to the size: encoding and decoding are inverse if
  and only if the base is a multiple of the size (`Pmp.NapotExact`, `Pmp.PageAlignmentIsNotEnough`).
- After STAGED the client takes the next ACCEPT or REJECT without looking at its id. From a start with a fresh id its
  answer is the receiver's verdict in every run if and only if the receiver refuses the BEGIN for good, or no verdict of
  an earlier transfer is in flight and the receiver has none to give: it is not done with one, has no image staged,
  and the transfer it is in the middle of, if any, has no completion with the announced digest
  (`Verdicts.TruthfulExactly`). There the verdict on an old image may be either. On the device the gates decide it,
  and an old verdict that is the one the new image gets misleads nobody: the answer is the verdict on the image that
  was sent, in every run, if and only if the BEGIN is malformed, or the core is parked, or every verdict in flight or
  still to come from an earlier transfer is that one (`Answers.TrulyExactly`). Anything else is turned into a false
  answer by frames that arrive late.
- The receiver checks the announced length and digest, `hot_swap` the length in the header of the staging area, and
  nothing compares the two. An image that ends before its own header says is judged together with what an earlier
  image left behind it: the same announced image can be answered ACCEPT and install more than was sent, or REJECT
  (`Leftovers.SameImageOtherAnswer`; `StaleBytes.BothAnswers` gives the two runs from boot). The verdict is decided by the image alone if and only if it reaches as far as
  its header says, or nothing that begins with it passes (`Images.DecidedExactly`).
- A native frame of any length from 16 bytes on is staged. One shorter than the code it announces installs bytes of
  an earlier image (`Safety.NativeFrameInstallsStaged`); the header alone can install a whole module
  (`Safety.HeaderAloneInstalls`).
- The C mirror of the screening policy does not look at message ids. It never counts fewer alerts than the policy,
  and as many exactly when every packet it alerts on is a suspicious position report
  (`Screening.MirrorAgreesExactly`); `Screening.OtherPacketsDisagree` gives streams on which they differ.
- An ABORT cannot be repeated: the second one is refused with the id error (`Update.ReplayIsIdempotent`).
- A frame with an empty payload passes its checksum and is never delivered (`Frames.EmptyFrameIsSilent`).
- Resynchronisation after a broken frame takes the cap plus four bytes, not the cap, and no fewer will do
  (`Frames.ResyncExactly`).
- The descriptor gate inside `hot_swap` can never refuse: the tests before it already imply it
  (`Board.NativeGateRepeats`, `Board.ProgramGateRepeats`).

## Model

| member | source | states |
|---|---|---|
| Isa.DecodeEncode | core/ebpf_asm.h:5-9 | decoding gives back every instruction whose offset and immediate are in range |
| Isa.EncodeDecode | core/ebpf.c:6-12 | encoding gives back every 64-bit word, so words and in-range instructions correspond one to one |
| Isa.AssembleDecodes | core/ebpf_asm.h:11-36 | an assembled program decodes to itself |
| RegTypes.FieldOfSet | core/loader.c:93-95 | writing the type of one register leaves the fifteen other fields as they were |
| RegTypes.BelowIsFieldwise | core/loader.c:163-165 | the order on packed words that the worklist descends is the type order on all sixteen fields at once |
| RegTypes.AndIsMeet | core/loader.c:226 | the bitwise AND of two type words is their greatest lower bound |
| Verifier.CheckReads | core/loader.c:189-200 | reports the first register the instruction reads with a type it does not take, or none when all fit |
| Verifier.OutState | core/loader.c:207-220 | the register-by-register update gives the transfer function of the instruction |
| Verifier.LowestPending | core/loader.c:175-178 | the lowest pending instruction, or the count when the list is empty |
| Verifier.Propagate | core/loader.c:221-232 | the edge loop in place is the merge of every successor, and fails exactly when an edge leaves the image |
| Verifier.VisitInPlace | core/loader.c:179-233 | one visit in place is the visit of the worklist; it is refused exactly when the instruction cannot be visited |
| Worklist.VisitKeeps | core/loader.c:179-233 | a visit keeps every settled instruction settled and the states above every solution, whichever pending instruction was picked |
| Worklist.VisitSpends | core/loader.c:179-233 | every visit lowers the potential: an instruction is put back on the list only at the cost of a lattice bit |
| Worklist.AnyOrder | core/loader.c:160-236 | in every visiting order: at most 33 visits an instruction, and the invariant after each |
| Worklist.OrderDoesNotMatter | core/loader.c:160-236 | any two orders that empty the list end in the same states, and those are a certificate |
| Worklist.RefusedForGood | core/loader.c:189-205 | in every order: a pending instruction that cannot be visited rules out a certificate, unless it is a load that no visited path has come to yet |
| Worklist.BestOrder | core/loader.c:160-236 | some order empties the list if and only if a certificate exists and every load is on a path from the entry |
| Verifier.NotTooEarly | core/loader.c:174-178 | the lowest-first order never comes too early to a load that is reached through instructions below it |
| Verifier.CheckRegs | core/loader.c:160-236 | accepts if and only if a certificate exists and every load is reached through instructions below it; its visits are the lowest-first order, at most 33 an instruction; it ends in the greatest solution, or at an instruction that cannot be visited |
| Verifier.ProgramCheck | core/loader.c:238-279 | answers IC_OK exactly on accepted programs, and the argument error exactly on a bad length |
| Interpreter.AluInsn | core/ebpf.c:100-161 | the in-place ALU case is the ALU step, the open results of C included |
| Interpreter.CallInsn | core/ebpf.c:167-189 | the in-place helper call is the call step and leaves the map alone when it faults |
| Interpreter.LdxInsn | core/ebpf.c:238-253 | the in-place load is the load step |
| Interpreter.FetchLoop | core/ebpf.c:87-260 | the fetch loop from any register file computes the bounded iteration of the step, counters and map included, for every step limit |
| Interpreter.EbpfRun | core/ebpf.c:69-264 | a whole run in place equals the bounded iteration from the entry state, for every step limit |
| Soundness.StepShape | core/loader.c:137-158 | a step goes to a listed successor and changes only registers the write table lists |
| Soundness.StepObserves | core/loader.c:99-125 | a step depends only on registers the read table lists |
| Soundness.TypedAlong | core/loader.c:160-236 | the certificate keeps describing the machine after every step |
| Soundness.StepFaults | core/ebpf.c:93-259 | how a checked program can stop in a well-typed state |
| Soundness.BoundsExact | core/ebpf.c:248-249 | the bounds test admits exactly the accesses inside the context, if and only if the base is at least the access size |
| Soundness.LoadExact | core/ebpf.c:238-253 | in any program a load succeeds exactly when its whole range is in the context, and then yields the little-endian value |
| Soundness.EveryMachine | core/ebpf.c:238-253 | at every machine a run of an accepted program reaches, the pc is inside the image, a load goes off the context pointer, and with a placed context it faults exactly when its own range is not inside |
| Soundness.VerifierSound | core/loader.c:238-279 | for every context, step limit and map, a run of an accepted program never ends in PC, OPCODE or STORE, in CALL only without a power-of-two map, in MEM only if a load's own offset leaves the context, and is open in C only at a 32-bit division or a negation |
| Soundness.NoUninitialisedReads | core/loader.c:186-199 | from any two register files that agree on r1, an accepted program gives the same fault, value, count and map |
| Resolved.AnyValueSound | core/ebpf.c:118-145 | whatever the open operations give, a run of an accepted program goes on without PC, OPCODE or STORE, with CALL only without a power-of-two map, with MEM only if a load's own offset leaves the context; on a placed context nothing else is left open |
| Resolved.AnyValueReads | core/loader.c:186-199 | and it depends on no register but r1: from two register files that agree there, the same values give the same fault, result, count and map |
| Resolved.NothingOpen | core/ebpf.c:72-262 | a run that comes to no open operation is the run of the interpreter, whatever the values would have been |
| Soundness.StepCells | core/ebpf.c:176-183 | the only memory a step writes is the one map cell the masked index selects |
| Soundness.RunBounds | core/ebpf.c:89-92 | every run of every program executes at most the step limit, and exactly that many when it ends in the steps fault |
| Soundness.RunCells | core/ebpf.c:167-189 | no run changes the number of map cells, and a program without a storing helper call leaves the map as it was |
| Corners.SafeButRefused | core/loader.c:195-196 | a program with a certificate that the check refuses and another visiting order would accept |
| Corners.RefusedButSafe | core/ebpf.c:69-264 | every run of that program exits cleanly with the first context byte |
| Corners.AcceptedButUndefined | core/ebpf.c:118-127 | an accepted program that divides by a zero low word |
| Corners.AcceptedButOverflows | core/ebpf.c:145 | an accepted program that negates the least 64-bit value |
| Corners.UndefinedExactly | core/ebpf.c:100-161 | for any program, the C result of a step is open exactly at a 32-bit division or modulo by a register that is not zero and whose low word is, and at a negation of 2^63 |
| Corners.OpenRunsExactly | core/ebpf.c:87-260 | a run of any program has an open result if and only if it reaches such a step within its step limit |
| Mavlink.PolicyIsNativeFilter | modules/policies/mavlink.h:9-38 | on every packet of at least 14 bytes the bytecode gives the native verdict, without a fault, in at most 15 instructions, map untouched |
| Mavlink.NativeDecides | modules/monitor.c:11-30 | the native filter is a decision on magic byte, message id, length and latitude |
| Monitor.NativeFilter | modules/monitor.c:11-30 | the loop writes the native verdict of every packet, each at its own address |
| Monitor.DefaultMode | modules/monitor.c:61-88 | verdicts, instruction counts and last fault of the live program, or of the built-in one |
| Monitor.CleanMeansAllClean | modules/monitor.c:84-86 | the fault word is clear exactly when no packet faulted |
| Monitor.BuiltInRound | modules/monitor.c:61-88 | with the slot empty the round writes the verdicts of the native filter and no fault, so it never rolls back |
| Screening.PolicyScreens | modules/policies/screening.h:9-44 | one packet: no fault, at most 32 instructions, the cell counted up, 5 exactly on an alert |
| Screening.GridCounts | modules/monitor.c:41-60 | after any stream of packets, each at its own address, each cell holds the number of position reports in it |
| Screening.StreamVerdicts | modules/policies/screening.h:9-44 | packet i runs without a fault in at most 32 instructions and gets 5 exactly when it is a position report whose cell or circular neighbour has been reported more than three times |
| Monitor.ScreenSwarm | modules/monitor.c:41-60 | the monitor loop leaves the exact counts, the verdict and the instruction count of every packet, and the number of alerts |
| Screening.Mirror | qemu/report.c:26-38 | the C mirror counts the packets whose cell or neighbour is crowded, whatever their message id |
| Screening.MirrorAgreesExactly | qemu/report.c:26-38 | it never counts fewer alerts than the policy, and as many if and only if every packet it alerts on is a suspicious position report |
| Screening.OtherPacketsDisagree | qemu/report.c:26-38 | on n copies of one packet that is no position report the policy raises no alert and the mirror n - 3 |
| Screening.MirrorOfPositions | qemu/report.c:26-38 | on position reports the totals agree |
| Shipped.MavlinkAccepted | modules/policies/mavlink.h:9-39 | the filter policy passes the load-time check |
| Shipped.ScreeningAccepted | modules/policies/screening.h:9-45 | the screening policy passes the load-time check |
| Admission.TypingIsCertificate | core/loader.c:160-236 | types given register by register that fit along every edge make a certificate |
| Crc.CrcByte | core/update.c:34-37 | the inner loop is the byte step |
| Crc.UpdateCrc16 | core/update.c:31-40 | the nested loop computes the CRC fold |
| Crc.ByteStepInjective | core/update.c:34-37 | the step of a byte is injective on the 16-bit register, hence a bijection |
| Crc.CrcResidue | core/update.c:14-16 | a frame is valid exactly when the CRC over all of it, trailer included, is zero |
| Crc.WithCrcIsOk | tools/update_frame.py:20-22 | the trailer the sender appends is the only one the receiver accepts |
| Crc.BurstDetected | core/update.c:14-16 | any change confined to two neighbouring bytes of a valid frame makes it invalid |
| Update.NackChangesNothing | core/update.c:42-209 | a refused frame changes nothing, except that a digest mismatch ends the transfer |
| Update.AcceptedIsSound | core/update.c:105-116 | only complete frames with a correct CRC and the id of the transfer are accepted |
| Update.StagingIsAnnounced | core/update.c:156-190 | an image is staged only complete, by a COMMIT, with the announced digest, and only then is the magic word set |
| Update.EveryRun | core/update.c:42-209 | over every run the received prefix is the concatenation of the chunks this run accepted since its last BEGIN, their number is next_seq, and a staged image is complete with the announced digest |
| Update.ReplayIsIdempotent | core/update.c:67-90 | an accepted frame delivered again changes nothing and gets the same reply; an ABORT gets the id error |
| Update.Receiver.Begin | core/update.c:52-104 | BEGIN in place is the BEGIN transition |
| Update.Receiver.Data | core/update.c:117-155 | DATA in place is the DATA transition |
| Update.Receiver.Commit | core/update.c:156-190 | COMMIT in place is the COMMIT transition |
| Update.Receiver.Abort | core/update.c:191-206 | ABORT in place is the ABORT transition |
| Update.Receiver.ProcessFrame | core/update.c:42-209 | the receiver in place takes exactly the transition of the frame |
| Update.Receiver.FinishTransfer | core/update.c:211-214 | the verdict is recorded and the transfer is done |
| Protocol.BeginFields | tools/update_frame.py:25-27 | the fields the receiver reads from the client's BEGIN |
| Protocol.DataFields | tools/update_frame.py:30-34 | the fields the receiver reads from chunk k |
| Protocol.CommitFields | tools/update_frame.py:37-38 | the fields the receiver reads from the client's COMMIT |
| Protocol.NextConsistent | tools/update_client.py:24-66 | every send, loss, duplication, reordering, corruption, reply and verdict keeps client and receiver consistent |
| Protocol.EndToEnd | tools/update_client.py:44-66 | over every run the two are at most one chunk apart, the staging area holds a prefix of the image, and all of it once STAGED is answered |
| Protocol.OwnVerdictIsTrue | tools/update_client.py:57-66 | a verdict with the id of the transfer is the receiver's verdict on this image |
| Protocol.ReplyExact | tools/update_frame.py:56-60 | the client reads a reply from a payload if and only if the payload is what the device sends for that reply, checksum included |
| Verdicts.CleanStartIsTruthful | tools/update_client.py:60-66 | from every start without an old verdict, in flight or still to come, every concluding run ends with the receiver's verdict |
| Verdicts.ClosedNeverStarts | core/update.c:86-90 | while the BEGIN is refused for good the client never gets past it, in no run |
| Verdicts.OldTransferCompletes | core/update.c:117-190 | from any state of a run with an unfinished transfer and any bytes that complete it with its digest, late frames bring exactly those bytes, one by one; the receiver ends done with that transfer, and its verdict, under its id, is in flight |
| Verdicts.OldVerdictMisleads | tools/update_client.py:61-66 | from every other start some run ends with a verdict the receiver did not give: one in flight, one repeated for an old COMMIT, that of a staged image, or that of a transfer late frames complete |
| Verdicts.TruthfulExactly | tools/update_client.py:60-66 | for every start the two halves together: the answer is always the receiver's if and only if the BEGIN is refused for good or there is no old verdict |
| Protocol.ExchangeAdvances | tools/update_client.py:24-42 | from any state a run can be in, one undisturbed exchange moves the client on |
| Protocol.TransferCompletes | tools/update_client.py:44-66 | undisturbed exchanges from the given state, in number exactly the frames left and no fewer, finish the client with the whole image at the receiver |
| Gates.PowerBit | core/loader.c:13 | x & (x - 1) vanishes exactly on the powers of two |
| Gates.RegionMeaning | core/loader.c:11-14 | the region test: page-aligned, a power of two of at least 1 KiB, and an end strictly below 4 GiB |
| Pmp.NapotTail | qemu/pmp_audit.c:382-386 | the loop counts the trailing ones, at most thirty |
| Pmp.NapotDecode | qemu/pmp_audit.c:388-398 | the decoder in place is the decoding function |
| Pmp.NapotExact | core/platform.h:247 | for 1 KiB to 4 MiB, decoding inverts encoding if and only if the base is a multiple of the size |
| Pmp.PageAlignmentIsNotEnough | core/loader.c:11-14 | a region the gate passes and the hardware places elsewhere |
| Pmp.MatchesRegion | core/platform.h:247 | a NAPOT entry matches exactly the addresses of its region |
| Pmp.ArmedIsExact | core/compartment.c:51-63 | an armed spec lets user mode read and write exactly its SRAM, read and execute exactly its text; everything else is decided and refused by the filler entry |
| Pmp.AlwaysCached | core/compartment.c:41-72 | after any history at most one armed bit is set and then the CSRs hold that spec |
| Pmp.ArmIsExact | core/compartment.c:51-63 | after any history, arming leaves the PMP deciding exactly that spec, written or skipped |
| Pmp.Compartments.SetUp | core/compartment.c:41-49 | a fresh, unarmed, unmarked lifetime with a zeroed register frame |
| Pmp.Compartments.ArmNow | core/compartment.c:51-63 | the CSR sequence and the armed bits of the table transition |
| Pmp.Compartments.EvictNow | core/compartment.c:68-72 | the slot is marked dead and unarmed, nothing else moves |
| Safety.NextKeeps | modules/supervisor.c:796-923 | every yield, fault and turn of the service loop keeps the whole invariant |
| Safety.EveryState | modules/supervisor.c:817-923 | from boot on, every state of every run satisfies the whole invariant |
| Safety.SafeAtEveryState | modules/supervisor.c:817-923 | at every state of every run: both program slots hold checked programs of pinned or boot origin, a native slot the boot image or one pinned for it, the schedule refusal is never reached, a round makes at most 11 entries, the native phase is retired exactly when no slot can run, strikes and rollbacks are paid for |
| Safety.WindowsFit | modules/supervisor.c:81-86 | every window of the address map is a region the PMP can express |
| Safety.WindowsDisjoint | modules/supervisor.c:81-86 | no address lies in the windows of two compartments, or of both native slots |
| Safety.ConfinedAtEveryState | modules/supervisor.c:384-399 | at every state of every run in which a compartment is running, the PMP grants user mode exactly its own windows, the native ones being those of the live slot; every address of another compartment and of the other native slot is refused for every access |
| Safety.EnteredAtItsEntry | modules/supervisor.c:384-399 | and the running compartment has the spec and entry point it should: the monitor's, that of the attacker lifetime in flight, that of the live native image, which is never one that was struck out |
| Safety.RoundEnds | modules/supervisor.c:857-923 | a run of yields and faults is no longer than the entries left, so every round returns to the service loop or parks |
| Safety.AnswerIsTruth | modules/supervisor.c:539-555 | a turn that ends a transfer answers ACCEPT, in the receiver and on the wire, exactly when the gates pass the staging area, and then what they read there is installed; after REJECT both slots and the table are as before; they read the announced image alone if and only if it reaches as far as its header says or is refused |
| Images.PrefixInspects | modules/supervisor.c:456-522 | the gates look no further than the digest behind the body |
| Images.DecidedExactly | modules/supervisor.c:452-477 | the verdict on an image does not depend on the bytes behind it if and only if it reaches as far as its header says, or nothing that begins with it passes |
| Images.ImageOfIsToolImage | tools/update_frame.py:45-48 | the image the tools build is header, code and digest of both, as the gates read them |
| Images.ToolImagePasses | modules/supervisor.c:456-522 | the tools' image of an accepted program passes the gates as exactly that program when its digest is pinned |
| Leftovers.SameImageOtherAnswer | modules/supervisor.c:452-477 | one announced image, complete and with its digest, answered ACCEPT with more installed than it holds, and answered REJECT, by one byte behind it |
| Leftovers.FilterLeftOver | modules/supervisor.c:452-477 | such a staging area, for every digest function: the image of the shipped filter, once pinned, 28 instructions, of which a transfer of 48 bytes brings five |
| Leftovers.NativeLeftOver | modules/supervisor.c:694-701 | such a staging area for a native header alone, for every digest function that pins the module |
| StaleBytes.LeftBehind | modules/supervisor.c:613-648 | from every boot a run comes to a complete transfer of 48 bytes, digest as announced, with the rest of a program frame sent earlier lying behind them, whatever digest that frame had |
| StaleBytes.BothAnswers | modules/supervisor.c:452-477 | from every boot, for every pinned and accepted program of two instructions or more, two runs come to the same complete transfer: one COMMIT is answered ACCEPT and the program goes live, the other is answered REJECT and nothing moves |
| Safety.ProgramFrameInstalls | modules/supervisor.c:629-646 | a program frame with a pinned image and accepted code is live word for word at the end of the turn, over the old program as shadow, and a round starts |
| Safety.NativeFrameInstallsStaged | modules/supervisor.c:694-701 | for a native frame of any length: the installed code is what the frame holds behind its header, completed by bytes already in the staging area where it is too short |
| Safety.NativeFrameInstalls | modules/supervisor.c:694-701 | a native frame that reaches as far as its header says and passes the gates by itself is in its slot byte for byte at the end of the turn, and compartment 2 is wired to that slot |
| Safety.HeaderAloneInstalls | modules/supervisor.c:694-701 | the header of an image in the staging area, sent alone, installs the whole of that image |
| Safety.FaultUndoesInstall | modules/supervisor.c:870-880 | a program that faults in its first round is replaced by what was live before it, word for word, or by the built-in policy |
| Safety.HotSwapCounts | modules/supervisor.c:452-537 | a set magic word is consumed, and exactly one of the two counters moves |
| Safety.StrikeKeeps | modules/supervisor.c:827-848 | striking out the live native slot keeps the table, the accounts and the program slots sound |
| Deployment.DeployedSince | modules/supervisor.c:798-809 | over every run of client, wire and supervisor, with rounds, yields and faults between the frames, and from every point of it without a verdict on our transfer: a receiver done with it gave the verdict of the gates on our image, and a positive one is in force unless rolled back since that point |
| Deployment.FinishedMeansJudged | tools/update_client.py:58-61 | when the client's COMMIT has been answered, the device has given the verdict of the gates on the image that was sent, and a positive one is in force unless rolled back since any point before it was given; whatever earlier transfers left about |
| TrueAnswers.TrueStartAnswers | tools/update_client.py:60-66 | from every start that meets the condition, an answer of `transfer` is the verdict of the gates on the image it sent, in every run |
| Answers.FalselyAnswered | tools/update_client.py:60-66 | from every other start some run ends with the opposite answer: a verdict in flight, one repeated for an old COMMIT, or that on a transfer which late frames complete, and which the gates answer otherwise |
| Answers.TrulyExactly | tools/update_client.py:60-66 | the two together: for every start of client, wire and device the answer is always the verdict on the image that was sent if and only if the BEGIN is malformed, or the core is parked, or every old verdict, in flight or still to come, is that one |
| Answers.AnswerMeansInstalled | tools/update_client.py:44-66 | from every start that meets this condition `transfer` returns True only if the gates pass the image it sent; then its program is live, unless rolled back since any point before the verdict was given, or its module in its slot; it returns on a REJECT only if they refuse it |
| Answers.ProgramSentIsLive | tools/update_client.py:44-66 | for the tools' image of an accepted, pinned program: once `transfer` has a verdict it returns True, and the device runs exactly that program, unless a rollback was counted after any point before the verdict |
| QuietWire.QuietWireReturns | tools/update_client.py:24-66 | any such run with the core in the service loop and a receiver that can take the BEGIN or has taken it goes on, by exactly one exchange of three acts for each frame left, to the client's answer, the verdict on its image, with no rollback on the way |
| Answers.TransferInstalls | tools/update_client.py:44-66 | so any such transfer of an accepted, pinned program can be completed from where it is, the core in the service loop: the run goes on, by one exchange for each frame left, to True and exactly the program that was sent live |
| Rollback.RolledBackExactly | modules/supervisor.c:867-880 | after the default round, whatever the open operations give, a live program is replaced, and one rollback counted, if and only if it faulted on some packet of the round |
| Rollback.RoundIsDefined | modules/monitor.c:62-84 | in every state of every run, on placed packets, those values are all that is open: a packet's run never leaves the image, meets a refused opcode or stores, and faults on memory only if a load's own offset leaves the packet |
| Rollback.ClosedRound | modules/monitor.c:62-84 | a round in which no run comes to an open operation is the default round of the monitor |
| Board.LoadWord | modules/supervisor.c:174-178 | bytes shifted in from the top give the little-endian word |
| Board.TrustCheck | modules/supervisor.c:437-450 | true exactly when the trailing digest is the digest of the body and is pinned |
| Board.InspectImage | modules/supervisor.c:456-522 | the gates in their order give the verdict on the image |
| Board.NativeGateRepeats | modules/supervisor.c:482-490 | after the tests before it the descriptor gate accepts every native image |
| Board.ProgramGateRepeats | modules/supervisor.c:513-519 | and every program image |
| Board.ShaIsProper | core/sha256.c:58-85 | the digest of the standard satisfies what the protocol asks of its digest function |
| Board.Machine.LoadProgram | modules/supervisor.c:146-187 | a boot image is live exactly when the check accepts it, with the recorded code; otherwise the slot is empty |
| Board.Machine.DecideNow | modules/supervisor.c:452-522 | the gates in place give the verdict of the state machine |
| Board.Machine.InstallNativeNow | modules/supervisor.c:491-508 | the image copied into the text of its slot, the slot live, and the PMP window moved onto it at once |
| Board.Machine.HotSwapNow | modules/supervisor.c:452-537 | the swap in place, copies, counters, table and PMP, is the swap of the state machine |
| Board.Machine.FinalizeNow | modules/supervisor.c:539-555 | answers exactly when a staged transfer was judged, with the recorded code, and sends that answer |
| Board.Machine.PollNow | modules/supervisor.c:613-704 | one frame in place is the poll of the state machine, and sends the replies it says |
| Board.Machine.EnterChecked | modules/supervisor.c:717-725 | arms and enters the compartment, or stops at the refusal when it is evicted |
| Board.Machine.RoundNow | modules/supervisor.c:384-399 | the three compartments set up afresh, the native one onto the live slot, the monitor armed and entered |
| Board.Machine.LifetimeNow | modules/supervisor.c:732-737 | a fresh lifetime of the attacker compartment, armed and entered |
| Board.Machine.ServeNow | modules/supervisor.c:798-809 | one turn of the service loop, and everything it sends |
| Board.Machine.RollbackNow | modules/supervisor.c:870-880 | the shadow copied over the live slot, or the slot emptied |
| Board.Machine.AdvanceNow | modules/supervisor.c:739-771 | the next attacker lifetime, or the native phase, or its retirement |
| Board.Machine.ResumeNow | modules/supervisor.c:857-923 | a yield in place is the yield of the state machine, rollback, phase and PMP included |
| Board.Machine.StrikeNow | modules/supervisor.c:834-848 | the live native slot is struck out and the window moves to the other one when it can run |
| Board.Machine.TrapNow | modules/supervisor.c:817-855 | a fault in place is the fault of the state machine: the lifetime ended, a strike when it was native, and the schedule goes on |
| Frames.RoundTrip | core/uart.c:139-151 | a frame fed to an idle machine delivers exactly its message and leaves it idle |
| Frames.NothingEarly | core/frame.c:21-56 | no proper prefix of a frame delivers anything |
| Frames.StreamRoundTrip | core/frame.c:21-56 | a stream of frames is delivered message for message, in order |
| Frames.EmptyFrameIsSilent | core/frame.c:45-54 | a frame without payload is consumed and never delivered |
| Frames.Resync | core/frame.c:6-12 | from any reachable state cap + 4 bytes without a sync byte bring the machine to idle |
| Frames.ResyncExactly | core/frame.c:6-12 | n bytes without a sync byte bring every reachable machine to idle if and only if n is at least the cap plus four, for every cap that can be announced without a sync byte |
| Frames.DeliveredAfterNoise | core/frame.c:21-56 | so whatever follows such a stretch is delivered, whatever came before |
| Frames.WritesBelowCap | core/frame.c:41-51 | no byte at or above the cap is written |
| Frames.SendFrame | core/uart.c:139-151 | the emitted bytes are the frame, checksum from a wrapping sum, for every length the argument can hold |
| Frames.StalledFrameIsDropped | core/uart.c:94-100 | a frame that stalled is dropped, and the next one is delivered wherever it broke off |
| Frames.Assembler.Step | core/frame.c:21-56 | one byte in place is the step of the machine |
| Frames.Assembler.Poll | core/uart.c:94-114 | the timeout reset, then bytes up to the first complete frame, whose length is returned with its payload in the buffer |
| Wide.Ashldi3 | core/helpers.c:20-27 | the limb-wise left shift is the 64-bit shift modulo 2^64, for every amount |
| Wide.Lshrdi3 | core/helpers.c:29-36 | the limb-wise logical right shift is the 64-bit shift |
| Wide.Ashrdi3 | core/helpers.c:38-45 | the limb-wise arithmetic right shift is the signed 64-bit shift |
| Wide.SarIsDiv | core/helpers.c:38-45 | which is division rounded down |
| Wide.MulLimbs | core/helpers.c:47-54 | three partial products of the limbs give the product of the wide words modulo 2^64 |
| Wide.Muldi3 | core/helpers.c:47-54 | three partial products give the product modulo 2^64 |
| Wide.Round | core/helpers.c:62-65 | one round keeps the divided part equal to quotient times divisor plus remainder, and the remainder's shift never overflows |
| Wide.UDivMod | core/helpers.c:57-68 | for a nonzero divisor a = q * b + r with r < b; zero and zero for a zero divisor |
| Wide.Divdi3 | core/helpers.c:80-85 | signed division truncated toward zero, modulo 2^64 |
| Wide.Moddi3 | core/helpers.c:87-93 | the remainder that belongs to it |
| Wide.TruncIsDivision | core/helpers.c:80-93 | quotient and remainder give the dividend back, the remainder is smaller than the divisor and has the dividend's sign |
| Sha256.LeastPadding | core/sha256.c:72-76 | the padding uses the fewest zero bytes section 5.1.1 of FIPS 180-4 allows |
| Sha256.BlockInPlace | core/sha256.c:32-56 | schedule and 64 rounds in place are the compression function of section 6.2.2 |
| Sha256.FillTail | core/sha256.c:69-76 | the tail buffer is the rest of the message followed by the padding, in one block or two |
| Sha256.WholeBlocks | core/sha256.c:64-68 | the loop consumes whole blocks and leaves the fold over the rest |
| Sha256.Sha256 | core/sha256.c:58-85 | the output is the digest of the standard for every length at which the counter does not wrap |

## Left out

- Interpreter.EbpfRun: with the step limit 2^32 - 1 the loop has no limit; the contract is then for the runs that end by themselves.
- Soundness.VerifierSound: the part about memory faults and open results is for a context at address 8 or above that ends inside the 32-bit space; below that the bounds test wraps.
- Mavlink.PolicyIsNativeFilter: packets of at least 14 bytes in such a context; a shorter packet faults on memory, while the native filter reads past it.
- Screening.GridCounts: streams below 2^32 packets, after which a cell wraps; packets of at least 18 bytes.
- Frames.RoundTrip: payloads of 1 to 65535 bytes within the cap; the length field has 16 bits.
- Sha256.Sha256: lengths up to 2^32 - 65, where the loop counter does not wrap.
- Wide.Divdi3: negating the quotient -2^63 wraps here; C leaves that overflow open.
- Update.EveryRun: runs of update frames and verdicts only; program and native frames also write the staging area and are steps of the supervisor model.
- Protocol.EndToEnd: one sender; a BEGIN of another transfer may arrive late at a busy receiver, one that a free receiver would take is a second sender. Damaged frames are those whose CRC fails.
- Protocol.ExchangeAdvances: retries, timeouts and the client's counters are steps of a state machine over the wire, not loops over a clock; the six-try limit and the one-second deadline are not in it.
- Verdicts.TruthfulExactly: the six-second wait for the verdict is not bounded; a client that gives up reports failure, which is not counted as an answer.
- Monitor.DefaultMode: a run that comes to an operation C leaves open ends there with a mark of its own; in Rollback.RolledBackExactly it goes on with any value.
- Answers.AnswerMeansInstalled: images that reach as far as their header says, as the tools build them; no other tool sends a program or native frame during the transfer.
- Frames.ResyncExactly: a cap with a sync byte among its two length bytes cannot be announced without one, and the least number of bytes may then be smaller; the bound of Frames.Resync still holds.
- Safety.SafeAtEveryState: the event counters are unbounded; the program pool of the monitor is taken to be written by the supervisor only; the native table after boot is any table in which slot 0 and the live slot hold an image.
- Safety.ConfinedAtEveryState: the address map of the CH32V307 board, not that of the QEMU machine; user mode only, machine mode is not confined.
- Board.Machine.RoundNow: packet and swarm staging into the monitor's memory is left to the monitor model; the proof word of the native SRAM is not cleared here.
- Board.Machine.InstallNativeNow: the mirror of the image in flash, and the RAM around the text.
- Board.Machine.HotSwapNow: the mirror of a native image in flash, and the status words about it.
- Board.Machine.PollNow: the contents of the counter window, and the swarm copied into the mailbox.
- Board.Machine.TrapNow: the telemetry frame about a fault, and the register frame the trap entry saved.
- Digest pinning: the digest function is any function to 32 bytes and the pinned list any list; that SHA-256 resists forgery is not claimed.
- Null pointers handed to the check or the gates are not represented.
- The flash mirror and the boot restore: the bound of the mirror write does not fit its page, and only the resulting table matters here.
- UART and debugger-ring registers, timers, watchdog, trap and entry assembly: a compartment's turn is one step that ends in a yield or a fault.
- PMP: one byte address at a time; TOR and NA4 entries, which the table never writes.
- `memset`, `memcpy`, reports, host drivers, attacker and drill modules.
