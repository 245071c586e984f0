# A model of the GRSPW SpaceWire core

The repository emulates four Gaisler GRSPW cores inside QEMU. A guest programs them through registers and
descriptor tables in a shared big-endian RAM; a transmission sends framed messages to a queue and waits for an
acknowledgement, messages from another queue are received into guest buffers or update the time. This project models
those cores and proves what they do. `dafny verify dfyconfig.toml` checks all of it.

The code works by changing things step by step, so each of its operations appears twice: as a method on objects with
mutable fields, arrays and buffers, in the order and with the masks of the source, and as a function on values. The
method's contract ties it to the function; the theorems are about the functions.

| file | what it holds |
|---|---|
| `BitOps.dfy` | `checkbit`, `setbit`, `clearbit`, `deposit` on bit-vectors and on numbers, and what masks mean as arithmetic |
| `Leon3Ram.dfy` | the RAM as a byte map, `endianness_swap`, the RAM accessors |
| `Messages.dfy` | frames, their encoder and decoder over reused buffers, the two queues |
| `Registers.dfy` | the register file: reset, the writes, the invariant every write keeps |
| `Dma.dfy` | what a transmission, a reception and a time code do to a core and to the RAM |
| `Descriptors.dfy` | the masks of the descriptor words and what they select |
| `RegisterBits.dfy` | what a register write stores, told by the bits of the value; where an access goes |
| `DmaBytes.dfy` | transmissions and receptions told from the bytes of the RAM and the bits of the registers |
| `Rings.dfy`, `Drain.dfy`, `Reception.dfy` | descriptor rings, the transmit loop, whole sequences of received packets |
| `Commute.dfy`, `Interleaved.dfy` | reception before, during and after a transmission; the transmit loop with receptions at its waits |
| `TimeCodes.dfy` | sequences of ticks and of received time codes |
| `System.dfy`, `Runs.dfy` | the device as interleaved steps, and what holds after every run |
| `TimeRuns.dfy` | the time codes a core sends over runs |
| `Waits.dfy` | exactly when a transmission under way releases its descriptor |
| `KeptBits.dfy` | what sets and clears the control bits over steps and runs |
| `Isolation.dfy`, `Scripts.dfy` | the four cores do not influence each other, as operations and as runs of the system |
| `GuestRing.dfy` | the transmit ring as the guest drives it, one register access after the other |
| `Device.dfy`, `Board.dfy` | one core and the four cores as objects, with the methods of the source |
| `Echo.dfy` | a packet sent by a core and received back by it |

Control and status registers are 32-bit vectors. Addresses, lengths, descriptor words and the time are integers below
2^32, on which `&` and `|` are defined digit by digit. The RAM is a total map from addresses to bytes. The queues are
unbounded sequences, but a frame of more than 1024 bytes or a message for a core that does not exist ends the process,
as in the source. Interrupts are counted.

Where the source and its own comments disagree, the model follows the source:

* The frame encoder stores the header over its length byte (grspw/grlib_mqgrspw.c:127-129), and the decoder reads it
  there. A frame is decoded to what was sent exactly when the header is empty or starts with its own length
  (`FramingRoundTrip`); `FrameMisread` is a run from the initial state that sends a frame nobody decodes.
* The two-byte tail of `endianness_swap` writes one byte too far (grspw/grlib_utilgrspw.c:59): the swap is exact, and
  its own inverse, for precisely the lengths that are not of the form 4k + 2 (`SwapIntoExact`, `SwapTwiceExact`). The
  callers swap 16, 8 and 4 bytes only (grspw/grlib_comgrspw.c:51, 101, 158, 198), so a length 4k + 2 is accepted by the
  function and never passed to it.
* A SPWCTR write ors the old register back in (grspw/grlib_reggrspw.c:68-70), so writing 0 does not clear a set/clear
  bit, although grspw/grlib_reggrspw.c:229 says so. `WriteCtrTakesValue` says exactly when the bits of the deposit take
  the value written, `SetClearGrows` that over any run without a reset they only grow, and `OpenPacketModeStays` is a
  run from the initial state in which 0 is written and the bit stays. SPWCHN does clear.
* The "not reset" bits are said to be reset by a reset and by nothing else (grspw/grlib_reggrspw.c:230,
  grspw/grlib_reggrspw.h:47, 150). A reset keeps all of them. In SPWCTR, Autostart once set is never cleared by
  anything (`AutostartStays`), Link Start is cleared by exactly the writes of Link Disable, and Link Disable by exactly
  those of Link Start (`LinkBitsStep`). In SPWCHN, such a bit is cleared by exactly the SPWCHN writes with 0 in it
  (`ChannelBitStep`). `AutostartSurvivesReset` and `InterruptEnableSurvivesReset` are runs from the initial state in
  which a bit of either register is set, a reset follows and the bit is still set.
* Reception interrupts are enabled by TI (grspw/grlib_comgrspw.c:215), not by RI, whose name says so
  (grspw/grlib_reggrspw.h:164). A delivery raises what RI would give if and only if the descriptor asks for no
  interrupt or TI and RI agree (`DeliveryByRi`); `SilentReception` is a run from the initial state in which RI is set,
  the descriptor asks for an interrupt, a packet is stored and none is raised.
* An acknowledgement that comes before the wait is lost (`EarlyAckIsLost`). A descriptor is released if and only if the
  wait, an acknowledgement and the resumption follow in this order before the process ends (`ReleasedExactlyWhen`).
* The table of transmit descriptor copies is declared with the receive descriptor type
  (grspw/grlib_comgrspw.h:110); the model uses the type it is cast to.
* The receive descriptor is read with the size of a pointer (grspw/grlib_comgrspw.c:158), taken to be 8.

## Model

| member | source | states |
|---|---|---|
| BitOps.MaskArithmetic | grspw/grlib_utilgrspw.c:153-169 | for every word and mask, `clearbit` takes away the masked part, `setbit` adds the missing part, `deposit` replaces it by that of the value |
| BitOps.AndField | grspw/grlib_reggrspw.h:20 | `FIELDMASK(n) << lo` selects the number held in n bits from bit lo on, in its place |
| BitOps.CheckOtherSet | grspw/grlib_utilgrspw.c:129-144 | setting bits does not change a test of other bits |
| BitOps.CheckOtherClear | grspw/grlib_utilgrspw.c:129-156 | clearing bits does not change a test of other bits |
| Leon3Ram.EndiannessSwap | grspw/grlib_utilgrspw.c:31-70 | for every length the loop ends and leaves the source bytes mirrored in groups of four, with the misplaced byte of a tail of two, and no other byte of dest changed; lengths from 2^31 on, negative as an int, swap nothing |
| Leon3Ram.SwapIntoExact | grspw/grlib_utilgrspw.c:31-70 | the swap fills exactly the first len bytes, whatever the buffers hold, if and only if len is not 4k + 2 |
| Leon3Ram.SwapTwiceExact | grspw/grlib_utilgrspw.c:31-70 | swapping back gives the source, whatever the buffers hold, if and only if len is not 4k + 2 |
| Leon3Ram.SwapByBytes | grspw/grlib_utilgrspw.c:31-70 | for every length and every byte of dest, which byte of the source it holds afterwards, or that it is unchanged |
| Leon3Ram.SwappedRoundTrip | grspw/grlib_utilgrspw.c:72-118 | for lengths other than 4k + 2, a swapped write followed by a swapped read returns the bytes, whatever the temporary buffers hold; the rest of the RAM is unchanged |
| Leon3Ram.SwappedWord | grspw/grlib_utilgrspw.c:95-118 | each host word of a swapped read is the big-endian word of the RAM |
| Leon3Ram.Ram.WriteBytes | grspw/grlib_utilgrspw.c:72-93 | the RAM afterwards, without swap and with it, for every length: of a tail of two the last byte is unknown, from 2^31 on what is stored are unknown bytes |
| Leon3Ram.Ram.ReadBytes | grspw/grlib_utilgrspw.c:95-118 | the buffer afterwards, without swap and with it, for every length; swapped reads from 2^31 on leave it as it was |
| Messages.FramingRoundTrip | grspw/grlib_mqgrspw.c:113-187 | for every packet that fits the buffers and every earlier content of them, decoding the frame returns the packet if and only if the header is empty or its first byte is its length |
| Messages.EncodeInSteps | grspw/grlib_mqgrspw.c:125-134 | the stores of the encoder add up to the frame, followed by the old content of the buffer |
| Messages.FrameByBytes | grspw/grlib_mqgrspw.c:112-134 | every byte of a frame: id, protocol word, the header over its length, the gap, the data length least significant byte first, the data |
| Messages.DecodeByBytes | grspw/grlib_mqgrspw.c:162-189 | what is decoded from every content of the buffer: the length read at its place; over 16 MB an overrun, else fatal if byte 0 is 4 or more, else id, protocol word, header and data byte by byte |
| Messages.MessageQueues.SendSpwPacket | grspw/grlib_mqgrspw.c:84-138 | the frame of the packet is appended to the queue, or the process ends, exactly for frames over 1024 bytes; the buffer afterwards |
| Messages.MessageQueues.SendSpwTimecode | grspw/grlib_mqgrspw.c:95-100 | one time-code packet is appended to the queue |
| Messages.MessageQueues.ReceiveDevPacket | grspw/grlib_mqgrspw.c:151-189 | the oldest message is taken, put over the start of the buffer and decoded as `DecodeByBytes` says; header and data are in the caller's buffers, whose rest is unchanged |
| Registers.ResetOk | grspw/grlib_reggrspw.c:31-59 | from any content a reset establishes the register invariant |
| Registers.RegisterFile.ResetRegisters | grspw/grlib_reggrspw.c:31-59 | every register after a reset, those bits included that it keeps |
| Registers.WriteCtrKeepsLink | grspw/grlib_reggrspw.c:61-108 | for RS, TI, LS and LD in any combination: reserved and self-clearing bits stay 0, read-only bits stay as they are, the link state is ErrorReset or Run, and Run implies Link Start and not Link Disable |
| Registers.WriteCtrKeeps | grspw/grlib_reggrspw.c:61-108 | a SPWCTR write keeps the whole register invariant |
| Registers.SentCode | grspw/grlib_reggrspw.c:78-87 | a tick sends the time SPWTIM is left with; nothing is sent without a tick |
| Registers.WriteCtrSetClear | grspw/grlib_reggrspw.c:61-75 | a write without reset only adds to the set/clear bits |
| Registers.WriteCtrLinkBits | grspw/grlib_reggrspw.c:61-105 | Autostart, Link Start and Link Disable after any write: Autostart can only be set, Link Start is also set by a reset and cleared by LD, Link Disable is cleared by LS |
| Registers.WriteCtrTakesValue | grspw/grlib_reggrspw.c:67-70 | without a reset the set/clear bits take the value written if and only if it clears none that is set; all bits of the deposit do under the exact condition stated, reset or not |
| Registers.StrStores | grspw/grlib_reggrspw.c:110-162 | the eight tests clear exactly the status bits written as 1 |
| Registers.WriteStrKeeps | grspw/grlib_reggrspw.c:110-162 | the status and link invariants survive |
| Registers.ChnPartition | grspw/grlib_reggrspw.h:149-167 | the classes of SPWCHN bits cover the 32 bits without overlap |
| Registers.ChnStores | grspw/grlib_reggrspw.c:164-221 | the sequence of updates equals the abstract write |
| Registers.WriteChnByClass | grspw/grlib_reggrspw.c:164-221 | what the write does to each class of bits: take the value, set only, abort, clear on 1, keep |
| Registers.WriteChnTwice | grspw/grlib_reggrspw.c:164-221 | writing the same value again changes nothing |
| Registers.WriteChnKeeps | grspw/grlib_reggrspw.c:164-221 | reserved, abort and AHB error bits stay 0 |
| Registers.InsertCounter | grspw/grlib_reggrspw.c:80-82 | the deposit steps the six-bit counter modulo 64 and keeps the control flags |
| Registers.WriteRegisterKeeps | grspw/grlib_reggrspw.c:234-298 | a write of any value to any offset keeps the register invariant |
| Registers.FieldsByMask | grspw/grlib_reggrspw.h:96-198 | for every value, the number in the fields of each numeric register is the value under the mask of the code |
| RegisterBits.WriteNumbersByMask | grspw/grlib_reggrspw.c:249-272 | a write to SPWNDR, SPWCLK, SPWKEY, SPWTIM or SPWTDR stores the masked value in that register and changes no other |
| RegisterBits.WriteLimitByMask | grspw/grlib_reggrspw.c:278-281 | the same for SPWRXL, bits 2 to 24 |
| RegisterBits.WriteTxTableByMask | grspw/grlib_reggrspw.c:283-286 | the same for SPWTXD, all but the four lowest bits |
| RegisterBits.WriteRxTableByMask | grspw/grlib_reggrspw.c:288-291 | the same for SPWRXD, all but the three lowest bits |
| RegisterBits.WriteElsewhere | grspw/grlib_reggrspw.c:293-294 | a write to any offset that is no register changes nothing |
| RegisterBits.WriteStrByBits | grspw/grlib_reggrspw.c:110-162 | a write to SPWSTR clears the eight status bits written as 1 and changes no other bit or register |
| RegisterBits.WriteChnByBits | grspw/grlib_reggrspw.c:164-221 | all 32 bits of SPWCHN after a write, by the bits of the old word and the value; no other register changes |
| RegisterBits.WriteCtrByBits | grspw/grlib_reggrspw.c:61-105 | all 32 bits of SPWCTR after a write, for every combination of RS, TI, LS and LD |
| RegisterBits.WriteCtrLinkState | grspw/grlib_reggrspw.c:89-105 | SPWSTR after a SPWCTR write: ErrorReset with LD, else Run with LS, else ErrorReset with RS, else the old state; the other status bits are cleared by RS and by nothing else |
| RegisterBits.WriteCtrTimeByBits | grspw/grlib_reggrspw.c:78-87 | SPWTIM after a SPWCTR write and the code sent: the counter steps with TI, from 0 with RS |
| RegisterBits.WriteCtrOthers | grspw/grlib_reggrspw.c:31-59 | all other registers after a SPWCTR write: as they were, or with RS their initial values |
| RegisterBits.AddressBits | grspw/grlib_apbgrspw.c:30-31 | bits 8 and 9 of an address name the core, bits 0 to 7 the register |
| RegisterBits.WriteGoesTo | grspw/grlib_apbgrspw.c:72-85 | a guest write at 0x400 k + 0x100 c + offset changes the registers of core c and nothing else of the system, and a transmission of core c is next |
| RegisterBits.InitByBits | grspw/grlib_apbgrspw.c:121-138 | registers, cursors and queue at the start, in numbers |
| Registers.RegisterFile.WriteControl | grspw/grlib_reggrspw.c:61-108 | the registers and the queue after a SPWCTR write, as `WriteCtrByBits`, `WriteCtrLinkState`, `WriteCtrTimeByBits` and `WriteCtrOthers` tell them by bits |
| Registers.RegisterFile.WriteStatus | grspw/grlib_reggrspw.c:110-162 | the registers after a SPWSTR write |
| Registers.RegisterFile.WriteChannel | grspw/grlib_reggrspw.c:164-221 | the registers after a SPWCHN write |
| Registers.RegisterFile.WriteRegisters | grspw/grlib_reggrspw.c:234-298 | the registers and the queue after a write to any offset, as the lemmas of `RegisterBits` tell them offset by offset |
| Dma.RxControlExact | grspw/grlib_comgrspw.c:164-198 | the control word written back has the delivered length, EN clear, IE and WR unchanged, and TR, DC, HC, EP or-ed with what the packet brings |
| Dma.DeliveredFits | grspw/grlib_comgrspw.c:164-173 | what is delivered is the packet up to the receive limit, and fits the length field |
| Dma.TxReleasedExact | grspw/grlib_comgrspw.c:99-101 | releasing a descriptor clears EN and nothing else |
| Dma.TxFrameBounds | grspw/grlib_comgrspw.c:57-77 | every descriptor gives a header of at most 255 and less than 2^24 bytes of data, so all buffers suffice, and the data end where the frame ends |
| DmaBytes.BeginByBytes | grspw/grlib_comgrspw.c:37-121 | txenable up to the wait, from the bytes of the RAM: nothing with TE clear; TE cleared at a disabled descriptor; else the packet carries core, protocol word 1 and the header and data bytes the descriptor points at, PS is set, and the next slot is 0 after a wrapping or the last slot and the one after it otherwise |
| DmaBytes.FinishByBytes | grspw/grlib_comgrspw.c:99-108 | after the wait, the control word kept is stored with EN cleared and no other byte changes; the interrupt is raised exactly with IE and TI |
| DmaBytes.TransmitByBytes | grspw/grlib_comgrspw.c:37-123 | a whole call of txenable, in every branch, from the bytes of the RAM |
| DmaBytes.FirstByBytes | grspw/grlib_comgrspw.c:37-97 | the same as a step of the system: the process ends exactly for a frame of more than 1024 bytes, else the packet is appended to the queue |
| DmaBytes.ReleaseByBytes | grspw/grlib_comgrspw.c:97-108 | whatever happens at the wait, the resumption stores the control word that was in the RAM at the start, EN cleared, changes no other byte, and raises the interrupt by TI as it is then |
| DmaBytes.RefusedByBytes | grspw/grlib_comgrspw.c:142-151 | nothing changes if RE or RD is clear, or if open packet mode is off and the first byte is not the node address |
| DmaBytes.ClosedByBytes | grspw/grlib_comgrspw.c:229-233 | every other packet that comes to a disabled descriptor clears RD and changes nothing else |
| DmaBytes.StoredMemory | grspw/grlib_comgrspw.c:164-198 | every other packet is stored: the bytes up to the receive limit at the address of the descriptor, all bits of the control word, and no other byte of the RAM |
| DmaBytes.StoredDevice | grspw/grlib_comgrspw.c:188-219 | and the core moves to the next slot, 0 after a wrapping or the last one, sets PR and with an EEP EE, and raises the interrupt exactly with IE and TI |
| DmaBytes.TimeByBits | grspw/grlib_comgrspw.c:273-292 | a time code greater than the time is taken, Tick Out is set and, with TQ, an interrupt raised; no other code changes anything |
| Rings.RunIsMaximal | grspw/grlib_comgrspw.c:82-91 | following a ring from a slot visits enabled slots once each; after a slot comes 0 if it wraps or is the last one, the next number otherwise; it stops only at a disabled or used slot |
| Rings.TxSelectExact | grspw/grlib_comgrspw.c:94 | the select field becomes the cursor, the table stays |
| Rings.RxSelectExact | grspw/grlib_comgrspw.c:212 | the same on the receive side |
| Rings.TxControlWritten | grspw/grlib_comgrspw.c:100-101 | writing one control word changes one word of the table and no other byte |
| Rings.RxControlWritten | grspw/grlib_comgrspw.c:197-198 | the same on the receive side |
| Drain.SendStep | grspw/grlib_comgrspw.c:37-123 | a call that sends: the packet of the slot, the slot released, cursor and select field moved on, the interrupt |
| Drain.StopStep | grspw/grlib_comgrspw.c:111-121 | a call that stops sends nothing, leaves the RAM and TE clear |
| Drain.SendConsumes | grspw/grlib_coregrspw.c:122-125 | every round of the loop uses up an enabled descriptor, so the loop ends |
| Drain.DrainExact | grspw/grlib_coregrspw.c:119-127 | the loop sends exactly the maximal run of enabled slots in ring order with their initial payloads, releases exactly those, changes nothing else, counts their interrupts and ends with TE clear |
| Drain.DrainLeavesTeClear | grspw/grlib_coregrspw.c:122-126 | from any state the loop ends with TE clear and the call after it changes nothing |
| Reception.StoreStep | grspw/grlib_comgrspw.c:151-219 | one accepted packet that finds its slot enabled |
| Reception.ApplyStores | grspw/grlib_comgrspw.c:188-198 | disjoint deliveries leave every buffer and control word in place and no other byte changed |
| Reception.ReceptionExact | grspw/grlib_comgrspw.c:136-264 | over any packet sequence the k-th accepted packet goes to the k-th slot of the maximal run, exactly its bytes up to the limit and its control word change, the interrupts add up, and after the first packet too many RD is clear and nothing changes any more |
| Commute.ReceptionCommutes | grspw/grlib_comgrspw.c:37-264 | with disjoint footprints, receiving before, during the wait of, or after a transmission leaves the same core, RAM and output |
| Commute.TimecodeCommutes | grspw/grlib_comgrspw.c:273-292 | the same for a received time code |
| Commute.ReleaseCommutes | grspw/grlib_comgrspw.c:99-108 | a reception before or after the release of a descriptor leaves the same core and RAM |
| Interleaved.SidesApart | grspw/grlib_comgrspw.c:37-264 | when tables and buffers of the two directions are in memory of their own, no call can use memory of the other direction |
| Interleaved.DrainAfterRxAll | grspw/grlib_coregrspw.c:122-125 | the loop after any receptions is the receptions after the loop |
| Interleaved.DrainReceiving | grspw/grlib_coregrspw.c:119-127 | the loop with any receptions at its waits sends the same packets and leaves the same core and RAM as the undisturbed loop followed by the receptions |
| TimeCodes.TickSequence | grspw/grlib_reggrspw.c:78-87 | among any writes without reset or SPWTIM write, n ticks send the next n time codes in order (section 8.12 of ECSS-E-ST-50-12C) |
| TimeCodes.GreatestIsMaximum | grspw/grlib_comgrspw.c:278-281 | the value kept is an upper bound of all codes that is reached |
| TimeCodes.TimecodeSequence | grspw/grlib_comgrspw.c:273-292 | over any codes SPWTIM ends at the greatest value, TO is newly set if and only if a code exceeded the time, and with TQ there is one interrupt per strict running maximum, at most 255 - tim |
| TimeRuns.StepTime | grspw/grlib_reggrspw.c:78-87 | over any step that neither resets the core, writes its SPWTIM nor brings it a later time code: the time moves on exactly with a tick of the core, and one time-code packet of the core, with the new time, goes out exactly then |
| TimeRuns.TicksOnRuns | grspw/grlib_reggrspw.c:78-87 | over every run of such steps, with transmissions, receptions and writes to all cores in between, n ticks send the next n time codes of the core in order and leave the last in SPWTIM |
| Runs.StepKeepsRegisters | grspw/grlib_coregrspw.c:81-97 | every step of the system keeps the register invariant of every core |
| Runs.RegistersOnEveryRun | grspw/grlib_reggrspw.c:31-298 | after every run from the initial state all registers of all cores are in their fields, the link words agree and the cursors are below 64 and 128 |
| Runs.StepKeepsHandshake | grspw/grlib_coregrspw.c:83-88 | every step keeps the account of packets, releases and acknowledgements |
| Runs.HandshakeOnEveryRun | grspw/grlib_comgrspw.c:77-101 | after every run the data packets sent are the released ones, in order by core, plus one exactly while a transmission is between send and release; the acknowledgements that came during a wait are as many as the releases, plus one exactly while a transmission is woken |
| Runs.ReleaseAcrossWait | grspw/grlib_comgrspw.c:97-101 | whatever happens during the wait, the release writes the control word read at the start, with EN cleared, to where it was read |
| Runs.StepConserves | grspw/grlib_comgrspw.c:104-108 | every step raises exactly the interrupts its event calls for |
| Runs.InterruptsOnEveryRun | grspw/grlib_comgrspw.c:215-219 | after every run a core's interrupts are its released and filled descriptors with IE while TI is set and its accepted time codes while TQ is set |
| Runs.DeliveryByRi | grspw/grlib_comgrspw.c:215-219 | a delivery raises the interrupt that IE and RI would give if and only if IE is clear or TI and RI agree |
| Runs.StepAligns | grspw/grlib_comgrspw.c:83-94 | a transmission and a delivery make the select field equal to the cursor |
| Runs.StepKeepsTables | grspw/grlib_reggrspw.c:283-291 | every step but a write of the address register or a reset keeps the table and the agreement of select field and cursor |
| Runs.AlignedOnRuns | grspw/grlib_comgrspw.c:201-212 | the same over runs, from the initial state or from any state in which they agree |
| Runs.UninterruptedAccess | grspw/grlib_apbgrspw.c:84-85 | an access nothing interrupts, as a run of steps, is the register write and a whole call of txenable, or ends the process |
| Runs.TransmissionStarts | grspw/grlib_apbgrspw.c:72-88 | from the initial state, enabling the transmitter of a core whose first descriptor is enabled and fits the queue sends its packet |
| Waits.ReleasedExactlyWhen | grspw/grlib_comgrspw.c:96-101 | from any state with a packet sent and not released, over any actions: the descriptor is released if and only if the wait, an acknowledgement and the resumption follow in this order with no fatal message before; until then nothing is released and the phase is the one reached |
| Waits.SentCompletes | grspw/grlib_coregrspw.c:83-88 | the same by positions of the three actions, for a packet just sent |
| Waits.WaitingCompletes | grspw/grlib_coregrspw.c:154-157 | the same by positions, for a transmission that waits |
| Waits.EarlyAckIsLost | grspw/grlib_coregrspw.c:154-157 | an acknowledgement before the wait counts for nothing: the descriptor is released if and only if another one and then the resumption follow; without one the transmission waits whatever happens |
| KeptBits.StepWords | grspw/grlib_reggrspw.c:234-298 | only a write of SPWCTR changes SPWCTR and only a write of SPWCHN changes its not-reset bits, over all steps of the system |
| KeptBits.LinkBitsStep | grspw/grlib_reggrspw.c:61-105 | a step sets Autostart exactly if it writes it, clears Link Start exactly if it writes Link Disable and clears Link Disable exactly if it writes Link Start |
| KeptBits.AutostartStays | grspw/grlib_reggrspw.c:34-42 | after every run from a state with Autostart set it is set, resets included |
| KeptBits.SetClearGrows | grspw/grlib_reggrspw.c:67-70 | over every run without a reset the set/clear bits of SPWCTR are only added to |
| KeptBits.ChannelBitStep | grspw/grlib_reggrspw.c:171-173 | a step clears TI, RI or AI exactly if it is a SPWCHN write with 0 in it |
| KeptBits.OpenPacketModeStays | grspw/grlib_reggrspw.c:61-70 | from the initial state, open packet mode written and then 0 written, it is still set |
| KeptBits.AutostartSurvivesReset | grspw/grlib_reggrspw.c:34-42 | from the initial state of any core, Autostart written and then a reset, it is still set |
| KeptBits.InterruptEnableSurvivesReset | grspw/grlib_reggrspw.c:52-57 | from the initial state of any core, TI written in SPWCHN and then a reset, it is still set |
| KeptBits.SilentReception | grspw/grlib_comgrspw.c:215-219 | from the initial state with a concrete RAM, RI written and not TI, a packet is stored through a descriptor with IE and no interrupt is raised |
| KeptBits.FrameMisread | grspw/grlib_mqgrspw.c:125-134 | from the initial state with a concrete RAM, the packet sent is not what any receiver decodes |
| Isolation.OpIsLocal | grspw/grlib_apbgrspw.c:72-88 | an operation confined to its core's memory depends on and changes that memory only |
| Isolation.CoresAreIsolated | grspw/grlib_coregrspw.c:81-97 | two worlds a core cannot tell apart stay so, when one of them sees all operations and the other only those of the core |
| Isolation.ConfinedTogether | grspw/grlib_coregrspw.c:81-97 | if each core's own run is confined, so is every interleaving, and its packets fit the queue exactly if those of the single runs do |
| Isolation.CoreProjection | grspw/grlib_apbgrspw.c:30-33 | in every interleaving of runs confined core by core, each core ends with the state, memory and output of a run of its own operations alone |
| Scripts.MessageIsStep | grspw/grlib_coregrspw.c:81-97 | a message is a receive step of the system |
| Scripts.AccessIsSteps | grspw/grlib_apbgrspw.c:72-88 | an access is a run of five given steps, or ends the process exactly if its frame is too long; it is over after two if nothing is sent |
| Scripts.RunOfOps | grspw/grlib_apbgrspw.c:72-88 | a run of the system made of uninterrupted operations does what the operations do, or exits exactly if one sends too long a frame |
| Scripts.SystemIsolation | grspw/grlib_apbgrspw.c:30-33 | isolation of the cores on runs of the system itself, the queue refusing frames over 1024 bytes |
| GuestRing.AccessInRing | grspw/grlib_apbgrspw.c:84-85 | one access with the ring partly used up: it sends the packet of the slot with its initial payload and releases the slot, or sends nothing and leaves TE clear, exactly when the slot is disabled or used |
| GuestRing.DriveFrom | grspw/grlib_apbgrspw.c:84-85 | n accesses send the first n packets of the maximal run, or all of it if it is shorter, and release exactly those slots; TE stays set exactly while no access finds the run used up |
| GuestRing.GuestDrivesRing | grspw/grlib_apbgrspw.c:72-88 | the same as a run of the system, for n uninterrupted accesses to any registers of a core that do not reset it, abort or move its table, with buffers apart from the table |
| Descriptors.TxMasks | grspw/grlib_comgrspw.h:64-80 | what the masks of the transmit control and length words select and clear, as digits of the word |
| Descriptors.RxMasks | grspw/grlib_comgrspw.h:35-42 | the same for the receive control word |
| Descriptors.TxSelectMask | grspw/grlib_comgrspw.c:94 | the deposit of the shifted cursor replaces the select field of the address |
| Descriptors.RxSelectMask | grspw/grlib_comgrspw.c:212 | the same on the receive side |
| Descriptors.RxLimitMask | grspw/grlib_reggrspw.h:177 | the receive limit is the multiple of 4 in the low 25 bits |
| Descriptors.ReceiveControl | grspw/grlib_comgrspw.c:176-197 | the updates of the receive control word, one after the other, give the word `RxControlExact` describes |
| Devices.Device.LoadTx | grspw/grlib_comgrspw.c:46-51 | the copy of the descriptor holds the four words of the RAM |
| Devices.Device.TxBegin | grspw/grlib_comgrspw.c:37-94 | the core and the queue up to the wait, in every branch, as `BeginByBytes` tells them from the bytes |
| Devices.Device.TxFinish | grspw/grlib_comgrspw.c:99-108 | the core and the RAM after the acknowledgement |
| Devices.Device.TxEnable | grspw/grlib_comgrspw.c:37-123 | the core, the RAM, the queue and the result of a whole call |
| Devices.Device.LoadRx | grspw/grlib_comgrspw.c:153-158 | the copy of the descriptor holds the two words of the RAM |
| Devices.Device.FillDescriptor | grspw/grlib_comgrspw.c:164-198 | the buffer and the control word of a delivery |
| Devices.Device.RxEnable | grspw/grlib_comgrspw.c:136-264 | the core and the RAM after a data message, in every branch, as `RefusedByBytes`, `ClosedByBytes`, `StoredMemory` and `StoredDevice` tell them from the bytes |
| Devices.Device.RxTimecode | grspw/grlib_comgrspw.c:273-292 | the core after a time code |
| Boards.DrainDevice | grspw/grlib_coregrspw.c:121-126 | the loop ends in the state `DrainExact` describes, or the process ends, exactly if some packet of it is too long |
| Boards.HandleMessage | grspw/grlib_coregrspw.c:83-97 | the dispatch on the protocol word |
| Boards.MakeCores | grspw/grlib_apbgrspw.c:121-138 | the four cores after the initialisation loop, sharing no part |
| Boards.Board.constructor | grspw/grlib_apbgrspw.c:112-150 | the board starts in the initial state of the system |
| Boards.Board.GuestWrite | grspw/grlib_apbgrspw.c:72-88 | the write goes to the core and register the address names and is followed by a transmission; no other core changes |
| Boards.Board.ReceiveNext | grspw/grlib_coregrspw.c:57-99 | one round of the receive thread, told from the bytes of the message at the head of the queue: the core it names handles it, no other core changes, and it counts as an acknowledgement exactly if byte 1 is 0 |
| Boards.RoutedByBytes | grspw/grlib_coregrspw.c:66-97 | from the bytes of any message: fatal or overrun changes nothing; else core byte 0 becomes what a data message, a time code or nothing makes of it as byte 1 is 1, 2 or anything else, and every other core and the queue stay as they were |
| Boards.RoundTooLongExact | grspw/grlib_coregrspw.c:119-127 | a round comes to a frame the queue refuses exactly if the drained cores would put one on it |
| Boards.RoundDrainsAll | grspw/grlib_coregrspw.c:119-127 | a round is the loop on cores 0, 1, 2 and 3, each on the RAM the one before has left, with their packets in this order; TE is clear in all four afterwards |
| Boards.Board.DrainCore | grspw/grlib_coregrspw.c:121-126 | the loop on one core of the board, which ends the process exactly if it comes to too long a frame; no other core changes |
| Boards.Board.TransmitRound | grspw/grlib_coregrspw.c:115-130 | one round of the transmit thread drains the cores in order, or ends the process exactly if one of them, in that order, comes to too long a frame |
| Echo.EchoIsDelivered | grspw/grlib_coregrspw.c:66-92 | a packet with an empty header, or one that starts with its length, is sent and its frame received back at any later time: if the core takes it, its receive buffer holds up to the limit the bytes the transmit descriptor pointed at, the control word their number, and no other byte of the RAM changes |

## Left out

- Register reads (grspw/grlib_reggrspw.c:308-355, grspw/grlib_apbgrspw.c:51-70): a switch without effect.
- QEMU object, bus, property and character-device registration, and the empty receive and event handlers.
- Logging and tracing (grspw/grlib_loggrspw.c).
- Opening, closing and unlinking the queues, and their capacity of ten messages: a send never blocks here.
- Creation of the threads; the transmit thread is never created (grspw/grlib_coregrspw.c:50), its loop is modelled.
- The mutex: its locking is commented out on the write path (grspw/grlib_apbgrspw.c:83-87) while the wait uses it. The wait is modelled as waiting and woken, without spurious wake-ups; no mutual exclusion and no liveness is claimed.
- Interleaving inside a register write, inside one half of a transmission or inside the handling of a message: each is one step of the system.
- The content of the reception attributes, which the source never fills in (grspw/grlib_coregrspw.c:68): any three flags.
- The pending queue of the no-spill mode (grspw/grlib_comgrspw.c:238-251), CRC, RMAP and the unused `txdmad_map`, `txdmah_map`, `rxdmad_map`: no behaviour.
- The overlap of `txd_map` slot 63 with the cursors that its declared type causes (grspw/grlib_comgrspw.h:110): the model has the type the code casts to.
- Leon3Ram.EndiannessSwap: dest and src are separate buffers, as in every caller; a swap of a buffer onto itself is not modelled.
- Leon3Ram.Ram.WriteBytes: for lengths 4k + 2 the temporary buffer is given room for the byte written past its end; what that byte overwrites in the source is not modelled.
- Leon3Ram.Ram.ReadBytes: for swapped lengths 4k + 2 the caller's buffer has room for the byte written past the length; what that byte overwrites otherwise is not modelled. Straight reads of 2^31 bytes or more, whose copy size turns negative (grspw/grlib_utilgrspw.c:105-113), copy the bytes here; no caller reads that many.
- What follows a received data length over 16 MB, which no buffer can hold: reported as an overrun and not pursued.
- Drain.DrainExact: says nothing of the device's private copies of the descriptors, which no later step reads before writing them.
- Reception.ReceptionExact: says nothing of the private copies either.
- Isolation.CoreProjection: transmissions are uninterrupted, and the queue takes frames of any length; SystemIsolation has the queue of the source.
- Interleaved.DrainReceiving: the receptions are data messages; a time code at a wait is covered by TimecodeCommutes call by call.
- grspw/testsuites/grlib_grspwtest0.c, a near copy of the bus file.
