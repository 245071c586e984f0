/** What holds after every run of the device, whatever the interleaving of guest accesses, network
    messages and the two halves of a transmission. */
module Runs {
  import opened BitOps
  import opened Leon3Ram
  import opened Messages
  import opened Registers
  import opened Dma
  import opened Rings
  import opened System

  // ---- the registers stay inside their fields ----

  predicate RegistersOk(s: State)
    requires Shape(s)
  {
    forall c :: 0 <= c < CORES ==> RegsOk(c, s.cores[c].regs)
  }

  lemma ChnKept(chn: word)
    requires ChnWord(chn)
    ensures ChnWord(SetBit(chn, CHN_PS)) && ChnWord(SetBit(chn, CHN_PR))
    ensures ChnWord(ClearBit(chn, CHN_TE)) && ChnWord(ClearBit(chn, CHN_RD))
  {
  }

  lemma StrKept(ctr: word, str: word, ep: bool)
    requires StrWord(str) && LinkWords(ctr, str)
    ensures StrWord(SetBit(str, STR_TO)) && LinkWords(ctr, SetBit(str, STR_TO))
    ensures StrWord(EepStr(str, ep)) && LinkWords(ctr, EepStr(str, ep))
  {
  }

  lemma TxBeginKeeps(d: Dev, m: Mem)
    requires DevOk(d) && RegsOk(d.id, d.regs)
    ensures RegsOk(d.id, TxBegin(d, m).dev.regs)
  {
    hide CheckBit, SetBit, ClearBit, ReadWord, TxDescr.Enabled, TxDescr.Wraps, TxSelect, CtrWord, StrWord;
    hide LinkWords, ChnWord;
    ChnKept(d.regs.chn);
    TxSelectExact(d.regs.txd, NextSlot(d.txdCur, TxLoad(m, d.regs.txd).Wraps(), TX_SLOTS));
  }

  lemma RxKeeps(d: Dev, m: Mem, p: RxPacket)
    requires DevOk(d) && RegsOk(d.id, d.regs)
    ensures RegsOk(d.id, RxDev(d, m, p).regs)
  {
    hide CheckBit, SetBit, ClearBit, ReadWord, RxDescr.Enabled, RxDescr.Wraps, RxDescr.Interrupts, RxSelect;
    hide EepStr, RxWriteBack, CtrWord, StrWord, LinkWords, ChnWord;
    ChnKept(d.regs.chn);
    StrKept(d.regs.ctr, d.regs.str, p.ep);
    RxSelectExact(d.regs.rxd, NextSlot(d.rxdCur, RxLoad(m, d.regs.rxd).Wraps(), RX_SLOTS));
  }

  lemma RxTimecodeKeeps(d: Dev, code: byte)
    requires RegsOk(d.id, d.regs)
    ensures RegsOk(d.id, RxTimecode(d, code).regs)
  {
    hide CheckBit, SetBit, CtrWord, StrWord, LinkWords, ChnWord;
    StrKept(d.regs.ctr, d.regs.str, false);
  }

  lemma StepKeepsRegisters(s: State, a: Action)
    requires Shape(s) && RegistersOk(s)
    ensures RegistersOk(Step(s, a))
  {
    hide RegsOk, WriteRegister, TxBegin, TxFinishDev, RxDev, RxMem, RxTimecode, Delivers, ReadWord;
    hide SentTimecode, Timecodes, TxFinishMem;
    match a
    case GuestWrite(addr, v) =>
      WriteRegisterKeeps(CoreOf(addr), s.cores[CoreOf(addr)].regs, OffsetOf(addr), v);
    case TxFirst =>
      if s.phase.Calling? { TxBeginKeeps(s.cores[s.phase.core], s.mem); }
    case Receive(id, _, p) =>
      if id < CORES {
        RxKeeps(s.cores[id], s.mem, p);
        RxTimecodeKeeps(s.cores[id], p.first);
      }
    case _ =>
  }

  // ---- acknowledgements ----

  /** The cores of the data packets sent, in order. */
  function DataIds(out: seq<Packet>): seq<nat>
    decreases |out|
  {
    if out == [] then []
    else DataIds(out[..|out| - 1]) + if out[|out| - 1].pword == DATA then [out[|out| - 1].id] else []
  }

  /** The cores of the descriptors released, in order. */
  function ReleasedCores(log: seq<Event>): seq<nat>
    decreases |log|
  {
    if log == [] then []
    else ReleasedCores(log[..|log| - 1]) + if log[|log| - 1].Released? then [log[|log| - 1].core] else []
  }

  /** Acknowledgements handled, and those among them that came during a wait. */
  function Acks(log: seq<Event>): nat
    decreases |log|
  {
    if log == [] then 0 else Acks(log[..|log| - 1]) + if log[|log| - 1].Acked? then 1 else 0
  }

  function AwaitedAcks(log: seq<Event>): (n: nat)
    ensures n <= Acks(log)
    decreases |log|
  {
    if log == [] then 0 else AwaitedAcks(log[..|log| - 1]) + if log[|log| - 1] == Acked(true) then 1 else 0
  }

  function InFlightCores(p: Phase): seq<nat> {
    if InFlight(p) then [p.core] else []
  }

  predicate Handshake(s: State) {
    && DataIds(s.out) == ReleasedCores(s.log) + InFlightCores(s.phase)
    && AwaitedAcks(s.log) == |ReleasedCores(s.log)| + (if s.phase.Woken? then 1 else 0)
  }

  lemma DataIdsMore(out: seq<Packet>, p: Packet)
    ensures DataIds(out + [p]) == DataIds(out) + if p.pword == DATA then [p.id] else []
  {
    assert (out + [p])[..|out|] == out;
  }

  lemma CountsMore(log: seq<Event>, e: Event)
    ensures ReleasedCores(log + [e]) == ReleasedCores(log) + if e.Released? then [e.core] else []
    ensures AwaitedAcks(log + [e]) == AwaitedAcks(log) + if e == Acked(true) then 1 else 0
  {
    assert (log + [e])[..|log|] == log;
  }

  lemma TimecodesAreNoData(out: seq<Packet>, id: nat, codes: seq<uint32>)
    requires |codes| <= 1
    ensures DataIds(out + Timecodes(id, codes)) == DataIds(out)
  {
    if |codes| == 1 {
      DataIdsMore(out, Timecodes(id, codes)[0]);
      assert Timecodes(id, codes) == [Timecodes(id, codes)[0]];
    } else {
      assert out + Timecodes(id, codes) == out;
    }
  }

  lemma OneTimecode(id: nat, r: Regs, offset: nat, v: word)
    ensures |SentTimecode(id, r, offset, v)| <= 1
  {
    hide CheckBit, NextTime;
  }

  lemma BeginPacket(d: Dev, m: Mem)
    requires DevOk(d)
    ensures var r := TxBegin(d, m); r.Started? ==> r.packet.pword == DATA && r.packet.id == d.id
  {
    hide CheckBit, SetBit, ClearBit, ReadWord, TxDescr.Enabled, TxDescr.Wraps, TxSelect;
  }

  // The handshake through each kind of step.

  lemma WriteShakes(s: State, addr: nat, v: word)
    requires Shape(s) && Handshake(s)
    ensures Handshake(DoWrite(s, addr, v))
  {
    hide WriteDev, SentTimecode, Timecodes, DataIds, ReleasedCores, AwaitedAcks;
    var c := CoreOf(addr);
    OneTimecode(c, s.cores[c].regs, OffsetOf(addr), v);
    TimecodesAreNoData(s.out, c, SentTimecode(c, s.cores[c].regs, OffsetOf(addr), v));
  }

  lemma FirstShakes(s: State)
    requires Shape(s) && Handshake(s)
    ensures Handshake(DoFirst(s))
  {
    hide TxBegin, DataIds, ReleasedCores, AwaitedAcks, Packet.FrameLength;
    if s.phase.Calling? {
      var r := TxBegin(s.cores[s.phase.core], s.mem);
      if r.Started? {
        BeginPacket(s.cores[s.phase.core], s.mem);
        DataIdsMore(s.out, r.packet);
      }
    }
  }

  lemma SecondShakes(s: State)
    requires Shape(s) && Handshake(s)
    ensures Handshake(DoSecond(s))
  {
    hide TxFinishDev, TxFinishMem, ReadWord, DataIds, ReleasedCores, AwaitedAcks;
    if s.phase.Woken? {
      CountsMore(s.log, DoSecond(s).log[|s.log|]);
    }
  }

  lemma AckShakes(s: State)
    requires Shape(s) && Handshake(s)
    ensures Handshake(DoAck(s))
  {
    hide DataIds, ReleasedCores, AwaitedAcks;
    CountsMore(s.log, Acked(s.phase.Waiting?));
  }

  lemma MessageShakes(s: State, c: nat, p: RxPacket)
    requires Shape(s) && Handshake(s) && c < CORES
    ensures Handshake(DoData(s, c, p)) && Handshake(DoTime(s, c, p.first))
  {
    hide RxDev, RxMem, RxTimecode, Delivers, ReadWord, DataIds, ReleasedCores, AwaitedAcks;
    var d := s.cores[c];
    CountsMore(s.log, Filled(c, ReadWord(RxMem(d, s.mem, p), d.regs.rxd), d.regs.chn));
    CountsMore(s.log, Ticked(c, d.regs.ctr));
    assert s.log + [] == s.log;
  }

  lemma StepKeepsHandshake(s: State, a: Action)
    requires Shape(s) && Handshake(s)
    ensures Handshake(Step(s, a))
  {
    hide DoWrite, DoFirst, DoSecond, DoAck, DoData, DoTime, DataIds, ReleasedCores, AwaitedAcks;
    match a
    case GuestWrite(addr, v) => WriteShakes(s, addr, v);
    case TxFirst => FirstShakes(s);
    case TxSecond => SecondShakes(s);
    case Receive(id, _, p) =>
      AckShakes(s);
      if id < CORES { MessageShakes(s, id, p); }
    case _ =>
  }

  // ---- interrupts ----

  /** Whether an event calls for an interrupt: the control word left in the RAM asks for it and
      SPWCHN has TI, or a time code was accepted and SPWCTR has TQ. */
  predicate Interrupting(e: Event) {
    match e
    case Acked(_) => false
    case Released(_, ctrl, chn) => ctrl / 0x4000 % 2 == 1 && CheckBit(chn, CHN_TI)
    case Filled(_, ctrl, chn) => ctrl / 0x800_0000 % 2 == 1 && CheckBit(chn, CHN_TI)
    case Ticked(_, ctr) => CheckBit(ctr, CTR_TQ)
  }

  function Interrupts(log: seq<Event>, c: nat): nat
    decreases |log|
  {
    if log == [] then 0
    else
      var e := log[|log| - 1];
      Interrupts(log[..|log| - 1], c) + if !e.Acked? && e.core == c && Interrupting(e) then 1 else 0
  }

  predicate Conserved(s: State)
    requires Shape(s)
  {
    forall c :: 0 <= c < CORES ==> s.cores[c].irqs == Interrupts(s.log, c)
  }

  lemma InterruptsMore(log: seq<Event>, e: Event, c: nat)
    ensures Interrupts(log + [e], c)
        == Interrupts(log, c) + if !e.Acked? && e.core == c && Interrupting(e) then 1 else 0
  {
    assert (log + [e])[..|log|] == log;
  }

  lemma BeginIrqs(d: Dev, m: Mem)
    requires DevOk(d)
    ensures TxBegin(d, m).dev.irqs == d.irqs
  {
    hide CheckBit, SetBit, ClearBit, ReadWord, TxDescr.Enabled, TxDescr.Wraps, TxSelect;
  }

  lemma FinishIrqs(d: Dev, m: Mem, p: Pending)
    requires DevOk(d) && p.slot < TX_SLOTS
    ensures var e := Released(d.id, ReadWord(TxFinishMem(d, m, p), p.addr), d.regs.chn);
            TxFinishDev(d, p).irqs == d.irqs + if Interrupting(e) then 1 else 0
  {
    hide CheckBit, TxDescr.Released, ReadWord, WriteWord;
    ReadWritten(m, p.addr, d.txdMap[p.slot].Released().ctrl);
  }

  lemma RxIrqs(d: Dev, m: Mem, p: RxPacket)
    requires DevOk(d)
    ensures var e := Filled(d.id, ReadWord(RxMem(d, m, p), d.regs.rxd), d.regs.chn);
            RxDev(d, m, p).irqs == d.irqs + if Delivers(d, m, p) && Interrupting(e) then 1 else 0
  {
    hide CheckBit, SetBit, ClearBit, RxSelect, EepStr, ReadWord, WriteWord, Write, RxDescr.Enabled;
    hide RxDescr.Wraps, Delivered, RxControl, RxAccepts;
    var desc := RxLoad(m, d.regs.rxd);
    if Delivers(d, m, p) {
      DeliveredFits(d.regs, p);
      RxControlExact(desc, |Delivered(d.regs, p)|, |p.data| > RxLimit(d.regs.rxl), p);
      ReadWritten(Write(m, desc.addr, Delivered(d.regs, p)), d.regs.rxd, RxWriteBack(d, desc, p).ctrl);
    }
  }

  /** A delivery raises the interrupt that the receive interrupt enable, RI, would give if and only if TI and
      RI agree or the descriptor asks for none. */
  lemma DeliveryByRi(d: Dev, m: Mem, p: RxPacket)
    requires DevOk(d) && Delivers(d, m, p)
    ensures var ie, chn := RxLoad(m, d.regs.rxd).Interrupts(), d.regs.chn;
            RxDev(d, m, p).irqs == d.irqs + (if ie && CheckBit(chn, CHN_RI) then 1 else 0)
            <==> (ie ==> CheckBit(chn, CHN_TI) == CheckBit(chn, CHN_RI))
  {
    hide CheckBit, SetBit, ClearBit, ReadWord, RxSelect, EepStr, RxAccepts, RxWriteBack, Delivered;
    hide RxDescr.Enabled, RxDescr.Wraps, RxDescr.Interrupts;
  }

  lemma TimeIrqs(d: Dev, code: byte)
    ensures RxTimecode(d, code).irqs
        == d.irqs + if d.regs.tim < code as int && Interrupting(Ticked(d.id, d.regs.ctr)) then 1 else 0
  {
  }

  lemma StepConserves(s: State, a: Action)
    requires Shape(s) && Conserved(s)
    ensures Conserved(Step(s, a))
  {
    hide WriteRegister, TxBegin, TxFinishDev, RxDev, RxMem, RxTimecode, Delivers, ReadWord, SentTimecode;
    hide Timecodes, TxFinishMem;
    hide Interrupts, Interrupting, Packet.FrameLength;
    var s' := Step(s, a);
    if s'.log != s.log {
      assert s'.log == s.log + [s'.log[|s.log|]];
      forall c | 0 <= c < CORES
        ensures Interrupts(s'.log, c) == Interrupts(s.log, c)
             + var e := s'.log[|s.log|]; if !e.Acked? && e.core == c && Interrupting(e) then 1 else 0
      {
        InterruptsMore(s.log, s'.log[|s.log|], c);
      }
    }
    match a
    case TxFirst =>
      if s.phase.Calling? { BeginIrqs(s.cores[s.phase.core], s.mem); }
    case TxSecond =>
      if s.phase.Woken? { FinishIrqs(s.cores[s.phase.core], s.mem, s.phase.pending); }
    case Receive(id, _, p) =>
      if id < CORES {
        RxIrqs(s.cores[id], s.mem, p);
        TimeIrqs(s.cores[id], p.first);
      }
    case _ =>
  }

  // ---- the select fields follow the cursors ----

  /** A guest write that replaces a table address register of a core: of the register itself, or a
      reset. */
  predicate Moves(a: Action, c: nat, offset: nat) {
    && a.GuestWrite? && CoreOf(a.addr) == c
    && (OffsetOf(a.addr) == offset || (OffsetOf(a.addr) == 0x00 && CheckBit(a.value, CTR_RS)))
  }

  lemma BeginAligns(d: Dev, m: Mem)
    requires DevOk(d) && d.regs.txd % 16 == 0
    ensures var r := TxBegin(d, m).dev;
            && TableBase(r.regs.txd) == TableBase(d.regs.txd) && r.regs.rxd == d.regs.rxd && r.rxdCur == d.rxdCur
            && (TxBegin(d, m).Started? || TxAligned(d) ==> TxAligned(r))
  {
    hide CheckBit, SetBit, ClearBit, ReadWord, TxDescr.Enabled, TxDescr.Wraps, TxSelect, TableBase;
    TxSelectExact(d.regs.txd, NextSlot(d.txdCur, TxLoad(m, d.regs.txd).Wraps(), TX_SLOTS));
  }

  lemma RxAligns(d: Dev, m: Mem, p: RxPacket)
    requires DevOk(d) && d.regs.rxd % 8 == 0
    ensures var r := RxDev(d, m, p);
            && TableBase(r.regs.rxd) == TableBase(d.regs.rxd) && r.regs.txd == d.regs.txd && r.txdCur == d.txdCur
            && (Delivers(d, m, p) || RxAligned(d) ==> RxAligned(r))
  {
    hide CheckBit, SetBit, ClearBit, ReadWord, RxDescr.Enabled, RxDescr.Wraps, RxDescr.Interrupts, RxSelect;
    hide EepStr, RxWriteBack, TableBase;
    RxSelectExact(d.regs.rxd, NextSlot(d.rxdCur, RxLoad(m, d.regs.rxd).Wraps(), RX_SLOTS));
  }

  lemma WriteAddresses(id: nat, r: Regs, offset: nat, v: word)
    requires offset == 0x00 ==> !CheckBit(v, CTR_RS)
    ensures offset != 0x28 ==> WriteRegister(id, r, offset, v).txd == r.txd
    ensures offset != 0x2C ==> WriteRegister(id, r, offset, v).rxd == r.rxd
  {
    hide CheckBit, WriteCtr, WriteChn, WriteStr, CtrMerge, Low8, Low16, Low22, MaxLength, TxTable, RxTable;
    WriteCtrFrame(id, r, v);
  }

  predicate SameTxTable(d: Dev, d': Dev) {
    TableBase(d'.regs.txd) == TableBase(d.regs.txd) && (TxAligned(d) ==> TxAligned(d'))
  }

  predicate SameRxTable(d: Dev, d': Dev) {
    TableBase(d'.regs.rxd) == TableBase(d.regs.rxd) && (RxAligned(d) ==> RxAligned(d'))
  }

  lemma BeginKeepsTables(d: Dev, m: Mem)
    requires DevOk(d) && RegsOk(d.id, d.regs)
    ensures SameTxTable(d, TxBegin(d, m).dev) && SameRxTable(d, TxBegin(d, m).dev)
  {
    hide TxBegin, TableBase, CtrWord, ChnWord, StrWord, LinkWords;
    BeginAligns(d, m);
  }

  lemma FinishKeepsTables(d: Dev, p: Pending)
    requires DevOk(d) && p.slot < TX_SLOTS
    ensures SameTxTable(d, TxFinishDev(d, p)) && SameRxTable(d, TxFinishDev(d, p))
  {
    hide CheckBit, TxDescr.Released, TxDescr.Interrupts, TableBase;
  }

  lemma RxKeepsTables(d: Dev, m: Mem, p: RxPacket)
    requires DevOk(d) && RegsOk(d.id, d.regs)
    ensures SameTxTable(d, RxDev(d, m, p)) && SameRxTable(d, RxDev(d, m, p))
    ensures SameTxTable(d, RxTimecode(d, p.first)) && SameRxTable(d, RxTimecode(d, p.first))
  {
    hide RxDev, TableBase, CtrWord, ChnWord, StrWord, LinkWords, CheckBit, SetBit;
    RxAligns(d, m, p);
  }

  lemma WriteKeepsTables(d: Dev, offset: nat, v: word)
    requires offset == 0x00 ==> !CheckBit(v, CTR_RS)
    ensures offset != 0x28 ==> SameTxTable(d, WriteDev(d, offset, v))
    ensures offset != 0x2C ==> SameRxTable(d, WriteDev(d, offset, v))
  {
    hide WriteRegister, TableBase;
    WriteAddresses(d.id, d.regs, offset, v);
  }

  lemma StepKeepsTables(s: State, a: Action, c: nat)
    requires Shape(s) && RegistersOk(s) && c < CORES
    ensures !Moves(a, c, 0x28) ==> SameTxTable(s.cores[c], Step(s, a).cores[c])
    ensures !Moves(a, c, 0x2C) ==> SameRxTable(s.cores[c], Step(s, a).cores[c])
  {
    SameTables(s.cores[c]);
    hide WriteDev, TxBegin, TxFinishDev, RxDev, RxMem, RxTimecode, Delivers, ReadWord, SentTimecode, Timecodes;
    hide TxFinishMem, CheckBit;
    hide RegsOk, Packet.FrameLength, SameTxTable, SameRxTable;
    match a
    case GuestWrite(addr, v) =>
      if OffsetOf(addr) != 0x00 || !CheckBit(v, CTR_RS) {
        WriteKeepsTables(s.cores[CoreOf(addr)], OffsetOf(addr), v);
      }
    case TxFirst =>
      if s.phase.Calling? { BeginKeepsTables(s.cores[s.phase.core], s.mem); }
    case TxSecond =>
      if s.phase.Woken? { FinishKeepsTables(s.cores[s.phase.core], s.phase.pending); }
    case Receive(id, _, p) =>
      if id < CORES { RxKeepsTables(s.cores[id], s.mem, p); }
    case _ =>
  }

  lemma SameTables(d: Dev)
    ensures SameTxTable(d, d) && SameRxTable(d, d)
  {
  }

  /** A transmission and a delivery make the select field equal to the cursor. */
  lemma StepAligns(s: State, a: Action)
    requires Shape(s) && RegistersOk(s) && !s.exited
    ensures a == TxFirst && s.phase.Calling? && Step(s, a).phase.Sent? ==> TxAligned(Step(s, a).cores[s.phase.core])
    ensures a.Receive? && a.id < CORES && a.pword == DATA && Delivers(s.cores[a.id], s.mem, a.packet) ==>
              RxAligned(Step(s, a).cores[a.id])
  {
    hide WriteRegister, TxBegin, TxFinishDev, RxDev, RxMem, RxTimecode, Delivers, ReadWord, SentTimecode;
    hide Timecodes, TxFinishMem, TableBase, CheckBit;
    hide CtrWord, ChnWord, StrWord, LinkWords, Packet.FrameLength;
    if s.phase.Calling? {
      assert RegsOk(s.phase.core, s.cores[s.phase.core].regs);
      BeginAligns(s.cores[s.phase.core], s.mem);
    }
    if a.Receive? && a.id < CORES {
      assert RegsOk(a.id, s.cores[a.id].regs);
      RxAligns(s.cores[a.id], s.mem, a.packet);
    }
  }

  lemma {:induction false} RunKeepsTables(s: State, acts: seq<Action>, c: nat)
    requires Shape(s) && RegistersOk(s) && c < CORES
    ensures (forall a :: a in acts ==> !Moves(a, c, 0x28)) ==> SameTxTable(s.cores[c], After(s, acts).cores[c])
    ensures (forall a :: a in acts ==> !Moves(a, c, 0x2C)) ==> SameRxTable(s.cores[c], After(s, acts).cores[c])
    decreases |acts|
  {
    hide Step, Moves, RegsOk, TableBase;
    if acts != [] {
      var before, last := acts[..|acts| - 1], acts[|acts| - 1];
      RunKeepsTables(s, before, c);
      RunKeepsRegisters(s, before);
      StepKeepsTables(After(s, before), last, c);
      assert last in acts && forall a :: a in before ==> a in acts;
    }
  }

  lemma {:induction false} RunKeepsRegisters(s: State, acts: seq<Action>)
    requires Shape(s) && RegistersOk(s)
    ensures RegistersOk(After(s, acts))
    decreases |acts|
  {
    hide Step, RegsOk;
    if acts != [] {
      RunKeepsRegisters(s, acts[..|acts| - 1]);
      StepKeepsRegisters(After(s, acts[..|acts| - 1]), acts[|acts| - 1]);
    }
  }

  lemma {:induction false} RunKeepsCounts(s: State, acts: seq<Action>)
    requires Shape(s) && Handshake(s) && Conserved(s)
    ensures Handshake(After(s, acts)) && Conserved(After(s, acts))
    decreases |acts|
  {
    hide Step, Handshake, Conserved;
    if acts != [] {
      RunKeepsCounts(s, acts[..|acts| - 1]);
      StepKeepsHandshake(After(s, acts[..|acts| - 1]), acts[|acts| - 1]);
      StepConserves(After(s, acts[..|acts| - 1]), acts[|acts| - 1]);
    }
  }

  // ---- every run from the start ----

  lemma InitRegisters(mem: Mem)
    ensures RegistersOk(Init(mem))
  {
    hide Reset, RegsOk;
    forall c | 0 <= c < CORES
      ensures RegsOk(c, Init(mem).cores[c].regs)
    {
      ResetOk(c, Regs(0, 0, 0, 0, 0, 0, 0, 0, 0, 0, 0));
    }
  }

  /** After any run, every register of every core is inside its fields and the link words agree, the
      cursors are inside their rings, and the table addresses are aligned. */
  lemma RegistersOnEveryRun(mem: Mem, acts: seq<Action>, c: nat)
    requires c < CORES
    ensures var d := After(Init(mem), acts).cores[c];
            d.id == c && d.txdCur < TX_SLOTS && d.rxdCur < RX_SLOTS && RegsOk(c, d.regs)
  {
    hide RegsOk, After, Init;
    InitRegisters(mem);
    RunKeepsRegisters(Init(mem), acts);
  }

  /** After any run, the data packets sent are those whose descriptors have been released, in order,
      and at most one more: that of the transmission between its send and its release. Every
      acknowledgement that came during a wait has released one descriptor, or is about to. */
  lemma HandshakeOnEveryRun(mem: Mem, acts: seq<Action>)
    ensures var s := After(Init(mem), acts);
            && DataIds(s.out) == ReleasedCores(s.log) + InFlightCores(s.phase)
            && |DataIds(s.out)| - |ReleasedCores(s.log)| == (if InFlight(s.phase) then 1 else 0)
            && AwaitedAcks(s.log) == |ReleasedCores(s.log)| + (if s.phase.Woken? then 1 else 0)
            && AwaitedAcks(s.log) <= Acks(s.log)
  {
    hide After;
    hide Reset;
    assert Handshake(Init(mem)) && Conserved(Init(mem));
    RunKeepsCounts(Init(mem), acts);
    hide Init, DataIds, ReleasedCores, AwaitedAcks, Acks;
  }

  /** After any run, the interrupts a core has raised are exactly the released and filled descriptors
      that ask for one while TI is set and the accepted time codes while TQ is set. */
  lemma InterruptsOnEveryRun(mem: Mem, acts: seq<Action>, c: nat)
    requires c < CORES
    ensures var s := After(Init(mem), acts); s.cores[c].irqs == Interrupts(s.log, c)
  {
    hide After;
    hide Reset;
    assert Handshake(Init(mem)) && Conserved(Init(mem));
    RunKeepsCounts(Init(mem), acts);
  }

  /** From the start on, the select fields equal the cursors as long as the guest moves no table, and
      the tables stay where they are. */
  lemma AlignedOnRuns(mem: Mem, acts: seq<Action>, more: seq<Action>, c: nat)
    requires c < CORES
    ensures var s, s' := After(Init(mem), acts), After(After(Init(mem), acts), more);
            && ((forall a :: a in more ==> !Moves(a, c, 0x28)) ==>
                  TableBase(s'.cores[c].regs.txd) == TableBase(s.cores[c].regs.txd)
                      && (acts == [] || TxAligned(s.cores[c]) ==> TxAligned(s'.cores[c])))
            && ((forall a :: a in more ==> !Moves(a, c, 0x2C)) ==>
                  TableBase(s'.cores[c].regs.rxd) == TableBase(s.cores[c].regs.rxd)
                      && (acts == [] || RxAligned(s.cores[c]) ==> RxAligned(s'.cores[c])))
  {
    var s := After(Init(mem), acts);
    if acts == [] {
      assert s == Init(mem);
      assert TxAligned(s.cores[c]) && RxAligned(s.cores[c]);
    }
    hide After, Init, RegsOk, TableBase, Moves;
    InitRegisters(mem);
    RunKeepsRegisters(Init(mem), acts);
    RunKeepsTables(s, more, c);
  }

  // ---- a transmission across its wait ----

  predicate Flying(s: State, c: nat, p: Pending, desc: TxDescr)
    requires Shape(s)
  {
    InFlight(s.phase) && s.phase.core == c && s.phase.pending == p && s.cores[c].txdMap[p.slot] == desc
  }

  lemma {:induction false} StaysFlying(s: State, acts: seq<Action>, c: nat, p: Pending, desc: TxDescr)
    requires Shape(s) && Flying(s, c, p, desc) && TxSecond !in acts
    ensures Flying(After(s, acts), c, p, desc)
    decreases |acts|
  {
    if acts != [] {
      hide WriteRegister, TxBegin, TxFinishDev, RxDev, RxMem, RxTimecode, Delivers, ReadWord, SentTimecode;
      hide Timecodes, TxFinishMem;
      var before, a := acts[..|acts| - 1], acts[|acts| - 1];
      StaysFlying(s, before, c, p, desc);
      assert a in acts;
    }
  }

  /** Whatever happens between the send and the release, the release writes back the control word the
      transmission read, with the enable bit cleared, where it read it. */
  lemma ReleaseAcrossWait(s: State, acts: seq<Action>)
    requires Shape(s) && s.phase.Calling? && TxSecond !in acts
    ensures var s1, d := After(Step(s, TxFirst), acts), s.cores[s.phase.core];
            var desc := TxLoad(s.mem, d.regs.txd);
            Step(s, TxFirst).phase.Sent? && s1.phase.Woken? && !s1.exited ==>
              && desc.Enabled() && !desc.Released().Enabled()
              && Step(s1, TxSecond).mem == WriteWord(s1.mem, d.regs.txd, desc.Released().ctrl)
  {
    hide TxBegin, TxFinishDev, After, TxDescr.Enabled, TxDescr.Released, WriteWord, ReadWord, TxLoad;
    hide Packet.FrameLength;
    var d, m := s.cores[s.phase.core], s.mem;
    BeginLoads(d, m);
    var desc := TxLoad(m, d.regs.txd);
    TxReleasedExact(desc);
    if Step(s, TxFirst).phase.Sent? {
      StaysFlying(Step(s, TxFirst), acts, s.phase.core, Pending(d.txdCur, d.regs.txd), desc);
    }
  }

  lemma BeginLoads(d: Dev, m: Mem)
    requires DevOk(d)
    ensures var r := TxBegin(d, m);
            r.Started? ==>
              r.pending == Pending(d.txdCur, d.regs.txd) && r.dev.txdMap[d.txdCur] == TxLoad(m, d.regs.txd)
                  && TxLoad(m, d.regs.txd).Enabled()
  {
    hide CheckBit, SetBit, ClearBit, ReadWord, TxDescr.Enabled, TxDescr.Wraps, TxSelect;
  }

  lemma AfterMore(s: State, acts: seq<Action>, a: Action)
    requires Shape(s)
    ensures After(s, acts + [a]) == Step(After(s, acts), a)
  {
    assert (acts + [a])[..|acts|] == acts;
  }

  /** An access that nothing else interrupts: the register write and a whole call of txenable. */
  lemma UninterruptedAccess(s: State, addr: nat, v: word, id: nat, packet: RxPacket)
    requires Shape(s) && s.phase.Idle? && !s.exited && id < CORES
    ensures var c, w := CoreOf(addr), DoWrite(s, addr, v);
            var r := TxEnable(w.cores[c], w.mem);
            var after := w.(cores := w.cores[c := r.dev], mem := r.mem, out := w.out + r.sent, phase := Idle);
            if r.stop then After(s, [GuestWrite(addr, v), TxFirst]) == after
            else if r.sent[0].FrameLength() > MAX_MESSAGE
                then After(s, [GuestWrite(addr, v), TxFirst]) == w.(exited := true)
            else
              var s' := After(s, [GuestWrite(addr, v), TxFirst, EnterWait, Receive(id, ACK, packet), TxSecond]);
              s' == after.(log := s'.log)
  {
    hide WriteRegister, TxBegin, TxFinishDev, ReadWord, SentTimecode, Timecodes, TxFinishMem, Packet.FrameLength;
    var c, w := CoreOf(addr), DoWrite(s, addr, v);
    var a := [GuestWrite(addr, v)];
    var b := a + [TxFirst];
    var e := b + [EnterWait];
    var f := e + [Receive(id, ACK, packet)];
    assert After(s, []) == s && [] + a == a;
    AfterMore(s, [], GuestWrite(addr, v));
    AfterMore(s, a, TxFirst);
    AfterMore(s, b, EnterWait);
    AfterMore(s, e, Receive(id, ACK, packet));
    AfterMore(s, f, TxSecond);
    assert f + [TxSecond] == [GuestWrite(addr, v), TxFirst, EnterWait, Receive(id, ACK, packet), TxSecond];
    hide After;
  }

  predicate IsAck(a: Action) {
    a.Receive? && a.pword == ACK
  }

  lemma {:induction false} WaitsForAck(s: State, acts: seq<Action>)
    requires Shape(s) && s.phase.Waiting? && forall a :: a in acts ==> !IsAck(a)
    ensures After(s, acts).phase == s.phase
    decreases |acts|
  {
    hide WriteRegister, TxBegin, TxFinishDev, RxDev, RxMem, RxTimecode, Delivers, ReadWord, SentTimecode;
    hide Timecodes, TxFinishMem;
    if acts != [] {
      var before, last := acts[..|acts| - 1], acts[|acts| - 1];
      assert last in acts && forall a :: a in before ==> a in acts;
      WaitsForAck(s, before);
    }
  }

  // ---- a transmission can happen ----

  lemma EnableSets(chn: word, v: word)
    requires CheckBit(v, CHN_TE) && !CheckBit(v, CHN_AT)
    ensures CheckBit(WriteChn(chn, v), CHN_TE)
  {
  }

  lemma WriteToChannel(c: nat, v: word, mem: Mem)
    requires c < CORES
    ensures var s := Init(mem);
            var r := s.cores[c].regs;
            Step(s, GuestWrite(0x100 * c + 0x20, v))
            == s.(cores := s.cores[c := s.cores[c].(regs := r.(chn := WriteChn(r.chn, v)))], phase := Calling(c))
  {
    hide Reset, WriteChn, WriteCtr, WriteStr;
    var s, addr := Init(mem), 0x100 * c + 0x20;
    assert CoreOf(addr) == c && OffsetOf(addr) == 0x20;
    assert s.out + Timecodes(c, []) == s.out;
  }

  /** From the initial state, enabling the transmitter of a core whose first descriptor, at address 0,
      is enabled and fits the queue sends the packet of that descriptor. */
  lemma TransmissionStarts(c: nat, v: word, mem: Mem)
    requires c < CORES && CheckBit(v, CHN_TE) && !CheckBit(v, CHN_AT)
    requires TxLoad(mem, 0).Enabled() && PacketOf(c, TxLoad(mem, 0), mem).FrameLength() <= MAX_MESSAGE
    ensures var s := After(Init(mem), [GuestWrite(0x100 * c + 0x20, v), TxFirst]);
            s.phase == Sent(c, Pending(0, 0)) && s.out == [PacketOf(c, TxLoad(mem, 0), mem)] && TxAligned(s.cores[c])
  {
    hide CheckBit, WriteChn, SetBit, TxLoad, PacketOf, TxDescr.Enabled, TxDescr.Wraps, Packet.FrameLength;
    hide TxSelect, Reset, TableBase;
    var s, a := Init(mem), GuestWrite(0x100 * c + 0x20, v);
    assert After(s, []) == s && [] + [a] == [a] && [a] + [TxFirst] == [a, TxFirst];
    AfterMore(s, [], a);
    AfterMore(s, [a], TxFirst);
    WriteToChannel(c, v, mem);
    EnableSets(s.cores[c].regs.chn, v);
    ResetAddress(c);
    var w := Step(s, a);
    BeginAligns(w.cores[c], mem);
    hide After, Init;
  }

  lemma ResetAddress(c: nat)
    ensures InitCore(c).regs.txd == 0 && InitCore(c).txdCur == 0
  {
  }
}
