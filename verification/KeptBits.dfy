/** The bits that the documentation of the register write says can be set at will and unset at will, or
    unset only by a reset, over steps and runs of the device: what really clears them. */
module KeptBits {
  import opened BitOps
  import opened Leon3Ram
  import opened Messages
  import opened Registers
  import opened Dma
  import opened System
  import opened Runs

  /** A guest write that goes through to a register of core c. */
  predicate Writes(s: State, a: Action, c: nat, offset: nat) {
    !s.exited && s.phase.Idle? && a.GuestWrite? && CoreOf(a.addr) == c && OffsetOf(a.addr) == offset
  }

  function NotResetBits(chn: word): word {
    chn & CHN_NOTRESET
  }

  // ---- what a step does to SPWCTR and to the kept bits of SPWCHN ----

  lemma WriteWords(id: nat, r: Regs, offset: nat, v: word)
    ensures var r' := WriteRegister(id, r, offset, v);
            && r'.ctr == (if offset == 0x00 then WriteCtr(id, r, v).ctr else r.ctr)
            && NotResetBits(r'.chn) == if offset == 0x20 then NotResetBits(v) else NotResetBits(r.chn)
  {
    hide WriteCtr, WriteChn, WriteStr, NotResetBits, CtrMerge, CheckBit;
    WriteCtrFrame(id, r, v);
    ResetKeepsChannel(id, CtrBits(r, v));
    ChannelTakesValue(r.chn, v);
  }

  lemma ResetKeepsChannel(id: nat, r: Regs)
    ensures NotResetBits(Reset(id, r).chn) == NotResetBits(r.chn)
  {
  }

  lemma ChannelTakesValue(chn: word, v: word)
    ensures NotResetBits(WriteChn(chn, v)) == NotResetBits(v)
  {
    WriteChnByClass(chn, v);
    hide WriteChn;
    PartOf(WriteChn(chn, v), v);
  }

  lemma PartOf(a: word, v: word)
    ensures a & (CHN_CLEARSET | CHN_NOTRESET) == v & (CHN_CLEARSET | CHN_NOTRESET) ==>
        NotResetBits(a) == NotResetBits(v)
  {
  }

  lemma ChannelOps(chn: word)
    ensures NotResetBits(SetBit(chn, CHN_PS)) == NotResetBits(chn)
        && NotResetBits(SetBit(chn, CHN_PR)) == NotResetBits(chn)
    ensures NotResetBits(ClearBit(chn, CHN_TE)) == NotResetBits(chn)
        && NotResetBits(ClearBit(chn, CHN_RD)) == NotResetBits(chn)
  {
  }

  /** Same control word, same kept bits of the channel word. */
  predicate SameKept(d: Dev, d': Dev) {
    d'.regs.ctr == d.regs.ctr && NotResetBits(d'.regs.chn) == NotResetBits(d.regs.chn)
  }

  lemma BeginKeepsBits(d: Dev, m: Mem)
    requires DevOk(d)
    ensures SameKept(d, TxBegin(d, m).dev)
  {
    hide CheckBit, SetBit, ClearBit, NotResetBits, ReadWord, TxDescr.Enabled, TxDescr.Wraps, TxSelect;
    ChannelOps(d.regs.chn);
  }

  lemma FinishKeepsBits(d: Dev, p: Pending)
    requires DevOk(d) && p.slot < TX_SLOTS
    ensures SameKept(d, TxFinishDev(d, p))
  {
    hide CheckBit, NotResetBits, TxDescr.Released, TxDescr.Interrupts;
  }

  lemma RxKeepsBits(d: Dev, m: Mem, p: RxPacket)
    requires DevOk(d)
    ensures SameKept(d, RxDev(d, m, p)) && SameKept(d, RxTimecode(d, p.first))
  {
    hide CheckBit, SetBit, ClearBit, NotResetBits, ReadWord, RxSelect, EepStr, RxWriteBack;
    hide RxDescr.Enabled, RxDescr.Wraps, RxDescr.Interrupts;
    ChannelOps(d.regs.chn);
  }

  /** Only a SPWCTR write changes SPWCTR, and only a SPWCHN write changes the kept bits of SPWCHN. */
  lemma StepWords(s: State, a: Action, c: nat)
    requires Shape(s) && c < CORES
    ensures var d, d' := s.cores[c], Step(s, a).cores[c];
            && d'.regs.ctr == (if Writes(s, a, c, 0x00) then WriteCtr(c, d.regs, a.value).ctr else d.regs.ctr)
            && NotResetBits(d'.regs.chn)
               == if Writes(s, a, c, 0x20) then NotResetBits(a.value) else NotResetBits(d.regs.chn)
  {
    hide WriteCtr, WriteRegister, TxBegin, TxFinishDev, RxDev, RxMem, RxTimecode, Delivers, ReadWord, SentTimecode,
        Timecodes;
    hide TxFinishMem, NotResetBits, Packet.FrameLength;
    match a
    case GuestWrite(addr, v) => WriteWords(CoreOf(addr), s.cores[CoreOf(addr)].regs, OffsetOf(addr), v);
    case TxFirst =>
      if s.phase.Calling? { BeginKeepsBits(s.cores[s.phase.core], s.mem); }
    case TxSecond =>
      if s.phase.Woken? { FinishKeepsBits(s.cores[s.phase.core], s.phase.pending); }
    case Receive(id, _, p) =>
      if id < CORES { RxKeepsBits(s.cores[id], s.mem, p); }
    case _ =>
  }

  // ---- SPWCTR ----

  /** A step sets Autostart exactly if it is a write of it, and none clears it. It clears Link Start exactly
      if it is a SPWCTR write with Link Disable, and Link Disable exactly if it is a SPWCTR write with
      Link Start; a reset clears neither. */
  lemma LinkBitsStep(s: State, a: Action, c: nat)
    requires Shape(s) && c < CORES
    ensures var b, b' := LinkBitsOf(s.cores[c].regs.ctr), LinkBitsOf(Step(s, a).cores[c].regs.ctr);
            && (b'.autostart <==> b.autostart || (Writes(s, a, c, 0x00) && LinkBitsOf(a.value).autostart))
            && (b.start ==> (!b'.start <==> Writes(s, a, c, 0x00) && LinkBitsOf(a.value).disable))
            && (b.disable ==> (!b'.disable <==> Writes(s, a, c, 0x00) && LinkBitsOf(a.value).start))
  {
    hide Step, WriteCtr, LinkBitsOf, CheckBit, NotResetBits;
    StepWords(s, a, c);
    if a.GuestWrite? {
      WriteCtrLinkBits(c, s.cores[c].regs, a.value);
    }
  }

  /** Autostart, once set, is set for good: no sequence of actions clears it, resets included. */
  lemma {:induction false} AutostartStays(s: State, acts: seq<Action>, c: nat)
    requires Shape(s) && c < CORES && CheckBit(s.cores[c].regs.ctr, CTR_AS)
    ensures CheckBit(After(s, acts).cores[c].regs.ctr, CTR_AS)
    decreases |acts|
  {
    hide Step, CheckBit;
    if acts != [] {
      AutostartStays(s, acts[..|acts| - 1], c);
      LinkBitsStep(After(s, acts[..|acts| - 1]), acts[|acts| - 1], c);
    }
  }

  /** A write that resets core c. */
  predicate Resets(a: Action, c: nat) {
    a.GuestWrite? && CoreOf(a.addr) == c && OffsetOf(a.addr) == 0x00 && CheckBit(a.value, CTR_RS)
  }

  /** The set/clear bits of SPWCTR can only be added to, whatever is written, until a reset. */
  lemma {:induction false} SetClearGrows(s: State, acts: seq<Action>, c: nat)
    requires Shape(s) && c < CORES && forall a :: a in acts ==> !Resets(a, c)
    ensures UnsetsNothing(s.cores[c].regs.ctr, After(s, acts).cores[c].regs.ctr)
    decreases |acts|
  {
    hide Step, UnsetsNothing, WriteCtr, CheckBit, SetClearBits, NotResetBits;
    if acts == [] {
      UnsetsItself(s.cores[c].regs.ctr);
    } else {
      var before, last := acts[..|acts| - 1], acts[|acts| - 1];
      assert last in acts && forall a :: a in before ==> a in acts;
      SetClearGrows(s, before, c);
      var t := After(s, before);
      StepWords(t, last, c);
      if Writes(t, last, c, 0x00) {
        WriteCtrSetClear(c, t.cores[c].regs, last.value);
        AddsTo(s.cores[c].regs.ctr, t.cores[c].regs.ctr, last.value, WriteCtr(c, t.cores[c].regs, last.value).ctr);
      }
    }
  }

  lemma UnsetsItself(ctr: word)
    ensures UnsetsNothing(ctr, ctr)
  {
  }

  lemma AddsTo(a: word, b: word, v: word, c: word)
    requires UnsetsNothing(a, b) && SetClearBits(c) == SetClearBits(b | v)
    ensures UnsetsNothing(a, c)
  {
  }

  // ---- SPWCHN ----

  /** The bits TI, RI and AI of SPWCHN. A step clears one that is set exactly if it is a SPWCHN write with 0
      in it; a reset keeps it. */
  lemma ChannelBitStep(s: State, a: Action, c: nat, bit: word)
    requires Shape(s) && c < CORES && (bit == CHN_TI || bit == CHN_RI || bit == CHN_AI)
    ensures var d, d' := s.cores[c], Step(s, a).cores[c];
            CheckBit(d.regs.chn, bit) ==>
              (!CheckBit(d'.regs.chn, bit) <==> Writes(s, a, c, 0x20) && !CheckBit(a.value, bit))
  {
    hide Step, CheckBit, NotResetBits, WriteCtr;
    StepWords(s, a, c);
    var chn, chn' := s.cores[c].regs.chn, Step(s, a).cores[c].regs.chn;
    BitOfKept(chn, bit);
    BitOfKept(chn', bit);
    if a.GuestWrite? {
      BitOfKept(a.value, bit);
    }
  }

  lemma BitOfKept(chn: word, bit: word)
    requires bit == CHN_TI || bit == CHN_RI || bit == CHN_AI
    ensures CheckBit(chn, bit) == CheckBit(NotResetBits(chn), bit)
  {
  }

  // ---- from the initial state ----

  lemma IdleWrite(s: State, addr: nat, v: word)
    requires Shape(s) && s.phase.Idle? && !s.exited
    requires !CheckBit(WriteRegister(CoreOf(addr), s.cores[CoreOf(addr)].regs, OffsetOf(addr), v).chn, CHN_TE)
    ensures var c, t := CoreOf(addr), After(s, [GuestWrite(addr, v), TxFirst]);
            t == s.(cores := s.cores[c := WriteDev(s.cores[c], OffsetOf(addr), v)], out := t.out)
  {
    hide CheckBit, WriteRegister, SentTimecode, Timecodes;
    var c, a := CoreOf(addr), GuestWrite(addr, v);
    assert After(s, []) == s && [] + [a] == [a] && [a] + [TxFirst] == [a, TxFirst];
    AfterMore(s, [], a);
    AfterMore(s, [a], TxFirst);
    hide After;
  }

  /** Without TE set, a SPWCTR write does not set it. */
  lemma StillOff(id: nat, r: Regs, v: word)
    requires !CheckBit(r.chn, CHN_TE)
    ensures !CheckBit(WriteCtr(id, r, v).chn, CHN_TE)
  {
    WriteCtrFrame(id, r, v);
    ResetOff(id, CtrBits(r, v));
    hide CheckBit, Reset, WriteCtr, CtrMerge;
  }

  lemma ResetOff(id: nat, r: Regs)
    ensures !CheckBit(Reset(id, r).chn, CHN_TE)
  {
  }

  /** Two SPWCTR writes from the initial state. */
  lemma TwoWrites(mem: Mem, c: nat, v: word, w: word)
    requires c < CORES
    ensures var t := After(After(Init(mem), [GuestWrite(0x100 * c, v), TxFirst]), [GuestWrite(0x100 * c, w), TxFirst]);
            t.phase.Idle? && !t.exited && t.cores[c].regs == WriteCtr(c, WriteCtr(c, InitCore(c).regs, v), w)
  {
    hide After, WriteCtr, CheckBit, InitCore;
    assert CoreOf(0x100 * c) == c && OffsetOf(0x100 * c) == 0x00;
    var s := Init(mem);
    InitIdle(mem, c);
    StillOff(c, s.cores[c].regs, v);
    IdleWrite(s, 0x100 * c, v);
    var on := After(s, [GuestWrite(0x100 * c, v), TxFirst]);
    StillOff(c, on.cores[c].regs, w);
    IdleWrite(on, 0x100 * c, w);
  }

  /** From the initial state of any core: open packet mode is written, then 0, and it is still set. */
  lemma OpenPacketModeStays(mem: Mem, c: nat)
    requires c < CORES
    ensures var on := After(Init(mem), [GuestWrite(0x100 * c, CTR_OPM), TxFirst]);
            var off := After(on, [GuestWrite(0x100 * c, 0), TxFirst]);
            off.phase.Idle? && !off.exited && CheckBit(off.cores[c].regs.ctr, CTR_OPM)
  {
    hide After, WriteCtr, CheckBit, SetClearBits, Init, InitCore;
    TwoWrites(mem, c, CTR_OPM, 0);
    NoReset();
    var r := InitCore(c).regs;
    var r1 := WriteCtr(c, r, CTR_OPM);
    WriteCtrSetClear(c, r, CTR_OPM);
    WriteCtrSetClear(c, r1, 0);
    OpenModeKept(r.ctr, r1.ctr, WriteCtr(c, r1, 0).ctr);
  }

  /** From the initial state of any core: Autostart is written, then a reset, and it is still set. */
  lemma AutostartSurvivesReset(mem: Mem, c: nat)
    requires c < CORES
    ensures var on := After(Init(mem), [GuestWrite(0x100 * c, CTR_AS), TxFirst]);
            var off := After(on, [GuestWrite(0x100 * c, CTR_RS), TxFirst]);
            off.phase.Idle? && !off.exited && CheckBit(off.cores[c].regs.ctr, CTR_AS)
  {
    hide After, WriteCtr, CheckBit, Init, InitCore;
    TwoWrites(mem, c, CTR_AS, CTR_RS);
    var r := InitCore(c).regs;
    WriteCtrLinkBits(c, r, CTR_AS);
    WriteCtrLinkBits(c, WriteCtr(c, r, CTR_AS), CTR_RS);
    AutostartItself();
  }

  lemma AutostartItself()
    ensures CheckBit(CTR_AS, CTR_AS)
  {
  }

  /** From the initial state of any core: TI is written in SPWCHN, then SPWCTR resets the core, and it is
      still set. */
  lemma InterruptEnableSurvivesReset(mem: Mem, c: nat)
    requires c < CORES
    ensures var on := After(Init(mem), [GuestWrite(0x100 * c + 0x20, CHN_TI), TxFirst]);
            var off := After(on, [GuestWrite(0x100 * c, CTR_RS), TxFirst]);
            off.phase.Idle? && !off.exited && CheckBit(off.cores[c].regs.chn, CHN_TI)
  {
    hide After, WriteCtr, WriteChn, CheckBit, InitCore, NotResetBits;
    var s, a, b := Init(mem), 0x100 * c + 0x20, 0x100 * c;
    assert CoreOf(a) == c && OffsetOf(a) == 0x20 && CoreOf(b) == c && OffsetOf(b) == 0x00;
    InitIdle(mem, c);
    EnableOnly(InitCore(c).regs.chn);
    IdleWrite(s, a, CHN_TI);
    var on := After(s, [GuestWrite(a, CHN_TI), TxFirst]);
    StillOff(c, on.cores[c].regs, CTR_RS);
    IdleWrite(on, b, CTR_RS);
    WriteWords(c, on.cores[c].regs, 0x00, CTR_RS);
    ChannelTakesValue(InitCore(c).regs.chn, CHN_TI);
    BitOfKept(WriteCtr(c, on.cores[c].regs, CTR_RS).chn, CHN_TI);
    BitOfKept(CHN_TI, CHN_TI);
    EnableItself();
  }

  lemma EnableItself()
    ensures CheckBit(CHN_TI, CHN_TI)
  {
  }

  lemma EnableOnly(chn: word)
    ensures !CheckBit(chn, CHN_TE) ==> !CheckBit(WriteChn(chn, CHN_TI), CHN_TE)
  {
  }

  lemma InitIdle(mem: Mem, c: nat)
    requires c < CORES
    ensures var s := Init(mem); s.phase.Idle? && !s.exited && !CheckBit(s.cores[c].regs.chn, CHN_TE)
  {
  }

  lemma NoReset()
    ensures !CheckBit(CTR_OPM, CTR_RS) && !CheckBit(0, CTR_RS)
  {
  }

  lemma OpenModeKept(a: word, b: word, c: word)
    requires SetClearBits(b) == SetClearBits(a | CTR_OPM) && SetClearBits(c) == SetClearBits(b | 0)
    ensures CheckBit(c, CTR_OPM)
  {
  }

  // ---- receive interrupts ----

  /** A RAM whose first receive descriptor is enabled and asks for an interrupt. */
  const ASKING: Mem := map[0 := 0x0A]

  /** Receiver on, descriptors available, receive interrupt enabled; TI is not. */
  const RECEIVE_INTERRUPT: word := 0x80A

  /** From the initial state of any core with that RAM: RI is set and TI is not, a packet is stored through a
      descriptor that asks for an interrupt, and none is raised. */
  lemma SilentReception(c: nat, p: RxPacket)
    requires c < CORES && p.first == 254
    ensures var s := After(Init(ASKING), [GuestWrite(0x100 * c + 0x20, RECEIVE_INTERRUPT), TxFirst]);
            var t, chn := Step(s, Receive(c, DATA, p)), s.cores[c].regs.chn;
            && CheckBit(chn, CHN_RI) && !CheckBit(chn, CHN_TI)
            && Delivers(s.cores[c], s.mem, p) && RxLoad(s.mem, s.cores[c].regs.rxd).Interrupts()
            && t.cores[c].irqs == 0
  {
    hide After, WriteChn, CheckBit, ReadWord, Step, RxDev, RxMem;
    var s, a := Init(ASKING), 0x100 * c + 0x20;
    assert CoreOf(a) == c && OffsetOf(a) == 0x20;
    InitReceive(c);
    InterruptWord();
    IdleWrite(s, a, RECEIVE_INTERRUPT);
    var on := After(s, [GuestWrite(a, RECEIVE_INTERRUPT), TxFirst]);
    AskingWord();
    assert RxLoad(ASKING, 0).Enabled() && RxLoad(ASKING, 0).Interrupts();
    assert Delivers(on.cores[c], on.mem, p);
    NotRaised(on.cores[c], on.mem, p);
    ReceivedBy(on, c, p);
  }

  lemma InitReceive(c: nat)
    ensures var d := InitCore(c); d.irqs == 0 && d.regs.rxd == 0 && d.regs.ndr == 254 && d.regs.chn == 0
  {
  }

  lemma InterruptWord()
    ensures var chn := WriteChn(0, RECEIVE_INTERRUPT);
            && CheckBit(chn, CHN_RE) && CheckBit(chn, CHN_RD) && CheckBit(chn, CHN_RI)
            && !CheckBit(chn, CHN_TI) && !CheckBit(chn, CHN_TE)
  {
  }

  lemma AskingWord()
    ensures ReadWord(ASKING, 0) == 0x0A00_0000
  {
    hide ReadWord, At;
    ReadWordIs(ASKING, 0);
    AskingBytes();
  }

  lemma AskingBytes()
    ensures At(ASKING, 0) == 0x0A && At(ASKING, 1) == 0 && At(ASKING, 2) == 0 && At(ASKING, 3) == 0
  {
  }

  lemma NotRaised(d: Dev, m: Mem, p: RxPacket)
    requires DevOk(d) && !CheckBit(d.regs.chn, CHN_TI)
    ensures RxDev(d, m, p).irqs == d.irqs
  {
    hide CheckBit, SetBit, ClearBit, ReadWord, RxSelect, EepStr, RxAccepts, RxWriteBack, Delivered;
    hide RxDescr.Enabled, RxDescr.Wraps, RxDescr.Interrupts;
  }

  lemma ReceivedBy(s: State, c: nat, p: RxPacket)
    requires Shape(s) && !s.exited && c < CORES
    ensures Step(s, Receive(c, DATA, p)).cores[c] == RxDev(s.cores[c], s.mem, p)
  {
    hide RxDev, RxMem, ReadWord, Delivers;
  }

  // ---- frames ----

  /** A RAM whose first transmit descriptor asks for a header of one byte, at address 0, and no data. */
  const MISREAD: Mem := map[2 := 0x10, 3 := 1]

  /** From the initial state with that RAM, enabling the transmitter of core 0 sends a frame that no
      receiver decodes to the packet sent, whatever its buffer held before. */
  lemma FrameMisread(gap: byte, old_rx: seq<byte>)
    requires |old_rx| == BUFFER
    ensures var out, p := After(Init(MISREAD), [GuestWrite(0x20, CHN_TE), TxFirst]).out, Packet(0, DATA, [0], []);
            out == [p] && p.Fits() && Decode(Refill(old_rx, Frame(p, gap))) != Received(p)
  {
    hide After, Decode, Refill, Frame;
    MisreadDescriptor();
    TransmissionOn();
    TransmissionStarts(0, CHN_TE, MISREAD);
    FramingRoundTrip(Packet(0, DATA, [0], []), gap, old_rx);
  }

  lemma TransmissionOn()
    ensures CheckBit(CHN_TE, CHN_TE) && !CheckBit(CHN_TE, CHN_AT)
  {
  }

  lemma MisreadBytes(a: nat)
    ensures At(MISREAD, a) == if a == 2 then 0x10 else if a == 3 then 1 else 0
  {
  }

  lemma MisreadWords()
    ensures ReadWord(MISREAD, 0) == 0x1001 && ReadWord(MISREAD, 4) == 0 && ReadWord(MISREAD, 8) == 0
        && ReadWord(MISREAD, 12) == 0
  {
    hide At, WordOf, ReadWord;
    MisreadWord(0);
    MisreadWord(4);
    MisreadWord(8);
    MisreadWord(12);
    WordValues();
  }

  lemma MisreadWord(a: nat)
    requires a % 4 == 0
    ensures ReadWord(MISREAD, a) == if a == 0 then WordOf(0, 0, 0x10, 1) else WordOf(0, 0, 0, 0)
  {
    hide At, WordOf, ReadWord;
    ReadWordIs(MISREAD, a);
    MisreadBytes(a);
    MisreadBytes(a + 1);
    MisreadBytes(a + 2);
    MisreadBytes(a + 3);
  }

  lemma WordValues()
    ensures WordOf(0, 0, 0x10, 1) == 0x1001 && WordOf(0, 0, 0, 0) == 0
  {
  }

  lemma MisreadDescriptor()
    ensures TxLoad(MISREAD, 0).Enabled() && PacketOf(0, TxLoad(MISREAD, 0), MISREAD) == Packet(0, DATA, [0], [])
  {
    hide ReadWord, At;
    MisreadWords();
    MisreadBytes(0);
    assert TxLoad(MISREAD, 0) == TxDescr(0x1001, 0, 0, 0);
    assert Read(MISREAD, 0, 1) == [0] && Read(MISREAD, 0, 0) == [];
  }
}
