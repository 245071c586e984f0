/** The transmissions and receptions of a core told from the bytes of the RAM and the bits of the registers,
    with no function of the device in between (grlib_comgrspw.c). */
module DmaBytes {
  import opened BitOps
  import opened Leon3Ram
  import opened Messages
  import opened Registers
  import opened Dma
  import opened Rings
  import opened System
  import R = Runs

  /** The word at an address, most significant byte first. */
  function WordAt(m: Mem, a: nat): uint32 {
    0x100_0000 * At(m, a) as int + 0x1_0000 * At(m, a + 1) as int + 0x100 * At(m, a + 2) as int + At(m, a + 3) as int
  }

  /** Bit k of a number, told by its weight. */
  predicate Bit(w: nat, weight: nat)
    requires weight > 0
  {
    w / weight % 2 == 1
  }

  lemma WordAtIs(m: Mem, a: nat)
    ensures ReadWord(m, a) == WordAt(m, a)
  {
    ReadWordIs(m, a);
    hide ReadWord;
  }

  // ---- transmission ----

  /** A packet whose header and data are bytes of the RAM. */
  predicate Carries(p: Packet, id: nat, m: Mem, headerAddr: nat, headerLen: nat, dataAddr: nat, dataLen: nat) {
    && p.id == id && p.pword == 1 && |p.header| == headerLen && |p.data| == dataLen
    && (forall i :: 0 <= i < headerLen ==> p.header[i] == At(m, headerAddr + i))
    && (forall i :: 0 <= i < dataLen ==> p.data[i] == At(m, dataAddr + i))
  }

  lemma PacketCarries(id: nat, desc: TxDescr, m: Mem)
    ensures Carries(PacketOf(id, desc, m), id, m, desc.headerAddr, desc.ctrl % 0x100, desc.dataAddr,
        desc.len % 0x100_0000)
  {
  }

  lemma EnableBits(chn: word)
    ensures CheckBit(chn, CHN_TE) <==> chn & 0x1 != 0
    ensures CheckBit(chn, CHN_RE) <==> chn & 0x2 != 0
    ensures CheckBit(chn, CHN_TI) <==> chn & 0x4 != 0
    ensures CheckBit(chn, CHN_RD) <==> chn & 0x800 != 0
  {
  }

  lemma SentBits(chn: word)
    ensures SetBit(chn, CHN_PS) == chn | 0x20
    ensures ClearBit(chn, CHN_TE) == chn & 0xFFFF_FFFE
  {
  }

  lemma ReceivedBits(chn: word)
    ensures SetBit(chn, CHN_PR) == PrSet(chn)
    ensures ClearBit(chn, CHN_RD) == chn & 0xFFFF_F7FF
  {
  }

  lemma ControlWords(ctr: word)
    ensures CheckBit(ctr, CTR_OPM) <==> ctr & 0x20 != 0
    ensures CheckBit(ctr, CTR_TQ) <==> ctr & 0x100 != 0
  {
  }

  /** The start of a transmission, up to the wait. With TE clear nothing happens; at a disabled descriptor
      TE is cleared; otherwise the packet the descriptor describes goes out, PS is set, and cursor and select
      field move on to the next slot. */
  lemma BeginByBytes(d: Dev, m: Mem)
    requires DevOk(d)
    ensures var s, a := TxBegin(d, m), d.regs.txd;
            var ctrl := WordAt(m, a);
            if d.regs.chn & 0x1 == 0 then s == Stopped(d)
            else if !Bit(ctrl, 0x1000) then
              s == Stopped(d.(txdMap := s.dev.txdMap, regs := d.regs.(chn := d.regs.chn & 0xFFFF_FFFE)))
            else
              && s.Started? && s.pending == Pending(d.txdCur, a)
              && Carries(s.packet, d.id, m, WordAt(m, a + 4), ctrl % 0x100, WordAt(m, a + 12),
                         WordAt(m, a + 8) % 0x100_0000)
              && s.dev.txdCur == Successor(d.txdCur, Bit(ctrl, 0x2000), 64)
              && s.dev == d.(txdMap := s.dev.txdMap, txdCur := s.dev.txdCur,
                             regs := d.regs.(chn := d.regs.chn | 0x20,
                                             txd := a - a % 0x400 + 16 * s.dev.txdCur + a % 16))
              && s.dev.txdMap[d.txdCur].ctrl == ctrl
  {
    hide CheckBit, SetBit, ClearBit, WordAt, PacketOf, Carries, Successor, Bit, TxLoad, TxSelect, TxDescr.Enabled;
    hide TxDescr.Wraps, TxDescr.Interrupts;
    EnableBits(d.regs.chn);
    SentBits(d.regs.chn);
    var desc := TxLoad(m, d.regs.txd);
    LoadByBytes(m, d.regs.txd);
    DescriptorBits(desc);
    PacketCarries(d.id, desc, m);
    NextIsSuccessor(d.txdCur, desc.Wraps(), 64);
    SelectByBytes(d.regs.txd, NextSlot(d.txdCur, desc.Wraps(), 64));
  }

  lemma LoadByBytes(m: Mem, a: nat)
    ensures TxLoad(m, a) == TxDescr(WordAt(m, a), WordAt(m, a + 4), WordAt(m, a + 8), WordAt(m, a + 12))
  {
    hide ReadWord, WordAt;
    WordAtIs(m, a);
    WordAtIs(m, a + 4);
    WordAtIs(m, a + 8);
    WordAtIs(m, a + 12);
  }

  lemma SelectByBytes(txd: uint32, cur: nat)
    requires cur < 64
    ensures TxSelect(txd, cur) == txd - txd % 0x400 + 16 * cur + txd % 16
  {
  }

  lemma DescriptorBits(desc: TxDescr)
    ensures desc.Enabled() <==> Bit(desc.ctrl, 0x1000)
    ensures desc.Wraps() <==> Bit(desc.ctrl, 0x2000)
    ensures desc.Interrupts() <==> Bit(desc.ctrl, 0x4000)
  {
  }

  /** The bytes outside the word at an address. */
  ghost predicate OtherBytesKept(m: Mem, m': Mem, a: nat) {
    forall x: nat {:trigger At(m', x)} :: !(a <= x < a + 4) ==> At(m', x) == At(m, x)
  }

  /** The end of a transmission: the control word the core has kept is written back with EN cleared, and an
      interrupt is raised if the descriptor asks for one and TI is set by then. */
  lemma FinishByBytes(d: Dev, m: Mem, p: Pending)
    requires DevOk(d) && p.slot < 64
    ensures var ctrl, d', m' := d.txdMap[p.slot].ctrl, TxFinishDev(d, p), TxFinishMem(d, m, p);
            && WordAt(m', p.addr) == (if Bit(ctrl, 0x1000) then ctrl - 0x1000 else ctrl)
            && OtherBytesKept(m, m', p.addr)
            && d' == d.(txdMap := d'.txdMap,
                        irqs := d.irqs + if Bit(ctrl, 0x4000) && d.regs.chn & 0x4 != 0 then 1 else 0)
  {
    hide CheckBit, ReadWord, WriteWord, WordAt, TxDescr.Interrupts, TxDescr.Enabled;
    var desc := d.txdMap[p.slot];
    EnableBits(d.regs.chn);
    TxReleasedExact(desc);
    WordAtIs(TxFinishMem(d, m, p), p.addr);
    ReadWritten(m, p.addr, desc.Released().ctrl);
    WordWriteFrame(m, p.addr, desc.Released().ctrl);
    DescriptorBits(desc);
  }

  /** A whole call of txenable. */
  lemma TransmitByBytes(d: Dev, m: Mem)
    requires DevOk(d)
    ensures var r, a := TxEnable(d, m), d.regs.txd;
            var ctrl := WordAt(m, a);
            if d.regs.chn & 0x1 == 0 then r == TxResult(d, m, [], true)
            else if !Bit(ctrl, 0x1000) then
              r == TxResult(d.(txdMap := r.dev.txdMap, regs := d.regs.(chn := d.regs.chn & 0xFFFF_FFFE)), m, [], true)
            else
              && !r.stop && |r.sent| == 1
              && Carries(r.sent[0], d.id, m, WordAt(m, a + 4), ctrl % 0x100, WordAt(m, a + 12),
                         WordAt(m, a + 8) % 0x100_0000)
              && r.dev.txdCur == Successor(d.txdCur, Bit(ctrl, 0x2000), 64)
              && r.dev == d.(txdMap := r.dev.txdMap, txdCur := r.dev.txdCur,
                             irqs := d.irqs + (if Bit(ctrl, 0x4000) && d.regs.chn & 0x4 != 0 then 1 else 0),
                             regs := d.regs.(chn := d.regs.chn | 0x20,
                                             txd := a - a % 0x400 + 16 * r.dev.txdCur + a % 16))
              && WordAt(r.mem, a) == ctrl - 0x1000 && OtherBytesKept(m, r.mem, a)
  {
    hide TxBegin, TxFinishDev, TxFinishMem, WordAt, Bit, Carries, Successor, OtherBytesKept;
    BeginByBytes(d, m);
    var s := TxBegin(d, m);
    if s.Started? {
      FinishByBytes(s.dev, m, s.pending);
      OtherBit(d.regs.chn);
    }
  }

  lemma OtherBit(chn: word)
    ensures (chn | 0x20) & 0x4 == chn & 0x4
  {
  }

  // ---- transmission as steps ----

  /** The step that starts a transmission: a frame of more than 1024 bytes ends the process. */
  lemma FirstByBytes(s: State)
    requires Shape(s) && s.phase.Calling? && !s.exited
    ensures var c, t := s.phase.core, Step(s, TxFirst);
            var d, a := s.cores[c], s.cores[c].regs.txd;
            var ctrl, n := WordAt(s.mem, a), WordAt(s.mem, a + 8) % 0x100_0000;
            && t.mem == s.mem && |t.cores| == 4 && (forall e :: 0 <= e < 4 && e != c ==> t.cores[e] == s.cores[e])
            && if d.regs.chn & 0x1 == 0 || !Bit(ctrl, 0x1000) then
                 t.out == s.out && t.phase.Idle? && !t.exited && t.cores[c].regs.chn & 0x1 == 0
               else if 7 + ctrl % 0x100 + n > 1024 then t == s.(exited := true)
               else
                 && !t.exited && t.phase == Sent(c, Pending(d.txdCur, a))
                 && |t.out| == |s.out| + 1 && t.out[..|s.out|] == s.out
                 && Carries(t.out[|s.out|], c, s.mem, WordAt(s.mem, a + 4), ctrl % 0x100, WordAt(s.mem, a + 12), n)
                 && t.cores[c].txdCur == Successor(d.txdCur, Bit(ctrl, 0x2000), 64)
  {
    hide TxBegin, WordAt, Bit, Successor;
    var c := s.phase.core;
    assert CoreOk(c, s.cores[c]);
    BeginByBytes(s.cores[c], s.mem);
    TeCleared(s.cores[c].regs.chn);
  }

  lemma TeCleared(chn: word)
    ensures (chn & 0xFFFF_FFFE) & 0x1 == 0
  {
  }

  /** Whatever happens at the wait, the resumption clears EN in the control word that was in the RAM at the
      start, stores it where it was read and changes no other byte; the interrupt is decided by TI as it is
      then. */
  lemma ReleaseByBytes(s: State, acts: seq<Action>)
    requires Shape(s) && s.phase.Calling? && !s.exited && TxSecond !in acts
    ensures var c, s1 := s.phase.core, After(Step(s, TxFirst), acts);
            var d, a, t := s1.cores[c], s.cores[c].regs.txd, Step(s1, TxSecond);
            var ctrl := WordAt(s.mem, a);
            Step(s, TxFirst).phase.Sent? && s1.phase.Woken? && !s1.exited ==>
              && WordAt(t.mem, a) == ctrl - 0x1000 && OtherBytesKept(s1.mem, t.mem, a)
              && t.phase.Idle? && t.out == s1.out
              && t.cores == s1.cores[c := t.cores[c]]
              && t.cores[c] == d.(txdMap := t.cores[c].txdMap,
                                  irqs := d.irqs + if Bit(ctrl, 0x4000) && d.regs.chn & 0x4 != 0 then 1 else 0)
  {
    hide TxBegin, TxFinishDev, TxFinishMem, After, WordAt, Bit, OtherBytesKept, ReadWord, Packet.FrameLength;
    var c, t := s.phase.core, Step(s, TxFirst);
    assert CoreOk(c, s.cores[c]);
    BeginByBytes(s.cores[c], s.mem);
    if t.phase.Sent? {
      var p := t.phase.pending;
      R.StaysFlying(t, acts, c, p, t.cores[c].txdMap[p.slot]);
      var s1 := After(t, acts);
      FinishByBytes(s1.cores[c], s1.mem, p);
    }
  }

  // ---- reception ----

  /** What keeps a packet out: RE clear, RD clear, or a first byte that is not the node address while open
      packet mode is off. */
  predicate KeptOut(r: Regs, first: byte) {
    r.chn & 0x2 == 0 || r.chn & 0x800 == 0 || (r.ctr & 0x20 == 0 && r.ndr != first as int)
  }

  lemma KeptOutIs(r: Regs, p: RxPacket)
    ensures KeptOut(r, p.first) <==> !RxAccepts(r, p) || !CheckBit(r.chn, CHN_RD)
  {
    hide CheckBit;
    EnableBits(r.chn);
    ControlWords(r.ctr);
  }

  /** A packet that is kept out changes nothing. */
  lemma RefusedByBytes(d: Dev, m: Mem, p: RxPacket)
    requires DevOk(d) && KeptOut(d.regs, p.first)
    ensures RxDev(d, m, p) == d && RxMem(d, m, p) == m
  {
    hide CheckBit, RxAccepts, KeptOut;
    KeptOutIs(d.regs, p);
  }

  lemma RxLoadByBytes(m: Mem, a: nat)
    ensures RxLoad(m, a) == RxDescr(WordAt(m, a), WordAt(m, a + 4))
  {
    hide ReadWord, WordAt;
    WordAtIs(m, a);
    WordAtIs(m, a + 4);
  }

  lemma Closes(d: Dev, m: Mem, p: RxPacket)
    requires DevOk(d) && !KeptOut(d.regs, p.first) && !Bit(WordAt(m, d.regs.rxd), 0x200_0000)
    ensures DecideRx(d, m, p) == RxShut(RxLoad(m, d.regs.rxd))
  {
    hide CheckBit, RxAccepts, KeptOut, RxLoad, WordAt, Bit, DeliverTo, RxDescr.Enabled;
    KeptOutIs(d.regs, p);
    RxLoadByBytes(m, d.regs.rxd);
    RxDescriptorBits(RxLoad(m, d.regs.rxd));
  }

  lemma ShutByBits(d: Dev, desc: RxDescr)
    requires DevOk(d)
    ensures var d' := RxEffect(d, RxShut(desc));
            d' == d.(rxdMap := d'.rxdMap, regs := d.regs.(chn := d.regs.chn & 0xFFFF_F7FF))
  {
    hide ClearBit;
    ReceivedBits(d.regs.chn);
  }

  /** A packet that comes to a disabled descriptor is lost and clears RD. */
  lemma ClosedByBytes(d: Dev, m: Mem, p: RxPacket)
    requires DevOk(d) && !KeptOut(d.regs, p.first) && !Bit(WordAt(m, d.regs.rxd), 0x200_0000)
    ensures var d' := RxDev(d, m, p);
            && RxMem(d, m, p) == m
            && d' == d.(rxdMap := d'.rxdMap, regs := d.regs.(chn := d.regs.chn & 0xFFFF_F7FF))
  {
    hide DecideRx, RxEffect, KeptOut, WordAt, Bit, RxLoad;
    Closes(d, m, p);
    ShutByBits(d, RxLoad(m, d.regs.rxd));
  }

  /** The receive limit: bits 2 to 24 of SPWRXL. */
  function Limit(rxl: uint32): nat {
    rxl % 0x200_0000 / 4 * 4
  }

  /** How many bytes of a packet are stored. */
  function StoredLength(r: Regs, p: RxPacket): nat {
    if |p.data| > Limit(r.rxl) then Limit(r.rxl) else |p.data|
  }

  lemma LimitIs(rxl: uint32)
    ensures Limit(rxl) == RxLimit(rxl)
  {
    var q, s := rxl / 0x200_0000, rxl % 0x200_0000;
    DivUnique(rxl, 4, 0x80_0000 * q + s / 4, s % 4);
  }

  /** The control word c of a stored packet, bit by bit: the length; EN clear; WR and IE as they were; the
      attributes and the truncation added to the flags there are. */
  predicate StoredControl(c: nat, ctrl: nat, length: nat, truncated: bool, p: RxPacket) {
    && c % 0x200_0000 == length && !Bit(c, 0x200_0000)
    && Bit(c, 0x400_0000) == Bit(ctrl, 0x400_0000) && Bit(c, 0x800_0000) == Bit(ctrl, 0x800_0000)
    && Bit(c, 0x1000_0000) == (Bit(ctrl, 0x1000_0000) || p.ep)
    && Bit(c, 0x2000_0000) == (Bit(ctrl, 0x2000_0000) || p.hc)
    && Bit(c, 0x4000_0000) == (Bit(ctrl, 0x4000_0000) || p.dc)
    && Bit(c, 0x8000_0000) == (Bit(ctrl, 0x8000_0000) || truncated)
  }

  lemma ControlByBytes(desc: RxDescr, length: nat, truncated: bool, p: RxPacket)
    requires length < 0x200_0000
    ensures StoredControl(RxControl(desc, length, truncated, p), desc.ctrl, length, truncated, p)
  {
    RxControlExact(desc, length, truncated, p);
    hide RxControl;
  }

  lemma RxDescriptorBits(desc: RxDescr)
    ensures desc.Enabled() <==> Bit(desc.ctrl, 0x200_0000)
    ensures desc.Wraps() <==> Bit(desc.ctrl, 0x400_0000)
    ensures desc.Interrupts() <==> Bit(desc.ctrl, 0x800_0000)
  {
  }

  lemma RxSelectByBytes(rxd: uint32, cur: nat)
    requires cur < 128
    ensures RxSelect(rxd, cur) == rxd - rxd % 0x400 + 8 * cur + rxd % 8
  {
  }

  lemma EepByBits(str: word, ep: bool)
    ensures EepStr(str, ep) == EeSet(str, ep)
  {
  }

  lemma DeliveredByBytes(r: Regs, p: RxPacket)
    ensures StoredLength(r, p) < 0x200_0000 && StoredLength(r, p) <= |p.data|
    ensures Delivered(r, p) == p.data[..StoredLength(r, p)]
    ensures |p.data| > Limit(r.rxl) <==> |p.data| > RxLimit(r.rxl)
  {
    hide RxLimit, Limit;
    LimitIs(r.rxl);
    DeliveredFits(r, p);
  }

  /** A packet that is not kept out and finds its descriptor enabled is delivered through it. */
  lemma Stores(d: Dev, m: Mem, p: RxPacket)
    requires DevOk(d) && !KeptOut(d.regs, p.first) && Bit(WordAt(m, d.regs.rxd), 0x200_0000)
    ensures DecideRx(d, m, p) == DeliverTo(d, RxLoad(m, d.regs.rxd), p)
  {
    hide CheckBit, RxAccepts, KeptOut, RxLoad, WordAt, Bit, DeliverTo, RxDescr.Enabled;
    KeptOutIs(d.regs, p);
    RxLoadByBytes(m, d.regs.rxd);
    RxDescriptorBits(RxLoad(m, d.regs.rxd));
  }

  lemma PulseByBits(asked: bool, r: Regs)
    ensures Pulse(asked, r) == if asked && TiBit(r.chn) then 1 else 0
  {
    hide CheckBit;
    EnableBits(r.chn);
  }

  predicate TiBit(chn: word) {
    chn & 0x4 != 0
  }

  function PrSet(chn: word): word {
    chn | 0x40
  }

  function EeSet(str: word, ep: bool): word {
    if ep then str | 0x100 else str
  }

  /** The core after a delivery. */
  predicate StoredDev(d: Dev, d': Dev, wraps: bool, asks: bool, ep: bool) {
    && d'.rxdCur == Successor(d.rxdCur, wraps, 128)
    && d' == d.(rxdMap := d'.rxdMap, rxdCur := d'.rxdCur,
                irqs := d.irqs + (if asks && TiBit(d.regs.chn) then 1 else 0),
                regs := d.regs.(chn := PrSet(d.regs.chn), str := EeSet(d.regs.str, ep), rxd := d'.regs.rxd))
    && d'.regs.rxd == d.regs.rxd - d.regs.rxd % 0x400 + 8 * d'.rxdCur + d.regs.rxd % 8
  }

  lemma DeliveryByBits(d: Dev, desc: RxDescr, p: RxPacket)
    requires DevOk(d)
    ensures StoredDev(d, RxEffect(d, DeliverTo(d, desc, p)), desc.Wraps(), desc.Interrupts(), p.ep)
  {
    hide SetBit, ClearBit, RxSelect, Successor, EepStr, RxWriteBack, Delivered, Pulse, TiBit, PrSet, EeSet;
    hide RxDescr.Enabled, RxDescr.Wraps, RxDescr.Interrupts;
    PulseByBits(desc.Interrupts(), d.regs);
    ReceivedBits(d.regs.chn);
    EepByBits(d.regs.str, p.ep);
    NextIsSuccessor(d.rxdCur, desc.Wraps(), 128);
    RxSelectByBytes(d.regs.rxd, NextSlot(d.rxdCur, desc.Wraps(), 128));
  }

  /** The core after a packet that is stored: the next slot, PR and with ep EE set, the interrupt, and nothing
      else but its copy of the descriptor. */
  lemma StoredDevice(d: Dev, m: Mem, p: RxPacket)
    requires DevOk(d) && !KeptOut(d.regs, p.first) && Bit(WordAt(m, d.regs.rxd), 0x200_0000)
    ensures var ctrl := WordAt(m, d.regs.rxd);
            StoredDev(d, RxDev(d, m, p), Bit(ctrl, 0x400_0000), Bit(ctrl, 0x800_0000), p.ep)
  {
    hide DecideRx, RxEffect, KeptOut, RxLoad, WordAt, Bit, DeliverTo, StoredDev;
    hide RxDescr.Enabled, RxDescr.Wraps, RxDescr.Interrupts;
    Stores(d, m, p);
    RxLoadByBytes(m, d.regs.rxd);
    RxDescriptorBits(RxLoad(m, d.regs.rxd));
    DeliveryByBits(d, RxLoad(m, d.regs.rxd), p);
  }

  /** The RAM after a packet that is stored: the control word, and apart from it the bytes of the packet up to
      the receive limit at the address of the descriptor; no other byte changes. */
  lemma StoredMemory(d: Dev, m: Mem, p: RxPacket)
    requires DevOk(d) && !KeptOut(d.regs, p.first) && Bit(WordAt(m, d.regs.rxd), 0x200_0000)
    ensures var m', a, ctrl := RxMem(d, m, p), d.regs.rxd, WordAt(m, d.regs.rxd);
            var buffer, n := WordAt(m, d.regs.rxd + 4), StoredLength(d.regs, p);
            && StoredControl(WordAt(m', a), ctrl, n, |p.data| > Limit(d.regs.rxl), p)
            && (forall x: nat {:trigger At(m', x)} :: !(a <= x < a + 4) ==>
                  At(m', x) == if buffer <= x < buffer + n then p.data[x - buffer] else At(m, x))
  {
    hide DecideRx, KeptOut, RxLoad, WordAt, Bit, RxLimit, Limit, RxControl, Delivered, StoredLength;
    hide StoredControl, WriteWord, RxDescr.Enabled, RxDescr.Wraps, RxDescr.Interrupts, Pulse;
    Stores(d, m, p);
    var desc := RxLoad(m, d.regs.rxd);
    RxLoadByBytes(m, d.regs.rxd);
    DeliveredByBytes(d.regs, p);
    var n := StoredLength(d.regs, p);
    var truncated := |p.data| > RxLimit(d.regs.rxl);
    ControlByBytes(desc, n, truncated, p);
    var c, filled := RxControl(desc, n, truncated, p), Write(m, desc.addr, p.data[..n]);
    WordWriteFrame(filled, d.regs.rxd, c);
    ReadWritten(filled, d.regs.rxd, c);
    WordAtIs(RxMem(d, m, p), d.regs.rxd);
  }

  /** A time code is taken exactly if it is greater than the time, and then Tick Out is set and, with TQ, an
      interrupt raised. */
  lemma TimeByBits(d: Dev, code: byte)
    ensures RxTimecode(d, code) ==
            if d.regs.tim < code as int then
              d.(regs := d.regs.(tim := code as int, str := d.regs.str | 0x1),
                 irqs := d.irqs + if d.regs.ctr & 0x100 != 0 then 1 else 0)
            else d
  {
    hide CheckBit, SetBit;
    ControlWords(d.regs.ctr);
    TickOutBit(d.regs.str);
  }

  lemma TickOutBit(str: word)
    ensures SetBit(str, STR_TO) == str | 0x1
  {
  }
}
