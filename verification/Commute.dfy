/** Receiving and transmitting do not interfere: a reception may come before a txenable call, while
    it waits for its acknowledgement, or after it, with the same outcome. */
module Commute {
  import opened BitOps
  import opened Leon3Ram
  import opened Messages
  import opened Registers
  import opened Dma

  // ---- a whole transmission as the effects of its decision ----

  function SentBy(a: TxAct): seq<Packet> {
    if a.TxSend? then [a.packet] else []
  }

  /** What is left to do for a decision after the wait, for a transmission from the given slot. */
  function ReleaseEffect(d: Dev, a: TxAct, slot: nat): (r: Dev)
    requires DevOk(d) && slot < TX_SLOTS
    ensures DevOk(r) && r.id == d.id && r.regs == d.regs && r.rxdCur == d.rxdCur
  {
    if a.TxSend? then d.(txdMap := d.txdMap[slot := a.desc.Released()], irqs := d.irqs + a.pulse) else d
  }

  function TxMemEffect(txd: uint32, m: Mem, a: TxAct): Mem {
    if a.TxSend? then WriteWord(m, txd, a.desc.Released().ctrl) else m
  }

  lemma PulseAfterSend(r: Regs, asked: bool, txd: uint32)
    ensures Pulse(asked, r.(chn := SetBit(r.chn, CHN_PS), txd := txd)) == Pulse(asked, r)
  {
    hide CheckBit, SetBit;
    CheckOtherSet(r.chn, CHN_PS, CHN_TI);
  }

  lemma TxEnableIsEffect(d: Dev, m: Mem)
    requires DevOk(d)
    ensures var a := DecideTx(d, m);
            TxEnable(d, m)
            == TxResult(ReleaseEffect(TxEffect(d, a), a, d.txdCur), TxMemEffect(d.regs.txd, m, a), SentBy(a),
                !a.TxSend?)
  {
    hide CheckBit, SetBit, ClearBit, TxSelect, WriteWord, ReadWord, PacketOf;
    hide TxDescr.Enabled, TxDescr.Wraps, TxDescr.Released, TxDescr.Interrupts;
    var a := DecideTx(d, m);
    if a.TxSend? {
      TxReleasedExact(a.desc);
      PulseAfterSend(d.regs, a.desc.Interrupts(), TxSelect(d.regs.txd, a.next));
    }
  }

  // ---- independence ----

  /** What the transmission reads: its descriptor, and if it sends its header and its data. */
  predicate ApartFromTx(a: nat, n: nat, txd: uint32, act: TxAct) {
    && Disjoint(a, n, txd, TX_SLOT_SIZE)
    && (act.TxSend? ==>
          Disjoint(a, n, act.desc.headerAddr, act.desc.HeaderLength())
          && Disjoint(a, n, act.desc.dataAddr, act.desc.DataLength()))
  }

  /** The descriptor and the buffer of the reception are apart from all the transmission uses. */
  predicate FootprintsApart(d: Dev, a: TxAct, b: RxAct) {
    && ApartFromTx(d.regs.rxd, RX_SLOT_SIZE, d.regs.txd, a)
    && (b.RxStore? ==> ApartFromTx(b.back.addr, |b.bytes|, d.regs.txd, a))
  }

  lemma RxKeepsTxBits(d: Dev, b: RxAct)
    requires DevOk(d) && (b.RxStore? ==> b.next < RX_SLOTS)
    ensures var c := RxEffect(d, b).regs.chn;
            CheckBit(c, CHN_TE) == CheckBit(d.regs.chn, CHN_TE) && CheckBit(c, CHN_TI) == CheckBit(d.regs.chn, CHN_TI)
  {
    hide CheckBit, SetBit, ClearBit, RxSelect, EepStr;
    CheckOtherSet(d.regs.chn, CHN_PR, CHN_TE);
    CheckOtherSet(d.regs.chn, CHN_PR, CHN_TI);
    CheckOtherClear(d.regs.chn, CHN_RD, CHN_TE);
    CheckOtherClear(d.regs.chn, CHN_RD, CHN_TI);
  }

  lemma TxKeepsRxBits(d: Dev, a: TxAct)
    requires DevOk(d) && (a.TxSend? ==> a.next < TX_SLOTS)
    ensures var c := TxEffect(d, a).regs.chn;
            && CheckBit(c, CHN_RE) == CheckBit(d.regs.chn, CHN_RE)
                 && CheckBit(c, CHN_RD) == CheckBit(d.regs.chn, CHN_RD)
            && CheckBit(c, CHN_TI) == CheckBit(d.regs.chn, CHN_TI)
  {
    hide CheckBit, SetBit, ClearBit, TxSelect;
    CheckOtherSet(d.regs.chn, CHN_PS, CHN_RE);
    CheckOtherSet(d.regs.chn, CHN_PS, CHN_RD);
    CheckOtherSet(d.regs.chn, CHN_PS, CHN_TI);
    CheckOtherClear(d.regs.chn, CHN_TE, CHN_RE);
    CheckOtherClear(d.regs.chn, CHN_TE, CHN_RD);
    CheckOtherClear(d.regs.chn, CHN_TE, CHN_TI);
  }

  /** A range that neither write of a reception touches. */
  lemma RxMemKeeps(rxd: uint32, m: Mem, b: RxAct, a: nat, n: nat)
    requires Disjoint(rxd, RX_SLOT_SIZE, a, n) && (b.RxStore? ==> Disjoint(b.back.addr, |b.bytes|, a, n))
    ensures AgreeOn(m, RxMemEffect(rxd, m, b), a, n)
  {
    hide BigEndian;
  }

  lemma TxLoadAgrees(m: Mem, m': Mem, a: nat)
    requires AgreeOn(m, m', a, TX_SLOT_SIZE)
    ensures TxLoad(m, a) == TxLoad(m', a)
  {
    hide ReadWord;
    ReadWordAgrees(m, m', a);
    ReadWordAgrees(m, m', a + 4);
    ReadWordAgrees(m, m', a + 8);
    ReadWordAgrees(m, m', a + 12);
  }

  lemma RxLoadAgrees(m: Mem, m': Mem, a: nat)
    requires AgreeOn(m, m', a, RX_SLOT_SIZE)
    ensures RxLoad(m, a) == RxLoad(m', a)
  {
    hide ReadWord;
    ReadWordAgrees(m, m', a);
    ReadWordAgrees(m, m', a + 4);
  }

  /** After a reception the transmission decides as before. */
  lemma TxUnaffected(d: Dev, m: Mem, b: RxAct)
    requires DevOk(d) && (b.RxStore? ==> b.next < RX_SLOTS) && FootprintsApart(d, DecideTx(d, m), b)
    ensures DecideTx(RxEffect(d, b), RxMemEffect(d.regs.rxd, m, b)) == DecideTx(d, m)
  {
    hide CheckBit, SetBit, ClearBit, RxSelect, EepStr, RxMemEffect, TxLoad, AgreeOn, TxDescr.Enabled;
    hide TxDescr.Wraps, TxDescr.Interrupts, TxDescr.HeaderLength, TxDescr.DataLength;
    var a, m' := DecideTx(d, m), RxMemEffect(d.regs.rxd, m, b);
    RxKeepsTxBits(d, b);
    RxMemKeeps(d.regs.rxd, m, b, d.regs.txd, TX_SLOT_SIZE);
    TxLoadAgrees(m, m', d.regs.txd);
    if a.TxSend? {
      RxMemKeeps(d.regs.rxd, m, b, a.desc.headerAddr, a.desc.HeaderLength());
      ReadAgrees(m, m', a.desc.headerAddr, a.desc.HeaderLength());
      RxMemKeeps(d.regs.rxd, m, b, a.desc.dataAddr, a.desc.DataLength());
      ReadAgrees(m, m', a.desc.dataAddr, a.desc.DataLength());
    }
  }

  /** Between the halves of a transmission, and after it, the reception decides as before. */
  lemma RxUnaffected(d: Dev, m: Mem, a: TxAct, p: RxPacket)
    requires DevOk(d) && (a.TxSend? ==> a.next < TX_SLOTS) && FootprintsApart(d, a, DecideRx(d, m, p))
    ensures DecideRx(TxEffect(d, a), m, p) == DecideRx(d, m, p)
    ensures DecideRx(ReleaseEffect(TxEffect(d, a), a, d.txdCur), TxMemEffect(d.regs.txd, m, a), p) == DecideRx(d, m, p)
  {
    hide CheckBit, SetBit, ClearBit, TxSelect, WriteWord, RxLoad, RxControl, RxLimit, RxDescr.Enabled;
    hide RxDescr.Wraps, RxDescr.Interrupts, TxDescr.Released;
    TxKeepsRxBits(d, a);
    if a.TxSend? {
      var m' := TxMemEffect(d.regs.txd, m, a);
      WordWriteFrame(m, d.regs.txd, a.desc.Released().ctrl);
      assert AgreeOn(m, m', d.regs.rxd, RX_SLOT_SIZE);
      RxLoadAgrees(m, m', d.regs.rxd);
    }
  }

  lemma FirstCommutes(d: Dev, a: TxAct, b: RxAct)
    requires DevOk(d) && (b.RxStore? ==> b.next < RX_SLOTS) && (a.TxSend? ==> a.next < TX_SLOTS)
    ensures TxEffect(RxEffect(d, b), a) == RxEffect(TxEffect(d, a), b)
  {
    hide CheckBit, SetBit, ClearBit, TxSelect, RxSelect, EepStr;
    var c := d.regs.chn;
    SetSet(c, CHN_PR, CHN_PS);
    SetClear(c, CHN_TE, CHN_PR);
    SetClear(c, CHN_RD, CHN_PS);
    ClearClear(c, CHN_RD, CHN_TE);
  }

  lemma SecondCommutes(d: Dev, a: TxAct, b: RxAct, slot: nat)
    requires DevOk(d) && slot < TX_SLOTS && (b.RxStore? ==> b.next < RX_SLOTS)
    ensures ReleaseEffect(RxEffect(d, b), a, slot) == RxEffect(ReleaseEffect(d, a, slot), b)
  {
    hide SetBit, ClearBit, RxSelect, EepStr, TxDescr.Released;
  }

  lemma MemCommutes(d: Dev, m: Mem, a: TxAct, b: RxAct)
    requires FootprintsApart(d, a, b)
    ensures TxMemEffect(d.regs.txd, RxMemEffect(d.regs.rxd, m, b), a)
        == RxMemEffect(d.regs.rxd, TxMemEffect(d.regs.txd, m, a), b)
  {
    hide Write, BigEndian;
    if a.TxSend? && b.RxStore? {
      var t, r := BigEndian(a.desc.Released().ctrl), BigEndian(b.back.ctrl);
      var m0 := Write(m, b.back.addr, b.bytes);
      WritesCommute(m0, d.regs.rxd, r, d.regs.txd, t);
      WritesCommute(m, b.back.addr, b.bytes, d.regs.txd, t);
    }
  }

  // ---- the three orders ----

  function RxThenTx(d: Dev, m: Mem, p: RxPacket): TxResult
    requires DevOk(d)
  {
    TxEnable(RxDev(d, m, p), RxMem(d, m, p))
  }

  function RxWhileWaiting(d: Dev, m: Mem, p: RxPacket): TxResult
    requires DevOk(d)
  {
    match TxBegin(d, m)
    case Stopped(d1) => TxResult(RxDev(d1, m, p), RxMem(d1, m, p), [], true)
    case Started(d1, packet, pending) =>
      var d2, m2 := RxDev(d1, m, p), RxMem(d1, m, p);
      TxResult(TxFinishDev(d2, pending), TxFinishMem(d2, m2, pending), [packet], false)
  }

  function TxThenRx(d: Dev, m: Mem, p: RxPacket): TxResult
    requires DevOk(d)
  {
    TxEnableIsEffect(d, m);
    var r := TxEnable(d, m);
    TxResult(RxDev(r.dev, r.mem, p), RxMem(r.dev, r.mem, p), r.sent, r.stop)
  }

  /** With disjoint footprints a reception before, during or after a transmission leaves the same
      registers, cursors, descriptor copies, RAM, packets and interrupts. */
  lemma ReceptionCommutes(d: Dev, m: Mem, p: RxPacket)
    requires DevOk(d) && FootprintsApart(d, DecideTx(d, m), DecideRx(d, m, p))
    ensures RxThenTx(d, m, p) == TxThenRx(d, m, p)
    ensures RxWhileWaiting(d, m, p) == TxThenRx(d, m, p)
  {
    BeforeIsAfter(d, m, p);
    WaitingIsAfter(d, m, p);
  }

  lemma BeforeIsAfter(d: Dev, m: Mem, p: RxPacket)
    requires DevOk(d) && FootprintsApart(d, DecideTx(d, m), DecideRx(d, m, p))
    ensures RxThenTx(d, m, p) == TxThenRx(d, m, p)
  {
    hide TxEffect, ReleaseEffect, DecideTx, DecideRx, TxEnable, TxMemEffect, FootprintsApart;
    var a, b := DecideTx(d, m), DecideRx(d, m, p);
    var d1, m1 := RxEffect(d, b), RxMemEffect(d.regs.rxd, m, b);
    TxUnaffected(d, m, b);
    TxEnableIsEffect(d1, m1);
    TxEnableIsEffect(d, m);
    RxUnaffected(d, m, a, p);
    var d2, m2 := ReleaseEffect(TxEffect(d, a), a, d.txdCur), TxMemEffect(d.regs.txd, m, a);
    FirstCommutes(d, a, b);
    SecondCommutes(TxEffect(d, a), a, b, d.txdCur);
    MemCommutes(d, m, a, b);
    assert d1.txdCur == d.txdCur && d1.regs.txd == d.regs.txd;
    hide RxEffect, RxMemEffect;
  }

  // ---- a reception against the release alone ----

  /** The control word of a released descriptor is apart from all that a reception uses. */
  predicate ReleaseApart(addr: nat, rxd: uint32, b: RxAct) {
    && (!b.RxNothing? ==> Disjoint(addr, 4, rxd, RX_SLOT_SIZE))
    && (b.RxStore? ==> Disjoint(addr, 4, b.back.addr, |b.bytes|))
  }

  lemma RxUnaffectedByRelease(d: Dev, m: Mem, p: Pending, q: RxPacket)
    requires DevOk(d) && p.slot < TX_SLOTS && ReleaseApart(p.addr, d.regs.rxd, DecideRx(d, m, q))
    ensures DecideRx(TxFinishDev(d, p), TxFinishMem(d, m, p), q) == DecideRx(d, m, q)
  {
    hide CheckBit, RxLoad, WriteWord, RxAccepts, RxControl, RxLimit, RxDescr.Enabled, RxDescr.Wraps, RxDescr.Interrupts;
    hide TxDescr.Released, TxDescr.Interrupts;
    var m' := TxFinishMem(d, m, p);
    WordWriteFrame(m, p.addr, d.txdMap[p.slot].Released().ctrl);
    if !DecideRx(d, m, q).RxNothing? {
      assert AgreeOn(m, m', d.regs.rxd, RX_SLOT_SIZE);
      RxLoadAgrees(m, m', d.regs.rxd);
    }
  }

  lemma RxKeepsRelease(d: Dev, b: RxAct, p: Pending)
    requires DevOk(d) && p.slot < TX_SLOTS && (b.RxStore? ==> b.next < RX_SLOTS)
    ensures TxFinishDev(RxEffect(d, b), p) == RxEffect(TxFinishDev(d, p), b)
  {
    hide CheckBit, SetBit, ClearBit, RxSelect, EepStr, TxDescr.Released, TxDescr.Interrupts;
    RxKeepsTxBits(d, b);
  }

  lemma ReleaseMemCommutes(m: Mem, addr: nat, w: uint32, rxd: uint32, b: RxAct)
    requires ReleaseApart(addr, rxd, b)
    ensures WriteWord(RxMemEffect(rxd, m, b), addr, w) == RxMemEffect(rxd, WriteWord(m, addr, w), b)
  {
    hide Write, BigEndian;
    if b.RxStore? {
      var t, r := BigEndian(w), BigEndian(b.back.ctrl);
      var m0 := Write(m, b.back.addr, b.bytes);
      WritesCommute(m0, rxd, r, addr, t);
      WritesCommute(m, b.back.addr, b.bytes, addr, t);
    }
  }

  /** A reception may come before or after the release of a descriptor. */
  lemma ReleaseCommutes(d: Dev, m: Mem, p: Pending, q: RxPacket)
    requires DevOk(d) && p.slot < TX_SLOTS && ReleaseApart(p.addr, d.regs.rxd, DecideRx(d, m, q))
    ensures DevOk(RxDev(d, m, q)) && DevOk(TxFinishDev(d, p))
    ensures TxFinishDev(RxDev(d, m, q), p) == RxDev(TxFinishDev(d, p), TxFinishMem(d, m, p), q)
    ensures TxFinishMem(RxDev(d, m, q), RxMem(d, m, q), p) == RxMem(TxFinishDev(d, p), TxFinishMem(d, m, p), q)
  {
    hide DecideRx, RxEffect, RxMemEffect, WriteWord, TxDescr.Released, TxDescr.Interrupts, CheckBit;
    var b := DecideRx(d, m, q);
    RxUnaffectedByRelease(d, m, p, q);
    RxKeepsRelease(d, b, p);
    ReleaseMemCommutes(m, p.addr, d.txdMap[p.slot].Released().ctrl, d.regs.rxd, b);
  }

  lemma WaitingIsAfter(d: Dev, m: Mem, p: RxPacket)
    requires DevOk(d) && FootprintsApart(d, DecideTx(d, m), DecideRx(d, m, p))
    ensures RxWhileWaiting(d, m, p) == TxThenRx(d, m, p)
  {
    hide TxEffect, DecideTx, DecideRx, FootprintsApart, RxDev, RxMem, TxFinishDev, TxFinishMem;
    var a := DecideTx(d, m);
    if a.TxSend? {
      var d1 := TxEffect(d, a);
      RxUnaffected(d, m, a, p);
      SendsApart(d, a, DecideRx(d, m, p));
      ReleaseCommutes(d1, m, Pending(d.txdCur, d.regs.txd), p);
    }
  }

  lemma SendsApart(d: Dev, a: TxAct, b: RxAct)
    requires FootprintsApart(d, a, b)
    ensures ReleaseApart(d.regs.txd, d.regs.rxd, b)
  {
  }

  // ---- time codes ----

  function TimecodeWhileWaiting(d: Dev, m: Mem, code: byte): TxResult
    requires DevOk(d)
  {
    match TxBegin(d, m)
    case Stopped(d1) => TxResult(RxTimecode(d1, code), m, [], true)
    case Started(d1, packet, pending) =>
      var d2 := RxTimecode(d1, code);
      TxResult(TxFinishDev(d2, pending), TxFinishMem(d2, m, pending), [packet], false)
  }

  /** A received time code commutes in the same way. */
  lemma TimecodeCommutes(d: Dev, m: Mem, code: byte)
    requires DevOk(d)
    ensures var r := TxEnable(d, m);
            && TxEnable(RxTimecode(d, code), m) == r.(dev := RxTimecode(r.dev, code))
            && TimecodeWhileWaiting(d, m, code) == r.(dev := RxTimecode(r.dev, code))
  {
    hide CheckBit, SetBit, ClearBit, TxSelect, ReadWord, WriteWord, PacketOf;
    hide TxDescr.Enabled, TxDescr.Wraps, TxDescr.Released, TxDescr.Interrupts;
  }
}
