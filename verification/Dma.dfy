/** The DMA engine of one core (grlib_comgrspw.c): what a transmission, a reception and a received
    time code do to the device and to the RAM. */
module Dma {
  import opened BitOps
  import opened Leon3Ram
  import opened Messages
  import opened Registers

  const TX_SLOTS: nat := 64
  const RX_SLOTS: nat := 128
  const TX_SLOT_SIZE: nat := 16
  const RX_SLOT_SIZE: nat := 8
  const TABLE_SIZE: nat := 0x400

  // ---- descriptors ----

  datatype TxDescr = TxDescr(ctrl: uint32, headerAddr: uint32, len: uint32, dataAddr: uint32)
  {
    predicate Enabled() { ctrl / 0x1000 % 2 == 1 }
    predicate Wraps() { ctrl / 0x2000 % 2 == 1 }
    predicate Interrupts() { ctrl / 0x4000 % 2 == 1 }
    function HeaderLength(): nat { ctrl % 0x100 }
    function DataLength(): nat { len % 0x100_0000 }

    /** The same descriptor, handed back to the guest. */
    function Released(): TxDescr {
      if Enabled() then this.(ctrl := ctrl - 0x1000) else this
    }
  }

  datatype RxDescr = RxDescr(ctrl: uint32, addr: uint32)
  {
    predicate Truncated() { ctrl / 0x8000_0000 % 2 == 1 }
    predicate DataCrc() { ctrl / 0x4000_0000 % 2 == 1 }
    predicate HeaderCrc() { ctrl / 0x2000_0000 % 2 == 1 }
    predicate Eep() { ctrl / 0x1000_0000 % 2 == 1 }
    predicate Interrupts() { ctrl / 0x800_0000 % 2 == 1 }
    predicate Wraps() { ctrl / 0x400_0000 % 2 == 1 }
    predicate Enabled() { ctrl / 0x200_0000 % 2 == 1 }
    function Length(): nat { ctrl % 0x200_0000 }
  }

  function TxLoad(m: Mem, a: nat): TxDescr {
    TxDescr(ReadWord(m, a), ReadWord(m, a + 4), ReadWord(m, a + 8), ReadWord(m, a + 12))
  }

  function RxLoad(m: Mem, a: nat): RxDescr {
    RxDescr(ReadWord(m, a), ReadWord(m, a + 4))
  }

  // ---- the device ----

  datatype Dev = Dev(
    id: nat, regs: Regs, txdCur: nat, rxdCur: nat,
    txdMap: seq<TxDescr>, rxdMap: seq<RxDescr>, irqs: nat)

  /** A device in zeroed memory. */
  function Zeroed(id: nat): Dev {
    Dev(id, Regs(0, 0, 0, 0, 0, 0, 0, 0, 0, 0, 0), 0, 0,
        seq(TX_SLOTS, _ => TxDescr(0, 0, 0, 0)), seq(RX_SLOTS, _ => RxDescr(0, 0)), 0)
  }

  predicate DevOk(d: Dev) {
    d.id < CORES && d.txdCur < TX_SLOTS && d.rxdCur < RX_SLOTS && |d.txdMap| == TX_SLOTS && |d.rxdMap| == RX_SLOTS
  }

  // ---- transmission ----

  /** A descriptor whose packet has been sent and that waits for the acknowledgement. */
  datatype Pending = Pending(slot: nat, addr: nat)

  datatype TxStart =
    | Stopped(dev: Dev)
    | Started(dev: Dev, packet: Packet, pending: Pending)

  function NextSlot(cur: nat, wraps: bool, slots: nat): nat
    requires slots > 0
  {
    if wraps then 0 else (cur + 1) % slots
  }

  /** A table address register with a new descriptor selected. */
  function TxSelect(txd: uint32, cur: nat): (r: uint32)
    requires cur < TX_SLOTS
  {
    txd - txd % 0x400 + TX_SLOT_SIZE * cur + txd % 16
  }

  function RxSelect(rxd: uint32, cur: nat): (r: uint32)
    requires cur < RX_SLOTS
  {
    rxd - rxd % 0x400 + RX_SLOT_SIZE * cur + rxd % 8
  }

  function PacketOf(id: nat, desc: TxDescr, m: Mem): Packet {
    Packet(id, DATA, Read(m, desc.headerAddr, desc.HeaderLength()), Read(m, desc.dataAddr, desc.DataLength()))
  }

  /** What txenable decides when it is called: nothing to do, the transmitter to be switched off at a
      disabled descriptor, or a packet to be sent. */
  datatype TxAct =
    | TxNothing
    | TxShut(seen: TxDescr)
    | TxSend(desc: TxDescr, next: nat, pulse: nat, packet: Packet)

  function DecideTx(d: Dev, m: Mem): (a: TxAct)
    ensures a.TxSend? ==> a.next < TX_SLOTS
  {
    if !CheckBit(d.regs.chn, CHN_TE) then TxNothing
    else
      var desc := TxLoad(m, d.regs.txd);
      if !desc.Enabled() then TxShut(desc)
      else
        TxSend(desc, NextSlot(d.txdCur, desc.Wraps(), TX_SLOTS), Pulse(desc.Interrupts(), d.regs),
            PacketOf(d.id, desc, m))
  }

  /** The device at the wait, or at the end of a call that does not send. */
  function TxEffect(d: Dev, a: TxAct): (r: Dev)
    requires DevOk(d) && (a.TxSend? ==> a.next < TX_SLOTS)
    ensures DevOk(r) && r.id == d.id && r.rxdCur == d.rxdCur && r.irqs == d.irqs
    ensures r.regs.rxd == d.regs.rxd && r.regs.rxl == d.regs.rxl
  {
    match a
    case TxNothing => d
    case TxShut(desc) =>
      d.(txdMap := d.txdMap[d.txdCur := desc], regs := d.regs.(chn := ClearBit(d.regs.chn, CHN_TE)))
    case TxSend(desc, next, _, _) =>
      d.(txdMap := d.txdMap[d.txdCur := desc], txdCur := next,
         regs := d.regs.(chn := SetBit(d.regs.chn, CHN_PS), txd := TxSelect(d.regs.txd, next)))
  }

  /** txenable up to the wait for the acknowledgement. */
  function TxBegin(d: Dev, m: Mem): (s: TxStart)
    requires DevOk(d)
    ensures DevOk(s.dev) && s.dev.id == d.id
    ensures s.Started? ==> s.pending == Pending(d.txdCur, d.regs.txd)
  {
    var a := DecideTx(d, m);
    if a.TxSend? then Started(TxEffect(d, a), a.packet, Pending(d.txdCur, d.regs.txd)) else Stopped(TxEffect(d, a))
  }

  /** txenable after the acknowledgement. */
  function TxFinishDev(d: Dev, p: Pending): (r: Dev)
    requires DevOk(d) && p.slot < TX_SLOTS
    ensures DevOk(r) && r.id == d.id && r.regs == d.regs && r.txdCur == d.txdCur && r.rxdCur == d.rxdCur
  {
    var desc := d.txdMap[p.slot].Released();
    d.(txdMap := d.txdMap[p.slot := desc], irqs := d.irqs + Pulse(desc.Interrupts(), d.regs))
  }

  function TxFinishMem(d: Dev, m: Mem, p: Pending): Mem
    requires DevOk(d) && p.slot < TX_SLOTS
  {
    WriteWord(m, p.addr, d.txdMap[p.slot].Released().ctrl)
  }

  /** An interrupt that a descriptor asks for is pulsed if SPWCHN has TI. */
  function Pulse(asked: bool, regs: Regs): nat {
    if asked && CheckBit(regs.chn, CHN_TI) then 1 else 0
  }

  /** A whole call of txenable, nothing happening at the wait. */
  datatype TxResult = TxResult(dev: Dev, mem: Mem, sent: seq<Packet>, stop: bool)

  function TxEnable(d: Dev, m: Mem): (r: TxResult)
    requires DevOk(d)
    ensures DevOk(r.dev) && r.dev.id == d.id
  {
    match TxBegin(d, m)
    case Stopped(d1) => TxResult(d1, m, [], true)
    case Started(d1, packet, pending) =>
      TxResult(TxFinishDev(d1, pending), TxFinishMem(d1, m, pending), [packet], false)
  }

  // ---- reception ----

  /** A data message as rxenable gets it: first is the byte at the start of the receive buffer. */
  datatype RxPacket = RxPacket(first: byte, data: seq<byte>, dc: bool, hc: bool, ep: bool)

  function RxLimit(rxl: uint32): nat {
    rxl % 0x200_0000 - rxl % 4
  }

  function Delivered(r: Regs, p: RxPacket): seq<byte> {
    if |p.data| > RxLimit(r.rxl) then p.data[..RxLimit(r.rxl)] else p.data
  }

  function Flag(b: bool, weight: nat): nat {
    if b then weight else 0
  }

  /** The control word written back for a delivered packet. */
  function RxControl(desc: RxDescr, length: nat, truncated: bool, p: RxPacket): (c: uint32)
    requires length < 0x200_0000
  {
    Flag(desc.Truncated() || truncated, 0x8000_0000) + Flag(desc.DataCrc() || p.dc, 0x4000_0000)
    + Flag(desc.HeaderCrc() || p.hc, 0x2000_0000) + Flag(desc.Eep() || p.ep, 0x1000_0000)
    + Flag(desc.Interrupts(), 0x800_0000) + Flag(desc.Wraps(), 0x400_0000) + length
  }

  predicate RxAccepts(r: Regs, p: RxPacket) {
    CheckBit(r.chn, CHN_RE) && (CheckBit(r.ctr, CTR_OPM) || r.ndr == p.first as int)
  }

  /** The descriptor as it is written back. */
  function RxWriteBack(d: Dev, desc: RxDescr, p: RxPacket): RxDescr {
    desc.(ctrl := RxControl(desc, |Delivered(d.regs, p)|, |p.data| > RxLimit(d.regs.rxl), p))
  }

  /** SPWSTR records a packet that ended in an error. */
  function EepStr(str: word, ep: bool): word {
    if ep then SetBit(str, STR_EE) else str
  }

  /** What rxenable decides for a packet: to drop it, to close the receiver at a disabled descriptor, or to
      store it. */
  datatype RxAct =
    | RxNothing
    | RxShut(seen: RxDescr)
    | RxStore(back: RxDescr, bytes: seq<byte>, next: nat, pulse: nat, ep: bool)

  /** A delivery through a descriptor. */
  function DeliverTo(d: Dev, desc: RxDescr, p: RxPacket): (b: RxAct)
    ensures b.RxStore? && b.next < RX_SLOTS
  {
    RxStore(RxWriteBack(d, desc, p), Delivered(d.regs, p), NextSlot(d.rxdCur, desc.Wraps(), RX_SLOTS),
            Pulse(desc.Interrupts(), d.regs), p.ep)
  }

  function DecideRx(d: Dev, m: Mem, p: RxPacket): (b: RxAct)
    ensures b.RxStore? ==> b.next < RX_SLOTS
  {
    if !RxAccepts(d.regs, p) || !CheckBit(d.regs.chn, CHN_RD) then RxNothing
    else
      var desc := RxLoad(m, d.regs.rxd);
      if !desc.Enabled() then RxShut(desc) else DeliverTo(d, desc, p)
  }

  function RxEffect(d: Dev, b: RxAct): (r: Dev)
    requires DevOk(d) && (b.RxStore? ==> b.next < RX_SLOTS)
    ensures DevOk(r) && r.id == d.id && r.txdCur == d.txdCur && r.txdMap == d.txdMap
    ensures r.regs.txd == d.regs.txd && r.regs.rxl == d.regs.rxl
  {
    match b
    case RxNothing => d
    case RxShut(desc) =>
      d.(rxdMap := d.rxdMap[d.rxdCur := desc], regs := d.regs.(chn := ClearBit(d.regs.chn, CHN_RD)))
    case RxStore(back, _, next, pulse, ep) =>
      d.(rxdMap := d.rxdMap[d.rxdCur := back], rxdCur := next, irqs := d.irqs + pulse,
         regs := d.regs.(str := EepStr(d.regs.str, ep), chn := SetBit(d.regs.chn, CHN_PR),
             rxd := RxSelect(d.regs.rxd, next)))
  }

  function RxMemEffect(rxd: uint32, m: Mem, b: RxAct): Mem {
    if b.RxStore? then WriteWord(Write(m, b.back.addr, b.bytes), rxd, b.back.ctrl) else m
  }

  /** rxenable */
  function RxDev(d: Dev, m: Mem, p: RxPacket): (r: Dev)
    requires DevOk(d)
    ensures DevOk(r) && r.id == d.id && r.txdMap == d.txdMap && r.regs.txd == d.regs.txd && r.regs.rxl == d.regs.rxl
  {
    RxEffect(d, DecideRx(d, m, p))
  }

  function RxMem(d: Dev, m: Mem, p: RxPacket): Mem
    requires DevOk(d)
  {
    RxMemEffect(d.regs.rxd, m, DecideRx(d, m, p))
  }

  // ---- time codes ----

  function RxTimecode(d: Dev, code: byte): Dev {
    if d.regs.tim >= code as int then d
    else
      d.(regs := d.regs.(tim := code as int, str := SetBit(d.regs.str, STR_TO)),
         irqs := d.irqs + if CheckBit(d.regs.ctr, CTR_TQ) then 1 else 0)
  }

  // ---- register writes ----

  function WriteDev(d: Dev, offset: nat, v: word): Dev {
    d.(regs := WriteRegister(d.id, d.regs, offset, v))
  }

  // ---- the words written back ----

  lemma Digit(c: nat, unit: nat, q: nat, rest: nat)
    requires unit >= 1 && c == unit * q + rest && rest < unit
    ensures c % unit == rest && c / unit == q
  {
    DivUnique(c, unit, q, rest);
  }

  /** One binary digit of a number: the part above it, the digit, the part below. */
  lemma DigitAt(c: nat, unit: nat, above: nat, digit: nat, below: nat)
    requires unit >= 1 && digit <= 1 && below < unit && c == unit * (2 * above + digit) + below
    ensures c / unit % 2 == digit
  {
    DivUnique(c, unit, 2 * above + digit, below);
    DivUnique(2 * above + digit, 2, above, digit);
  }

  /** The digits of a control word written as a sum of its parts: the lower ones, above the length,
      and the upper ones. */
  lemma RxLowDigits(top: nat, ie: nat, wr: nat, length: nat, c: nat)
    requires ie <= 1 && wr <= 1 && length < 0x200_0000
        && c == 0x1000_0000 * top + 0x800_0000 * ie + 0x400_0000 * wr + length
    ensures c % 0x200_0000 == length && c / 0x200_0000 % 2 == 0
    ensures c / 0x400_0000 % 2 == wr && c / 0x800_0000 % 2 == ie
  {
    Digit(c, 0x200_0000, 8 * top + 4 * ie + 2 * wr, length);
    DigitAt(c, 0x200_0000, 4 * top + 2 * ie + wr, 0, length);
    DigitAt(c, 0x400_0000, 2 * top + ie, wr, length);
    DigitAt(c, 0x800_0000, top, ie, 0x400_0000 * wr + length);
  }

  lemma RxHighDigits(tr: nat, dc: nat, hc: nat, ep: nat, rest: nat, c: nat)
    requires tr <= 1 && dc <= 1 && hc <= 1 && ep <= 1 && rest < 0x1000_0000
    requires c == 0x8000_0000 * tr + 0x4000_0000 * dc + 0x2000_0000 * hc + 0x1000_0000 * ep + rest
    ensures c / 0x1000_0000 % 2 == ep && c / 0x2000_0000 % 2 == hc && c / 0x4000_0000 % 2 == dc
        && c / 0x8000_0000 % 2 == tr
  {
    DigitAt(c, 0x1000_0000, 4 * tr + 2 * dc + hc, ep, rest);
    DigitAt(c, 0x2000_0000, 2 * tr + dc, hc, 0x1000_0000 * ep + rest);
    DigitAt(c, 0x4000_0000, tr, dc, 0x2000_0000 * hc + 0x1000_0000 * ep + rest);
    DigitAt(c, 0x8000_0000, 0, tr, 0x4000_0000 * dc + 0x2000_0000 * hc + 0x1000_0000 * ep + rest);
  }

  lemma TxDigits(c: nat, top: nat, ie: nat, wr: nat, en: nat, low: nat)
    requires ie <= 1 && wr <= 1 && en <= 1 && low < 0x1000
    requires c == 0x8000 * top + 0x4000 * ie + 0x2000 * wr + 0x1000 * en + low
    ensures c / 0x1000 % 2 == en && c / 0x2000 % 2 == wr && c / 0x4000 % 2 == ie
    ensures c % 0x1000 == low && c % 0x100 == low % 0x100
  {
    DigitAt(c, 0x1000, 4 * top + 2 * ie + wr, en, low);
    DigitAt(c, 0x2000, 2 * top + ie, wr, 0x1000 * en + low);
    DigitAt(c, 0x4000, top, ie, 0x2000 * wr + 0x1000 * en + low);
    Digit(c, 0x1000, 8 * top + 4 * ie + 2 * wr + en, low);
    Digit(c, 0x100, 128 * top + 64 * ie + 32 * wr + 16 * en + low / 0x100, low % 0x100);
  }

  lemma RxFlags(tr: bool, dc: bool, hc: bool, ep: bool, ie: bool, wr: bool, length: nat, c: nat)
    requires length < 0x200_0000
    requires c == Flag(tr, 0x8000_0000) + Flag(dc, 0x4000_0000) + Flag(hc, 0x2000_0000) + Flag(ep, 0x1000_0000)
                + Flag(ie, 0x800_0000) + Flag(wr, 0x400_0000) + length
    ensures c % 0x200_0000 == length && c / 0x200_0000 % 2 == 0
    ensures (c / 0x400_0000 % 2 == 1) == wr && (c / 0x800_0000 % 2 == 1) == ie && (c / 0x1000_0000 % 2 == 1) == ep
    ensures (c / 0x2000_0000 % 2 == 1) == hc && (c / 0x4000_0000 % 2 == 1) == dc && (c / 0x8000_0000 % 2 == 1) == tr
  {
    var top := 8 * Flag(tr, 1) + 4 * Flag(dc, 1) + 2 * Flag(hc, 1) + Flag(ep, 1);
    RxLowDigits(top, Flag(ie, 1), Flag(wr, 1), length, c);
    RxHighDigits(Flag(tr, 1), Flag(dc, 1), Flag(hc, 1), Flag(ep, 1), c - 0x1000_0000 * top, c);
  }

  /** The control word of a delivered packet holds its length exactly, keeps the interrupt and wrap
      requests, is disabled, and adds the truncation and attribute flags to those already there. */
  lemma RxControlExact(desc: RxDescr, length: nat, truncated: bool, p: RxPacket)
    requires length < 0x200_0000
    ensures var back := desc.(ctrl := RxControl(desc, length, truncated, p));
            && back.Length() == length && !back.Enabled() && back.addr == desc.addr
            && back.Interrupts() == desc.Interrupts() && back.Wraps() == desc.Wraps()
            && back.Truncated() == (desc.Truncated() || truncated)
            && back.DataCrc() == (desc.DataCrc() || p.dc)
            && back.HeaderCrc() == (desc.HeaderCrc() || p.hc)
            && back.Eep() == (desc.Eep() || p.ep)
  {
    hide Flag;
    RxFlags(desc.Truncated() || truncated, desc.DataCrc() || p.dc, desc.HeaderCrc() || p.hc, desc.Eep() || p.ep,
            desc.Interrupts(), desc.Wraps(), length, RxControl(desc, length, truncated, p));
  }

  /** Releasing a transmit descriptor clears its enable bit and keeps the rest of it. */
  lemma TxReleasedExact(desc: TxDescr)
    ensures var back := desc.Released();
            && !back.Enabled() && back.Interrupts() == desc.Interrupts() && back.Wraps() == desc.Wraps()
            && back == desc.(ctrl := back.ctrl) && back.ctrl % 0x1000 == desc.ctrl % 0x1000
                 && back.HeaderLength() == desc.HeaderLength()
  {
    if desc.Enabled() {
      var c, q := desc.ctrl, desc.ctrl / 0x1000;
      var top, ie, wr, low := q / 2 / 2 / 2, q / 2 / 2 % 2, q / 2 % 2, c % 0x1000;
      assert q == 8 * top + 4 * ie + 2 * wr + 1;
      TxDigits(c, top, ie, wr, 1, low);
      TxDigits(c - 0x1000, top, ie, wr, 0, low);
    }
  }

  /** Whatever descriptor a transmission reads, its header and its data fit the staging buffers and its
      frame fits the sending buffer; the data end where the frame ends, and nothing after that is
      written. */
  lemma TxFrameBounds(d: Dev, m: Mem, buffer: seq<byte>)
    requires DevOk(d) && |buffer| == BUFFER
    ensures var s := TxBegin(d, m);
            s.Started? ==>
              && s.packet.Fits() && |s.packet.header| <= MAX_HEADER && |s.packet.data| < MAX_DATA
                   && s.packet.FrameLength() < BUFFER
              && var e, n := Encode(buffer, s.packet), s.packet.FrameLength();
                 && e[..n] == Frame(s.packet, buffer[2 + |s.packet.header|])
                 && e[n - |s.packet.data|..n] == s.packet.data && e[n..] == buffer[n..]
  {
    hide CheckBit, SetBit, ClearBit, ReadWord, TxDescr.Enabled, TxDescr.Wraps, TxSelect, LittleEndian;
  }

  lemma DeliveredFits(r: Regs, p: RxPacket)
    ensures |Delivered(r, p)| < 0x200_0000
    ensures |Delivered(r, p)| == if |p.data| <= RxLimit(r.rxl) then |p.data| else RxLimit(r.rxl)
    ensures Delivered(r, p) <= p.data
  {
  }
}
