/** The drain loop with receptions at its waits. When the two directions keep to memory of their own, it
    sends the same packets and leaves the same device and RAM as the undisturbed loop followed by all
    the receptions. */
module Interleaved {
  import opened BitOps
  import opened Leon3Ram
  import opened Dma
  import opened Rings
  import opened D = Drain
  import opened Reception
  import opened Commute

  // ---- the memory of each direction ----

  ghost predicate Inside(tx: nat -> bool, a: nat, n: nat) {
    forall x: nat {:trigger tx(x)} :: a <= x < a + n ==> tx(x)
  }

  ghost predicate Outside(tx: nat -> bool, a: nat, n: nat) {
    forall x: nat {:trigger tx(x)} :: a <= x < a + n ==> !tx(x)
  }

  /** The transmit table and the buffers of its enabled descriptors are in the memory tx. */
  ghost predicate TxSide(tx: nat -> bool, d: Dev, m: Mem) {
    && TxReady(d) && Inside(tx, TableBase(d.regs.txd), TABLE_SIZE)
    && (forall k :: 0 <= k < TX_SLOTS && TxTableOf(d, m)[k].Enabled() ==> TxBuffersInside(tx, TxTableOf(d, m)[k]))
  }

  ghost predicate TxBuffersInside(tx: nat -> bool, desc: TxDescr) {
    Inside(tx, desc.headerAddr, desc.HeaderLength()) && Inside(tx, desc.dataAddr, desc.DataLength())
  }

  /** The receive table and the buffers of its enabled descriptors, up to the receive limit, are outside that
      memory, and no buffer is in the table. */
  ghost predicate RxSide(tx: nat -> bool, d: Dev, m: Mem) {
    && RxReady(d) && Outside(tx, TableBase(d.regs.rxd), TABLE_SIZE)
    && RxBuffersApart(RxTableOf(d, m), RxLimit(d.regs.rxl), TableBase(d.regs.rxd))
    && (forall k :: 0 <= k < RX_SLOTS && RxTableOf(d, m)[k].Enabled() ==>
         Outside(tx, RxTableOf(d, m)[k].addr, RxLimit(d.regs.rxl)))
  }

  lemma InOut(tx: nat -> bool, a: nat, n: nat, b: nat, k: nat)
    requires Inside(tx, a, n) && Outside(tx, b, k)
    ensures Disjoint(a, n, b, k) && Disjoint(b, k, a, n)
  {
    var x := if a <= b then b else a;
    var mine := tx(x);
  }

  lemma InsidePart(tx: nat -> bool, a: nat, n: nat, b: nat, k: nat)
    requires Inside(tx, a, n) && a <= b && b + k <= a + n
    ensures Inside(tx, b, k)
  {
  }

  lemma OutsidePart(tx: nat -> bool, a: nat, n: nat, b: nat, k: nat)
    requires Outside(tx, a, n) && a <= b && b + k <= a + n
    ensures Outside(tx, b, k)
  {
  }

  lemma RxSlotExact(rxd: nat)
    requires rxd % 8 == 0
    ensures rxd % TABLE_SIZE == 8 * (rxd % TABLE_SIZE / 8)
  {
    var q, s := rxd / TABLE_SIZE, rxd % TABLE_SIZE;
    Digit(rxd, 8, 128 * q + s / 8, s % 8);
  }

  /** The slot the receive address register points at. */
  function RxSlot(d: Dev): (j: nat)
    requires d.regs.rxd % 8 == 0
    ensures j < RX_SLOTS && d.regs.rxd == TableBase(d.regs.rxd) + RX_SLOT_SIZE * j
  {
    RxSlotExact(d.regs.rxd);
    d.regs.rxd % TABLE_SIZE / RX_SLOT_SIZE
  }

  // ---- what each direction uses is on its side ----

  /** The range a transmission reads and writes. */
  lemma TxUses(tx: nat -> bool, d: Dev, m: Mem)
    requires TxSide(tx, d, m)
    ensures Inside(tx, d.regs.txd, TX_SLOT_SIZE)
    ensures DecideTx(d, m).TxSend? ==> TxBuffersInside(tx, DecideTx(d, m).desc)
  {
    hide CheckBit, TableBase, Inside, ReadWord, PacketOf, TxBuffersInside, TxDescr.Enabled, TxDescr.Wraps,
        TxDescr.Interrupts;
    var j := TxSlot(d);
    InsidePart(tx, TableBase(d.regs.txd), TABLE_SIZE, d.regs.txd, TX_SLOT_SIZE);
    assert TxTableOf(d, m)[j] == TxLoad(m, d.regs.txd);
  }

  lemma RxUses(tx: nat -> bool, d: Dev, m: Mem, p: RxPacket)
    requires RxSide(tx, d, m)
    ensures Outside(tx, d.regs.rxd, RX_SLOT_SIZE)
    ensures var b := DecideRx(d, m, p);
            b.RxStore? ==>
              Outside(tx, b.back.addr, |b.bytes|)
              && Disjoint(b.back.addr, |b.bytes|, TableBase(d.regs.rxd), TABLE_SIZE)
  {
    hide CheckBit, TableBase, ReadWord, RxAccepts, RxControl, RxLimit, RxDescr.Enabled, RxDescr.Wraps,
        RxDescr.Interrupts;
    var j, limit := RxSlot(d), RxLimit(d.regs.rxl);
    OutsidePart(tx, TableBase(d.regs.rxd), TABLE_SIZE, d.regs.rxd, RX_SLOT_SIZE);
    var desc := RxTableOf(d, m)[j];
    assert desc == RxLoad(m, d.regs.rxd);
    DeliveredFits(d.regs, p);
    if desc.Enabled() {
      OutsidePart(tx, desc.addr, limit, desc.addr, |Delivered(d.regs, p)|);
    }
  }

  lemma SidesApart(tx: nat -> bool, d: Dev, m: Mem, p: RxPacket)
    requires TxSide(tx, d, m) && RxSide(tx, d, m)
    ensures FootprintsApart(d, DecideTx(d, m), DecideRx(d, m, p))
  {
    hide DecideTx, DecideRx, Inside, Outside, Disjoint, TxSide, RxSide, TxDescr.HeaderLength, TxDescr.DataLength;
    var a, b := DecideTx(d, m), DecideRx(d, m, p);
    TxUses(tx, d, m);
    RxUses(tx, d, m, p);
    InOut(tx, d.regs.txd, TX_SLOT_SIZE, d.regs.rxd, RX_SLOT_SIZE);
    if a.TxSend? {
      InOut(tx, a.desc.headerAddr, a.desc.HeaderLength(), d.regs.rxd, RX_SLOT_SIZE);
      InOut(tx, a.desc.dataAddr, a.desc.DataLength(), d.regs.rxd, RX_SLOT_SIZE);
    }
    if b.RxStore? {
      InOut(tx, d.regs.txd, TX_SLOT_SIZE, b.back.addr, |b.bytes|);
      if a.TxSend? {
        InOut(tx, a.desc.headerAddr, a.desc.HeaderLength(), b.back.addr, |b.bytes|);
        InOut(tx, a.desc.dataAddr, a.desc.DataLength(), b.back.addr, |b.bytes|);
      }
    }
  }

  // ---- each direction keeps both sides ----

  ghost predicate SameInside(tx: nat -> bool, m: Mem, m': Mem) {
    forall x: nat {:trigger At(m', x)} :: tx(x) ==> At(m', x) == At(m, x)
  }

  ghost predicate SameOutside(tx: nat -> bool, m: Mem, m': Mem) {
    forall x: nat {:trigger At(m', x)} :: !tx(x) ==> At(m', x) == At(m, x)
  }

  lemma TxTableKept(tx: nat -> bool, m: Mem, m': Mem, base: nat)
    requires SameInside(tx, m, m') && Inside(tx, base, TABLE_SIZE)
    ensures TxTableAt(m', base) == TxTableAt(m, base)
  {
    hide At, ReadWord;
    forall k | 0 <= k < TX_SLOTS
      ensures TxTableAt(m', base)[k] == TxTableAt(m, base)[k]
    {
      var a := base + TX_SLOT_SIZE * k;
      assert forall x: nat {:trigger At(m', x)} :: a <= x < a + 16 ==> tx(x) && At(m', x) == At(m, x);
      TxLoadAgrees(m, m', a);
    }
  }

  lemma RxTableKept(tx: nat -> bool, m: Mem, m': Mem, base: nat)
    requires SameOutside(tx, m, m') && Outside(tx, base, TABLE_SIZE)
    ensures RxTableAt(m', base) == RxTableAt(m, base)
  {
    hide At, ReadWord;
    forall k | 0 <= k < RX_SLOTS
      ensures RxTableAt(m', base)[k] == RxTableAt(m, base)[k]
    {
      var a := base + RX_SLOT_SIZE * k;
      assert forall x: nat {:trigger At(m', x)} :: a <= x < a + 8 ==> !tx(x) && At(m', x) == At(m, x);
      RxLoadAgrees(m, m', a);
    }
  }

  lemma WriteOutside(tx: nat -> bool, m: Mem, a: nat, s: seq<byte>)
    requires Outside(tx, a, |s|)
    ensures SameInside(tx, m, Write(m, a, s))
  {
  }

  lemma SameInsideTwice(tx: nat -> bool, m: Mem, m': Mem, m'': Mem)
    requires SameInside(tx, m, m') && SameInside(tx, m', m'')
    ensures SameInside(tx, m, m'')
  {
  }

  lemma RxWritesOutside(tx: nat -> bool, d: Dev, m: Mem, p: RxPacket)
    requires RxSide(tx, d, m)
    ensures SameInside(tx, m, RxMem(d, m, p))
  {
    hide DecideRx, Write, BigEndian, RxSide, TableBase;
    var b := DecideRx(d, m, p);
    RxUses(tx, d, m, p);
    assert DevOk(d) by { RxSideReady(tx, d, m); }
    if b.RxStore? {
      OutsidePart(tx, d.regs.rxd, RX_SLOT_SIZE, d.regs.rxd, 4);
      hide Outside;
      var m1 := Write(m, b.back.addr, b.bytes);
      WriteOutside(tx, m, b.back.addr, b.bytes);
      WriteOutside(tx, m1, d.regs.rxd, BigEndian(b.back.ctrl));
      SameInsideTwice(tx, m, m1, Write(m1, d.regs.rxd, BigEndian(b.back.ctrl)));
      hide SameInside;
    } else {
      InsideSelf(tx, m);
    }
  }

  lemma RxSideReady(tx: nat -> bool, d: Dev, m: Mem)
    requires RxSide(tx, d, m)
    ensures RxReady(d)
  {
  }

  lemma InsideSelf(tx: nat -> bool, m: Mem)
    ensures SameInside(tx, m, m)
  {
  }

  /** A reception leaves the transmit address alone and the receive table in place. */
  lemma RxKeepsAddresses(d: Dev, m: Mem, p: RxPacket)
    requires RxReady(d)
    ensures var r := RxDev(d, m, p);
            && DevOk(r) && r.regs.txd == d.regs.txd && r.regs.rxl == d.regs.rxl && RxReady(r)
            && TableBase(r.regs.rxd) == TableBase(d.regs.rxd)
  {
    hide CheckBit, SetBit, ClearBit, ReadWord, RxSelect, EepStr, RxAccepts, RxWriteBack, Delivered, TableBase;
    hide RxDescr.Enabled, RxDescr.Wraps, RxDescr.Interrupts;
    RxSelectExact(d.regs.rxd, NextSlot(d.rxdCur, RxLoad(m, d.regs.rxd).Wraps(), RX_SLOTS));
  }

  /** In the receive table, a reception disables at most the slot it uses and changes no address. */
  lemma RxTableAfter(tx: nat -> bool, d: Dev, m: Mem, p: RxPacket, k: nat)
    requires RxSide(tx, d, m) && k < RX_SLOTS
    ensures var t, t' := RxTableOf(d, m), RxTableAt(RxMem(d, m, p), TableBase(d.regs.rxd));
            t'[k].addr == t[k].addr && (t'[k].Enabled() ==> t[k].Enabled())
  {
    hide CheckBit, TableBase, ReadWord, Write, WriteWord, RxAccepts, RxControl, RxLimit, Delivered, Outside, Disjoint;
    hide RxDescr.Enabled, RxDescr.Wraps, RxDescr.Interrupts, RxBuffersApart;
    var j, base := RxSlot(d), TableBase(d.regs.rxd);
    var desc := RxTableOf(d, m)[j];
    assert desc == RxLoad(m, d.regs.rxd);
    RxUses(tx, d, m, p);
    DeliveredFits(d.regs, p);
    RxControlExact(desc, |Delivered(d.regs, p)|, |p.data| > RxLimit(d.regs.rxl), p);
    if DecideRx(d, m, p).RxStore? {
      StoreInTable(m, base, j, Store(j, RxWriteBack(d, desc, p), Delivered(d.regs, p)));
    }
  }

  lemma RxKeepsRxSide(tx: nat -> bool, d: Dev, m: Mem, p: RxPacket)
    requires RxSide(tx, d, m)
    ensures DevOk(RxDev(d, m, p)) && RxSide(tx, RxDev(d, m, p), RxMem(d, m, p))
  {
    hide RxDev, RxMem, TableBase, RxTableAt, RxLimit, Outside, Disjoint, RxDescr.Enabled;
    RxKeepsAddresses(d, m, p);
    forall k | 0 <= k < RX_SLOTS
      ensures var t, t' := RxTableOf(d, m), RxTableAt(RxMem(d, m, p), TableBase(d.regs.rxd));
              t'[k].addr == t[k].addr && (t'[k].Enabled() ==> t[k].Enabled())
    {
      RxTableAfter(tx, d, m, p, k);
    }
  }

  lemma RxKeepsTxSide(tx: nat -> bool, d: Dev, m: Mem, p: RxPacket)
    requires TxSide(tx, d, m) && RxSide(tx, d, m)
    ensures DevOk(RxDev(d, m, p)) && TxSide(tx, RxDev(d, m, p), RxMem(d, m, p))
  {
    hide RxDev, RxMem, TableBase, TxTableAt, Inside, SameInside, RxSide, TxBuffersInside, TxDescr.Enabled;
    RxSideReady(tx, d, m);
    RxKeepsAddresses(d, m, p);
    RxWritesOutside(tx, d, m, p);
    TxTableKept(tx, m, RxMem(d, m, p), TableBase(d.regs.txd));
    assert TxTableOf(RxDev(d, m, p), RxMem(d, m, p)) == TxTableOf(d, m);
  }

  /** A call of txenable that sends. */
  lemma SendKeepsSides(tx: nat -> bool, d: Dev, m: Mem)
    requires TxSide(tx, d, m) && RxSide(tx, d, m) && !TxEnable(d, m).stop
    ensures var r := TxEnable(d, m); TxSide(tx, r.dev, r.mem) && RxSide(tx, r.dev, r.mem)
  {
    hide TxEnable, TableBase, TxTableAt, RxTableAt, Inside, Outside, RxBuffersApart, RxLimit, TxDescr.Enabled,
        TxDescr.Released;
    hide TxDescr.Wraps, TxDescr.Interrupts, TxDescr.HeaderLength, TxDescr.DataLength, RxDescr.Enabled, PacketOf,
        TxSelect;
    var r, j := TxEnable(d, m), TxSlot(d);
    SendStep(d, m);
    TxReleasedExact(TxTableOf(d, m)[j]);
    SameLengths(TxTableOf(d, m)[j]);
    OutsideTable(tx, m, r.mem, TableBase(d.regs.txd));
    RxTableKept(tx, m, r.mem, TableBase(d.regs.rxd));
  }

  lemma SameLengths(desc: TxDescr)
    ensures desc.Released().DataLength() == desc.DataLength()
  {
  }

  lemma OutsideTable(tx: nat -> bool, m: Mem, m': Mem, base: nat)
    requires AgreeOutside(m, m', base) && Inside(tx, base, TABLE_SIZE)
    ensures SameOutside(tx, m, m')
  {
  }

  // ---- the drained device and one reception ----

  /** The result of a loop and some receptions after it. */
  function ThenReceive(r: TxResult, ps: seq<RxPacket>): TxResult
    requires DevOk(r.dev)
  {
    var q := RxAll(r.dev, r.mem, ps);
    r.(dev := q.dev, mem := q.mem)
  }

  lemma DrainOk(d: Dev, m: Mem)
    requires TxReady(d)
    ensures DevOk(Drain(d, m).dev)
  {
    hide Drain;
    DrainLeavesTeClear(d, m);
  }

  lemma ReceiveOne(r: TxResult, p: RxPacket)
    requires DevOk(r.dev)
    ensures DevOk(RxDev(r.dev, r.mem, p))
    ensures ThenReceive(r, [p]) == r.(dev := RxDev(r.dev, r.mem, p), mem := RxMem(r.dev, r.mem, p))
  {
    hide RxDev, RxMem;
    var q := RxOne(r.dev, r.mem, p);
    assert [p][1..] == [];
    assert RxAll(q.dev, q.mem, []) == q;
  }

  /** txenable after a reception: the reception after txenable. */
  lemma EnableAfterRx(tx: nat -> bool, d: Dev, m: Mem, p: RxPacket)
    requires TxSide(tx, d, m) && RxSide(tx, d, m)
    ensures DevOk(RxDev(d, m, p)) && DevOk(TxEnable(d, m).dev)
    ensures TxEnable(RxDev(d, m, p), RxMem(d, m, p)) == ThenReceive(TxEnable(d, m), [p])
  {
    hide TxEnable, RxDev, RxMem, DecideTx, DecideRx, FootprintsApart, TxSide;
    RxKeepsAddresses(d, m, p);
    SidesApart(tx, d, m, p);
    ReceptionCommutes(d, m, p);
    ReceiveOne(TxEnable(d, m), p);
  }

  lemma {:induction false} DrainAfterRx(tx: nat -> bool, d: Dev, m: Mem, p: RxPacket)
    requires TxSide(tx, d, m) && RxSide(tx, d, m)
    ensures TxReady(RxDev(d, m, p)) && DevOk(Drain(d, m).dev)
    ensures Drain(RxDev(d, m, p), RxMem(d, m, p)) == ThenReceive(Drain(d, m), [p])
    decreases Count(TxRing(TxTableOf(d, m)))
  {
    hide TxEnable, RxDev, RxMem, Drain, TxSide, RxSide, ThenReceive, Count, TxTableAt;
    SidesReady(tx, d, m);
    RxKeepsAddresses(d, m, p);
    var d1, m1, r := RxDev(d, m, p), RxMem(d, m, p), TxEnable(d, m);
    DrainOk(d, m);
    EnableAfterRx(tx, d, m, p);
    LoopUnfolds(d, m);
    LoopUnfolds(d1, m1);
    StopAgrees(r, p);
    if !r.stop {
      SendConsumes(d, m);
      SendKeepsSides(tx, d, m);
      DrainAfterRx(tx, r.dev, r.mem, p);
      SentThen(r, Drain(r.dev, r.mem), [p]);
    }
  }

  lemma SidesReady(tx: nat -> bool, d: Dev, m: Mem)
    requires TxSide(tx, d, m) && RxSide(tx, d, m)
    ensures TxReady(d) && RxReady(d)
  {
  }

  lemma StopAgrees(r: TxResult, p: RxPacket)
    requires DevOk(r.dev)
    ensures ThenReceive(r, [p]).stop == r.stop && ThenReceive(r, [p]).sent == r.sent
    ensures var q := ThenReceive(r, [p]); q.dev == RxDev(r.dev, r.mem, p) && q.mem == RxMem(r.dev, r.mem, p)
  {
    hide RxDev, RxMem;
    ReceiveOne(r, p);
  }

  // ---- sequences of receptions ----

  lemma {:induction false} RxAllKeepsSides(tx: nat -> bool, d: Dev, m: Mem, ps: seq<RxPacket>)
    requires TxSide(tx, d, m) && RxSide(tx, d, m)
    ensures var q := RxAll(d, m, ps); TxSide(tx, q.dev, q.mem) && RxSide(tx, q.dev, q.mem)
    decreases |ps|
  {
    hide RxDev, RxMem, TxSide, RxSide;
    SidesReady(tx, d, m);
    if ps != [] {
      RxKeepsRxSide(tx, d, m, ps[0]);
      RxKeepsTxSide(tx, d, m, ps[0]);
      RxAllKeepsSides(tx, RxDev(d, m, ps[0]), RxMem(d, m, ps[0]), ps[1..]);
    }
  }

  lemma {:induction false} RxAllAppend(d: Dev, m: Mem, ps: seq<RxPacket>, qs: seq<RxPacket>)
    requires DevOk(d)
    ensures var q := RxAll(d, m, ps); RxAll(q.dev, q.mem, qs) == RxAll(d, m, ps + qs)
    decreases |ps|
  {
    hide RxDev, RxMem;
    if ps == [] {
      assert ps + qs == qs;
    } else {
      var r := RxOne(d, m, ps[0]);
      RxAllAppend(r.dev, r.mem, ps[1..], qs);
      assert (ps + qs)[1..] == ps[1..] + qs;
    }
  }

  lemma ThenAppend(r: TxResult, ps: seq<RxPacket>, qs: seq<RxPacket>)
    requires DevOk(r.dev)
    ensures DevOk(ThenReceive(r, ps).dev) && ThenReceive(ThenReceive(r, ps), qs) == ThenReceive(r, ps + qs)
  {
    RxAllAppend(r.dev, r.mem, ps, qs);
    hide RxAll;
  }

  /** The loop after some receptions: the receptions after the loop. */
  lemma {:induction false} DrainAfterRxAll(tx: nat -> bool, d: Dev, m: Mem, ps: seq<RxPacket>)
    requires TxSide(tx, d, m) && RxSide(tx, d, m)
    ensures TxReady(RxAll(d, m, ps).dev) && DevOk(Drain(d, m).dev)
    ensures var q := RxAll(d, m, ps); Drain(q.dev, q.mem) == ThenReceive(Drain(d, m), ps)
    decreases |ps|
  {
    hide RxDev, RxMem, Drain, TxSide, RxSide, ThenReceive;
    SidesReady(tx, d, m);
    DrainOk(d, m);
    if ps == [] {
      NoneReceived(Drain(d, m));
    } else {
      var d1, m1 := RxDev(d, m, ps[0]), RxMem(d, m, ps[0]);
      DrainAfterRx(tx, d, m, ps[0]);
      RxKeepsRxSide(tx, d, m, ps[0]);
      RxKeepsTxSide(tx, d, m, ps[0]);
      DrainAfterRxAll(tx, d1, m1, ps[1..]);
      ThenAppend(Drain(d, m), [ps[0]], ps[1..]);
      assert [ps[0]] + ps[1..] == ps;
    }
  }

  lemma NoneReceived(r: TxResult)
    requires DevOk(r.dev)
    ensures ThenReceive(r, []) == r
  {
  }

  /** Receptions before the release of a descriptor: the same after it. */
  lemma {:induction false} ReleaseAfterRxAll(tx: nat -> bool, d: Dev, m: Mem, p: Pending, ps: seq<RxPacket>)
    requires RxSide(tx, d, m) && p.slot < TX_SLOTS && Inside(tx, p.addr, 4)
    ensures DevOk(d) && DevOk(TxFinishDev(d, p))
    ensures var q := RxAll(d, m, ps);
            DevMem(TxFinishDev(q.dev, p), TxFinishMem(q.dev, q.mem, p))
                == RxAll(TxFinishDev(d, p), TxFinishMem(d, m, p), ps)
    decreases |ps|
  {
    hide RxDev, RxMem, TxFinishDev, TxFinishMem, DecideRx, RxSide, Inside, Outside;
    RxSideReady(tx, d, m);
    if ps != [] {
      RxUses(tx, d, m, ps[0]);
      InOut(tx, p.addr, 4, d.regs.rxd, RX_SLOT_SIZE);
      if DecideRx(d, m, ps[0]).RxStore? {
        InOut(tx, p.addr, 4, DecideRx(d, m, ps[0]).back.addr, |DecideRx(d, m, ps[0]).bytes|);
      }
      ReleaseCommutes(d, m, p, ps[0]);
      RxKeepsRxSide(tx, d, m, ps[0]);
      ReleaseAfterRxAll(tx, RxDev(d, m, ps[0]), RxMem(d, m, ps[0]), p, ps[1..]);
    }
  }

  // ---- the loop with receptions at its waits ----

  function Flatten(rs: seq<seq<RxPacket>>): seq<RxPacket> {
    if rs == [] then [] else rs[0] + Flatten(rs[1..])
  }

  lemma BeginReady(d: Dev, m: Mem)
    requires TxReady(d)
    ensures var r := TxBegin(d, m).dev;
            TxReady(r) && r.regs.rxd == d.regs.rxd && r.regs.rxl == d.regs.rxl && r.rxdCur == d.rxdCur
    ensures TxBegin(d, m).Started? ==> TxBegin(d, m).pending == Pending(d.txdCur, d.regs.txd)
  {
    hide CheckBit, SetBit, ClearBit, ReadWord, PacketOf, TxSelect, TxDescr.Enabled, TxDescr.Wraps, TxDescr.Interrupts;
    TxSelectExact(d.regs.txd, NextSlot(d.txdCur, TxLoad(m, d.regs.txd).Wraps(), TX_SLOTS));
  }

  lemma {:induction false} RxAllKeepsTxd(d: Dev, m: Mem, ps: seq<RxPacket>)
    requires TxReady(d)
    ensures TxReady(RxAll(d, m, ps).dev)
    decreases |ps|
  {
    hide RxMem, RxDev;
    if ps != [] {
      RxAllKeepsTxd(RxDev(d, m, ps[0]), RxMem(d, m, ps[0]), ps[1..]);
    }
  }

  /** The loop, the packets of rs[i] being received at its wait number i. What is left of rs when the loop
      ends is received then. */
  function DrainWith(d: Dev, m: Mem, rs: seq<seq<RxPacket>>): TxResult
    requires TxReady(d)
    decreases |rs|
  {
    if rs == [] then Drain(d, m)
    else
      BeginReady(d, m);
      match TxBegin(d, m)
      case Stopped(d1) =>
        var q := RxAll(d1, m, Flatten(rs));
        TxResult(q.dev, q.mem, [], true)
      case Started(d1, packet, pending) =>
        RxAllKeepsTxd(d1, m, rs[0]);
        var q := RxAll(d1, m, rs[0]);
        var rest := DrainWith(TxFinishDev(q.dev, pending), TxFinishMem(q.dev, q.mem, pending), rs[1..]);
        rest.(sent := [packet] + rest.sent)
  }

  lemma BeginKeepsRxSide(tx: nat -> bool, d: Dev, m: Mem)
    requires TxReady(d) && RxSide(tx, d, m)
    ensures DevOk(TxBegin(d, m).dev) && RxSide(tx, TxBegin(d, m).dev, m)
  {
    hide TxBegin, RxTableAt, TableBase, RxLimit, Outside, RxBuffersApart;
    BeginReady(d, m);
  }

  lemma SendStarts(d: Dev, m: Mem)
    requires TxReady(d)
    ensures var s, r := TxBegin(d, m), TxEnable(d, m);
            && DevOk(s.dev) && r.stop == s.Stopped?
            && (s.Stopped? ==> r == TxResult(s.dev, m, [], true))
            && (s.Started? ==>
                  && s.pending.slot < TX_SLOTS
                  && r == TxResult(TxFinishDev(s.dev, s.pending), TxFinishMem(s.dev, m, s.pending), [s.packet], false))
  {
    hide TxBegin, TxFinishDev, TxFinishMem;
    BeginReady(d, m);
  }

  /** With the two directions apart, receptions at the waits of the loop change nothing for it: the packets
      sent, the transmit side of the device and of the RAM are those of the undisturbed loop, and the
      receptions leave what they leave after it. */
  lemma {:induction false} DrainReceiving(tx: nat -> bool, d: Dev, m: Mem, rs: seq<seq<RxPacket>>)
    requires TxSide(tx, d, m) && RxSide(tx, d, m)
    ensures DevOk(Drain(d, m).dev) && DrainWith(d, m, rs) == ThenReceive(Drain(d, m), Flatten(rs))
    decreases |rs|
  {
    hide TxBegin, TxEnable, TxFinishDev, TxFinishMem, RxAll, Drain, TxSide, RxSide, ThenReceive, Flatten, Inside;
    SidesReady(tx, d, m);
    DrainOk(d, m);
    BeginReady(d, m);
    SendStarts(d, m);
    LoopUnfolds(d, m);
    if rs == [] {
      FlattenNone();
      NoneReceived(Drain(d, m));
    } else if TxBegin(d, m).Stopped? {
      StopsThenReceives(d, m, rs);
    } else {
      SendsThenReceives(tx, d, m, rs);
    }
  }

  lemma FlattenNone()
    ensures Flatten([]) == []
  {
  }

  lemma StopsThenReceives(d: Dev, m: Mem, rs: seq<seq<RxPacket>>)
    requires TxReady(d) && rs != [] && TxBegin(d, m).Stopped? && DevOk(Drain(d, m).dev)
    ensures DrainWith(d, m, rs) == ThenReceive(Drain(d, m), Flatten(rs))
  {
    hide TxBegin, TxEnable, RxAll, Flatten, Drain;
    SendStarts(d, m);
    LoopUnfolds(d, m);
  }

  lemma SendsThenReceives(tx: nat -> bool, d: Dev, m: Mem, rs: seq<seq<RxPacket>>)
    requires TxSide(tx, d, m) && RxSide(tx, d, m) && rs != [] && TxBegin(d, m).Started? && DevOk(Drain(d, m).dev)
    ensures DrainWith(d, m, rs) == ThenReceive(Drain(d, m), Flatten(rs))
    decreases |rs|, 0
  {
    hide TxBegin, TxEnable, TxFinishDev, TxFinishMem, RxAll, Drain, TxSide, RxSide, ThenReceive, Inside, Outside;
    SidesReady(tx, d, m);
    BeginReady(d, m);
    SendStarts(d, m);
    LoopUnfolds(d, m);
    var s, r := TxBegin(d, m), TxEnable(d, m);
    BeginKeepsRxSide(tx, d, m);
    TxUses(tx, d, m);
    InsidePart(tx, d.regs.txd, TX_SLOT_SIZE, d.regs.txd, 4);
    ReleaseAfterRxAll(tx, s.dev, m, s.pending, rs[0]);
    SendKeepsSides(tx, d, m);
    RxAllKeepsSides(tx, r.dev, r.mem, rs[0]);
    var q := RxAll(r.dev, r.mem, rs[0]);
    DrainReceiving(tx, q.dev, q.mem, rs[1..]);
    DrainAfterRxAll(tx, r.dev, r.mem, rs[0]);
    var rest := Drain(r.dev, r.mem);
    ThenAppend(rest, rs[0], Flatten(rs[1..]));
    SentThen(r, rest, Flatten(rs));
    RxAllKeepsTxd(s.dev, m, rs[0]);
    var w := RxAll(s.dev, m, rs[0]);
    assert DrainWith(d, m, rs)
        == var after := DrainWith(TxFinishDev(w.dev, s.pending), TxFinishMem(w.dev, w.mem, s.pending), rs[1..]);
           after.(sent := [s.packet] + after.sent);
  }

  lemma SentThen(r: TxResult, rest: TxResult, ps: seq<RxPacket>)
    requires DevOk(rest.dev)
    ensures ThenReceive(rest.(sent := r.sent + rest.sent), ps)
         == ThenReceive(rest, ps).(sent := r.sent + ThenReceive(rest, ps).sent)
  {
    hide RxAll;
  }
}
