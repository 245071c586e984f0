/** One core of the device in its own form: an object whose fields the functions of grlib_comgrspw.c
    update in place. Every method is tied to the function of Dma that says what it does. */
module Devices {
  import opened BitOps
  import opened Leon3Ram
  import opened Messages
  import opened Registers
  import opened Descriptors
  import opened Dma

  /** The static buffers between the RAM and the queues. */
  class Buffers {
    const txdata: array<byte>
    const txheader: array<byte>
    const rxdata: array<byte>
    const rxheader: array<byte>

    ghost predicate Valid() {
      && txdata.Length == rxdata.Length == MAX_DATA && txheader.Length == rxheader.Length == MAX_HEADER
      && txdata != txheader && txdata != rxdata && txdata != rxheader
      && txheader != rxdata && txheader != rxheader && rxdata != rxheader
    }

    /** Shared with no queue. */
    ghost predicate ApartFrom(mq: MessageQueues) {
      {txdata, txheader, rxdata, rxheader} !! {mq.txbuffer, mq.rxbuffer}
    }

    constructor ()
      ensures Valid() && fresh(txdata) && fresh(txheader) && fresh(rxdata) && fresh(rxheader)
    {
      txdata := new byte[MAX_DATA];
      txheader := new byte[MAX_HEADER];
      rxdata := new byte[MAX_DATA];
      rxheader := new byte[MAX_HEADER];
    }
  }

  /** A host word stored through the byte swap. */
  method StoreWord(ram: Ram, addr: nat, w: uint32)
    modifies ram
    ensures ram.cells == WriteWord(old(ram.cells), addr, w)
  {
    hide LittleEndian, BigEndian, Write;
    var buff := new byte[4];
    CopyInto(buff, 0, LittleEndian(w));
    HostWordRoundTrip(w);
    assert buff[..4] == LittleEndian(w);
    ram.WriteBytes(addr, buff, 4, true);
  }

  class Device {
    const id: nat
    const regs: RegisterFile
    const txdMap: array<TxDescr>
    const rxdMap: array<RxDescr>
    var txdCur: nat
    var rxdCur: nat
    /** Interrupts raised so far. */
    var irqs: nat

    ghost predicate Valid()
      reads this
    {
      id < CORES && txdMap.Length == TX_SLOTS && rxdMap.Length == RX_SLOTS && txdCur < TX_SLOTS && rxdCur < RX_SLOTS
    }

    ghost function View(): (d: Dev)
      requires Valid()
      reads this, regs, txdMap, rxdMap
      ensures DevOk(d)
    {
      Dev(id, regs.View(), txdCur, rxdCur, txdMap[..], rxdMap[..], irqs)
    }

    lemma ViewFields()
      requires Valid()
      ensures View().id == id && View().txdCur == txdCur && View().rxdCur == rxdCur
      ensures View().regs.chn == regs.chn && View().regs.txd == regs.txd && View().regs.rxd == regs.rxd
      ensures View().regs.rxl == regs.rxl
    {
    }

    /** A device in zeroed memory. */
    constructor (id: nat)
      requires id < CORES
      ensures Valid() && this.id == id && fresh(regs) && fresh(txdMap) && fresh(rxdMap)
      ensures View() == Zeroed(id)
    {
      this.id := id;
      regs := new RegisterFile();
      txdMap := new TxDescr[TX_SLOTS](_ => TxDescr(0, 0, 0, 0));
      rxdMap := new RxDescr[RX_SLOTS](_ => RxDescr(0, 0));
      txdCur, rxdCur, irqs := 0, 0, 0;
    }

    // ---- transmission ----

    method LoadTx(slot: nat, addr: nat, ram: Ram) returns (desc: TxDescr)
      requires Valid() && slot < TX_SLOTS
      modifies txdMap
      ensures desc == TxLoad(ram.cells, addr)
      ensures View() == var v := old(View()); v.(txdMap := v.txdMap[slot := TxLoad(ram.cells, addr)])
    {
      hide HostWord, ReadWord, Swapped, Read;
      var buff := new byte[16];
      ram.ReadBytes(addr, buff, 16, true);
      ghost var s := buff[..16];
      SwappedWord(ram.cells, addr, 16, 0);
      SwappedWord(ram.cells, addr, 16, 4);
      SwappedWord(ram.cells, addr, 16, 8);
      SwappedWord(ram.cells, addr, 16, 12);
      assert buff[0..4] == s[0..4] && buff[4..8] == s[4..8] && buff[8..12] == s[8..12] && buff[12..16] == s[12..16];
      desc := TxDescr(HostWord(buff[0..4]), HostWord(buff[4..8]), HostWord(buff[8..12]), HostWord(buff[12..16]));
      txdMap[slot] := desc;
    }

    /** Copies the buffers of a descriptor and sends them. */
    method SendDescriptor(desc: TxDescr, ram: Ram, mq: MessageQueues, b: Buffers) returns (fatal: bool)
      requires Valid() && mq.Valid() && b.Valid() && b.ApartFrom(mq)
      modifies mq`spwq, mq`sent, mq.txbuffer, b.txdata, b.txheader
      ensures mq.Valid() && fatal == (PacketOf(id, desc, ram.cells).FrameLength() > MAX_MESSAGE)
      ensures mq.sent == old(mq.sent) + if fatal then [] else [PacketOf(id, desc, ram.cells)]
    {
      TxMasks(desc);
      hide And, Encode, Frame, Read;
      var dataLength := And(desc.len, TDW2_DATA_LENGTH);
      var headerLength := And(desc.ctrl, TDW0_HEADER_LENGTH);
      ram.ReadBytes(desc.dataAddr, b.txdata, dataLength, false);
      ram.ReadBytes(desc.headerAddr, b.txheader, headerLength, false);
      fatal := mq.SendSpwPacket(id, DATA, b.txheader, headerLength, b.txdata, dataLength);
    }

    /** Records the packet as sent and moves on in the ring. */
    method AdvanceTx(desc: TxDescr)
      requires Valid()
      modifies this`txdCur, regs
      ensures Valid()
      ensures View() == var v, next := old(View()), NextSlot(old(txdCur), desc.Wraps(), TX_SLOTS);
                        v.(txdCur := next, regs := v.regs.(chn := SetBit(v.regs.chn, CHN_PS),
                            txd := TxSelect(v.regs.txd, next)))
    {
      TxMasks(desc);
      hide Check, Insert, SetBit, TxSelect, TxDescr.Enabled, TxDescr.Interrupts, TxDescr.Released;
      regs.chn := SetBit(regs.chn, CHN_PS);
      txdCur := if Check(desc.ctrl, TDW0_WR) then 0 else (txdCur + 1) % TX_SLOTS;
      TxSelectMask(regs.txd, txdCur);
      regs.txd := Insert(regs.txd, TXD_DESC_SELECT, 16 * txdCur);
    }

    method StopTx()
      requires Valid()
      modifies regs
      ensures View() == var v := old(View()); v.(regs := v.regs.(chn := ClearBit(v.regs.chn, CHN_TE)))
    {
      hide ClearBit;
      regs.chn := ClearBit(regs.chn, CHN_TE);
    }

    /** txenable up to the wait for the acknowledgement. A packet too long for the queue ends the
        process. */
    method TxBegin(ram: Ram, mq: MessageQueues, b: Buffers) returns (stop: bool, fatal: bool, p: Pending)
      requires Valid() && mq.Valid() && b.Valid() && b.ApartFrom(mq)
      modifies this`txdCur, regs, txdMap, mq`spwq, mq`sent, mq.txbuffer, b.txdata, b.txheader
      ensures Valid() && mq.Valid()
      ensures match Dma.TxBegin(old(View()), ram.cells)
              case Stopped(d) => stop && !fatal && View() == d && mq.sent == old(mq.sent)
              case Started(d, packet, pending) =>
                && !stop && fatal == (packet.FrameLength() > MAX_MESSAGE)
                && mq.sent == old(mq.sent) + (if fatal then [] else [packet])
                && (!fatal ==> View() == d && p == pending)
    {
      hide View, RegisterFile.View, Check, CheckBit, SetBit, ClearBit, TxSelect, TxLoad, PacketOf, Packet.FrameLength;
      hide TxDescr.Enabled, TxDescr.Wraps, TxDescr.Interrupts, TxDescr.Released, TxDescr.HeaderLength;
      hide TxDescr.DataLength;
      ViewFields();
      stop, fatal, p := true, false, Pending(0, 0);
      if CheckBit(regs.chn, CHN_TE) {
        var cur, addr := txdCur, regs.txd;
        var desc := LoadTx(cur, addr, ram);
        TxMasks(desc);
        if Check(desc.ctrl, TDW0_EN) {
          stop := false;
          fatal := SendDescriptor(desc, ram, mq, b);
          if !fatal {
            AdvanceTx(desc);
            p := Pending(cur, addr);
          }
        } else {
          StopTx();
        }
      }
    }

    /** txenable after the acknowledgement. */
    method TxFinish(p: Pending, ram: Ram)
      requires Valid() && p.slot < TX_SLOTS
      modifies this`irqs, txdMap, ram
      ensures Valid() && View() == TxFinishDev(old(View()), p)
      ensures ram.cells == TxFinishMem(old(View()), old(ram.cells), p)
    {
      hide Check, Clear, CheckBit, WriteWord;
      TxMasks(txdMap[p.slot]);
      TxMasks(txdMap[p.slot].Released());
      hide TxDescr.Enabled, TxDescr.Wraps, TxDescr.Interrupts;
      var ctrl := Clear(txdMap[p.slot].ctrl, TDW0_EN);
      txdMap[p.slot] := txdMap[p.slot].(ctrl := ctrl);
      StoreWord(ram, p.addr, ctrl);
      if Check(ctrl, TDW0_IE) && CheckBit(regs.chn, CHN_TI) {
        irqs := irqs + 1;
      }
    }

    /** A whole call of txenable, the acknowledgement coming at once. */
    method TxEnable(ram: Ram, mq: MessageQueues, b: Buffers) returns (stop: bool, fatal: bool)
      requires Valid() && mq.Valid() && b.Valid() && b.ApartFrom(mq)
      modifies this`txdCur, this`irqs, regs, txdMap, ram, mq`spwq, mq`sent, mq.txbuffer, b.txdata, b.txheader
      ensures Valid() && mq.Valid()
      ensures var r := Dma.TxEnable(old(View()), old(ram.cells));
              && stop == r.stop && fatal == (exists p :: p in r.sent && p.FrameLength() > MAX_MESSAGE)
              && mq.sent == old(mq.sent) + (if fatal then [] else r.sent)
              && (!fatal ==> View() == r.dev && ram.cells == r.mem)
    {
      hide Dma.TxBegin, TxFinishDev, TxFinishMem, Packet.FrameLength;
      var p: Pending;
      ghost var v, m := View(), ram.cells;
      stop, fatal, p := TxBegin(ram, mq, b);
      if !stop && !fatal {
        TxFinish(p, ram);
      }
    }

    // ---- reception ----

    method LoadRx(slot: nat, addr: nat, ram: Ram) returns (desc: RxDescr)
      requires Valid() && slot < RX_SLOTS
      modifies rxdMap
      ensures desc == RxLoad(ram.cells, addr)
      ensures View() == var v := old(View()); v.(rxdMap := v.rxdMap[slot := RxLoad(ram.cells, addr)])
    {
      hide HostWord, ReadWord, Swapped, Read;
      var buff := new byte[8];
      ram.ReadBytes(addr, buff, 8, true);
      ghost var s := buff[..8];
      SwappedWord(ram.cells, addr, 8, 0);
      SwappedWord(ram.cells, addr, 8, 4);
      assert buff[0..4] == s[0..4] && buff[4..8] == s[4..8];
      desc := RxDescr(HostWord(buff[0..4]), HostWord(buff[4..8]));
      rxdMap[slot] := desc;
    }

    method StopRx()
      requires Valid()
      modifies regs
      ensures View() == var v := old(View()); v.(regs := v.regs.(chn := ClearBit(v.regs.chn, CHN_RD)))
    {
      hide ClearBit;
      regs.chn := ClearBit(regs.chn, CHN_RD);
    }

    /** Copies the packet, cut to the receive limit, and writes its control word. */
    method FillDescriptor(desc: RxDescr, data: array<byte>, length: nat, p: RxPacket, ram: Ram) returns (back: RxDescr)
      requires Valid() && length <= data.Length && p.data == data[..length]
      modifies rxdMap, ram
      ensures back == RxWriteBack(old(View()), desc, p)
      ensures View() == var v := old(View()); v.(rxdMap := v.rxdMap[v.rxdCur := back])
      ensures var v := old(View());
              ram.cells == WriteWord(Write(old(ram.cells), desc.addr, Delivered(v.regs, p)), v.regs.rxd, back.ctrl)
    {
      hide And, RxControl, Write, WriteWord, RxLimit, RegisterFile.View;
      ghost var was := View();
      ViewFields();
      RxLimitMask(regs.rxl);
      DeliveredFits(was.regs, p);
      var limit := And(regs.rxl, RXL_MAX_LENGTH);
      var truncated := length > limit;
      var n := if truncated then limit else length;
      assert data[..n] == Delivered(was.regs, p);
      var ctrl := ReceiveControl(desc, n, truncated, p);
      ram.WriteBytes(desc.addr, data, n, false);
      back := desc.(ctrl := ctrl);
      rxdMap[rxdCur] := back;
      StoreWord(ram, regs.rxd, ctrl);
    }

    method RecordRx(ep: bool)
      requires Valid()
      modifies regs
      ensures View() == var v := old(View());
          v.(regs := v.regs.(str := EepStr(v.regs.str, ep), chn := SetBit(v.regs.chn, CHN_PR)))
    {
      hide SetBit;
      if ep {
        regs.str := SetBit(regs.str, STR_EE);
      }
      regs.chn := SetBit(regs.chn, CHN_PR);
    }

    method AdvanceRx(desc: RxDescr)
      requires Valid()
      modifies this`rxdCur, regs
      ensures Valid()
      ensures View() == var v, next := old(View()), NextSlot(old(rxdCur), desc.Wraps(), RX_SLOTS);
                        v.(rxdCur := next, regs := v.regs.(rxd := RxSelect(v.regs.rxd, next)))
    {
      RxMasks(desc);
      hide Check, Insert, RxSelect, RxDescr.Enabled, RxDescr.Interrupts;
      rxdCur := if Check(desc.ctrl, TRW0_WR) then 0 else (rxdCur + 1) % RX_SLOTS;
      RxSelectMask(regs.rxd, rxdCur);
      regs.rxd := Insert(regs.rxd, RXD_DESC_SELECT, 8 * rxdCur);
    }

    method Interrupt(asked: bool)
      requires Valid()
      modifies this`irqs
      ensures Valid() && View() == var v := old(View()); v.(irqs := v.irqs + Pulse(asked, v.regs))
    {
      hide CheckBit;
      if asked && CheckBit(regs.chn, CHN_TI) {
        irqs := irqs + 1;
      }
    }

    /** A packet that is accepted and finds an enabled descriptor. */
    method Deliver(desc: RxDescr, data: array<byte>, length: nat, p: RxPacket, ram: Ram)
      requires Valid() && length <= data.Length && p.data == data[..length]
      modifies this`rxdCur, this`irqs, regs, rxdMap, ram
      ensures Valid()
      ensures View() == RxEffect(old(View()), DeliverTo(old(View()), desc, p))
      ensures ram.cells == RxMemEffect(old(regs.rxd), old(ram.cells), DeliverTo(old(View()), desc, p))
    {
      hide View, RegisterFile.View, Check, CheckBit, SetBit, RxSelect, RxControl, RxLimit, Delivered, Write;
      hide WriteWord, EepStr;
      ghost var v := View();
      ViewFields();
      DeliveredFits(v.regs, p);
      RxControlExact(desc, |Delivered(v.regs, p)|, |p.data| > RxLimit(v.regs.rxl), p);
      CheckOtherSet(v.regs.chn, CHN_PR, CHN_TI);
      hide RxDescr.Enabled, RxDescr.Wraps, RxDescr.Interrupts, RxDescr.Truncated, RxDescr.DataCrc;
      hide RxDescr.HeaderCrc, RxDescr.Eep;
      var back := FillDescriptor(desc, data, length, p, ram);
      RxMasks(back);
      RecordRx(p.ep);
      AdvanceRx(back);
      Interrupt(Check(back.ctrl, TRW0_IE));
    }

    /** A packet that is accepted while descriptors are available. */
    method TakePacket(data: array<byte>, length: nat, p: RxPacket, ram: Ram)
      requires Valid() && length <= data.Length && p.data == data[..length]
      requires RxAccepts(View().regs, p) && CheckBit(View().regs.chn, CHN_RD)
      modifies this`rxdCur, this`irqs, regs, rxdMap, ram
      ensures Valid()
      ensures View() == RxDev(old(View()), old(ram.cells), p) && ram.cells == RxMem(old(View()), old(ram.cells), p)
    {
      hide View, RegisterFile.View, Check, CheckBit, SetBit, ClearBit, RxSelect, RxLoad, RxAccepts, RxDev;
      hide RxMem, RxEffect, RxMemEffect, DeliverTo;
      hide RxDescr.Enabled, RxDescr.Wraps, RxDescr.Interrupts;
      ghost var v := View();
      ViewFields();
      var desc := LoadRx(rxdCur, regs.rxd, ram);
      RxMasks(desc);
      TakenByLoad(v, ram.cells, p);
      if Check(desc.ctrl, TRW0_EN) {
        Deliver(desc, data, length, p, ram);
      } else {
        StopRx();
      }
    }

    /** rxenable: the packet is in the first length bytes of data. */
    method RxEnable(data: array<byte>, length: nat, dc: bool, hc: bool, ep: bool, ram: Ram)
      requires Valid() && length <= data.Length && data.Length > 0
      modifies this`rxdCur, this`irqs, regs, rxdMap, ram
      ensures Valid()
      ensures var p := RxPacket(data[0], data[..length], dc, hc, ep);
              View() == RxDev(old(View()), old(ram.cells), p) && ram.cells == RxMem(old(View()), old(ram.cells), p)
    {
      hide CheckBit, SetBit, ClearBit, RxSelect, RxLoad, RxWriteBack, Delivered, Write, WriteWord, EepStr;
      hide RxDescr.Enabled, RxDescr.Wraps, RxDescr.Interrupts;
      if CheckBit(regs.chn, CHN_RE) {
        if CheckBit(regs.ctr, CTR_OPM) || regs.ndr == data[0] as int {
          if CheckBit(regs.chn, CHN_RD) {
            hide RxDev, RxMem, View;
            TakePacket(data, length, RxPacket(data[0], data[..length], dc, hc, ep), ram);
          }
        }
      }
    }

    /** rxtimecode */
    method RxTimecode(code: byte)
      requires Valid()
      modifies this`irqs, regs
      ensures Valid() && View() == Dma.RxTimecode(old(View()), code)
    {
      hide SetBit, CheckBit;
      if regs.tim < code as int {
        regs.tim := code as int;
        regs.str := SetBit(regs.str, STR_TO);
        if CheckBit(regs.ctr, CTR_TQ) {
          irqs := irqs + 1;
        }
      }
    }
  }

  /** A reception told from the device that has already loaded the descriptor. */
  lemma TakenByLoad(d: Dev, m: Mem, p: RxPacket)
    requires DevOk(d) && RxAccepts(d.regs, p) && CheckBit(d.regs.chn, CHN_RD)
    ensures var desc := RxLoad(m, d.regs.rxd);
            var v := d.(rxdMap := d.rxdMap[d.rxdCur := desc]);
            if desc.Enabled() then RxDev(d, m, p) == RxEffect(v, DeliverTo(v, desc, p))
                && RxMem(d, m, p) == RxMemEffect(d.regs.rxd, m, DeliverTo(v, desc, p))
            else RxDev(d, m, p) == v.(regs := v.regs.(chn := ClearBit(v.regs.chn, CHN_RD))) && RxMem(d, m, p) == m
  {
    hide CheckBit, SetBit, ClearBit, RxSelect, RxLoad, RxAccepts, Write, WriteWord, EepStr, RxControl;
    hide Delivered, RxLimit;
    hide RxDescr.Enabled, RxDescr.Wraps, RxDescr.Interrupts;
  }
}
