/** The four cores together (grlib_apbgrspw.c, grlib_coregrspw.c): their initialisation, the guest
    write handler, the dispatch of incoming messages and the loops of the transmit thread. */
module Boards {
  import opened BitOps
  import opened Leon3Ram
  import opened Messages
  import opened Registers
  import opened Dma
  import opened Devices
  import Drain
  import opened DmaBytes
  import opened Isolation
  import Scripts

  /** The loop of the transmit thread on one core, and the call after it. */
  method DrainDevice(device: Device, ram: Ram, mq: MessageQueues, b: Buffers) returns (fatal: bool)
    requires device.Valid() && mq.Valid() && b.Valid() && b.ApartFrom(mq) && Drain.TxReady(device.View())
    modifies device`txdCur, device`irqs, device.regs, device.txdMap, ram, mq`spwq, mq`sent, mq.txbuffer, b.txdata,
        b.txheader
    ensures device.Valid() && mq.Valid()
    ensures var r := Drain.Drain(old(device.View()), old(ram.cells));
            && fatal == (exists p :: p in r.sent && p.FrameLength() > MAX_MESSAGE)
            && (!fatal ==> device.View() == r.dev && ram.cells == r.mem && mq.sent == old(mq.sent) + r.sent)
  {
    hide Drain.Drain, TxEnable, Packet.FrameLength, Device.View, Drain.TxReady, Drain.LeftToSend;
    ghost var v0, m0 := device.View(), ram.cells;
    ghost var all := Drain.Drain(v0, m0);
    ghost var done: seq<Packet> := [];
    var stop := false;
    fatal := false;
    assert [] + all.sent == all.sent;
    while !stop
      invariant device.Valid() && mq.Valid() && Drain.TxReady(device.View()) && !fatal
      invariant mq.sent == old(mq.sent) + done
      invariant forall p :: p in done ==> p.FrameLength() <= MAX_MESSAGE
      invariant if stop then all == TxResult(device.View(), ram.cells, done, true)
                else all == Drain.JoinSent(done, Drain.Drain(device.View(), ram.cells))
      decreases !stop, Drain.LeftToSend(device.View(), ram.cells)
    {
      ghost var v, m := device.View(), ram.cells;
      ghost var r := TxEnable(v, m);
      Drain.LoopUnfolds(v, m);
      Drain.JoinTwice(done, r);
      stop, fatal := device.TxEnable(ram, mq, b);
      if fatal {
        return;
      }
      done := done + r.sent;
    }
    Drain.DrainLeavesTeClear(v0, m0);
    stop, fatal := device.TxEnable(ram, mq, b);
  }

  // ---- the four cores ----

  /** The loop of the transmit thread on core c. */
  ghost function DrainIn(w: World, c: nat): (r: World)
    requires Valid(w) && c < CORES && Drain.TxReady(w.cores[c])
    ensures Valid(r)
    ensures TxAllReady(w) ==> TxAllReady(r)
  {
    DrainReady(w.cores[c], w.mem);
    var r := Drain.Drain(w.cores[c], w.mem);
    World(w.cores[c := r.dev], r.mem, w.out + r.sent)
  }

  /** The loop of the transmit thread over the cores from c on. */
  ghost function DrainCores(w: World, c: nat): World
    requires Valid(w) && c <= CORES && TxAllReady(w)
    decreases CORES - c
  {
    if c == CORES then w else DrainCores(DrainIn(w, c), c + 1)
  }

  /** Whether the loop on core c comes to a frame the queue does not take. */
  ghost predicate DrainTooLong(w: World, c: nat)
    requires Valid(w) && c < CORES && Drain.TxReady(w.cores[c])
  {
    exists p :: p in Drain.Drain(w.cores[c], w.mem).sent && p.FrameLength() > MAX_MESSAGE
  }

  /** Whether some core from c on does, the cores before it being drained first. */
  ghost predicate RoundTooLong(w: World, c: nat)
    requires Valid(w) && c <= CORES && TxAllReady(w)
    decreases CORES - c
  {
    c < CORES && (DrainTooLong(w, c) || RoundTooLong(DrainIn(w, c), c + 1))
  }

  /** A round stops exactly if it would put a packet on the queue that is too long for it. */
  lemma {:induction false} RoundTooLongExact(w: World, c: nat)
    requires Valid(w) && c <= CORES && TxAllReady(w)
    ensures w.out <= DrainCores(w, c).out
    ensures RoundTooLong(w, c) <==> exists p :: p in DrainCores(w, c).out[|w.out|..] && p.FrameLength() > MAX_MESSAGE
    decreases CORES - c
  {
    hide Packet.FrameLength, Drain.Drain, Drain.TxReady;
    if c < CORES {
      var r := DrainIn(w, c);
      RoundTooLongExact(r, c + 1);
      var sent, rest := Drain.Drain(w.cores[c], w.mem).sent, DrainCores(r, c + 1).out[|r.out|..];
      assert r.out == w.out + sent;
      assert DrainCores(w, c).out[|w.out|..] == sent + rest;
      assert forall p :: p in sent + rest <==> p in sent || p in rest;
    }
  }

  /** A round of the transmit thread: the loop on each core, one after the other, on the RAM the one before
      has left, and the packets in this order. Afterwards TE is clear in all four. */
  lemma RoundDrainsAll(w: World)
    requires Valid(w) && TxAllReady(w)
    ensures var w', d := DrainCores(w, 0), w.cores;
            var r0 := Drain.Drain(d[0], w.mem);
            var r1 := Drain.Drain(d[1], r0.mem);
            var r2 := Drain.Drain(d[2], r1.mem);
            var r3 := Drain.Drain(d[3], r2.mem);
            && w' == World([r0.dev, r1.dev, r2.dev, r3.dev], r3.mem, w.out + r0.sent + r1.sent + r2.sent + r3.sent)
            && forall c :: 0 <= c < 4 ==> w'.cores[c].regs.chn & 0x1 == 0
  {
    hide Drain.Drain, DrainIn, Drain.TxReady, CheckBit;
    var w1 := DrainIn(w, 0);
    var w2 := DrainIn(w1, 1);
    var w3 := DrainIn(w2, 2);
    DrainedIn(w, 0);
    DrainedIn(w1, 1);
    DrainedIn(w2, 2);
    DrainedIn(w3, 3);
    assert DrainCores(w, 0) == DrainIn(w3, 3);
  }

  lemma DrainedIn(w: World, c: nat)
    requires Valid(w) && c < CORES && TxAllReady(w)
    ensures var r, w' := Drain.Drain(w.cores[c], w.mem), DrainIn(w, c);
            && w' == World(w.cores[c := r.dev], r.mem, w.out + r.sent) && Valid(w') && TxAllReady(w')
            && r.dev.regs.chn & 0x1 == 0
  {
    hide Drain.Drain, Drain.TxReady, CheckBit, TxEnable;
    Drain.DrainLeavesTeClear(w.cores[c], w.mem);
    var r := Drain.Drain(w.cores[c], w.mem);
    EnableBits(r.dev.regs.chn);
  }

  /** Whether an access starts a transmission whose frame the queue does not take. */
  ghost predicate TooLong(w: World, addr: nat, value: word)
    requires Valid(w)
  {
    var d := WriteDev(w.cores[S.CoreOf(addr)], S.OffsetOf(addr), value);
    exists p :: p in TxEnable(d, w.mem).sent && p.FrameLength() > MAX_MESSAGE
  }

  /** What the receive thread makes of a message, the receive buffer starting with first if the
      message has no payload of its own. */
  ghost function Handled(w: World, r: Reception, first: byte, dc: bool, hc: bool, ep: bool): World
    requires Valid(w)
  {
    if r.Received? && r.packet.id < CORES then
      DoIn(w, Message(r.packet.id, r.packet.pword,
                      RxPacket(if r.packet.data == [] then first else r.packet.data[0], r.packet.data, dc, hc, ep)))
    else w
  }

  /** The world after a message has been handled, told from the receiving buffer with the message in it. A
      message with a usable length goes to the core that byte 0 names, if there is one; that core takes it as
      data if byte 1 is 1, as a time code if it is 2, and no other core changes. */
  ghost predicate Routed(w: World, w': World, rx: seq<byte>, r: Reception, first: byte, dc: bool, hc: bool, ep: bool)
    requires Valid(w) && |rx| == BUFFER
  {
    var c, n, len := rx[0] as nat, rx[2] as nat, LengthIn(rx);
    if len > 0x100_0000 || c >= 4 then
      w' == w && !r.Received? && (r == Fatal <==> len <= 0x100_0000)
    else
      var d, data := w.cores[c], rx[n + 7..n + 7 + len];
      var p := RxPacket(if len == 0 then first else rx[n + 7], data, dc, hc, ep);
      && r.Received? && |w'.cores| == 4 && w'.out == w.out
      && (forall e :: 0 <= e < 4 && e != c ==> w'.cores[e] == w.cores[e])
      && (if rx[1] == 1 then w'.cores[c] == RxDev(d, w.mem, p) && w'.mem == RxMem(d, w.mem, p)
          else if rx[1] == 2 then w'.cores[c] == RxTimecode(d, p.first) && w'.mem == w.mem
          else w' == w)
  }

  lemma RoutedByBytes(w: World, old_rx: seq<byte>, message: seq<byte>, first: byte, dc: bool, hc: bool, ep: bool)
    requires Valid(w) && |old_rx| == BUFFER && |message| <= BUFFER
    ensures var r := Decode(Refill(old_rx, message));
            Routed(w, Handled(w, r, first, dc, hc, ep), message + old_rx[|message|..], r, first, dc, hc, ep)
  {
    hide RxDev, RxMem, RxTimecode, S.CoreOk, LengthIn, Decode;
    var rx := message + old_rx[|message|..];
    assert Refill(old_rx, message) == rx;
    DecodeByBytes(rx);
    var r := Decode(rx);
    if r.Received? {
      assert S.CoreOk(r.packet.id, w.cores[r.packet.id]);
      assert r.packet.data == rx[rx[2] as nat + 7..rx[2] as nat + 7 + LengthIn(rx)];
      assert w.out + [] == w.out;
      assert w.cores[r.packet.id := w.cores[r.packet.id]] == w.cores;
    }
  }

  lemma ReceivedFields(old_rx: seq<byte>, message: seq<byte>)
    requires |old_rx| == BUFFER && |message| <= BUFFER
    ensures var r := Decode(Refill(old_rx, message));
            r.Received? ==> r.packet.id < 4 && r.packet.pword == (message + old_rx[|message|..])[1]
  {
    DecodeByBytes(Refill(old_rx, message));
    hide Decode;
  }

  predicate TxAllReady(w: World) {
    forall d :: d in w.cores ==> Drain.TxReady(d)
  }

  lemma {:induction false} DrainReady(d: Dev, m: Mem)
    requires Drain.TxReady(d)
    ensures var r := Drain.Drain(d, m); Drain.TxReady(r.dev) && r.dev.id == d.id
    decreases Drain.LeftToSend(d, m)
  {
    hide TxEnable, Drain.LeftToSend, Drain.Drain;
    var r := TxEnable(d, m);
    Drain.LoopUnfolds(d, m);
    if !r.stop {
      DrainReady(r.dev, r.mem);
    }
  }

  /** A register write and the call of txenable after it. */
  method AccessDevice(device: Device, offset: nat, value: word, ram: Ram, mq: MessageQueues, b: Buffers)
      returns (fatal: bool)
    requires device.Valid() && mq.Valid() && b.Valid() && b.ApartFrom(mq)
    modifies device`txdCur, device`irqs, device.regs, device.txdMap, ram, mq`spwq, mq`sent, mq.txbuffer, b.txdata,
        b.txheader
    ensures device.Valid() && mq.Valid()
    ensures var r := DoAccess(old(device.View()), old(ram.cells), offset, value);
            && fatal == (exists p ::
                 p in TxEnable(WriteDev(old(device.View()), offset, value), old(ram.cells)).sent
                     && p.FrameLength() > MAX_MESSAGE)
            && (!fatal ==> device.View() == r.dev && ram.cells == r.mem && mq.sent == old(mq.sent) + r.sent)
  {
    hide WriteRegister, TxEnable, SentTimecode, Timecodes, Packet.FrameLength;
    device.regs.WriteRegisters(device.id, offset, value, mq);
    var stop;
    stop, fatal := device.TxEnable(ram, mq, b);
  }

  /** The body of the receive thread after a message has been taken from the queue: data holds its
      payload in the first length bytes. */
  method HandleMessage(device: Device, pword: byte, data: array<byte>, length: nat, dc: bool, hc: bool, ep: bool,
      ram: Ram)
    returns (acked: bool)
    requires device.Valid() && length <= data.Length && data.Length > 0
    modifies device`rxdCur, device`irqs, device.regs, device.rxdMap, ram
    ensures device.Valid() && acked == (pword == ACK)
    ensures var r := Do(old(device.View()), old(ram.cells),
        Message(device.id, pword, RxPacket(data[0], data[..length], dc, hc, ep)));
            device.View() == r.dev && ram.cells == r.mem && r.sent == []
  {
    hide RxDev, RxMem, RxTimecode;
    acked := false;
    match pword
    case 0 => acked := true;
    case 1 => device.RxEnable(data, length, dc, hc, ep, ram);
    case 2 => device.RxTimecode(data[0]);
    case _ =>
  }

  ghost predicate Distinct(ds: seq<Device>) {
    forall i, j :: 0 <= i < j < |ds| ==>
      ds[i] != ds[j] && ds[i].regs != ds[j].regs && ds[i].txdMap != ds[j].txdMap && ds[i].rxdMap != ds[j].rxdMap
  }

  /** Core number i. */
  ghost predicate IsCore(d: Device, i: nat, v: Dev)
    reads d, d.regs, d.txdMap, d.rxdMap
  {
    d.Valid() && d.id == i && d.View() == v
  }

  method MakeCore(c: nat) returns (d: Device)
    requires c < CORES
    ensures IsCore(d, c, S.InitCore(c)) && fresh(d) && fresh(d.regs) && fresh(d.txdMap) && fresh(d.rxdMap)
  {
    hide Reset;
    d := new Device(c);
    d.regs.ResetRegisters(c);
  }

  /** The initialisation loop: every core gets its number and is reset. */
  method MakeCores() returns (made: seq<Device>)
    ensures |made| == CORES && Distinct(made)
    ensures forall i :: 0 <= i < CORES ==>
              && IsCore(made[i], i, S.InitCore(i))
              && fresh(made[i]) && fresh(made[i].regs) && fresh(made[i].txdMap) && fresh(made[i].rxdMap)
  {
    hide IsCore;
    made := [];
    for c := 0 to CORES
      invariant |made| == c && Distinct(made)
      invariant forall i :: 0 <= i < c ==>
                  && IsCore(made[i], i, S.InitCore(i))
                  && fresh(made[i]) && fresh(made[i].regs) && fresh(made[i].txdMap) && fresh(made[i].rxdMap)
    {
      var d := MakeCore(c);
      made := made + [d];
    }
  }

  class Board {
    const cores: seq<Device>
    const ram: Ram
    const mq: MessageQueues
    const buffers: Buffers

    ghost predicate Valid()
      reads cores, mq
    {
      && |cores| == CORES && Distinct(cores) && mq.Valid() && buffers.Valid() && buffers.ApartFrom(mq)
      && (forall c :: 0 <= c < CORES ==> cores[c].Valid() && cores[c].id == c)
    }

    /** The state of the board as a value. */
    ghost function View(): (w: World)
      requires Valid()
      reads cores, set d | d in cores :: d.regs, set d | d in cores :: d.txdMap, set d | d in cores :: d.rxdMap, ram, mq
      ensures Isolation.Valid(w) && w.mem == ram.cells && w.out == mq.sent
      ensures forall c :: 0 <= c < CORES ==> w.cores[c] == cores[c].View()
    {
      World([cores[0].View(), cores[1].View(), cores[2].View(), cores[3].View()], ram.cells, mq.sent)
    }

    constructor (ram: Ram)
      ensures Valid() && View() == Scripts.WorldOf(S.Init(ram.cells)) && this.ram == ram
    {
      hide View, Device.View, S.InitCore;
      var made := MakeCores();
      cores := made;
      this.ram := ram;
      mq := new MessageQueues();
      buffers := new Buffers();
      new;
      assert forall c :: 0 <= c < CORES ==> IsCore(cores[c], c, S.InitCore(c));
    }

    /** An access to a register address. */
    method GuestWrite(addr: nat, value: word) returns (fatal: bool)
      requires Valid()
      modifies cores[addr / 0x100 % 4], cores[addr / 0x100 % 4].regs, cores[addr / 0x100 % 4].txdMap
      modifies ram, mq`spwq, mq`sent, mq.txbuffer, buffers.txdata, buffers.txheader
      ensures Valid()
      ensures fatal == TooLong(old(View()), addr, value)
      ensures !fatal ==> View() == DoIn(old(View()), Access(addr, value))
    {
      hide View, DoAccess, Device.View, Packet.FrameLength, WriteDev, TxEnable;
      fatal := AccessDevice(cores[addr / 0x100 % 4], addr % 0x100, value, ram, mq, buffers);
    }

    /** What the next message will be decoded to. */
    ghost function NextMessage(): Reception
      requires Valid() && mq.devq != []
      reads cores, mq, mq.rxbuffer
    {
      Decode(Refill(mq.rxbuffer[..], mq.devq[0]))
    }

    /** One round of the receive thread: the next message, handled by the core it names. A message
        without payload leaves the first byte of the buffer as it was. */
    method ReceiveNext(dc: bool, hc: bool, ep: bool) returns (r: Reception, acked: bool)
      requires Valid() && mq.devq != []
      modifies cores, set d | d in cores :: d.regs, set d | d in cores :: d.rxdMap
      modifies ram, mq`devq, mq.rxbuffer, buffers.rxdata, buffers.rxheader
      ensures Valid() && mq.devq == old(mq.devq[1..]) && r == old(NextMessage())
      ensures acked == (r.Received? && r.packet.pword == ACK)
      ensures View() == Handled(old(View()), r, old(buffers.rxdata[0]), dc, hc, ep)
      ensures Routed(old(View()), View(), old(mq.devq[0] + mq.rxbuffer[..][|mq.devq[0]|..]), r,
                     old(buffers.rxdata[0]), dc, hc, ep)
      ensures acked <==> r.Received? && old(mq.devq[0] + mq.rxbuffer[..][|mq.devq[0]|..])[1] == 0
    {
      hide View, Device.View, Refill, Do, Routed, Decode;
      RoutedByBytes(View(), mq.rxbuffer[..], mq.devq[0], buffers.rxdata[0], dc, hc, ep);
      ReceivedFields(mq.rxbuffer[..], mq.devq[0]);
      var headerLength, length;
      acked := false;
      r, headerLength, length := mq.ReceiveDevPacket(buffers.rxheader, buffers.rxdata);
      if r.Received? {
        assert buffers.rxdata[..length] == r.packet.data;
        acked := HandleMessage(cores[r.packet.id], r.packet.pword, buffers.rxdata, length, dc, hc, ep, ram);
      }
    }

    method DrainCore(c: nat) returns (fatal: bool)
      requires Valid() && c < CORES && Drain.TxReady(cores[c].View())
      modifies cores[c], cores[c].regs, cores[c].txdMap
      modifies ram, mq`spwq, mq`sent, mq.txbuffer, buffers.txdata, buffers.txheader
      ensures Valid() && fatal == DrainTooLong(old(View()), c)
      ensures !fatal ==> View() == DrainIn(old(View()), c)
    {
      hide View, Device.View, Drain.Drain, Drain.TxReady, Packet.FrameLength;
      DrainReady(cores[c].View(), ram.cells);
      fatal := DrainDevice(cores[c], ram, mq, buffers);
    }

    /** One round of the transmit thread over all cores. */
    method TransmitRound() returns (fatal: bool)
      requires Valid() && TxAllReady(View())
      modifies cores, set d | d in cores :: d.regs, set d | d in cores :: d.txdMap
      modifies ram, mq`spwq, mq`sent, mq.txbuffer, buffers.txdata, buffers.txheader
      ensures Valid() && fatal == RoundTooLong(old(View()), 0)
      ensures !fatal ==> View() == DrainCores(old(View()), 0)
    {
      hide View, Device.View, DrainIn, DrainTooLong, Drain.TxReady;
      fatal := false;
      for c := 0 to CORES
        invariant Valid() && TxAllReady(View()) && !fatal
        invariant DrainCores(View(), c) == DrainCores(old(View()), 0)
            && RoundTooLong(View(), c) == RoundTooLong(old(View()), 0)
      {
        fatal := DrainCore(c);
        if fatal {
          return;
        }
      }
    }
  }
}
