/** A packet that comes back: from the buffers a descriptor of a core points at, through the frame on the queue
    and a frame from the queue, to the receive buffer of the same core. */
module Echo {
  import opened BitOps
  import opened Leon3Ram
  import opened Messages
  import opened Dma
  import opened DmaBytes
  import opened Isolation
  import opened Boards

  /** A core that takes a packet with the given first byte: it is not kept out and its descriptor is enabled. */
  predicate Takes(d: Dev, m: Mem, first: byte) {
    !KeptOut(d.regs, first) && Bit(WordAt(m, d.regs.rxd), 0x200_0000)
  }

  lemma EchoDecoded(d: Dev, m: Mem, gap: byte, old_rx: seq<byte>)
    requires DevOk(d) && TxBegin(d, m).Started? && |old_rx| == BUFFER
    requires var h := WordAt(m, d.regs.txd) % 0x100; h == 0 || At(m, WordAt(m, d.regs.txd + 4)) as nat == h
    ensures var p := TxBegin(d, m).packet;
            && p.Fits() && p.id == d.id && p.pword == 1 && Decode(Refill(old_rx, Frame(p, gap))) == Received(p)
            && |p.data| == WordAt(m, d.regs.txd + 8) % 0x100_0000
            && forall i :: 0 <= i < |p.data| ==> p.data[i] == At(m, WordAt(m, d.regs.txd + 12) + i)
  {
    hide TxBegin, WordAt, Bit, Frame, Refill, Decode;
    BeginByBytes(d, m);
    FramingRoundTrip(TxBegin(d, m).packet, gap, old_rx);
  }

  lemma EchoHandled(w: World, p: Packet, first: byte, dc: bool, hc: bool, ep: bool)
    requires Valid(w) && p.id < CORES && p.pword == 1
    ensures var w', d := Handled(w, Received(p), first, dc, hc, ep), w.cores[p.id];
            var q := RxPacket(if p.data == [] then first else p.data[0], p.data, dc, hc, ep);
            w' == World(w.cores[p.id := RxDev(d, w.mem, q)], RxMem(d, w.mem, q), w.out)
  {
    hide RxDev, RxMem, RxTimecode;
    assert w.out + [] == w.out;
  }

  /** A core sends a packet, with a header that is empty or starts with its length, and the frame comes back
      when the world may be any other. If the core takes it, then its receive buffer holds, up to the receive
      limit, the very bytes the transmit descriptor pointed at when the packet was sent, the control word
      holds their number, and no other byte of the RAM changes. */
  lemma EchoIsDelivered(d: Dev, m: Mem, w: World, gap: byte, old_rx: seq<byte>, old_data: byte,
                        dc: bool, hc: bool, ep: bool)
    requires DevOk(d) && TxBegin(d, m).Started? && Valid(w) && |old_rx| == BUFFER
    requires var h := WordAt(m, d.regs.txd) % 0x100; h == 0 || At(m, WordAt(m, d.regs.txd + 4)) as nat == h
    requires var len := WordAt(m, d.regs.txd + 8) % 0x100_0000;
             Takes(w.cores[d.id], w.mem, if len == 0 then old_data else At(m, WordAt(m, d.regs.txd + 12)))
    ensures var p, e := TxBegin(d, m).packet, w.cores[d.id];
            var source, len := WordAt(m, d.regs.txd + 12), WordAt(m, d.regs.txd + 8) % 0x100_0000;
            var buffer, n := WordAt(w.mem, e.regs.rxd + 4), if len > Limit(e.regs.rxl) then Limit(e.regs.rxl) else len;
            p.Fits() &&
            var w' := Handled(w, Decode(Refill(old_rx, Frame(p, gap))), old_data, dc, hc, ep);
            && WordAt(w'.mem, e.regs.rxd) % 0x200_0000 == n
            && (forall x: nat {:trigger At(w'.mem, x)} :: !(e.regs.rxd <= x < e.regs.rxd + 4) ==>
                  At(w'.mem, x) == if buffer <= x < buffer + n then At(m, source + (x - buffer)) else At(w.mem, x))
  {
    hide TxBegin, WordAt, Bit, KeptOut, Frame, Refill, Decode, Handled, RxDev, RxMem, Limit;
    EchoDecoded(d, m, gap, old_rx);
    var p := TxBegin(d, m).packet;
    EchoHandled(w, p, old_data, dc, hc, ep);
    var q := RxPacket(if p.data == [] then old_data else p.data[0], p.data, dc, hc, ep);
    assert At(m, WordAt(m, d.regs.txd + 12) + 0) == At(m, WordAt(m, d.regs.txd + 12));
    StoredMemory(w.cores[d.id], w.mem, q);
  }
}
