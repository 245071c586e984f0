/** The framed messages of grlib_mqgrspw.c and the two queues that carry them. */
module Messages {
  import opened BitOps
  import opened Leon3Ram

  const ACK: byte := 0
  const DATA: byte := 1
  const TIME: byte := 2

  const CORES: nat := 4
  const OVERHEAD: nat := 7
  const MAX_HEADER: nat := 255
  const MAX_DATA: nat := 0x100_0000
  const BUFFER: nat := MAX_DATA + MAX_HEADER + OVERHEAD
  /** The longest message the queues accept. */
  const MAX_MESSAGE: nat := 1024

  datatype Packet = Packet(id: nat, pword: byte, header: seq<byte>, data: seq<byte>)
  {
    /** What the buffers of the encoder have room for. */
    predicate Fits() {
      id < CORES && |header| <= MAX_HEADER && |data| <= MAX_DATA
    }

    function FrameLength(): nat {
      OVERHEAD + |header| + |data|
    }
  }

  /** The bytes put on the queue for a packet. The header is stored over its own length byte, so
      one byte after it keeps whatever the buffer held: gap. */
  function Frame(p: Packet, gap: byte): (f: seq<byte>)
    requires p.Fits()
    ensures |f| == p.FrameLength()
  {
    [p.id as byte, p.pword] + (if p.header == [] then [0] else p.header + [gap]) + LittleEndian(|p.data|) + p.data
  }

  ghost predicate IsFrameOf(f: seq<byte>, p: Packet) {
    p.Fits() && exists gap: byte :: f == Frame(p, gap)
  }

  /** What the sending buffer holds once a packet has been encoded into it. */
  function Encode(buffer: seq<byte>, p: Packet): (r: seq<byte>)
    requires |buffer| == BUFFER && p.Fits()
    ensures |r| == BUFFER
  {
    Frame(p, buffer[2 + |p.header|]) + buffer[p.FrameLength()..]
  }

  datatype Reception =
    | Received(packet: Packet)
    | Fatal                     // an id that is no core: the process exits
    | Overrun(dataLength: nat)  // a data length that no buffer can hold

  /** The receiving buffer after a message has been taken from the queue. */
  function Refill(buffer: seq<byte>, message: seq<byte>): (r: seq<byte>)
    requires |message| <= |buffer|
    ensures |r| == |buffer|
  {
    message + buffer[|message|..]
  }

  function Decode(rx: seq<byte>): Reception
    requires |rx| == BUFFER
  {
    var n := rx[2] as nat;
    var len := HostWord(rx[n + 3..n + 7]);
    if len > MAX_DATA then Overrun(len)
    else if rx[0] as nat >= CORES then Fatal
    else Received(Packet(rx[0] as nat, rx[1], rx[2..2 + n], rx[n + 7..n + 7 + len]))
  }

  /** Decoding a frame gives the packet back, whatever the buffers held before, exactly when the
      header is empty or starts with its own length. */
  lemma FramingRoundTrip(p: Packet, gap: byte, old_rx: seq<byte>)
    requires p.Fits() && |old_rx| == BUFFER
    ensures Decode(Refill(old_rx, Frame(p, gap))) == Received(p)
       <==> p.header == [] || p.header[0] as nat == |p.header|
  {
    var rx := Refill(old_rx, Frame(p, gap));
    if p.header == [] || p.header[0] as nat == |p.header| {
      DecodeFrame(p, gap, old_rx);
    } else {
      assert rx[2] == p.header[0];
      assert |rx[2..2 + rx[2] as nat]| != |p.header|;
    }
  }

  lemma DecodeFrame(p: Packet, gap: byte, old_rx: seq<byte>)
    requires p.Fits() && |old_rx| == BUFFER
    requires p.header == [] || p.header[0] as nat == |p.header|
    ensures Decode(Refill(old_rx, Frame(p, gap))) == Received(p)
  {
    hide HostWord;
    hide LittleEndian;
    var rx, n, f := Refill(old_rx, Frame(p, gap)), |p.header|, Frame(p, gap);
    assert rx[2] as nat == n;
    assert rx[2..2 + n] == p.header;
    assert rx[n + 3..n + 7] == LittleEndian(|p.data|);
    HostWordRoundTrip(|p.data|);
    assert rx[n + 7..n + 7 + |p.data|] == p.data;
  }

  /** The bytes of a frame, one by one: core, protocol word, the header or its length 0, the gap after a header,
      the data length least significant byte first, the data. */
  lemma FrameByBytes(p: Packet, gap: byte)
    requires p.Fits()
    ensures var f, h, n := Frame(p, gap), |p.header|, |p.data|;
            && |f| == 7 + h + n && f[0] as nat == p.id && f[1] == p.pword
            && (if h == 0 then f[2] == 0 else f[2 + h] == gap && forall i :: 0 <= i < h ==> f[2 + i] == p.header[i])
            && n == f[h + 3] as nat + 0x100 * f[h + 4] as nat + 0x1_0000 * f[h + 5] as nat
                    + 0x100_0000 * f[h + 6] as nat
            && forall i :: 0 <= i < n ==> f[h + 7 + i] == p.data[i]
  {
    hide LittleEndian, HostWord;
    var f, h, le := Frame(p, gap), |p.header|, LittleEndian(|p.data|);
    assert f[h + 3] == le[0] && f[h + 4] == le[1] && f[h + 5] == le[2] && f[h + 6] == le[3];
    HostWordRoundTrip(|p.data|);
    HostWordByBytes(le);
  }

  lemma HostWordByBytes(s: seq<byte>)
    requires |s| == 4
    ensures HostWord(s)
         == s[0] as nat + 0x100 * s[1] as nat + 0x1_0000 * s[2] as nat + 0x100_0000 * s[3] as nat
  {
  }

  /** The data length in a receiving buffer, after the header, whose length is byte 2. */
  function LengthIn(rx: seq<byte>): nat
    requires |rx| == BUFFER
  {
    var n := rx[2] as nat;
    rx[n + 3] as nat + 0x100 * rx[n + 4] as nat + 0x1_0000 * rx[n + 5] as nat + 0x100_0000 * rx[n + 6] as nat
  }

  /** What is decoded, byte by byte: a length over 16 MB, else an id that is no core, else a packet. */
  lemma DecodeByBytes(rx: seq<byte>)
    requires |rx| == BUFFER
    ensures var r, n, len := Decode(rx), rx[2] as nat, LengthIn(rx);
            if len > 0x100_0000 then r == Overrun(len)
            else if rx[0] as nat >= 4 then r == Fatal
            else
              && r.Received? && r.packet.id == rx[0] as nat && r.packet.pword == rx[1]
              && |r.packet.header| == n && (forall i :: 0 <= i < n ==> r.packet.header[i] == rx[2 + i])
              && |r.packet.data| == len && forall i :: 0 <= i < len ==> r.packet.data[i] == rx[n + 7 + i]
  {
    hide HostWord;
    var n := rx[2] as nat;
    HostWordByBytes(rx[n + 3..n + 7]);
  }

  /** s with the bytes of t stored from position at on. */
  function Put(s: seq<byte>, at: nat, t: seq<byte>): (r: seq<byte>)
    requires at + |t| <= |s|
    ensures |r| == |s|
  {
    s[..at] + t + s[at + |t|..]
  }

  /** memcpy */
  method CopyInto(dest: array<byte>, at: nat, s: seq<byte>)
    requires at + |s| <= dest.Length
    modifies dest
    ensures dest[..] == Put(old(dest[..]), at, s)
  {
    forall i | 0 <= i < |s| {
      dest[at + i] := s[i];
    }
  }

  /** memcpy to the start of a buffer */
  method CopyStart(dest: array<byte>, s: seq<byte>)
    requires |s| <= dest.Length
    modifies dest
    ensures dest[..] == Refill(old(dest[..]), s)
    ensures dest[..|s|] == s && dest[|s|..] == old(dest[..])[|s|..]
  {
    CopyInto(dest, 0, s);
  }

  /** The stores of the encoder, one by one, and what they add up to. */
  lemma EncodeInSteps(buffer: seq<byte>, p: Packet)
    requires |buffer| == BUFFER && p.Fits()
    ensures var n := |p.header|;
            var b1 := buffer[0 := p.id as byte][1 := p.pword][2 := n as byte];
            var b2 := if n > 0 then Put(b1, 2, p.header) else b1;
            var b3 := Put(b2, n + 3, LittleEndian(|p.data|));
            var b4 := if |p.data| > 0 then Put(b3, n + 7, p.data) else b3;
            b4 == Encode(buffer, p) && b4[..p.FrameLength()] == Frame(p, buffer[2 + n])
  {
    hide LittleEndian;
    var n, le := |p.header|, LittleEndian(|p.data|);
    var b1 := buffer[0 := p.id as byte][1 := p.pword][2 := n as byte];
    var b2 := if n > 0 then Put(b1, 2, p.header) else b1;
    var b3 := Put(b2, n + 3, le);
    var b4 := if |p.data| > 0 then Put(b3, n + 7, p.data) else b3;
    var start := [p.id as byte, p.pword] + if p.header == [] then [0] else p.header + [buffer[2 + n]];
    HeaderInPlace(buffer, p);
    PutAfter(start, buffer[n + 3..], le);
    assert buffer[n + 3..][4..] == buffer[n + 7..];
    PutAfter(start + le, buffer[n + 7..], p.data);
    assert buffer[n + 7..][|p.data|..] == buffer[n + 7 + |p.data|..];
    hide Put;
    assert Frame(p, buffer[2 + n]) == start + le + p.data;
    assert b4 == start + le + p.data + buffer[n + 7 + |p.data|..];
  }

  /** The first bytes: the header hides its length. */
  lemma HeaderInPlace(buffer: seq<byte>, p: Packet)
    requires |buffer| == BUFFER && p.Fits()
    ensures var n := |p.header|;
            var b1 := buffer[0 := p.id as byte][1 := p.pword][2 := n as byte];
            (if n > 0 then Put(b1, 2, p.header) else b1)
            == [p.id as byte, p.pword] + (if p.header == [] then [0] else p.header + [buffer[2 + n]]) + buffer[n + 3..]
  {
  }

  lemma PutAfter(start: seq<byte>, rest: seq<byte>, t: seq<byte>)
    requires |t| <= |rest|
    ensures Put(start + rest, |start|, t) == start + t + rest[|t|..]
    ensures t == [] ==> start + t + rest[|t|..] == start + rest
  {
  }

  /** The two queues and the two static buffers. */
  class MessageQueues {
    const txbuffer: array<byte>
    const rxbuffer: array<byte>
    /** Frames waiting for the network side. */
    var spwq: seq<seq<byte>>
    /** Frames waiting for the device. */
    var devq: seq<seq<byte>>
    /** The packets behind the frames of spwq. */
    ghost var sent: seq<Packet>

    ghost predicate Valid()
      reads this
    {
      && txbuffer.Length == rxbuffer.Length == BUFFER && txbuffer != rxbuffer
      && |spwq| == |sent| && (forall i :: 0 <= i < |sent| ==> IsFrameOf(spwq[i], sent[i]))
      && (forall i :: 0 <= i < |devq| ==> |devq[i]| <= MAX_MESSAGE)
    }

    constructor ()
      ensures Valid() && sent == [] && spwq == [] && devq == [] && fresh(txbuffer) && fresh(rxbuffer)
    {
      txbuffer := new byte[BUFFER];
      rxbuffer := new byte[BUFFER];
      spwq, devq, sent := [], [], [];
    }

    /** grlib_mqgrspw_send_packet on the queue to the network. A frame over the message size makes
        the process exit, which is reported as fatal. */
    method SendSpwPacket(id: nat, pword: byte, header: array<byte>, headerLen: nat, data: array<byte>, dataLen: nat)
        returns (fatal: bool)
      requires Valid() && id < CORES
      requires headerLen <= header.Length && headerLen <= MAX_HEADER && dataLen <= data.Length && dataLen <= MAX_DATA
      requires txbuffer != header && txbuffer != data
      modifies `spwq, `sent, txbuffer
      ensures Valid()
      ensures var p := Packet(id, pword, header[..headerLen], data[..dataLen]);
              && fatal == (p.FrameLength() > MAX_MESSAGE)
              && txbuffer[..] == Encode(old(txbuffer[..]), p)
              && sent == (if fatal then old(sent) else old(sent) + [p])
              && (fatal ==> spwq == old(spwq))
              && (!fatal ==> spwq == old(spwq) + [txbuffer[..p.FrameLength()]])
    {
      hide Frame;
      hide Encode;
      hide Put;
      ghost var was := txbuffer[..];
      ghost var p := Packet(id, pword, header[..headerLen], data[..dataLen]);
      var length := OVERHEAD + headerLen + dataLen;
      txbuffer[0] := id as byte;
      txbuffer[1] := pword;
      txbuffer[2] := headerLen as byte;
      assert txbuffer[..] == was[0 := id as byte][1 := pword][2 := headerLen as byte];
      if headerLen > 0 {
        CopyInto(txbuffer, 2, header[..headerLen]);
      }
      CopyInto(txbuffer, headerLen + 3, LittleEndian(dataLen));
      if dataLen > 0 {
        CopyInto(txbuffer, headerLen + 7, data[..dataLen]);
      }
      EncodeInSteps(was, p);
      fatal := length > MAX_MESSAGE;
      if !fatal {
        spwq := spwq + [txbuffer[..length]];
        sent := sent + [p];
      }
    }

    /** grlib_mqgrspw_send_spwtimecode */
    method SendSpwTimecode(id: nat, code: byte)
      requires Valid() && id < CORES
      modifies `spwq, `sent, txbuffer
      ensures Valid()
      ensures sent == old(sent) + [Packet(id, TIME, [], [code])]
    {
      var none, one := new byte[0], new byte[1];
      one[0] := code;
      assert one[..1] == [code];
      var fatal := SendSpwPacket(id, TIME, none, 0, one, 1);
    }

    /** grlib_mqgrspw_receive_packet on the queue to the device; header and data are the buffers it
        fills. A message with an unusable data length is not copied. */
    method ReceiveDevPacket(header: array<byte>, data: array<byte>) returns (r: Reception, headerLen: nat, dataLen: nat)
      requires Valid() && devq != []
      requires header.Length == MAX_HEADER && data.Length == MAX_DATA
      requires header != data && header != rxbuffer && data != rxbuffer && header != txbuffer && data != txbuffer
      modifies `devq, rxbuffer, header, data
      ensures Valid() && devq == old(devq)[1..]
      ensures rxbuffer[..] == Refill(old(rxbuffer[..]), old(devq)[0]) && r == Decode(rxbuffer[..])
      ensures r.Received? ==>
                && headerLen == |r.packet.header| <= header.Length && header[..headerLen] == r.packet.header
                && dataLen == |r.packet.data| <= data.Length && data[..dataLen] == r.packet.data
                && data[dataLen..] == old(data[..])[dataLen..]
    {
      hide HostWord, Put, Refill;
      var message := devq[0];
      devq := devq[1..];
      CopyStart(rxbuffer, message);
      headerLen := rxbuffer[2] as nat;
      dataLen := HostWord(rxbuffer[headerLen + 3..headerLen + 7]);
      assert rxbuffer[headerLen + 3..headerLen + 7] == rxbuffer[..][headerLen + 3..headerLen + 7];
      if dataLen > MAX_DATA {
        return Overrun(dataLen), headerLen, dataLen;
      }
      if headerLen > 0 {
        CopyStart(header, rxbuffer[2..2 + headerLen]);
      }
      if dataLen > 0 {
        CopyStart(data, rxbuffer[headerLen + 7..headerLen + 7 + dataLen]);
      }
      assert header[..headerLen] == rxbuffer[..][2..2 + headerLen];
      assert data[..dataLen] == rxbuffer[..][headerLen + 7..headerLen + 7 + dataLen];
      if rxbuffer[0] as nat >= CORES {
        r := Fatal;
      } else {
        r := Received(Packet(rxbuffer[0] as nat, rxbuffer[1], header[..headerLen], data[..dataLen]));
      }
    }
  }
}
