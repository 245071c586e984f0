/** Tick-in on runs of the device: the time codes a core sends, whatever else happens in between. */
module TimeRuns {
  import opened BitOps
  import opened Leon3Ram
  import opened Messages
  import opened Registers
  import opened Dma
  import opened System
  import opened KeptBits
  import opened TimeCodes

  /** A guest write to core c that ticks. */
  predicate TicksCore(s: State, a: Action, c: nat) {
    Writes(s, a, c, 0x00) && CheckBit(a.value, CTR_TI)
  }

  /** Neither a time code accepted by core c, nor a write of its SPWTIM, nor its reset. */
  predicate KeepsTime(s: State, a: Action, c: nat)
    requires Shape(s) && c < CORES
  {
    && !(!s.exited && a.Receive? && a.id == c && a.pword == TIME && s.cores[c].regs.tim < a.packet.first as int)
    && !Writes(s, a, c, 0x14) && !(Writes(s, a, c, 0x00) && CheckBit(a.value, CTR_RS))
  }

  predicate TimeKept(s: State, acts: seq<Action>, c: nat)
    requires Shape(s) && c < CORES
    decreases |acts|
  {
    acts == [] ||
    (TimeKept(s, acts[..|acts| - 1], c) && KeepsTime(After(s, acts[..|acts| - 1]), acts[|acts| - 1], c))
  }

  function TickCount(s: State, acts: seq<Action>, c: nat): nat
    requires Shape(s)
    decreases |acts|
  {
    if acts == [] then 0
    else
      TickCount(s, acts[..|acts| - 1], c)
      + if TicksCore(After(s, acts[..|acts| - 1]), acts[|acts| - 1], c) then 1 else 0
  }

  function CodePacket(c: nat, time: nat): Packet {
    Packet(c, TIME, [], [(time % 0x100) as byte])
  }

  /** The time codes of core c among some packets, in order. */
  function TimePackets(out: seq<Packet>, c: nat): seq<Packet>
    decreases |out|
  {
    if out == [] then []
    else
      var p := out[|out| - 1];
      TimePackets(out[..|out| - 1], c) + if p.pword == TIME && p.id == c then [p] else []
  }

  /** The packets of the next n time codes after a time. */
  function NextCodes(c: nat, tim: uint32, n: nat): (r: seq<Packet>)
    ensures |r| == n
    ensures forall i :: 0 <= i < n ==> r[i] == CodePacket(c, TimeAfter(tim, i + 1))
  {
    seq(n, i requires 0 <= i < n => CodePacket(c, TimeAfter(tim, i + 1)))
  }

  lemma TimePacketsMore(out: seq<Packet>, p: Packet, c: nat)
    ensures TimePackets(out + [p], c) == TimePackets(out, c) + if p.pword == TIME && p.id == c then [p] else []
  {
    assert (out + [p])[..|out|] == out;
  }

  lemma CodesMore(out: seq<Packet>, e: nat, codes: seq<uint32>, c: nat)
    requires |codes| <= 1
    ensures TimePackets(out + Timecodes(e, codes), c)
         == TimePackets(out, c) + if codes != [] && e == c then [CodePacket(c, codes[0])] else []
  {
    if codes == [] {
      assert out + Timecodes(e, codes) == out;
    } else {
      assert Timecodes(e, codes) == [CodePacket(e, codes[0])];
      TimePacketsMore(out, CodePacket(e, codes[0]), c);
    }
  }

  /** The time of a core after a write that keeps it, and the code the write sends. */
  lemma WriteTime(id: nat, r: Regs, offset: nat, v: word)
    requires offset != 0x14 && !(offset == 0x00 && CheckBit(v, CTR_RS))
    ensures var tick := offset == 0x00 && CheckBit(v, CTR_TI);
            && WriteRegister(id, r, offset, v).tim == (if tick then NextTime(r.tim) else r.tim)
            && SentTimecode(id, r, offset, v) == if tick then [NextTime(r.tim)] else []
  {
    hide CheckBit, NextTime, WriteRegister, SentTimecode;
    OneWrite(id, r, RegWrite(offset, v));
  }

  lemma OneCodeAtMost(id: nat, r: Regs, offset: nat, v: word)
    ensures |SentTimecode(id, r, offset, v)| <= 1
  {
    hide CheckBit, NextTime;
  }

  lemma TxTime(d: Dev, a: TxAct)
    requires DevOk(d) && (a.TxSend? ==> a.next < TX_SLOTS)
    ensures TxEffect(d, a).regs.tim == d.regs.tim
  {
  }

  lemma RxTime(d: Dev, b: RxAct)
    requires DevOk(d) && (b.RxStore? ==> b.next < RX_SLOTS)
    ensures RxEffect(d, b).regs.tim == d.regs.tim
  {
  }

  lemma PacketIsData(d: Dev, m: Mem)
    requires DevOk(d)
    ensures DecideTx(d, m).TxSend? ==> DecideTx(d, m).packet.pword == DATA
  {
    hide CheckBit, ReadWord;
  }

  lemma StepTime(s: State, a: Action, c: nat)
    requires Shape(s) && c < CORES && KeepsTime(s, a, c)
    ensures var s', next := Step(s, a), NextTime(s.cores[c].regs.tim);
            && s'.cores[c].regs.tim == (if TicksCore(s, a, c) then next else s.cores[c].regs.tim)
            && TimePackets(s'.out, c)
               == TimePackets(s.out, c) + if TicksCore(s, a, c) then [CodePacket(c, next)] else []
  {
    hide CheckBit, SetBit, NextTime, WriteRegister, SentTimecode, Timecodes, DecideTx, TxEffect, DecideRx, RxEffect,
        RxMem;
    hide TxFinishDev, TxFinishMem, ReadWord, TimePackets, CodePacket, Packet.FrameLength;
    assert TimePackets(s.out, c) + [] == TimePackets(s.out, c);
    match a
    case GuestWrite(addr, v) =>
      var e, r, offset := CoreOf(addr), s.cores[CoreOf(addr)].regs, OffsetOf(addr);
      OneCodeAtMost(e, r, offset, v);
      CodesMore(s.out, e, SentTimecode(e, r, offset, v), c);
      if Writes(s, a, c, offset) {
        WriteTime(c, r, offset, v);
      }
    case TxFirst =>
      if s.phase.Calling? {
        var d := s.cores[s.phase.core];
        TxTime(d, DecideTx(d, s.mem));
        PacketIsData(d, s.mem);
        if DecideTx(d, s.mem).TxSend? {
          TimePacketsMore(s.out, DecideTx(d, s.mem).packet, c);
        }
      }
    case Receive(id, _, p) =>
      if id < CORES { RxTime(s.cores[id], DecideRx(s.cores[id], s.mem, p)); }
    case _ =>
  }

  lemma NextAfter(tim: uint32, n: nat)
    ensures TimeAfter(tim, n) < 0x1_0000_0000 && NextTime(TimeAfter(tim, n)) == TimeAfter(tim, n + 1)
  {
    var q, c := tim / 64, (tim % 64 + n) % 64;
    Digit(64 * q + c, 64, q, c);
    ModSum(64 * q + c, 1);
    ModSum(tim % 64 + n, 1);
  }

  /** Ticks on a run: as long as core c accepts no time code, is not reset and has no SPWTIM write, n ticks
      send the next n time codes of core c in order and leave the last of them in SPWTIM, whatever the
      core and the others transmit, receive and have written to them in between. */
  lemma {:induction false} TicksOnRuns(s: State, acts: seq<Action>, c: nat)
    requires Shape(s) && c < CORES && TimeKept(s, acts, c)
    ensures var t, tim, n := After(s, acts), s.cores[c].regs.tim, TickCount(s, acts, c);
            && t.cores[c].regs.tim == TimeAfter(tim, n)
            && TimePackets(t.out, c) == TimePackets(s.out, c) + NextCodes(c, tim, n)
    decreases |acts|
  {
    hide Step, KeepsTime, TicksCore, TimePackets, CodePacket, TimeAfter, NextTime;
    var tim := s.cores[c].regs.tim;
    if acts == [] {
      TimeStep(tim, 0);
    } else {
      var before, last := acts[..|acts| - 1], acts[|acts| - 1];
      var t, n := After(s, before), TickCount(s, before, c);
      TicksOnRuns(s, before, c);
      StepTime(t, last, c);
      NextAfter(tim, n);
      assert NextCodes(c, tim, n + 1) == NextCodes(c, tim, n) + [CodePacket(c, TimeAfter(tim, n + 1))];
    }
  }
}
