/** Time codes over whole sequences: the ticks a guest sends and the codes the link delivers. */
module TimeCodes {
  import opened BitOps
  import opened Registers
  import opened Dma

  // ---- tick-in ----

  datatype RegWrite = RegWrite(offset: nat, value: word)

  function WriteAll(id: nat, r: Regs, ws: seq<RegWrite>): Regs
    decreases |ws|
  {
    if ws == [] then r else WriteAll(id, WriteRegister(id, r, ws[0].offset, ws[0].value), ws[1..])
  }

  /** The time codes sent on the way. */
  function CodesSent(id: nat, r: Regs, ws: seq<RegWrite>): seq<uint32>
    decreases |ws|
  {
    if ws == [] then
      []
    else
      SentTimecode(id, r, ws[0].offset, ws[0].value)
        + CodesSent(id, WriteRegister(id, r, ws[0].offset, ws[0].value), ws[1..])
  }

  /** A SPWCTR write with Tick In. */
  predicate IsTick(w: RegWrite) {
    w.offset == 0x00 && CheckBit(w.value, CTR_TI)
  }

  /** Neither a reset nor a write of SPWTIM. */
  predicate LeavesTime(w: RegWrite) {
    w.offset != 0x14 && !(w.offset == 0x00 && CheckBit(w.value, CTR_RS))
  }

  function Ticks(ws: seq<RegWrite>): nat {
    if ws == [] then 0 else Ticks(ws[1..]) + if IsTick(ws[0]) then 1 else 0
  }

  /** The time i ticks after tim: the control flags stay, the six-bit counter counts modulo 64. */
  function TimeAfter(tim: uint32, i: nat): nat {
    64 * (tim / 64) + (tim % 64 + i) % 64
  }

  lemma ModSum(a: nat, i: nat)
    ensures (a % 64 + i) % 64 == (a + i) % 64
  {
    var b := a % 64 + i;
    DivUnique(a + i, 64, a / 64 + b / 64, b % 64);
  }

  lemma TimeStep(tim: uint32, i: nat)
    ensures NextTime(tim) == TimeAfter(tim, 1) && TimeAfter(tim, 0) == tim
    ensures TimeAfter(NextTime(tim), i) == TimeAfter(tim, i + 1)
  {
    var q, n := tim / 64, (tim + 1) % 64;
    ModSum(tim, 1);
    Digit(NextTime(tim), 64, q, n);
    ModSum(tim % 64 + 1, i);
    assert n == (tim % 64 + 1) % 64;
  }

  lemma OneWrite(id: nat, r: Regs, w: RegWrite)
    requires LeavesTime(w)
    ensures WriteRegister(id, r, w.offset, w.value).tim == if IsTick(w) then NextTime(r.tim) else r.tim
    ensures SentTimecode(id, r, w.offset, w.value) == if IsTick(w) then [NextTime(r.tim)] else []
  {
    hide NextTime, CheckBit, WriteCtr, WriteChn, WriteStr, Reset, Low8, Low16, Low22, MaxLength, TxTable, RxTable;
    if w.offset == 0 {
      WriteCtrTime(id, r, w.value);
    }
  }

  /** Whatever else the guest writes in between, n ticks without a reset and without a write of
      SPWTIM send the next n time codes in order and leave the last of them in SPWTIM. */
  lemma {:induction false} TickSequence(id: nat, r: Regs, ws: seq<RegWrite>)
    requires forall i :: 0 <= i < |ws| ==> LeavesTime(ws[i])
    ensures WriteAll(id, r, ws).tim == TimeAfter(r.tim, Ticks(ws))
    ensures |CodesSent(id, r, ws)| == Ticks(ws)
    ensures forall i :: 0 <= i < Ticks(ws) ==> CodesSent(id, r, ws)[i] == TimeAfter(r.tim, i + 1)
    decreases |ws|
  {
    hide TimeAfter, NextTime, LeavesTime, IsTick, WriteRegister, SentTimecode;
    TimeStep(r.tim, 0);
    if ws != [] {
      var w, rest := ws[0], ws[1..];
      var r' := WriteRegister(id, r, w.offset, w.value);
      OneWrite(id, r, w);
      TickSequence(id, r', rest);
      var n, codes := Ticks(rest), CodesSent(id, r', rest);
      if IsTick(w) {
        TimeStep(r.tim, n);
        forall i | 0 <= i < n + 1
          ensures ([NextTime(r.tim)] + codes)[i] == TimeAfter(r.tim, i + 1)
        {
          if i > 0 { TimeStep(r.tim, i); }
        }
      } else {
        assert [] + codes == codes;
      }
    }
  }

  // ---- received time codes ----

  function TimecodeAll(d: Dev, ts: seq<byte>): Dev
    decreases |ts|
  {
    if ts == [] then d else TimecodeAll(RxTimecode(d, ts[0]), ts[1..])
  }

  function Max(a: uint32, b: byte): uint32 {
    if a < b as int then b as int else a
  }

  /** The greatest of tim and all codes. */
  function Greatest(tim: uint32, ts: seq<byte>): uint32
    decreases |ts|
  {
    if ts == [] then tim else Greatest(Max(tim, ts[0]), ts[1..])
  }

  /** How many codes exceed everything before them. */
  function Maxima(tim: uint32, ts: seq<byte>): nat
    decreases |ts|
  {
    if ts == [] then 0 else Maxima(Max(tim, ts[0]), ts[1..]) + if tim < ts[0] as int then 1 else 0
  }

  predicate Exceeds(tim: uint32, ts: seq<byte>) {
    exists i :: 0 <= i < |ts| && ts[i] as int > tim
  }

  lemma ExceedsFirst(tim: uint32, ts: seq<byte>)
    requires ts != []
    ensures Exceeds(tim, ts) == (tim < ts[0] as int || Exceeds(tim, ts[1..]))
  {
    if Exceeds(tim, ts[1..]) {
      var i :| 0 <= i < |ts[1..]| && ts[1..][i] as int > tim;
      assert ts[i + 1] as int > tim;
    }
    if Exceeds(tim, ts) && ts[0] as int <= tim {
      var i :| 0 <= i < |ts| && ts[i] as int > tim;
      assert ts[1..][i - 1] as int > tim;
    }
  }

  /** Greatest is an upper bound that is reached. */
  lemma {:induction false} GreatestIsMaximum(tim: uint32, ts: seq<byte>)
    ensures var g := Greatest(tim, ts);
            && tim <= g && (forall i :: 0 <= i < |ts| ==> ts[i] as int <= g)
            && (g == tim || exists i :: 0 <= i < |ts| && ts[i] as int == g)
    decreases |ts|
  {
    if ts != [] {
      var m, rest := Max(tim, ts[0]), ts[1..];
      GreatestIsMaximum(m, rest);
      var g := Greatest(tim, ts);
      assert forall i :: 0 < i < |ts| ==> ts[i] == rest[i - 1];
      if g != tim {
        if g == m {
          assert ts[0] as int == g;
        } else {
          var i :| 0 <= i < |rest| && rest[i] as int == g;
          assert ts[i + 1] as int == g;
        }
      }
    }
  }

  lemma {:induction false} MaximaBound(tim: uint32, ts: seq<byte>)
    ensures Maxima(tim, ts) <= Greatest(tim, ts) - tim
    ensures Maxima(tim, ts) > 0 <==> Exceeds(tim, ts)
    decreases |ts|
  {
    if ts != [] {
      MaximaBound(Max(tim, ts[0]), ts[1..]);
      ExceedsFirst(tim, ts);
    }
  }

  /** SPWSTR has Tick Out set if some code was accepted. */
  function TickOut(str: word, accepted: bool): word {
    if accepted then SetBit(str, STR_TO) else str
  }

  lemma TickOutTwice(str: word, more: bool)
    ensures TickOut(SetBit(str, STR_TO), more) == SetBit(str, STR_TO)
  {
    hide SetBit;
    SetTwice(str, STR_TO);
  }

  /** A device that has accepted n time codes, the last of them t. */
  function AfterCodes(d: Dev, t: uint32, n: nat): Dev {
    d.(irqs := d.irqs + (if CheckBit(d.regs.ctr, CTR_TQ) then n else 0),
       regs := d.regs.(tim := t, str := TickOut(d.regs.str, n > 0)))
  }

  lemma OneCode(d: Dev, code: byte)
    ensures RxTimecode(d, code) == AfterCodes(d, Max(d.regs.tim, code), if d.regs.tim < code as int then 1 else 0)
  {
    hide CheckBit, SetBit;
  }

  lemma CodesJoin(d: Dev, t: uint32, n: nat, t': uint32, n': nat)
    ensures AfterCodes(AfterCodes(d, t, n), t', n') == AfterCodes(d, t', n + n')
  {
    hide CheckBit, SetBit;
    TickOutTwice(d.regs.str, n' > 0);
  }

  lemma {:induction false} CodesFollowed(d: Dev, ts: seq<byte>)
    ensures TimecodeAll(d, ts) == AfterCodes(d, Greatest(d.regs.tim, ts), Maxima(d.regs.tim, ts))
    decreases |ts|
  {
    hide RxTimecode, CheckBit, SetBit;
    if ts != [] {
      var tim, rest := d.regs.tim, ts[1..];
      var m := Max(tim, ts[0]);
      OneCode(d, ts[0]);
      CodesFollowed(RxTimecode(d, ts[0]), rest);
      hide Max;
      CodesJoin(d, m, if tim < ts[0] as int then 1 else 0, Greatest(m, rest), Maxima(m, rest));
    }
  }

  /** Over any sequence of received time codes SPWTIM ends at the greatest value seen, Tick Out is
      set exactly if a code exceeded the time held at the start, and with TQ set there is one
      interrupt for every code above all before it, at most 255 minus the time at the start. */
  lemma TimecodeSequence(d: Dev, ts: seq<byte>)
    ensures var g, n, d' := Greatest(d.regs.tim, ts), Maxima(d.regs.tim, ts), TimecodeAll(d, ts);
            && d' == d.(irqs := d'.irqs, regs := d.regs.(tim := g, str := TickOut(d.regs.str, Exceeds(d.regs.tim, ts))))
            && d'.irqs == d.irqs + (if CheckBit(d.regs.ctr, CTR_TQ) then n else 0)
            && (d.regs.tim <= 255 ==> g <= 255 && n <= 255 - d.regs.tim)
  {
    hide CheckBit, SetBit, Maxima, Greatest, TimecodeAll;
    CodesFollowed(d, ts);
    MaximaBound(d.regs.tim, ts);
    GreatestIsMaximum(d.regs.tim, ts);
  }
}
