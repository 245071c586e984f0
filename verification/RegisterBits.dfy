/** What a register write stores, bit by bit, for every value and every earlier content: the registers of
    grlib_reggrspw.c told by the numbers of its masks alone. */
module RegisterBits {
  import opened BitOps
  import opened Registers
  import opened System

  // ---- the numeric registers ----

  // Each takes the masked value, and no other register changes.

  lemma WriteNumbersByMask(id: nat, r: Regs, v: word)
    ensures WriteRegister(id, r, 0x08, v) == r.(ndr := NumberOf(v & 0xFF))
    ensures WriteRegister(id, r, 0x0C, v) == r.(clk := NumberOf(v & 0xFFFF))
    ensures WriteRegister(id, r, 0x10, v) == r.(key := NumberOf(v & 0xFF))
    ensures WriteRegister(id, r, 0x14, v) == r.(tim := NumberOf(v & 0xFF))
    ensures WriteRegister(id, r, 0x18, v) == r.(tdr := NumberOf(v & 0x3F_FFFF))
  {
    hide WriteCtr, WriteStr, WriteChn, Low8, Low16, Low22, MaxLength, TxTable, RxTable, NumberOf;
    FieldsByMask(v);
  }

  lemma WriteLimitByMask(id: nat, r: Regs, v: word)
    ensures WriteRegister(id, r, 0x24, v) == r.(rxl := NumberOf(v & 0x1FF_FFFC))
  {
    hide WriteCtr, WriteStr, WriteChn, Low8, Low16, Low22, MaxLength, TxTable, RxTable, NumberOf;
    FieldsByMask(v);
  }

  lemma WriteTxTableByMask(id: nat, r: Regs, v: word)
    ensures WriteRegister(id, r, 0x28, v) == r.(txd := NumberOf(v & 0xFFFF_FFF0))
  {
    hide WriteCtr, WriteStr, WriteChn, Low8, Low16, Low22, MaxLength, TxTable, RxTable, NumberOf;
    FieldsByMask(v);
  }

  lemma WriteRxTableByMask(id: nat, r: Regs, v: word)
    ensures WriteRegister(id, r, 0x2C, v) == r.(rxd := NumberOf(v & 0xFFFF_FFF8))
  {
    hide WriteCtr, WriteStr, WriteChn, Low8, Low16, Low22, MaxLength, TxTable, RxTable, NumberOf;
    FieldsByMask(v);
  }

  /** Offsets other than those of the eleven registers are ignored. */
  lemma WriteElsewhere(id: nat, r: Regs, offset: nat, v: word)
    requires offset !in {0x00, 0x04, 0x08, 0x0C, 0x10, 0x14, 0x18, 0x20, 0x24, 0x28, 0x2C}
    ensures WriteRegister(id, r, offset, v) == r
  {
  }

  // ---- SPWSTR and SPWCHN ----

  /** A status bit is cleared by a 1, and no other register changes. */
  lemma WriteStrByBits(id: nat, r: Regs, v: word)
    ensures WriteRegister(id, r, 0x04, v) == r.(str := r.str & !(v & 0x1DF))
  {
  }

  /** All 32 bits of SPWCHN after a write; no other register changes. */
  lemma WriteChnByBits(id: nat, r: Regs, v: word)
    ensures var c := WriteRegister(id, r, 0x20, v).chn;
            && WriteRegister(id, r, 0x20, v) == r.(chn := c)
            && c & 0x1_141E == v & 0x1_141E
            && c & 0x800 == (r.chn | v) & 0x800
            && c & 0x1 == (if v & 0x200 != 0 then 0 else (r.chn | v) & 0x1)
            && c & 0x3E0 == r.chn & !v & 0x3E0
            && c & 0xFFFE_E000 == r.chn & 0xFFFE_E000
  {
    hide WriteChn;
    WriteChnByClass(r.chn, v);
    AbortBit(v);
    StatusAndAbort(WriteRegister(id, r, 0x20, v).chn, r.chn, v);
  }

  lemma AbortBit(v: word)
    ensures CheckBit(v, CHN_AT) <==> v & 0x200 != 0
  {
  }

  lemma StatusAndAbort(c: word, chn: word, v: word)
    requires c & 0x200 == chn & !v & 0x200 && c & 0x1E0 == chn & !v & 0x1E0
    ensures c & 0x3E0 == chn & !v & 0x3E0
  {
  }

  // ---- SPWCTR ----

  /** SPWCTR before Tick In, Link Start and Link Disable have been served. */
  function CtrBefore(id: nat, ctr: word, v: word): word {
    if v & 0x40 != 0 then ((ctr | v) & 0x7) | (if id < 2 then 0x0001_0002 else 0xA001_0002)
    else ctr | (v & 0x3_0F7F)
  }

  lemma CommandBits(v: word)
    ensures CheckBit(v, CTR_RS) <==> v & 0x40 != 0
    ensures CheckBit(v, CTR_TI) <==> v & 0x10 != 0
    ensures CheckBit(v, CTR_LS) <==> v & 0x2 != 0
    ensures CheckBit(v, CTR_LD) <==> v & 0x1 != 0
  {
  }

  /** SPWCTR after a write: without a reset the writable bits are added to those there are, with one only
      the three lowest stay. The Tick In written is gone; Link Start takes away Link Disable and Link
      Disable takes away Link Start. */
  lemma WriteCtrByBits(id: nat, r: Regs, v: word)
    ensures WriteRegister(id, r, 0x00, v).ctr
         == CtrBefore(id, r.ctr, v) & !(v & 0x10) & !((v & 0x2) >> 1) & !((v & 0x1) << 1)
  {
    hide CheckBit, CtrBits, CtrReset, CtrTick, CtrStart, CtrDisable, CtrBefore;
    var r1 := CtrBits(r, v);
    var r2 := CtrReset(id, r1, v);
    var r3 := CtrTick(r2, v);
    var r4 := CtrStart(r3, v);
    CommandBits(v);
    BeforeByBits(id, r, v);
    TickByBits(r2, v);
    StartByBits(r3, v);
    DisableByBits(r4, v);
  }

  lemma BeforeByBits(id: nat, r: Regs, v: word)
    ensures CtrReset(id, CtrBits(r, v), v).ctr == CtrBefore(id, r.ctr, v)
  {
    hide CheckBit;
    CommandBits(v);
    KeptLow(r.ctr, v);
  }

  lemma KeptLow(ctr: word, v: word)
    ensures CtrMerge(ctr, v) == ctr | (v & 0x3_0F7F)
    ensures CtrMerge(ctr, v) & CTR_NOTRESET == (ctr | v) & 0x7
  {
  }

  lemma TickByBits(r: Regs, v: word)
    ensures CtrTick(r, v).ctr == r.ctr & !(v & 0x10)
  {
    hide NextTime;
  }

  lemma StartByBits(r: Regs, v: word)
    ensures CtrStart(r, v).ctr == r.ctr & !((v & 0x2) >> 1)
  {
    hide Deposit;
  }

  lemma DisableByBits(r: Regs, v: word)
    ensures CtrDisable(r, v).ctr == r.ctr & !((v & 0x1) << 1)
  {
    hide Deposit;
  }

  function LinkState(str: word): word {
    str & 0x00E0_0000
  }

  function OtherStatus(str: word): word {
    str & 0xFF1F_FFFF
  }

  lemma TickKeepsStatus(r: Regs, v: word)
    ensures CtrTick(r, v).str == r.str
  {
    hide CheckBit, NextTime;
  }

  lemma StartState(r: Regs, v: word)
    ensures LinkState(CtrStart(r, v).str) == if v & 0x2 != 0 then 0x00A0_0000 else LinkState(r.str)
    ensures OtherStatus(CtrStart(r, v).str) == OtherStatus(r.str)
  {
    hide CheckBit, Deposit, LinkState, OtherStatus;
    CommandBits(v);
    LinkField(r.str, 0x00A0_0000);
  }

  lemma DisableState(r: Regs, v: word)
    ensures LinkState(CtrDisable(r, v).str) == if v & 0x1 != 0 then 0 else LinkState(r.str)
    ensures OtherStatus(CtrDisable(r, v).str) == OtherStatus(r.str)
  {
    hide CheckBit, Deposit, LinkState, OtherStatus;
    CommandBits(v);
    LinkField(r.str, 0);
  }

  lemma StatusAfter(id: nat, r: Regs, v: word)
    ensures var s := WriteRegister(id, r, 0x00, v).str;
            && LinkState(s) == (if v & 0x1 != 0 then 0 else if v & 0x2 != 0 then 0x00A0_0000
                                else if v & 0x40 != 0 then 0 else LinkState(r.str))
            && OtherStatus(s) == if v & 0x40 != 0 then 0 else OtherStatus(r.str)
  {
    hide CtrBits, CtrReset, CtrTick, CtrStart, CtrDisable, LinkState, OtherStatus;
    var r2 := CtrReset(id, CtrBits(r, v), v);
    var r3 := CtrTick(r2, v);
    StatusReset(id, r, v);
    TickKeepsStatus(r2, v);
    StartState(r3, v);
    DisableState(CtrStart(r3, v), v);
    NoStatus();
  }

  lemma NoStatus()
    ensures LinkState(0) == 0 && OtherStatus(0) == 0
  {
  }

  /** SPWSTR after a SPWCTR write: the link state is ErrorReset after Link Disable, else Run after Link Start,
      else ErrorReset after a reset, else what it was; the other status bits are cleared by a reset. */
  lemma WriteCtrLinkState(id: nat, r: Regs, v: word)
    ensures var s := WriteRegister(id, r, 0x00, v).str;
            && s & 0x00E0_0000 == (if v & 0x1 != 0 then 0 else if v & 0x2 != 0 then 0x00A0_0000
                                   else if v & 0x40 != 0 then 0 else r.str & 0x00E0_0000)
            && s & 0xFF1F_FFFF == if v & 0x40 != 0 then 0 else r.str & 0xFF1F_FFFF
  {
    hide WriteRegister;
    StatusAfter(id, r, v);
  }

  lemma StatusReset(id: nat, r: Regs, v: word)
    ensures CtrReset(id, CtrBits(r, v), v).str == if v & 0x40 != 0 then 0 else r.str
  {
    hide CheckBit, CtrMerge;
    CommandBits(v);
  }

  lemma LinkField(str: word, state: word)
    requires state & 0xFF1F_FFFF == 0
    ensures LinkState(Deposit(str, STR_LS, state)) == state
    ensures OtherStatus(Deposit(str, STR_LS, state)) == OtherStatus(str)
  {
  }

  /** The time steps with Tick In, from 0 if the write also resets; the code sent is the new time. */
  lemma WriteCtrTimeByBits(id: nat, r: Regs, v: word)
    ensures var tim: uint32 := if v & 0x40 != 0 then 0 else r.tim;
            var next := tim - tim % 64 + (tim % 64 + 1) % 64;
            && WriteRegister(id, r, 0x00, v).tim == (if v & 0x10 != 0 then next else tim)
            && SentTimecode(id, r, 0x00, v) == if v & 0x10 != 0 then [next] else []
  {
    hide CheckBit, NextTime, CtrMerge;
    CommandBits(v);
    WriteCtrTime(id, r, v);
    SentCode(id, r, v);
    hide WriteCtr, Reset, CtrTimecode;
    var b := CtrReset(id, CtrBits(r, v), v);
    ResetTime(id, CtrBits(r, v));
    NextTimeExact(b.tim);
  }

  lemma NextTimeExact(tim: uint32)
    ensures NextTime(tim) == tim - tim % 64 + (tim % 64 + 1) % 64
  {
    var q := tim / 64;
    DivUnique(tim + 1, 64, q + (tim % 64 + 1) / 64, (tim % 64 + 1) % 64);
  }

  /** Nothing else of the registers changes unless the write resets them, and then all of it has its
      initial value, TI, RI and AI of SPWCHN apart. */
  lemma WriteCtrOthers(id: nat, r: Regs, v: word)
    ensures var r' := WriteRegister(id, r, 0x00, v);
            r' == if v & 0x40 != 0 then Regs(r'.ctr, r'.str, 254, 0x404, 0, r'.tim, 0x2_7140, r.chn & 0x1C, 0, 0, 0)
                  else r.(ctr := r'.ctr, str := r'.str, tim := r'.tim)
  {
    hide CheckBit, CtrMerge, WriteCtr, NextTime;
    CommandBits(v);
    WriteCtrFrame(id, r, v);
  }

  // ---- where a write goes ----

  /** The address is taken apart into a core, bits 8 and 9, and an offset, bits 0 to 7. */
  lemma AddressBits(addr: nat)
    ensures CoreOf(addr) == And(addr / 0x100, 3) && OffsetOf(addr) == And(addr, 0xFF)
  {
    AndLow(addr / 0x100, 2);
    AndLow(addr, 8);
    assert Pow2(2) == 4 && Pow2(8) == 0x100;
  }

  /** A guest write changes the registers of the core that its address names and nothing else, and a
      transmission of that core is next. */
  lemma WriteGoesTo(s: State, k: nat, c: nat, offset: nat, v: word)
    requires Shape(s) && s.phase.Idle? && !s.exited && c < 4 && offset < 0x100
    ensures var d, t := s.cores[c], Step(s, GuestWrite(0x400 * k + 0x100 * c + offset, v));
            && t.cores == s.cores[c := d.(regs := WriteRegister(c, d.regs, offset, v))] && t.phase == Calling(c)
            && t.mem == s.mem && t.log == s.log && !t.exited
            && t.out == s.out + Timecodes(c, SentTimecode(c, d.regs, offset, v))
  {
    hide WriteRegister, SentTimecode, Timecodes, CoreOf, OffsetOf;
    AddressParts(k, c, offset);
    assert CoreOk(c, s.cores[c]);
  }

  lemma AddressParts(k: nat, c: nat, offset: nat)
    requires c < 4 && offset < 0x100
    ensures CoreOf(0x400 * k + 0x100 * c + offset) == c && OffsetOf(0x400 * k + 0x100 * c + offset) == offset
  {
    var a := 0x400 * k + 0x100 * c + offset;
    DivUnique(a, 0x100, 4 * k + c, offset);
    DivUnique(4 * k + c, 4, k, c);
  }

  // ---- the start ----

  /** All cores at the start of the process. */
  lemma InitByBits(mem: Leon3Ram.Mem, c: nat)
    requires c < 4
    ensures var s := Init(mem);
            var d := s.cores[c];
            && d.regs == Regs(if c < 2 then 0x0001_0002 else 0xA001_0002, 0, 254, 0x404, 0, 0, 0x2_7140, 0, 0, 0, 0)
            && |s.cores| == 4 && d.id == c && d.txdCur == 0 && d.rxdCur == 0 && d.irqs == 0
            && s.mem == mem && s.out == [] && s.phase.Idle? && !s.exited
  {
  }
}
