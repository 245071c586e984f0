/** The register file of one core (grlib_reggrspw.c). The control and status registers are masked
    words; addresses, lengths, the node address and the time are numbers. */
module Registers {
  import opened BitOps
  import opened Messages

  // SPWCTR
  const CTR_RESERVED: word := 0x1FFC_F080
  const CTR_READONLY: word := 0xE000_0000
  const CTR_NOTRESET: word := 0x0000_0007
  const CTR_SELFCLEAR: word := 0x0000_0050
  const CTR_CLEARSET: word := 0x0003_0F28
  const CTR_TQ: word := 0x100
  const CTR_RS: word := 0x40
  const CTR_OPM: word := 0x20
  const CTR_TI: word := 0x10
  const CTR_AS: word := 0x4
  const CTR_LS: word := 0x2
  const CTR_LD: word := 0x1

  // SPWSTR
  const STR_LS: word := 0x00E0_0000
  const STR_LSRUN: word := 0x00A0_0000
  const STR_EE: word := 0x100
  const STR_IA: word := 0x80
  const STR_WE: word := 0x40
  const STR_PE: word := 0x10
  const STR_DE: word := 0x8
  const STR_ER: word := 0x4
  const STR_CE: word := 0x2
  const STR_TO: word := 0x1

  // SPWCHN
  const CHN_RESERVED: word := 0xFFFE_E000
  const CHN_NOTRESET: word := 0x0000_001C
  const CHN_SELFCLEAR: word := 0x0000_0A01
  const CHN_CLEARSET: word := 0x0001_1402
  const CHN_RD: word := 0x800
  const CHN_AT: word := 0x200
  const CHN_RA: word := 0x100
  const CHN_TA: word := 0x80
  const CHN_PR: word := 0x40
  const CHN_PS: word := 0x20
  const CHN_AI: word := 0x10
  const CHN_RI: word := 0x8
  const CHN_TI: word := 0x4
  const CHN_RE: word := 0x2
  const CHN_TE: word := 0x1

  // The numeric registers: the fields that can be written
  const NDR: word := 0xFF
  const CLK_DIVISORS: word := 0xFFFF
  const KEY: word := 0xFF
  const TIM: word := 0xFF
  const TDR: word := 0x3F_FFFF
  const RXL: word := 0x1FF_FFFC
  const TXD: word := 0xFFFF_FFF0
  const RXD: word := 0xFFFF_FFF8
  const TIM_COUNTER: uint32 := 0x3F

  datatype Regs = Regs(
    ctr: word, str: word, ndr: uint32, clk: uint32, key: uint32, tim: uint32,
    tdr: uint32, chn: word, rxl: uint32, txd: uint32, rxd: uint32)

  // ---- what a write does ----

  /** The value SPWCTR gets from a reset, besides the bits a reset keeps. Cores 2 and 3 have RMAP. */
  function ResetCtr(id: nat): word {
    if id < 2 then 0x0001_0002 else 0xA001_0002
  }

  function Reset(id: nat, r: Regs): Regs {
    Regs((r.ctr & CTR_NOTRESET) | ResetCtr(id), 0, 254, 0x404, 0, 0, 0x2_7140, r.chn & CHN_NOTRESET, 0, 0, 0)
  }

  /** The six-bit time counter steps, the two control flags stay. */
  function NextTime(tim: uint32): (t: uint32) {
    tim - tim % 64 + (tim + 1) % 64
  }

  /** The four commands of a SPWCTR write, each on the registers the one before it leaves. */
  function CtrMerge(ctr: word, v: word): word {
    ctr | (v & (CTR_CLEARSET | CTR_NOTRESET | CTR_SELFCLEAR))
  }

  function CtrBits(r: Regs, v: word): Regs {
    r.(ctr := CtrMerge(r.ctr, v))
  }

  function CtrReset(id: nat, r: Regs, v: word): Regs {
    if CheckBit(v, CTR_RS) then Reset(id, r) else r
  }

  function CtrTick(r: Regs, v: word): Regs {
    if CheckBit(v, CTR_TI) then r.(tim := NextTime(r.tim), ctr := ClearBit(r.ctr, CTR_TI)) else r
  }

  function CtrStart(r: Regs, v: word): Regs {
    if CheckBit(v, CTR_LS) then r.(str := Deposit(r.str, STR_LS, STR_LSRUN), ctr := ClearBit(r.ctr, CTR_LD)) else r
  }

  function CtrDisable(r: Regs, v: word): Regs {
    if CheckBit(v, CTR_LD) then r.(str := Deposit(r.str, STR_LS, 0), ctr := ClearBit(r.ctr, CTR_LS)) else r
  }

  function WriteCtr(id: nat, r: Regs, v: word): Regs {
    CtrDisable(CtrStart(CtrTick(CtrReset(id, CtrBits(r, v), v), v), v), v)
  }

  /** The time code a SPWCTR write sends, if any. */
  function CtrTimecode(id: nat, r: Regs, v: word): seq<uint32> {
    if !CheckBit(v, CTR_TI) then []
    else [NextTime(if CheckBit(v, CTR_RS) then 0 else r.tim)]
  }

  /** A status bit is cleared by writing 1 to it; nothing else can be written. */
  const STR_WRITE_ONE: word := 0x1DF

  function WriteStr(str: word, v: word): word {
    str & !(v & STR_WRITE_ONE)
  }

  const CHN_WRITE_ONE: word := 0x1E0

  /** SPWCHN, class of bits by class of bits. */
  function WriteChn(chn: word, v: word): word {
    (v & (CHN_CLEARSET | CHN_NOTRESET))
    | ((chn | v) & CHN_RD)
    | (if CheckBit(v, CHN_AT) then 0 else (chn | v) & CHN_TE)
    | (chn & !v & (CHN_AT | CHN_WRITE_ONE))
    | (chn & CHN_RESERVED)
  }

  // ---- words as numbers ----

  function NumberOf(v: word): uint32 {
    v as int
  }

  // A word with nothing above its n lowest bits is a number of n bits.

  lemma Widen8(n: bv8)
    ensures NumberOf(n as word) == n as int
  {
  }

  lemma Narrow8(v: word)
    requires v & 0xFFFF_FF00 == 0
    ensures v as bv8 as word == v
  {
  }

  lemma Below8(v: word)
    requires v & 0xFFFF_FF00 == 0
    ensures NumberOf(v) < 0x100
  {
    hide NumberOf;
    Narrow8(v);
    Widen8(v as bv8);
  }

  lemma Widen16(n: bv16)
    ensures NumberOf(n as word) == n as int
  {
  }

  lemma Narrow16(v: word)
    requires v & 0xFFFF_0000 == 0
    ensures v as bv16 as word == v
  {
  }

  lemma Below16(v: word)
    requires v & 0xFFFF_0000 == 0
    ensures NumberOf(v) < 0x1_0000
  {
    hide NumberOf;
    Narrow16(v);
    Widen16(v as bv16);
  }

  lemma Widen22(n: bv22)
    ensures NumberOf(n as word) == n as int
  {
  }

  lemma Narrow22(v: word)
    requires v & 0xFFC0_0000 == 0
    ensures v as bv22 as word == v
  {
  }

  lemma Below22(v: word)
    requires v & 0xFFC0_0000 == 0
    ensures NumberOf(v) < 0x40_0000
  {
    hide NumberOf;
    Narrow22(v);
    Widen22(v as bv22);
  }

  lemma Widen23(n: bv23)
    ensures NumberOf(n as word) == n as int
  {
  }

  lemma Narrow23(v: word)
    requires v & 0xFF80_0000 == 0
    ensures v as bv23 as word == v
  {
  }

  lemma Below23(v: word)
    requires v & 0xFF80_0000 == 0
    ensures NumberOf(v) < 0x80_0000
  {
    hide NumberOf;
    Narrow23(v);
    Widen23(v as bv23);
  }

  lemma Widen28(n: bv28)
    ensures NumberOf(n as word) == n as int
  {
  }

  lemma Narrow28(v: word)
    requires v & 0xF000_0000 == 0
    ensures v as bv28 as word == v
  {
  }

  lemma Below28(v: word)
    requires v & 0xF000_0000 == 0
    ensures NumberOf(v) < 0x1000_0000
  {
    hide NumberOf;
    Narrow28(v);
    Widen28(v as bv28);
  }

  lemma Widen29(n: bv29)
    ensures NumberOf(n as word) == n as int
  {
  }

  lemma Narrow29(v: word)
    requires v & 0xE000_0000 == 0
    ensures v as bv29 as word == v
  {
  }

  lemma Below29(v: word)
    requires v & 0xE000_0000 == 0
    ensures NumberOf(v) < 0x2000_0000
  {
    hide NumberOf;
    Narrow29(v);
    Widen29(v as bv29);
  }

  // The numbers in some low bits, in bits 24..2, and in the base and select fields of a table address.

  function Low8(v: word): (n: uint32)
    ensures n < 0x100
  {
    hide NumberOf;
    Below8(v & 0xFF);
    NumberOf(v & 0xFF)
  }

  function Low16(v: word): (n: uint32)
    ensures n < 0x1_0000
  {
    hide NumberOf;
    Below16(v & 0xFFFF);
    NumberOf(v & 0xFFFF)
  }

  function Low22(v: word): (n: uint32)
    ensures n < 0x40_0000
  {
    hide NumberOf;
    Below22(v & 0x3F_FFFF);
    NumberOf(v & 0x3F_FFFF)
  }

  function MaxLength(v: word): (n: uint32)
    ensures n % 4 == 0 && n < 0x200_0000
  {
    hide NumberOf;
    Below23((v >> 2) & 0x7F_FFFF);
    4 * NumberOf((v >> 2) & 0x7F_FFFF)
  }

  function TxTable(v: word): (n: uint32)
    ensures n % 16 == 0
  {
    hide NumberOf;
    Below28(v >> 4);
    16 * NumberOf(v >> 4)
  }

  function RxTable(v: word): (n: uint32)
    ensures n % 8 == 0
  {
    hide NumberOf;
    Below29(v >> 3);
    8 * NumberOf(v >> 3)
  }

  function Masked(v: word, mask: word): uint32 {
    NumberOf(v & mask)
  }

  // Shifted back, the fields are in place in the value.

  lemma ShiftTwo(v: word)
    ensures 4 * NumberOf((v >> 2) & 0x7F_FFFF) == NumberOf(v & 0x1FF_FFFC)
  {
  }

  lemma MaxLengthByMask(v: word)
    ensures MaxLength(v) == Masked(v, 0x1FF_FFFC)
  {
    hide NumberOf;
    ShiftTwo(v);
  }

  lemma ShiftThree(v: word)
    ensures 8 * NumberOf(v >> 3) == NumberOf(v & 0xFFFF_FFF8)
  {
  }

  lemma RxTableByMask(v: word)
    ensures RxTable(v) == Masked(v, 0xFFFF_FFF8)
  {
    hide NumberOf;
    ShiftThree(v);
  }

  lemma ShiftFour(v: word)
    ensures 16 * NumberOf(v >> 4) == NumberOf(v & 0xFFFF_FFF0)
  {
  }

  lemma TxTableByMask(v: word)
    ensures TxTable(v) == Masked(v, 0xFFFF_FFF0)
  {
    hide NumberOf;
    ShiftFour(v);
  }

  lemma Low8ByMask(v: word)
    ensures Low8(v) == Masked(v, 0xFF)
  {
    hide NumberOf;
  }

  lemma Low16ByMask(v: word)
    ensures Low16(v) == Masked(v, 0xFFFF)
  {
    hide NumberOf;
  }

  lemma Low22ByMask(v: word)
    ensures Low22(v) == Masked(v, 0x3F_FFFF)
  {
    hide NumberOf;
  }

  lemma FieldsByMask(v: word)
    ensures Low8(v) == Masked(v, NDR) == Masked(v, KEY) == Masked(v, TIM)
    ensures Low16(v) == Masked(v, CLK_DIVISORS) && Low22(v) == Masked(v, TDR)
    ensures MaxLength(v) == Masked(v, RXL) && TxTable(v) == Masked(v, TXD) && RxTable(v) == Masked(v, RXD)
  {
    hide Masked, Low8, Low16, Low22, MaxLength, RxTable, TxTable;
    Low8ByMask(v);
    Low16ByMask(v);
    Low22ByMask(v);
    MaxLengthByMask(v);
    RxTableByMask(v);
    TxTableByMask(v);
  }

  /** grlib_reggrspw_write_registers: the offset selects the register. */
  function WriteRegister(id: nat, r: Regs, offset: nat, v: word): Regs {
    match offset
    case 0x00 => WriteCtr(id, r, v)
    case 0x04 => r.(str := WriteStr(r.str, v))
    case 0x08 => r.(ndr := Low8(v))
    case 0x0C => r.(clk := Low16(v))
    case 0x10 => r.(key := Low8(v))
    case 0x14 => r.(tim := Low8(v))
    case 0x18 => r.(tdr := Low22(v))
    case 0x20 => r.(chn := WriteChn(r.chn, v))
    case 0x24 => r.(rxl := MaxLength(v))
    case 0x28 => r.(txd := TxTable(v))
    case 0x2C => r.(rxd := RxTable(v))
    case _ => r
  }

  function SentTimecode(id: nat, r: Regs, offset: nat, v: word): seq<uint32> {
    if offset == 0 then CtrTimecode(id, r, v) else []
  }

  // ---- what every write keeps ----

  predicate CtrWord(id: nat, ctr: word) {
    && ctr & CTR_RESERVED == 0
    && ctr & CTR_READONLY == (if id < 2 then 0 else 0xA000_0000)
    && ctr & CTR_SELFCLEAR == 0
  }

  predicate ChnWord(chn: word) {
    chn & (CHN_RESERVED | CHN_AT | CHN_RA | CHN_TA) == 0
  }

  /** The link state is ErrorReset (0) or Run (5), the only status bits in use are EE and TO. */
  predicate StrWord(str: word) {
    && str & !(STR_LS | STR_EE | STR_TO) == 0
    && (str & STR_LS == 0 || str & STR_LS == STR_LSRUN)
  }

  /** While the link runs, Link Start is set and Link Disable is clear. */
  predicate LinkWords(ctr: word, str: word) {
    str & STR_LS != 0 ==> CheckBit(ctr, CTR_LS) && ctr & CTR_LD == 0
  }

  predicate NumbersInField(r: Regs) {
    && r.ndr < 0x100 && r.clk < 0x1_0000 && r.key < 0x100 && r.tim < 0x100 && r.tdr < 0x40_0000
    && r.rxl % 4 == 0 && r.rxl < 0x200_0000
    && r.txd % 16 == 0 && r.rxd % 8 == 0
  }

  predicate RegsOk(id: nat, r: Regs) {
    CtrWord(id, r.ctr) && ChnWord(r.chn) && StrWord(r.str) && LinkWords(r.ctr, r.str) && NumbersInField(r)
  }

  lemma WriteCtrKeepsLink(id: nat, r: Regs, v: word)
    requires CtrWord(id, r.ctr) && StrWord(r.str) && LinkWords(r.ctr, r.str)
    ensures var r' := WriteCtr(id, r, v); CtrWord(id, r'.ctr) && StrWord(r'.str) && LinkWords(r'.ctr, r'.str)
  {
    var r1 := CtrBits(r, v);
    var r2 := CtrReset(id, r1, v);
    var r3 := CtrTick(r2, v);
    var r4 := CtrStart(r3, v);
  }

  /** Apart from a reset, a SPWCTR write touches the control and status words and the time only. */
  lemma WriteCtrFrame(id: nat, r: Regs, v: word)
    ensures var r', b := WriteCtr(id, r, v), CtrReset(id, CtrBits(r, v), v);
            r' == b.(ctr := r'.ctr, str := r'.str, tim := r'.tim)
  {
    hide CheckBit, ClearBit, Deposit, NextTime, Reset, CtrMerge;
  }

  lemma WriteCtrTime(id: nat, r: Regs, v: word)
    ensures var b := CtrReset(id, CtrBits(r, v), v);
            WriteCtr(id, r, v).tim == if CheckBit(v, CTR_TI) then NextTime(b.tim) else b.tim
  {
    hide CheckBit, ClearBit, Deposit, NextTime, Reset, CtrMerge;
  }

  /** The time code sent is the time the register is left with. */
  lemma SentCode(id: nat, r: Regs, v: word)
    ensures CtrTimecode(id, r, v) == if CheckBit(v, CTR_TI) then [WriteCtr(id, r, v).tim] else []
  {
    WriteCtrTime(id, r, v);
    ResetTime(id, CtrBits(r, v));
    hide CheckBit, NextTime, Reset, WriteCtr;
  }

  lemma ResetTime(id: nat, r: Regs)
    ensures Reset(id, r).tim == 0
  {
  }

  lemma WriteCtrKeeps(id: nat, r: Regs, v: word)
    requires RegsOk(id, r)
    ensures RegsOk(id, WriteCtr(id, r, v))
  {
    WriteCtrKeepsLink(id, r, v);
    WriteCtrFrame(id, r, v);
    WriteCtrTime(id, r, v);
    ResetOk(id, CtrBits(r, v));
    hide CtrWord, StrWord, LinkWords, ChnWord, WriteCtr, Reset;
  }

  function SetClearBits(ctr: word): word {
    ctr & CTR_CLEARSET
  }

  /** The set/clear bits of SPWCTR after a write: a reset gives them their initial value, any other
      write only adds to them. */
  lemma WriteCtrSetClear(id: nat, r: Regs, v: word)
    ensures SetClearBits(WriteCtr(id, r, v).ctr) == if CheckBit(v, CTR_RS) then 0x1_0000 else SetClearBits(r.ctr | v)
  {
    hide CtrBits, CtrReset, CtrTick, CtrStart, CtrDisable, CheckBit, SetClearBits;
    var r1 := CtrBits(r, v);
    var r2 := CtrReset(id, r1, v);
    var r3 := CtrTick(r2, v);
    var r4 := CtrStart(r3, v);
    MergeAdds(r, v);
    ResetSetClear(id, r1, v);
    TickKeepsSetClear(r2, v);
    StartKeepsSetClear(r3, v);
    DisableKeepsSetClear(r4, v);
  }

  lemma MergeAdds(r: Regs, v: word)
    ensures SetClearBits(CtrBits(r, v).ctr) == SetClearBits(r.ctr | v)
  {
  }

  lemma ResetSetClear(id: nat, r: Regs, v: word)
    ensures SetClearBits(CtrReset(id, r, v).ctr) == if CheckBit(v, CTR_RS) then 0x1_0000 else SetClearBits(r.ctr)
  {
    hide CheckBit;
  }

  lemma TickKeepsSetClear(r: Regs, v: word)
    ensures SetClearBits(CtrTick(r, v).ctr) == SetClearBits(r.ctr)
  {
    hide CheckBit;
  }

  lemma StartKeepsSetClear(r: Regs, v: word)
    ensures SetClearBits(CtrStart(r, v).ctr) == SetClearBits(r.ctr)
  {
    hide CheckBit;
  }

  lemma DisableKeepsSetClear(r: Regs, v: word)
    ensures SetClearBits(CtrDisable(r, v).ctr) == SetClearBits(r.ctr)
  {
    hide CheckBit;
  }

  /** The three bits of SPWCTR that a reset keeps. */
  datatype LinkBits = LinkBits(autostart: bool, start: bool, disable: bool)

  function LinkBitsOf(ctr: word): LinkBits {
    LinkBits(CheckBit(ctr, CTR_AS), CheckBit(ctr, CTR_LS), CheckBit(ctr, CTR_LD))
  }

  lemma MergeLinkBits(r: Regs, v: word)
    ensures var b, w := LinkBitsOf(r.ctr), LinkBitsOf(v);
            LinkBitsOf(CtrBits(r, v).ctr)
                == LinkBits(b.autostart || w.autostart, b.start || w.start, b.disable || w.disable)
  {
  }

  lemma ResetLinkBits(id: nat, r: Regs, v: word)
    ensures var b := LinkBitsOf(r.ctr);
        LinkBitsOf(CtrReset(id, r, v).ctr) == b.(start := b.start || CheckBit(v, CTR_RS))
  {
  }

  lemma CommandLinkBits(r: Regs, v: word)
    ensures LinkBitsOf(CtrTick(r, v).ctr) == LinkBitsOf(r.ctr)
    ensures LinkBitsOf(CtrStart(r, v).ctr)
         == if LinkBitsOf(v).start then LinkBitsOf(r.ctr).(disable := false) else LinkBitsOf(r.ctr)
    ensures LinkBitsOf(CtrDisable(r, v).ctr)
         == if LinkBitsOf(v).disable then LinkBitsOf(r.ctr).(start := false) else LinkBitsOf(r.ctr)
  {
    hide CheckBit, ClearBit, Deposit, NextTime;
    CheckOtherClear(r.ctr, CTR_TI, CTR_AS);
    CheckOtherClear(r.ctr, CTR_TI, CTR_LS);
    CheckOtherClear(r.ctr, CTR_TI, CTR_LD);
    CheckOtherClear(r.ctr, CTR_LD, CTR_AS);
    CheckOtherClear(r.ctr, CTR_LD, CTR_LS);
    CheckOtherClear(r.ctr, CTR_LS, CTR_AS);
    CheckOtherClear(r.ctr, CTR_LS, CTR_LD);
    CheckCleared(r.ctr, CTR_LD);
    CheckCleared(r.ctr, CTR_LS);
  }

  /** What a SPWCTR write does to them. Autostart can only be set. Link Start is set by itself and by a
      reset and cleared by Link Disable; Link Disable is cleared by Link Start. */
  lemma WriteCtrLinkBits(id: nat, r: Regs, v: word)
    ensures var b, w := LinkBitsOf(r.ctr), LinkBitsOf(v);
            LinkBitsOf(WriteCtr(id, r, v).ctr)
            == LinkBits(b.autostart || w.autostart,
                        (b.start || w.start || CheckBit(v, CTR_RS)) && !w.disable,
                        (b.disable || w.disable) && !w.start)
  {
    hide CtrBits, CtrReset, CtrTick, CtrStart, CtrDisable, CheckBit, LinkBitsOf;
    var r1 := CtrBits(r, v);
    var r2 := CtrReset(id, r1, v);
    var r3 := CtrTick(r2, v);
    var r4 := CtrStart(r3, v);
    MergeLinkBits(r, v);
    ResetLinkBits(id, r1, v);
    CommandLinkBits(r2, v);
    CommandLinkBits(r3, v);
    CommandLinkBits(r4, v);
  }

  /** A value that has all the set/clear bits that are set. */
  predicate UnsetsNothing(ctr: word, v: word) {
    SetClearBits(ctr & !v) == 0
  }

  predicate SetClearTaken(ctr: word, v: word) {
    SetClearBits(ctr) == SetClearBits(v)
  }

  /** A SPWCTR write takes the value in all the bits of its deposit. */
  predicate TakesValue(ctr: word, v: word) {
    ctr & (CTR_CLEARSET | CTR_NOTRESET) == v & (CTR_CLEARSET | CTR_NOTRESET)
  }

  lemma OrTakesValue(a: word, v: word)
    ensures SetClearBits(a | v) == SetClearBits(v) <==> UnsetsNothing(a, v)
  {
  }

  lemma SetClearTakesValue(id: nat, r: Regs, v: word)
    ensures SetClearTaken(WriteCtr(id, r, v).ctr, v)
       <==> if CheckBit(v, CTR_RS) then SetClearBits(v) == 0x1_0000 else UnsetsNothing(r.ctr, v)
  {
    hide WriteCtr, SetClearBits, CheckBit, UnsetsNothing, SetClearTaken;
    WriteCtrSetClear(id, r, v);
    OrTakesValue(r.ctr, v);
    TakenFrom(WriteCtr(id, r, v).ctr, r.ctr | v, v, r.ctr, CheckBit(v, CTR_RS));
  }

  lemma TakenFrom(c: word, both: word, v: word, ctr: word, reset: bool)
    requires SetClearBits(c) == if reset then 0x1_0000 else SetClearBits(both)
    requires SetClearBits(both) == SetClearBits(v) <==> UnsetsNothing(ctr, v)
    ensures SetClearTaken(c, v) <==> if reset then SetClearBits(v) == 0x1_0000 else UnsetsNothing(ctr, v)
  {
    hide SetClearBits, UnsetsNothing;
  }

  lemma LowBits(c: word, v: word)
    ensures c & CTR_NOTRESET == v & CTR_NOTRESET <==> LinkBitsOf(c) == LinkBitsOf(v)
  {
  }

  /** The bits of the deposit are the set/clear bits and those a reset keeps. */
  lemma DepositBits(c: word)
    ensures SetClearBits(c & (CTR_CLEARSET | CTR_NOTRESET)) == SetClearBits(c)
    ensures (c & (CTR_CLEARSET | CTR_NOTRESET)) & CTR_NOTRESET == c & CTR_NOTRESET
    ensures SetClearBits(c) | (c & CTR_NOTRESET) == c & (CTR_CLEARSET | CTR_NOTRESET)
  {
  }

  lemma SplitBits(c: word, v: word)
    ensures TakesValue(c, v) <==> SetClearTaken(c, v) && c & CTR_NOTRESET == v & CTR_NOTRESET
  {
    hide SetClearBits;
    DepositBits(c);
    DepositBits(v);
  }

  lemma TakesValueParts(c: word, v: word)
    ensures TakesValue(c, v) <==> SetClearTaken(c, v) && LinkBitsOf(c) == LinkBitsOf(v)
  {
    hide TakesValue, SetClearTaken, LinkBitsOf;
    LowBits(c, v);
    SplitBits(c, v);
  }

  /** Contrary to what the documentation of the write says, the set/clear bits cannot be unset: without a
      reset they take the value written exactly when that value clears none that is set. All the bits
      of the deposit take the value written exactly when moreover Autostart is not to be cleared, and of
      Link Start and Link Disable one is written, or none while none is set. */
  lemma WriteCtrTakesValue(id: nat, r: Regs, v: word)
    ensures !CheckBit(v, CTR_RS) ==> (SetClearTaken(WriteCtr(id, r, v).ctr, v) <==> UnsetsNothing(r.ctr, v))
    ensures var b, w := LinkBitsOf(r.ctr), LinkBitsOf(v);
            TakesValue(WriteCtr(id, r, v).ctr, v) <==>
              && (if CheckBit(v, CTR_RS) then SetClearBits(v) == 0x1_0000 else UnsetsNothing(r.ctr, v))
              && (b.autostart ==> w.autostart)
              && (if w.start || w.disable then w.start != w.disable else !CheckBit(v, CTR_RS) && !b.start && !b.disable)
  {
    hide WriteCtr, SetClearBits, CheckBit, TakesValue, SetClearTaken, UnsetsNothing, LinkBitsOf;
    SetClearTakesValue(id, r, v);
    WriteCtrLinkBits(id, r, v);
    TakesValueParts(WriteCtr(id, r, v).ctr, v);
  }

  lemma WriteStrKeeps(ctr: word, str: word, v: word)
    requires StrWord(str) && LinkWords(ctr, str)
    ensures StrWord(WriteStr(str, v)) && LinkWords(ctr, WriteStr(str, v))
  {
  }

  lemma WriteChnKeeps(chn: word, v: word)
    requires ChnWord(chn)
    ensures ChnWord(WriteChn(chn, v))
  {
    var te := if CheckBit(v, CHN_AT) then 0 else (chn | v) & CHN_TE;
    WriteChnWord(chn, v, te);
  }

  lemma WriteChnWord(chn: word, v: word, te: word)
    requires chn & 0xFFFE_E380 == 0 && te & !1 == 0
    ensures ((v & 0x1_141E) | ((chn | v) & 0x800) | te | (chn & !v & 0x3E0) | (chn & 0xFFFE_E000)) & 0xFFFE_E380 == 0
  {
  }

  /** The classes of SPWCHN bits cover the 32 bits and do not overlap. */
  lemma ChnPartition()
    ensures CHN_CLEARSET | CHN_NOTRESET | CHN_SELFCLEAR | CHN_WRITE_ONE | CHN_RESERVED == 0xFFFF_FFFF
    ensures (CHN_CLEARSET | CHN_NOTRESET) & (CHN_SELFCLEAR | CHN_WRITE_ONE | CHN_RESERVED) == 0
    ensures CHN_CLEARSET & CHN_NOTRESET == 0 && CHN_SELFCLEAR & CHN_WRITE_ONE == 0
    ensures (CHN_SELFCLEAR | CHN_WRITE_ONE) & CHN_RESERVED == 0
    ensures CHN_SELFCLEAR == CHN_RD | CHN_AT | CHN_TE && CHN_WRITE_ONE == CHN_RA | CHN_TA | CHN_PR | CHN_PS
  {
  }

  /** What each class of bits is after a write: set/clear bits take the value; RD can only be set;
      TE can only be set, and an abort clears it; the abort bit and the status bits are cleared by
      a 1; reserved bits stay. */
  lemma WriteChnByClass(chn: word, v: word)
    ensures var c := WriteChn(chn, v);
            && c & (CHN_CLEARSET | CHN_NOTRESET) == v & (CHN_CLEARSET | CHN_NOTRESET)
            && c & CHN_RD == (chn | v) & CHN_RD
            && c & CHN_TE == (if CheckBit(v, CHN_AT) then 0 else (chn | v) & CHN_TE)
            && c & CHN_AT == chn & !v & CHN_AT
            && c & CHN_WRITE_ONE == chn & !v & CHN_WRITE_ONE
            && c & CHN_RESERVED == chn & CHN_RESERVED
  {
    var te := if CheckBit(v, CHN_AT) then 0 else (chn | v) & CHN_TE;
    ChnClassesApart(chn, v, te);
  }

  lemma ChnClassesApart(chn: word, v: word, te: word)
    requires te & !1 == 0
    ensures var c := (v & 0x1_141E) | ((chn | v) & 0x800) | te | (chn & !v & 0x3E0) | (chn & 0xFFFE_E000);
            && c & 0x1_141E == v & 0x1_141E && c & 0x800 == (chn | v) & 0x800 && c & 1 == te
            && c & 0x200 == chn & !v & 0x200 && c & 0x1E0 == chn & !v & 0x1E0 && c & 0xFFFE_E000 == chn & 0xFFFE_E000
  {
  }

  lemma WriteChnTwice(chn: word, v: word)
    ensures WriteChn(WriteChn(chn, v), v) == WriteChn(chn, v)
  {
  }

  lemma ResetOk(id: nat, r: Regs)
    ensures RegsOk(id, Reset(id, r))
  {
  }

  lemma WriteRegisterKeeps(id: nat, r: Regs, offset: nat, v: word)
    requires RegsOk(id, r)
    ensures RegsOk(id, WriteRegister(id, r, offset, v))
  {
    hide WriteChn, WriteCtr, WriteStr, Low8, Low16, Low22, MaxLength, TxTable, RxTable, CtrWord, StrWord;
    hide LinkWords, ChnWord;
    WriteCtrKeeps(id, r, v);
    WriteStrKeeps(r.ctr, r.str, v);
    WriteChnKeeps(r.chn, v);
  }

  // ---- the code ----

  /** The stores of a SPWCTR write before its commands: set/clear bits are or-ed into the old
      word, so a 0 does not clear them. */
  lemma CtrStores(ctr: word, v: word, clearset: word, set_: word)
    requires clearset == Deposit(ctr, CTR_CLEARSET | CTR_NOTRESET, v) && set_ == SetBit(ctr, v & CTR_SELFCLEAR)
    ensures clearset | set_ == CtrMerge(ctr, v)
  {
  }

  /** if (checkbit(v, mask)) reg = clearbit(reg, mask); */
  function ClearIf(reg: word, v: word, mask: word): word {
    if CheckBit(v, mask) then ClearBit(reg, mask) else reg
  }

  function ClearWhere(reg: word, v: word, mask: word): word {
    reg & !(v & mask)
  }

  lemma ClearOne(reg: word, v: word, mask: word)
    requires v & mask == mask || v & mask == 0
    ensures ClearIf(reg, v, mask) == ClearWhere(reg, v, mask)
  {
    if v & mask == mask && mask != 0 {
      assert CheckBit(v, mask);
    }
  }

  /** A single bit is there or it is not. */
  lemma SingleBits(v: word)
    ensures v & 0x100 == 0x100 || v & 0x100 == 0
    ensures v & 0x80 == 0x80 || v & 0x80 == 0
    ensures v & 0x40 == 0x40 || v & 0x40 == 0
    ensures v & 0x20 == 0x20 || v & 0x20 == 0
    ensures v & 0x10 == 0x10 || v & 0x10 == 0
    ensures v & 0x8 == 0x8 || v & 0x8 == 0
    ensures v & 0x4 == 0x4 || v & 0x4 == 0
    ensures v & 0x2 == 0x2 || v & 0x2 == 0
    ensures v & 0x1 == 0x1 || v & 0x1 == 0
  {
  }

  /** The eight tests of a SPWSTR write, one after the other. */
  function StrTests(str: word, v: word): word {
    ClearIf(ClearIf(ClearIf(ClearIf(ClearIf(ClearIf(ClearIf(ClearIf(str,
      v, STR_EE), v, STR_IA), v, STR_WE), v, STR_PE), v, STR_DE), v, STR_ER), v, STR_CE), v, STR_TO)
  }

  lemma StrStores(str: word, v: word)
    ensures StrTests(str, v) == WriteStr(str, v)
  {
    hide ClearIf, ClearWhere, WriteStr;
    SingleBits(v);
    var s1 := ClearWhere(str, v, STR_EE); ClearOne(str, v, STR_EE);
    var s2 := ClearWhere(s1, v, STR_IA); ClearOne(s1, v, STR_IA);
    var s3 := ClearWhere(s2, v, STR_WE); ClearOne(s2, v, STR_WE);
    var s4 := ClearWhere(s3, v, STR_PE); ClearOne(s3, v, STR_PE);
    var s5 := ClearWhere(s4, v, STR_DE); ClearOne(s4, v, STR_DE);
    var s6 := ClearWhere(s5, v, STR_ER); ClearOne(s5, v, STR_ER);
    var s7 := ClearWhere(s6, v, STR_CE); ClearOne(s6, v, STR_CE);
    ClearOne(s7, v, STR_TO);
    StrWord8(str, v);
  }

  lemma StrWord8(str: word, v: word)
    ensures ClearWhere(ClearWhere(ClearWhere(ClearWhere(ClearWhere(ClearWhere(ClearWhere(ClearWhere(str,
              v, STR_EE), v, STR_IA), v, STR_WE), v, STR_PE), v, STR_DE), v, STR_ER), v, STR_CE), v, STR_TO)
         == WriteStr(str, v)
  {
    hide ClearWhere, WriteStr;
    ClearTwo(str, v, STR_EE, STR_IA, 0x180);
    ClearTwo(str, v, 0x180, STR_WE, 0x1C0);
    ClearTwo(str, v, 0x1C0, STR_PE, 0x1D0);
    ClearTwo(str, v, 0x1D0, STR_DE, 0x1D8);
    ClearTwo(str, v, 0x1D8, STR_ER, 0x1DC);
    ClearTwo(str, v, 0x1DC, STR_CE, 0x1DE);
    ClearTwo(str, v, 0x1DE, STR_TO, 0x1DF);
    WriteStrIsClear(str, v);
  }

  lemma WriteStrIsClear(str: word, v: word)
    ensures ClearWhere(str, v, 0x1DF) == WriteStr(str, v)
  {
  }

  lemma ClearTwo(reg: word, v: word, m: word, n: word, both: word)
    requires both == m | n
    ensures ClearWhere(ClearWhere(reg, v, m), v, n) == ClearWhere(reg, v, both)
  {
  }

  function ChnMerge(chn: word, v: word): word {
    SetBit(Deposit(chn, CHN_CLEARSET | CHN_NOTRESET, v), v & CHN_SELFCLEAR)
  }

  function ChnAbort(chn: word, v: word): word {
    if CheckBit(v, CHN_AT) then ClearBit(ClearBit(chn, CHN_TE), CHN_AT) else chn
  }

  /** The tests of a SPWCHN write for the status bits, one after the other. */
  function ChnTests(a: word, v: word): word {
    ClearIf(ClearIf(ClearIf(ClearIf(a, v, CHN_RA), v, CHN_TA), v, CHN_PR), v, CHN_PS)
  }

  lemma ChnClears(a: word, v: word)
    ensures ChnTests(a, v) == a & !(v & CHN_WRITE_ONE)
  {
    hide ClearIf;
    SingleBits(v);
    ClearOne(a, v, CHN_RA);
    var s1 := ClearWhere(a, v, CHN_RA);
    ClearOne(s1, v, CHN_TA);
    var s2 := ClearWhere(s1, v, CHN_TA);
    ClearOne(s2, v, CHN_PR);
    ClearOne(ClearWhere(s2, v, CHN_PR), v, CHN_PS);
  }

  /** The stores of a SPWCHN write. */
  lemma ChnStores(chn: word, v: word)
    ensures ChnTests(ChnAbort(ChnMerge(chn, v), v), v) == WriteChn(chn, v)
  {
    ChnWord4(chn, v);
    hide ChnMerge, ChnAbort, WriteChn;
    ChnClears(ChnAbort(ChnMerge(chn, v), v), v);
  }

  lemma ChnWord4(chn: word, v: word)
    ensures ChnAbort(ChnMerge(chn, v), v) & !(v & CHN_WRITE_ONE) == WriteChn(chn, v)
  {
  }

  /** The reset bit is already clear when a reset clears it. */
  lemma ResetClears(ctr: word)
    requires ctr & CTR_RS == 0
    ensures ClearBit(ctr, CTR_RS) == ctr
  {
  }

  class RegisterFile {
    var ctr: word
    var str: word
    var ndr: uint32
    var clk: uint32
    var key: uint32
    var tim: uint32
    var tdr: uint32
    var chn: word
    var rxl: uint32
    var txd: uint32
    var rxd: uint32

    ghost function View(): Regs
      reads this
    {
      Regs(ctr, str, ndr, clk, key, tim, tdr, chn, rxl, txd, rxd)
    }

    /** Registers in zeroed memory, before the first reset. */
    constructor ()
      ensures View() == Regs(0, 0, 0, 0, 0, 0, 0, 0, 0, 0, 0)
    {
      ctr, str, chn := 0, 0, 0;
      ndr, clk, key, tim, tdr, rxl, txd, rxd := 0, 0, 0, 0, 0, 0, 0, 0;
    }

    // The two parts of a reset.

    method ResetControl(id: nat)
      modifies this
      ensures View() == var v := old(View()); v.(ctr := (v.ctr & CTR_NOTRESET) | ResetCtr(id), str := 0)
    {
      if id < 2 {
        ctr := (ctr & CTR_NOTRESET) | 0x0001_0002;
      } else {
        ctr := (ctr & CTR_NOTRESET) | 0xA001_0002;
      }
      str := 0;
    }

    method ResetNumbers()
      modifies this
      ensures View() == var v := old(View());
          Regs(v.ctr, v.str, 254, 0x404, 0, 0, 0x2_7140, v.chn & CHN_NOTRESET, 0, 0, 0)
    {
      ndr := 254;
      clk := 0x404;
      key := 0;
      tim := 0;
      tdr := 0x2_7140;
      chn := chn & CHN_NOTRESET;
      rxl := 0;
      rxd := 0;
      txd := 0;
    }

    method ResetRegisters(id: nat)
      modifies this
      ensures View() == Reset(id, old(View()))
    {
      hide ClearBit;
      ResetControl(id);
      ResetNumbers();
      ResetClears(ctr);
      ctr := ClearBit(ctr, CTR_RS);
    }

    // The five parts of a SPWCTR write.

    method MergeControl(value: word)
      modifies this
      ensures View() == CtrBits(old(View()), value)
    {
      var reg := ctr;
      var clearset := Deposit(reg, CTR_CLEARSET | CTR_NOTRESET, value);
      var set_ := SetBit(reg, value & CTR_SELFCLEAR);
      CtrStores(reg, value, clearset, set_);
      hide Deposit, SetBit, CtrMerge;
      ctr := clearset | set_;
    }

    method TickIn(id: nat, mq: MessageQueues)
      requires mq.Valid() && id < CORES
      modifies this, mq`spwq, mq`sent, mq.txbuffer
      ensures mq.Valid()
      ensures View() == var v := old(View()); v.(tim := NextTime(v.tim), ctr := ClearBit(v.ctr, CTR_TI))
      ensures mq.sent == old(mq.sent) + Timecodes(id, [View().tim])
    {
      InsertCounter(tim);
      hide NextTime, Insert, ClearBit;
      tim := Insert(tim, TIM_COUNTER, Add(tim, 1));
      mq.SendSpwTimecode(id, (tim % 0x100) as byte);
      ctr := ClearBit(ctr, CTR_TI);
    }

    method StartLink()
      modifies this
      ensures View() == var v := old(View());
          v.(str := Deposit(v.str, STR_LS, STR_LSRUN), ctr := ClearBit(v.ctr, CTR_LD))
    {
      hide Deposit, ClearBit;
      str := Deposit(str, STR_LS, STR_LSRUN);
      ctr := ClearBit(ctr, CTR_LD);
    }

    method DisableLink()
      modifies this
      ensures View() == var v := old(View()); v.(str := Deposit(v.str, STR_LS, 0), ctr := ClearBit(v.ctr, CTR_LS))
    {
      hide Deposit, ClearBit;
      str := Deposit(str, STR_LS, 0);
      ctr := ClearBit(ctr, CTR_LS);
    }

    method WriteControl(id: nat, value: word, mq: MessageQueues)
      requires mq.Valid() && id < CORES
      modifies this, mq`spwq, mq`sent, mq.txbuffer
      ensures mq.Valid()
      ensures View() == WriteCtr(id, old(View()), value)
      ensures mq.sent == old(mq.sent) + Timecodes(id, CtrTimecode(id, old(View()), value))
    {
      SentCode(id, View(), value);
      hide CheckBit, ClearBit, Deposit, NextTime, CtrBits, Reset, CtrTimecode, View;
      MergeControl(value);
      if CheckBit(value, CTR_RS) {
        ResetRegisters(id);
      }
      if CheckBit(value, CTR_TI) {
        TickIn(id, mq);
      }
      if CheckBit(value, CTR_LS) {
        StartLink();
      }
      if CheckBit(value, CTR_LD) {
        DisableLink();
      }
    }

    method WriteStatus(value: word)
      modifies this
      ensures View() == old(View()).(str := WriteStr(old(str), value))
    {
      StrStores(str, value);
      hide ClearIf, WriteStr;
      str := ClearIf(str, value, STR_EE);
      str := ClearIf(str, value, STR_IA);
      str := ClearIf(str, value, STR_WE);
      str := ClearIf(str, value, STR_PE);
      str := ClearIf(str, value, STR_DE);
      str := ClearIf(str, value, STR_ER);
      str := ClearIf(str, value, STR_CE);
      str := ClearIf(str, value, STR_TO);
    }

    method WriteChannel(value: word)
      modifies this
      ensures View() == old(View()).(chn := WriteChn(old(chn), value))
    {
      ChnStores(chn, value);
      ghost var a := ChnAbort(ChnMerge(chn, value), value);
      hide CheckBit, ClearBit, SetBit, Deposit, ClearIf, WriteChn;
      var reg := chn;
      var clearset := Deposit(reg, CHN_CLEARSET | CHN_NOTRESET, value);
      var set_ := SetBit(clearset, value & CHN_SELFCLEAR);
      chn := set_;
      if CheckBit(value, CHN_AT) {
        chn := ClearBit(chn, CHN_TE);
        chn := ClearBit(chn, CHN_AT);
      }
      assert chn == a;
      chn := ClearIf(chn, value, CHN_RA);
      chn := ClearIf(chn, value, CHN_TA);
      chn := ClearIf(chn, value, CHN_PR);
      chn := ClearIf(chn, value, CHN_PS);
    }

    /** The registers that take the value in their fields. */
    method WriteNumber(id: nat, offset: nat, value: word)
      requires offset !in {0x00, 0x04, 0x20}
      modifies this
      ensures View() == WriteRegister(id, old(View()), offset, value)
    {
      hide WriteCtr, WriteStr, WriteChn, Low8, Low16, Low22, MaxLength, TxTable, RxTable, Masked;
      FieldsByMask(value);
      match offset
      case 0x08 => ndr := Masked(value, NDR);
      case 0x0C => clk := Masked(value, CLK_DIVISORS);
      case 0x10 => key := Masked(value, KEY);
      case 0x14 => tim := Masked(value, TIM);
      case 0x18 => tdr := Masked(value, TDR);
      case 0x24 => rxl := Masked(value, RXL);
      case 0x28 => txd := Masked(value, TXD);
      case 0x2C => rxd := Masked(value, RXD);
      case _ =>
    }

    method WriteRegisters(id: nat, offset: nat, value: word, mq: MessageQueues)
      requires mq.Valid() && id < CORES
      modifies this, mq`spwq, mq`sent, mq.txbuffer
      ensures mq.Valid()
      ensures View() == WriteRegister(id, old(View()), offset, value)
      ensures mq.sent == old(mq.sent) + Timecodes(id, SentTimecode(id, old(View()), offset, value))
    {
      hide WriteCtr, WriteStr, WriteChn, CtrTimecode, Low8, Low16, Low22, MaxLength, TxTable, RxTable;
      match offset
      case 0x00 => WriteControl(id, value, mq);
      case 0x04 => WriteStatus(value);
      case 0x20 => WriteChannel(value);
      case _ => WriteNumber(id, offset, value);
    }
  }

  /** The packets that carry time codes. */
  function Timecodes(id: nat, codes: seq<uint32>): seq<Packet> {
    seq(|codes|, i requires 0 <= i < |codes| => Packet(id, TIME, [], [(codes[i] % 0x100) as byte]))
  }

  /** deposit of the time counter steps its six bits modulo 64. */
  lemma InsertCounter(tim: uint32)
    ensures Insert(tim, TIM_COUNTER, Add(tim, 1)) == NextTime(tim)
  {
    var t := Add(tim, 1);
    MaskArithmetic(tim, TIM_COUNTER, t);
    assert Pow2(6) == 64;
    AndLow(tim, 6);
    AndLow(t, 6);
  }
}
