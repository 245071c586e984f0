/** The masks of grlib_comgrspw.h on descriptor words and table addresses, and the arithmetic they
    stand for. */
module Descriptors {
  import opened BitOps
  import opened Dma

  const TDW0_IE: uint32 := 0x4000
  const TDW0_WR: uint32 := 0x2000
  const TDW0_EN: uint32 := 0x1000
  const TDW0_HEADER_LENGTH: uint32 := 0xFF
  const TDW2_DATA_LENGTH: uint32 := 0xFF_FFFF

  const TRW0_TR: uint32 := 0x8000_0000
  const TRW0_DC: uint32 := 0x4000_0000
  const TRW0_HC: uint32 := 0x2000_0000
  const TRW0_EP: uint32 := 0x1000_0000
  const TRW0_IE: uint32 := 0x800_0000
  const TRW0_WR: uint32 := 0x400_0000
  const TRW0_EN: uint32 := 0x200_0000
  const TRW0_PACKET_LENGTH: uint32 := 0x1FF_FFFF

  const TXD_DESC_SELECT: uint32 := 0x3F0
  const RXD_DESC_SELECT: uint32 := 0x3F8
  const RXL_MAX_LENGTH: uint32 := 0x1FF_FFFC

  // ---- masks ----

  lemma Powers()
    ensures Pow2(2) == 4 && Pow2(3) == 8 && Pow2(4) == 0x10 && Pow2(6) == 0x40 && Pow2(7) == 0x80 && Pow2(8) == 0x100
    ensures Pow2(12) == 0x1000 && Pow2(13) == 0x2000 && Pow2(14) == 0x4000
    ensures Pow2(23) == 0x80_0000 && Pow2(24) == 0x100_0000 && Pow2(25) == 0x200_0000 && Pow2(26) == 0x400_0000
    ensures Pow2(27) == 0x800_0000 && Pow2(28) == 0x1000_0000 && Pow2(29) == 0x2000_0000
    ensures Pow2(30) == 0x4000_0000 && Pow2(31) == 0x8000_0000
  {
    assert Pow2(4) == 0x10 && Pow2(6) == 0x40 && Pow2(8) == 0x100;
    assert Pow2(12) == 0x1000 && Pow2(14) == 0x4000 by { assert Pow2(10) == 0x400; }
    assert Pow2(16) == 0x1_0000 && Pow2(18) == 0x4_0000 && Pow2(20) == 0x10_0000;
    assert Pow2(23) == 0x80_0000 by { assert Pow2(22) == 0x40_0000; }
    assert Pow2(25) == 0x200_0000 && Pow2(27) == 0x800_0000;
    assert Pow2(29) == 0x2000_0000 && Pow2(31) == 0x8000_0000;
  }

  lemma PowOne()
    ensures Pow2(1) == 2
  {
  }

  /** A mask of one bit. */
  lemma BitMask(w: nat, k: nat)
    ensures And(w, Pow2(k)) == w / Pow2(k) % 2 * Pow2(k)
  {
    hide And, Pow2;
    PowOne();
    AndField(w, k, 1);
    assert FieldMask(k, 1) == Pow2(k);
  }

  lemma BitAnd(w: nat, k: nat, mask: nat)
    requires mask == Pow2(k)
    ensures And(w, mask) == if w / mask % 2 == 1 then mask else 0
  {
    hide Pow2, And;
    BitMask(w, k);
  }

  /** The transmit control word. */
  lemma TxMasks(desc: TxDescr)
    ensures Check(desc.ctrl, TDW0_EN) == desc.Enabled()
    ensures Check(desc.ctrl, TDW0_WR) == desc.Wraps()
    ensures Check(desc.ctrl, TDW0_IE) == desc.Interrupts()
    ensures And(desc.ctrl, TDW0_HEADER_LENGTH) == desc.HeaderLength()
    ensures And(desc.len, TDW2_DATA_LENGTH) == desc.DataLength()
    ensures Clear(desc.ctrl, TDW0_EN) == desc.Released().ctrl
  {
    Powers();
    hide Pow2, And;
    BitAnd(desc.ctrl, 12, TDW0_EN);
    BitAnd(desc.ctrl, 13, TDW0_WR);
    BitAnd(desc.ctrl, 14, TDW0_IE);
    AndLow(desc.ctrl, 8);
    AndLow(desc.len, 24);
    MaskArithmetic(desc.ctrl, TDW0_EN, 0);
  }

  lemma RxMasks(desc: RxDescr)
    ensures Check(desc.ctrl, TRW0_EN) == desc.Enabled()
    ensures Check(desc.ctrl, TRW0_WR) == desc.Wraps()
    ensures Check(desc.ctrl, TRW0_IE) == desc.Interrupts()
  {
    Powers();
    hide Pow2, And;
    BitAnd(desc.ctrl, 25, TRW0_EN);
    BitAnd(desc.ctrl, 26, TRW0_WR);
    BitAnd(desc.ctrl, 27, TRW0_IE);
  }

  lemma TxSelectField(w: uint32)
    ensures And(w, TXD_DESC_SELECT) == w % 0x400 - w % 16
  {
    Powers();
    hide Pow2, And;
    AndField(w, 4, 6);
    assert FieldMask(4, 6) == TXD_DESC_SELECT;
    var q, f := w / 16 / 64, w / 16 % 64;
    Digit(w, 0x400, q, 16 * f + w % 16);
  }

  lemma RxSelectField(w: uint32)
    ensures And(w, RXD_DESC_SELECT) == w % 0x400 - w % 8
  {
    Powers();
    hide Pow2, And;
    AndField(w, 3, 7);
    assert FieldMask(3, 7) == RXD_DESC_SELECT;
    var q, f := w / 8 / 128, w / 8 % 128;
    Digit(w, 0x400, q, 8 * f + w % 8);
  }

  lemma InsertSelect(reg: uint32, mask: uint32, value: uint32, old_: nat, new_: nat)
    requires And(reg, mask) == old_ && And(value, mask) == new_
    ensures Insert(reg, mask, value) == reg - old_ + new_
  {
    MaskArithmetic(reg, mask, value);
  }

  lemma SmallSelect(unit: nat, cur: nat)
    requires (unit == 16 && cur < TX_SLOTS) || (unit == 8 && cur < RX_SLOTS)
    ensures unit * cur % 0x400 == unit * cur && unit * cur % unit == 0
  {
    Digit(unit * cur, unit, cur, 0);
  }

  /** Depositing a cursor in the select field. */
  lemma TxSelectMask(txd: uint32, cur: nat)
    requires cur < TX_SLOTS
    ensures Insert(txd, TXD_DESC_SELECT, 16 * cur) == TxSelect(txd, cur)
  {
    hide And, Insert;
    TxSelectField(txd);
    SmallSelect(16, cur);
    TxSelectField(16 * cur);
    InsertSelect(txd, TXD_DESC_SELECT, 16 * cur, txd % 0x400 - txd % 16, 16 * cur);
  }

  lemma RxSelectMask(rxd: uint32, cur: nat)
    requires cur < RX_SLOTS
    ensures Insert(rxd, RXD_DESC_SELECT, 8 * cur) == RxSelect(rxd, cur)
  {
    hide And, Insert;
    RxSelectField(rxd);
    SmallSelect(8, cur);
    RxSelectField(8 * cur);
    InsertSelect(rxd, RXD_DESC_SELECT, 8 * cur, rxd % 0x400 - rxd % 8, 8 * cur);
  }

  lemma RxLimitMask(rxl: uint32)
    ensures And(rxl, RXL_MAX_LENGTH) == RxLimit(rxl)
  {
    Powers();
    hide Pow2, And;
    AndField(rxl, 2, 23);
    assert FieldMask(2, 23) == RXL_MAX_LENGTH;
    var q, f := rxl / 4 / 0x80_0000, rxl / 4 % 0x80_0000;
    Digit(rxl, 0x200_0000, q, 4 * f + rxl % 4);
  }

  // ---- the receive control word, update by update ----

  /** A control word by its four top flags and the number below them. */
  predicate IsWord(c: nat, tr: bool, dc: bool, hc: bool, ep: bool, rest: nat) {
    && rest < 0x1000_0000
    && c == Flag(tr, 0x8000_0000) + Flag(dc, 0x4000_0000) + Flag(hc, 0x2000_0000) + Flag(ep, 0x1000_0000) + rest
  }

  lemma TopOf(desc: RxDescr)
    ensures IsWord(desc.ctrl, desc.Truncated(), desc.DataCrc(), desc.HeaderCrc(), desc.Eep(), desc.ctrl % 0x1000_0000)
  {
    var c := desc.ctrl;
    var q := c / 0x1000_0000;
    var q2 := q / 2;
    var q4 := q2 / 2;
    var low := c % 0x1000_0000;
    Digit(c, 0x2000_0000, q2, q % 2 * 0x1000_0000 + low);
    Digit(c, 0x4000_0000, q4, c - 0x4000_0000 * q4);
    Digit(c, 0x8000_0000, q4 / 2, c - 0x8000_0000 * (q4 / 2));
  }

  lemma TopBits(c: nat, tr: bool, dc: bool, hc: bool, ep: bool, rest: nat)
    requires IsWord(c, tr, dc, hc, ep, rest)
    ensures (c / 0x8000_0000 % 2 == 1) == tr && (c / 0x4000_0000 % 2 == 1) == dc
    ensures (c / 0x2000_0000 % 2 == 1) == hc && (c / 0x1000_0000 % 2 == 1) == ep
  {
    RxHighDigits(Flag(tr, 1), Flag(dc, 1), Flag(hc, 1), Flag(ep, 1), rest, c);
  }

  lemma SetFlag(c: uint32, k: nat, mask: uint32, b: bool)
    requires mask == Pow2(k)
    ensures Set(c, Flag(b, mask)) == c + Flag(b && c / mask % 2 != 1, mask)
  {
    if b {
      BitAnd(c, k, mask);
      MaskArithmetic(c, mask, 0);
    } else {
      MaskArithmetic(c, 0, 0);
    }
  }

  // Each of the four flags can be set without disturbing the rest.

  lemma SetTr(c: uint32, tr: bool, dc: bool, hc: bool, ep: bool, rest: nat, b: bool)
    requires IsWord(c, tr, dc, hc, ep, rest)
    ensures var r := Set(c, Flag(b, TRW0_TR)); IsWord(r, tr || b, dc, hc, ep, rest) && r < 0x1_0000_0000
  {
    hide Set;
    TopBits(c, tr, dc, hc, ep, rest);
    Powers();
    hide Pow2;
    SetFlag(c, 31, TRW0_TR, b);
  }

  lemma SetDc(c: uint32, tr: bool, dc: bool, hc: bool, ep: bool, rest: nat, b: bool)
    requires IsWord(c, tr, dc, hc, ep, rest)
    ensures var r := Set(c, Flag(b, TRW0_DC)); IsWord(r, tr, dc || b, hc, ep, rest) && r < 0x1_0000_0000
  {
    hide Set;
    TopBits(c, tr, dc, hc, ep, rest);
    Powers();
    hide Pow2;
    SetFlag(c, 30, TRW0_DC, b);
  }

  lemma SetHc(c: uint32, tr: bool, dc: bool, hc: bool, ep: bool, rest: nat, b: bool)
    requires IsWord(c, tr, dc, hc, ep, rest)
    ensures var r := Set(c, Flag(b, TRW0_HC)); IsWord(r, tr, dc, hc || b, ep, rest) && r < 0x1_0000_0000
  {
    hide Set;
    TopBits(c, tr, dc, hc, ep, rest);
    Powers();
    hide Pow2;
    SetFlag(c, 29, TRW0_HC, b);
  }

  lemma SetEp(c: uint32, tr: bool, dc: bool, hc: bool, ep: bool, rest: nat, b: bool)
    requires IsWord(c, tr, dc, hc, ep, rest)
    ensures var r := Set(c, Flag(b, TRW0_EP)); IsWord(r, tr, dc, hc, ep || b, rest) && r < 0x1_0000_0000
  {
    hide Set;
    TopBits(c, tr, dc, hc, ep, rest);
    Powers();
    hide Pow2;
    SetFlag(c, 28, TRW0_EP, b);
  }

  lemma RestDigits(c: nat, u: nat, ie: nat, wr: nat, en: nat, low: nat)
    requires ie <= 1 && wr <= 1 && en <= 1 && low < 0x200_0000
    requires c == 0x1000_0000 * u + 0x800_0000 * ie + 0x400_0000 * wr + 0x200_0000 * en + low
    ensures c / 0x200_0000 % 2 == en && c / 0x400_0000 % 2 == wr && c / 0x800_0000 % 2 == ie
  {
    DigitAt(c, 0x200_0000, 4 * u + 2 * ie + wr, en, low);
    DigitAt(c, 0x400_0000, 2 * u + ie, wr, 0x200_0000 * en + low);
    DigitAt(c, 0x800_0000, u, ie, 0x400_0000 * wr + 0x200_0000 * en + low);
  }

  lemma RestOf(desc: RxDescr)
    ensures var rest := desc.ctrl % 0x1000_0000;
            rest == Flag(desc.Interrupts(), 0x800_0000) + Flag(desc.Wraps(), 0x400_0000)
                + Flag(desc.Enabled(), 0x200_0000) + rest % 0x200_0000
  {
    var rest, u := desc.ctrl % 0x1000_0000, desc.ctrl / 0x1000_0000;
    var q := rest / 0x200_0000;
    assert q < 8;
    RestDigits(desc.ctrl, u, q / 4, q / 2 % 2, q % 2, rest % 0x200_0000);
  }

  lemma InsertLength(c: uint32, top: nat, rest: nat, length: nat)
    requires c == 0x1000_0000 * top + rest && rest < 0x1000_0000 && length < 0x200_0000
    ensures Insert(c, TRW0_PACKET_LENGTH, length) == c - rest % 0x200_0000 + length
  {
    Powers();
    hide Pow2, And;
    AndLow(c, 25);
    AndLow(length, 25);
    Digit(c, 0x200_0000, 8 * top + rest / 0x200_0000, rest % 0x200_0000);
    InsertSelect(c, TRW0_PACKET_LENGTH, length, rest % 0x200_0000, length);
  }

  lemma ClearEnable(c: uint32, top: nat, en: bool, length: nat)
    requires c == 0x400_0000 * top + Flag(en, 0x200_0000) + length && length < 0x200_0000
    ensures Clear(c, TRW0_EN) == c - Flag(en, 0x200_0000)
  {
    Powers();
    hide Pow2, And, Clear, Set, Insert;
    var bit := Flag(en, 1);
    assert (2 * top + bit) % 2 == bit;
    Digit(c, 0x200_0000, 2 * top + bit, length);
    BitAnd(c, 25, TRW0_EN);
    MaskArithmetic(c, TRW0_EN, 0);
  }

  lemma FinalWord(desc: RxDescr, c: uint32, length: nat, truncated: bool, p: RxPacket)
    requires length < 0x200_0000
    requires IsWord(c, desc.Truncated() || truncated, desc.DataCrc() || p.dc, desc.HeaderCrc() || p.hc,
        desc.Eep() || p.ep, desc.ctrl % 0x1000_0000)
    ensures var d := Insert(c, TRW0_PACKET_LENGTH, length);
            d < 0x1_0000_0000 && Clear(d, TRW0_EN) == RxControl(desc, length, truncated, p)
  {
    hide Insert, Clear;
    hide RxDescr.Truncated, RxDescr.DataCrc, RxDescr.HeaderCrc, RxDescr.Eep, RxDescr.Interrupts, RxDescr.Wraps;
    hide RxDescr.Enabled;
    var rest := desc.ctrl % 0x1000_0000;
    RestOf(desc);
    var low := rest % 0x200_0000;
    var top := Flag(desc.Truncated() || truncated, 8) + Flag(desc.DataCrc() || p.dc, 4)
        + Flag(desc.HeaderCrc() || p.hc, 2) + Flag(desc.Eep() || p.ep, 1);
    InsertLength(c, top, rest, length);
    var d := Insert(c, TRW0_PACKET_LENGTH, length);
    assert d == c - low + length;
    ClearEnable(d, 4 * top + Flag(desc.Interrupts(), 2) + Flag(desc.Wraps(), 1), desc.Enabled(), length);
  }

  /** The control word of a received packet as the code computes it. */
  method ReceiveControl(desc: RxDescr, length: nat, truncated: bool, p: RxPacket) returns (ctrl: uint32)
    requires length < 0x200_0000
    ensures ctrl == RxControl(desc, length, truncated, p)
  {
    hide IsWord, Set, Insert, Clear, RxControl;
    hide RxDescr.Truncated, RxDescr.DataCrc, RxDescr.HeaderCrc, RxDescr.Eep;
    ghost var tr, dc, hc, ep, rest := desc.Truncated(), desc.DataCrc(), desc.HeaderCrc(), desc.Eep(),
        desc.ctrl % 0x1000_0000;
    ctrl := desc.ctrl;
    TopOf(desc);
    SetTr(ctrl, tr, dc, hc, ep, rest, truncated);
    ctrl := Set(ctrl, Flag(truncated, TRW0_TR));
    SetDc(ctrl, tr || truncated, dc, hc, ep, rest, p.dc);
    ctrl := Set(ctrl, Flag(p.dc, TRW0_DC));
    SetHc(ctrl, tr || truncated, dc || p.dc, hc, ep, rest, p.hc);
    ctrl := Set(ctrl, Flag(p.hc, TRW0_HC));
    SetEp(ctrl, tr || truncated, dc || p.dc, hc || p.hc, ep, rest, p.ep);
    ctrl := Set(ctrl, Flag(p.ep, TRW0_EP));
    FinalWord(desc, ctrl, length, truncated, p);
    ctrl := Insert(ctrl, TRW0_PACKET_LENGTH, length);
    ctrl := Clear(ctrl, TRW0_EN);
  }
}
