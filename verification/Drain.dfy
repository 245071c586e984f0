/** The drain loop of the transmit thread (grlib_coregrspw.c): txenable is called until it stops. */
module Drain {
  import opened BitOps
  import opened Leon3Ram
  import opened Messages
  import opened Registers
  import opened Dma
  import opened Rings

  /** A device whose transmit address register holds no bits outside its fields. */
  predicate TxReady(d: Dev) {
    DevOk(d) && d.regs.txd % 16 == 0
  }

  function TxTableOf(d: Dev, m: Mem): seq<TxDescr> {
    TxTableAt(m, TableBase(d.regs.txd))
  }

  /** The slot the address register points at. */
  function TxSlot(d: Dev): (j: nat)
    requires d.regs.txd % 16 == 0
    ensures j < TX_SLOTS && d.regs.txd == TableBase(d.regs.txd) + TX_SLOT_SIZE * j
  {
    SlotExact(d.regs.txd);
    d.regs.txd % TABLE_SIZE / TX_SLOT_SIZE
  }

  lemma SlotExact(txd: nat)
    requires txd % 16 == 0
    ensures txd % TABLE_SIZE == 16 * (txd % TABLE_SIZE / 16)
  {
    var q, s := txd / TABLE_SIZE, txd % TABLE_SIZE;
    Digit(txd, 16, 64 * q + s / 16, s % 16);
  }

  lemma ChannelBits(chn: word)
    ensures CheckBit(SetBit(chn, CHN_PS), CHN_TI) == CheckBit(chn, CHN_TI)
    ensures CheckBit(SetBit(chn, CHN_PS), CHN_TE) == CheckBit(chn, CHN_TE)
    ensures SetBit(SetBit(chn, CHN_PS), CHN_PS) == SetBit(chn, CHN_PS)
    ensures !CheckBit(ClearBit(chn, CHN_TE), CHN_TE)
  {
    hide CheckBit, SetBit, ClearBit;
    CheckOtherSet(chn, CHN_PS, CHN_TI);
    CheckOtherSet(chn, CHN_PS, CHN_TE);
    SetTwice(chn, CHN_PS);
    CheckCleared(chn, CHN_TE);
  }

  /** What one call that sends does: the packet of the slot goes out, the slot is released, the
      cursor and the address register move on in the ring. */
  lemma SendStep(d: Dev, m: Mem)
    requires TxReady(d)
    ensures var r, base, j, t := TxEnable(d, m), TableBase(d.regs.txd), TxSlot(d), TxTableOf(d, m);
            var next := NextSlot(d.txdCur, t[j].Wraps(), TX_SLOTS);
            !r.stop ==>
              && CheckBit(d.regs.chn, CHN_TE) && t[j].Enabled() && r.sent == [PacketOf(d.id, t[j], m)]
              && r.dev == d.(txdMap := r.dev.txdMap, txdCur := next, irqs := d.irqs + Pulse(t[j].Interrupts(), d.regs),
                             regs := d.regs.(txd := TxSelect(d.regs.txd, next), chn := SetBit(d.regs.chn, CHN_PS)))
              && TableBase(r.dev.regs.txd) == base && TxReady(r.dev) && TxAligned(r.dev)
              && TxTableAt(r.mem, base) == t[j := t[j].Released()] && AgreeOutside(m, r.mem, base)
  {
    hide CheckBit, SetBit, ClearBit, WriteWord, ReadWord, AgreeOutside, TxDescr.Enabled, TxDescr.Wraps;
    hide TxDescr.Interrupts, TxDescr.Released, PacketOf, TxSelect, TableBase;
    var j := TxSlot(d);
    var desc := TxLoad(m, d.regs.txd);
    var next := NextSlot(d.txdCur, desc.Wraps(), TX_SLOTS);
    TxSelectExact(d.regs.txd, next);
    TxReleasedExact(desc);
    ChannelBits(d.regs.chn);
    TxControlWritten(m, TableBase(d.regs.txd), j, desc.Released().ctrl);
  }

  lemma StopStep(d: Dev, m: Mem)
    requires TxReady(d) && TxEnable(d, m).stop
    ensures var r := TxEnable(d, m);
            && r.sent == [] && r.mem == m && TxReady(r.dev) && !CheckBit(r.dev.regs.chn, CHN_TE)
            && (if CheckBit(d.regs.chn, CHN_TE)
                then !TxTableOf(d, m)[TxSlot(d)].Enabled()
                     && r.dev == d.(txdMap := r.dev.txdMap, regs := d.regs.(chn := ClearBit(d.regs.chn, CHN_TE)))
                else r.dev == d)
  {
    hide CheckBit, SetBit, ClearBit, WriteWord, ReadWord, TxDescr.Enabled, TableBase;
    ChannelBits(d.regs.chn);
  }

  /** Every call that sends uses up an enabled slot. */
  lemma SendConsumes(d: Dev, m: Mem)
    requires TxReady(d)
    ensures var r := TxEnable(d, m); !r.stop ==>
        TxReady(r.dev) && Count(TxRing(TxTableOf(r.dev, r.mem))) < Count(TxRing(TxTableOf(d, m)))
  {
    SendStep(d, m);
    hide TxEnable, TxDescr.Enabled, TxDescr.Wraps, TxDescr.Released, TableBase;
    var j, t := TxSlot(d), TxTableOf(d, m);
    var back := t[j].Released();
    TxReleasedExact(t[j]);
    if t[j].Enabled() {
      CountDisabled(TxRing(t), j, Slot(false, back.Wraps()));
      assert TxRing(t[j := back]) == TxRing(t)[j := Slot(false, back.Wraps())];
    }
  }

  /** A result with packets sent before it. */
  function JoinSent(done: seq<Packet>, r: TxResult): TxResult {
    r.(sent := done + r.sent)
  }

  /** The loop: it ends because the table has finitely many enabled slots. */
  function Drain(d: Dev, m: Mem): (r: TxResult)
    requires TxReady(d)
    ensures r.stop
    decreases Count(TxRing(TxTableOf(d, m)))
  {
    var r := TxEnable(d, m);
    if r.stop then r
    else
      SendConsumes(d, m);
      JoinSent(r.sent, Drain(r.dev, r.mem))
  }

  /** How many descriptors are left for the loop. */
  ghost function LeftToSend(d: Dev, m: Mem): nat {
    if TxReady(d) then Count(TxRing(TxTableOf(d, m))) else 0
  }

  lemma LoopUnfolds(d: Dev, m: Mem)
    requires TxReady(d)
    ensures var r := TxEnable(d, m);
            if r.stop then
              Drain(d, m) == r && r.sent == [] && TxReady(r.dev)
            else
              TxReady(r.dev) && Drain(d, m) == JoinSent(r.sent, Drain(r.dev, r.mem))
                && LeftToSend(r.dev, r.mem) < LeftToSend(d, m)
  {
    hide TxEnable, Count, TxRing, TxTableOf;
    var r := TxEnable(d, m);
    if r.stop {
      StopStep(d, m);
    } else {
      SendConsumes(d, m);
    }
  }

  lemma JoinTwice(done: seq<Packet>, r: TxResult)
    ensures JoinSent(done, r).sent == done + r.sent
    ensures forall rest: TxResult {:trigger JoinSent(r.sent, rest)} ::
        JoinSent(done, JoinSent(r.sent, rest)) == JoinSent(done + r.sent, rest)
  {
    forall rest: TxResult
      ensures JoinSent(done, JoinSent(r.sent, rest)) == JoinSent(done + r.sent, rest)
    {
      assert done + (r.sent + rest.sent) == done + r.sent + rest.sent;
    }
  }

  // ---- what the loop does, told from the table it starts with ----

  /** The run of enabled slots from the cursor on, and the slot that stops it. */
  function TxRun(t: seq<TxDescr>, k: nat, seen: set<nat>): (s: seq<nat>)
    requires k < |t|
    ensures forall i :: 0 <= i < |s| ==> s[i] < |t|
  {
    Run(TxRing(t), k, seen)
  }

  /** The packets of a run, with the payloads the RAM holds. */
  function Packets(id: nat, t: seq<TxDescr>, run: seq<nat>, m: Mem): seq<Packet>
    requires forall i :: 0 <= i < |run| ==> run[i] < |t|
  {
    seq(|run|, i requires 0 <= i < |run| => PacketOf(id, t[run[i]], m))
  }

  /** The table once the slots of a set have been released. */
  function ReleaseAll(t: seq<TxDescr>, slots: set<nat>): (r: seq<TxDescr>)
    ensures |r| == |t|
  {
    seq(|t|, k requires 0 <= k < |t| => if k in slots then t[k].Released() else t[k])
  }

  /** How many descriptors of a run ask for an interrupt that is enabled. */
  function RunPulses(t: seq<TxDescr>, run: seq<nat>, regs: Regs): nat
    requires forall i :: 0 <= i < |run| ==> run[i] < |t|
  {
    if run == [] then 0 else Pulse(t[run[0]].Interrupts(), regs) + RunPulses(t, run[1..], regs)
  }

  /** SPWCHN after the loop: a packet was sent or not, and the transmitter is off. */
  function DrainedChn(chn: word, sent: bool): word {
    ClearBit(if sent then SetBit(chn, CHN_PS) else chn, CHN_TE)
  }

  /** No enabled descriptor has its header or its data in the descriptor table. */
  predicate BuffersApart(t: seq<TxDescr>, base: nat) {
    forall k :: 0 <= k < |t| && t[k].Enabled() ==>
      Disjoint(t[k].headerAddr, t[k].HeaderLength(), base, TABLE_SIZE)
          && Disjoint(t[k].dataAddr, t[k].DataLength(), base, TABLE_SIZE)
  }

  lemma SamePacket(id: nat, desc: TxDescr, m: Mem, m': Mem, base: nat)
    requires AgreeOutside(m, m', base)
    requires Disjoint(desc.headerAddr, desc.HeaderLength(), base, TABLE_SIZE)
        && Disjoint(desc.dataAddr, desc.DataLength(), base, TABLE_SIZE)
    ensures PacketOf(id, desc, m) == PacketOf(id, desc, m')
  {
    hide TxDescr.HeaderLength, TxDescr.DataLength;
    assert Read(m, desc.headerAddr, desc.HeaderLength()) == Read(m', desc.headerAddr, desc.HeaderLength());
    assert Read(m, desc.dataAddr, desc.DataLength()) == Read(m', desc.dataAddr, desc.DataLength());
  }

  // The outcome of the loop when the slots in seen are already released: t is the table as it was
  // before that, m0 a RAM that agrees with the present one outside the table.

  predicate DrainedSent(d: Dev, t: seq<TxDescr>, m0: Mem, seen: set<nat>, r: TxResult)
    requires d.txdCur < |t|
  {
    r.sent == Packets(d.id, t, TxRun(t, d.txdCur, seen), m0)
  }

  ghost predicate DrainedMem(d: Dev, m: Mem, t: seq<TxDescr>, seen: set<nat>, r: TxResult)
    requires d.txdCur < |t|
  {
    && TxTableAt(r.mem, TableBase(d.regs.txd)) == ReleaseAll(t, seen + Members(TxRun(t, d.txdCur, seen)))
    && AgreeOutside(m, r.mem, TableBase(d.regs.txd))
  }

  predicate DrainedDev(d: Dev, t: seq<TxDescr>, seen: set<nat>, r: TxResult)
    requires d.txdCur < |t| == TX_SLOTS
  {
    var run, end := TxRun(t, d.txdCur, seen), RunEnd(TxRing(t), d.txdCur, seen);
    r.dev == d.(txdMap := r.dev.txdMap, txdCur := end, irqs := d.irqs + RunPulses(t, run, d.regs),
                regs := d.regs.(txd := TxSelect(d.regs.txd, end), chn := DrainedChn(d.regs.chn, run != [])))
  }

  ghost predicate Drained(d: Dev, m: Mem, t: seq<TxDescr>, m0: Mem, seen: set<nat>, r: TxResult)
    requires d.txdCur < |t| == TX_SLOTS
  {
    DrainedSent(d, t, m0, seen, r) && DrainedMem(d, m, t, seen, r) && DrainedDev(d, t, seen, r)
  }

  // Each part of the outcome, for a run that starts with one more slot.

  lemma PacketsCons(id: nat, t: seq<TxDescr>, k: nat, run: seq<nat>, m: Mem)
    requires k < |t| && forall i :: 0 <= i < |run| ==> run[i] < |t|
    ensures Packets(id, t, [k] + run, m) == [PacketOf(id, t[k], m)] + Packets(id, t, run, m)
  {
    hide PacketOf;
  }

  lemma MembersCons(k: nat, run: seq<nat>)
    ensures Members([k] + run) == {k} + Members(run)
  {
    forall x | x in {k} + Members(run)
      ensures x in Members([k] + run)
    {
      if x == k {
        assert ([k] + run)[0] == x;
      } else {
        var i :| 0 <= i < |run| && run[i] == x;
        assert ([k] + run)[i + 1] == x;
      }
    }
  }

  lemma ReleaseOne(t: seq<TxDescr>, slots: set<nat>, k: nat)
    requires k < |t| && k !in slots
    ensures ReleaseAll(t, slots)[k] == t[k]
    ensures ReleaseAll(t, slots)[k := t[k].Released()] == ReleaseAll(t, slots + {k})
  {
    hide TxDescr.Released;
  }

  lemma {:induction false} PulsesDependOnTi(t: seq<TxDescr>, run: seq<nat>, r: Regs, r': Regs)
    requires forall i :: 0 <= i < |run| ==> run[i] < |t|
    requires CheckBit(r.chn, CHN_TI) == CheckBit(r'.chn, CHN_TI)
    ensures RunPulses(t, run, r) == RunPulses(t, run, r')
  {
    hide CheckBit;
    if run != [] {
      PulsesDependOnTi(t, run[1..], r, r');
    }
  }

  lemma PulsesCons(t: seq<TxDescr>, k: nat, run: seq<nat>, regs: Regs)
    requires k < |t| && forall i :: 0 <= i < |run| ==> run[i] < |t|
    ensures RunPulses(t, [k] + run, regs) == Pulse(t[k].Interrupts(), regs) + RunPulses(t, run, regs)
  {
    assert ([k] + run)[1..] == run;
  }

  lemma SelectTwice(txd: uint32, a: nat, b: nat)
    requires txd % 16 == 0 && a < TX_SLOTS && b < TX_SLOTS
    ensures TxSelect(TxSelect(txd, a), b) == TxSelect(txd, b)
  {
    TxSelectExact(txd, a);
    TxSelectExact(txd, b);
    TxSelectExact(TxSelect(txd, a), b);
  }

  /** The first slot of a run that is not empty. */
  lemma RunFirst(t: seq<TxDescr>, k: nat, seen: set<nat>)
    requires k < |t|
    ensures var n := NextSlot(k, t[k].Wraps(), |t|);
            if t[k].Enabled() && k !in seen
            then TxRun(t, k, seen) == [k] + TxRun(t, n, seen + {k})
                && RunEnd(TxRing(t), k, seen) == RunEnd(TxRing(t), n, seen + {k})
            else TxRun(t, k, seen) == [] && RunEnd(TxRing(t), k, seen) == k
  {
    hide TxDescr.Enabled, TxDescr.Wraps;
  }

  /** The state in which the loop is entered or goes on. */
  ghost predicate Draining(d: Dev, m: Mem, t: seq<TxDescr>, m0: Mem, seen: set<nat>) {
    && TxReady(d) && CheckBit(d.regs.chn, CHN_TE) && TxAligned(d) && |t| == TX_SLOTS
    && TxTableOf(d, m) == ReleaseAll(t, seen) && AgreeOutside(m0, m, TableBase(d.regs.txd))
    && BuffersApart(t, TableBase(d.regs.txd))
  }

  lemma AlignedSlot(d: Dev)
    requires TxReady(d) && TxAligned(d)
    ensures TxSlot(d) == d.txdCur && TxSelect(d.regs.txd, d.txdCur) == d.regs.txd
  {
    TxSelectExact(d.regs.txd, d.txdCur);
  }

  /** The loop stops exactly when the run is empty. */
  lemma StopsWhenRunEmpty(d: Dev, m: Mem, t: seq<TxDescr>, m0: Mem, seen: set<nat>)
    requires Draining(d, m, t, m0, seen)
    ensures TxEnable(d, m).stop <==> d.txdCur in seen || !t[d.txdCur].Enabled()
  {
    AlignedSlot(d);
    TxReleasedExact(t[d.txdCur]);
    assert TxTableOf(d, m)[d.txdCur] == ReleaseAll(t, seen)[d.txdCur];
    if TxEnable(d, m).stop { StopStep(d, m); } else { SendStep(d, m); }
    hide TxEnable, TxDescr.Enabled, TxDescr.Released, TxSelect;
  }

  lemma DrainStops(d: Dev, m: Mem, t: seq<TxDescr>, m0: Mem, seen: set<nat>)
    requires Draining(d, m, t, m0, seen) && TxEnable(d, m).stop
    ensures Drained(d, m, t, m0, seen, Drain(d, m))
  {
    hide TxEnable, CheckBit, ClearBit, SetBit, TxDescr.Enabled, TxSelect, TxRun, RunEnd, PacketOf, TableBase;
    hide ReleaseAll, AgreeOutside, BuffersApart;
    var r, k := TxEnable(d, m), d.txdCur;
    StopStep(d, m);
    AlignedSlot(d);
    StopsWhenRunEmpty(d, m, t, m0, seen);
    RunFirst(t, k, seen);
    AgreeSelf(m, TableBase(d.regs.txd));
    assert seen + Members([]) == seen;
  }

  lemma AgreeSelf(m: Mem, base: nat)
    ensures AgreeOutside(m, m, base)
  {
  }

  lemma AgreeChain(m: Mem, m': Mem, m'': Mem, base: nat)
    requires AgreeOutside(m, m', base) && AgreeOutside(m', m'', base)
    ensures AgreeOutside(m, m'', base)
  {
  }

  lemma {:induction false} DrainFrom(d: Dev, m: Mem, t: seq<TxDescr>, m0: Mem, seen: set<nat>)
    requires Draining(d, m, t, m0, seen)
    ensures Drained(d, m, t, m0, seen, Drain(d, m))
    decreases Count(TxRing(TxTableOf(d, m)))
  {
    if TxEnable(d, m).stop {
      DrainStops(d, m, t, m0, seen);
    } else {
      SendConsumes(d, m);
      DrainSends(d, m, t, m0, seen);
      var r := TxEnable(d, m);
      DrainFrom(r.dev, r.mem, t, m0, seen + {d.txdCur});
      DrainJoins(d, m, t, m0, seen);
    }
  }

  /** A call that sends leaves the loop in its state, with one more slot seen. */
  lemma DrainSends(d: Dev, m: Mem, t: seq<TxDescr>, m0: Mem, seen: set<nat>)
    requires Draining(d, m, t, m0, seen) && !TxEnable(d, m).stop
    ensures var r, k := TxEnable(d, m), d.txdCur;
            && k !in seen && t[k].Enabled() && r.sent == [PacketOf(d.id, t[k], m0)]
            && Draining(r.dev, r.mem, t, m0, seen + {k}) && TableBase(r.dev.regs.txd) == TableBase(d.regs.txd)
            && AgreeOutside(m, r.mem, TableBase(d.regs.txd))
            && r.dev == d.(txdMap := r.dev.txdMap, txdCur := NextSlot(k, t[k].Wraps(), TX_SLOTS),
                           irqs := d.irqs + Pulse(t[k].Interrupts(), d.regs),
                           regs := d.regs.(txd := TxSelect(d.regs.txd, NextSlot(k, t[k].Wraps(), TX_SLOTS)),
                                           chn := SetBit(d.regs.chn, CHN_PS)))
  {
    hide TxEnable, CheckBit, SetBit, TxDescr.Enabled, TxDescr.Wraps, TxDescr.Interrupts, TxDescr.Released;
    hide TxSelect, PacketOf, TableBase, AgreeOutside;
    var r, k := TxEnable(d, m), d.txdCur;
    StopsWhenRunEmpty(d, m, t, m0, seen);
    SendStep(d, m);
    AlignedSlot(d);
    ReleaseOne(t, seen, k);
    assert TxTableOf(d, m)[k] == t[k];
    ChannelBits(d.regs.chn);
    SamePacket(d.id, t[k], m0, m, TableBase(d.regs.txd));
    AgreeChain(m0, m, r.mem, TableBase(d.regs.txd));
  }

  /** One sending call followed by a drained rest is a drained whole. */
  lemma DrainJoins(d: Dev, m: Mem, t: seq<TxDescr>, m0: Mem, seen: set<nat>)
    requires Draining(d, m, t, m0, seen) && !TxEnable(d, m).stop && TxReady(TxEnable(d, m).dev)
    requires var r := TxEnable(d, m); Drained(r.dev, r.mem, t, m0, seen + {d.txdCur}, Drain(r.dev, r.mem))
    ensures Drained(d, m, t, m0, seen, Drain(d, m))
  {
    hide TxEnable, CheckBit, SetBit, ClearBit, TxSelect, PacketOf, Packets, Members, TableBase, ReleaseAll;
    hide AgreeOutside, BuffersApart;
    hide TxRun, RunEnd, RunPulses, TxDescr.Enabled, TxDescr.Wraps, TxDescr.Interrupts;
    var r, k := TxEnable(d, m), d.txdCur;
    DrainSends(d, m, t, m0, seen);
    RunFirst(t, k, seen);
    var rest := Drain(r.dev, r.mem);
    assert Drain(d, m) == rest.(sent := r.sent + rest.sent);
    hide Drain;
    var run := TxRun(t, r.dev.txdCur, seen + {k});
    PacketsCons(d.id, t, k, run, m0);
    MembersCons(k, run);
    PulsesCons(t, k, run, d.regs);
    ChannelBits(d.regs.chn);
    PulsesDependOnTi(t, run, d.regs, r.dev.regs);
    SelectTwice(d.regs.txd, r.dev.txdCur, RunEnd(TxRing(t), k, seen));
    AgreeChain(m, r.mem, rest.mem, TableBase(d.regs.txd));
    assert seen + Members([k] + run) == seen + {k} + Members(run);
  }

  lemma ReleaseNone(t: seq<TxDescr>)
    ensures ReleaseAll(t, {}) == t
  {
    hide TxDescr.Released;
  }

  /** The drain loop, entered with the transmitter on, the select field equal to the cursor, and no
      enabled buffer in the table. It sends exactly the packets of the maximal run of enabled slots,
      in ring order, with the payloads the RAM held at the start; it releases exactly those slots
      and changes nothing outside the table; it stops at the end of the run with the transmitter
      off and one interrupt per released descriptor that asked for one. */
  lemma DrainExact(d: Dev, m: Mem)
    requires TxReady(d) && CheckBit(d.regs.chn, CHN_TE) && TxAligned(d)
    requires BuffersApart(TxTableOf(d, m), TableBase(d.regs.txd))
    ensures var t, r, base := TxTableOf(d, m), Drain(d, m), TableBase(d.regs.txd);
            var run, end := TxRun(t, d.txdCur, {}), RunEnd(TxRing(t), d.txdCur, {});
            && r.sent == Packets(d.id, t, run, m)
            && TxTableAt(r.mem, base) == ReleaseAll(t, Members(run)) && AgreeOutside(m, r.mem, base)
            && r.dev == d.(txdMap := r.dev.txdMap, txdCur := end, irqs := d.irqs + RunPulses(t, run, d.regs),
                           regs := d.regs.(txd := TxSelect(d.regs.txd, end), chn := DrainedChn(d.regs.chn, run != [])))
            && TxAligned(r.dev) && !CheckBit(r.dev.regs.chn, CHN_TE)
  {
    hide Drain, CheckBit, SetBit, ClearBit, TxSelect, PacketOf, Packets, Members, TxTableAt, TxDescr.Released;
    hide TxRun, RunEnd, RunPulses, TableBase, BuffersApart;
    hide ReleaseAll, AgreeOutside;
    var t := TxTableOf(d, m);
    ReleaseNone(t);
    AgreeSelf(m, TableBase(d.regs.txd));
    DrainFrom(d, m, t, m, {});
    TxSelectExact(d.regs.txd, RunEnd(TxRing(t), d.txdCur, {}));
    ChannelBits(if TxRun(t, d.txdCur, {}) != [] then SetBit(d.regs.chn, CHN_PS) else d.regs.chn);
    assert {} + Members(TxRun(t, d.txdCur, {})) == Members(TxRun(t, d.txdCur, {}));
  }

  /** Without the transmitter on, the loop does nothing; in every case it leaves it off, so that the
      thread's extra call after the loop changes nothing. */
  lemma {:induction false} DrainLeavesTeClear(d: Dev, m: Mem)
    requires TxReady(d)
    ensures var r := Drain(d, m);
            && TxReady(r.dev) && !CheckBit(r.dev.regs.chn, CHN_TE)
            && TxEnable(r.dev, r.mem) == TxResult(r.dev, r.mem, [], true)
            && (!CheckBit(d.regs.chn, CHN_TE) ==> r.dev == d && r.mem == m && r.sent == [])
    decreases Count(TxRing(TxTableOf(d, m)))
  {
    hide CheckBit, TxTableAt, TxRing, Count;
    var r := TxEnable(d, m);
    if r.stop {
      StopStep(d, m);
    } else {
      SendConsumes(d, m);
      DrainLeavesTeClear(r.dev, r.mem);
      SendStep(d, m);
    }
  }
}
