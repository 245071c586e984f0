/** What a whole sequence of received packets does (grlib_comgrspw.c), with no guest access between
    them. */
module Reception {
  import opened BitOps
  import opened Leon3Ram
  import opened Registers
  import opened Dma
  import opened Rings

  datatype DevMem = DevMem(dev: Dev, mem: Mem)

  function RxOne(d: Dev, m: Mem, p: RxPacket): (r: DevMem)
    requires DevOk(d)
    ensures DevOk(r.dev)
  {
    DevMem(RxDev(d, m, p), RxMem(d, m, p))
  }

  function RxAll(d: Dev, m: Mem, ps: seq<RxPacket>): (r: DevMem)
    requires DevOk(d)
    ensures DevOk(r.dev)
    decreases |ps|
  {
    if ps == [] then DevMem(d, m)
    else
      var r := RxOne(d, m, ps[0]);
      RxAll(r.dev, r.mem, ps[1..])
  }

  /** The packets that pass the receiver enable and the node address filter. */
  function Accepted(r: Regs, ps: seq<RxPacket>): (qs: seq<RxPacket>)
    ensures |qs| <= |ps|
  {
    if ps == [] then []
    else (if RxAccepts(r, ps[0]) then [ps[0]] else []) + Accepted(r, ps[1..])
  }

  // ---- what is stored, planned from the table as it is at the start ----

  /** One delivery: the slot, the descriptor written back to it, and the bytes of its buffer. */
  datatype Store = Store(slot: nat, back: RxDescr, bytes: seq<byte>)

  function StoreFor(r: Regs, desc: RxDescr, slot: nat, p: RxPacket): Store {
    Store(slot, desc.(ctrl := RxControl(desc, |Delivered(r, p)|, |p.data| > RxLimit(r.rxl), p)), Delivered(r, p))
  }

  /** The k-th accepted packet goes to the k-th slot of the run, as long as there are both. */
  function Plan(r: Regs, t: seq<RxDescr>, run: seq<nat>, qs: seq<RxPacket>): (plan: seq<Store>)
    requires forall i :: 0 <= i < |run| ==> run[i] < |t|
    ensures |plan| == if |run| <= |qs| then |run| else |qs|
    ensures forall i :: 0 <= i < |plan| ==> plan[i] == StoreFor(r, t[run[i]], run[i], qs[i])
  {
    seq(if |run| <= |qs| then |run| else |qs|,
        i requires 0 <= i < |run| && i < |qs| => StoreFor(r, t[run[i]], run[i], qs[i]))
  }

  function Apply(m: Mem, base: nat, plan: seq<Store>): Mem
    decreases |plan|
  {
    if plan == [] then m else Apply(ApplyOne(m, base, plan[0]), base, plan[1..])
  }

  function ApplyOne(m: Mem, base: nat, s: Store): Mem {
    WriteWord(Write(m, s.back.addr, s.bytes), base + RX_SLOT_SIZE * s.slot, s.back.ctrl)
  }

  /** Distinct slots, buffers apart from one another and from the table. */
  predicate PlanApart(base: nat, plan: seq<Store>) {
    && (forall i :: 0 <= i < |plan| ==>
         plan[i].slot < RX_SLOTS && Disjoint(plan[i].back.addr, |plan[i].bytes|, base, TABLE_SIZE))
    && (forall i, j :: 0 <= i < j < |plan| ==>
          plan[i].slot != plan[j].slot
              && Disjoint(plan[i].back.addr, |plan[i].bytes|, plan[j].back.addr, |plan[j].bytes|))
  }

  /** The control word of the slot, or the buffer of the delivery. */
  predicate Touches(base: nat, s: Store, x: nat) {
    || base + RX_SLOT_SIZE * s.slot <= x < base + RX_SLOT_SIZE * s.slot + 4
    || s.back.addr <= x < s.back.addr + |s.bytes|
  }

  /** Every planned delivery is found in the RAM, and no other byte has changed. */
  ghost predicate Stored(m: Mem, m': Mem, base: nat, plan: seq<Store>) {
    && (forall i :: 0 <= i < |plan| ==>
          && ReadWord(m', base + RX_SLOT_SIZE * plan[i].slot) == plan[i].back.ctrl
          && Read(m', plan[i].back.addr, |plan[i].bytes|) == plan[i].bytes)
    && (forall x: nat {:trigger At(m', x)} ::
          (forall i :: 0 <= i < |plan| ==> !Touches(base, plan[i], x)) ==> At(m', x) == At(m, x))
  }

  lemma {:induction false} ApplyStores(m: Mem, base: nat, plan: seq<Store>)
    requires PlanApart(base, plan)
    ensures Stored(m, Apply(m, base, plan), base, plan)
    decreases |plan|
  {
    if plan != [] {
      var m1, rest := ApplyOne(m, base, plan[0]), plan[1..];
      PlanTail(base, plan);
      ApplyStores(m1, base, rest);
      StoredOne(m, base, plan[0]);
      StoredCons(m, m1, Apply(m1, base, rest), base, plan);
    }
  }

  lemma PlanTail(base: nat, plan: seq<Store>)
    requires PlanApart(base, plan) && plan != []
    ensures PlanApart(base, plan[1..])
  {
  }

  lemma StoredOne(m: Mem, base: nat, s: Store)
    requires s.slot < RX_SLOTS && Disjoint(s.back.addr, |s.bytes|, base, TABLE_SIZE)
    ensures var m1 := ApplyOne(m, base, s);
            && ReadWord(m1, base + RX_SLOT_SIZE * s.slot) == s.back.ctrl
            && Read(m1, s.back.addr, |s.bytes|) == s.bytes
    ensures forall x: nat {:trigger At(ApplyOne(m, base, s), x)} :: !Touches(base, s, x) ==>
        At(ApplyOne(m, base, s), x) == At(m, x)
  {
    hide WriteWord, ReadWord;
    var m0, a := Write(m, s.back.addr, s.bytes), base + RX_SLOT_SIZE * s.slot;
    WriteFrame(m, s.back.addr, s.bytes);
    hide Write;
    ReadWritten(m0, a, s.back.ctrl);
    WordWriteFrame(m0, a, s.back.ctrl);
    ReadAgrees(m0, WriteWord(m0, a, s.back.ctrl), s.back.addr, |s.bytes|);
  }

  /** Later deliveries leave the first one in place. */
  lemma StoredCons(m: Mem, m1: Mem, m': Mem, base: nat, plan: seq<Store>)
    requires PlanApart(base, plan) && plan != [] && m1 == ApplyOne(m, base, plan[0]) && Stored(m1, m', base, plan[1..])
    ensures Stored(m, m', base, plan)
  {
    hide ApplyOne, ReadWord, At;
    var s, rest := plan[0], plan[1..];
    StoredOne(m, base, s);
    assert forall i :: 0 <= i < |rest| ==> rest[i] == plan[i + 1];
    forall x: nat | Touches(base, s, x)
      ensures At(m', x) == At(m1, x)
    {
      FirstUntouched(base, plan, x);
    }
    FirstKept(m1, m', base, s);
    hide Touches, PlanApart;
    forall x: nat | forall i :: 0 <= i < |plan| ==> !Touches(base, plan[i], x)
      ensures At(m', x) == At(m, x)
    {
      assert !Touches(base, plan[0], x);
      assert forall i :: 0 <= i < |rest| ==> !Touches(base, rest[i], x);
    }
    assert forall i :: 0 < i < |plan| ==> plan[i] == rest[i - 1];
  }

  lemma FirstUntouched(base: nat, plan: seq<Store>, x: nat)
    requires PlanApart(base, plan) && plan != [] && Touches(base, plan[0], x)
    ensures forall i :: 0 <= i < |plan[1..]| ==> !Touches(base, plan[1..][i], x)
  {
    forall i | 0 <= i < |plan[1..]|
      ensures !Touches(base, plan[1..][i], x)
    {
      assert plan[1..][i] == plan[i + 1];
    }
  }

  lemma FirstKept(m1: Mem, m': Mem, base: nat, s: Store)
    requires forall x: nat {:trigger At(m', x)} | Touches(base, s, x) :: At(m', x) == At(m1, x)
    ensures ReadWord(m', base + RX_SLOT_SIZE * s.slot) == ReadWord(m1, base + RX_SLOT_SIZE * s.slot)
    ensures Read(m', s.back.addr, |s.bytes|) == Read(m1, s.back.addr, |s.bytes|)
  {
    hide ReadWord;
    ReadWordAgrees(m', m1, base + RX_SLOT_SIZE * s.slot);
  }

  // ---- reception follows the plan ----

  predicate RxReady(d: Dev) {
    DevOk(d) && d.regs.rxd % 8 == 0
  }

  function RxTableOf(d: Dev, m: Mem): seq<RxDescr> {
    RxTableAt(m, TableBase(d.regs.rxd))
  }

  function RxRun(t: seq<RxDescr>, k: nat, seen: set<nat>): (s: seq<nat>)
    requires k < |t|
    ensures forall i :: 0 <= i < |s| ==> s[i] < |t|
  {
    Run(RxRing(t), k, seen)
  }

  /** No enabled buffer, up to the receive limit, lies in the descriptor table. */
  predicate RxBuffersApart(t: seq<RxDescr>, limit: nat, base: nat) {
    forall k :: 0 <= k < |t| && t[k].Enabled() ==> Disjoint(t[k].addr, limit, base, TABLE_SIZE)
  }

  /** The state in which packets keep arriving: t is the table at the start, the slots in seen have
      been used up since. */
  predicate Receiving(d: Dev, m: Mem, t: seq<RxDescr>, seen: set<nat>) {
    && RxReady(d) && CheckBit(d.regs.chn, CHN_RD) && RxAligned(d) && |t| == RX_SLOTS
    && (forall k :: 0 <= k < RX_SLOTS ==>
          if k in seen then !RxTableOf(d, m)[k].Enabled() else RxTableOf(d, m)[k] == t[k])
    && RxBuffersApart(t, RxLimit(d.regs.rxl), TableBase(d.regs.rxd))
  }

  lemma RxChannelBits(chn: word)
    ensures CheckBit(SetBit(chn, CHN_PR), CHN_RE) == CheckBit(chn, CHN_RE)
    ensures CheckBit(SetBit(chn, CHN_PR), CHN_RD) == CheckBit(chn, CHN_RD)
    ensures CheckBit(SetBit(chn, CHN_PR), CHN_TI) == CheckBit(chn, CHN_TI)
    ensures SetBit(SetBit(chn, CHN_PR), CHN_PR) == SetBit(chn, CHN_PR)
    ensures !CheckBit(ClearBit(chn, CHN_RD), CHN_RD)
  {
    hide CheckBit, SetBit, ClearBit;
    CheckOtherSet(chn, CHN_PR, CHN_RE);
    CheckOtherSet(chn, CHN_PR, CHN_RD);
    CheckOtherSet(chn, CHN_PR, CHN_TI);
    SetTwice(chn, CHN_PR);
    CheckCleared(chn, CHN_RD);
  }

  /** Without RD, packets change nothing. */
  lemma {:induction false} RxOff(d: Dev, m: Mem, ps: seq<RxPacket>)
    requires DevOk(d) && !CheckBit(d.regs.chn, CHN_RD)
    ensures RxAll(d, m, ps) == DevMem(d, m)
    decreases |ps|
  {
    if ps != [] {
      RxOff(d, m, ps[1..]);
    }
  }

  /** An accepted packet that finds its slot enabled. */
  lemma StoreStep(d: Dev, m: Mem, t: seq<RxDescr>, seen: set<nat>, p: RxPacket)
    requires Receiving(d, m, t, seen) && RxAccepts(d.regs, p) && d.rxdCur !in seen && t[d.rxdCur].Enabled()
    ensures var r, k, base := RxOne(d, m, p), d.rxdCur, TableBase(d.regs.rxd);
            var next := NextSlot(k, t[k].Wraps(), RX_SLOTS);
            && r.mem == ApplyOne(m, base, StoreFor(d.regs, t[k], k, p))
            && r.dev == d.(rxdMap := r.dev.rxdMap, rxdCur := next, irqs := d.irqs + Pulse(t[k].Interrupts(), d.regs),
                           regs := d.regs.(str := EepStr(d.regs.str, p.ep),
                                           chn := SetBit(d.regs.chn, CHN_PR), rxd := RxSelect(d.regs.rxd, next)))
            && TableBase(r.dev.regs.rxd) == base && Receiving(r.dev, r.mem, t, seen + {k})
  {
    hide CheckBit, SetBit, ClearBit, RxSelect, TableBase, RxLimit, RxControl, Delivered, Write, WriteWord, ReadWord;
    hide RxDescr.Enabled, RxDescr.Wraps, RxDescr.Interrupts;
    var k, base := d.rxdCur, TableBase(d.regs.rxd);
    var next := NextSlot(k, t[k].Wraps(), RX_SLOTS);
    RxSelectExact(d.regs.rxd, next);
    RxChannelBits(d.regs.chn);
    assert RxTableOf(d, m)[k] == t[k];
    assert RxLoad(m, d.regs.rxd) == t[k];
    var s := StoreFor(d.regs, t[k], k, p);
    DeliveredFits(d.regs, p);
    StoreInTable(m, base, k, s);
    RxControlExact(t[k], |Delivered(d.regs, p)|, |p.data| > RxLimit(d.regs.rxl), p);
  }

  /** A delivery changes the table at its slot only. */
  lemma StoreInTable(m: Mem, base: nat, k: nat, s: Store)
    requires k < RX_SLOTS && s.slot == k && Disjoint(s.back.addr, |s.bytes|, base, TABLE_SIZE)
    requires s.back == RxTableAt(m, base)[k].(ctrl := s.back.ctrl)
    ensures RxTableAt(ApplyOne(m, base, s), base) == RxTableAt(m, base)[k := s.back]
  {
    hide Write, WriteWord, ReadWord;
    var m0 := Write(m, s.back.addr, s.bytes);
    BufferOutsideTable(m, base, s.back.addr, s.bytes);
    RxControlWritten(m0, base, k, s.back.ctrl);
  }

  lemma BufferOutsideTable(m: Mem, base: nat, a: nat, bytes: seq<byte>)
    requires Disjoint(a, |bytes|, base, TABLE_SIZE)
    ensures RxTableAt(Write(m, a, bytes), base) == RxTableAt(m, base)
  {
    hide Write, ReadWord;
    var m' := Write(m, a, bytes);
    forall k | 0 <= k < RX_SLOTS
      ensures RxTableAt(m', base)[k] == RxTableAt(m, base)[k]
    {
      ReadWordKept(m, a, bytes, base + RX_SLOT_SIZE * k);
      ReadWordKept(m, a, bytes, base + RX_SLOT_SIZE * k + 4);
    }
  }

  // ---- the whole sequence ----

  predicate AnyEep(ps: seq<RxPacket>) {
    exists i :: 0 <= i < |ps| && ps[i].ep
  }

  /** The interrupts that the deliveries of a plan raise. */
  function PlanPulses(plan: seq<Store>, regs: Regs): nat {
    if plan == [] then 0 else Pulse(plan[0].back.Interrupts(), regs) + PlanPulses(plan[1..], regs)
  }

  /** SPWCHN after the sequence: something was stored or not, a packet came too late or not. */
  function ReceivedChn(chn: word, stored: bool, late: bool): word {
    var c := if stored then SetBit(chn, CHN_PR) else chn;
    if late then ClearBit(c, CHN_RD) else c
  }

  /** The slot the device is at when n slots of a run have been used. */
  function SlotAfter(run: seq<nat>, end: nat, n: nat): nat
    requires n <= |run|
  {
    if n < |run| then run[n] else end
  }

  /** A device that has moved on to slot next, with some interrupts raised and some packets stored. */
  function AfterPlan(d: Dev, rxdMap: seq<RxDescr>, next: nat, pulses: nat, eep: bool, stored: bool, late: bool): Dev
    requires next < RX_SLOTS
  {
    d.(rxdMap := rxdMap, rxdCur := next, irqs := d.irqs + pulses,
       regs := d.regs.(str := EepStr(d.regs.str, eep), chn := ReceivedChn(d.regs.chn, stored, late),
           rxd := RxSelect(d.regs.rxd, next)))
  }

  predicate ReceivedDev(d: Dev, t: seq<RxDescr>, seen: set<nat>, qs: seq<RxPacket>, d': Dev)
    requires d.rxdCur < |t| == RX_SLOTS
  {
    var run, end := RxRun(t, d.rxdCur, seen), RunEnd(RxRing(t), d.rxdCur, seen);
    var plan := Plan(d.regs, t, run, qs);
    var next := SlotAfter(run, end, |plan|);
    && next < RX_SLOTS
    && d' == AfterPlan(d, d'.rxdMap, next, PlanPulses(plan, d.regs), AnyEep(qs[..|plan|]), plan != [], |qs| > |run|)
  }

  predicate ReceivedAll(d: Dev, m: Mem, t: seq<RxDescr>, seen: set<nat>, qs: seq<RxPacket>, r: DevMem)
    requires d.rxdCur < |t| == RX_SLOTS
  {
    && r.mem == Apply(m, TableBase(d.regs.rxd), Plan(d.regs, t, RxRun(t, d.rxdCur, seen), qs))
    && ReceivedDev(d, t, seen, qs, r.dev)
  }

  lemma RxRunFirst(t: seq<RxDescr>, k: nat, seen: set<nat>)
    requires k < |t|
    ensures var n := NextSlot(k, t[k].Wraps(), |t|);
            if t[k].Enabled() && k !in seen
            then RxRun(t, k, seen) == [k] + RxRun(t, n, seen + {k})
                && RunEnd(RxRing(t), k, seen) == RunEnd(RxRing(t), n, seen + {k})
            else RxRun(t, k, seen) == [] && RunEnd(RxRing(t), k, seen) == k
  {
    hide RxDescr.Enabled, RxDescr.Wraps;
  }

  lemma PlanCons(r: Regs, t: seq<RxDescr>, k: nat, run: seq<nat>, p: RxPacket, qs: seq<RxPacket>)
    requires k < |t| && forall i :: 0 <= i < |run| ==> run[i] < |t|
    ensures Plan(r, t, [k] + run, [p] + qs) == [StoreFor(r, t[k], k, p)] + Plan(r, t, run, qs)
  {
    hide StoreFor;
    assert ([k] + run)[1..] == run && ([p] + qs)[1..] == qs;
  }

  /** Registers that differ in nothing the plan looks at. */
  predicate SamePlanRegs(r: Regs, r': Regs) {
    && r.ctr == r'.ctr && r.ndr == r'.ndr && r.rxl == r'.rxl
    && CheckBit(r.chn, CHN_RE) == CheckBit(r'.chn, CHN_RE) && CheckBit(r.chn, CHN_TI) == CheckBit(r'.chn, CHN_TI)
  }

  lemma {:induction false} SamePlan(r: Regs, r': Regs, t: seq<RxDescr>, run: seq<nat>, qs: seq<RxPacket>)
    requires SamePlanRegs(r, r') && forall i :: 0 <= i < |run| ==> run[i] < |t|
    ensures Plan(r, t, run, qs) == Plan(r', t, run, qs)
  {
    hide CheckBit, RxControl, RxLimit;
  }

  lemma {:induction false} SamePulses(plan: seq<Store>, r: Regs, r': Regs)
    requires SamePlanRegs(r, r')
    ensures PlanPulses(plan, r) == PlanPulses(plan, r')
  {
    hide CheckBit;
    if plan != [] {
      SamePulses(plan[1..], r, r');
    }
  }

  lemma {:induction false} SameAccepted(r: Regs, r': Regs, ps: seq<RxPacket>)
    requires SamePlanRegs(r, r')
    ensures Accepted(r, ps) == Accepted(r', ps)
  {
    hide CheckBit;
    if ps != [] {
      SameAccepted(r, r', ps[1..]);
    }
  }

  lemma RxSelectTwice(rxd: uint32, a: nat, b: nat)
    requires rxd % 8 == 0 && a < RX_SLOTS && b < RX_SLOTS
    ensures RxSelect(RxSelect(rxd, a), b) == RxSelect(rxd, b)
  {
    RxSelectExact(rxd, a);
    RxSelectExact(rxd, b);
    RxSelectExact(RxSelect(rxd, a), b);
  }

  lemma {:induction false} ReceiveFrom(d: Dev, m: Mem, t: seq<RxDescr>, seen: set<nat>, ps: seq<RxPacket>)
    requires Receiving(d, m, t, seen)
    ensures ReceivedAll(d, m, t, seen, Accepted(d.regs, ps), RxAll(d, m, ps))
    decreases |ps|
  {
    hide RxOne, RxAccepts, ReceivedAll, TableBase, RxDescr.Enabled;
    if ps == [] {
      ReceiveNone(d, m, t, seen);
    } else {
      var p, r := ps[0], RxOne(d, m, ps[0]);
      if !RxAccepts(d.regs, p) {
        RxRejects(d, m, p);
        assert [] + Accepted(d.regs, ps[1..]) == Accepted(d.regs, ps[1..]);
        ReceiveFrom(d, m, t, seen, ps[1..]);
      } else if d.rxdCur in seen || !t[d.rxdCur].Enabled() {
        ReceiveLate(d, m, t, seen, ps);
      } else {
        StoreStep(d, m, t, seen, p);
        ReceiveFrom(r.dev, r.mem, t, seen + {d.rxdCur}, ps[1..]);
        ReceiveJoins(d, m, t, seen, ps);
      }
    }
  }

  lemma RxRejects(d: Dev, m: Mem, p: RxPacket)
    requires DevOk(d) && !RxAccepts(d.regs, p)
    ensures RxOne(d, m, p) == DevMem(d, m)
  {
  }

  lemma ReceiveNone(d: Dev, m: Mem, t: seq<RxDescr>, seen: set<nat>)
    requires Receiving(d, m, t, seen)
    ensures ReceivedAll(d, m, t, seen, [], DevMem(d, m))
  {
    hide CheckBit, SetBit, ClearBit, RxSelect, TableBase, RxRun, RunEnd, RxRing, RxDescr.Enabled, RxDescr.Wraps;
    hide RxTableAt, RxBuffersApart, RxLimit;
    RxRunFirst(t, d.rxdCur, seen);
    RxSelectExact(d.regs.rxd, d.rxdCur);
  }

  lemma ReceiveLate(d: Dev, m: Mem, t: seq<RxDescr>, seen: set<nat>, ps: seq<RxPacket>)
    requires Receiving(d, m, t, seen) && ps != [] && RxAccepts(d.regs, ps[0])
    requires d.rxdCur in seen || !t[d.rxdCur].Enabled()
    ensures ReceivedAll(d, m, t, seen, Accepted(d.regs, ps), RxAll(d, m, ps))
  {
    hide SetBit, ClearBit, RxSelect, RxRun, RunEnd, RxDescr.Enabled, RxDescr.Wraps, RxRing, TableBase, ReadWord;
    hide RxBuffersApart, RxLimit;
    var r := RxOne(d, m, ps[0]);
    RxSelectExact(d.regs.rxd, d.rxdCur);
    RxChannelBits(d.regs.chn);
    assert RxTableOf(d, m)[d.rxdCur] == RxLoad(m, d.regs.rxd);
    hide CheckBit, RxTableAt;
    assert r.mem == m && r.dev == d.(rxdMap := r.dev.rxdMap, regs := d.regs.(chn := ClearBit(d.regs.chn, CHN_RD)));
    RxOff(r.dev, r.mem, ps[1..]);
    RxRunFirst(t, d.rxdCur, seen);
    hide RxOne, RxAccepts;
  }

  lemma AnyEepCons(p: RxPacket, qs: seq<RxPacket>)
    ensures AnyEep([p] + qs) == (p.ep || AnyEep(qs))
  {
    if AnyEep(qs) {
      var i :| 0 <= i < |qs| && qs[i].ep;
      assert ([p] + qs)[i + 1].ep;
    }
    if p.ep {
      assert ([p] + qs)[0].ep;
    }
  }

  lemma EepTwice(str: word, a: bool, b: bool)
    ensures EepStr(EepStr(str, a), b) == EepStr(str, a || b)
  {
    hide SetBit;
    SetTwice(str, STR_EE);
  }

  lemma ChnJoins(chn: word, stored: bool, late: bool)
    ensures ReceivedChn(SetBit(chn, CHN_PR), stored, late) == ReceivedChn(chn, true, late)
  {
    hide SetBit, ClearBit;
    SetTwice(chn, CHN_PR);
  }

  lemma TakeCons(p: RxPacket, qs: seq<RxPacket>, n: nat)
    requires n <= |qs|
    ensures ([p] + qs)[..n + 1] == [p] + qs[..n]
  {
  }

  /** What a packet that is stored leaves to the packets after it. */
  lemma AfterStore(d: Dev, m: Mem, t: seq<RxDescr>, seen: set<nat>, p: RxPacket, qs: seq<RxPacket>)
    requires Receiving(d, m, t, seen) && RxAccepts(d.regs, p) && d.rxdCur !in seen && t[d.rxdCur].Enabled()
    ensures var r, k := RxOne(d, m, p), d.rxdCur;
            && r.dev.rxdCur < RX_SLOTS && SamePlanRegs(d.regs, r.dev.regs)
            && var run, run' := RxRun(t, k, seen), RxRun(t, r.dev.rxdCur, seen + {k});
            && run == [k] + run' && RunEnd(RxRing(t), k, seen) == RunEnd(RxRing(t), r.dev.rxdCur, seen + {k})
            && Plan(d.regs, t, run, [p] + qs) == [StoreFor(d.regs, t[k], k, p)] + Plan(r.dev.regs, t, run', qs)
            && PlanPulses(Plan(d.regs, t, run, [p] + qs), d.regs)
               == Pulse(t[k].Interrupts(), d.regs) + PlanPulses(Plan(r.dev.regs, t, run', qs), r.dev.regs)
  {
    hide CheckBit, SetBit, ClearBit, RxSelect, RxRun, RunEnd, RxRing, TableBase, RxDescr.Enabled, RxDescr.Wraps;
    hide RxDescr.Interrupts;
    hide RxOne, RxAccepts, RxControl, RxLimit, Delivered, RxTableAt, RxBuffersApart, Plan;
    var r, k := RxOne(d, m, p), d.rxdCur;
    StoreStep(d, m, t, seen, p);
    RxRunFirst(t, k, seen);
    RxChannelBits(d.regs.chn);
    var run := RxRun(t, r.dev.rxdCur, seen + {k});
    SamePlan(d.regs, r.dev.regs, t, run, qs);
    SamePulses(Plan(d.regs, t, run, qs), d.regs, r.dev.regs);
    PlanCons(d.regs, t, k, run, p, qs);
    DeliveredFits(d.regs, p);
    RxControlExact(t[k], |Delivered(d.regs, p)|, |p.data| > RxLimit(d.regs.rxl), p);
  }

  lemma ApplyCons(m: Mem, base: nat, s: Store, plan: seq<Store>)
    ensures Apply(m, base, [s] + plan) == Apply(ApplyOne(m, base, s), base, plan)
  {
    assert ([s] + plan)[1..] == plan;
  }

  lemma JoinMem(d: Dev, m: Mem, t: seq<RxDescr>, seen: set<nat>, p: RxPacket, qs: seq<RxPacket>)
    requires Receiving(d, m, t, seen) && RxAccepts(d.regs, p) && d.rxdCur !in seen && t[d.rxdCur].Enabled()
    ensures var r, k := RxOne(d, m, p), d.rxdCur;
            && r.dev.rxdCur < RX_SLOTS
            && Apply(r.mem, TableBase(r.dev.regs.rxd), Plan(r.dev.regs, t, RxRun(t, r.dev.rxdCur, seen + {k}), qs))
               == Apply(m, TableBase(d.regs.rxd), Plan(d.regs, t, RxRun(t, k, seen), [p] + qs))
  {
    hide CheckBit, SetBit, RxSelect, RxRun, RxRing, TableBase, RxDescr.Enabled, RxDescr.Wraps, RxDescr.Interrupts;
    hide RxOne, RxAccepts, RxLimit, RxTableAt, RxBuffersApart, Plan, PlanPulses, StoreFor, SamePlanRegs, EepStr;
    hide ApplyOne, Apply;
    var r, k := RxOne(d, m, p), d.rxdCur;
    StoreStep(d, m, t, seen, p);
    AfterStore(d, m, t, seen, p, qs);
    ApplyCons(m, TableBase(d.regs.rxd), StoreFor(d.regs, t[k], k, p),
        Plan(r.dev.regs, t, RxRun(t, r.dev.rxdCur, seen + {k}), qs));
  }

  lemma SlotAfterCons(k: nat, run: seq<nat>, end: nat, n: nat)
    requires n <= |run|
    ensures SlotAfter([k] + run, end, n + 1) == SlotAfter(run, end, n)
  {
  }

  lemma AfterPlanTwice(d: Dev, m1: seq<RxDescr>, n1: nat, p1: nat, e1: bool,
                       m2: seq<RxDescr>, n2: nat, p2: nat, e2: bool, stored: bool, late: bool)
    requires n1 < RX_SLOTS && n2 < RX_SLOTS && d.regs.rxd % 8 == 0
    ensures AfterPlan(AfterPlan(d, m1, n1, p1, e1, true, false), m2, n2, p2, e2, stored, late)
         == AfterPlan(d, m2, n2, p1 + p2, e1 || e2, true, late)
  {
    ChnJoins(d.regs.chn, stored, late);
    EepTwice(d.regs.str, e1, e2);
    RxSelectTwice(d.regs.rxd, n1, n2);
    hide EepStr, RxSelect, SetBit, ClearBit;
  }

  lemma StoreIsAfterPlan(d: Dev, m: Mem, t: seq<RxDescr>, seen: set<nat>, p: RxPacket)
    requires Receiving(d, m, t, seen) && RxAccepts(d.regs, p) && d.rxdCur !in seen && t[d.rxdCur].Enabled()
    ensures var r, k := RxOne(d, m, p), d.rxdCur;
            r.dev
            == AfterPlan(d, r.dev.rxdMap, NextSlot(k, t[k].Wraps(), RX_SLOTS), Pulse(t[k].Interrupts(), d.regs), p.ep,
                true, false)
  {
    hide EepStr, RxSelect, SetBit, RxOne, RxAccepts, RxDescr.Enabled, RxDescr.Wraps, RxDescr.Interrupts, Pulse;
    StoreStep(d, m, t, seen, p);
  }

  /** e is d after one store, d' is e after the rest of the packets. */
  lemma JoinAfter(d: Dev, e: Dev, t: seq<RxDescr>, seen: set<nat>, p: RxPacket, qs: seq<RxPacket>, pulse: nat, d': Dev)
    requires d.rxdCur < |t| == RX_SLOTS && e.rxdCur < RX_SLOTS && d.regs.rxd % 8 == 0
    requires e == AfterPlan(d, e.rxdMap, e.rxdCur, pulse, p.ep, true, false)
    requires RxRun(t, d.rxdCur, seen) == [d.rxdCur] + RxRun(t, e.rxdCur, seen + {d.rxdCur})
    requires RunEnd(RxRing(t), d.rxdCur, seen) == RunEnd(RxRing(t), e.rxdCur, seen + {d.rxdCur})
    requires PlanPulses(Plan(d.regs, t, RxRun(t, d.rxdCur, seen), [p] + qs), d.regs)
          == pulse + PlanPulses(Plan(e.regs, t, RxRun(t, e.rxdCur, seen + {d.rxdCur}), qs), e.regs)
    requires ReceivedDev(e, t, seen + {d.rxdCur}, qs, d')
    ensures ReceivedDev(d, t, seen, [p] + qs, d')
  {
    hide RxRun, RunEnd, RxRing, Plan, PlanPulses, AnyEep, AfterPlan, SlotAfter;
    var run', end := RxRun(t, e.rxdCur, seen + {d.rxdCur}), RunEnd(RxRing(t), d.rxdCur, seen);
    var plan' := Plan(e.regs, t, run', qs);
    var n := |plan'|;
    AnyEepCons(p, qs[..n]);
    TakeCons(p, qs, n);
    SlotAfterCons(d.rxdCur, run', end, n);
    AfterPlanTwice(d, e.rxdMap, e.rxdCur, pulse, p.ep,
                   d'.rxdMap, SlotAfter(run', end, n), PlanPulses(plan', e.regs), AnyEep(qs[..n]), plan' != [],
                       |qs| > |run'|);
  }

  lemma JoinDev(d: Dev, m: Mem, t: seq<RxDescr>, seen: set<nat>, p: RxPacket, qs: seq<RxPacket>, d': Dev)
    requires Receiving(d, m, t, seen) && RxAccepts(d.regs, p) && d.rxdCur !in seen && t[d.rxdCur].Enabled()
    requires var r := RxOne(d, m, p); r.dev.rxdCur < RX_SLOTS && ReceivedDev(r.dev, t, seen + {d.rxdCur}, qs, d')
    ensures ReceivedDev(d, t, seen, [p] + qs, d')
  {
    hide CheckBit, SetBit, RxSelect, RxRun, RunEnd, RxRing, TableBase, RxDescr.Enabled, RxDescr.Wraps;
    hide RxDescr.Interrupts;
    hide RxOne, RxAccepts, RxLimit, RxTableAt, RxBuffersApart, Plan, PlanPulses, StoreFor, SamePlanRegs, AnyEep;
    hide AfterPlan, SlotAfter, Pulse, ReceivedDev;
    var r, k := RxOne(d, m, p), d.rxdCur;
    StoreIsAfterPlan(d, m, t, seen, p);
    StoreStep(d, m, t, seen, p);
    AfterStore(d, m, t, seen, p, qs);
    JoinAfter(d, r.dev, t, seen, p, qs, Pulse(t[k].Interrupts(), d.regs), d');
  }

  lemma ReceiveJoins(d: Dev, m: Mem, t: seq<RxDescr>, seen: set<nat>, ps: seq<RxPacket>)
    requires Receiving(d, m, t, seen) && ps != [] && RxAccepts(d.regs, ps[0]) && d.rxdCur !in seen
        && t[d.rxdCur].Enabled()
    requires var r := RxOne(d, m, ps[0]);
             r.dev.rxdCur < RX_SLOTS
             && ReceivedAll(r.dev, r.mem, t, seen + {d.rxdCur}, Accepted(r.dev.regs, ps[1..]),
                  RxAll(r.dev, r.mem, ps[1..]))
    ensures ReceivedAll(d, m, t, seen, Accepted(d.regs, ps), RxAll(d, m, ps))
  {
    hide CheckBit, RxRun, TableBase, RxOne, RxAccepts, RxLimit, RxTableAt, RxBuffersApart, Plan, SamePlanRegs;
    hide Apply, ReceivedDev, RxDescr.Enabled;
    var r, p := RxOne(d, m, ps[0]), ps[0];
    var qs := Accepted(r.dev.regs, ps[1..]);
    AfterStore(d, m, t, seen, p, qs);
    SameAccepted(d.regs, r.dev.regs, ps[1..]);
    JoinMem(d, m, t, seen, p, qs);
    JoinDev(d, m, t, seen, p, qs, RxAll(r.dev, r.mem, ps[1..]).dev);
  }

  /** The table and the buffers of its enabled descriptors, up to the receive limit, are pairwise
      disjoint. */
  predicate AllApart(t: seq<RxDescr>, limit: nat, base: nat) {
    && RxBuffersApart(t, limit, base)
    && (forall i, j :: 0 <= i < j < |t| && t[i].Enabled() && t[j].Enabled() ==>
         Disjoint(t[i].addr, limit, t[j].addr, limit))
  }

  lemma RunPlanApart(r: Regs, t: seq<RxDescr>, k: nat, qs: seq<RxPacket>, base: nat)
    requires k < |t| == RX_SLOTS && AllApart(t, RxLimit(r.rxl), base)
    ensures PlanApart(base, Plan(r, t, RxRun(t, k, {}), qs))
  {
    hide RxLimit, RxDescr.Enabled, Run, RunEnd, Plan, StoreFor;
    var run := RxRun(t, k, {});
    var plan, limit := Plan(r, t, run, qs), RxLimit(r.rxl);
    RunIsMaximal(RxRing(t), k, {});
    assert forall i :: 0 <= i < |run| ==> RxRing(t)[run[i]].enabled;
    forall i | 0 <= i < |plan|
      ensures plan[i].slot == run[i] && plan[i].back.addr == t[run[i]].addr && |plan[i].bytes| <= limit
          && t[run[i]].Enabled()
    {
      StoreForFits(r, t[run[i]], run[i], qs[i]);
    }
    hide RxRing;
    forall i, j | 0 <= i < j < |plan|
      ensures plan[i].slot != plan[j].slot
          && Disjoint(plan[i].back.addr, |plan[i].bytes|, plan[j].back.addr, |plan[j].bytes|)
    {
      assert run[i] != run[j];
      DisjointBelow(t[run[i]].addr, limit, t[run[j]].addr, limit, |plan[i].bytes|, |plan[j].bytes|);
    }
  }

  lemma StoreForFits(r: Regs, desc: RxDescr, slot: nat, p: RxPacket)
    ensures var s := StoreFor(r, desc, slot, p);
            s.slot == slot && s.back.addr == desc.addr && s.bytes == Delivered(r, p) && |s.bytes| <= RxLimit(r.rxl)
  {
    hide RxLimit, RxControl;
    DeliveredFits(r, p);
  }

  lemma DisjointBelow(a: nat, n: nat, b: nat, k: nat, n': nat, k': nat)
    requires (Disjoint(a, n, b, k) || Disjoint(b, k, a, n)) && n' <= n && k' <= k
    ensures Disjoint(a, n', b, k')
  {
  }

  /** A sequence of packets, received with RD set, the select field equal to the cursor, and the
      table and buffers pairwise disjoint. The k-th accepted packet is stored through the k-th slot
      of the maximal run of enabled slots: its bytes up to the receive limit in the buffer of that
      slot, its length and flags in the control word; no other byte of the RAM changes. A packet
      that comes when the run is used up clears RD, and from then on nothing changes any more. */
  lemma ReceptionExact(d: Dev, m: Mem, ps: seq<RxPacket>, more: seq<RxPacket>)
    requires RxReady(d) && CheckBit(d.regs.chn, CHN_RD) && RxAligned(d)
    requires AllApart(RxTableOf(d, m), RxLimit(d.regs.rxl), TableBase(d.regs.rxd))
    ensures var t, qs, r := RxTableOf(d, m), Accepted(d.regs, ps), RxAll(d, m, ps);
            var run := RxRun(t, d.rxdCur, {});
            && Stored(m, r.mem, TableBase(d.regs.rxd), Plan(d.regs, t, run, qs))
            && ReceivedDev(d, t, {}, qs, r.dev) && RxAligned(r.dev)
            && (|qs| > |run| ==> !CheckBit(r.dev.regs.chn, CHN_RD) && RxAll(r.dev, r.mem, more) == r)
  {
    hide RxLimit, TableBase, RxTableAt, RxSelect, RxRun, RunEnd, RxRing, Plan, RxAll, CheckBit, SetBit;
    hide ClearBit, Stored, PlanPulses, RxDescr.Enabled;
    var t, qs, r := RxTableOf(d, m), Accepted(d.regs, ps), RxAll(d, m, ps);
    ReceiveFrom(d, m, t, {}, ps);
    RunPlanApart(d.regs, t, d.rxdCur, qs, TableBase(d.regs.rxd));
    ApplyStores(m, TableBase(d.regs.rxd), Plan(d.regs, t, RxRun(t, d.rxdCur, {}), qs));
    RxSelectExact(d.regs.rxd, r.dev.rxdCur);
    if |qs| > |RxRun(t, d.rxdCur, {})| {
      CheckCleared(
          if Plan(d.regs, t, RxRun(t, d.rxdCur, {}), qs) != [] then SetBit(d.regs.chn, CHN_PR) else d.regs.chn,
          CHN_RD);
      RxOff(r.dev, r.mem, more);
    }
  }
}
