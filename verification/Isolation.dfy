/** The four cores do not interfere: what one of them does depends on its own accesses, messages and
    memory only. Accesses are uninterrupted here; Runs relates them to the steps of the system. */
module Isolation {
  import opened BitOps
  import opened Leon3Ram
  import opened Messages
  import opened Registers
  import opened Dma
  import opened Commute
  import S = System

  /** A guest access to a register, a message from the network, or a guest store to the memory it has
      set aside for a core. */
  datatype Op =
    | Access(addr: nat, value: word)
    | Message(id: nat, pword: byte, packet: RxPacket)
    | Store(core: nat, addr: nat, bytes: seq<byte>)
  {
    function Core(): nat {
      match this
      case Access(addr, _) => S.CoreOf(addr)
      case Message(id, _, _) => id
      case Store(core, _, _) => core
    }
  }

  datatype Outcome = Outcome(dev: Dev, mem: Mem, sent: seq<Packet>)

  function Do(d: Dev, m: Mem, op: Op): (r: Outcome)
    requires DevOk(d)
  {
    match op
    case Access(addr, v) => DoAccess(d, m, S.OffsetOf(addr), v)
    case Message(_, pword, p) =>
      if pword == DATA then Outcome(RxDev(d, m, p), RxMem(d, m, p), [])
      else if pword == TIME then Outcome(RxTimecode(d, p.first), m, [])
      else Outcome(d, m, [])
    case Store(_, a, bytes) => Outcome(d, Write(m, a, bytes), [])
  }

  /** A register write and the call of txenable that follows it. */
  function DoAccess(d: Dev, m: Mem, offset: nat, v: word): (r: Outcome)
    requires DevOk(d)
  {
    var r := TxEnable(WriteDev(d, offset, v), m);
    Outcome(r.dev, r.mem, Timecodes(d.id, SentTimecode(d.id, d.regs, offset, v)) + r.sent)
  }

  datatype World = World(cores: seq<Dev>, mem: Mem, out: seq<Packet>)

  predicate Valid(w: World) {
    |w.cores| == CORES && forall c :: 0 <= c < CORES ==> S.CoreOk(c, w.cores[c])
  }

  function DoIn(w: World, op: Op): (r: World)
    requires Valid(w) && op.Core() < CORES
    ensures Valid(r)
  {
    var c := op.Core();
    DoShape(w.cores[c], w.mem, op);
    var r := Do(w.cores[c], w.mem, op);
    World(w.cores[c := r.dev], r.mem, w.out + r.sent)
  }

  lemma DoShape(d: Dev, m: Mem, op: Op)
    requires DevOk(d)
    ensures var r := Do(d, m, op); DevOk(r.dev) && r.dev.id == d.id
  {
    hide CheckBit, SetBit, WriteRegister, RxDev, RxMem, TxEnable, SentTimecode, Timecodes;
  }

  predicate ValidOps(ops: seq<Op>) {
    forall i :: 0 <= i < |ops| ==> ops[i].Core() < CORES
  }

  function DoAll(w: World, ops: seq<Op>): (r: World)
    requires Valid(w) && ValidOps(ops)
    ensures Valid(r)
    decreases |ops|
  {
    if ops == [] then w else DoAll(DoIn(w, ops[0]), ops[1..])
  }

  // ---- footprints ----

  ghost predicate Owned(own: nat -> nat, c: nat, a: nat, n: nat) {
    forall x: nat {:trigger own(x)} :: a <= x < a + n ==> own(x) == c
  }

  /** A transmission reads and writes memory of its core only: the descriptor, and the header and the
      data if it sends. */
  ghost predicate TxConfined(own: nat -> nat, d: Dev, m: Mem) {
    var a := DecideTx(d, m);
    && (!a.TxNothing? ==> Owned(own, d.id, d.regs.txd, TX_SLOT_SIZE))
    && (a.TxSend? ==>
          Owned(own, d.id, a.desc.headerAddr, a.desc.HeaderLength())
          && Owned(own, d.id, a.desc.dataAddr, a.desc.DataLength()))
  }

  ghost predicate RxConfined(own: nat -> nat, d: Dev, m: Mem, p: RxPacket) {
    var b := DecideRx(d, m, p);
    && (!b.RxNothing? ==> Owned(own, d.id, d.regs.rxd, RX_SLOT_SIZE))
    && (b.RxStore? ==> Owned(own, d.id, b.back.addr, |b.bytes|))
  }

  ghost predicate Confined(own: nat -> nat, d: Dev, m: Mem, op: Op) {
    match op
    case Access(addr, v) => TxConfined(own, WriteDev(d, S.OffsetOf(addr), v), m)
    case Message(_, pword, p) => pword == DATA ==> RxConfined(own, d, m, p)
    case Store(c, a, bytes) => Owned(own, c, a, |bytes|)
  }

  ghost predicate ConfinedRun(own: nat -> nat, w: World, ops: seq<Op>)
    requires Valid(w) && ValidOps(ops)
    decreases |ops|
  {
    ops == [] || (Confined(own, w.cores[ops[0].Core()], w.mem, ops[0]) && ConfinedRun(own, DoIn(w, ops[0]), ops[1..]))
  }

  ghost predicate AgreeOwned(own: nat -> nat, c: nat, m: Mem, m': Mem) {
    forall x: nat {:trigger At(m, x)} {:trigger At(m', x)} :: own(x) == c ==> At(m, x) == At(m', x)
  }

  ghost predicate OthersKept(own: nat -> nat, c: nat, m: Mem, m': Mem) {
    forall x: nat {:trigger At(m', x)} :: own(x) != c ==> At(m', x) == At(m, x)
  }

  lemma AgreeRange(own: nat -> nat, c: nat, m: Mem, m': Mem, a: nat, n: nat)
    requires AgreeOwned(own, c, m, m') && Owned(own, c, a, n)
    ensures AgreeOn(m, m', a, n)
  {
  }

  lemma WriteOwned(own: nat -> nat, c: nat, m: Mem, m': Mem, a: nat, s: seq<byte>)
    requires AgreeOwned(own, c, m, m') && Owned(own, c, a, |s|)
    ensures AgreeOwned(own, c, Write(m, a, s), Write(m', a, s)) && OthersKept(own, c, m, Write(m, a, s))
  {
  }

  lemma OthersKeptTwice(own: nat -> nat, c: nat, m: Mem, m': Mem, m'': Mem)
    requires OthersKept(own, c, m, m') && OthersKept(own, c, m', m'')
    ensures OthersKept(own, c, m, m'')
  {
  }

  lemma OwnedPart(own: nat -> nat, c: nat, a: nat, n: nat, k: nat)
    requires Owned(own, c, a, n) && k <= n
    ensures Owned(own, c, a, k)
  {
  }

  // ---- an operation sees and changes its own core's memory only ----

  lemma TxDecidesAlike(own: nat -> nat, d: Dev, m: Mem, m': Mem)
    requires TxConfined(own, d, m) && AgreeOwned(own, d.id, m, m')
    ensures DecideTx(d, m') == DecideTx(d, m)
  {
    hide CheckBit, TxLoad, Owned, AgreeOwned, AgreeOn, TxDescr.Enabled, TxDescr.Wraps, TxDescr.Interrupts;
    hide TxDescr.HeaderLength, TxDescr.DataLength;
    var a := DecideTx(d, m);
    if !a.TxNothing? {
      AgreeRange(own, d.id, m, m', d.regs.txd, TX_SLOT_SIZE);
      TxLoadAgrees(m, m', d.regs.txd);
    }
    if a.TxSend? {
      AgreeRange(own, d.id, m, m', a.desc.headerAddr, a.desc.HeaderLength());
      ReadAgrees(m, m', a.desc.headerAddr, a.desc.HeaderLength());
      AgreeRange(own, d.id, m, m', a.desc.dataAddr, a.desc.DataLength());
      ReadAgrees(m, m', a.desc.dataAddr, a.desc.DataLength());
    }
  }

  lemma TxStaysInside(own: nat -> nat, d: Dev, m: Mem, m': Mem)
    requires TxConfined(own, d, m) && AgreeOwned(own, d.id, m, m')
    ensures var a := DecideTx(d, m);
            && AgreeOwned(own, d.id, TxMemEffect(d.regs.txd, m, a), TxMemEffect(d.regs.txd, m', a))
            && OthersKept(own, d.id, m, TxMemEffect(d.regs.txd, m, a))
  {
    hide DecideTx, Write, TxDescr.Released, BigEndian;
    var a := DecideTx(d, m);
    if a.TxSend? {
      OwnedPart(own, d.id, d.regs.txd, TX_SLOT_SIZE, 4);
      hide Owned;
      WriteOwned(own, d.id, m, m', d.regs.txd, BigEndian(a.desc.Released().ctrl));
      hide AgreeOwned, OthersKept;
    }
  }

  lemma RxDecidesAlike(own: nat -> nat, d: Dev, m: Mem, m': Mem, p: RxPacket)
    requires RxConfined(own, d, m, p) && AgreeOwned(own, d.id, m, m')
    ensures DecideRx(d, m', p) == DecideRx(d, m, p)
  {
    hide CheckBit, RxLoad, Owned, AgreeOwned, AgreeOn, RxDescr.Enabled, RxDescr.Wraps, RxDescr.Interrupts;
    hide RxAccepts, RxWriteBack, Delivered;
    if !DecideRx(d, m, p).RxNothing? {
      AgreeRange(own, d.id, m, m', d.regs.rxd, RX_SLOT_SIZE);
      RxLoadAgrees(m, m', d.regs.rxd);
    }
  }

  lemma RxStaysInside(own: nat -> nat, d: Dev, m: Mem, m': Mem, p: RxPacket)
    requires RxConfined(own, d, m, p) && AgreeOwned(own, d.id, m, m')
    ensures var b := DecideRx(d, m, p);
            && AgreeOwned(own, d.id, RxMemEffect(d.regs.rxd, m, b), RxMemEffect(d.regs.rxd, m', b))
            && OthersKept(own, d.id, m, RxMemEffect(d.regs.rxd, m, b))
  {
    hide DecideRx, Write, BigEndian;
    var b := DecideRx(d, m, p);
    if b.RxStore? {
      OwnedPart(own, d.id, d.regs.rxd, RX_SLOT_SIZE, 4);
      hide Owned;
      WriteOwned(own, d.id, m, m', b.back.addr, b.bytes);
      var w, w' := Write(m, b.back.addr, b.bytes), Write(m', b.back.addr, b.bytes);
      WriteOwned(own, d.id, w, w', d.regs.rxd, BigEndian(b.back.ctrl));
      OthersKeptTwice(own, d.id, m, w, Write(w, d.regs.rxd, BigEndian(b.back.ctrl)));
      hide AgreeOwned, OthersKept;
    }
  }

  lemma AccessIsLocal(own: nat -> nat, d: Dev, m: Mem, m': Mem, offset: nat, v: word)
    requires DevOk(d) && TxConfined(own, WriteDev(d, offset, v), m) && AgreeOwned(own, d.id, m, m')
    ensures var r, r' := DoAccess(d, m, offset, v), DoAccess(d, m', offset, v);
            r'.dev == r.dev && r'.sent == r.sent && AgreeOwned(own, d.id, r.mem, r'.mem)
                && OthersKept(own, d.id, m, r.mem)
  {
    hide TxEnable, TxConfined, AgreeOwned, OthersKept, DecideTx, TxEffect, ReleaseEffect, TxMemEffect, WriteRegister;
    hide SentTimecode, Timecodes;
    var d1 := WriteDev(d, offset, v);
    TxDecidesAlike(own, d1, m, m');
    TxStaysInside(own, d1, m, m');
    TxEnableIsEffect(d1, m);
    TxEnableIsEffect(d1, m');
  }

  lemma DataIsLocal(own: nat -> nat, d: Dev, m: Mem, m': Mem, p: RxPacket)
    requires DevOk(d) && RxConfined(own, d, m, p) && AgreeOwned(own, d.id, m, m')
    ensures RxDev(d, m', p) == RxDev(d, m, p)
    ensures AgreeOwned(own, d.id, RxMem(d, m, p), RxMem(d, m', p)) && OthersKept(own, d.id, m, RxMem(d, m, p))
  {
    hide RxConfined, AgreeOwned, OthersKept, DecideRx, RxEffect, RxMemEffect;
    RxDecidesAlike(own, d, m, m', p);
    RxStaysInside(own, d, m, m', p);
  }

  lemma NothingKept(own: nat -> nat, c: nat, m: Mem)
    ensures OthersKept(own, c, m, m)
  {
  }

  lemma OpIsLocal(own: nat -> nat, d: Dev, m: Mem, m': Mem, op: Op)
    requires DevOk(d) && op.Core() == d.id && Confined(own, d, m, op) && AgreeOwned(own, d.id, m, m')
    ensures var r, r' := Do(d, m, op), Do(d, m', op);
            r'.dev == r.dev && r'.sent == r.sent && AgreeOwned(own, d.id, r.mem, r'.mem)
                && OthersKept(own, d.id, m, r.mem)
  {
    hide TxConfined, RxConfined, AgreeOwned, OthersKept, Owned, DoAccess, RxDev, RxMem, RxTimecode, Write;
    hide WriteRegister;
    NothingKept(own, d.id, m);
    match op
    case Access(addr, v) => AccessIsLocal(own, d, m, m', S.OffsetOf(addr), v);
    case Message(_, pword, p) => if pword == DATA { DataIsLocal(own, d, m, m', p); }
    case Store(_, a, bytes) => WriteOwned(own, d.id, m, m', a, bytes);
  }

  // ---- outputs by core ----

  function OutOf(out: seq<Packet>, c: nat): seq<Packet> {
    if out == [] then [] else (if out[0].id == c then [out[0]] else []) + OutOf(out[1..], c)
  }

  lemma {:induction false} OutOfAppend(a: seq<Packet>, b: seq<Packet>, c: nat)
    ensures OutOf(a + b, c) == OutOf(a, c) + OutOf(b, c)
  {
    if a == [] {
      assert a + b == b;
    } else {
      var first := if a[0].id == c then [a[0]] else [];
      OutOfAppend(a[1..], b, c);
      assert (a + b)[1..] == a[1..] + b;
      assert OutOf(a + b, c) == first + (OutOf(a[1..], c) + OutOf(b, c));
      assert first + (OutOf(a[1..], c) + OutOf(b, c)) == (first + OutOf(a[1..], c)) + OutOf(b, c);
    }
  }

  lemma {:induction false} OutOfOther(out: seq<Packet>, c: nat)
    requires forall p :: p in out ==> p.id != c
    ensures OutOf(out, c) == []
  {
    if out != [] {
      OutOfOther(out[1..], c);
    }
  }

  lemma SentByCore(d: Dev, m: Mem, op: Op)
    requires DevOk(d)
    ensures forall p :: p in Do(d, m, op).sent ==> p.id == d.id
  {
    hide WriteRegister, TxEnable, TxEffect, ReleaseEffect, TxMemEffect, SentTimecode, RxDev, RxMem, RxTimecode;
    if op.Access? {
      var d1 := WriteDev(d, S.OffsetOf(op.addr), op.value);
      TxEnableIsEffect(d1, m);
      SentId(d1, m);
      hide DecideTx;
    }
  }

  lemma SentId(d: Dev, m: Mem)
    ensures DecideTx(d, m).TxSend? ==> DecideTx(d, m).packet.id == d.id
  {
    hide CheckBit, ReadWord;
  }

  // ---- the projection ----

  function Only(ops: seq<Op>, c: nat): (r: seq<Op>)
    ensures ValidOps(ops) ==> ValidOps(r)
  {
    if ops == [] then [] else (if ops[0].Core() == c then [ops[0]] else []) + Only(ops[1..], c)
  }

  /** Two worlds that core c cannot tell apart. */
  ghost predicate SameFor(own: nat -> nat, c: nat, w: World, v: World)
    requires Valid(w) && Valid(v) && c < CORES
  {
    w.cores[c] == v.cores[c] && AgreeOwned(own, c, w.mem, v.mem) && OutOf(w.out, c) == OutOf(v.out, c)
  }

  lemma OwnStep(own: nat -> nat, c: nat, w: World, v: World, op: Op)
    requires Valid(w) && Valid(v) && op.Core() == c < CORES
    requires SameFor(own, c, w, v) && Confined(own, w.cores[c], w.mem, op)
    ensures SameFor(own, c, DoIn(w, op), DoIn(v, op))
  {
    hide Do, Confined, AgreeOwned, OutOf, DevOk;
    assert S.CoreOk(c, w.cores[c]);
    OpIsLocal(own, w.cores[c], w.mem, v.mem, op);
    OutOfAppend(w.out, Do(w.cores[c], w.mem, op).sent, c);
    OutOfAppend(v.out, Do(w.cores[c], w.mem, op).sent, c);
  }

  lemma AgreeAfterOther(own: nat -> nat, c: nat, e: nat, m: Mem, m': Mem, n: Mem)
    requires c != e && AgreeOwned(own, c, m, n) && OthersKept(own, e, m, m')
    ensures AgreeOwned(own, c, m', n)
  {
  }

  lemma OwnedSelf(own: nat -> nat, c: nat, m: Mem)
    ensures AgreeOwned(own, c, m, m)
  {
  }

  lemma OtherStep(own: nat -> nat, c: nat, w: World, v: World, op: Op)
    requires Valid(w) && Valid(v) && op.Core() < CORES && c < CORES && op.Core() != c
    requires SameFor(own, c, w, v) && Confined(own, w.cores[op.Core()], w.mem, op)
    ensures SameFor(own, c, DoIn(w, op), v)
  {
    hide Do, Confined, AgreeOwned, OthersKept, OutOf, DevOk;
    var e := op.Core();
    var r := Do(w.cores[e], w.mem, op);
    assert S.CoreOk(e, w.cores[e]);
    OwnedSelf(own, e, w.mem);
    OpIsLocal(own, w.cores[e], w.mem, w.mem, op);
    AgreeAfterOther(own, c, e, w.mem, r.mem, v.mem);
    SentByCore(w.cores[e], w.mem, op);
    OutOfAppend(w.out, r.sent, c);
    OutOfOther(r.sent, c);
  }

  /** In any interleaving of accesses, messages and stores over the four cores, each confined to the
      memory of its core, every core ends with the registers, cursors, descriptor copies, interrupts,
      memory and output it would have had if only its own operations had taken place. */
  lemma {:induction false} CoresAreIsolated(own: nat -> nat, w: World, v: World, ops: seq<Op>, c: nat)
    requires Valid(w) && Valid(v) && ValidOps(ops) && c < CORES
    requires SameFor(own, c, w, v) && ConfinedRun(own, w, ops)
    ensures SameFor(own, c, DoAll(w, ops), DoAll(v, Only(ops, c)))
    decreases |ops|
  {
    hide DoIn, Confined, SameFor, S.CoreOk, Op.Core;
    if ops != [] {
      var op, rest := ops[0], ops[1..];
      if op.Core() == c {
        OwnStep(own, c, w, v, op);
        CoresAreIsolated(own, DoIn(w, op), DoIn(v, op), rest, c);
        assert ([op] + Only(rest, c))[1..] == Only(rest, c);
      } else {
        OtherStep(own, c, w, v, op);
        CoresAreIsolated(own, DoIn(w, op), v, rest, c);
        assert [] + Only(rest, c) == Only(rest, c);
      }
    }
  }

  // ---- confinement, checked core by core ----

  lemma ConfinedAlike(own: nat -> nat, d: Dev, m: Mem, m': Mem, op: Op)
    requires DevOk(d) && op.Core() == d.id && Confined(own, d, m, op) && AgreeOwned(own, d.id, m, m')
    ensures Confined(own, d, m', op)
  {
    hide DecideTx, DecideRx, Owned, AgreeOwned, WriteRegister;
    match op
    case Access(addr, v) => TxDecidesAlike(own, WriteDev(d, S.OffsetOf(addr), v), m, m');
    case Message(_, pword, p) => if pword == DATA { RxDecidesAlike(own, d, m, m', p); }
    case Store(_, _, _) =>
  }

  lemma AgreeBack(own: nat -> nat, c: nat, m: Mem, m': Mem)
    requires AgreeOwned(own, c, m, m')
    ensures AgreeOwned(own, c, m', m)
  {
  }

  /** Every packet an operation sends is one the queue takes. */
  predicate Fits(d: Dev, m: Mem, op: Op)
    requires DevOk(d)
  {
    forall p :: p in Do(d, m, op).sent ==> p.FrameLength() <= MAX_MESSAGE
  }

  predicate FitsRun(w: World, ops: seq<Op>)
    requires Valid(w) && ValidOps(ops)
    decreases |ops|
  {
    ops == [] || (Fits(w.cores[ops[0].Core()], w.mem, ops[0]) && FitsRun(DoIn(w, ops[0]), ops[1..]))
  }

  /** The runs of the single cores, each in a world of its own that its core cannot tell from w. */
  ghost predicate Separately(own: nat -> nat, w: World, vs: seq<World>, ops: seq<Op>)
    requires Valid(w) && ValidOps(ops)
  {
    && |vs| == CORES
    && (forall c :: 0 <= c < CORES ==>
         Valid(vs[c]) && SameFor(own, c, w, vs[c]) && ConfinedRun(own, vs[c], Only(ops, c)))
  }

  lemma OnlyFirst(ops: seq<Op>, c: nat)
    requires ops != []
    ensures Only(ops, c) == if ops[0].Core() == c then [ops[0]] + Only(ops[1..], c) else Only(ops[1..], c)
  {
    assert [] + Only(ops[1..], c) == Only(ops[1..], c);
  }

  lemma ConfinedCons(own: nat -> nat, v: World, op: Op, rest: seq<Op>)
    requires Valid(v) && op.Core() < CORES && ValidOps(rest) && ValidOps([op] + rest)
    ensures var d := v.cores[op.Core()];
            && (ConfinedRun(own, v, [op] + rest) <==>
                Confined(own, d, v.mem, op) && ConfinedRun(own, DoIn(v, op), rest))
            && (FitsRun(v, [op] + rest) <==> Fits(d, v.mem, op) && FitsRun(DoIn(v, op), rest))
  {
    hide Confined, Fits, DoIn, S.CoreOk, Op.Core;
    assert ([op] + rest)[0] == op && ([op] + rest)[1..] == rest;
  }

  /** The first operation: confined and sending the same in w as in the world of its core, and the worlds
      match again after it. */
  lemma SeparateStep(own: nat -> nat, w: World, vs: seq<World>, ops: seq<Op>)
    requires Valid(w) && ValidOps(ops) && ops != [] && Separately(own, w, vs, ops)
    ensures var op, e := ops[0], ops[0].Core();
            && Confined(own, w.cores[e], w.mem, op)
            && (Fits(w.cores[e], w.mem, op) <==> Fits(vs[e].cores[e], vs[e].mem, op))
            && Separately(own, DoIn(w, op), vs[e := DoIn(vs[e], op)], ops[1..])
  {
    hide Confined, DoIn, Do, Only, AgreeOwned, OthersKept, OutOf, ConfinedRun, FitsRun, DevOk, Op.Core;
    var op, e := ops[0], ops[0].Core();
    assert S.CoreOk(e, w.cores[e]) && SameFor(own, e, w, vs[e]);
    var v := vs[e];
    OnlyFirst(ops, e);
    ConfinedCons(own, v, op, Only(ops[1..], e));
    AgreeBack(own, e, w.mem, v.mem);
    ConfinedAlike(own, w.cores[e], v.mem, w.mem, op);
    OpIsLocal(own, w.cores[e], w.mem, v.mem, op);
    OwnStep(own, e, w, v, op);
    hide SameFor;
    forall c | 0 <= c < CORES && c != e
      ensures SameFor(own, c, DoIn(w, op), vs[c]) && ConfinedRun(own, vs[c], Only(ops[1..], c))
    {
      OnlyFirst(ops, c);
      OtherStep(own, c, w, vs[c], op);
    }
  }

  /** If each core's own operations, run by themselves, are confined, then so is every interleaving of them;
      and all the packets of the interleaving fit the queue exactly if those of the single cores do. */
  lemma {:induction false} ConfinedTogether(own: nat -> nat, w: World, vs: seq<World>, ops: seq<Op>)
    requires Valid(w) && ValidOps(ops) && Separately(own, w, vs, ops)
    ensures ConfinedRun(own, w, ops)
    ensures FitsRun(w, ops) <==> forall c :: 0 <= c < CORES ==> FitsRun(vs[c], Only(ops, c))
    decreases |ops|
  {
    hide DoIn, Confined, Fits, SameFor, S.CoreOk, Op.Core, Only;
    if ops == [] {
      assert forall c :: 0 <= c < CORES ==> Only(ops, c) == [] by { OnlyNone(); }
    } else {
      var op, e, rest := ops[0], ops[0].Core(), ops[1..];
      SeparateStep(own, w, vs, ops);
      var vs' := vs[e := DoIn(vs[e], op)];
      ConfinedTogether(own, DoIn(w, op), vs', rest);
      hide Separately, FitsRun, ConfinedRun;
      FirstFits(own, w, vs, ops);
      ConfinedCons(own, w, op, rest);
      assert [op] + rest == ops;
    }
  }

  lemma OnlyNone()
    ensures forall c: nat :: Only([], c) == []
  {
  }

  lemma FirstFits(own: nat -> nat, w: World, vs: seq<World>, ops: seq<Op>)
    requires Valid(w) && ValidOps(ops) && ops != [] && Separately(own, w, vs, ops)
    ensures var op, e := ops[0], ops[0].Core();
            var vs' := vs[e := DoIn(vs[e], op)];
            (forall c :: 0 <= c < CORES ==> FitsRun(vs[c], Only(ops, c)))
            <==> Fits(vs[e].cores[e], vs[e].mem, op) && forall c :: 0 <= c < CORES ==>
                Valid(vs'[c]) && FitsRun(vs'[c], Only(ops[1..], c))
  {
    hide DoIn, Confined, Fits, SameFor, Op.Core, Only, FitsRun, ConfinedRun, DevOk;
    var op, e, rest := ops[0], ops[0].Core(), ops[1..];
    var vs' := vs[e := DoIn(vs[e], op)];
    assert Valid(vs[e]) && S.CoreOk(e, vs[e].cores[e]) && [op] + rest == ops;
    forall c | 0 <= c < CORES
      ensures Valid(vs'[c])
      ensures FitsRun(vs[c], Only(ops, c))
          <==> (c == e ==> Fits(vs[e].cores[e], vs[e].mem, op)) && FitsRun(vs'[c], Only(rest, c))
    {
      OnlyFirst(ops, c);
      if c == e {
        ConfinedCons(own, vs[e], op, Only(rest, e));
      }
    }
  }

  /** In every interleaving of operations that, core by core, are confined to the memory of their core,
      each core ends with the registers, cursors, descriptor copies, interrupts, memory and output of a
      run of its own operations alone. */
  lemma CoreProjection(own: nat -> nat, w: World, ops: seq<Op>, c: nat)
    requires Valid(w) && ValidOps(ops) && c < CORES
    requires forall e :: 0 <= e < CORES ==> ConfinedRun(own, w, Only(ops, e))
    ensures var all, alone := DoAll(w, ops), DoAll(w, Only(ops, c));
            && all.cores[c] == alone.cores[c]
            && (forall x: nat {:trigger own(x)} :: own(x) == c ==> At(all.mem, x) == At(alone.mem, x))
            && OutOf(all.out, c) == OutOf(alone.out, c)
  {
    hide DoAll, ConfinedRun, Only, OutOf, S.CoreOk;
    EachForItself(own, w, ops);
    ConfinedTogether(own, w, [w, w, w, w], ops);
    OwnedSelf(own, c, w.mem);
    CoresAreIsolated(own, w, w, ops, c);
  }

  lemma EachForItself(own: nat -> nat, w: World, ops: seq<Op>)
    requires Valid(w) && ValidOps(ops) && forall e :: 0 <= e < CORES ==> ConfinedRun(own, w, Only(ops, e))
    ensures Separately(own, w, [w, w, w, w], ops)
  {
    hide ConfinedRun, Only, OutOf, S.CoreOk, AgreeOwned;
    forall c | 0 <= c < CORES
      ensures SameFor(own, c, w, w)
    {
      OwnedSelf(own, c, w.mem);
    }
  }
}
