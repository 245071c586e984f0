/** The transmit ring as the guest drives it: every register access ends with one call of txenable, so
    every access sends one packet of the run of enabled descriptors. */
module GuestRing {
  import opened BitOps
  import opened Leon3Ram
  import opened Messages
  import opened Registers
  import opened Dma
  import opened Rings
  import opened Drain
  import opened Isolation
  import opened Scripts

  /** An access that leaves the transmitter on and its table where it is. */
  predicate LeavesTx(offset: nat, v: word) {
    && offset != 0x28 && !(offset == 0x00 && CheckBit(v, CTR_RS))
    && !(offset == 0x20 && CheckBit(v, CHN_AT))
  }

  predicate DrivesCore(op: Op, c: nat) {
    op.Access? && op.Core() == c && LeavesTx(S.OffsetOf(op.addr), op.value)
  }

  /** The state of the ring once the slots in seen have been released: t is the table and m0 the RAM before
      that. */
  ghost predicate InRing(d: Dev, m: Mem, t: seq<TxDescr>, m0: Mem, seen: set<nat>) {
    && TxReady(d) && TxAligned(d) && |t| == TX_SLOTS
    && TxTableOf(d, m) == ReleaseAll(t, seen) && AgreeOutside(m0, m, TableBase(d.regs.txd))
    && BuffersApart(t, TableBase(d.regs.txd))
  }

  predicate TxOn(d: Dev) {
    CheckBit(d.regs.chn, CHN_TE)
  }

  /** The data packets of core c among some packets, in order. */
  function DataOf(out: seq<Packet>, c: nat): seq<Packet> {
    if out == [] then [] else (if out[0].pword == DATA && out[0].id == c then [out[0]] else []) + DataOf(out[1..], c)
  }

  lemma {:induction false} DataAppend(a: seq<Packet>, b: seq<Packet>, c: nat)
    ensures DataOf(a + b, c) == DataOf(a, c) + DataOf(b, c)
  {
    if a == [] {
      assert a + b == b;
    } else {
      var first := if a[0].pword == DATA && a[0].id == c then [a[0]] else [];
      var rest, more := DataOf(a[1..], c), DataOf(b, c);
      DataAppend(a[1..], b, c);
      assert (a + b)[1..] == a[1..] + b && (a + b)[0] == a[0];
      assert DataOf(a + b, c) == first + DataOf((a + b)[1..], c);
      assert first + (rest + more) == (first + rest) + more;
    }
  }

  lemma NoData(id: nat, codes: seq<uint32>, c: nat)
    requires |codes| <= 1
    ensures DataOf(Timecodes(id, codes), c) == []
  {
    if |codes| == 1 {
      assert Timecodes(id, codes)[1..] == [];
    }
  }

  lemma OneData(p: Packet, c: nat)
    requires p.pword == DATA && p.id == c
    ensures DataOf([p], c) == [p] && DataOf([], c) == []
  {
    assert [p][1..] == [];
  }

  // ---- one access ----

  lemma WriteKeepsTx(id: nat, r: Regs, offset: nat, v: word)
    requires LeavesTx(offset, v)
    ensures var r' := WriteRegister(id, r, offset, v);
            r'.txd == r.txd && (CheckBit(r.chn, CHN_TE) ==> CheckBit(r'.chn, CHN_TE))
  {
    hide CheckBit, WriteCtr, WriteChn, WriteStr, CtrMerge;
    R.WriteAddresses(id, r, offset, v);
    WriteCtrFrame(id, r, v);
    KeepsEnable(r.chn, v);
  }

  lemma KeepsEnable(chn: word, v: word)
    ensures !CheckBit(v, CHN_AT) && CheckBit(chn, CHN_TE) ==> CheckBit(WriteChn(chn, v), CHN_TE)
  {
  }

  lemma WriteInRing(d: Dev, m: Mem, t: seq<TxDescr>, m0: Mem, seen: set<nat>, offset: nat, v: word)
    requires InRing(d, m, t, m0, seen) && LeavesTx(offset, v)
    ensures InRing(WriteDev(d, offset, v), m, t, m0, seen) && (TxOn(d) ==> TxOn(WriteDev(d, offset, v)))
  {
    hide WriteRegister, CheckBit, LeavesTx, TableBase, TxTableAt, ReleaseAll, AgreeOutside, BuffersApart;
    WriteKeepsTx(d.id, d.regs, offset, v);
  }

  lemma RingShape(d: Dev, m: Mem, t: seq<TxDescr>, m0: Mem, seen: set<nat>)
    requires InRing(d, m, t, m0, seen)
    ensures |t| == TX_SLOTS && d.txdCur < TX_SLOTS
  {
  }

  /** What one call of txenable sends, and where it leaves the ring. */
  lemma CallInRing(d: Dev, m: Mem, t: seq<TxDescr>, m0: Mem, seen: set<nat>)
    requires InRing(d, m, t, m0, seen)
    ensures var r, k := TxEnable(d, m), d.txdCur;
            if k in seen || !t[k].Enabled() then
              r.sent == [] && InRing(r.dev, r.mem, t, m0, seen) && r.dev.txdCur == k && !TxOn(r.dev)
            else if TxOn(d) then
              && r.sent == [PacketOf(d.id, t[k], m0)] && InRing(r.dev, r.mem, t, m0, seen + {k})
              && r.dev.txdCur == NextSlot(k, t[k].Wraps(), TX_SLOTS) && TxOn(r.dev)
            else r.sent == []
  {
    hide TxEnable, CheckBit, SetBit, ClearBit, TxDescr.Enabled, TxDescr.Wraps, TxDescr.Interrupts, TxDescr.Released;
    hide TxSelect, PacketOf, TableBase, AgreeOutside, ReleaseAll, BuffersApart, TxTableAt;
    var r, k := TxEnable(d, m), d.txdCur;
    if TxOn(d) {
      StopsWhenRunEmpty(d, m, t, m0, seen);
      if r.stop {
        StopStep(d, m);
      } else {
        DrainSends(d, m, t, m0, seen);
      }
    } else {
      OffStops(d, m);
      StopStep(d, m);
    }
  }

  lemma OffStops(d: Dev, m: Mem)
    requires DevOk(d) && !TxOn(d)
    ensures TxEnable(d, m).stop
  {
    hide CheckBit, ReadWord, PacketOf;
  }

  lemma SentByAccess(d: Dev, m: Mem, offset: nat, v: word)
    requires DevOk(d)
    ensures var o, r := DoAccess(d, m, offset, v), TxEnable(WriteDev(d, offset, v), m);
            o.dev == r.dev && o.mem == r.mem && DataOf(o.sent, d.id) == DataOf(r.sent, d.id)
  {
    hide TxEnable, WriteRegister, SentTimecode, Timecodes, DataOf;
    var codes := SentTimecode(d.id, d.regs, offset, v);
    R.OneTimecode(d.id, d.regs, offset, v);
    NoData(d.id, codes, d.id);
    DataAppend(Timecodes(d.id, codes), TxEnable(WriteDev(d, offset, v), m).sent, d.id);
  }

  /** An access in a world, with the ring of its core in some state. */
  lemma AccessInRing(w: World, t: seq<TxDescr>, m0: Mem, seen: set<nat>, op: Op, c: nat)
    requires Valid(w) && c < CORES && DrivesCore(op, c) && InRing(w.cores[c], w.mem, t, m0, seen)
    ensures var w', k := DoIn(w, op), w.cores[c].txdCur;
            if k in seen || !t[k].Enabled() then
              && DataOf(w'.out, c) == DataOf(w.out, c) && InRing(w'.cores[c], w'.mem, t, m0, seen)
              && w'.cores[c].txdCur == k && !TxOn(w'.cores[c]) && Fits(w.cores[c], w.mem, op)
            else
              TxOn(w.cores[c]) ==>
                var p := PacketOf(c, t[k], m0);
                && DataOf(w'.out, c) == DataOf(w.out, c) + [p] && InRing(w'.cores[c], w'.mem, t, m0, seen + {k})
                && w'.cores[c].txdCur == NextSlot(k, t[k].Wraps(), TX_SLOTS) && TxOn(w'.cores[c])
                && (Fits(w.cores[c], w.mem, op) <==> p.FrameLength() <= MAX_MESSAGE)
  {
    hide TxEnable, WriteRegister, SentTimecode, Timecodes, DataOf, InRing, LeavesTx, TxOn, Fits, Packet.FrameLength;
    hide PacketOf, TxDescr.Enabled, TxDescr.Wraps;
    assert S.CoreOk(c, w.cores[c]);
    var d, offset, v := w.cores[c], S.OffsetOf(op.addr), op.value;
    var d1 := WriteDev(d, offset, v);
    var r := TxEnable(d1, w.mem);
    RingShape(d, w.mem, t, m0, seen);
    WriteInRing(d, w.mem, t, m0, seen, offset, v);
    CallInRing(d1, w.mem, t, m0, seen);
    SentByAccess(d, w.mem, offset, v);
    AccessFits(d, w.mem, op.addr, v);
    DataAppend(w.out, DoAccess(d, w.mem, offset, v).sent, c);
    var p := PacketOf(c, t[d.txdCur], m0);
    PacketIsData(c, t[d.txdCur], m0);
    OneData(p, c);
    assert DataOf(w.out, c) + [] == DataOf(w.out, c);
  }

  lemma PacketIsData(id: nat, desc: TxDescr, m: Mem)
    ensures PacketOf(id, desc, m).pword == DATA && PacketOf(id, desc, m).id == id
  {
  }

  // ---- a sequence of accesses ----

  function Least(a: nat, b: nat): nat {
    if a <= b then a else b
  }

  ghost predicate AllFit(ps: seq<Packet>) {
    forall i :: 0 <= i < |ps| ==> ps[i].FrameLength() <= MAX_MESSAGE
  }

  /** The ring of core c in world w', which ops have led to from world w: they have sent the first packets of
      the run, as many as there are accesses if it is long enough. */
  ghost predicate Driven(w: World, t: seq<TxDescr>, m0: Mem, seen: set<nat>, n: nat, c: nat, w': World)
    requires Valid(w) && Valid(w') && c < CORES && |t| == TX_SLOTS
  {
    var run := TxRun(t, w.cores[c].txdCur, seen);
    var k := Least(n, |run|);
    && DataOf(w'.out, c) == DataOf(w.out, c) + Packets(c, t, run, m0)[..k]
    && InRing(w'.cores[c], w'.mem, t, m0, seen + Members(run[..k]))
    && TxOn(w'.cores[c]) == (TxOn(w.cores[c]) && n <= |run|)
  }

  lemma {:induction false} DriveFrom(w: World, t: seq<TxDescr>, m0: Mem, seen: set<nat>, ops: seq<Op>, c: nat)
    requires Valid(w) && c < CORES && ValidOps(ops) && forall i :: 0 <= i < |ops| ==> DrivesCore(ops[i], c)
    requires InRing(w.cores[c], w.mem, t, m0, seen)
    requires TxOn(w.cores[c]) || TxRun(t, w.cores[c].txdCur, seen) == []
    ensures Driven(w, t, m0, seen, |ops|, c, DoAll(w, ops))
    ensures AllFit(Packets(c, t, TxRun(t, w.cores[c].txdCur, seen), m0)) ==> FitsRun(w, ops)
    decreases |ops|
  {
    hide DoIn, InRing, DrivesCore, Op.Core, Fits, TxRun, Driven, AllFit, Packets;
    RingShape(w.cores[c], w.mem, t, m0, seen);
    if ops == [] {
      DrivenNone(w, t, m0, seen, c);
    } else {
      var op, rest, k := ops[0], ops[1..], w.cores[c].txdCur;
      assert DrivesCore(op, c) && op.Core() == c by { Drives(op, c); }
      var w' := DoIn(w, op);
      AccessInRing(w, t, m0, seen, op, c);
      RunFirst(t, k, seen);
      if k in seen || !t[k].Enabled() {
        DriveFrom(w', t, m0, seen, rest, c);
        DrivenIdle(w, t, m0, seen, w', |rest|, c, DoAll(w', rest));
      } else {
        DriveFrom(w', t, m0, seen + {k}, rest, c);
        DrivenCons(w, t, m0, seen, w', |rest|, c, DoAll(w', rest));
        FitCons(c, t, k, TxRun(t, w'.cores[c].txdCur, seen + {k}), m0);
      }
    }
  }

  lemma Drives(op: Op, c: nat)
    requires DrivesCore(op, c)
    ensures op.Core() == c
  {
  }

  lemma DrivenNone(w: World, t: seq<TxDescr>, m0: Mem, seen: set<nat>, c: nat)
    requires Valid(w) && c < CORES && |t| == TX_SLOTS && InRing(w.cores[c], w.mem, t, m0, seen)
    ensures Driven(w, t, m0, seen, 0, c, w)
  {
    hide InRing, TxRun, DataOf, PacketOf, TxOn;
    var run := TxRun(t, w.cores[c].txdCur, seen);
    assert run[..0] == [] && seen + Members([]) == seen;
    assert DataOf(w.out, c) + Packets(c, t, run, m0)[..0] == DataOf(w.out, c);
  }

  /** An access that finds the run used up. */
  lemma DrivenIdle(w: World, t: seq<TxDescr>, m0: Mem, seen: set<nat>, w': World, n: nat, c: nat, end: World)
    requires Valid(w) && Valid(w') && Valid(end) && c < CORES && |t| == TX_SLOTS
    requires TxRun(t, w.cores[c].txdCur, seen) == [] && w'.cores[c].txdCur == w.cores[c].txdCur
    requires DataOf(w'.out, c) == DataOf(w.out, c) && !TxOn(w'.cores[c])
    requires Driven(w', t, m0, seen, n, c, end)
    ensures Driven(w, t, m0, seen, n + 1, c, end)
  {
    hide InRing, TxRun, DataOf, PacketOf, TxOn;
  }

  /** An access that sends, and the accesses after it. */
  lemma DrivenCons(w: World, t: seq<TxDescr>, m0: Mem, seen: set<nat>, w': World, n: nat, c: nat, end: World)
    requires Valid(w) && Valid(w') && Valid(end) && c < CORES && |t| == TX_SLOTS && w.cores[c].txdCur < TX_SLOTS
    requires var k := w.cores[c].txdCur;
             && TxRun(t, k, seen) == [k] + TxRun(t, w'.cores[c].txdCur, seen + {k})
             && DataOf(w'.out, c) == DataOf(w.out, c) + [PacketOf(c, t[k], m0)]
             && TxOn(w.cores[c]) && TxOn(w'.cores[c]) && Driven(w', t, m0, seen + {k}, n, c, end)
    ensures Driven(w, t, m0, seen, n + 1, c, end)
  {
    hide InRing, TxRun, DataOf, PacketOf, TxOn, Packets, Members;
    var k := w.cores[c].txdCur;
    var run' := TxRun(t, w'.cores[c].txdCur, seen + {k});
    var j := Least(n, |run'|);
    PacketsCons(c, t, k, run', m0);
    PacketsLength(c, t, run', m0);
    TakeFirst(PacketOf(c, t[k], m0), Packets(c, t, run', m0), j);
    TakeFirst(k, run', j);
    MembersCons(k, run'[..j]);
    assert seen + {k} + Members(run'[..j]) == seen + ({k} + Members(run'[..j]));
    assert DataOf(w.out, c) + [PacketOf(c, t[k], m0)] + Packets(c, t, run', m0)[..j]
        == DataOf(w.out, c) + ([PacketOf(c, t[k], m0)] + Packets(c, t, run', m0)[..j]);
  }

  lemma PacketsLength(id: nat, t: seq<TxDescr>, run: seq<nat>, m: Mem)
    requires forall i :: 0 <= i < |run| ==> run[i] < |t|
    ensures |Packets(id, t, run, m)| == |run|
  {
    hide PacketOf;
  }

  lemma TakeFirst<T>(x: T, s: seq<T>, j: nat)
    requires j <= |s|
    ensures ([x] + s)[..j + 1] == [x] + s[..j]
  {
  }

  lemma FitCons(c: nat, t: seq<TxDescr>, k: nat, run: seq<nat>, m: Mem)
    requires k < |t| && forall i :: 0 <= i < |run| ==> run[i] < |t|
    ensures AllFit(Packets(c, t, [k] + run, m)) <==>
            PacketOf(c, t[k], m).FrameLength() <= MAX_MESSAGE && AllFit(Packets(c, t, run, m))
  {
    hide PacketOf, Packets, Packet.FrameLength;
    PacketsCons(c, t, k, run, m);
    var ps := Packets(c, t, run, m);
    assert ([PacketOf(c, t[k], m)] + ps)[0] == PacketOf(c, t[k], m);
    assert forall i :: 0 <= i < |ps| ==> ps[i] == ([PacketOf(c, t[k], m)] + ps)[i + 1];
  }

  // ---- runs of the system ----

  /** The guest drives the ring of core c by accesses to its registers that neither abort nor reset it nor
      move its table, each one left to complete. With the transmitter on, the select field equal to the
      cursor, no enabled buffer in the table and frames the queue takes, the accesses send exactly the
      first packets of the maximal run of enabled descriptors, one for each access, in ring order and with
      the payloads the RAM held at first, and release exactly those. An access more than there are such
      packets sends nothing and finds the transmitter off afterwards. */
  lemma GuestDrivesRing(s: S.State, ops: seq<Op>, c: nat, id: nat, packet: RxPacket)
    requires S.Shape(s) && s.phase.Idle? && !s.exited && id < CORES && c < CORES && ValidOps(ops)
    requires forall i :: 0 <= i < |ops| ==> DrivesCore(ops[i], c)
    requires var d := s.cores[c];
             && TxReady(d) && TxOn(d) && TxAligned(d) && BuffersApart(TxTableOf(d, s.mem), TableBase(d.regs.txd))
             && AllFit(Packets(c, TxTableOf(d, s.mem), TxRun(TxTableOf(d, s.mem), d.txdCur, {}), s.mem))
    ensures var t, d := S.After(s, AllScripts(ops, id, packet)), s.cores[c];
            var table, base := TxTableOf(d, s.mem), TableBase(d.regs.txd);
            var run := TxRun(table, d.txdCur, {});
            var k := Least(|ops|, |run|);
            && !t.exited && t.phase.Idle?
            && DataOf(t.out, c) == DataOf(s.out, c) + Packets(c, table, run, s.mem)[..k]
            && TxTableOf(t.cores[c], t.mem) == ReleaseAll(table, Members(run[..k]))
            && AgreeOutside(s.mem, t.mem, TableBase(t.cores[c].regs.txd))
            && TxOn(t.cores[c]) == (|ops| <= |run|)
  {
    hide S.After, AllScripts, DoAll, FitsRun, TxRun, Packets, AllFit, BuffersApart, TableBase, TxTableAt, ReleaseAll;
    hide AgreeOutside, DrivesCore, S.CoreOk, DataOf, TxOn, Members;
    var w, d := WorldOf(s), s.cores[c];
    var table := TxTableOf(d, s.mem);
    ReleaseNone(table);
    AgreeSelf(s.mem, TableBase(d.regs.txd));
    DriveFrom(w, table, s.mem, {}, ops, c);
    RunOfOps(s, ops, id, packet);
    var run := TxRun(table, d.txdCur, {});
    var k := Least(|ops|, |run|);
    assert {} + Members(run[..k]) == Members(run[..k]);
  }
}
