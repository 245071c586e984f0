/** Uninterrupted operations as runs of the system: every sequence of accesses, messages and stores is a
    sequence of actions, and what holds of the operations holds of the run. */
module Scripts {
  import opened BitOps
  import opened Leon3Ram
  import opened Messages
  import opened Registers
  import opened Dma
  import opened Isolation
  import R = Runs

  function WorldOf(s: S.State): World {
    World(s.cores, s.mem, s.out)
  }

  /** The actions of an operation. An access is given an acknowledgement, naming any core, after its
      wait; if it does not send, the last three actions find nothing to do. */
  function Script(op: Op, id: nat, packet: RxPacket): seq<S.Action> {
    match op
    case Access(addr, v) => [S.GuestWrite(addr, v), S.TxFirst, S.EnterWait, S.Receive(id, ACK, packet), S.TxSecond]
    case Message(core, pword, p) => [S.Receive(core, pword, p)]
    case Store(_, addr, bytes) => [S.GuestStore(addr, bytes)]
  }

  function AllScripts(ops: seq<Op>, id: nat, packet: RxPacket): seq<S.Action> {
    if ops == [] then [] else Script(ops[0], id, packet) + AllScripts(ops[1..], id, packet)
  }

  lemma {:induction false} AfterBoth(s: S.State, a: seq<S.Action>, b: seq<S.Action>)
    requires S.Shape(s)
    ensures S.After(s, a + b) == S.After(S.After(s, a), b)
    decreases |b|
  {
    hide S.Step;
    if b == [] {
      assert a + b == a;
    } else {
      AfterBoth(s, a, b[..|b| - 1]);
      assert (a + b)[..|a + b| - 1] == a + b[..|b| - 1];
    }
  }

  lemma {:induction false} ExitedStays(s: S.State, acts: seq<S.Action>)
    requires S.Shape(s) && s.exited
    ensures S.After(s, acts) == s
    decreases |acts|
  {
    if acts != [] {
      ExitedStays(s, acts[..|acts| - 1]);
    }
  }

  lemma AfterOne(s: S.State, a: S.Action)
    requires S.Shape(s)
    ensures S.After(s, [a]) == S.Step(s, a)
  {
    assert S.After(s, []) == s && [] + [a] == [a];
    R.AfterMore(s, [], a);
  }

  /** Waiting, an acknowledgement and resuming do nothing when nothing has been sent. */
  lemma NothingToWaitFor(s: S.State, id: nat, packet: RxPacket)
    requires S.Shape(s) && s.phase.Idle? && !s.exited && id < CORES
    ensures S.After(s, [S.EnterWait, S.Receive(id, ACK, packet), S.TxSecond]) == s.(log := s.log + [S.Acked(false)])
  {
    hide S.CoreOk, S.DoWrite, S.DoFirst, S.DoData, S.DoTime, TxFinishDev, TxFinishMem, ReadWord;
    var a, b, c := S.EnterWait, S.Receive(id, ACK, packet), S.TxSecond;
    AfterOne(s, a);
    R.AfterMore(s, [a], b);
    R.AfterMore(s, [a, b], c);
    assert [a] + [b] == [a, b] && [a, b] + [c] == [a, b, c];
    hide S.After;
  }

  lemma AccessInWorld(w: World, addr: nat, v: word)
    requires Valid(w)
    ensures var c := S.CoreOf(addr);
            var d := WriteDev(w.cores[c], S.OffsetOf(addr), v);
            var t, r := Timecodes(c, SentTimecode(c, w.cores[c].regs, S.OffsetOf(addr), v)), TxEnable(d, w.mem);
            DoIn(w, Access(addr, v)) == World(w.cores[c := d][c := r.dev], r.mem, w.out + t + r.sent)
  {
    hide WriteRegister, TxEnable, SentTimecode, Timecodes;
    var c := S.CoreOf(addr);
    var d := WriteDev(w.cores[c], S.OffsetOf(addr), v);
    var t, r := Timecodes(c, SentTimecode(c, w.cores[c].regs, S.OffsetOf(addr), v)), TxEnable(d, w.mem);
    assert (w.out + t) + r.sent == w.out + (t + r.sent);
    assert w.cores[c := d][c := r.dev] == w.cores[c := r.dev];
  }

  /** An access sends packets the queue takes exactly if the transmission it starts does. */
  lemma AccessFits(d: Dev, m: Mem, addr: nat, v: word)
    requires DevOk(d)
    ensures var r := TxEnable(WriteDev(d, S.OffsetOf(addr), v), m);
            && (Fits(d, m, Access(addr, v)) <==> r.sent == [] || r.sent[0].FrameLength() <= MAX_MESSAGE)
            && (if r.stop then r.sent == [] else |r.sent| == 1)
  {
    hide WriteRegister, SentTimecode, TxBegin, TxFinishDev, TxFinishMem;
    var offset := S.OffsetOf(addr);
    var r, t := TxEnable(WriteDev(d, offset, v), m), Timecodes(d.id, SentTimecode(d.id, d.regs, offset, v));
    assert forall p :: p in t + r.sent <==> p in t || p in r.sent;
    assert forall p :: p in t ==> p.FrameLength() == 8;
  }

  /** The register write and the transmission it starts, with the acknowledgement coming in the wait, as a
      run: the access as a whole, or the end of the process exactly if the frame is too long for the
      queue. If nothing is to be sent the access is over after two steps. */
  lemma AccessIsSteps(s: S.State, addr: nat, v: word, id: nat, packet: RxPacket)
    requires S.Shape(s) && s.phase.Idle? && !s.exited && id < CORES
    ensures var w, t := DoIn(WorldOf(s), Access(addr, v)), S.After(s, Script(Access(addr, v), id, packet));
            var r := TxEnable(WriteDev(s.cores[S.CoreOf(addr)], S.OffsetOf(addr), v), s.mem);
            && t.exited == !Fits(s.cores[S.CoreOf(addr)], s.mem, Access(addr, v))
            && (!t.exited ==> WorldOf(t) == w && t.phase.Idle?)
            && (r.stop ==> WorldOf(S.After(s, [S.GuestWrite(addr, v), S.TxFirst])) == w)
  {
    hide S.After, WriteDev, TxEnable, SentTimecode, Timecodes, Packet.FrameLength, DoIn, Fits, DevOk;
    var c, start := S.CoreOf(addr), [S.GuestWrite(addr, v), S.TxFirst];
    var rest := [S.EnterWait, S.Receive(id, ACK, packet), S.TxSecond];
    assert S.CoreOk(c, s.cores[c]);
    AccessInWorld(WorldOf(s), addr, v);
    AccessFits(s.cores[c], s.mem, addr, v);
    R.UninterruptedAccess(s, addr, v, id, packet);
    AfterBoth(s, start, rest);
    assert start + rest == Script(Access(addr, v), id, packet);
    var r := TxEnable(WriteDev(s.cores[c], S.OffsetOf(addr), v), s.mem);
    if r.stop {
      NothingToWaitFor(S.After(s, start), id, packet);
    } else if r.sent[0].FrameLength() > MAX_MESSAGE {
      ExitedStays(S.After(s, start), rest);
    }
  }

  lemma MessageIsStep(s: S.State, id: nat, pword: byte, p: RxPacket)
    requires S.Shape(s) && !s.exited && id < CORES
    ensures var t := S.Step(s, S.Receive(id, pword, p));
            WorldOf(t) == DoIn(WorldOf(s), Message(id, pword, p)) && !t.exited && (s.phase.Idle? ==> t.phase.Idle?)
  {
    hide RxDev, RxMem, RxTimecode, ReadWord, S.Delivers, S.CoreOk;
    assert s.out + [] == s.out;
    assert s.cores[id := s.cores[id]] == s.cores;
  }

  lemma StoreIsStep(s: S.State, core: nat, addr: nat, bytes: seq<byte>)
    requires S.Shape(s) && !s.exited && core < CORES
    ensures WorldOf(S.Step(s, S.GuestStore(addr, bytes))) == DoIn(WorldOf(s), Store(core, addr, bytes))
  {
    hide S.CoreOk, Write;
    assert s.out + [] == s.out;
    assert s.cores[core := s.cores[core]] == s.cores;
  }

  lemma OthersFit(d: Dev, m: Mem, op: Op)
    requires DevOk(d) && !op.Access?
    ensures Fits(d, m, op)
  {
    hide RxDev, RxMem, RxTimecode, Write;
  }

  lemma OpIsScript(s: S.State, op: Op, id: nat, packet: RxPacket)
    requires S.Shape(s) && s.phase.Idle? && !s.exited && id < CORES && op.Core() < CORES
    ensures var t := S.After(s, Script(op, id, packet));
            && t.exited == !Fits(s.cores[op.Core()], s.mem, op)
            && (!t.exited ==> WorldOf(t) == DoIn(WorldOf(s), op) && t.phase.Idle?)
  {
    hide S.After, S.Step, Fits, DoIn, DevOk;
    assert S.CoreOk(op.Core(), s.cores[op.Core()]);
    match op
    case Access(addr, v) => AccessIsSteps(s, addr, v, id, packet);
    case Message(core, pword, p) =>
      OthersFit(s.cores[core], s.mem, op);
      AfterOne(s, S.Receive(core, pword, p));
      MessageIsStep(s, core, pword, p);
    case Store(core, addr, bytes) =>
      OthersFit(s.cores[core], s.mem, op);
      AfterOne(s, S.GuestStore(addr, bytes));
      StoreIsStep(s, core, addr, bytes);
      StoreGoesOn(s, addr, bytes);
  }

  lemma StoreGoesOn(s: S.State, addr: nat, bytes: seq<byte>)
    requires S.Shape(s) && !s.exited
    ensures var t := S.Step(s, S.GuestStore(addr, bytes)); !t.exited && t.phase == s.phase
  {
  }

  /** A run of the system that is made of uninterrupted operations does what the operations do, one after
      the other, or exits, and it exits exactly if one of them sends a frame too long for the queue. */
  lemma {:induction false} RunOfOps(s: S.State, ops: seq<Op>, id: nat, packet: RxPacket)
    requires S.Shape(s) && s.phase.Idle? && !s.exited && id < CORES && ValidOps(ops)
    ensures var t := S.After(s, AllScripts(ops, id, packet));
            && t.exited == !FitsRun(WorldOf(s), ops)
            && (!t.exited ==> WorldOf(t) == DoAll(WorldOf(s), ops) && t.phase.Idle?)
    decreases |ops|
  {
    hide S.After, Fits, DoIn, S.CoreOk, Op.Core, Script;
    if ops == [] {
      NothingDone(s);
    } else {
      var op, rest := ops[0], ops[1..];
      OpIsScript(s, op, id, packet);
      AfterBoth(s, Script(op, id, packet), AllScripts(rest, id, packet));
      var t := S.After(s, Script(op, id, packet));
      if t.exited {
        ExitedStays(t, AllScripts(rest, id, packet));
      } else {
        RunOfOps(t, rest, id, packet);
      }
    }
  }

  lemma NothingDone(s: S.State)
    requires S.Shape(s)
    ensures S.After(s, []) == s
  {
  }

  /** Isolation, of the system itself: the operations of the four cores, in any order, with each core's own
      operations confined to its memory and sending only what the queue takes. The process does not exit,
      and each core is left with the state, memory and output of the run of its own operations. */
  lemma SystemIsolation(own: nat -> nat, s: S.State, ops: seq<Op>, c: nat, id: nat, packet: RxPacket)
    requires S.Shape(s) && s.phase.Idle? && !s.exited && id < CORES && ValidOps(ops) && c < CORES
    requires forall e :: 0 <= e < CORES ==>
               ConfinedRun(own, WorldOf(s), Only(ops, e)) && FitsRun(WorldOf(s), Only(ops, e))
    ensures var all, alone := S.After(s, AllScripts(ops, id, packet)), S.After(s, AllScripts(Only(ops, c), id, packet));
            && !all.exited && !alone.exited && all.phase.Idle? && alone.phase.Idle?
            && all.cores[c] == alone.cores[c]
            && (forall x: nat {:trigger own(x)} :: own(x) == c ==> At(all.mem, x) == At(alone.mem, x))
            && OutOf(all.out, c) == OutOf(alone.out, c)
  {
    hide S.After, AllScripts, DoAll, ConfinedRun, FitsRun, Only, OutOf, S.CoreOk, Separately;
    var w := WorldOf(s);
    EachForItself(own, w, ops);
    ConfinedTogether(own, w, [w, w, w, w], ops);
    CoreProjection(own, w, ops, c);
    RunOfOps(s, ops, id, packet);
    RunOfOps(s, Only(ops, c), id, packet);
  }
}
