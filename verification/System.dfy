/** The whole device as a system of interleaved steps: guest accesses on one side, messages from the
    network on the other (grlib_apbgrspw.c, grlib_coregrspw.c). A register write is followed by a
    call of txenable, which is cut in two by the wait for an acknowledgement; messages may be handled
    at every cut. */
module System {
  import opened BitOps
  import opened Leon3Ram
  import opened Messages
  import opened Registers
  import opened Dma

  /** How far the guest access under way has come. */
  datatype Phase =
    | Idle
    | Calling(core: nat)                      // the register is written, txenable is next
    | Sent(core: nat, pending: Pending)       // the packet is out, the wait is next
    | Waiting(core: nat, pending: Pending)    // waiting for an acknowledgement
    | Woken(core: nat, pending: Pending)      // acknowledged, not resumed yet

  /** What a run has done so far: acknowledgements handled, descriptors released and packets delivered
      with the control word found in the RAM afterwards, time codes accepted; each with the register
      that enables its interrupt. */
  datatype Event =
    | Acked(awaited: bool)
    | Released(core: nat, ctrl: uint32, chn: word)
    | Filled(core: nat, ctrl: uint32, chn: word)
    | Ticked(core: nat, ctr: word)

  datatype State = State(cores: seq<Dev>, mem: Mem, out: seq<Packet>, phase: Phase, log: seq<Event>, exited: bool)

  datatype Action =
    | GuestWrite(addr: nat, value: word)
    | GuestStore(addr: nat, bytes: seq<byte>)
    | TxFirst
    | EnterWait
    | TxSecond
    | Receive(id: nat, pword: byte, packet: RxPacket)

  function CoreOf(addr: nat): (c: nat)
    ensures c < CORES
  {
    addr / 0x100 % 4
  }

  function OffsetOf(addr: nat): nat {
    addr % 0x100
  }

  predicate InFlight(p: Phase) {
    p.Sent? || p.Waiting? || p.Woken?
  }

  predicate PhaseOk(p: Phase) {
    (p.Idle? || p.core < CORES) && (InFlight(p) ==> p.pending.slot < TX_SLOTS)
  }

  predicate CoreOk(c: nat, d: Dev) {
    DevOk(d) && d.id == c
  }

  predicate Shape(s: State) {
    && |s.cores| == CORES && PhaseOk(s.phase)
    && (forall c :: 0 <= c < CORES ==> CoreOk(c, s.cores[c]))
  }

  predicate Delivers(d: Dev, m: Mem, p: RxPacket) {
    RxAccepts(d.regs, p) && CheckBit(d.regs.chn, CHN_RD) && RxLoad(m, d.regs.rxd).Enabled()
  }

  // ---- the steps ----

  function DoWrite(s: State, addr: nat, v: word): (r: State)
    requires Shape(s)
    ensures Shape(r)
  {
    var c, d := CoreOf(addr), s.cores[CoreOf(addr)];
    if !s.phase.Idle? then s
    else
      s.(cores := s.cores[c := WriteDev(d, OffsetOf(addr), v)],
         out := s.out + Timecodes(c, SentTimecode(c, d.regs, OffsetOf(addr), v)),
         phase := Calling(c))
  }

  function DoFirst(s: State): (r: State)
    requires Shape(s)
    ensures Shape(r)
  {
    if !s.phase.Calling? then s
    else
      var c := s.phase.core;
      match TxBegin(s.cores[c], s.mem)
      case Stopped(d) => s.(cores := s.cores[c := d], phase := Idle)
      case Started(d, packet, pending) =>
        if packet.FrameLength() > MAX_MESSAGE then s.(exited := true)
        else s.(cores := s.cores[c := d], out := s.out + [packet], phase := Sent(c, pending))
  }

  function DoSecond(s: State): (r: State)
    requires Shape(s)
    ensures Shape(r)
  {
    if !s.phase.Woken? then s
    else
      var c, p := s.phase.core, s.phase.pending;
      var d := s.cores[c];
      var mem := TxFinishMem(d, s.mem, p);
      s.(cores := s.cores[c := TxFinishDev(d, p)], mem := mem, phase := Idle,
         log := s.log + [Released(c, ReadWord(mem, p.addr), d.regs.chn)])
  }

  function DoAck(s: State): (r: State)
    requires Shape(s)
    ensures Shape(r)
  {
    s.(log := s.log + [Acked(s.phase.Waiting?)],
       phase := if s.phase.Waiting? then Woken(s.phase.core, s.phase.pending) else s.phase)
  }

  function DoData(s: State, c: nat, p: RxPacket): (r: State)
    requires Shape(s) && c < CORES
    ensures Shape(r)
  {
    var d := s.cores[c];
    var mem := RxMem(d, s.mem, p);
    s.(cores := s.cores[c := RxDev(d, s.mem, p)], mem := mem,
       log := s.log + if Delivers(d, s.mem, p) then [Filled(c, ReadWord(mem, d.regs.rxd), d.regs.chn)] else [])
  }

  function DoTime(s: State, c: nat, code: byte): (r: State)
    requires Shape(s) && c < CORES
    ensures Shape(r)
  {
    var d := s.cores[c];
    s.(cores := s.cores[c := RxTimecode(d, code)],
       log := s.log + if d.regs.tim < code as int then [Ticked(c, d.regs.ctr)] else [])
  }

  /** An action that is not possible changes nothing; after the process has exited none is. */
  function Step(s: State, a: Action): (r: State)
    requires Shape(s)
    ensures Shape(r)
  {
    if s.exited then s
    else
      match a
      case GuestWrite(addr, v) => DoWrite(s, addr, v)
      case GuestStore(addr, bytes) => s.(mem := Write(s.mem, addr, bytes))
      case TxFirst => DoFirst(s)
      case EnterWait => if s.phase.Sent? then s.(phase := Waiting(s.phase.core, s.phase.pending)) else s
      case TxSecond => DoSecond(s)
      case Receive(id, pword, packet) =>
        if id >= CORES then s.(exited := true)
        else if pword == ACK then DoAck(s)
        else if pword == DATA then DoData(s, id, packet)
        else if pword == TIME then DoTime(s, id, packet.first)
        else s
  }

  function After(s: State, acts: seq<Action>): (r: State)
    requires Shape(s)
    ensures Shape(r)
    decreases |acts|
  {
    if acts == [] then s else Step(After(s, acts[..|acts| - 1]), acts[|acts| - 1])
  }

  /** Devices in zeroed memory, each then reset. */
  function InitCore(c: nat): Dev {
    var d := Zeroed(c);
    d.(regs := Reset(c, d.regs))
  }

  function Init(mem: Mem): (s: State)
    ensures Shape(s)
  {
    State(seq(CORES, c requires 0 <= c < CORES => InitCore(c)), mem, [], Idle, [], false)
  }
}
