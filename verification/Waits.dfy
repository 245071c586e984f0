/** When a transmission under way is completed: exactly which sequences of actions release its
    descriptor. */
module Waits {
  import opened Messages
  import opened Dma
  import opened System
  import opened Runs

  /** A message for a core that does not exist ends the process. */
  predicate Exits(a: Action) {
    a.Receive? && a.id >= CORES
  }

  predicate Survives(acts: seq<Action>) {
    forall i :: 0 <= i < |acts| ==> !Exits(acts[i])
  }

  // What a transmission at phase p still needs, one thing after the other: its wait, an
  // acknowledgement during the wait, and its resumption.

  predicate HasWaited(p: Phase, acts: seq<Action>) {
    p.Sent? ==> EnterWait in acts
  }

  /** An acknowledgement with the wait before it. */
  predicate Awaited(p: Phase, acts: seq<Action>) {
    p.Woken? || exists i :: 0 <= i < |acts| && IsAck(acts[i]) && HasWaited(p, acts[..i])
  }

  /** A resumption with such an acknowledgement, and nothing that ends the process, before it. */
  predicate Completes(p: Phase, acts: seq<Action>) {
    exists i :: 0 <= i < |acts| && acts[i] == TxSecond && Awaited(p, acts[..i]) && Survives(acts[..i])
  }

  lemma SurvivesMore(acts: seq<Action>, a: Action)
    ensures Survives(acts + [a]) <==> Survives(acts) && !Exits(a)
  {
    if Survives(acts + [a]) {
      assert forall i :: 0 <= i < |acts| ==> acts[i] == (acts + [a])[i];
      assert (acts + [a])[|acts|] == a;
    }
  }

  lemma AwaitedMore(p: Phase, acts: seq<Action>, a: Action)
    ensures Awaited(p, acts + [a]) <==> Awaited(p, acts) || (IsAck(a) && HasWaited(p, acts))
  {
    var more := acts + [a];
    assert forall i :: 0 <= i <= |acts| ==> more[..i] == acts[..i];
    assert more[|acts|] == a && acts[..|acts|] == acts;
    if Awaited(p, acts) && !p.Woken? {
      var i :| 0 <= i < |acts| && IsAck(acts[i]) && HasWaited(p, acts[..i]);
      assert more[i] == acts[i] && more[..i] == acts[..i];
    }
    if Awaited(p, more) && !p.Woken? {
      var i :| 0 <= i < |more| && IsAck(more[i]) && HasWaited(p, more[..i]);
      if i < |acts| {
        assert IsAck(acts[i]) && HasWaited(p, acts[..i]);
      }
    }
  }

  lemma CompletesMore(p: Phase, acts: seq<Action>, a: Action)
    ensures Completes(p, acts + [a]) <==> Completes(p, acts) || (a == TxSecond && Awaited(p, acts) && Survives(acts))
  {
    hide Awaited, Survives;
    var more := acts + [a];
    assert forall i :: 0 <= i <= |acts| ==> more[..i] == acts[..i];
    assert more[|acts|] == a && acts[..|acts|] == acts;
    if Completes(p, acts) {
      var i :| 0 <= i < |acts| && acts[i] == TxSecond && Awaited(p, acts[..i]) && Survives(acts[..i]);
      assert more[i] == TxSecond && Awaited(p, more[..i]) && Survives(more[..i]);
    }
    if Completes(p, more) {
      var i :| 0 <= i < |more| && more[i] == TxSecond && Awaited(p, more[..i]) && Survives(more[..i]);
      if i < |acts| {
        assert acts[i] == TxSecond && Awaited(p, acts[..i]) && Survives(acts[..i]);
      }
    }
  }

  /** The phase of a transmission that is not completed yet. */
  function PhaseAfter(p: Phase, acts: seq<Action>): Phase
    requires InFlight(p)
  {
    if Awaited(p, acts) then Woken(p.core, p.pending)
    else if HasWaited(p, acts) then Waiting(p.core, p.pending)
    else p
  }

  /** The transmission of state s after some actions: not released yet, or the next to be released. */
  predicate Outcome(s: State, acts: seq<Action>, t: State)
    requires InFlight(s.phase)
  {
    if Completes(s.phase, acts) then
      ReleasedCores(s.log) + [s.phase.core] <= ReleasedCores(t.log)
    else
      && ReleasedCores(t.log) == ReleasedCores(s.log) && t.exited == !Survives(acts)
      && (Survives(acts) ==> t.phase == PhaseAfter(s.phase, acts))
  }

  lemma ReleasesGrow(s: State, a: Action)
    requires Shape(s)
    ensures ReleasedCores(s.log) <= ReleasedCores(Step(s, a).log)
    ensures !s.exited && a == TxSecond && s.phase.Woken? ==>
        ReleasedCores(Step(s, a).log) == ReleasedCores(s.log) + [s.phase.core]
    ensures s.exited || a != TxSecond || !s.phase.Woken? ==> ReleasedCores(Step(s, a).log) == ReleasedCores(s.log)
  {
    hide WriteDev, TxBegin, TxFinishDev, RxDev, RxMem, RxTimecode, Delivers, TxFinishMem, ReleasedCores,
        Packet.FrameLength;
    var s' := Step(s, a);
    if s'.log != s.log {
      assert s'.log == s.log + [s'.log[|s.log|]];
      CountsMore(s.log, s'.log[|s.log|]);
    }
  }

  lemma FlightPhase(s: State, a: Action)
    requires Shape(s) && InFlight(s.phase) && !s.exited
    ensures var s' := Step(s, a);
            && s'.exited == Exits(a)
            && (!Exits(a) && !(a == TxSecond && s.phase.Woken?) ==>
                  s'.phase == if s.phase.Sent? && a == EnterWait then Waiting(s.phase.core, s.phase.pending)
                              else if s.phase.Waiting? && IsAck(a) then Woken(s.phase.core, s.phase.pending)
                              else s.phase)
  {
    hide WriteDev, TxBegin, TxFinishDev, RxDev, RxMem, RxTimecode, Delivers, TxFinishMem, Packet.FrameLength;
  }

  lemma OutcomeStep(s: State, acts: seq<Action>, t: State, a: Action)
    requires Shape(s) && Shape(t) && InFlight(s.phase) && Outcome(s, acts, t)
    ensures Outcome(s, acts + [a], Step(t, a))
  {
    hide Step, Completes, Awaited, Survives, ReleasedCores;
    ReleasesGrow(t, a);
    SurvivesMore(acts, a);
    AwaitedMore(s.phase, acts, a);
    CompletesMore(s.phase, acts, a);
    if !Completes(s.phase, acts) {
      if t.exited {
        ExitStays(t, a);
      } else {
        FlightPhase(t, a);
      }
    }
  }

  lemma ExitStays(t: State, a: Action)
    requires Shape(t) && t.exited
    ensures Step(t, a) == t
  {
  }

  lemma {:induction false} OutcomeOf(s: State, acts: seq<Action>)
    requires Shape(s) && InFlight(s.phase) && !s.exited
    ensures Outcome(s, acts, After(s, acts))
    decreases |acts|
  {
    hide Step, ReleasedCores;
    if acts != [] {
      var before, last := acts[..|acts| - 1], acts[|acts| - 1];
      assert before + [last] == acts;
      OutcomeOf(s, before);
      hide Outcome;
      OutcomeStep(s, before, After(s, before), last);
    }
  }

  /** A transmission that has been sent, waits or is woken releases its descriptor in the course of any
      further actions if and only if they contain, in this order, what it still needs: its wait, an
      acknowledgement, its resumption, with no message before that ends the process. As long as it does
      not, nothing at all is released, and its phase is the one the actions have brought it to. */
  lemma ReleasedExactlyWhen(s: State, acts: seq<Action>)
    requires Shape(s) && InFlight(s.phase) && !s.exited
    ensures var t := After(s, acts);
            && (Completes(s.phase, acts) <==> |ReleasedCores(t.log)| > |ReleasedCores(s.log)|)
            && (Completes(s.phase, acts) ==> ReleasedCores(s.log) + [s.phase.core] <= ReleasedCores(t.log))
            && (!Completes(s.phase, acts) ==>
                  && ReleasedCores(t.log) == ReleasedCores(s.log) && t.exited == !Survives(acts)
                  && (Survives(acts) ==> t.phase == PhaseAfter(s.phase, acts)))
  {
    hide ReleasedCores, Completes, Survives, PhaseAfter, After;
    OutcomeOf(s, acts);
  }

  /** The same told by positions: for a packet that has just been sent, its wait at some i, an
      acknowledgement at some j after it and its resumption at some k after that. */
  lemma SentCompletes(p: Phase, acts: seq<Action>)
    requires p.Sent?
    ensures Completes(p, acts) <==>
            exists i, j, k :: 0 <= i < j < k < |acts| && acts[i] == EnterWait && IsAck(acts[j])
                && acts[k] == TxSecond && Survives(acts[..k])
  {
    hide Survives;
    if Completes(p, acts) {
      var k :| 0 <= k < |acts| && acts[k] == TxSecond && Awaited(p, acts[..k]) && Survives(acts[..k]);
      var j :| 0 <= j < k && IsAck(acts[..k][j]) && HasWaited(p, acts[..k][..j]);
      var i :| 0 <= i < j && acts[..k][..j][i] == EnterWait;
      assert acts[i] == EnterWait && IsAck(acts[j]);
    }
    if i, j, k :|
        0 <= i < j < k < |acts| && acts[i] == EnterWait && IsAck(acts[j]) && acts[k] == TxSecond &&
        Survives(acts[..k]) {
      assert acts[..k][..j][i] == EnterWait;
      assert IsAck(acts[..k][j]) && HasWaited(p, acts[..k][..j]);
      assert Awaited(p, acts[..k]);
    }
  }

  lemma WaitingCompletes(p: Phase, acts: seq<Action>)
    requires p.Waiting?
    ensures Completes(p, acts) <==>
            exists j, k :: 0 <= j < k < |acts| && IsAck(acts[j]) && acts[k] == TxSecond && Survives(acts[..k])
  {
    hide Survives;
    if Completes(p, acts) {
      var k :| 0 <= k < |acts| && acts[k] == TxSecond && Awaited(p, acts[..k]) && Survives(acts[..k]);
      var j :| 0 <= j < k && IsAck(acts[..k][j]);
      assert IsAck(acts[j]);
    }
    if j, k :| 0 <= j < k < |acts| && IsAck(acts[j]) && acts[k] == TxSecond && Survives(acts[..k]) {
      assert IsAck(acts[..k][j]) && HasWaited(p, acts[..k][..j]);
      assert Awaited(p, acts[..k]);
    }
  }

  /** An acknowledgement that comes before the wait is lost: it counts for nothing afterwards. The
      descriptor is released exactly if another acknowledgement comes and the transmission resumes
      after it; without one the transmission waits, whatever else happens, and the guest access does
      not end. */
  lemma EarlyAckIsLost(s: State, id: nat, packet: RxPacket, acts: seq<Action>)
    requires Shape(s) && s.phase.Sent? && !s.exited && id < CORES
    ensures var w, t := Waiting(s.phase.core, s.phase.pending),
        After(After(s, [Receive(id, ACK, packet), EnterWait]), acts);
            && (|ReleasedCores(t.log)| > |ReleasedCores(s.log)| <==> Completes(w, acts))
            && ((forall a :: a in acts ==> !IsAck(a)) ==> t.phase == w && ReleasedCores(t.log) == ReleasedCores(s.log))
  {
    hide After, ReleasedCores, Step, Survives;
    var a, early := Receive(id, ACK, packet), [Receive(id, ACK, packet), EnterWait];
    AfterNothing(s);
    AfterMore(s, [], a);
    AfterMore(s, [a], EnterWait);
    assert [] + [a] == [a] && [a] + [EnterWait] == early;
    AckThenWait(s, id, packet);
    var s1 := After(s, early);
    ReleasedExactlyWhen(s1, acts);
    if forall a :: a in acts ==> !IsAck(a) {
      WaitsForAck(s1, acts);
      WaitingCompletes(s1.phase, acts);
    }
  }

  lemma AfterNothing(s: State)
    requires Shape(s)
    ensures After(s, []) == s
  {
  }

  lemma AckThenWait(s: State, id: nat, packet: RxPacket)
    requires Shape(s) && s.phase.Sent? && !s.exited && id < CORES
    ensures var t := Step(Step(s, Receive(id, ACK, packet)), EnterWait);
            t.phase == Waiting(s.phase.core, s.phase.pending) && !t.exited
                && ReleasedCores(t.log) == ReleasedCores(s.log)
  {
    hide ReleasedCores;
    CountsMore(s.log, Acked(false));
  }
}
