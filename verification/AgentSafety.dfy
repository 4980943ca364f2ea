/** What holds in every reachable state of the agent session, and between any two states of one
    run, whatever the interleaving of calls, transports, the cleanup and the environment. */
module AgentSafety {
  import opened AgentProtocol
  import opened AgentInvariants
  import opened ProcessEvents
  import opened Wrappers

  // ---------- answers come from the call's own line ----------

  /** An answer was read, by the call's own transport, from a valid line that bears its id. */
  predicate Answered(s: State, n: nat, outcome: Outcome) {
    outcome.Answer? ==>
      && outcome.serial in s.transports
      && s.transports[outcome.serial] == Transport(n, Finished(Read(Envelope(outcome.lineID, true))))
      && outcome.lineID == WireID(outcome.serial)
  }

  predicate PhaseAnswered(s: State, n: nat, phase: Phase) {
    match phase
    case Releasing(outcome) => Answered(s, n, outcome)
    case Parsing(outcome) => Answered(s, n, outcome)
    case Returned(outcome) => Answered(s, n, outcome)
    case _ => true
  }

  ghost predicate Answers(s: State) {
    forall n | n in s.calls :: PhaseAnswered(s, n, s.calls[n].phase)
  }

  lemma CallKeepsAnswers(s: State, n: nat, step: CallStep)
    requires Transports(s) && Answers(s) && CallEnabled(s, n, step)
    ensures Answers(CallApply(s, n, step))
  {
    var s' := CallApply(s, n, step);
    if n in s.calls {
      assert PhaseAnswered(s, n, s.calls[n].phase) && PhaseTransports(s, n, s.calls[n].phase);
    }
    assert PhaseAnswered(s', n, CallPhase(s, n, step));
    forall m | m in s'.calls ensures PhaseAnswered(s', m, s'.calls[m].phase) {
      if m != n {
        assert PhaseAnswered(s, m, s.calls[m].phase);
      }
    }
  }

  lemma CleanupKeepsAnswers(s: State, n: nat, step: CleanupStep)
    requires Answers(s) && CleanupEnabled(s, n, step)
    ensures Answers(CleanupApply(s, n, step))
  {
    var s' := CleanupApply(s, n, step);
    CleanupFrame(s, n, step);
    CleanupTies(s, n, step);
    assert PhaseAnswered(s', n, CleanupPhase(s, n, step));
    forall m | m in s'.calls ensures PhaseAnswered(s', m, s'.calls[m].phase) {
      if m != n {
        assert PhaseAnswered(s, m, s.calls[m].phase);
      }
    }
  }

  lemma TransportKeepsAnswers(s: State, k: nat, step: TransportStep)
    requires Answers(s) && TransportEnabled(s, k, step)
    ensures Answers(TransportApply(s, k, step))
  {
    var s' := TransportApply(s, k, step);
    forall m | m in s'.calls ensures PhaseAnswered(s', m, s'.calls[m].phase) {
      assert PhaseAnswered(s, m, s.calls[m].phase);
    }
  }

  // ---------- calls that never began leave no trace ----------

  ghost predicate Traces(s: State) {
    s.owner.Some? ==> s.owner.value in s.calls && !NotYet(s.calls[s.owner.value].phase)
  }

  lemma StaysTouched(s: State, n: nat, step: CallStep)
    requires CallEnabled(s, n, step) && n in s.calls && !NotYet(s.calls[n].phase)
    ensures !NotYet(CallPhase(s, n, step))
  {
  }

  lemma CallKeepsTraces(s: State, n: nat, step: CallStep)
    requires Traces(s) && CallEnabled(s, n, step)
    ensures Traces(CallApply(s, n, step))
  {
    hide CallPhase, CallEffect;
    CallFrame(s, n, step);
    var s' := CallApply(s, n, step);
    assert s'.owner == s.owner;
    if n in s.calls && !NotYet(s.calls[n].phase) {
      StaysTouched(s, n, step);
    }
  }

  lemma CleanupKeepsTraces(s: State, n: nat, step: CleanupStep)
    requires Traces(s) && CleanupEnabled(s, n, step)
    ensures Traces(CleanupApply(s, n, step))
  {
    CleanupTies(s, n, step);
  }

  // ---------- the invariant ----------

  ghost predicate Inv(s: State) {
    && Ownership(s) && OneWait(s) && Troubles(s) && Reports(s)
    && Slot(s) && Transports(s)
    && Wire(s) && FirstLineOnly(s)
    && Answers(s) && Traces(s)
  }

  lemma CallKeepsWire(s: State, n: nat, step: CallStep)
    requires Transports(s) && Wire(s) && FirstLineOnly(s) && CallEnabled(s, n, step)
    ensures Wire(CallApply(s, n, step)) && FirstLineOnly(CallApply(s, n, step))
  {
    var s' := CallApply(s, n, step);
    if step.Launch? {
      var serial := s.calls[n].phase.serial;
      assert PhaseTransports(s, n, s.calls[n].phase);
      assert serial !in s.transports;
      forall k | k in s.transports ensures s'.transports[k] == s.transports[k] {
      }
    } else {
      assert s'.transports == s.transports;
    }
  }

  lemma CleanupKeepsWire(s: State, n: nat, step: CleanupStep)
    requires Wire(s) && FirstLineOnly(s) && CleanupEnabled(s, n, step)
    ensures Wire(CleanupApply(s, n, step)) && FirstLineOnly(CleanupApply(s, n, step))
  {
    hide CleanupPhase, CleanupEffect;
    CleanupFrame(s, n, step);
  }

  lemma CallKeepsInv(s: State, n: nat, step: CallStep)
    requires Inv(s) && CallEnabled(s, n, step)
    ensures Inv(CallApply(s, n, step))
  {
    hide CallApply, Ownership, OneWait, Troubles, Reports, Slot, Transports, Wire, FirstLineOnly, Answers, Traces;
    CallKeepsOwnership(s, n, step);
    CallKeepsTroubles(s, n, step);
    CallKeepsReports(s, n, step);
    CallKeepsSlot(s, n, step);
    CallKeepsTransports(s, n, step);
    CallKeepsWire(s, n, step);
    CallKeepsAnswers(s, n, step);
    CallKeepsTraces(s, n, step);
  }

  lemma CleanupKeepsInv(s: State, n: nat, step: CleanupStep)
    requires Inv(s) && CleanupEnabled(s, n, step)
    ensures Inv(CleanupApply(s, n, step))
  {
    hide CleanupApply, Ownership, OneWait, Troubles, Reports, Slot, Transports, Wire, FirstLineOnly, Answers, Traces;
    CleanupKeepsOwnership(s, n, step);
    CleanupKeepsTroubles(s, n, step);
    CleanupKeepsReports(s, n, step);
    CleanupKeepsSlot(s, n, step);
    CleanupKeepsTransports(s, n, step);
    CleanupKeepsWire(s, n, step);
    CleanupKeepsAnswers(s, n, step);
    CleanupKeepsTraces(s, n, step);
  }

  lemma TransportKeepsCleanup(s: State, k: nat, step: TransportStep)
    requires Ownership(s) && OneWait(s) && Troubles(s) && Reports(s) && Slot(s) && Traces(s) && TransportEnabled(s, k, step)
    ensures var s' := TransportApply(s, k, step);
      Ownership(s') && OneWait(s') && Troubles(s') && Reports(s') && Slot(s') && Traces(s')
  {
    hide NextTransfer;
    var s' := TransportApply(s, k, step);
    forall n | n in s'.calls ensures OwnerPhase(s', n, s'.calls[n].phase) && Carries(s', s'.calls[n].phase) && Report(s', s'.calls[n].phase) {
      assert OwnerPhase(s, n, s.calls[n].phase) && Carries(s, s.calls[n].phase) && Report(s, s.calls[n].phase);
    }
    forall n | n in s'.calls ensures Holds(s'.calls[n].phase) <==> s'.slot == Some(n) {
      assert Holds(s.calls[n].phase) <==> s.slot == Some(n);
    }
  }

  lemma TransportKeepsInv(s: State, k: nat, step: TransportStep)
    requires Inv(s) && TransportEnabled(s, k, step)
    ensures Inv(TransportApply(s, k, step))
  {
    hide TransportApply, Ownership, OneWait, Troubles, Reports, Slot, Transports, Wire, FirstLineOnly, Answers, Traces;
    TransportKeepsCleanup(s, k, step);
    TransportKeepsTransports(s, k, step);
    TransportKeepsWire(s, k, step);
    TransportKeepsFirstLine(s, k, step);
    TransportKeepsAnswers(s, k, step);
  }

  lemma WorldKeepsTransports(s: State, step: WorldStep)
    requires Transports(s) && WorldEnabled(s, step)
    ensures Transports(WorldApply(s, step))
  {
    var s' := WorldApply(s, step);
    assert s'.transports == s.transports && s'.calls == s.calls && s'.issued == s.issued && s'.closed == s.closed;
    forall k | k in s'.transports ensures Started(s', k) && (Runs(s', k) ==> Running(s', k)) {
      assert Started(s, k) && (Runs(s, k) ==> Running(s, k));
    }
    forall j, k | Runs(s', j) && Runs(s', k) ensures j == k {
      assert Runs(s, j) && Runs(s, k);
    }
    forall n | n in s'.calls ensures PhaseTransports(s', n, s'.calls[n].phase) {
      assert PhaseTransports(s, n, s.calls[n].phase);
      forall k | Runs(s', k) ensures Runs(s, k) {
      }
    }
  }

  lemma WorldKeepsCleanup(s: State, step: WorldStep)
    requires Ownership(s) && OneWait(s) && Troubles(s) && Reports(s) && WorldEnabled(s, step)
    ensures var s' := WorldApply(s, step); Ownership(s') && OneWait(s') && Troubles(s') && Reports(s')
  {
    var s' := WorldApply(s, step);
    forall n | n in s'.calls ensures OwnerPhase(s', n, s'.calls[n].phase) && Carries(s', s'.calls[n].phase) && Report(s', s'.calls[n].phase) {
      assert OwnerPhase(s, n, s.calls[n].phase) && Carries(s, s.calls[n].phase) && Report(s, s.calls[n].phase);
    }
  }

  lemma WorldKeepsInv(s: State, step: WorldStep)
    requires Inv(s) && WorldEnabled(s, step)
    ensures Inv(WorldApply(s, step))
  {
    hide Ownership, OneWait, Troubles, Reports, Transports;
    WorldKeepsCleanup(s, step);
    WorldKeepsTransports(s, step);
    var s' := WorldApply(s, step);
    forall n | n in s'.calls ensures PhaseAnswered(s', n, s'.calls[n].phase) {
      assert PhaseAnswered(s, n, s.calls[n].phase);
    }
  }

  lemma StepKeepsInv(s: State, step: Step)
    requires Inv(s) && Enabled(s, step)
    ensures Inv(Apply(s, step))
  {
    hide Inv, CallApply, CleanupApply, TransportApply, WorldApply;
    match step
    case CallMoves(n, c) => CallKeepsInv(s, n, c);
    case CleanupMoves(n, e) => CleanupKeepsInv(s, n, e);
    case TransportMoves(k, t) => TransportKeepsInv(s, k, t);
    case WorldMoves(w) => WorldKeepsInv(s, w);
  }

  lemma {:induction false} RunKeepsInv(s: State, steps: seq<Step>, s': State)
    requires Inv(s) && Leads(s, steps, s')
    ensures Inv(s')
    decreases |steps|
  {
    hide Inv, Enabled, Apply;
    if steps != [] {
      StepKeepsInv(s, steps[0]);
      RunKeepsInv(Apply(s, steps[0]), steps[1..], s');
    }
  }

  lemma InitInv(s: State)
    requires Init(s)
    ensures Inv(s)
  {
  }

  lemma ReachableInv(s: State)
    requires Reachable(s)
    ensures Inv(s)
  {
    hide Inv;
    var s0, steps :| Init(s0) && Leads(s0, steps, s);
    InitInv(s0);
    RunKeepsInv(s0, steps, s);
  }

  // ---------- the cleanup ----------

  /** At most one call ever takes the command, the cleanup has at most one owner, which is inside
      it only while it is unfinished, and a call that never started a transport is not the owner. */
  lemma OneOwner(s: State)
    requires Reachable(s)
    ensures |s.taken| <= 1
    ensures forall n | n in s.taken :: s.owner == Some(n)
    ensures forall n | n in s.calls && Owns(s.calls[n].phase) :: s.owner == Some(n) && !s.done
    ensures forall n | n in s.calls && NotYet(s.calls[n].phase) :: s.owner != Some(n)
  {
    ReachableInv(s);
    forall n | n in s.calls && Owns(s.calls[n].phase) ensures s.owner == Some(n) && !s.done {
      assert OwnerPhase(s, n, s.calls[n].phase);
    }
  }

  /** Whoever returns a terminal error or the result of Close or Cancel has ended the session, and
      unless it says "still pending" the cleanup is done. */
  lemma ReportsAreBacked(s: State, n: nat, cleanup: Cleanup)
    requires Reachable(s) && n in s.calls
    requires s.calls[n].phase == Returned(Terminal(cleanup)) || s.calls[n].phase == Returned(Ended(cleanup))
    ensures s.closed && s.owner.Some?
    ensures cleanup != Pending ==> s.done
  {
    ReachableInv(s);
    assert Report(s, s.calls[n].phase);
  }

  /** A call that reports success of the cleanup does so after the cleanup ended, with the process
      ended and reaped without trouble, no stored failure and the policy directory gone. */
  lemma CleanIsConfirmed(s: State, n: nat)
    requires Reachable(s) && n in s.calls
    requires s.calls[n].phase == Returned(Terminal(Clean)) || s.calls[n].phase == Returned(Ended(Clean))
    ensures s.done && !s.failure && !s.policy && !s.dir
    ensures !s.trouble && (s.taken != [] ==> s.wait == Reaped)
  {
    ReachableInv(s);
    assert Report(s, s.calls[n].phase);
  }

  /** When the cleanup is done, the stored failure says exactly whether it met trouble. */
  lemma FailureIsTrouble(s: State)
    requires Reachable(s) && s.done
    ensures s.failure <==> s.trouble
    ensures !s.failure && s.taken != [] ==> s.wait == Reaped
  {
    ReachableInv(s);
  }

  /** What never changes back: the end of the session, the end of the cleanup, its stored failure
      and the removal of the policy directory. */
  predicate Sticky(s: State, s': State) {
    && (s.closed ==> s'.closed)
    && (s.started ==> s'.started && s'.owner == s.owner && s'.taken == s.taken)
    && (s.done ==> s'.done && s'.failure == s.failure)
    && (!s.policy ==> !s'.policy)
    && s.written <= s'.written
  }

  lemma CleanupSticks(s: State, n: nat, step: CleanupStep)
    requires Ownership(s) && CleanupEnabled(s, n, step)
    ensures Sticky(s, CleanupApply(s, n, step))
  {
    assert OwnerPhase(s, n, s.calls[n].phase);
  }

  lemma CallSticks(s: State, n: nat, step: CallStep)
    requires CallEnabled(s, n, step)
    ensures Sticky(s, CallApply(s, n, step))
  {
    hide CallPhase, CallEffect;
    CallFrame(s, n, step);
  }

  lemma TransportSticks(s: State, k: nat, step: TransportStep)
    requires TransportEnabled(s, k, step)
    ensures Sticky(s, TransportApply(s, k, step))
  {
    hide NextTransfer;
  }

  lemma WorldSticks(s: State, step: WorldStep)
    requires WorldEnabled(s, step)
    ensures Sticky(s, WorldApply(s, step))
  {
  }

  lemma StepSticks(s: State, step: Step)
    requires Ownership(s) && Enabled(s, step)
    ensures Sticky(s, Apply(s, step))
  {
    hide CallApply, CleanupApply, TransportApply, WorldApply, Ownership, Sticky;
    match step
    case CallMoves(n, c) => CallSticks(s, n, c);
    case CleanupMoves(n, e) => CleanupSticks(s, n, e);
    case TransportMoves(k, t) => TransportSticks(s, k, t);
    case WorldMoves(w) => WorldSticks(s, w);
  }

  lemma {:induction false} RunSticks(s: State, steps: seq<Step>, s': State)
    requires Inv(s) && Leads(s, steps, s')
    ensures Sticky(s, s')
    decreases |steps|
  {
    hide Enabled, Apply, Ownership, OneWait, Troubles, Reports, Slot, Transports, Wire, FirstLineOnly, Answers, Traces;
    if steps != [] {
      StepKeepsInv(s, steps[0]);
      StepSticks(s, steps[0]);
      RunSticks(Apply(s, steps[0]), steps[1..], s');
    }
  }

  /** Once the cleanup is done its verdict is final: the stored failure never changes, and a caller
      that reported success stays right in every later state. */
  lemma VerdictIsFinal(s: State, steps: seq<Step>, s': State)
    requires Reachable(s) && Leads(s, steps, s')
    ensures s.done ==> s'.done && s'.failure == s.failure
    ensures Confirmed(s) ==> Confirmed(s')
    ensures s.closed ==> s'.closed
    ensures s.started ==> s'.owner == s.owner && s'.taken == s.taken
  {
    ReachableInv(s);
    RunSticks(s, steps, s');
  }

  /** No signal follows the start of Wait, and while a signal can still come nothing has been reaped. */
  lemma SignalBeforeReap(s: State)
    requires Reachable(s)
    ensures SignalsBeforeWait(s.log)
    ensures forall n | n in s.calls && BeforeWait(s.calls[n].phase) :: s.wait == NotStarted
  {
    ReachableInv(s);
    forall n | n in s.calls && BeforeWait(s.calls[n].phase) ensures s.wait == NotStarted {
      assert OwnerPhase(s, n, s.calls[n].phase);
    }
  }

  /** Of the three tests an exchange makes on admission, the missing command decides alone: a closed
      session has none, and a process that was waited for is never still recorded. */
  lemma MissingCommandDecides(s: State, n: nat)
    requires Reachable(s) && CallEnabled(s, n, Look)
    ensures CallPhase(s, n, Look) == Releasing(Crashed) <==> !s.command
  {
    ReachableInv(s);
  }

  // ---------- the wire ----------

  /** At most one transport uses the pipes; when one does although the slot is free, the session is
      closed. The slot has at most one holder. */
  lemma OneTransport(s: State)
    requires Reachable(s)
    ensures forall j, k | Runs(s, j) && Runs(s, k) :: j == k
    ensures forall k | Runs(s, k) && s.slot == None :: s.closed
    ensures forall m, n | m in s.calls && n in s.calls && Holds(s.calls[m].phase) && Holds(s.calls[n].phase) :: m == n
  {
    ReachableInv(s);
    forall k | Runs(s, k) && s.slot == None ensures s.closed {
      assert Running(s, k);
      if !s.closed {
        assert Holds(s.calls[s.transports[k].call].phase);
      }
    }
    forall m, n | m in s.calls && n in s.calls && Holds(s.calls[m].phase) && Holds(s.calls[n].phase) ensures m == n {
      assert s.slot == Some(m) && s.slot == Some(n);
    }
  }

  /** The acknowledgement is skipped at most once and only as the first line of the session. */
  lemma AckOnlyFirst(s: State)
    requires Reachable(s)
    ensures s.skipped == [] || s.skipped == [0]
  {
    ReachableInv(s);
  }

  /** An exchange returns a result only from a line that its own transport read and that bears its id. */
  lemma AnswerIsOwn(s: State, n: nat, serial: nat, id: nat)
    requires Reachable(s) && n in s.calls && s.calls[n].phase == Returned(Answer(serial, id))
    ensures id == WireID(serial)
    ensures serial in s.transports
    ensures s.transports[serial] == Transport(n, Finished(Read(Envelope(id, true))))
  {
    ReachableInv(s);
    assert PhaseAnswered(s, n, s.calls[n].phase);
  }

  /** A call that gave up before it had the slot, found the session over or could not encode its
      request has started no transport, so none of its bytes is on the wire. */
  lemma UntouchedCall(s: State, n: nat)
    requires Reachable(s) && n in s.calls && NotYet(s.calls[n].phase)
    ensures forall k | k in s.transports :: s.transports[k].call != n
    ensures forall i | 0 <= i < |s.written| :: s.written[i] in s.transports && s.transports[s.written[i]].call != n
  {
    ReachableInv(s);
    forall k | k in s.transports ensures s.transports[k].call != n {
      assert Started(s, k);
    }
  }

  /** The session is closed and call `n` has not got as far as an id. */
  ghost predicate Barred(s: State, n: nat) {
    && s.closed
    && (n in s.calls ==> !s.calls[n].phase.Prepared?)
    && forall k | k in s.transports :: s.transports[k].call != n
  }

  lemma CallKeepsBarred(s: State, m: nat, step: CallStep, n: nat)
    requires Ownership(s) && CallEnabled(s, m, step) && Barred(s, n)
    ensures Barred(CallApply(s, m, step), n)
  {
  }

  lemma CleanupKeepsBarred(s: State, m: nat, step: CleanupStep, n: nat)
    requires CleanupEnabled(s, m, step) && Barred(s, n)
    ensures Barred(CleanupApply(s, m, step), n)
  {
    CleanupFrame(s, m, step);
    CleanupTies(s, m, step);
    hide CleanupPhase, CleanupEffect;
  }

  lemma TransportKeepsBarred(s: State, k: nat, step: TransportStep, n: nat)
    requires TransportEnabled(s, k, step) && Barred(s, n)
    ensures Barred(TransportApply(s, k, step), n)
  {
    hide NextTransfer;
  }

  lemma WorldKeepsBarred(s: State, step: WorldStep, n: nat)
    requires WorldEnabled(s, step) && Barred(s, n)
    ensures Barred(WorldApply(s, step), n)
  {
  }

  lemma StepKeepsBarred(s: State, step: Step, n: nat)
    requires Ownership(s) && Enabled(s, step) && Barred(s, n)
    ensures Barred(Apply(s, step), n)
  {
    hide CallApply, CleanupApply, TransportApply, WorldApply, Ownership, Barred;
    match step
    case CallMoves(m, c) => CallKeepsBarred(s, m, c, n);
    case CleanupMoves(m, e) => CleanupKeepsBarred(s, m, e, n);
    case TransportMoves(k, t) => TransportKeepsBarred(s, k, t, n);
    case WorldMoves(w) => WorldKeepsBarred(s, w, n);
  }

  lemma {:induction false} RunKeepsBarred(s: State, steps: seq<Step>, s': State, n: nat)
    requires Inv(s) && Leads(s, steps, s') && Barred(s, n)
    ensures Inv(s') && Barred(s', n)
    decreases |steps|
  {
    hide Barred, Enabled, Apply, Ownership, OneWait, Troubles, Reports, Slot, Transports, Wire, FirstLineOnly, Answers, Traces;
    if steps != [] {
      StepKeepsInv(s, steps[0]);
      StepKeepsBarred(s, steps[0], n);
      RunKeepsBarred(Apply(s, steps[0]), steps[1..], s', n);
    }
  }

  /** After the session has ended, a call that begins or gets the slot later never writes a byte. */
  lemma NoLateBytes(s: State, steps: seq<Step>, s': State, n: nat)
    requires Reachable(s) && Leads(s, steps, s') && s.closed
    requires n !in s.calls || s.calls[n].phase == Queued || s.calls[n].phase == Admitted
    ensures forall i | 0 <= i < |s'.written| ::
      s'.written[i] in s'.transports && s'.transports[s'.written[i]].call != n
  {
    ReachableInv(s);
    forall k | k in s.transports ensures s.transports[k].call != n {
      assert Started(s, k);
    }
    RunKeepsBarred(s, steps, s', n);
  }

  /** The ids of the session's requests, in the order in which their bytes were written, strictly
      increase from one request to the next, if fewer than 2^64 were issued. */
  lemma WireIDsIncrease(s: State, i: nat, j: nat)
    requires Reachable(s) && i < j < |s.written| && s.written[i] != s.written[j]
    requires s.issued < 0x1_0000_0000_0000_0000
    ensures WireID(s.written[i]) < WireID(s.written[j])
  {
    ReachableInv(s);
    var a, b := s.written[i], s.written[j];
    assert Wire(s) && Transports(s);
    assert b in s.transports && Started(s, b);
    hide *;
    assert a < b <= s.issued < 0x1_0000_0000_0000_0000;
    Unwrapped(a);
    Unwrapped(b);
  }

  lemma Unwrapped(serial: nat)
    requires serial < 0x1_0000_0000_0000_0000
    ensures WireID(serial) == serial
  {
  }

  // ---------- a transport can outlive its exchange ----------

  lemma {:induction false} LeadsOn(s: State, steps: seq<Step>, s': State, step: Step)
    requires Leads(s, steps, s') && Enabled(s', step)
    ensures Leads(s, steps + [step], Apply(s', step))
    decreases |steps|
  {
    hide Enabled, Apply;
    if steps == [] {
      assert Leads(Apply(s, step), [], Apply(s', step));
    } else {
      LeadsOn(Apply(s, steps[0]), steps[1..], s', step);
      assert (steps + [step])[1..] == steps[1..] + [step];
    }
  }

  lemma Extend(s: State, step: Step)
    requires Reachable(s) && Enabled(s, step)
    ensures Reachable(Apply(s, step))
  {
    var s0, steps :| Init(s0) && Leads(s0, steps, s);
    LeadsOn(s0, steps, s, step);
  }

  /** One step of call `n` as a run goes on, and what it leaves alone. */
  lemma Walk(s: State, n: nat, step: CallStep) returns (s': State)
    requires Reachable(s) && CallEnabled(s, n, step)
    ensures Reachable(s')
    ensures s'.calls == s.calls[n := Call(if step.Begin? then step.kind else s.calls[n].kind, CallPhase(s, n, step))]
    ensures s'.slot == if step.Acquire? then Some(n) else if step.Release? then None else s.slot
    ensures s'.issued == if step.Look? && CallPhase(s, n, step).Prepared? then s.issued + 1 else s.issued
    ensures s'.transports == if step.Launch? then s.transports[s.calls[n].phase.serial := Transport(n, Writing)] else s.transports
    ensures s'.command == s.command && s'.started == s.started && s'.closed == s.closed && s'.wait == s.wait
    ensures s'.policy == s.policy && s'.done == s.done && s'.failure == s.failure && s'.written == s.written
  {
    Extend(s, CallMoves(n, step));
    s' := CallApply(s, n, step);
  }

  /** One step of its cleanup. */
  lemma WalkCleanup(s: State, n: nat, step: CleanupStep) returns (s': State)
    requires Reachable(s) && CleanupEnabled(s, n, step)
    ensures Reachable(s') && s'.calls == s.calls[n := s.calls[n].(phase := CleanupPhase(s, n, step))]
    ensures s'.transports == s.transports && s'.slot == s.slot && s'.closed == (s.closed || step.DoClaim?)
    ensures s'.started == (s.started || step.DoClaim?) && s'.command == (s.command && !step.DoClaim?)
    ensures s'.done == (s.done || step.Announce?) && s'.policy == (s.policy && !step.ClearPolicy?)
    ensures s'.failure == if step.Store? then s.calls[n].phase.stage.failed else s.failure
    ensures s'.wait == if step.StartWait? then Parked else s.wait
  {
    Extend(s, CleanupMoves(n, step));
    s' := CleanupApply(s, n, step);
  }

  /** A session whose Engine runs and whose policy directory is gone, before any call. */
  lemma OpenSession() returns (s: State)
    ensures Reachable(s) && s.calls == map[] && s.transports == map[] && s.slot == None && s.issued == 0
    ensures s.command && !s.started && !s.closed && !s.policy && s.wait == NotStarted && s.written == []
  {
    s := State(map[], None, false, false, true, false, false, false, 0, map[], false, NotStarted, None, [], [], false, [], 0, [], false);
    assert Init(s) && Leads(s, [], s);
  }

  /** Up to the moment where an exchange's deadline ends while its transport is still writing. */
  lemma ExpiredRun() returns (s: State)
    ensures Reachable(s) && 0 in s.calls && s.calls[0] == Call(Exchange, Ending(Claim, ThenJoin(1)))
    ensures Runs(s, 1) && s.command && !s.started && !s.policy
  {
    s := OpenSession();
    hide Reachable;
    s := Walk(s, 0, Begin(Exchange));
    s := Walk(s, 0, Acquire);
    s := Walk(s, 0, Look);
    s := Walk(s, 0, Launch);
    s := Walk(s, 0, Expire);
  }

  /** Its cleanup cannot reap the process and reports so. */
  lemma UnreapedRun() returns (s: State)
    ensures Reachable(s) && 0 in s.calls && s.calls[0] == Call(Exchange, Ending(Policy(true), ThenJoin(1)))
    ensures Runs(s, 1) && s.closed && !s.policy
  {
    s := ExpiredRun();
    hide Reachable;
    s := WalkCleanup(s, 0, DoClaim);
    s := WalkCleanup(s, 0, StopSignalling(false));
    s := WalkCleanup(s, 0, ClosePipes);
    s := WalkCleanup(s, 0, StartWait);
    s := WalkCleanup(s, 0, ReapBudgetEnds);
    s := WalkCleanup(s, 0, Store);
    s := WalkCleanup(s, 0, Announce);
    s := WalkCleanup(s, 0, ReadFailure);
  }

  /** The case that `OneTransport` provides for does happen: the process cannot be reaped, joining
      the transport gives up, and the slot is free while the transport still runs. */
  lemma TransportOutlivesExchange() returns (s: State)
    ensures Reachable(s) && s.slot == None && Runs(s, 1) && s.closed
  {
    s := UnreapedRun();
    hide Reachable;
    s := WalkCleanup(s, 0, ReadPolicy);
    s := WalkCleanup(s, 0, Leave);
    s := Walk(s, 0, Join);
    s := Walk(s, 0, Release);
  }
}
