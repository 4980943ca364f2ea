/** Inductive invariants of the agent session, each kept by every step of every interleaving. */
module AgentInvariants {
  import opened AgentProtocol
  import opened ProcessEvents
  import opened Wrappers

  /** The step moved no call but `n`. */
  ghost predicate OnlyMoves(s: State, n: nat, s': State) {
    n in s'.calls && s'.calls.Keys == s.calls.Keys + {n} && forall m | m in s.calls && m != n :: s'.calls[m] == s.calls[m]
  }

  /** A step outside shutdown leaves the cleanup and the lines alone. */
  lemma CallFrame(s: State, n: nat, step: CallStep)
    requires CallEnabled(s, n, step)
    ensures var e := CallEffect(s, n, step);
      && e.closed == s.closed && e.started == s.started && e.command == s.command && e.failure == s.failure
      && e.done == s.done && e.policy == s.policy && e.dir == s.dir && e.wait == s.wait && e.owner == s.owner && e.taken == s.taken
      && e.log == s.log && e.trouble == s.trouble && e.seen == s.seen && e.written == s.written
      && e.lines == s.lines && e.skipped == s.skipped && e.calls == s.calls
  {
  }

  /** A step inside shutdown leaves the slot, the ids and the wire alone. */
  lemma CleanupFrame(s: State, n: nat, step: CleanupStep)
    requires CleanupEnabled(s, n, step)
    ensures var e := CleanupEffect(s, n, step);
      && e.slot == s.slot && e.issued == s.issued && e.transports == s.transports && e.seen == s.seen
      && e.written == s.written && e.lines == s.lines && e.skipped == s.skipped && e.calls == s.calls
      && (s.closed ==> e.closed)
  {
  }

  // ---------- ownership of the cleanup ----------

  predicate OwnerStage(stage: Stage) {
    stage == Signalling || stage.Closing? || stage.Waiting? || stage.Reaping? || stage.Storing? || stage == Announcing
  }

  predicate Owns(phase: Phase) {
    phase.Ending? && OwnerStage(phase.stage)
  }

  predicate BeforeWait(phase: Phase) {
    phase.Ending? && (phase.stage == Signalling || phase.stage.Closing? || phase.stage.Waiting?)
  }

  /** The call is past its claim, or past the whole cleanup with its transport still to join. */
  predicate PastClaim(phase: Phase) {
    (phase.Ending? && phase.stage != Claim) || phase.Joining?
  }

  predicate OwnerPhase(s: State, n: nat, phase: Phase) {
    && (Owns(phase) ==> s.owner == Some(n) && !s.done)
    && (BeforeWait(phase) ==> s.wait == NotStarted)
    && (PastClaim(phase) ==> s.started)
  }

  ghost predicate Ownership(s: State) {
    && (s.started <==> s.owner.Some?)
    && (s.started ==> !s.command)
    && (s.started <==> s.closed)
    && (s.done ==> s.started)
    && (forall n | n in s.calls :: OwnerPhase(s, n, s.calls[n].phase))
  }

  ghost predicate OneWait(s: State) {
    && (!s.started ==> s.wait == NotStarted && s.taken == [])
    && |s.taken| <= 1
    && (forall n | n in s.taken :: s.owner == Some(n))
    && (WaitStarted in s.log <==> s.wait != NotStarted)
    && SignalsBeforeWait(s.log)
  }

  lemma CallKeepsOwnership(s: State, n: nat, step: CallStep)
    requires Ownership(s) && OneWait(s) && CallEnabled(s, n, step)
    ensures Ownership(CallApply(s, n, step)) && OneWait(CallApply(s, n, step))
  {
    hide CallEffect;
    CallFrame(s, n, step);
    var s' := CallApply(s, n, step);
    assert OwnerPhase(s, n, CallPhase(s, n, step)) by {
      if n in s.calls {
        assert OwnerPhase(s, n, s.calls[n].phase);
      }
    }
    forall m | m in s'.calls ensures OwnerPhase(s', m, s'.calls[m].phase) {
      if m != n {
        assert OwnerPhase(s, m, s.calls[m].phase);
      }
    }
  }

  lemma CleanupKeepsOwnership(s: State, n: nat, step: CleanupStep)
    requires Ownership(s) && OneWait(s) && CleanupEnabled(s, n, step)
    ensures Ownership(CleanupApply(s, n, step)) && OneWait(CleanupApply(s, n, step))
  {
    var s' := CleanupApply(s, n, step);
    OwnerPhaseHere(s, n, step);
    forall m | m in s'.calls ensures OwnerPhase(s', m, s'.calls[m].phase) {
      if m != n {
        OwnerPhaseElsewhere(s, n, step, m, s.calls[m].phase);
      }
    }
    CleanupKeepsOneWait(s, n, step);
  }

  lemma OwnerPhaseHere(s: State, n: nat, step: CleanupStep)
    requires Ownership(s) && OneWait(s) && CleanupEnabled(s, n, step)
    ensures OwnerPhase(CleanupEffect(s, n, step), n, CleanupPhase(s, n, step))
    ensures var e := CleanupEffect(s, n, step);
      (e.started <==> e.owner.Some?) && (e.started ==> !e.command) && (e.started <==> e.closed) && (e.done ==> e.started)
  {
    assert OwnerPhase(s, n, s.calls[n].phase);
  }

  lemma OwnerPhaseElsewhere(s: State, n: nat, step: CleanupStep, m: nat, phase: Phase)
    requires Ownership(s) && CleanupEnabled(s, n, step) && m != n && OwnerPhase(s, m, phase)
    ensures OwnerPhase(CleanupEffect(s, n, step), m, phase)
  {
    assert OwnerPhase(s, n, s.calls[n].phase);
  }

  lemma CleanupKeepsOneWait(s: State, n: nat, step: CleanupStep)
    requires Ownership(s) && OneWait(s) && CleanupEnabled(s, n, step)
    ensures OneWait(CleanupEffect(s, n, step))
  {
    assert OwnerPhase(s, n, s.calls[n].phase);
  }

  // ---------- the stored failure ----------

  /** Without trouble, a command that was taken has been reaped. */
  predicate Settled(s: State) {
    !s.trouble && s.taken != [] ==> s.wait == Reaped
  }

  /** The owner carries exactly the trouble it has had so far. */
  predicate Carries(s: State, phase: Phase) {
    phase.Ending? ==>
      match phase.stage
      case Signalling => !s.trouble
      case Closing(f) => f == s.trouble
      case Waiting(f) => f == s.trouble
      case Reaping(f) => f == s.trouble
      case Storing(f) => f == s.trouble && Settled(s)
      case Announcing => s.failure == s.trouble && Settled(s)
      case _ => true
  }

  ghost predicate Troubles(s: State) {
    && (!s.started ==> !s.trouble && s.taken == [])
    && (s.done ==> s.failure == s.trouble && Settled(s))
    && (forall n | n in s.calls :: Carries(s, s.calls[n].phase))
  }

  lemma CallKeepsTroubles(s: State, n: nat, step: CallStep)
    requires Troubles(s) && CallEnabled(s, n, step)
    ensures Troubles(CallApply(s, n, step))
  {
    hide CallEffect;
    CallFrame(s, n, step);
    var s' := CallApply(s, n, step);
    assert Carries(s, CallPhase(s, n, step));
    forall m | m in s'.calls ensures Carries(s', s'.calls[m].phase) {
      if m != n {
        assert Carries(s, s.calls[m].phase);
      }
    }
  }

  lemma CarriesHere(s: State, n: nat, step: CleanupStep)
    requires Ownership(s) && Troubles(s) && CleanupEnabled(s, n, step)
    ensures Carries(CleanupEffect(s, n, step), CleanupPhase(s, n, step))
    ensures var e := CleanupEffect(s, n, step);
      (!e.started ==> !e.trouble && e.taken == []) && (e.done ==> e.failure == e.trouble && Settled(e))
  {
    assert OwnerPhase(s, n, s.calls[n].phase) && Carries(s, s.calls[n].phase);
  }

  lemma CarriesElsewhere(s: State, n: nat, step: CleanupStep, m: nat, phase: Phase)
    requires Ownership(s) && CleanupEnabled(s, n, step)
    requires m != n && OwnerPhase(s, m, phase) && Carries(s, phase)
    ensures Carries(CleanupEffect(s, n, step), phase)
  {
    assert OwnerPhase(s, n, s.calls[n].phase);
  }

  lemma CleanupKeepsTroubles(s: State, n: nat, step: CleanupStep)
    requires Ownership(s) && Troubles(s) && CleanupEnabled(s, n, step)
    ensures Troubles(CleanupApply(s, n, step))
  {
    var s' := CleanupApply(s, n, step);
    CarriesHere(s, n, step);
    forall m | m in s'.calls ensures Carries(s', s'.calls[m].phase) {
      if m != n {
        assert OwnerPhase(s, m, s.calls[m].phase) && Carries(s, s.calls[m].phase);
        CarriesElsewhere(s, n, step, m, s.calls[m].phase);
      }
    }
  }

  // ---------- what the callers report ----------

  /** The cleanup is finished, succeeded, and the policy directory is gone. */
  predicate Confirmed(s: State) {
    s.done && !s.failure && !s.policy
  }

  /** The verdict that a call carries with it once it has one. */
  function Says(phase: Phase): Option<Cleanup> {
    match phase
    case Ending(Done(c), _) => Some(c)
    case Joining(_, c) => Some(c)
    case Releasing(outcome) => OutcomeSays(outcome)
    case Parsing(outcome) => OutcomeSays(outcome)
    case Returned(outcome) => OutcomeSays(outcome)
    case _ => None
  }

  function OutcomeSays(outcome: Outcome): Option<Cleanup> {
    match outcome
    case Terminal(c) => Some(c)
    case Ended(c) => Some(c)
    case _ => None
  }

  /** Only "still pending" is said before the cleanup is done, and success only when it is confirmed. */
  predicate Backed(s: State, cleanup: Cleanup) {
    && s.started
    && (cleanup != Pending ==> s.done)
    && (cleanup == Clean ==> Confirmed(s))
  }

  predicate StageReport(s: State, stage: Stage) {
    match stage
    case Reading => s.done
    case Policy(f) => s.done && f == s.failure
    case Removing(f) => s.done && f == s.failure
    case Clearing(f) => s.done && f == s.failure && !s.dir
    case _ => true
  }

  predicate Report(s: State, phase: Phase) {
    (phase.Ending? ==> StageReport(s, phase.stage)) && (Says(phase).Some? ==> Backed(s, Says(phase).value))
  }

  ghost predicate Reports(s: State) {
    && (s.dir ==> s.policy)
    && forall n | n in s.calls :: Report(s, s.calls[n].phase)
  }

  lemma CallKeepsReports(s: State, n: nat, step: CallStep)
    requires Reports(s) && CallEnabled(s, n, step)
    ensures Reports(CallApply(s, n, step))
  {
    hide CallEffect;
    CallFrame(s, n, step);
    var s' := CallApply(s, n, step);
    assert Report(s, CallPhase(s, n, step)) by {
      if n in s.calls {
        assert Report(s, s.calls[n].phase);
      }
    }
    forall m | m in s'.calls ensures Report(s', s'.calls[m].phase) {
      if m != n {
        assert Report(s, s.calls[m].phase);
      }
    }
  }

  lemma CleanupKeepsReports(s: State, n: nat, step: CleanupStep)
    requires Ownership(s) && Reports(s) && CleanupEnabled(s, n, step)
    ensures Reports(CleanupApply(s, n, step))
  {
    hide CleanupPhase, CleanupEffect;
    var s' := CleanupApply(s, n, step);
    ReportHere(s, n, step);
    forall m | m in s'.calls ensures Report(s', s'.calls[m].phase) {
      if m != n {
        assert Report(s, s.calls[m].phase);
        ReportElsewhere(s, n, step, s.calls[m].phase);
      }
    }
  }

  lemma ReportHere(s: State, n: nat, step: CleanupStep)
    requires Ownership(s) && Reports(s) && CleanupEnabled(s, n, step)
    ensures Report(CleanupEffect(s, n, step), CleanupPhase(s, n, step))
    ensures CleanupEffect(s, n, step).dir ==> CleanupEffect(s, n, step).policy
  {
    assert Report(s, s.calls[n].phase);
  }

  lemma ReportElsewhere(s: State, n: nat, step: CleanupStep, phase: Phase)
    requires Ownership(s) && CleanupEnabled(s, n, step) && Report(s, phase)
    ensures Report(CleanupEffect(s, n, step), phase)
  {
    assert OwnerPhase(s, n, s.calls[n].phase);
  }

  // ---------- the slot ----------

  predicate Holds(phase: Phase) {
    match phase
    case Queued => false
    case Ending(_, next) => next != ThenReturn
    case Parsing(_) => false
    case Returned(_) => false
    case _ => true
  }

  ghost predicate Slot(s: State) {
    && (s.slot.Some? ==> s.slot.value in s.calls)
    && forall n | n in s.calls :: Holds(s.calls[n].phase) <==> s.slot == Some(n)
  }

  lemma CallKeepsSlot(s: State, n: nat, step: CallStep)
    requires Slot(s) && CallEnabled(s, n, step)
    ensures Slot(CallApply(s, n, step))
  {
    var s' := CallApply(s, n, step);
    assert Holds(CallPhase(s, n, step)) <==> CallEffect(s, n, step).slot == Some(n) by {
      assert n in s.calls ==> (Holds(s.calls[n].phase) <==> s.slot == Some(n));
    }
    forall m | m in s'.calls ensures Holds(s'.calls[m].phase) <==> s'.slot == Some(m) {
      if m != n {
        assert Holds(s.calls[m].phase) <==> s.slot == Some(m);
        assert n in s.calls ==> (Holds(s.calls[n].phase) <==> s.slot == Some(n));
      }
    }
  }

  lemma CleanupHolds(s: State, n: nat, step: CleanupStep)
    requires CleanupEnabled(s, n, step)
    ensures Holds(CleanupPhase(s, n, step)) <==> Holds(s.calls[n].phase)
  {
  }

  lemma CleanupKeepsSlot(s: State, n: nat, step: CleanupStep)
    requires Slot(s) && CleanupEnabled(s, n, step)
    ensures Slot(CleanupApply(s, n, step))
  {
    hide CleanupPhase, CleanupEffect;
    var s' := CleanupApply(s, n, step);
    CleanupHolds(s, n, step);
    CleanupFrame(s, n, step);
    forall m | m in s'.calls ensures Holds(s'.calls[m].phase) <==> s'.slot == Some(m) {
      assert Holds(s.calls[m].phase) <==> s.slot == Some(m);
    }
  }

  // ---------- the transports ----------

  predicate Runs(s: State, k: nat) {
    k in s.transports && !s.transports[k].transfer.Finished?
  }

  /** The call that started transport `k` still waits for it, holding the slot. */
  predicate Attached(phase: Phase, k: nat) {
    match phase
    case Awaiting(serial) => serial == k
    case Ending(_, next) => next == ThenJoin(k)
    case Joining(serial, _) => serial == k
    case _ => false
  }

  /** The call has not started a transport, or returned without ever having started one. */
  predicate NotYet(phase: Phase) {
    match phase
    case Queued => true
    case Admitted => true
    case Prepared(_) => true
    case Releasing(outcome) => Untouched(outcome)
    case Parsing(outcome) => Untouched(outcome)
    case Returned(outcome) => Untouched(outcome)
    case _ => false
  }

  predicate Untouched(outcome: Outcome) {
    outcome == GaveUp || outcome == Crashed || outcome == Invalid
  }

  /** What a call's phase says about the transports. */
  ghost predicate PhaseTransports(s: State, n: nat, phase: Phase) {
    && (forall k | Attached(phase, k) :: k in s.transports && s.transports[k].call == n)
    && (phase.Prepared? ==> phase.serial == s.issued && forall k | k in s.transports :: k < s.issued && !Runs(s, k))
    && (phase.Awaiting? ==> forall k | Runs(s, k) :: k == phase.serial)
  }

  /** Every transport was started by a call that is past the start, and ids only grow. */
  ghost predicate Started(s: State, k: nat)
    requires k in s.transports
  {
    && s.transports[k].call in s.calls
    && !NotYet(s.calls[s.transports[k].call].phase)
    && k <= s.issued
  }

  /** A running transport is waited for by the slot's holder, unless the session is closed; it is
      the only one and the latest. */
  ghost predicate Running(s: State, k: nat)
    requires k in s.transports && s.transports[k].call in s.calls
  {
    && (s.closed || Attached(s.calls[s.transports[k].call].phase, k))
    && (forall j | j in s.transports :: j <= k)
  }

  ghost predicate Transports(s: State) {
    && (forall k | k in s.transports :: Started(s, k) && (Runs(s, k) ==> Running(s, k)))
    && (forall j, k | Runs(s, j) && Runs(s, k) :: j == k)
    && (forall n | n in s.calls :: PhaseTransports(s, n, s.calls[n].phase))
  }

  /** A step that leaves the transports alone keeps the invariant if the moved call keeps its ties. */
  lemma TiesKept(s: State, n: nat, s': State)
    requires Transports(s) && OnlyMoves(s, n, s')
    requires s'.transports == s.transports && s'.issued == s.issued && (s.closed ==> s'.closed)
    requires PhaseTransports(s', n, s'.calls[n].phase)
    requires n in s.calls && NotYet(s'.calls[n].phase) ==> NotYet(s.calls[n].phase)
    requires forall k | Runs(s, k) && s.transports[k].call == n ::
      s'.closed || Attached(s'.calls[n].phase, k)
    ensures Transports(s')
  {
    forall k | k in s'.transports ensures Started(s', k) && (Runs(s', k) ==> Running(s', k)) {
      assert Started(s, k) && (Runs(s', k) ==> Runs(s, k) && Running(s, k));
    }
    forall j, k | Runs(s', j) && Runs(s', k) ensures j == k {
      assert Runs(s, j) && Runs(s, k);
    }
    forall m | m in s'.calls ensures PhaseTransports(s', m, s'.calls[m].phase) {
      if m != n {
        assert PhaseTransports(s, m, s.calls[m].phase);
        forall k | Runs(s', k) ensures Runs(s, k) {
        }
      }
    }
  }

  lemma CleanupTies(s: State, n: nat, step: CleanupStep)
    requires CleanupEnabled(s, n, step)
    ensures var phase := CleanupPhase(s, n, step);
      && (forall k :: Attached(phase, k) <==> Attached(s.calls[n].phase, k))
      && !NotYet(phase) && !phase.Awaiting?
  {
  }

  lemma CleanupKeepsTransports(s: State, n: nat, step: CleanupStep)
    requires Transports(s) && CleanupEnabled(s, n, step)
    ensures Transports(CleanupApply(s, n, step))
  {
    hide CleanupPhase, CleanupEffect;
    var s' := CleanupApply(s, n, step);
    CleanupTies(s, n, step);
    CleanupFrame(s, n, step);
    assert PhaseTransports(s, n, s.calls[n].phase);
    forall k | Runs(s, k) && s.transports[k].call == n ensures s'.closed || Attached(s'.calls[n].phase, k) {
      assert Running(s, k);
    }
    TiesKept(s, n, s');
  }

  /** No transport runs while the slot's holder has none and the session is open. */
  lemma NoneRuns(s: State, n: nat)
    requires Slot(s) && Transports(s) && !s.closed && n in s.calls && s.slot == Some(n)
    requires forall k :: !Attached(s.calls[n].phase, k)
    ensures forall k :: !Runs(s, k)
  {
    forall k | Runs(s, k) ensures false {
      assert Running(s, k);
      assert Holds(s.calls[s.transports[k].call].phase);
    }
  }

  lemma CallKeepsTransports(s: State, n: nat, step: CallStep)
    requires Ownership(s) && Slot(s) && Transports(s) && CallEnabled(s, n, step)
    ensures Transports(CallApply(s, n, step))
  {
    hide Slot, Ownership, Transports, CallPhase;
    if step.Launch? {
      LaunchKeepsTransports(s, n);
    } else if step.Look? && CallPhase(s, n, step).Prepared? {
      LookKeepsTransports(s, n);
    } else {
      OtherCallKeepsTransports(s, n, step);
    }
  }

  lemma OtherCallKeepsTransports(s: State, n: nat, step: CallStep)
    requires Ownership(s) && Transports(s) && CallEnabled(s, n, step)
    requires !step.Launch? && !(step.Look? && CallPhase(s, n, step).Prepared?)
    ensures Transports(CallApply(s, n, step))
  {
    hide Ownership, CallPhase;
    CallTies(s, n, step);
    var s' := CallApply(s, n, step);
    assert PhaseTransports(s', n, s'.calls[n].phase) by {
      assert s'.transports == s.transports && s'.issued == s.issued;
      forall k | Runs(s', k) ensures Runs(s, k) {
      }
    }
    forall k | Runs(s, k) && s.transports[k].call == n ensures s'.closed || Attached(s'.calls[n].phase, k) {
      CallLeaves(s, n, step, k);
    }
    TiesKept(s, n, s');
  }

  lemma CallTies(s: State, n: nat, step: CallStep)
    requires Transports(s) && CallEnabled(s, n, step)
    requires !step.Launch? && !(step.Look? && CallPhase(s, n, step).Prepared?)
    ensures PhaseTransports(s, n, CallPhase(s, n, step))
    ensures n in s.calls && NotYet(CallPhase(s, n, step)) ==> NotYet(s.calls[n].phase)
  {
    if n in s.calls {
      assert PhaseTransports(s, n, s.calls[n].phase);
    }
  }

  lemma CallLeaves(s: State, n: nat, step: CallStep, k: nat)
    requires Ownership(s) && Transports(s) && CallEnabled(s, n, step)
    requires !step.Launch? && Runs(s, k) && s.transports[k].call == n
    ensures s.closed || Attached(CallPhase(s, n, step), k)
  {
    assert Started(s, k) && Running(s, k) && OwnerPhase(s, n, s.calls[n].phase);
  }

  lemma LookKeepsTransports(s: State, n: nat)
    requires Ownership(s) && Slot(s) && Transports(s) && CallEnabled(s, n, Look) && CallPhase(s, n, Look).Prepared?
    ensures Transports(CallApply(s, n, Look))
  {
    var s' := CallApply(s, n, Look);
    assert Holds(s.calls[n].phase);
    NoneRuns(s, n);
    forall k | k in s'.transports ensures Started(s', k) && !Runs(s', k) {
      assert Started(s, k) && !Runs(s, k);
    }
    forall m | m in s'.calls ensures PhaseTransports(s', m, s'.calls[m].phase) {
      if m != n {
        assert PhaseTransports(s, m, s.calls[m].phase);
        assert !Holds(s.calls[m].phase);
      } else {
        forall k | k in s'.transports ensures k < s'.issued && !Runs(s', k) {
          assert Started(s, k);
        }
      }
    }
  }

  lemma LaunchKeepsTransports(s: State, n: nat)
    requires Slot(s) && Transports(s) && CallEnabled(s, n, Launch)
    ensures Transports(CallApply(s, n, Launch))
  {
    var s' := CallApply(s, n, Launch);
    var serial := s.calls[n].phase.serial;
    assert PhaseTransports(s, n, s.calls[n].phase);
    assert Holds(s.calls[n].phase);
    forall k | Runs(s', k) ensures k == serial {
      assert k in s.transports ==> !Runs(s, k);
    }
    forall k | k in s'.transports ensures Started(s', k) && (Runs(s', k) ==> Running(s', k)) {
      if k != serial {
        assert Started(s, k);
      }
    }
    forall m | m in s'.calls ensures PhaseTransports(s', m, s'.calls[m].phase) {
      if m != n {
        assert PhaseTransports(s, m, s.calls[m].phase);
        assert !Holds(s.calls[m].phase);
      }
    }
  }

  lemma TransportKeepsTransports(s: State, k: nat, step: TransportStep)
    requires Transports(s) && TransportEnabled(s, k, step)
    ensures Transports(TransportApply(s, k, step))
  {
    var s' := TransportApply(s, k, step);
    TransportFrame(s, k, step);
    forall j | j in s'.transports ensures Started(s', j) && (Runs(s', j) ==> Running(s', j)) {
      assert Started(s, j) && (Runs(s, j) ==> Running(s, j));
    }
    forall i, j | Runs(s', i) && Runs(s', j) ensures i == j {
      assert Runs(s, i) && Runs(s, j);
    }
    forall m | m in s'.calls ensures PhaseTransports(s', m, s'.calls[m].phase) {
      assert PhaseTransports(s, m, s.calls[m].phase);
    }
  }

  /** A transport step touches no call, starts no transport and revives none. */
  lemma TransportFrame(s: State, k: nat, step: TransportStep)
    requires TransportEnabled(s, k, step)
    ensures var s' := TransportApply(s, k, step);
      && s'.calls == s.calls && s'.slot == s.slot && s'.closed == s.closed && s'.issued == s.issued
      && s'.transports.Keys == s.transports.Keys && Runs(s, k)
      && (forall j | j in s.transports :: s'.transports[j].call == s.transports[j].call)
      && (forall j :: Runs(s', j) ==> Runs(s, j))
  {
  }

  // ---------- the wire ----------

  /** Bytes are written in the order of the request serials, by transports of this session. */
  ghost predicate Wire(s: State) {
    && (forall i | 0 <= i < |s.written| :: s.written[i] in s.transports)
    && (forall i, j | 0 <= i < j < |s.written| :: s.written[i] <= s.written[j])
  }

  lemma TransportKeepsWire(s: State, k: nat, step: TransportStep)
    requires Transports(s) && Wire(s) && TransportEnabled(s, k, step)
    ensures Wire(TransportApply(s, k, step))
  {
    TransportFrame(s, k, step);
    assert Running(s, k);
    if step.Write? {
      forall i | 0 <= i < |s.written| ensures s.written[i] <= k {
        assert s.written[i] in s.transports;
      }
    }
  }

  /** Only the first line can be skipped: until it is classified, no second line is read. */
  ghost predicate FirstLineOnly(s: State) {
    && (forall k | k in s.transports && s.transports[k].transfer.Checking? ::
          s.transports[k].transfer.index + 1 == s.lines)
    && (!s.seen ==> s.skipped == [] && s.lines <= 1)
    && (!s.seen && s.lines == 1 ==> exists k :: k in s.transports && s.transports[k].transfer.Checking?)
    && (s.seen ==> s.lines >= 1)
    && (forall k | k in s.transports && s.transports[k].transfer == SecondRead :: s.seen)
    && (s.skipped == [] || s.skipped == [0])
  }

  lemma TransportKeepsFirstLine(s: State, k: nat, step: TransportStep)
    requires Transports(s) && FirstLineOnly(s) && TransportEnabled(s, k, step)
    ensures FirstLineOnly(TransportApply(s, k, step))
  {
    var s' := TransportApply(s, k, step);
    forall j | j in s.transports && s.transports[j].transfer.Checking? ensures j == k {
      assert Runs(s, j) && Runs(s, k);
    }
    if step.ReadLine? && !s.seen {
      assert s.lines == 0;
      if s.transports[k].transfer == FirstRead {
        assert s'.transports[k].transfer.Checking?;
      }
    }
  }
}
