/** The cleanup of the Go session implements the cleanup machine: in every interleaving each step is
    invisible to the machine or one of its actions, and callers are told what the machine says, but for
    one that was overtaken while it removed the policy. */
module AgentRefinement {
  import opened AgentProtocol
  import opened AgentInvariants
  import opened AgentSafety
  import opened ProcessEvents
  import opened Wrappers
  import M = CleanupMachine

  /** What the machine sees of a session. The failure counts once the cleanup is done. */
  function Abstract(s: State): M.Machine {
    M.Machine(s.done, s.done && s.failure, s.policy)
  }

  /** The machine's action that a step is, if it is one: the owner announces the end; a caller finds
      the policy gone, fails to remove it or clears its record; opening has removed it. */
  function ActionOf(s: State, step: Step): Option<M.Action> {
    match step
    case CleanupMoves(_, Announce) => Some(M.Finish(s.failure))
    case CleanupMoves(_, ReadPolicy) => if s.policy then None else Some(M.Ask(false))
    case CleanupMoves(_, RemovePolicy(false)) => Some(M.Ask(false))
    case CleanupMoves(_, ClearPolicy) => Some(M.Ask(true))
    case WorldMoves(PolicyGone) => Some(M.Clear)
    case _ => None
  }

  /** The moved call has just got a verdict that is not "still pending". */
  predicate Decides(s: State, step: Step)
    requires Enabled(s, step)
  {
    && step.CleanupMoves?
    && var phase := CleanupPhase(s, step.n, step.e);
       phase.Ending? && phase.stage.Done? && phase.stage.cleanup != Pending
  }

  function Told(s: State, step: Step): Cleanup
    requires Enabled(s, step) && Decides(s, step)
  {
    CleanupPhase(s, step.n, step.e).stage.cleanup
  }

  /** What a step does to the machine. */
  ghost predicate Moves(s: State, step: Step)
    requires Enabled(s, step)
  {
    match ActionOf(s, step)
    case None => Abstract(Apply(s, step)) == Abstract(s)
    case Some(a) => M.Allowed(Abstract(s), a) && Abstract(Apply(s, step)) == M.Next(Abstract(s), a)
  }

  /** Removing the policy fails although another caller has cleared its record meanwhile. The code looks
      at the error alone, and does not tell a directory that is gone from one that it cannot reach. */
  predicate Overtaken(s: State, step: Step) {
    step.CleanupMoves? && step.e == RemovePolicy(false) && !s.policy
  }

  /** What a step tells its caller: exactly the asks give verdicts, and they give the machine's unless the
      caller was overtaken. */
  ghost predicate Tells(s: State, step: Step)
    requires Enabled(s, step)
  {
    match ActionOf(s, step)
    case None => !Decides(s, step)
    case Some(a) =>
      && (Decides(s, step) <==> a.Ask?)
      && (a.Ask? ==> (Told(s, step) == Clean <==> M.Granted(Abstract(s), a) && !Overtaken(s, step)))
  }

  ghost predicate Follows(s: State, step: Step)
    requires Enabled(s, step)
  {
    Moves(s, step) && Tells(s, step)
  }

  lemma EffectSeen(s: State, n: nat, e: CleanupStep)
    requires CleanupEnabled(s, n, e)
    ensures Abstract(CleanupApply(s, n, e)) == M.Machine(
      s.done || e.Announce?,
      (s.done || e.Announce?) && (if e.Store? then s.calls[n].phase.stage.failed else s.failure),
      s.policy && !e.ClearPolicy?)
  {
    hide CleanupPhase;
  }

  lemma CleanupMovesMachine(s: State, n: nat, e: CleanupStep)
    requires Ownership(s) && Reports(s) && CleanupEnabled(s, n, e)
    ensures Moves(s, CleanupMoves(n, e))
  {
    EffectSeen(s, n, e);
    assert OwnerPhase(s, n, s.calls[n].phase) && Report(s, s.calls[n].phase);
    hide CleanupApply;
  }

  lemma CleanupTells(s: State, n: nat, e: CleanupStep)
    requires Reports(s) && CleanupEnabled(s, n, e)
    ensures Tells(s, CleanupMoves(n, e))
  {
    hide CleanupEffect;
    assert Report(s, s.calls[n].phase);
  }

  lemma CallFollows(s: State, n: nat, step: CallStep)
    requires CallEnabled(s, n, step)
    ensures Abstract(CallApply(s, n, step)) == Abstract(s)
  {
    hide CallEffect;
    CallFrame(s, n, step);
  }

  lemma TransportFollows(s: State, k: nat, step: TransportStep)
    requires TransportEnabled(s, k, step)
    ensures Abstract(TransportApply(s, k, step)) == Abstract(s)
  {
    hide NextTransfer;
  }

  lemma WorldFollows(s: State, step: WorldStep)
    requires WorldEnabled(s, step)
    ensures Follows(s, WorldMoves(step))
  {
    var s' := WorldApply(s, step);
    assert s'.done == s.done && s'.failure == s.failure && s'.policy == (s.policy && step != PolicyGone);
    hide WorldApply;
  }

  lemma StepFollows(s: State, step: Step)
    requires Ownership(s) && Reports(s) && Enabled(s, step)
    ensures Follows(s, step)
  {
    hide CallApply, CleanupApply, TransportApply, WorldApply, Ownership, Reports, CleanupPhase, Abstract;
    match step
    case CallMoves(n, c) => CallFollows(s, n, c);
    case CleanupMoves(n, e) =>
      hide Moves, Tells, ActionOf;
      CleanupMovesMachine(s, n, e);
      CleanupTells(s, n, e);
    case TransportMoves(k, t) => TransportFollows(s, k, t);
    case WorldMoves(w) => WorldFollows(s, w);
  }

  /** The machine's actions in a run of the session. */
  ghost function Actions(s: State, steps: seq<Step>, s': State): seq<M.Action>
    requires Leads(s, steps, s')
    decreases |steps|
  {
    if steps == [] then []
    else
      var rest := Actions(Apply(s, steps[0]), steps[1..], s');
      if ActionOf(s, steps[0]).Some? then [ActionOf(s, steps[0]).value] + rest else rest
  }

  /** Every run of the session, in whatever interleaving, is a run of the machine. */
  lemma {:induction false} RunFollows(s: State, steps: seq<Step>, s': State)
    requires Inv(s) && Leads(s, steps, s')
    ensures M.Runs(Abstract(s), Actions(s, steps, s'), Abstract(s'))
    decreases |steps|
  {
    hide Enabled, Apply, Abstract, ActionOf, Ownership, OneWait, Troubles, Reports, Slot, Transports, Wire, FirstLineOnly, Answers, Traces;
    if steps != [] {
      StepKeepsInv(s, steps[0]);
      StepFollows(s, steps[0]);
      RunFollows(Apply(s, steps[0]), steps[1..], s');
    }
  }

  /** In every reachable state, whoever gets a verdict is told success exactly when the machine grants
      it and the caller was not overtaken, and only such a step is one of its asks. */
  lemma VerdictsAreGranted(s: State, step: Step)
    requires Reachable(s) && Enabled(s, step)
    ensures Follows(s, step)
  {
    ReachableInv(s);
    StepFollows(s, step);
  }

  // ---------- an overtaken caller ----------

  /** A session whose policy directory is still there, and which two callers cancel. */
  lemma TwoCancel() returns (s: State)
    ensures Reachable(s)
    ensures s.calls == map[0 := Call(Cancel, Ending(Claim, ThenReturn)), 1 := Call(Cancel, Ending(Claim, ThenReturn))]
    ensures s.command && !s.started && !s.done && s.policy && s.wait == NotStarted
  {
    s := State(map[], None, false, false, true, false, false, true, 0, map[], false, NotStarted, None, [], [], false, [], 0, [], true);
    assert Init(s) && Leads(s, [], s);
    hide Reachable;
    s := Walk(s, 0, Begin(Cancel));
    s := Walk(s, 1, Begin(Cancel));
  }

  lemma WalkReap(s: State) returns (s': State)
    requires Reachable(s) && s.wait == Parked
    ensures Reachable(s') && s'.wait == Reaped && s'.calls == s.calls
    ensures s'.started == s.started && s'.done == s.done && s'.policy == s.policy
  {
    Extend(s, WorldMoves(Reap));
    s' := WorldApply(s, Reap);
  }

  /** The first of them ends the process. */
  lemma FirstReaps() returns (s: State)
    ensures Reachable(s)
    ensures s.calls == map[0 := Call(Cancel, Ending(Storing(false), ThenReturn)), 1 := Call(Cancel, Ending(Claim, ThenReturn))]
    ensures s.started && !s.done && s.policy
  {
    s := TwoCancel();
    hide Reachable;
    s := WalkCleanup(s, 0, DoClaim);
    s := WalkCleanup(s, 0, StopSignalling(false));
    s := WalkCleanup(s, 0, ClosePipes);
    s := WalkCleanup(s, 0, StartWait);
    s := WalkReap(s);
    s := WalkCleanup(s, 0, SeeReaped(false));
  }

  /** It stores the result, and both learn that there is no failure. */
  lemma BothRead() returns (s: State)
    ensures Reachable(s)
    ensures s.calls == map[0 := Call(Cancel, Ending(Policy(false), ThenReturn)), 1 := Call(Cancel, Ending(Policy(false), ThenReturn))]
    ensures s.done && !s.failure && s.policy
  {
    s := FirstReaps();
    hide Reachable;
    s := WalkCleanup(s, 0, Store);
    s := WalkCleanup(s, 0, Announce);
    s := WalkCleanup(s, 0, ReadFailure);
    s := WalkCleanup(s, 1, DoClaim);
    s := WalkCleanup(s, 1, SeeDone);
    s := WalkCleanup(s, 1, ReadFailure);
  }

  /** Both see the policy recorded, and the first removes it and clears the record. */
  lemma OneClears() returns (s: State)
    ensures Reachable(s) && 1 in s.calls && s.calls[1].phase == Ending(Removing(false), ThenReturn)
    ensures s.done && !s.failure && !s.policy
  {
    s := BothRead();
    hide Reachable;
    s := WalkCleanup(s, 0, ReadPolicy);
    s := WalkCleanup(s, 1, ReadPolicy);
    s := WalkCleanup(s, 0, RemovePolicy(true));
    s := WalkCleanup(s, 0, ClearPolicy);
  }

  /** The exception is met: the removal of the second one fails, and it is told failure although the
      machine grants success. */
  lemma OvertakenIsReached() returns (s: State, step: Step)
    ensures Reachable(s) && Enabled(s, step) && Overtaken(s, step) && Decides(s, step)
    ensures Told(s, step) == Failed && M.Granted(Abstract(s), M.Ask(false))
  {
    s := OneClears();
    hide Reachable;
    step := CleanupMoves(1, RemovePolicy(false));
  }
}
