/** Nothing in the session can wait forever: every call that has not returned has a step of its own
    that waits for nobody, and only finitely many of its steps are left, signals apart. */
module AgentProgress {
  import opened AgentProtocol
  import opened Wrappers

  /** The steps of one call. */
  predicate Own(step: Step, n: nat) {
    (step.CallMoves? && step.n == n) || (step.CleanupMoves? && step.n == n)
  }

  /** A signal of the cleanup; its loops bound their number by themselves. */
  predicate IsSignal(step: Step) {
    step.CleanupMoves? && step.e == Signal
  }

  function StageRank(stage: Stage): nat {
    match stage
    case Claim => 12
    case Signalling => 11
    case Closing(_) => 10
    case Waiting(_) => 9
    case Reaping(_) => 8
    case Storing(_) => 7
    case Announcing => 6
    case Following => 6
    case Reading => 5
    case Policy(_) => 4
    case Removing(_) => 3
    case Clearing(_) => 2
    case Done(_) => 1
  }

  /** How many of its own steps a call can still make, signals apart. */
  function Rank(phase: Phase): nat {
    match phase
    case Returned(_) => 0
    case Ending(stage, next) => StageRank(stage) + if next == ThenReturn then 0 else 15
    case Parsing(_) => 13
    case Releasing(_) => 14
    case Joining(_, _) => 15
    case Awaiting(_) => 28
    case Prepared(_) => 29
    case Admitted => 30
    case Queued => 31
  }

  /** The step that the call can always make: where it waits for somebody, its own deadline or budget. */
  function Patience(s: State, n: nat): Step
    requires n in s.calls && !s.calls[n].phase.Returned?
  {
    match s.calls[n].phase
    case Queued => CallMoves(n, GiveUp)
    case Admitted => CallMoves(n, Look)
    case Prepared(_) => CallMoves(n, Launch)
    case Awaiting(_) => CallMoves(n, Expire)
    case Joining(_, _) => CallMoves(n, Join)
    case Releasing(_) => CallMoves(n, Release)
    case Parsing(_) => CallMoves(n, Parse(true))
    case Ending(stage, _) => CleanupMoves(n, StagePatience(stage))
  }

  function StagePatience(stage: Stage): CleanupStep {
    match stage
    case Claim => DoClaim
    case Following => BudgetEnds
    case Signalling => StopSignalling(true)
    case Closing(_) => ClosePipes
    case Waiting(_) => StartWait
    case Reaping(_) => ReapBudgetEnds
    case Storing(_) => Store
    case Announcing => Announce
    case Reading => ReadFailure
    case Policy(_) => ReadPolicy
    case Removing(_) => RemovePolicy(true)
    case Clearing(_) => ClearPolicy
    case Done(_) => Leave
  }

  /** Whatever the others do or do not do, a call that has not returned can make a step that is not a
      signal. */
  lemma NobodyIsStuck(s: State, n: nat)
    requires n in s.calls && !s.calls[n].phase.Returned?
    ensures Enabled(s, Patience(s, n)) && Own(Patience(s, n), n) && !IsSignal(Patience(s, n))
  {
  }

  lemma CallRankFalls(s: State, n: nat, step: CallStep)
    requires n in s.calls && CallEnabled(s, n, step)
    ensures Rank(CallPhase(s, n, step)) < Rank(s.calls[n].phase)
  {
  }

  lemma CleanupRankFalls(s: State, n: nat, step: CleanupStep)
    requires CleanupEnabled(s, n, step)
    ensures if step == Signal then Rank(CleanupPhase(s, n, step)) == Rank(s.calls[n].phase)
            else Rank(CleanupPhase(s, n, step)) < Rank(s.calls[n].phase)
  {
  }

  /** Every step keeps the call and its kind of progress: an own step lowers the rank unless it is a
      signal, a step of anybody else leaves the call where it is. */
  lemma RankFalls(s: State, step: Step, n: nat)
    requires n in s.calls && Enabled(s, step)
    ensures n in Apply(s, step).calls
    ensures if Own(step, n) && !IsSignal(step) then Rank(Apply(s, step).calls[n].phase) < Rank(s.calls[n].phase)
            else Rank(Apply(s, step).calls[n].phase) == Rank(s.calls[n].phase)
  {
    hide Rank, CallPhase, CleanupPhase, CallEffect, CleanupEffect, NextTransfer;
    match step
    case CallMoves(m, c) => if m == n { CallRankFalls(s, n, c); }
    case CleanupMoves(m, e) => if m == n { CleanupRankFalls(s, n, e); }
    case _ =>
  }

  /** The number of the call's own steps in a run, signals apart. */
  function OwnSteps(steps: seq<Step>, n: nat): nat {
    if steps == [] then 0
    else (if Own(steps[0], n) && !IsSignal(steps[0]) then 1 else 0) + OwnSteps(steps[1..], n)
  }

  /** In every run a call makes at most as many steps as its rank says, signals apart, and the rank says
      how many are left. */
  lemma {:induction false} StepsAreBounded(s: State, steps: seq<Step>, s': State, n: nat)
    requires n in s.calls && Leads(s, steps, s')
    ensures n in s'.calls && OwnSteps(steps, n) + Rank(s'.calls[n].phase) <= Rank(s.calls[n].phase)
    decreases |steps|
  {
    hide Enabled, Apply, Rank, Own, IsSignal;
    if steps != [] {
      RankFalls(s, steps[0], n);
      StepsAreBounded(Apply(s, steps[0]), steps[1..], s', n);
    }
  }

  /** No rank exceeds 31: a call that has begun returns within 31 steps of its own, besides signals. */
  lemma ReturnsWithin31(s: State, steps: seq<Step>, s': State, n: nat)
    requires n in s.calls && Leads(s, steps, s')
    ensures OwnSteps(steps, n) <= 31
    ensures n in s'.calls && (OwnSteps(steps, n) == 31 ==> s'.calls[n].phase.Returned?)
  {
    hide Leads, OwnSteps;
    StepsAreBounded(s, steps, s', n);
  }
}
