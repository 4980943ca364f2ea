/** A call that gives up before it has the slot changes nothing: without its steps the run goes the
    same way. */
module AgentGivingUp {
  import opened AgentProtocol
  import opened AgentProgress
  import opened Wrappers

  /** The session as if the call had never been made. */
  function Without(s: State, n: nat): State {
    s.(calls := s.calls - {n})
  }

  /** The run without the steps of one call. */
  function Others(steps: seq<Step>, n: nat): seq<Step> {
    if steps == [] then []
    else if Own(steps[0], n) then Others(steps[1..], n)
    else [steps[0]] + Others(steps[1..], n)
  }

  /** The call has got past the queue. */
  predicate Past(phase: Phase) {
    match phase
    case Queued => false
    case Returned(outcome) => outcome != GaveUp
    case Releasing(outcome) => outcome != GaveUp
    case Parsing(outcome) => outcome != GaveUp
    case _ => true
  }

  lemma CallPast(s: State, n: nat, step: CallStep)
    requires n in s.calls && Past(s.calls[n].phase) && CallEnabled(s, n, step)
    ensures Past(CallPhase(s, n, step))
  {
  }

  lemma CleanupPast(s: State, n: nat, step: CleanupStep)
    requires CleanupEnabled(s, n, step)
    ensures Past(CleanupPhase(s, n, step))
  {
  }

  /** A step of anybody else leaves the call where it is. */
  lemma Untouched(s: State, step: Step, n: nat)
    requires Enabled(s, step) && !Own(step, n)
    ensures n in Apply(s, step).calls <==> n in s.calls
    ensures n in s.calls ==> Apply(s, step).calls[n] == s.calls[n]
  {
    hide CallEffect, CleanupEffect, CallPhase, CleanupPhase, NextTransfer, Enabled;
    match step
    case CallMoves(_, _) =>
    case CleanupMoves(_, _) =>
    case TransportMoves(_, _) =>
    case WorldMoves(_) =>
  }

  lemma PastStays(s: State, step: Step, n: nat)
    requires n in s.calls && Past(s.calls[n].phase) && Enabled(s, step)
    ensures n in Apply(s, step).calls && Past(Apply(s, step).calls[n].phase)
  {
    hide CallEffect, CleanupEffect, CallPhase, CleanupPhase, Past;
    if Own(step, n) {
      match step
      case CallMoves(_, c) => CallPast(s, n, c);
      case CleanupMoves(_, e) => CleanupPast(s, n, e);
    } else {
      hide Apply;
      Untouched(s, step, n);
    }
  }

  lemma {:induction false} PastForever(s: State, steps: seq<Step>, s': State, n: nat)
    requires n in s.calls && Past(s.calls[n].phase) && Leads(s, steps, s')
    ensures n in s'.calls && Past(s'.calls[n].phase)
    decreases |steps|
  {
    hide Enabled, Apply, Past;
    if steps != [] {
      PastStays(s, steps[0], n);
      PastForever(Apply(s, steps[0]), steps[1..], s', n);
    }
  }

  /** The two states differ in no more than call `n`. */
  ghost predicate Alike(s: State, t: State, n: nat) {
    t == s.(calls := t.calls) && t.calls == s.calls - {n}
  }

  lemma CallAlike(s: State, t: State, m: nat, step: CallStep, n: nat)
    requires Alike(s, t, n) && CallEnabled(s, m, step) && m != n
    ensures CallEnabled(t, m, step) && CallPhase(t, m, step) == CallPhase(s, m, step)
  {
  }

  lemma CallEffectAlike(s: State, t: State, m: nat, step: CallStep, n: nat)
    requires Alike(s, t, n) && CallEnabled(s, m, step) && m != n && CallEnabled(t, m, step)
    requires CallPhase(t, m, step) == CallPhase(s, m, step)
    ensures CallEffect(t, m, step) == CallEffect(s, m, step).(calls := t.calls)
  {
    hide CallPhase;
  }

  lemma CleanupAlike(s: State, t: State, m: nat, step: CleanupStep, n: nat)
    requires Alike(s, t, n) && CleanupEnabled(s, m, step) && m != n
    ensures CleanupEnabled(t, m, step) && CleanupPhase(t, m, step) == CleanupPhase(s, m, step)
  {
  }

  lemma CleanupEffectAlike(s: State, t: State, m: nat, step: CleanupStep, n: nat)
    requires Alike(s, t, n) && CleanupEnabled(s, m, step) && m != n && CleanupEnabled(t, m, step)
    ensures CleanupEffect(t, m, step) == CleanupEffect(s, m, step).(calls := t.calls)
  {
    hide CleanupPhase;
  }

  lemma MovedAlike(a: map<nat, Call>, m: nat, call: Call, n: nat)
    requires m != n
    ensures (a - {n})[m := call] == a[m := call] - {n}
  {
  }

  /** A step of anybody else is the same step without the call. */
  lemma OtherStep(s: State, t: State, step: Step, n: nat)
    requires Alike(s, t, n) && Enabled(s, step) && !Own(step, n)
    ensures Enabled(t, step) && Alike(Apply(s, step), Apply(t, step), n)
  {
    hide CallEffect, CleanupEffect, CallPhase, CleanupPhase, NextTransfer;
    match step
    case CallMoves(m, c) =>
      CallAlike(s, t, m, c, n);
      CallEffectAlike(s, t, m, c, n);
      MovedAlike(s.calls, m, CallApply(s, m, c).calls[m], n);
    case CleanupMoves(m, e) =>
      CleanupAlike(s, t, m, e, n);
      CleanupEffectAlike(s, t, m, e, n);
      MovedAlike(s.calls, m, CleanupApply(s, m, e).calls[m], n);
    case TransportMoves(k, step) =>
      hide TransportApply;
      TransportAlike(s, t, k, step, n);
    case WorldMoves(_) =>
  }

  lemma TransferAlike(s: State, t: State, k: nat, step: TransportStep, n: nat)
    requires Alike(s, t, n) && TransportEnabled(s, k, step)
    ensures TransportEnabled(t, k, step)
    ensures NextTransfer(t, k, step) == NextTransfer(s, k, step) && Skips(t, k, step) == Skips(s, k, step)
  {
  }

  lemma TransportAlike(s: State, t: State, k: nat, step: TransportStep, n: nat)
    requires Alike(s, t, n) && TransportEnabled(s, k, step)
    ensures TransportEnabled(t, k, step) && Alike(TransportApply(s, k, step), TransportApply(t, k, step), n)
  {
    hide NextTransfer, Skips, TransportEnabled;
    TransferAlike(s, t, k, step, n);
  }

  predicate Waits(s: State, n: nat) {
    n in s.calls ==> !Past(s.calls[n].phase)
  }

  /** A step of a call that will have given up: it only moves the call. */
  lemma OwnStep(s: State, t: State, step: Step, n: nat)
    requires Alike(s, t, n) && Enabled(s, step) && Own(step, n)
    requires Waits(s, n) && Waits(Apply(s, step), n)
    requires n in s.calls ==> s.calls[n].phase == Queued || s.calls[n].phase.Returned?
    ensures Alike(Apply(s, step), t, n)
    ensures Apply(s, step).calls[n].phase == Queued || Apply(s, step).calls[n].phase.Returned?
  {
  }

  /** By induction over the run, next to the state `t` of the run without the call. */
  lemma {:induction false} GivingUpChangesNothing(s: State, t: State, steps: seq<Step>, s': State, n: nat)
    requires Leads(s, steps, s') && Alike(s, t, n)
    requires n in s.calls ==> s.calls[n].phase == Queued || s.calls[n].phase == Returned(GaveUp)
    requires n in s'.calls && s'.calls[n].phase == Returned(GaveUp)
    ensures Leads(t, Others(steps, n), Without(s', n))
    decreases |steps|
  {
    hide Enabled, Apply, Own;
    if steps != [] {
      var step, s1 := steps[0], Apply(s, steps[0]);
      if n in s1.calls && Past(s1.calls[n].phase) {
        PastForever(s1, steps[1..], s', n);
      } else if Own(step, n) {
        OwnStep(s, t, step, n);
        GivingUpChangesNothing(s1, t, steps[1..], s', n);
      } else {
        OtherStep(s, t, step, n);
        Untouched(s, step, n);
        GivingUpChangesNothing(s1, Apply(t, step), steps[1..], s', n);
        var rest := Others(steps[1..], n);
        assert ([step] + rest)[0] == step && ([step] + rest)[1..] == rest;
      }
    }
  }

  /** In every run from the start of a session: a call that gave up leaves the session and every other
      call as they would have been without it. */
  lemma GaveUpLeavesNoTrace(s0: State, steps: seq<Step>, s: State, n: nat)
    requires Init(s0) && Leads(s0, steps, s)
    requires n in s.calls && s.calls[n].phase == Returned(GaveUp)
    ensures Leads(s0, Others(steps, n), Without(s, n))
  {
    hide Leads, Others;
    assert s0.calls - {n} == s0.calls;
    GivingUpChangesNothing(s0, s0, steps, s, n);
  }
}
