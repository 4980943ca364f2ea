/** The rule that both cleanups implement: the process is ended once, by the first caller, and whether
    that failed is stored for everybody; each caller that asks is told success if it did not fail and
    the policy is gone, and removing the policy is tried again for each of them. */
module CleanupMachine {

  datatype Machine = Machine(done: bool, failure: bool, policy: bool)

  /** `Finish` ends the process, `Ask` is one caller with its try to remove the policy, `Clear` is a
      removal of the policy outside the cleanup. */
  datatype Action = Finish(failed: bool) | Ask(removed: bool) | Clear

  predicate Allowed(m: Machine, a: Action) {
    match a
    case Finish(_) => !m.done
    case Ask(_) => m.done
    case Clear => true
  }

  function Next(m: Machine, a: Action): Machine {
    match a
    case Finish(failed) => m.(done := true, failure := failed)
    case Ask(removed) => m.(policy := m.policy && !removed)
    case Clear => m.(policy := false)
  }

  /** The caller is told success. */
  predicate Granted(m: Machine, a: Action) {
    a.Ask? && !m.failure && !Next(m, a).policy
  }

  ghost predicate Runs(m: Machine, actions: seq<Action>, m': Machine)
    decreases |actions|
  {
    if actions == [] then m' == m else Allowed(m, actions[0]) && Runs(Next(m, actions[0]), actions[1..], m')
  }

  lemma {:induction false} RunsOn(m: Machine, actions: seq<Action>, between: Machine, more: seq<Action>, m': Machine)
    requires Runs(m, actions, between) && Runs(between, more, m')
    ensures Runs(m, actions + more, m')
    decreases |actions|
  {
    if actions == [] {
      assert actions + more == more;
    } else {
      RunsOn(Next(m, actions[0]), actions[1..], between, more, m');
      assert (actions + more)[1..] == actions[1..] + more;
    }
  }

  /** In every run: what is done stays done with the same failure, and a policy that is gone stays gone.
      So after a failure nobody is told success any more, and after one success everybody is. */
  lemma {:induction false} VerdictStands(m: Machine, actions: seq<Action>, m': Machine)
    requires Runs(m, actions, m')
    ensures m.done ==> m'.done && m'.failure == m.failure
    ensures !m.policy ==> !m'.policy
    ensures m.done && m.failure ==> forall a :: !Granted(m', a)
    ensures m.done && !m.failure && !m.policy ==> forall a: Action | a.Ask? :: Granted(m', a)
    decreases |actions|
  {
    if actions != [] {
      VerdictStands(Next(m, actions[0]), actions[1..], m');
    }
  }
}
