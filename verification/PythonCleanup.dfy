/** The cleanup of the Python session: one caller at a time passes through it under a lock, and a
    failure is stored for every later caller. */
module PythonCleanup {
  import opened Wrappers
  import M = CleanupMachine

  /** What a signal meets: it is delivered, its target does not exist, or it is not permitted. */
  datatype Answer = Delivered | NotFound | Denied

  /** What killing the leader through its Popen object meets: that looks first, and reaps a leader
      that has exited instead of signalling it. */
  datatype LeaderKill = FoundExited | Signalled(answer: Answer)

  datatype Unlink = Removed | Missing | Raises

  /** What one pass through the cleanup meets. `fallback` is the kill of the leader after its group
      was denied, `kill` the one after the first wait; `looks(i)` is what the `i`th look at the process
      table says about live members, `patience` the rounds that fit into its budget; the waits say
      whether they reap the process within theirs, `closes` whether the error log closes without an
      error. */
  datatype Pass = Pass(
    stop: Answer,
    group: Answer,
    fallback: Answer,
    repeats: nat -> Answer,
    looks: nat -> Option<bool>,
    patience: nat,
    firstWait: bool,
    kill: LeaderKill,
    secondWait: bool,
    closes: bool,
    unlink: Unlink)

  datatype Outcome = Success | InstanceError | OsError | StillPending

  /** One call of the cleanup: the lock was not acquired in time, or a pass may be made. */
  datatype Turn = GaveUp | Enters(pass: Pass)

  /** `returned` is a set return code, `failure` the stored failure, `policy` a policy file that is
      still to be removed, `stderr` an error log that is still open. */
  datatype Session = Session(returned: bool, failure: bool, policy: bool, stderr: bool)

  /** A session whose constructor has not got to its end, and one that is open: the policy file is
      removed before the constructor returns. */
  const OPENING := Session(false, false, true, true)
  const OPENED := Session(false, false, false, true)

  datatype Event = Signal | Reaped

  // ---------- what a pass does ----------

  /** The group still shows a live member in every look that fits into the budget. */
  ghost predicate StaysLive(p: Pass) {
    forall i: nat | i <= p.patience :: p.looks(i) == Some(true)
  }

  predicate Denies(p: Pass) {
    p.stop == Denied || (p.stop == Delivered && p.group == Denied)
  }

  /** A kill is denied where nobody catches it: of the leader after its group was denied, or of the
      leader that outlived the first wait. */
  predicate KillRaises(p: Pass) {
    || FallbackRaises(p)
    || (!p.firstWait && p.kill == Signalled(Denied))
  }

  predicate FallbackRaises(p: Pass) {
    p.stop == Delivered && p.group == Denied && p.fallback == Denied
  }

  predicate Reaps(p: Pass) {
    p.firstWait || p.kill == FoundExited || p.secondWait
  }

  /** The process tree could not be ended, or the process not be reaped. */
  ghost predicate TreeFails(p: Pass) {
    || KillRaises(p)
    || (if Denies(p) then p.looks(0) != Some(false) else StaysLive(p))
    || !Reaps(p)
  }

  /** The pass ends in an error of the operating system, which nobody stores: a kill is denied, the
      error log does not close, or the policy file cannot be removed. */
  predicate Escapes(s: Session, p: Pass) {
    (!s.returned && KillRaises(p)) || (s.stderr && !p.closes) || (s.policy && p.unlink == Raises)
  }

  /** One pass, as a function of the session before it. */
  ghost function Once(s: Session, p: Pass): (r: (Session, Outcome)) {
    if !s.returned && KillRaises(p) then (s, OsError)
    else
      var s' := Session(s.returned || Reaps(p), s.failure, s.policy, false);
      if Escapes(s, p) then (s'.(policy := s.policy), OsError)
      else (s'.(policy := false), if !s.returned && TreeFails(p) then InstanceError else Success)
  }

  /** One call: a stored failure is raised without another pass, and a pass that ends in a cleanup
      failure stores it. */
  ghost function Call(s: Session, turn: Turn): (r: (Session, Outcome)) {
    match turn
    case GaveUp => (s, StillPending)
    case Enters(p) =>
      if s.failure then (s, InstanceError)
      else
        var (s', outcome) := Once(s, p);
        if outcome == InstanceError then (s'.(failure := true), outcome) else (s', outcome)
  }

  ghost predicate SignalsBeforeReap(log: seq<Event>) {
    forall i, j | 0 <= i < j < |log| :: log[i] == Reaped ==> log[j] != Signal
  }

  // ---------- the object ----------

  class AgentContext {
    var returned: bool
    var failure: bool
    var policy: bool
    var stderr: bool
    var log: seq<Event>

    ghost predicate Valid()
      reads this
    {
      SignalsBeforeReap(log) && (Reaped in log <==> returned)
    }

    function View(): Session
      reads this
    {
      Session(returned, failure, policy, stderr)
    }

    constructor ()
      ensures Valid() && View() == OPENING
    {
      returned, failure, policy, stderr, log := false, false, true, true, [];
    }

    /** Only an unreaped process may be signalled. */
    method Send()
      requires Valid() && !returned
      modifies this`log
      ensures Valid() && log == old(log) + [Signal]
    {
      log := log + [Signal];
    }

    method Wait(reaps: bool)
      requires Valid() && !returned
      modifies this`log, this`returned
      ensures Valid() && returned == reaps
      ensures log == if reaps then old(log) + [Reaped] else old(log)
    {
      if reaps {
        log := log + [Reaped];
        returned := true;
      }
    }

    method KillTree(p: Pass) returns (denied: bool, raised: bool)
      requires Valid() && !returned
      modifies this`log
      ensures Valid() && denied == Denies(p) && raised == FallbackRaises(p) && old(log) < log
    {
      Send();
      if p.stop == NotFound {
        return false, false;
      }
      if p.stop == Denied {
        return true, false;
      }
      Send();
      denied := p.group == Denied;
      raised := false;
      if denied {
        Send();
        raised := p.fallback == Denied;
      }
    }

    method ResendGroupKill(p: Pass) returns (failed: bool)
      requires Valid() && !returned
      modifies this`log
      ensures Valid() && (failed <==> StaysLive(p)) && old(log) < log
    {
      var attempt := 0;
      while attempt < 3
        invariant 0 <= attempt <= 3 && Valid() && !returned
        invariant old(log) <= log && (attempt > 0 ==> old(log) < log)
        modifies this`log
      {
        Send();
        if p.repeats(attempt) != Delivered {
          break;
        }
        attempt := attempt + 1;
      }
      var look := 0;
      while p.looks(look) == Some(true)
        invariant 0 <= look <= p.patience && Valid() && !returned && old(log) < log
        invariant forall i: nat | i < look :: p.looks(i) == Some(true)
        decreases p.patience - look
        modifies this`log
      {
        if look == p.patience {
          return true;
        }
        Send();
        look := look + 1;
      }
      failed := false;
    }

    /** Waits, kills the leader if that was too short, and waits again. */
    method Reap(p: Pass) returns (failed: bool, raised: bool)
      requires Valid() && !returned
      modifies this`log, this`returned
      ensures Valid() && old(log) <= log
      ensures raised == (!p.firstWait && p.kill == Signalled(Denied))
      ensures raised ==> !returned
      ensures !raised ==> returned == Reaps(p) && failed == !Reaps(p)
    {
      Wait(p.firstWait);
      if p.firstWait {
        return false, false;
      }
      if p.kill == FoundExited {
        Wait(true);
        return false, false;
      }
      Send();
      if p.kill.answer == Denied {
        return true, true;
      }
      Wait(p.secondWait);
      return !p.secondWait, false;
    }

    method RemovePolicy(unlink: Unlink) returns (raised: bool)
      requires Valid()
      modifies this`policy
      ensures Valid() && raised == (old(policy) && unlink == Raises) && policy == raised
    {
      if policy {
        if unlink == Raises {
          return true;
        }
        policy := false;
      }
      raised := false;
    }

    /** Signals and reaps the process unless it has been reaped, closes the error log and removes the
        policy file; an error of the operating system on the way hides one of the process tree. */
    method TerminateOnce(p: Pass) returns (outcome: Outcome)
      requires Valid()
      modifies this`log, this`returned, this`policy, this`stderr
      ensures Valid()
      ensures (View(), outcome) == Once(old(View()), p)
      ensures old(returned) ==> log == old(log)
      ensures !old(returned) ==> old(log) < log
    {
      var failed := false;
      if !returned {
        var denied, raised := KillTree(p);
        if raised {
          return OsError;
        }
        if !denied {
          failed := ResendGroupKill(p);
        } else {
          failed := p.looks(0) != Some(false);
        }
        var unreaped, killRaised := Reap(p);
        if killRaised {
          return OsError;
        }
        failed := failed || unreaped;
      }
      if stderr {
        stderr := false;
        if !p.closes {
          return OsError;
        }
      }
      var unremoved := RemovePolicy(p.unlink);
      outcome := if unremoved then OsError else if failed then InstanceError else Success;
    }

    method Terminate(turn: Turn) returns (outcome: Outcome)
      requires Valid()
      modifies this
      ensures Valid()
      ensures (View(), outcome) == Call(old(View()), turn)
      ensures old(returned) ==> log == old(log)
    {
      if turn == GaveUp {
        return StillPending;
      }
      if failure {
        return InstanceError;
      }
      outcome := TerminateOnce(turn.pass);
      if outcome == InstanceError {
        failure := true;
      }
    }
  }

  // ---------- runs ----------

  /** The session after the calls, one after the other. */
  ghost function After(s: Session, turns: seq<Turn>): Session
    decreases |turns|
  {
    if turns == [] then s else After(Call(s, turns[0]).0, turns[1..])
  }

  /** What the last of the calls reports. */
  ghost function Last(s: Session, turns: seq<Turn>): Outcome
    requires turns != []
    decreases |turns|
  {
    if |turns| == 1 then Call(s, turns[0]).1 else Last(Call(s, turns[0]).0, turns[1..])
  }

  /** A stored failure is raised to every later caller that gets the lock, and nothing is done any more. */
  lemma {:induction false} StoredFailureSticks(s: Session, turns: seq<Turn>)
    requires s.failure && turns != []
    ensures After(s, turns) == s
    ensures Last(s, turns) == if turns[|turns| - 1] == GaveUp then StillPending else InstanceError
  {
    assert Call(s, turns[0]).0 == s;
    if |turns| > 1 {
      StoredFailureSticks(s, turns[1..]);
    } else {
      assert turns[1..] == [];
    }
  }

  /** A pass that ends the tree and reaps the process at once. */
  function SmoothPass(): Pass {
    Pass(Delivered, Delivered, Delivered, (i: nat) => Delivered, (i: nat) => Some(false), 0, true, FoundExited, true, true, Removed)
  }

  lemma SmoothPassSucceeds(s: Session)
    requires !s.failure
    ensures Call(s, Enters(SmoothPass())) == (Session(true, false, false, false), Success)
  {
    assert !StaysLive(SmoothPass()) by {
      assert SmoothPass().looks(0) == Some(false);
    }
  }

  lemma LastOfOne(s: Session, turn: Turn)
    ensures [turn] != [] && Last(s, [turn]) == Call(s, turn).1
  {
  }

  /** After a pass in which ending the tree failed, a later caller can be told success exactly if the
      pass ended in an error of the operating system: then the failure was never stored. */
  lemma FailureIsKeptIff(s: Session, p: Pass)
    requires !s.failure && !s.returned && TreeFails(p)
    ensures (exists turns | turns != [] :: Last(Call(s, Enters(p)).0, turns) == Success) <==> Escapes(s, p)
  {
    var s' := Call(s, Enters(p)).0;
    if Escapes(s, p) {
      SmoothPassSucceeds(s');
      LastOfOne(s', Enters(SmoothPass()));
    } else {
      forall turns | turns != [] ensures Last(s', turns) != Success {
        StoredFailureSticks(s', turns);
      }
    }
  }

  /** Two inputs in which the documented rule fails. While a session is being opened, its policy file
      still there: members of the group stay alive, the leader is reaped, removing the file raises; the
      next caller is told success, and by then nothing is signalled any more. */
  lemma LostFailure() returns (p: Pass, q: Pass)
    ensures TreeFails(p) && !KillRaises(p) && Escapes(OPENING, p)
    ensures var s := Call(OPENING, Enters(p)).0; s.returned && !s.failure && Call(s, Enters(q)).1 == Success
  {
    p := SmoothPass().(looks := (i: nat) => Some(true), unlink := Raises);
    q := SmoothPass();
    assert StaysLive(p);
  }

  /** And once it is open: all signals are denied, a member is alive, the leader outlives the first wait
      and its kill is denied too. The pass changes nothing; when the leader has exited by itself and no
      live member shows, the next caller is told success, because nothing was stored. */
  lemma LostDenial() returns (p: Pass, q: Pass)
    ensures TreeFails(p) && Escapes(OPENED, p) && Denies(p) && p.looks(0) == Some(true)
    ensures Call(OPENED, Enters(p)) == (OPENED, OsError)
    ensures Denies(q) && Call(OPENED, Enters(q)).1 == Success
  {
    q := SmoothPass().(stop := Denied);
    p := q.(looks := (i: nat) => Some(true), firstWait := false, kill := Signalled(Denied), secondWait := false);
    assert q.looks(0) == Some(false);
  }

  /** In an open session whose error log closes, a denied kill is the only way to lose a failure. */
  lemma OpenedLosesOnlyDenials(s: Session, p: Pass)
    requires !s.returned && !s.policy && p.closes
    ensures Escapes(s, p) <==> KillRaises(p)
  {
  }

  // ---------- the same machine as the Go session ----------

  /** What the cleanup machine sees: the cleanup is done when the process is reaped or its failure stored. */
  function Abstract(s: Session): M.Machine {
    M.Machine(s.returned || s.failure, s.failure, s.policy)
  }

  /** What a call is to the machine: the first pass ends the process, and every pass asks. */
  ghost function Actions(s: Session, turn: Turn): seq<M.Action> {
    match turn
    case GaveUp => []
    case Enters(p) => if s.returned || s.failure then [AskOf(s, p)] else [M.Finish(TreeFails(p)), AskOf(s, p)]
  }

  /** The policy is removed by a pass that gets to its end. */
  function AskOf(s: Session, p: Pass): M.Action {
    M.Ask(!s.failure && !Escapes(s, p))
  }

  /** What the machine tells the call. */
  ghost predicate Granted(s: Session, turn: Turn) {
    && turn.Enters?
    && var m := if s.returned || s.failure then Abstract(s) else M.Next(Abstract(s), M.Finish(TreeFails(turn.pass)));
       M.Granted(m, AskOf(s, turn.pass))
  }

  /** The pass both fails to end the tree and ends in an error that nobody stores. */
  ghost predicate Hides(s: Session, turn: Turn) {
    turn.Enters? && !s.failure && !s.returned && TreeFails(turn.pass) && Escapes(s, turn.pass)
  }

  /** A call that hides nothing is a run of the machine. Its caller is told success exactly when the
      machine grants it, but for an error log that does not close. */
  lemma CallRefines(s: Session, turn: Turn)
    requires !Hides(s, turn)
    ensures M.Runs(Abstract(s), Actions(s, turn), Abstract(Call(s, turn).0))
    ensures Call(s, turn).1 == Success <==> Granted(s, turn) && !(s.stderr && !turn.pass.closes)
  {
    match turn
    case GaveUp =>
    case Enters(p) =>
      var m, ask, m' := Abstract(s), AskOf(s, p), Abstract(Call(s, turn).0);
      if s.returned || s.failure {
        assert M.Runs(M.Next(m, ask), [], m');
        assert [ask][1..] == [];
      } else {
        var finish := M.Finish(TreeFails(p));
        assert M.Runs(M.Next(M.Next(m, finish), ask), [], m');
        assert [ask][1..] == [] && [finish, ask][1..] == [ask];
      }
  }

  ghost predicate NothingHidden(s: Session, turns: seq<Turn>)
    decreases |turns|
  {
    turns != [] ==> !Hides(s, turns[0]) && NothingHidden(Call(s, turns[0]).0, turns[1..])
  }

  ghost function RunActions(s: Session, turns: seq<Turn>): seq<M.Action>
    decreases |turns|
  {
    if turns == [] then [] else Actions(s, turns[0]) + RunActions(Call(s, turns[0]).0, turns[1..])
  }

  /** Every run of the Python cleanup in which nothing is hidden is a run of the machine that the Go
      session implements. */
  lemma {:induction false} RunRefines(s: Session, turns: seq<Turn>)
    requires NothingHidden(s, turns)
    ensures M.Runs(Abstract(s), RunActions(s, turns), Abstract(After(s, turns)))
    decreases |turns|
  {
    hide Call, Actions, Abstract, Hides;
    if turns != [] {
      var s' := Call(s, turns[0]).0;
      CallRefines(s, turns[0]);
      RunRefines(s', turns[1..]);
      M.RunsOn(Abstract(s), Actions(s, turns[0]), Abstract(s'), RunActions(s', turns[1..]), Abstract(After(s, turns)));
    }
  }

  /** The first caller that made a pass ended the tree in it. */
  ghost predicate FirstPassEnds(turns: seq<Turn>) {
    exists i | 0 <= i < |turns| && turns[i].Enters? :: !TreeFails(turns[i].pass) && (forall j | 0 <= j < i :: turns[j] == GaveUp)
  }

  /** With nothing hidden, success means that the process was reaped, that its tree was ended by the
      first pass, and that the policy file is gone. */
  lemma {:induction false} SuccessIsConfirmed(s: Session, turns: seq<Turn>)
    requires !s.failure && NothingHidden(s, turns) && turns != []
    requires Last(s, turns) == Success
    ensures After(s, turns) == Session(true, false, false, false)
    ensures !s.returned ==> FirstPassEnds(turns)
    decreases |turns|
  {
    var s' := Call(s, turns[0]).0;
    if |turns| == 1 {
      assert turns[1..] == [] && turns[0].Enters?;
      assert !s.returned ==> !TreeFails(turns[0].pass);
    } else {
      if s'.failure {
        StoredFailureSticks(s', turns[1..]);
      }
      SuccessIsConfirmed(s', turns[1..]);
      if turns[0].Enters? {
        assert !s.returned ==> !TreeFails(turns[0].pass);
      } else if !s.returned {
        FirstPassLater(turns);
      }
    }
  }

  lemma FirstPassLater(turns: seq<Turn>)
    requires turns != [] && turns[0] == GaveUp && FirstPassEnds(turns[1..])
    ensures FirstPassEnds(turns)
  {
    var i :| 0 <= i < |turns[1..]| && turns[1..][i].Enters? && !TreeFails(turns[1..][i].pass)
      && forall j | 0 <= j < i :: turns[1..][j] == GaveUp;
    assert turns[i + 1] == turns[1..][i];
    forall j | 0 <= j < i + 1 ensures turns[j] == GaveUp {
      assert j > 0 ==> turns[j] == turns[1..][j - 1];
    }
  }
}
