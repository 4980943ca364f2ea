/** Ending a process group by its number, which is the leader's only while the leader is unreaped. */
module ProcessUnix {

  /** What kill(2) answers for the group. */
  datatype Answer = Sent | NoSuchProcess | NotPermitted | Refused

  /** What killing the leader itself answers. */
  datatype Kill = Killed | AlreadyDone | Missing | KillRefused

  /** What a look at the process table says. */
  datatype Look = Unknown | Known(live: bool)

  datatype Event = GroupSignal | ProcessSignal

  datatype Verdict = Ended | GroupError | ProcessError

  const GROUP_KILL_REPEATS := 3

  /** A started command and the operating system as it meets it: `answers(i)` is what the `i`th
      group signal gets, `looks(i)` what the `i`th look at the process table shows. */
  class Command {
    const started: bool
    const pid: int
    const answers: nat -> Answer
    const looks: nat -> Look
    const kill: Kill
    var waited: bool
    var reaped: bool
    var sent: nat
    var looked: nat
    var log: seq<Event>

    constructor (started: bool, pid: int, answers: nat -> Answer, looks: nat -> Look, kill: Kill)
      ensures this.started == started && this.pid == pid && this.kill == kill
      ensures this.answers == answers && this.looks == looks
      ensures !waited && !reaped && sent == 0 && looked == 0 && log == []
    {
      this.started, this.pid, this.answers, this.looks, this.kill := started, pid, answers, looks, kill;
      waited, reaped, sent, looked, log := false, false, 0, 0, [];
    }

    /** Only a command that nothing has waited for may be signalled. */
    method SignalGroup() returns (answer: Answer)
      requires started && pid > 0 && !waited && !reaped
      modifies this`sent, this`log
      ensures answer == answers(old(sent)) && sent == old(sent) + 1
      ensures log == old(log) + [GroupSignal]
    {
      answer := answers(sent);
      sent := sent + 1;
      log := log + [GroupSignal];
    }

    method KillProcess() returns (answer: Kill)
      requires started && !waited && !reaped
      modifies this`log
      ensures answer == kill && log == old(log) + [ProcessSignal]
    {
      answer := kill;
      log := log + [ProcessSignal];
    }

    method LookAtGroup() returns (look: Look)
      modifies this`looked
      ensures look == looks(old(looked)) && looked == old(looked) + 1
    {
      look := looks(looked);
      looked := looked + 1;
    }
  }

  // ---------- what ending the group means ----------

  /** Within `patience` further rounds a look stops showing a live member. */
  ghost predicate GroupEmpties(looks: nat -> Look, from: nat, patience: nat) {
    exists i: nat | from <= i <= from + patience :: looks(i) != Known(true)
  }

  /** The group is gone, as far as a signal and the process table can tell. */
  ghost predicate GroupEnds(c: Command, sent: nat, looked: nat, patience: nat) {
    match c.answers(sent)
    case Sent => GroupEmpties(c.looks, looked, patience)
    case NoSuchProcess => true
    case NotPermitted => c.looks(looked) == Known(false)
    case Refused => false
  }

  ghost predicate ProcessEnds(c: Command) {
    c.kill != KillRefused
  }

  /** `r` is the number of repeats after a first signal that was sent: they stop after the first
      that is not sent, and after three. */
  ghost predicate Repeated(c: Command, sent: nat, r: nat) {
    && 1 <= r <= GROUP_KILL_REPEATS
    && (forall i: nat | sent < i < sent + r :: c.answers(i) == Sent)
    && (r < GROUP_KILL_REPEATS ==> c.answers(sent + r) != Sent)
  }

  /** `n` is the number of signals of the confirmation: one for each look that shows a live member,
      until one does not or the budget is used up. */
  ghost predicate Confirmed(c: Command, looked: nat, patience: nat, n: nat) {
    && n <= patience
    && (forall i: nat | looked <= i < looked + n :: c.looks(i) == Known(true))
    && (n < patience ==> c.looks(looked + n) != Known(true))
  }

  function Signals(n: nat): (s: seq<Event>)
    ensures |s| == n && forall i | 0 <= i < n :: s[i] == GroupSignal
  {
    if n == 0 then [] else Signals(n - 1) + [GroupSignal]
  }

  // ---------- terminateProcess ----------

  /** Sends the first signal again, briefly. */
  method RepeatSignal(c: Command)
    requires c.started && c.pid > 0 && !c.waited && !c.reaped
    requires c.sent >= 1 && c.answers(c.sent - 1) == Sent
    modifies c`sent, c`log
    ensures exists r: nat | Repeated(c, old(c.sent) - 1, r) :: c.sent == old(c.sent) + r && c.log == old(c.log) + Signals(r)
  {
    ghost var first: nat, log := c.sent - 1, c.log;
    var attempt := 0;
    while attempt < GROUP_KILL_REPEATS
      invariant 0 <= attempt <= GROUP_KILL_REPEATS
      invariant c.sent == first + 1 + attempt && c.log == log + Signals(attempt)
      invariant forall i: nat | first < i <= first + attempt :: c.answers(i) == Sent
      modifies c`sent, c`log
    {
      var answer := c.SignalGroup();
      assert c.log == log + Signals(attempt + 1);
      attempt := attempt + 1;
      if answer != Sent {
        assert Repeated(c, first, attempt);
        return;
      }
    }
    assert Repeated(c, first, GROUP_KILL_REPEATS);
  }

  /** Looks until the group has no live member, signalling it again while it has; `patience` is the
      number of rounds that fit in the budget. */
  method ConfirmGroup(c: Command, patience: nat) returns (ok: bool)
    requires c.started && c.pid > 0 && !c.waited && !c.reaped
    modifies c`sent, c`log, c`looked
    ensures ok <==> GroupEmpties(c.looks, old(c.looked), patience)
    ensures exists n: nat | Confirmed(c, old(c.looked), patience, n) :: c.sent == old(c.sent) + n && c.log == old(c.log) + Signals(n)
  {
    ghost var from, sent, log := c.looked, c.sent, c.log;
    var round := 0;
    while true
      invariant 0 <= round <= patience
      invariant c.looked == from + round && c.sent == sent + round && c.log == log + Signals(round)
      invariant forall i: nat | from <= i < from + round :: c.looks(i) == Known(true)
      decreases patience - round
      modifies c`sent, c`log, c`looked
    {
      var look := c.LookAtGroup();
      if look == Unknown || !look.live {
        assert c.looks(from + round) != Known(true);
        assert Confirmed(c, from, patience, round);
        return true;
      }
      if round == patience {
        assert Confirmed(c, from, patience, round);
        return false;
      }
      var _ := c.SignalGroup();
      assert c.log == log + Signals(round + 1);
      round := round + 1;
    }
  }

  /** After a first signal that was sent. */
  method RepeatAndConfirm(c: Command, patience: nat, ghost before: seq<Event>) returns (ok: bool)
    requires c.started && c.pid > 0 && !c.waited && !c.reaped
    requires c.sent >= 1 && c.answers(c.sent - 1) == Sent && c.log == before + [GroupSignal]
    modifies c`sent, c`log, c`looked
    ensures ok <==> GroupEmpties(c.looks, old(c.looked), patience)
    ensures GroupLog(c, old(c.sent) - 1, old(c.looked), patience, before, c.log)
  {
    ghost var first: nat, looked := c.sent - 1, c.looked;
    RepeatSignal(c);
    ghost var r: nat :| Repeated(c, first, r) && c.log == before + [GroupSignal] + Signals(r);
    ok := ConfirmGroup(c, patience);
    ghost var n: nat :| Confirmed(c, looked, patience, n) && c.log == before + [GroupSignal] + Signals(r) + Signals(n);
    AddSignals(before, r, n);
  }

  lemma AddSignals(before: seq<Event>, r: nat, n: nat)
    ensures before + [GroupSignal] + Signals(r) + Signals(n) == before + Signals(1 + r + n)
  {
    SignalsAdd(1, r);
    SignalsAdd(1 + r, n);
    assert Signals(1) == [GroupSignal];
    assert before + [GroupSignal] + Signals(r) + Signals(n) == before + ([GroupSignal] + Signals(r) + Signals(n));
  }

  /** Everything that is done about the group; `ok` when nothing stands in the way of the verdict. */
  method EndGroup(c: Command, patience: nat) returns (ok: bool)
    requires c.started && c.pid > 0 && !c.waited && !c.reaped
    modifies c`sent, c`log, c`looked
    ensures ok <==> GroupEnds(c, old(c.sent), old(c.looked), patience)
    ensures GroupLog(c, old(c.sent), old(c.looked), patience, old(c.log), c.log)
  {
    ghost var sent, looked, log := c.sent, c.looked, c.log;
    var groupErr := c.SignalGroup();
    if groupErr == Sent {
      ok := RepeatAndConfirm(c, patience, log);
    } else if groupErr == NotPermitted {
      var look := c.LookAtGroup();
      ok := look == Known(false);
      assert c.log == log + Signals(1);
    } else {
      ok := groupErr == NoSuchProcess;
      assert c.log == log + Signals(1);
    }
  }

  /** What the log gains: one signal if the first was not sent, else the first, its repeats and
      those of the confirmation. */
  ghost predicate GroupLog(c: Command, sent: nat, looked: nat, patience: nat, before: seq<Event>, after: seq<Event>) {
    if c.answers(sent) != Sent then after == before + Signals(1)
    else exists r: nat, n: nat | Repeated(c, sent, r) && Confirmed(c, looked, patience, n) :: after == before + Signals(1 + r + n)
  }

  lemma {:induction false} SignalsAdd(m: nat, n: nat)
    ensures Signals(m) + Signals(n) == Signals(m + n)
  {
    if n > 0 {
      SignalsAdd(m, n - 1);
      assert Signals(m) + Signals(n) == Signals(m) + Signals(n - 1) + [GroupSignal];
    } else {
      assert Signals(m) + [] == Signals(m);
    }
  }

  /** Ends the process group that the command leads. A missing or reaped command is not signalled;
      a waiter must not be running. */
  method TerminateProcess(command: Command?, patience: nat) returns (verdict: Verdict)
    requires command != null && !command.reaped ==> !command.waited
    modifies if command == null then {} else {command}
    ensures command == null || !command.started || old(command.reaped) ==> verdict == Ended
    ensures command != null && (!command.started || old(command.reaped)) ==> command.log == old(command.log)
    ensures command != null && command.started && !old(command.reaped) ==>
      && (verdict == GroupError <==> command.pid > 0 && !GroupEnds(command, old(command.sent), old(command.looked), patience))
      && (verdict == Ended ==> ProcessEnds(command))
      && (verdict == ProcessError ==> !ProcessEnds(command))
      && command.log != [] && command.log[|command.log| - 1] == ProcessSignal
      && (command.pid <= 0 ==> command.log == old(command.log) + [ProcessSignal])
      && (command.pid > 0 ==> GroupLog(command, old(command.sent), old(command.looked), patience, old(command.log), command.log[..|command.log| - 1]))
    ensures command != null ==> command.reaped == old(command.reaped) && command.waited == old(command.waited)
  {
    if command == null || !command.started {
      return Ended;
    }
    if command.reaped {
      return Ended;
    }
    var groupOk := true;
    if command.pid > 0 {
      groupOk := EndGroup(command, patience);
    }
    ghost var log := command.log;
    var processErr := command.KillProcess();
    assert command.log[..|command.log| - 1] == log;
    if !groupOk {
      return GroupError;
    }
    if processErr == KillRefused {
      return ProcessError;
    }
    return Ended;
  }

  // ---------- terminateAndReap ----------

  /** What waiting for the command gives within its budget. */
  datatype Reap = Exited | ExitError | WaitError | OverBudget

  datatype Trouble = TreeSurvives | NotReaped | WaitFailed

  /** `reapAgentProcess` with `terminateAndReap`: every signal goes out before Wait is started; the
      pipes are closed in between. An exit status is no failure, and an error of Wait is not reported
      beside one of the tree. */
  method ReapAgentProcess(command: Command?, patience: nat, reap: Reap) returns (failures: seq<Trouble>)
    requires command != null ==> !command.waited
    modifies if command == null then {} else {command}
    ensures command == null ==> failures == []
    ensures command != null ==> command.waited && command.reaped == (old(command.reaped) || reap != OverBudget)
    ensures command != null && command.started && !old(command.reaped) ==>
      var ended := (command.pid > 0 ==> GroupEnds(command, old(command.sent), old(command.looked), patience)) && ProcessEnds(command);
      && (TreeSurvives in failures <==> !ended)
      && (NotReaped in failures <==> reap == OverBudget)
      && (WaitFailed in failures <==> ended && reap == WaitError)
      && (failures == [] <==> ended && (reap == Exited || reap == ExitError))
      && (forall i, j | 0 <= i < j < |failures| :: failures[i] != failures[j])
  {
    failures := [];
    if command == null {
      return;
    }
    var verdict := TerminateProcess(command, patience);
    command.waited := true;
    if reap != OverBudget {
      command.reaped := true;
    }
    if verdict != Ended {
      failures := failures + [TreeSurvives];
    }
    if reap == OverBudget {
      failures := failures + [NotReaped];
    } else if verdict == Ended && reap == WaitError {
      failures := failures + [WaitFailed];
    }
  }

  lemma LiveBefore(c: Command, looked: nat, patience: nat, n: nat, m: nat)
    requires Confirmed(c, looked, patience, n) && m < n
    ensures c.looks(looked + m) == Known(true)
  {
  }

  /** Exactly one number of rounds confirms, and it says whether the group empties. */
  lemma ConfirmationDecides(c: Command, looked: nat, patience: nat, n: nat)
    requires Confirmed(c, looked, patience, n)
    ensures GroupEmpties(c.looks, looked, patience) <==> c.looks(looked + n) != Known(true)
    ensures forall m: nat | Confirmed(c, looked, patience, m) :: m == n
  {
    forall m: nat | Confirmed(c, looked, patience, m) ensures m == n {
      if m < n {
        LiveBefore(c, looked, patience, n, m);
      } else if n < m {
        LiveBefore(c, looked, patience, m, n);
      }
    }
  }

  /** At most four signals before the confirmation and one for each of its rounds. */
  lemma SignalsBounded(c: Command, sent: nat, looked: nat, patience: nat, before: seq<Event>, after: seq<Event>)
    requires GroupLog(c, sent, looked, patience, before, after)
    ensures before <= after && |before| + 1 <= |after| <= |before| + 4 + patience
  {
  }
}
