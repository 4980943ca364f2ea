/** The agent session as a protocol: any number of calls, the transport goroutines they start and
    the one cleanup, stepping in any interleaving. A deadline, a cancellation, an exhausted budget
    or a line from the Engine may come at any step. */
module AgentProtocol {
  import opened ProcessEvents
  import opened Wrappers

  // ---------- state ----------

  datatype Kind = Exchange | Tool | Close | Cancel

  /** What a caller of the cleanup learns: nil, a failure, or "still pending". */
  datatype Cleanup = Clean | Failed | Pending

  datatype Outcome =
    | GaveUp                              // its own context or deadline ended before it had the slot
    | Crashed                             // it had the slot, but the session was over
    | Invalid                             // the request could not be encoded within its bound
    | Answer(serial: nat, lineID: nat)    // a result or a typed Engine error from a response line
    | Terminal(cleanup: Cleanup)          // an error that ended the session
    | Ended(cleanup: Cleanup)             // what Close and Cancel return

  /** Where a call is inside `shutdown`. The owner passes through the stages from Signalling to
      Announcing; every caller then reports from Reading on. */
  datatype Stage =
    | Claim
    | Following
    | Signalling
    | Closing(killFailed: bool)
    | Waiting(killFailed: bool)
    | Reaping(killFailed: bool)
    | Storing(failed: bool)
    | Announcing
    | Reading
    | Policy(failed: bool)
    | Removing(failed: bool)
    | Clearing(failed: bool)
    | Done(cleanup: Cleanup)

  /** What the call does once `shutdown` has returned. */
  datatype Next = ThenJoin(serial: nat) | ThenRelease | ThenReturn

  datatype Phase =
    | Queued                              // selecting on the exchange slot
    | Admitted                            // holds the slot, has not looked at the session yet
    | Prepared(serial: nat)               // holds the slot and an id, has not started its transport
    | Awaiting(serial: nat)               // selecting on its transport's result
    | Ending(stage: Stage, next: Next)
    | Joining(serial: nat, cleanup: Cleanup)
    | Releasing(outcome: Outcome)
    | Parsing(outcome: Outcome)           // a tool call looks at its result, without the slot
    | Returned(outcome: Outcome)

  datatype Call = Call(kind: Kind, phase: Phase)

  /** A line as the transport classifies it: the starter's acknowledgement, a response envelope
      with its id, or anything else. */
  datatype Line = Ack | Envelope(id: nat, valid: bool) | Other

  datatype Result = Broken | Read(line: Line)

  datatype Transfer =
    | Writing
    | FirstRead
    | Checking(line: Line, index: nat)
    | SecondRead
    | Finished(result: Result)

  datatype Transport = Transport(call: nat, transfer: Transfer)

  /** `closed`, `started`, `command`, `failure`, `done`, `policy`, `issued` and `seen` are the
      fields of the source; the rest is the environment and the history: `owner` the call that
      claimed the cleanup, `taken` the calls that took the command, `log` the process events,
      `trouble` whether ending or reaping the process failed, `written` the serials in the order
      their bytes were written, `lines` the number of lines read, `skipped` the indices of the
      skipped ones, `dir` whether the recorded policy directory exists. */
  datatype State = State(
    calls: map<nat, Call>,
    slot: Option<nat>,
    closed: bool,
    started: bool,
    command: bool,
    failure: bool,
    done: bool,
    policy: bool,
    issued: nat,
    transports: map<nat, Transport>,
    seen: bool,
    wait: Wait,
    owner: Option<nat>,
    taken: seq<nat>,
    log: seq<Event>,
    trouble: bool,
    written: seq<nat>,
    lines: nat,
    skipped: seq<nat>,
    dir: bool)

  /** The request id on the wire: a counter of 64 bits. */
  function WireID(serial: nat): nat {
    serial % 0x1_0000_0000_0000_0000
  }

  predicate Init(s: State) {
    && s.calls == map[] && s.slot == None && !s.closed && !s.started
    && !s.failure && !s.done && s.issued == 0 && s.transports == map[] && !s.seen
    && s.wait == NotStarted && s.owner == None && s.taken == [] && s.log == [] && !s.trouble
    && s.written == [] && s.lines == 0 && s.skipped == [] && s.dir == s.policy
  }

  // ---------- steps of a call outside shutdown ----------

  datatype CallStep =
    | Begin(kind: Kind)
    | GiveUp
    | Acquire
    | Look
    | Refuse
    | Launch
    | Expire
    | Receive
    | Join
    | Release
    | Parse(valid: bool)

  predicate CallEnabled(s: State, n: nat, step: CallStep) {
    if step.Begin? then n !in s.calls
    else
      && n in s.calls
      && var phase := s.calls[n].phase;
         match step
         case Begin(_) => false
         case GiveUp => phase == Queued
         case Acquire => phase == Queued && s.slot == None
         case Look => phase == Admitted
         case Refuse => phase.Prepared?
         case Launch => phase.Prepared?
         case Expire => phase.Awaiting?
         case Receive => phase.Awaiting? && phase.serial in s.transports && s.transports[phase.serial].transfer.Finished?
         case Join => phase.Joining?
         case Release => phase.Releasing?
         case Parse(_) => phase.Parsing?
  }

  /** Where a call goes that never had the slot or has just given it back. */
  function AfterExchange(kind: Kind, outcome: Outcome): Phase {
    if kind == Close then Ending(Claim, ThenReturn)
    else if kind == Tool && outcome.Answer? then Parsing(outcome)
    else Returned(outcome)
  }

  /** What an exchange makes of its transport's result. */
  function AfterReceive(serial: nat, result: Result): Phase {
    match result
    case Read(Envelope(id, true)) =>
      if id == WireID(serial) then Releasing(Answer(serial, id)) else Ending(Claim, ThenRelease)
    case _ => Ending(Claim, ThenRelease)
  }

  /** The phase that the step takes the call to. */
  function CallPhase(s: State, n: nat, step: CallStep): Phase
    requires CallEnabled(s, n, step)
  {
    match step
    case Begin(kind) =>
      if kind == Cancel || (kind == Close && s.closed) then Ending(Claim, ThenReturn) else Queued
    case GiveUp => AfterExchange(s.calls[n].kind, GaveUp)
    case Acquire => Admitted
    case Look => if s.closed || !s.command || s.wait == Reaped then Releasing(Crashed) else Prepared(s.issued + 1)
    case Refuse => Releasing(Invalid)
    case Launch => Awaiting(s.calls[n].phase.serial)
    case Expire => Ending(Claim, ThenJoin(s.calls[n].phase.serial))
    case Receive =>
      var serial := s.calls[n].phase.serial;
      AfterReceive(serial, s.transports[serial].transfer.result)
    case Join => Releasing(Terminal(s.calls[n].phase.cleanup))
    case Release => AfterExchange(s.calls[n].kind, s.calls[n].phase.outcome)
    case Parse(valid) => if valid then Returned(s.calls[n].phase.outcome) else Ending(Claim, ThenReturn)
  }

  /** What the step does to the session. */
  function CallEffect(s: State, n: nat, step: CallStep): State
    requires CallEnabled(s, n, step)
  {
    s.(slot := if step.Acquire? then Some(n) else if step.Release? then None else s.slot,
       issued := if step.Look? && CallPhase(s, n, step).Prepared? then s.issued + 1 else s.issued,
       transports := if step.Launch? then s.transports[s.calls[n].phase.serial := Transport(n, Writing)] else s.transports)
  }

  function CallApply(s: State, n: nat, step: CallStep): State
    requires CallEnabled(s, n, step)
  {
    var kind := if step.Begin? then step.kind else s.calls[n].kind;
    CallEffect(s, n, step).(calls := s.calls[n := Call(kind, CallPhase(s, n, step))])
  }

  // ---------- steps inside shutdown ----------

  datatype CleanupStep =
    | DoClaim
    | SeeDone
    | BudgetEnds
    | Signal
    | StopSignalling(killFailed: bool)
    | ClosePipes
    | StartWait
    | SeeReaped(waitFailed: bool)
    | ReapBudgetEnds
    | Store
    | Announce
    | ReadFailure
    | ReadPolicy
    | RemovePolicy(removed: bool)
    | ClearPolicy
    | Leave

  predicate CleanupEnabled(s: State, n: nat, step: CleanupStep) {
    && n in s.calls && s.calls[n].phase.Ending?
    && var stage := s.calls[n].phase.stage;
       match step
       case DoClaim => stage == Claim
       case SeeDone => stage == Following && s.done
       case BudgetEnds => stage == Following
       case Signal => stage == Signalling
       case StopSignalling(_) => stage == Signalling
       case ClosePipes => stage.Closing?
       case StartWait => stage.Waiting?
       case SeeReaped(_) => stage.Reaping? && s.wait == Reaped
       case ReapBudgetEnds => stage.Reaping?
       case Store => stage.Storing?
       case Announce => stage == Announcing
       case ReadFailure => stage == Reading
       case ReadPolicy => stage.Policy?
       case RemovePolicy(_) => stage.Removing?
       case ClearPolicy => stage.Clearing?
       case Leave => stage.Done?
  }

  function Verdict(failed: bool): Cleanup {
    if failed then Failed else Clean
  }

  /** Where the call goes with the cleanup's verdict. */
  function AfterCleanup(kind: Kind, next: Next, cleanup: Cleanup): Phase {
    match next
    case ThenJoin(serial) => Joining(serial, cleanup)
    case ThenRelease => Releasing(Terminal(cleanup))
    case ThenReturn => Returned(if kind == Close || kind == Cancel then Ended(cleanup) else Terminal(cleanup))
  }

  /** The phase that the step takes the call to. */
  function CleanupPhase(s: State, n: nat, step: CleanupStep): Phase
    requires CleanupEnabled(s, n, step)
  {
    var stage, next := s.calls[n].phase.stage, s.calls[n].phase.next;
    match step
    case DoClaim => Ending(if s.started then Following else if s.command then Signalling else Storing(false), next)
    case SeeDone => Ending(Reading, next)
    case BudgetEnds => Ending(Done(Pending), next)
    case Signal => Ending(Signalling, next)
    case StopSignalling(killFailed) => Ending(Closing(killFailed), next)
    case ClosePipes => Ending(Waiting(stage.killFailed), next)
    case StartWait => Ending(Reaping(stage.killFailed), next)
    case SeeReaped(waitFailed) => Ending(Storing(stage.killFailed || waitFailed), next)
    case ReapBudgetEnds => Ending(Storing(true), next)
    case Store => Ending(Announcing, next)
    case Announce => Ending(Reading, next)
    case ReadFailure => Ending(Policy(s.failure), next)
    case ReadPolicy => Ending(if s.policy then Removing(stage.failed) else Done(Verdict(stage.failed)), next)
    case RemovePolicy(removed) => Ending(if removed then Clearing(stage.failed) else Done(Failed), next)
    case ClearPolicy => Ending(Done(Verdict(stage.failed)), next)
    case Leave => AfterCleanup(s.calls[n].kind, next, stage.cleanup)
  }

  /** What the step does to the session. Only the first claim starts the cleanup and can take the
      command; every claim closes the session and clears the command. */
  function CleanupEffect(s: State, n: nat, step: CleanupStep): State
    requires CleanupEnabled(s, n, step)
  {
    var stage, first := s.calls[n].phase.stage, step.DoClaim? && !s.started;
    s.(started := s.started || first,
       closed := s.closed || step.DoClaim?,
       command := s.command && !step.DoClaim?,
       owner := if first then Some(n) else s.owner,
       taken := if first && s.command then s.taken + [n] else s.taken,
       log := if step.Signal? then s.log + [Signalled] else if step.StartWait? then s.log + [WaitStarted] else s.log,
       trouble := s.trouble || (step.StopSignalling? && step.killFailed) || (step.SeeReaped? && step.waitFailed)
                  || step.ReapBudgetEnds?,
       wait := if step.StartWait? then Parked else s.wait,
       failure := if step.Store? then stage.failed else s.failure,
       done := s.done || step.Announce?,
       policy := s.policy && !step.ClearPolicy?,
       dir := s.dir && !(step.RemovePolicy? && step.removed))
  }

  function CleanupApply(s: State, n: nat, step: CleanupStep): State
    requires CleanupEnabled(s, n, step)
  {
    CleanupEffect(s, n, step).(calls := s.calls[n := s.calls[n].(phase := CleanupPhase(s, n, step))])
  }

  // ---------- steps of a transport goroutine and of the environment ----------

  datatype TransportStep =
    | Write
    | Flush
    | Fail
    | ReadLine(line: Line)
    | FirstLine

  predicate TransportEnabled(s: State, k: nat, step: TransportStep) {
    && k in s.transports
    && var transfer := s.transports[k].transfer;
       match step
       case Write => transfer == Writing
       case Flush => transfer == Writing
       case Fail => transfer == Writing || transfer == FirstRead || transfer == SecondRead
       case ReadLine(_) => transfer == FirstRead || transfer == SecondRead
       case FirstLine => transfer.Checking?
  }

  /** The transport sees the first line, and it is the starter's acknowledgement. */
  predicate Skips(s: State, k: nat, step: TransportStep)
    requires TransportEnabled(s, k, step)
  {
    step.FirstLine? && !s.seen && s.transports[k].transfer.line == Ack
  }

  /** Where the step takes the transport. */
  function NextTransfer(s: State, k: nat, step: TransportStep): Transfer
    requires TransportEnabled(s, k, step)
  {
    var transfer := s.transports[k].transfer;
    match step
    case Write => Writing
    case Flush => FirstRead
    case Fail => Finished(Broken)
    case ReadLine(line) => if transfer == FirstRead then Checking(line, s.lines) else Finished(Read(line))
    case FirstLine => if Skips(s, k, step) then SecondRead else Finished(Read(transfer.line))
  }

  function TransportApply(s: State, k: nat, step: TransportStep): State
    requires TransportEnabled(s, k, step)
  {
    s.(transports := s.transports[k := Transport(s.transports[k].call, NextTransfer(s, k, step))],
       written := if step.Write? then s.written + [k] else s.written,
       lines := if step.ReadLine? then s.lines + 1 else s.lines,
       seen := s.seen || step.FirstLine?,
       skipped := if Skips(s, k, step) then s.skipped + [s.transports[k].transfer.index] else s.skipped)
  }

  /** `Reap`: the operating system lets the waiter return. `PolicyGone`: opening the session has
      removed its policy directory. `DirectoryGone`: somebody else has. */
  datatype WorldStep = Reap | PolicyGone | DirectoryGone

  predicate WorldEnabled(s: State, step: WorldStep) {
    step == Reap ==> s.wait == Parked
  }

  function WorldApply(s: State, step: WorldStep): State
    requires WorldEnabled(s, step)
  {
    s.(wait := if step == Reap then Reaped else s.wait,
       policy := s.policy && step != PolicyGone,
       dir := s.dir && step == Reap)
  }

  // ---------- runs ----------

  datatype Step =
    | CallMoves(n: nat, c: CallStep)
    | CleanupMoves(n: nat, e: CleanupStep)
    | TransportMoves(k: nat, t: TransportStep)
    | WorldMoves(w: WorldStep)

  predicate Enabled(s: State, step: Step) {
    match step
    case CallMoves(n, c) => CallEnabled(s, n, c)
    case CleanupMoves(n, e) => CleanupEnabled(s, n, e)
    case TransportMoves(k, t) => TransportEnabled(s, k, t)
    case WorldMoves(w) => WorldEnabled(s, w)
  }

  function Apply(s: State, step: Step): State
    requires Enabled(s, step)
  {
    match step
    case CallMoves(n, c) => CallApply(s, n, c)
    case CleanupMoves(n, e) => CleanupApply(s, n, e)
    case TransportMoves(k, t) => TransportApply(s, k, t)
    case WorldMoves(w) => WorldApply(s, w)
  }

  /** Some interleaving leads from `s` to `s'`. */
  ghost predicate Leads(s: State, steps: seq<Step>, s': State)
    decreases |steps|
  {
    if steps == [] then s' == s
    else Enabled(s, steps[0]) && Leads(Apply(s, steps[0]), steps[1..], s')
  }

  ghost predicate Reachable(s: State) {
    exists s0, steps :: Init(s0) && Leads(s0, steps, s)
  }
}
