/** One run of the one-shot Engine client: two collectors read the outputs while the client waits
    for both, for its deadline, for its caller's cancellation or for an overflow. Only after both
    outputs have ended does anything wait for the process. */
module OneShot {
  import opened ProcessEvents
  import Utf8
  import opened Wrappers

  type Bytes = seq<Utf8.Byte>

  const MAX_RESPONSE_BYTES := 16 * 1024 * 1024
  const MAX_STDERR_BYTES := 64 * 1024

  /** The line that the session starter writes before the Engine exists, in ASCII. */
  const ACKNOWLEDGEMENT := "{\"leanctx_session_containment\":1}\n"

  // ---------- state ----------

  datatype Stream = Stdout | Stderr

  /** A collector delivers everything it read, or nothing once its bound is passed. `cut` says that a
      read error stopped it and not the end of the stream; the client does not look at that. */
  datatype Collector =
    | Reading(data: Bytes)
    | Delivered(data: Bytes, cut: bool)
    | Overflowed

  datatype Piece = Piece(name: Stream, data: Bytes)

  datatype Failure = Timeout | Cancelled | TooLarge

  /** What a run that was ended early says about its cleanup. */
  datatype Remark = Confirmed | NotReaped | NotTerminated | LeftRunning

  datatype Outcome =
    | Ended(failure: Failure, remark: Remark)
    | Exited(stderr: Bytes)
    | EmptyOutput
    | NotText
    | Output(stdout: Bytes)

  datatype Phase =
    | Gathering
    | Killing(failure: Failure)
    | Closing(failure: Failure, killFailed: bool)
    | Starting(failure: Failure, killFailed: bool)
    | Reaping(failure: Failure, killFailed: bool)
    | Awaiting
    | Deciding(waitFailed: bool)
    | Returned(outcome: Outcome)

  /** `outSent` and `errSent` are what the process and its children have written to the two streams so
      far; `results` and `overflow` are the channels, `contained` the client's record of the last run;
      `log` and `killFailed` are the history. */
  datatype State = State(
    outSent: Bytes,
    errSent: Bytes,
    out: Collector,
    err: Collector,
    results: seq<Piece>,
    overflow: bool,
    collected: seq<Piece>,
    phase: Phase,
    wait: Wait,
    contained: bool,
    killFailed: bool,
    log: seq<Event>)

  /** A run starts with whatever the run before it has recorded. */
  predicate Init(s: State, before: bool) {
    && s.outSent == [] && s.errSent == [] && s.out == Reading([]) && s.err == Reading([])
    && s.results == [] && !s.overflow && s.collected == [] && s.phase == Gathering
    && s.wait == NotStarted && s.contained == before && !s.killFailed && s.log == []
  }

  function Of(s: State, name: Stream): Collector {
    if name == Stdout then s.out else s.err
  }

  function Sent(s: State, name: Stream): Bytes {
    if name == Stdout then s.outSent else s.errSent
  }

  function Bound(name: Stream): nat {
    if name == Stdout then MAX_RESPONSE_BYTES else MAX_STDERR_BYTES
  }

  // ---------- collectStream ----------

  function Joined(chunks: seq<Bytes>): Bytes {
    if chunks == [] then [] else Joined(chunks[..|chunks| - 1]) + chunks[|chunks| - 1]
  }

  lemma {:induction false} JoinedGrows(chunks: seq<Bytes>, n: nat)
    requires n <= |chunks|
    ensures |Joined(chunks[..n])| <= |Joined(chunks)|
    decreases |chunks| - n
  {
    if n < |chunks| {
      assert chunks[..n + 1][..n] == chunks[..n];
      JoinedGrows(chunks, n + 1);
    } else {
      assert chunks[..n] == chunks;
    }
  }

  /** `collectStream` over the chunks that the reads give before the stream ends: it delivers all of
      them joined exactly if they fit, and gives up at the first chunk that does not. */
  method CollectStream(chunks: seq<Bytes>, maximum: nat) returns (delivered: Option<Bytes>, read: nat)
    ensures delivered.Some? <==> |Joined(chunks)| <= maximum
    ensures delivered.Some? ==> delivered.value == Joined(chunks) && read == |chunks|
    ensures delivered.None? ==>
      0 < read <= |chunks| && |Joined(chunks[..read])| > maximum && |Joined(chunks[..read - 1])| <= maximum
  {
    var data: Bytes := [];
    read := 0;
    while read < |chunks|
      invariant read <= |chunks| && data == Joined(chunks[..read]) && |data| <= maximum
    {
      assert chunks[..read + 1][..read] == chunks[..read];
      read := read + 1;
      if |data| + |chunks[read - 1]| > maximum {
        JoinedGrows(chunks, read);
        return None, read;
      }
      data := data + chunks[read - 1];
    }
    assert chunks[..read] == chunks;
    return Some(data), read;
  }

  // ---------- steps ----------

  datatype Step =
    | Emit(name: Stream, chunk: Bytes)
    | Read(name: Stream, chunk: Bytes)
    | End(name: Stream, cut: bool)
    | Fail(failure: Failure)
    | Collect
    | Signal
    | StopSignalling(killFailed: bool)
    | ClosePipes
    | StartWait
    | Reap
    | SeeReaped(waitFailed: bool)
    | ReapBudgetEnds
    | Decide

  /** The end of a stream is seen when nobody can write to it any more and everything is read. */
  predicate AtEnd(collector: Collector) {
    collector.Delivered? && !collector.cut
  }

  predicate Enabled(s: State, step: Step) {
    match step
    case Emit(name, _) => !AtEnd(Of(s, name))
    case Read(name, chunk) => Of(s, name).Reading? && chunk != [] && Of(s, name).data + chunk <= Sent(s, name)
    case End(name, cut) => Of(s, name).Reading? && (cut || Of(s, name).data == Sent(s, name))
    case Fail(failure) =>
      if s.phase == Gathering then |s.collected| < 2 && (failure == TooLarge ==> s.overflow)
      else s.phase == Awaiting && failure != TooLarge
    case Collect => s.phase == Gathering && |s.collected| < 2 && s.results != []
    case Signal => s.phase.Killing?
    case StopSignalling(_) => s.phase.Killing?
    case ClosePipes => s.phase.Closing?
    case StartWait => s.phase.Starting? || (s.phase == Gathering && |s.collected| == 2)
    case Reap => s.wait == Parked
    case SeeReaped(_) => (s.phase == Awaiting || s.phase.Reaping?) && s.wait == Reaped
    case ReapBudgetEnds => s.phase.Reaping?
    case Decide => s.phase.Deciding?
  }

  /** The steps of the collectors. */
  predicate Collects(step: Step) {
    step.Read? || step.End?
  }

  /** The steps of the client, its deadlines and the process it waits for. */
  predicate Acts(step: Step) {
    !step.Emit? && !Collects(step)
  }

  /** The process writes. */
  function EmitApply(s: State, step: Step): State
    requires step.Emit?
  {
    s.(outSent := if step.name == Stdout then s.outSent + step.chunk else s.outSent,
       errSent := if step.name == Stdout then s.errSent else s.errSent + step.chunk)
  }

  /** A collector keeps what it reads while it fits, and gives everything up otherwise. */
  function NextCollector(s: State, step: Step): Collector
    requires Enabled(s, step) && Collects(step)
  {
    var data := Of(s, step.name).data;
    match step
    case Read(name, chunk) => if |data + chunk| > Bound(name) then Overflowed else Reading(data + chunk)
    case End(_, cut) => Delivered(data, cut)
  }

  /** What it does to the channels: it delivers at the end, and notes an overflow. */
  function CollectorApply(s: State, step: Step): State
    requires Enabled(s, step) && Collects(step)
  {
    var next := NextCollector(s, step);
    s.(out := if step.name == Stdout then next else s.out,
       err := if step.name == Stdout then s.err else next,
       overflow := s.overflow || next.Overflowed?,
       results := if step.End? then s.results + [Piece(step.name, Of(s, step.name).data)] else s.results)
  }

  /** The data of a stream in the collected pieces; the last one of that name counts. */
  function Collected(pieces: seq<Piece>, name: Stream): Bytes {
    if pieces == [] then []
    else if pieces[|pieces| - 1].name == name then pieces[|pieces| - 1].data
    else Collected(pieces[..|pieces| - 1], name)
  }

  predicate Text(data: Bytes) {
    Utf8.Decode(data).Some?
  }

  /** The output begins with the acknowledgement. */
  predicate Acknowledged(stdout: Bytes) {
    && |ACKNOWLEDGEMENT| <= |stdout|
    && forall i | 0 <= i < |ACKNOWLEDGEMENT| :: stdout[i] == ACKNOWLEDGEMENT[i] as int
  }

  /** The output of the Engine, without the session starter's acknowledgement. */
  function Strip(stdout: Bytes): Bytes {
    if Acknowledged(stdout) then stdout[|ACKNOWLEDGEMENT|..] else stdout
  }

  function Verdict(stdout: Bytes, stderr: Bytes, waitFailed: bool): Outcome {
    if waitFailed then Exited(stderr)
    else if Strip(stdout) == [] then EmptyOutput
    else if !Text(Strip(stdout)) then NotText
    else Output(Strip(stdout))
  }

  /** Where the step takes the client. */
  function NextPhase(s: State, step: Step): Phase
    requires Enabled(s, step)
  {
    match step
    case Fail(failure) => if s.phase == Gathering then Killing(failure) else Returned(Ended(failure, LeftRunning))
    case StopSignalling(killFailed) => Closing(s.phase.failure, killFailed)
    case ClosePipes => Starting(s.phase.failure, s.phase.killFailed)
    case StartWait => if s.phase == Gathering then Awaiting else Reaping(s.phase.failure, s.phase.killFailed)
    case SeeReaped(waitFailed) =>
      if s.phase == Awaiting then Deciding(waitFailed)
      else Returned(Ended(s.phase.failure, if s.phase.killFailed then NotTerminated else Confirmed))
    case ReapBudgetEnds => Returned(Ended(s.phase.failure, NotReaped))
    case Decide => Returned(Verdict(Collected(s.collected, Stdout), Collected(s.collected, Stderr), s.phase.waitFailed))
    case _ => s.phase
  }

  function Apply(s: State, step: Step): State
    requires Enabled(s, step)
  {
    if step.Emit? then EmitApply(s, step)
    else if Collects(step) then CollectorApply(s, step)
    else s.(
      phase := NextPhase(s, step),
      collected := if step.Collect? then s.collected + [s.results[0]] else s.collected,
      results := if step.Collect? then s.results[1..] else s.results,
      wait := if step.StartWait? then Parked else if step.Reap? then Reaped else s.wait,
      contained := if step.Decide? then Acknowledged(Collected(s.collected, Stdout)) else s.contained,
      killFailed := s.killFailed || (step.StopSignalling? && step.killFailed),
      log := if step.Signal? then s.log + [Signalled] else if step.StartWait? then s.log + [WaitStarted] else s.log)
  }

  ghost predicate Leads(s: State, steps: seq<Step>, s': State)
    decreases |steps|
  {
    if steps == [] then s' == s
    else Enabled(s, steps[0]) && Leads(Apply(s, steps[0]), steps[1..], s')
  }

  ghost predicate Reachable(s: State, before: bool) {
    exists s0, steps :: Init(s0, before) && Leads(s0, steps, s)
  }

  // ---------- the invariants ----------

  ghost predicate Apart(pieces: seq<Piece>) {
    forall i, j | 0 <= i < j < |pieces| :: pieces[i].name != pieces[j].name
  }

  /** Every piece is the whole of its stream, and no stream is there twice. */
  ghost predicate Pieces(s: State) {
    var all := s.collected + s.results;
    && (forall i | 0 <= i < |all| :: Of(s, all[i].name).Delivered? && Of(s, all[i].name).data == all[i].data)
    && Apart(all)
    && |s.collected| <= 2
    && (forall name | !Of(s, name).Overflowed? :: |Of(s, name).data| <= Bound(name))
  }

  /** What an ended run's remark says about the process. */
  predicate Remarked(failure: Failure, remark: Remark, wait: Wait, both: bool, log: seq<Event>, killFailed: bool) {
    match remark
    case Confirmed => wait == Reaped && !killFailed
    case NotTerminated => wait == Reaped && killFailed
    case NotReaped => wait != NotStarted
    case LeftRunning => wait != NotStarted && both && log == [WaitStarted] && failure != TooLarge
  }

  /** What each point of the client's program says about the process; `both` that both outputs have
      been collected. */
  predicate At(phase: Phase, wait: Wait, both: bool, log: seq<Event>, killFailed: bool) {
    match phase
    case Gathering => wait == NotStarted && log == [] && !killFailed
    case Killing(_) => wait == NotStarted && !killFailed
    case Closing(_, f) => wait == NotStarted && f == killFailed
    case Starting(_, f) => wait == NotStarted && f == killFailed
    case Reaping(_, f) => wait != NotStarted && f == killFailed
    case Awaiting => wait != NotStarted && both && log == [WaitStarted]
    case Deciding(_) => wait == Reaped && both && log == [WaitStarted]
    case Returned(outcome) =>
      if outcome.Ended? then Remarked(outcome.failure, outcome.remark, wait, both, log, killFailed)
      else wait == Reaped && both && log == [WaitStarted]
  }

  predicate Process(s: State) {
    At(s.phase, s.wait, |s.collected| == 2, s.log, s.killFailed)
  }

  ghost predicate Log(s: State) {
    SignalsBeforeWait(s.log) && (WaitStarted in s.log <==> s.wait != NotStarted)
  }

  /** The streams the client has decided on are the whole streams. */
  predicate Whole(s: State, outcome: Outcome) {
    && s.out.Delivered? && s.err.Delivered?
    && (outcome.Exited? ==> outcome.stderr == s.err.data)
    && (outcome.EmptyOutput? ==> Strip(s.out.data) == [])
    && (outcome.NotText? ==> !Text(Strip(s.out.data)))
    && (outcome.Output? ==> outcome.stdout == Strip(s.out.data) && outcome.stdout != [] && Text(outcome.stdout))
  }

  predicate Decided(s: State, before: bool) {
    if s.phase.Returned? && !s.phase.outcome.Ended?
    then Whole(s, s.phase.outcome) && (s.contained <==> Acknowledged(s.out.data))
    else s.contained == before
  }

  /** What a collector has is the beginning of what was written, and all of it at the end. */
  predicate Behind(collector: Collector, sent: Bytes) {
    (!collector.Overflowed? ==> collector.data <= sent) && (AtEnd(collector) ==> collector.data == sent)
  }

  predicate Order(s: State) {
    Behind(s.out, s.outSent) && Behind(s.err, s.errSent)
  }

  ghost predicate Inv(s: State, before: bool) {
    Pieces(s) && Process(s) && Log(s) && Decided(s, before) && Order(s)
  }

  lemma TwoApart(pieces: seq<Piece>, i: nat, j: nat)
    requires Apart(pieces) && i < j < |pieces|
    ensures pieces[i].name != pieces[j].name
  {
  }

  lemma AtMostTwo(pieces: seq<Piece>)
    requires Apart(pieces)
    ensures |pieces| <= 2
  {
    hide Apart;
    if |pieces| > 2 {
      TwoApart(pieces, 0, 1);
      TwoApart(pieces, 0, 2);
      TwoApart(pieces, 1, 2);
    }
  }

  /** Two pieces of different streams are both streams. */
  lemma BothCollected(s: State)
    requires Pieces(s) && |s.collected| == 2
    ensures s.out.Delivered? && s.out.data == Collected(s.collected, Stdout)
    ensures s.err.Delivered? && s.err.data == Collected(s.collected, Stderr)
    ensures s.results == []
  {
    var all := s.collected + s.results;
    var c := s.collected;
    assert all[0] == c[0] && all[1] == c[1];
    assert c[..1][..0] == [] && c[..1][0] == c[0];
    assert Collected(c[..1], c[0].name) == c[0].data;
    AtMostTwo(all);
  }

  lemma CollectorKeepsPieces(s: State, step: Step)
    requires Pieces(s) && Enabled(s, step) && Collects(step)
    ensures Pieces(Apply(s, step))
  {
    var s' := Apply(s, step);
    var all, all' := s.collected + s.results, s'.collected + s'.results;
    if step.End? {
      assert all' == all + [Piece(step.name, Of(s, step.name).data)];
    }
    forall i | 0 <= i < |all| ensures all[i].name != step.name {
      assert Of(s, all[i].name).Delivered?;
    }
  }

  lemma ClientKeepsPieces(s: State, step: Step)
    requires Pieces(s) && Enabled(s, step) && Acts(step)
    ensures Pieces(Apply(s, step))
  {
    var s' := Apply(s, step);
    assert s'.collected + s'.results == s.collected + s.results;
  }

  lemma CollectorFrame(s: State, step: Step)
    requires Enabled(s, step) && Collects(step)
    ensures var s' := Apply(s, step);
      && s'.phase == s.phase && s'.wait == s.wait && s'.log == s.log && s'.killFailed == s.killFailed
      && s'.collected == s.collected && s'.contained == s.contained
      && (s.out.Delivered? ==> s'.out == s.out) && (s.err.Delivered? ==> s'.err == s.err)
  {
  }

  lemma CollectorKeepsClient(s: State, step: Step, before: bool)
    requires Process(s) && Log(s) && Decided(s, before) && Enabled(s, step) && Collects(step)
    ensures var s' := Apply(s, step); Process(s') && Log(s') && Decided(s', before)
  {
    hide Apply, Strip, Acknowledged, At, Text;
    CollectorFrame(s, step);
  }

  lemma ClientKeepsProcess(s: State, step: Step)
    requires Process(s) && Enabled(s, step) && Acts(step)
    ensures Process(Apply(s, step))
  {
    hide Collected, Acknowledged, Strip;
    assert step.Decide? ==> !Verdict(Collected(s.collected, Stdout), Collected(s.collected, Stderr), s.phase.waitFailed).Ended?;
    hide Verdict;
  }

  lemma ClientKeepsLog(s: State, step: Step)
    requires Process(s) && Log(s) && Enabled(s, step) && Acts(step)
    ensures Log(Apply(s, step))
  {
    hide Collected, Acknowledged, NextPhase;
  }

  lemma VerdictIsWhole(s: State, waitFailed: bool)
    requires s.out.Delivered? && s.err.Delivered?
    ensures !Verdict(s.out.data, s.err.data, waitFailed).Ended?
    ensures Whole(s, Verdict(s.out.data, s.err.data, waitFailed))
  {
    hide Strip;
  }

  lemma ClientKeepsDecided(s: State, step: Step, before: bool)
    requires Pieces(s) && Process(s) && Decided(s, before) && Enabled(s, step) && Acts(step)
    ensures Decided(Apply(s, step), before)
  {
    hide Pieces, Collected, Strip, Verdict, Acknowledged, Text;
    if step.Decide? {
      BothCollected(s);
      VerdictIsWhole(s, s.phase.waitFailed);
    }
  }

  lemma StepKeepsOrder(s: State, step: Step)
    requires Order(s) && Enabled(s, step)
    ensures Order(Apply(s, step))
  {
    hide NextPhase, Collected, Acknowledged;
  }

  lemma EmitKeepsRest(s: State, step: Step, before: bool)
    requires step.Emit? && Pieces(s) && Process(s) && Log(s) && Decided(s, before)
    ensures var s' := EmitApply(s, step); Pieces(s') && Process(s') && Log(s') && Decided(s', before)
  {
    hide At, Strip, Text, Acknowledged;
  }

  lemma StepKeepsInv(s: State, step: Step, before: bool)
    requires Inv(s, before) && Enabled(s, step)
    ensures Inv(Apply(s, step), before)
  {
    StepKeepsOrder(s, step);
    hide Pieces, Process, Log, Decided, Order;
    if step.Emit? {
      EmitKeepsRest(s, step, before);
    } else if Collects(step) {
      CollectorKeepsPieces(s, step);
      CollectorKeepsClient(s, step, before);
    } else {
      ClientKeepsPieces(s, step);
      ClientKeepsProcess(s, step);
      ClientKeepsLog(s, step);
      ClientKeepsDecided(s, step, before);
    }
  }

  lemma {:induction false} RunKeepsInv(s: State, steps: seq<Step>, s': State, before: bool)
    requires Inv(s, before) && Leads(s, steps, s')
    ensures Inv(s', before)
    decreases |steps|
  {
    hide Inv, Enabled, Apply;
    if steps != [] {
      StepKeepsInv(s, steps[0], before);
      RunKeepsInv(Apply(s, steps[0]), steps[1..], s', before);
    }
  }

  lemma ReachableInv(s: State, before: bool)
    requires Reachable(s, before)
    ensures Inv(s, before)
  {
    var s0, steps :| Init(s0, before) && Leads(s0, steps, s);
    assert Inv(s0, before);
    RunKeepsInv(s0, steps, s, before);
  }

  // ---------- what the run promises ----------

  /** Whatever ends the run, no signal follows the start of Wait; and a run that reports the Engine
      as left running has never signalled anything. */
  lemma SignalBeforeReap(s: State, before: bool)
    requires Reachable(s, before)
    ensures SignalsBeforeWait(s.log)
    ensures s.phase == Awaiting || s.phase.Deciding? ==> Signalled !in s.log
    ensures s.phase.Returned? && s.phase.outcome.Ended? && s.phase.outcome.remark == LeftRunning ==> Signalled !in s.log
  {
    ReachableInv(s, before);
  }

  /** An ended run is silent about its cleanup only if the process was terminated and reaped; what it
      says otherwise is so. */
  lemma RemarkIsHonest(s: State, before: bool)
    requires Reachable(s, before) && s.phase.Returned? && s.phase.outcome.Ended?
    ensures s.phase.outcome.remark == Confirmed ==> s.wait == Reaped && !s.killFailed
    ensures s.phase.outcome.remark == NotTerminated ==> s.wait == Reaped && s.killFailed
    ensures s.phase.outcome.remark == NotReaped ==> s.wait != NotStarted
    ensures s.phase.outcome.remark == LeftRunning ==> |s.collected| == 2 && s.log == [WaitStarted]
    ensures s.contained == before
  {
    ReachableInv(s, before);
  }

  /** A returned output is all that was read from stdout without the acknowledgement, within its bound, and
      the record of the last run says whether the acknowledgement was there. */
  lemma OutputIsAllRead(s: State, before: bool, data: Bytes)
    requires Reachable(s, before) && s.phase == Returned(Output(data))
    ensures s.out.Delivered? && |s.out.data| <= MAX_RESPONSE_BYTES
    ensures s.contained <==> Acknowledged(s.out.data)
    ensures data == if s.contained then s.out.data[|ACKNOWLEDGEMENT|..] else s.out.data
    ensures data != [] && Text(data)
  {
    hide At, Log, Text;
    ReachableInv(s, before);
    assert !Of(s, Stdout).Overflowed?;
  }

  // ---------- when an output is complete ----------

  /** Bytes that were written and not read. */
  function Unread(s: State): nat
    requires s.out.Delivered? && s.out.data <= s.outSent
  {
    |s.outSent| - |s.out.data|
  }

  /** The one way in which stripping can hide that bytes are missing: reading stopped inside the
      acknowledgement, and the Engine's whole output is what was read of it. */
  predicate Swallowed(read: Bytes, sent: Bytes) {
    |read| < |ACKNOWLEDGEMENT| == |sent| - |read| && Acknowledged(sent) && sent[|ACKNOWLEDGEMENT|..] == read
  }

  lemma StripDecides(read: Bytes, sent: Bytes)
    requires read <= sent
    ensures Strip(read) == Strip(sent) <==> read == sent || Swallowed(read, sent)
  {
    if Acknowledged(read) {
      assert read == read[..|ACKNOWLEDGEMENT|] + read[|ACKNOWLEDGEMENT|..];
      assert sent == sent[..|ACKNOWLEDGEMENT|] + sent[|ACKNOWLEDGEMENT|..];
    }
  }

  /** An input for it: the acknowledgement with its own first character behind it, of which only that
      character was read. */
  lemma SwallowedInput() returns (read: Bytes, sent: Bytes)
    ensures read <= sent && read != sent && Swallowed(read, sent)
    ensures Strip(read) == Strip(sent) == [123] && Text([123])
  {
    assert forall i | 0 <= i < |ACKNOWLEDGEMENT| :: (ACKNOWLEDGEMENT[i] as int) < 0x80;
    read := [123];
    sent := seq(|ACKNOWLEDGEMENT|, i requires 0 <= i < |ACKNOWLEDGEMENT| => ACKNOWLEDGEMENT[i] as int) + read;
    StripDecides(read, sent);
    assert Utf8.Decode([123][1..]) == Some("");
  }

  /** A returned output is the beginning of what was written to stdout, without the acknowledgement. It is
      all that was written exactly if no read error came before the last byte; without any, it is all
      that ever will be. */
  lemma OutputIsCompleteIff(s: State, before: bool, data: Bytes)
    requires Reachable(s, before) && s.phase == Returned(Output(data))
    ensures s.out.Delivered? && s.out.data <= s.outSent && data == Strip(s.out.data)
    ensures data == Strip(s.outSent) <==> Unread(s) == 0 || Swallowed(s.out.data, s.outSent)
    ensures !s.out.cut ==> Unread(s) == 0 && forall chunk :: !Enabled(s, Emit(Stdout, chunk))
  {
    ReachableInv(s, before);
    StripDecides(s.out.data, s.outSent);
    hide Acknowledged, Swallowed, Strip, Text, At, Log, Pieces;
  }

  /** A run in which a stream passed its bound returns none of its data: it can only be ended. */
  lemma OverflowNeverReturns(s: State, before: bool)
    requires Reachable(s, before) && (s.out.Overflowed? || s.err.Overflowed?)
    ensures |s.collected| < 2
    ensures s.phase.Returned? ==> s.phase.outcome.Ended? && s.phase.outcome.remark != LeftRunning
  {
    hide Whole, Log;
    ReachableInv(s, before);
    if |s.collected| == 2 {
      BothCollected(s);
    }
  }

  // ---------- a cut output ----------

  lemma {:induction false} LeadsOn(s: State, steps: seq<Step>, s': State, step: Step)
    requires Leads(s, steps, s') && Enabled(s', step)
    ensures Leads(s, steps + [step], Apply(s', step))
    decreases |steps|
  {
    hide Enabled, Apply;
    if steps == [] {
      assert Leads(Apply(s, step), [], Apply(s', step));
    } else {
      LeadsOn(Apply(s, steps[0]), steps[1..], s', step);
      assert (steps + [step])[1..] == steps[1..] + [step];
    }
  }

  lemma Walk(s: State, before: bool, step: Step) returns (s': State)
    requires Reachable(s, before) && Enabled(s, step)
    ensures Reachable(s', before) && s' == Apply(s, step)
  {
    var s0, steps :| Init(s0, before) && Leads(s0, steps, s);
    LeadsOn(s0, steps, s, step);
    s' := Apply(s, step);
  }

  lemma Started() returns (s: State)
    ensures Reachable(s, false) && Init(s, false)
  {
    s := State([], [], Reading([]), Reading([]), [], false, [], Gathering, NotStarted, false, false, []);
    assert Leads(s, [], s);
  }

  /** Both collectors have delivered, stdout after a read error that left a byte behind. */
  lemma CutGathered() returns (s: State)
    ensures Reachable(s, false) && s.outSent == [65, 66]
    ensures s.out == Delivered([65], true) && s.err == Delivered([], false)
    ensures s.results == [Piece(Stdout, [65]), Piece(Stderr, [])] && s.collected == []
    ensures s.phase == Gathering && s.wait == NotStarted
  {
    hide Reachable;
    s := Started();
    s := Walk(s, false, Emit(Stdout, [65, 66]));
    s := Walk(s, false, Read(Stdout, [65]));
    s := Walk(s, false, End(Stdout, true));
    s := Walk(s, false, End(Stderr, false));
  }

  /** The input for which a returned output is not complete: a read error in the middle of stdout goes
      unnoticed, and what was read before it is returned. */
  lemma CutOutputIsReturned() returns (s: State)
    ensures Reachable(s, false) && s.phase == Returned(Output([65])) && Strip(s.outSent) == [65, 66]
  {
    hide Reachable, Collected, Acknowledged, Text;
    s := CutGathered();
    s := Walk(s, false, Collect);
    s := Walk(s, false, Collect);
    s := Walk(s, false, StartWait);
    s := Walk(s, false, Reap);
    s := Walk(s, false, SeeReaped(false));
    CutVerdict(s.collected);
    s := Walk(s, false, Decide);
  }

  lemma CutVerdict(collected: seq<Piece>)
    requires collected == [Piece(Stdout, [65]), Piece(Stderr, [])]
    ensures Verdict(Collected(collected, Stdout), Collected(collected, Stderr), false) == Output([65])
    ensures Strip([65, 66]) == [65, 66]
  {
    assert collected[..1] == [Piece(Stdout, [65])];
    assert Collected(collected[..1], Stdout) == [65];
    assert !Acknowledged([65]) && !Acknowledged([65, 66]);
    assert Utf8.Decode([65][1..]) == Some("");
  }
}
