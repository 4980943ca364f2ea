/** What each operation of the Product session does, as a function of the session before it, and
    what holds over every run of operations. */
module Sessions {
  import opened Codec
  import opened Digests
  import opened Evidence
  import opened GoValues
  import opened Wrappers
  import U = Utf8

  datatype State = Created | Planned | Executing | Completed | Aborted | Closed

  /** A session's constants. `sha` is the hash of the canonical bytes, of which only the form of its
      result is known. */
  datatype Config = Config(sessionID: string, taskID: string, failOpen: bool, sha: seq<U.Byte> -> Hex64)

  /** A Product intent with the id that is the hash of its canonical bytes. */
  datatype Plan = Plan(intent: Value, id: string)

  /** The session's fields; `calls` counts the calls of the Engine's ContextView and `receipts` the
      receipts made. */
  datatype Session = Session(
    state: State,
    plan: Option<Plan>,
    view: Option<View>,
    receipt: Option<Receipt>,
    prepared: bool,
    degradations: seq<string>,
    calls: nat,
    receipts: nat)

  const FRESH := Session(Created, None, None, None, false, [], 0, 0)

  predicate Terminal(state: State) {
    state == Completed || state == Aborted || state == Closed
  }

  // ---------- inputs and replies ----------

  /** The source argument with its options: absent, refused by the checks of a plan, or an intent. */
  datatype Source = NoSource | Unfit | Intent(intent: Value)

  /** An Engine error: the code of the "unavailable" and the "timeout" error found inside it, however
      deeply wrapped, the code of its own type and the view its own type carries. */
  datatype EngineError = EngineError(unavailable: Option<string>, timeout: Option<string>, code: string, view: Option<View>)

  datatype EngineResult = Viewed(view: Option<View>) | EngineFails(error: EngineError)

  datatype Argument =
    | Options(outcome: string, usage: Fields)
    | OutcomeArgument(outcome: string)
    | UsageArgument(usage: Fields)
    | NilArgument
    | Unsupported

  datatype Error = Validation | IllegalState | Cancelled | Engine(error: EngineError)

  datatype Reply =
    | PlanReply(plan: Plan)
    | ViewReply(view: Option<View>)
    | ReceiptReply(receipt: Receipt)
    | Nothing
    | Fails(error: Error)

  datatype Operation =
    | PlanOp(source: Source)
    | PrepareOp(source: Source, engine: EngineResult, concrete: bool)
    | CompleteOp(arguments: seq<Argument>)
    | AbortOp(error: Option<Exception>)
    | CloseOp

  // ---------- plans ----------

  ghost function NewPlan(c: Config, source: Source): Result<Plan>
    requires !source.NoSource?
  {
    if source.Unfit? then Err
    else match Canonical(source.intent)
      case Err => Err
      case Ok(bytes) => Ok(Plan(source.intent, "plan:sha256:" + c.sha(bytes)))
  }

  /** The id of a plan satisfies the form that a receipt demands. */
  lemma PlanIDIsRef(digest: Hex64)
    ensures IsPlanRef("plan:sha256:" + digest)
  {
    var id := "plan:sha256:" + digest;
    assert id[..12] == "plan:sha256:" && id[12..] == digest;
  }

  ghost function AfterPlan(c: Config, s: Session, source: Source): (r: (Session, Reply)) {
    if source.NoSource? then (s, Fails(Validation))
    else if Terminal(s.state) then (s, Fails(IllegalState))
    else match NewPlan(c, source)
      case Err => (s, Fails(Validation))
      case Ok(candidate) =>
        if s.plan.None? then (s.(plan := Some(candidate), state := Planned), PlanReply(candidate))
        else (s, if s.plan.value.id == candidate.id then PlanReply(s.plan.value) else Fails(IllegalState))
  }

  // ---------- prepare ----------

  function AddOnce(degradations: seq<string>, value: string): seq<string> {
    if value in degradations then degradations else degradations + [value]
  }

  function PlanID(s: Session): Option<string> {
    if s.plan.Some? then Some(s.plan.value.id) else None
  }

  ghost predicate Sealed(view: Option<View>) {
    view.Some? && Complete(view.value)
  }

  /** A receipt with everything the session knows. */
  ghost function ReceiptOf(s: Session, outcome: string, usage: map<GoString, Value>, exceptionType: string,
                           exception: Option<Exception>): Receipt {
    Receipt(PlanID(s), s.view, outcome, Sealed(s.view), s.degradations, usage, exceptionType, exception)
  }

  /** The first step of prepare: a plan is needed, and a given source must agree with it. */
  ghost function Establish(c: Config, s: Session, source: Source): (r: (Session, Reply)) {
    if !source.NoSource? then AfterPlan(c, s, source)
    else if s.plan.Some? then (s, PlanReply(s.plan.value))
    else (s, Fails(IllegalState))
  }

  /** What the Engine's answer makes of a session with a plan. Only Prepare records a degraded view,
      and it takes the code of a failure that it tolerates from inside the error. */
  ghost function AfterEngine(c: Config, s: Session, engine: EngineResult, concrete: bool): (r: (Session, Reply)) {
    var s1 := s.(state := Executing, calls := s.calls + 1);
    match engine
    case Viewed(view) =>
      (s1.(view := view, prepared := true,
           degradations := if !concrete && view.Some? && view.value.status == Degraded
                           then AddOnce(s.degradations, "engine:degraded") else s.degradations),
       ViewReply(view))
    case EngineFails(e) =>
      if c.failOpen && (e.unavailable.Some? || e.timeout.Some?) then
        var code := if concrete then e.code else if e.unavailable.Some? then e.unavailable.value else e.timeout.value;
        (s1.(prepared := true, degradations := AddOnce(s.degradations, "engine:" + code)), ViewReply(None))
      else
        var s2 := s1.(view := if e.view.Some? then e.view else s.view,
                      degradations := AddOnce(s.degradations, "engine:" + e.code));
        (s2.(state := Aborted, receipt := Some(ReceiptOf(s2, "aborted", map[], "", None)), receipts := s.receipts + 1),
         Fails(Engine(e)))
  }

  ghost function AfterPrepare(c: Config, s: Session, source: Source, engine: EngineResult, concrete: bool): (r: (Session, Reply)) {
    if Terminal(s.state) then (s, Fails(IllegalState))
    else if s.prepared then (s, ViewReply(s.view))
    else
      var (s1, reply) := Establish(c, s, source);
      if reply.Fails? then (s1, reply) else AfterEngine(c, s1, engine, concrete)
  }

  // ---------- complete, abort, close ----------

  /** The outcome and the usage that the arguments after the host result give; later ones win. */
  function Parsed(arguments: seq<Argument>): Option<(string, Fields)> {
    if arguments == [] then Some(("unknown", None))
    else match Parsed(arguments[..|arguments| - 1])
      case None => None
      case Some((outcome, usage)) =>
        match arguments[|arguments| - 1]
        case Options(o, u) => Some((o, u))
        case OutcomeArgument(o) => Some((o, usage))
        case UsageArgument(u) => Some((outcome, u))
        case NilArgument => Some((outcome, usage))
        case Unsupported => None
  }

  ghost function AfterComplete(s: Session, arguments: seq<Argument>): (r: (Session, Reply)) {
    if |arguments| > 2 || Parsed(arguments).None? then (s, Fails(Validation))
    else
      var (outcome, usage) := Parsed(arguments).value;
      match s.state
      case Completed =>
        if s.receipt.Some? && s.receipt.value.outcome == outcome && SameUsage(s.receipt.value.usage, usage)
        then (s, ReceiptReply(s.receipt.value)) else (s, Fails(IllegalState))
      case Executing =>
        if outcome == "aborted" || !ValidOutcome(outcome) || Clone(usage).Err? then (s, Fails(Validation))
        else
          var receipt := ReceiptOf(s, outcome, Clone(usage).value, "", None);
          (s.(receipt := Some(receipt), state := Completed, receipts := s.receipts + 1), ReceiptReply(receipt))
      case _ => (s, Fails(IllegalState))
  }

  ghost function AfterAbort(s: Session, error: Option<Exception>): (r: (Session, Reply)) {
    if error.None? then (s, Fails(Validation))
    else match s.state
      case Completed => (s, Fails(IllegalState))
      case Aborted => if s.receipt.Some? then (s, ReceiptReply(s.receipt.value)) else (s, Fails(IllegalState))
      case Closed =>
        if s.receipt.Some? && s.receipt.value.outcome == "aborted" then (s, ReceiptReply(s.receipt.value))
        else (s, Fails(IllegalState))
      case _ =>
        var name := error.value.typeString;
        if name != "" && !SafeTypeName(name) then (s, Fails(Validation))
        else
          var receipt := ReceiptOf(s, "aborted", map[], name, error);
          (s.(receipt := Some(receipt), state := Aborted, receipts := s.receipts + 1), ReceiptReply(receipt))
  }

  ghost function AfterClose(s: Session): (r: (Session, Reply)) {
    match s.state
    case Closed => (s, Nothing)
    case Completed => (s.(state := Closed), Nothing)
    case Aborted => (s.(state := Closed), Nothing)
    case _ => (s, Fails(IllegalState))
  }

  ghost function After(c: Config, s: Session, op: Operation): (r: (Session, Reply)) {
    match op
    case PlanOp(source) => AfterPlan(c, s, source)
    case PrepareOp(source, engine, concrete) => AfterPrepare(c, s, source, engine, concrete)
    case CompleteOp(arguments) => AfterComplete(s, arguments)
    case AbortOp(error) => AfterAbort(s, error)
    case CloseOp => AfterClose(s)
  }

  // ---------- the invariant ----------

  /** What the receipt says is what the session is: its evidence is sealed exactly if the view's is
      complete, it names the plan and the view, and its outcome tells an abort from a completion. */
  ghost predicate ReceiptFits(s: Session, r: Receipt) {
    && ValidOutcome(r.outcome)
    && (r.outcome == "aborted" ==> s.state == Aborted || s.state == Closed)
    && (r.outcome != "aborted" ==> s.state == Completed || s.state == Closed)
    && r.planID == PlanID(s) && r.view == s.view && r.degradations == s.degradations
    && (r.sealed <==> Sealed(s.view))
  }

  ghost predicate Inv(s: Session) {
    && (s.state == Created ==> s.plan.None?)
    && (s.state == Planned ==> s.plan.Some?)
    && (s.state == Created || s.state == Planned ==> !s.prepared && s.view.None? && s.calls == 0 && s.degradations == [])
    && (s.state == Executing || s.state == Completed ==> s.plan.Some? && s.prepared)
    && (s.receipt.Some? <==> Terminal(s.state))
    && (s.receipt.Some? ==> ReceiptFits(s, s.receipt.value))
    && (s.prepared ==> s.plan.Some?)
    && (s.plan.Some? ==> IsPlanRef(s.plan.value.id))
    && "" !in s.degradations
    && s.calls <= 1
    && s.receipts == (if s.receipt.Some? then 1 else 0)
  }

  function Rank(state: State): nat {
    match state
    case Created => 0
    case Planned => 1
    case Executing => 2
    case Completed => 3
    case Aborted => 3
    case Closed => 4
  }

  /** What no operation takes back. */
  ghost predicate Grows(s: Session, s': Session) {
    && Rank(s.state) <= Rank(s'.state)
    && (Terminal(s.state) && s.state != Closed ==> s'.state == s.state || s'.state == Closed)
    && (s.plan.Some? ==> s'.plan == s.plan)
    && (s.receipt.Some? ==> s'.receipt == s.receipt)
    && (s.prepared ==> s'.prepared && s'.view == s.view && s'.degradations == s.degradations)
    && s.calls <= s'.calls && s.degradations <= s'.degradations
  }

  lemma PlanKeepsInv(c: Config, s: Session, source: Source)
    requires Inv(s)
    ensures var s' := AfterPlan(c, s, source).0; Inv(s') && Grows(s, s')
    ensures var r := AfterPlan(c, s, source); !r.1.Fails? ==> r.0.plan.Some? && !Terminal(r.0.state)
    ensures var s' := AfterPlan(c, s, source).0; s'.prepared == s.prepared && s'.calls == s.calls
  {
    if !source.NoSource? && NewPlan(c, source).Ok? {
      PlanIDIsRef(c.sha(Canonical(source.intent).value));
    }
  }

  lemma EngineKeepsInv(c: Config, s: Session, engine: EngineResult, concrete: bool)
    requires Inv(s) && s.plan.Some? && !Terminal(s.state) && !s.prepared
    ensures var s' := AfterEngine(c, s, engine, concrete).0; Inv(s') && Grows(s, s')
  {
  }

  lemma PrepareKeepsInv(c: Config, s: Session, source: Source, engine: EngineResult, concrete: bool)
    requires Inv(s)
    ensures var s' := AfterPrepare(c, s, source, engine, concrete).0; Inv(s') && Grows(s, s')
  {
    hide AfterPlan, AfterEngine;
    if !Terminal(s.state) && !s.prepared {
      PlanKeepsInv(c, s, source);
      var (s1, reply) := Establish(c, s, source);
      if !reply.Fails? {
        EngineKeepsInv(c, s1, engine, concrete);
      }
    }
  }

  lemma CompleteKeepsInv(s: Session, arguments: seq<Argument>)
    requires Inv(s)
    ensures var s' := AfterComplete(s, arguments).0; Inv(s') && Grows(s, s')
  {
    hide Parsed;
  }

  lemma AbortKeepsInv(s: Session, error: Option<Exception>)
    requires Inv(s)
    ensures var s' := AfterAbort(s, error).0; Inv(s') && Grows(s, s')
  {
    hide SafeTypeName;
  }

  lemma CloseKeepsInv(s: Session)
    requires Inv(s)
    ensures var s' := AfterClose(s).0; Inv(s') && Grows(s, s')
  {
  }

  lemma StepKeepsInv(c: Config, s: Session, op: Operation)
    requires Inv(s)
    ensures Inv(After(c, s, op).0) && Grows(s, After(c, s, op).0)
  {
    hide Inv, Grows, AfterPlan, AfterPrepare, AfterComplete, AfterAbort, AfterClose;
    match op
    case PlanOp(source) => PlanKeepsInv(c, s, source);
    case PrepareOp(source, engine, concrete) => PrepareKeepsInv(c, s, source, engine, concrete);
    case CompleteOp(arguments) => CompleteKeepsInv(s, arguments);
    case AbortOp(error) => AbortKeepsInv(s, error);
    case CloseOp => CloseKeepsInv(s);
  }

  // ---------- runs ----------

  ghost function Run(c: Config, s: Session, ops: seq<Operation>): Session
    decreases |ops|
  {
    if ops == [] then s else Run(c, After(c, s, ops[0]).0, ops[1..])
  }

  lemma {:induction false} RunKeepsInv(c: Config, s: Session, ops: seq<Operation>)
    requires Inv(s)
    ensures Inv(Run(c, s, ops)) && Grows(s, Run(c, s, ops))
    decreases |ops|
  {
    hide Inv, After;
    if ops != [] {
      StepKeepsInv(c, s, ops[0]);
      RunKeepsInv(c, After(c, s, ops[0]).0, ops[1..]);
    }
  }

  /** In every run: an executing session has a plan and is prepared; a completed one has a receipt that
      is not aborted, an aborted one an aborted receipt, a closed one a receipt. */
  lemma StatesAreMeant(c: Config, ops: seq<Operation>)
    ensures var s := Run(c, FRESH, ops);
      && (s.state == Executing ==> s.plan.Some? && s.prepared && s.receipt.None?)
      && (s.state == Completed ==> s.receipt.Some? && s.receipt.value.outcome != "aborted" && ValidOutcome(s.receipt.value.outcome))
      && (s.state == Aborted ==> s.receipt.Some? && s.receipt.value.outcome == "aborted")
      && (s.state == Closed ==> s.receipt.Some?)
  {
    RunKeepsInv(c, FRESH, ops);
  }

  /** In every run the Engine's ContextView is called at most once and at most one receipt is made. */
  lemma AtMostOnce(c: Config, ops: seq<Operation>)
    ensures Run(c, FRESH, ops).calls <= 1 && Run(c, FRESH, ops).receipts <= 1
  {
    RunKeepsInv(c, FRESH, ops);
  }

  lemma {:induction false} RunAppend(c: Config, s: Session, ops: seq<Operation>, more: seq<Operation>)
    ensures Run(c, s, ops + more) == Run(c, Run(c, s, ops), more)
    decreases |ops|
  {
    hide After;
    if ops == [] {
      assert ops + more == more;
    } else {
      RunAppend(c, After(c, s, ops[0]).0, ops[1..], more);
      assert (ops + more)[1..] == ops[1..] + more;
    }
  }

  /** As a run goes on, the rank of the state never falls, and a plan, a receipt and a prepared view
      never change. */
  lemma NothingIsTakenBack(c: Config, ops: seq<Operation>, more: seq<Operation>)
    ensures Grows(Run(c, FRESH, ops), Run(c, FRESH, ops + more))
  {
    RunKeepsInv(c, FRESH, ops);
    RunAppend(c, FRESH, ops, more);
    RunKeepsInv(c, Run(c, FRESH, ops), more);
  }

  /** In every run a receipt is sealed exactly if the session's view has complete evidence, and then it
      verifies. */
  lemma ReceiptIsHonest(c: Config, ops: seq<Operation>)
    ensures var s := Run(c, FRESH, ops);
      s.receipt.Some? ==>
        && s.receipt.value.planID == PlanID(s) && s.receipt.value.view == s.view
        && (s.receipt.value.sealed <==> s.view.Some? && Complete(s.view.value))
  {
    RunKeepsInv(c, FRESH, ops);
  }

  // ---------- repeated operations ----------

  /** A repeated complete returns the stored receipt exactly if its outcome is the stored one and its
      usage is the same JSON value as the one of the first complete. */
  lemma RepeatedComplete(c: Config, s: Session, outcome: string, usage: Fields, outcome': string, usage': Fields)
    requires Inv(s) && s.state == Executing
    requires AfterComplete(s, [Options(outcome, usage)]).1.ReceiptReply?
    ensures var (s1, reply) := AfterComplete(s, [Options(outcome, usage)]);
      && (AfterComplete(s1, [Options(outcome', usage')]) == (s1, reply) <==>
           outcome' == outcome && Canonical(AsValue(usage')).Ok? && Canonical(AsValue(usage')) == Canonical(AsValue(usage)))
      && AfterComplete(s1, [Options(outcome', usage')]).0 == s1
  {
    ParsedOptions(outcome, usage);
    ParsedOptions(outcome', usage');
    CloneCanonical(usage);
    CanonicalUnique(AsValue(usage'), AsValue(usage));
    CanonicalUnique(AsValue(usage'), Object(Clone(usage).value));
  }

  lemma ParsedOptions(outcome: string, usage: Fields)
    ensures Parsed([Options(outcome, usage)]) == Some((outcome, usage))
  {
    assert [Options(outcome, usage)][..0] == [];
  }

  /** So repeating the very same complete is idempotent exactly if its usage has canonical bytes; the
      first complete also accepts a usage that has none. */
  lemma CompleteIsIdempotentIff(c: Config, s: Session, outcome: string, usage: Fields)
    requires Inv(s) && s.state == Executing
    requires AfterComplete(s, [Options(outcome, usage)]).1.ReceiptReply?
    ensures var (s1, reply) := AfterComplete(s, [Options(outcome, usage)]);
      AfterComplete(s1, [Options(outcome, usage)]) == (s1, reply) <==> Canonical(AsValue(usage)).Ok?
  {
    RepeatedComplete(c, s, outcome, usage, outcome, usage);
  }

  /** The input that shows it: a fractional number in the usage is accepted once and refused when repeated. */
  lemma RepeatedFractionIsRefused(s: Session)
    requires Inv(s) && s.state == Executing
    ensures var arguments := [Options("completed", Some(map[Text("cost") := Float(Finite(1.5))]))];
      && AfterComplete(s, arguments).1.ReceiptReply?
      && AfterComplete(AfterComplete(s, arguments).0, arguments).1 == Fails(IllegalState)
  {
    var usage := Some(map[Text("cost") := Float(Finite(1.5))]);
    CloneAcceptsMore();
    ParsedOptions("completed", usage);
    assert OUTCOMES[3] == "completed";
    CloneCanonical(usage);
    CanonicalUnique(AsValue(usage), AsValue(usage));
  }

  /** A nil usage is in the canonical domain: it is the empty object. */
  lemma NilUsageRepeats(s: Session)
    requires Inv(s) && s.state == Executing
    ensures AfterComplete(s, []).1.ReceiptReply?
    ensures var (s1, reply) := AfterComplete(s, []); AfterComplete(s1, []) == (s1, reply)
  {
    assert OUTCOMES[0] == "unknown";
    EmptyClone();
    CanonicalUnique(AsValue(None), AsValue(None));
    hide Clone, Meaning, AsValue;
  }

  /** A nil map is copied as the empty object, which has a meaning. */
  lemma EmptyClone()
    ensures Clone(None) == Ok(map[]) && Meaning(AsValue(None)).Some? && AsValue(None) == Object(map[])
  {
    var empty := AsValue(None);
    assert Plain(empty).Ok?;
    assert Plain(empty).value.fields.Keys == {};
  }

  /** The plan's id is the hash of the canonical bytes of its intent. */
  ghost predicate PlanIsHashed(c: Config, s: Session) {
    s.plan.Some? ==> NewPlan(c, Intent(s.plan.value.intent)) == Ok(s.plan.value)
  }

  lemma StepKeepsHash(c: Config, s: Session, op: Operation)
    requires PlanIsHashed(c, s)
    ensures PlanIsHashed(c, After(c, s, op).0)
  {
  }

  lemma {:induction false} RunKeepsHash(c: Config, s: Session, ops: seq<Operation>)
    requires PlanIsHashed(c, s)
    ensures PlanIsHashed(c, Run(c, s, ops))
    decreases |ops|
  {
    hide After, PlanIsHashed;
    if ops != [] {
      StepKeepsHash(c, s, ops[0]);
      RunKeepsHash(c, After(c, s, ops[0]).0, ops[1..]);
    }
  }

  /** In every unfinished run with a plan: planning again with an intent that is the same JSON value
      returns that plan, whatever the order of its fields; with one that is not, it is refused unless
      the hashes collide. Either way nothing changes. */
  lemma ReplanningIsStable(c: Config, ops: seq<Operation>, again: Value)
    requires var s := Run(c, FRESH, ops); s.plan.Some? && !Terminal(s.state)
    requires Canonical(again).Ok?
    ensures var s := Run(c, FRESH, ops);
      var first, (s', reply) := s.plan.value.intent, AfterPlan(c, s, Intent(again));
      && s' == s
      && (Meaning(again) == Meaning(first) ==> reply == PlanReply(s.plan.value))
      && Canonical(first).Ok?
      && (reply == PlanReply(s.plan.value) <==> c.sha(Canonical(again).value) == c.sha(Canonical(first).value))
      && (reply == Fails(IllegalState) <==> c.sha(Canonical(again).value) != c.sha(Canonical(first).value))
  {
    RunKeepsHash(c, FRESH, ops);
    var first := Run(c, FRESH, ops).plan.value.intent;
    hide Run;
    var a, b := c.sha(Canonical(again).value), c.sha(Canonical(first).value);
    assert ("plan:sha256:" + a)[12..] == a && ("plan:sha256:" + b)[12..] == b;
  }

  /** In every run: a degraded view that prepare returns has left its mark, then and ever after, exactly
      if the client is not the concrete one; the variant with a cancellation does not record it. */
  lemma DegradedIsRecordedIff(c: Config, ops: seq<Operation>, source: Source, view: View, concrete: bool, more: seq<Operation>)
    requires var s := Run(c, FRESH, ops); !Terminal(s.state) && !s.prepared
    requires view.status == Degraded
    requires After(c, Run(c, FRESH, ops), PrepareOp(source, Viewed(Some(view)), concrete)).1 == ViewReply(Some(view))
    ensures var s' := Run(c, FRESH, ops + [PrepareOp(source, Viewed(Some(view)), concrete)] + more);
      s'.view == Some(view) && ("engine:degraded" in s'.degradations <==> !concrete)
  {
    var op := PrepareOp(source, Viewed(Some(view)), concrete);
    var s := Run(c, FRESH, ops);
    RunKeepsInv(c, FRESH, ops);
    RunAppend(c, FRESH, ops, [op]);
    RunAppend(c, FRESH, ops + [op], more);
    OneStep(c, s, op);
    var s1 := After(c, s, op).0;
    StepKeepsInv(c, s, op);
    RunKeepsInv(c, s1, more);
    PreparedDegraded(c, s, source, view, concrete);
  }

  lemma OneStep(c: Config, s: Session, op: Operation)
    ensures Run(c, s, [op]) == After(c, s, op).0
  {
    assert [op][1..] == [];
  }

  lemma PreparedDegraded(c: Config, s: Session, source: Source, view: View, concrete: bool)
    requires Inv(s) && !Terminal(s.state) && !s.prepared && view.status == Degraded
    requires AfterPrepare(c, s, source, Viewed(Some(view)), concrete).1 == ViewReply(Some(view))
    ensures var s' := AfterPrepare(c, s, source, Viewed(Some(view)), concrete).0;
      s'.prepared && s'.view == Some(view) && ("engine:degraded" in s'.degradations <==> !concrete)
  {
  }

  /** In every unfinished run: an abort succeeds exactly if the type name of the error is safe. If it is,
      the session is aborted; if not, the run goes on as if the abort had never been asked for. */
  lemma AbortSucceedsIff(c: Config, ops: seq<Operation>, error: Exception, more: seq<Operation>)
    requires !Terminal(Run(c, FRESH, ops).state)
    ensures var (s', reply) := After(c, Run(c, FRESH, ops), AbortOp(Some(error)));
      && (reply.ReceiptReply? <==>
           |U.Encode(error.typeString)| <= MAX_REF_BYTES && ':' !in error.typeString && '\n' !in error.typeString)
      && (reply.ReceiptReply? ==> s'.state == Aborted && s'.receipt == Some(reply.receipt) && reply.receipt.exception == Some(error))
      && (!reply.ReceiptReply? ==> Run(c, FRESH, ops + [AbortOp(Some(error))] + more) == Run(c, FRESH, ops + more))
  {
    var op := AbortOp(Some(error));
    RunAppend(c, FRESH, ops, [op]);
    RunAppend(c, FRESH, ops + [op], more);
    RunAppend(c, FRESH, ops, more);
    OneStep(c, Run(c, FRESH, ops), op);
    hide Run;
    assert |U.Encode("")| == 0;
  }
}
