/** The Product session object. Each method runs under the session's lock. */
module ContextSessions {
  import opened Codec
  import opened Evidence
  import opened GoValues
  import opened Sessions
  import opened Wrappers
  import U = Utf8

  /** What a recovered source is bound to. */
  datatype Binding = Binding(recoveryRef: string, sourceRef: string, sourceDigest: string)

  function BindingOf(v: View): Binding {
    Binding(v.recoveryRef, v.sourceRef, v.sourceDigest)
  }

  datatype Recovery = Recovered(source: Binding) | WrongState | TooManyViews | Unavailable | EngineRefused | Mismatch

  class ContextSession {
    const config: Config
    var state: State
    var plan: Option<Plan>
    var view: Option<View>
    var receipt: Option<Receipt>
    var prepared: bool
    var degradations: seq<string>
    ghost var calls: nat
    ghost var receipts: nat

    ghost function Contents(): Session
      reads this
    {
      Session(state, plan, view, receipt, prepared, degradations, calls, receipts)
    }

    ghost predicate Valid()
      reads this
    {
      Inv(Contents())
    }

    constructor (config: Config)
      ensures Valid() && Contents() == FRESH && this.config == config
    {
      this.config := config;
      state, plan, view, receipt, prepared, degradations := Created, None, None, None, false, [];
      calls, receipts := 0, 0;
    }

    method AddDegradation(value: string)
      modifies this`degradations
      ensures degradations == AddOnce(old(degradations), value)
    {
      for i := 0 to |degradations|
        invariant value !in degradations[..i]
        invariant degradations == old(degradations)
      {
        if degradations[i] == value {
          return;
        }
      }
      degradations := degradations + [value];
    }

    /** The candidate plan, with the hash of its canonical bytes as its id. */
    method MakePlan(source: Source) returns (r: Result<Plan>)
      requires !source.NoSource?
      ensures r == NewPlan(config, source)
    {
      if source.Unfit? {
        return Err;
      }
      var bytes := CanonicalJSON(source.intent);
      if bytes.Err? {
        return Err;
      }
      return Ok(Plan(source.intent, "plan:sha256:" + config.sha(bytes.value)));
    }

    method PlanLocked(source: Source) returns (reply: Reply)
      requires Valid()
      modifies this
      ensures Valid() && (Contents(), reply) == AfterPlan(config, old(Contents()), source)
    {
      PlanKeepsInv(config, Contents(), source);
      if source.NoSource? {
        return Fails(Validation);
      }
      if state == Completed || state == Aborted || state == Closed {
        return Fails(IllegalState);
      }
      var candidate := MakePlan(source);
      if candidate.Err? {
        return Fails(Validation);
      }
      if plan.Some? {
        if plan.value.id != candidate.value.id {
          return Fails(IllegalState);
        }
        return PlanReply(plan.value);
      }
      plan := Some(candidate.value);
      state := Planned;
      return PlanReply(candidate.value);
    }

    method MakeReceipt(outcome: string, usage: Fields, exceptionType: string, exception: Option<Exception>)
      returns (r: Result<Receipt>)
      requires PlanID(Contents()).Some? ==> IsPlanRef(plan.value.id)
      requires "" !in degradations
      ensures r.Ok? <==> ValidOutcome(outcome) && ExceptionFits(outcome, exceptionType, exception) && Clone(usage).Ok?
      ensures r.Ok? ==> r.value == ReceiptOf(Contents(), outcome, Clone(usage).value, exceptionType, exception)
    {
      var sealed := false;
      if view.Some? {
        sealed := VerifyView(view.value);
      }
      r := NewReceipt(if plan.Some? then Some(plan.value.id) else None, view, outcome, sealed, degradations, usage,
                      exceptionType, exception);
    }

    /** Ends the session after an Engine failure. Making the receipt cannot fail here, so the test of
        its error never decides. */
    method AbortInstanceFailure(e: EngineError)
      requires state == Executing && receipt.None?
      requires PlanID(Contents()).Some? ==> IsPlanRef(plan.value.id)
      requires "" !in degradations
      modifies this`view, this`degradations, this`receipt, this`state, this`receipts
      ensures state == Aborted && receipts == old(receipts) + 1
      ensures view == (if e.view.Some? then e.view else old(view))
      ensures degradations == AddOnce(old(degradations), "engine:" + e.code)
      ensures receipt == Some(ReceiptOf(Contents(), "aborted", map[], "", None))
    {
      if e.view.Some? {
        view := e.view;
      }
      AddDegradation("engine:" + e.code);
      AbortedEmpty();
      var made := MakeReceipt("aborted", None, "", None);
      if made.Ok? {
        receipt := Some(made.value);
        receipts := receipts + 1;
      }
      state := Aborted;
    }

    method Prepare(source: Source, engine: EngineResult, concrete: bool) returns (reply: Reply)
      requires Valid()
      modifies this
      ensures Valid() && (Contents(), reply) == AfterPrepare(config, old(Contents()), source, engine, concrete)
    {
      PrepareKeepsInv(config, Contents(), source, engine, concrete);
      if state == Completed || state == Aborted || state == Closed {
        return Fails(IllegalState);
      }
      if prepared {
        return ViewReply(view);
      }
      if plan.None? {
        if source.NoSource? {
          return Fails(IllegalState);
        }
        var planned := PlanLocked(source);
        if planned.Fails? {
          return planned;
        }
      } else if !source.NoSource? {
        var planned := PlanLocked(source);
        if planned.Fails? {
          return planned;
        }
      }
      if plan.None? {
        return Fails(IllegalState);
      }
      reply := CallEngine(engine, concrete);
    }

    /** The variant with a cancellation. The concrete client is asked with it, and what comes of it is the
        Engine's answer; any other client is not asked at all when it has come before. */
    method PrepareContext(source: Source, engine: EngineResult, concrete: bool, cancelled: bool) returns (reply: Reply)
      requires Valid()
      modifies this
      ensures Valid()
      ensures (Contents(), reply) ==
        if cancelled && !concrete then (old(Contents()), Fails(Cancelled))
        else AfterPrepare(config, old(Contents()), source, engine, concrete)
    {
      if !concrete && cancelled {
        return Fails(Cancelled);
      }
      reply := Prepare(source, engine, concrete);
    }

    method CallEngine(engine: EngineResult, concrete: bool) returns (reply: Reply)
      requires Valid() && plan.Some? && !Terminal(state) && !prepared
      modifies this
      ensures (Contents(), reply) == AfterEngine(config, old(Contents()), engine, concrete)
    {
      state := Executing;
      calls := calls + 1;
      if engine.Viewed? {
        view, prepared := engine.view, true;
        if !concrete && view.Some? && view.value.status == Degraded {
          AddDegradation("engine:degraded");
        }
        return ViewReply(engine.view);
      }
      var e := engine.error;
      if config.failOpen && (e.unavailable.Some? || e.timeout.Some?) {
        var code := "engine_error";
        if concrete {
          code := e.code;
        } else if e.unavailable.Some? {
          code := e.unavailable.value;
        } else if e.timeout.Some? {
          code := e.timeout.value;
        }
        AddDegradation("engine:" + code);
        prepared := true;
        return ViewReply(None);
      }
      AbortInstanceFailure(e);
      return Fails(Engine(e));
    }

    /** Reads the arguments after the host result. */
    method ParseArguments(arguments: seq<Argument>) returns (r: Option<(string, Fields)>)
      ensures r == if |arguments| > 2 then None else Parsed(arguments)
    {
      var outcome, usage := "unknown", None;
      if |arguments| > 2 {
        return None;
      }
      for i := 0 to |arguments|
        invariant Parsed(arguments[..i]) == Some((outcome, usage))
      {
        assert arguments[..i + 1][..i] == arguments[..i];
        match arguments[i] {
          case Options(o, u) => outcome, usage := o, u;
          case OutcomeArgument(o) => outcome := o;
          case UsageArgument(u) => usage := u;
          case NilArgument =>
          case Unsupported =>
            UnsupportedParsed(arguments, i);
            return None;
        }
      }
      assert arguments[..|arguments|] == arguments;
      return Some((outcome, usage));
    }

    method Complete(arguments: seq<Argument>) returns (reply: Reply)
      requires Valid()
      modifies this
      ensures Valid() && (Contents(), reply) == AfterComplete(old(Contents()), arguments)
    {
      CompleteKeepsInv(Contents(), arguments);
      var parsed := ParseArguments(arguments);
      if parsed.None? {
        return Fails(Validation);
      }
      var (outcome, usage) := parsed.value;
      if state == Completed {
        if receipt.None? {
          return Fails(IllegalState);
        }
        var same := SameCompletion(receipt.value, outcome, usage);
        if !same {
          return Fails(IllegalState);
        }
        return ReceiptReply(receipt.value);
      }
      if state == Aborted || state == Closed {
        return Fails(IllegalState);
      }
      if state != Executing {
        return Fails(IllegalState);
      }
      if outcome == "aborted" || !ValidOutcome(outcome) {
        return Fails(Validation);
      }
      var made := MakeReceipt(outcome, usage, "", None);
      if made.Err? {
        return Fails(Validation);
      }
      receipt, state := Some(made.value), Completed;
      receipts := receipts + 1;
      return ReceiptReply(made.value);
    }

    method Abort(error: Option<Exception>) returns (reply: Reply)
      requires Valid()
      modifies this
      ensures Valid() && (Contents(), reply) == AfterAbort(old(Contents()), error)
    {
      AbortKeepsInv(Contents(), error);
      if error.None? {
        return Fails(Validation);
      }
      if state == Aborted {
        if receipt.None? {
          return Fails(IllegalState);
        }
        return ReceiptReply(receipt.value);
      }
      if state == Closed {
        if receipt.Some? && receipt.value.outcome == "aborted" {
          return ReceiptReply(receipt.value);
        }
        return Fails(IllegalState);
      }
      if state == Completed {
        return Fails(IllegalState);
      }
      AbortedEmpty();
      var made := MakeReceipt("aborted", None, error.value.typeString, error);
      if made.Err? {
        return Fails(Validation);
      }
      receipt, state := Some(made.value), Aborted;
      receipts := receipts + 1;
      return ReceiptReply(made.value);
    }

    method Close() returns (reply: Reply)
      requires Valid()
      modifies this
      ensures Valid() && (Contents(), reply) == AfterClose(old(Contents()))
    {
      CloseKeepsInv(Contents());
      if state == Closed {
        return Nothing;
      }
      if state != Completed && state != Aborted {
        return Fails(IllegalState);
      }
      state := Closed;
      return Nothing;
    }

    /** Recovers the source of the session's view, or of another view with the same binding; `engine` is
        the Engine's answer. */
    method Recover(views: seq<Option<View>>, engine: Result<Option<Binding>>) returns (r: Recovery)
      requires Valid()
      ensures r.Recovered? <==>
        && (state == Executing || state == Completed || state == Aborted) && |views| <= 1 && plan.Some? && view.Some?
        && (|views| == 1 ==> views[0].Some? && BindingOf(views[0].value) == BindingOf(view.value))
        && view.value.recoveryRef != "" && engine == Ok(Some(BindingOf(view.value)))
      ensures r.Recovered? ==> r.source == BindingOf(view.value)
    {
      if state != Executing && state != Completed && state != Aborted {
        return WrongState;
      }
      var selected := view;
      if |views| > 1 {
        return TooManyViews;
      }
      if |views| == 1 {
        selected := views[0];
      }
      if selected.None? || plan.None? {
        return Unavailable;
      }
      if selected != view && (view.None? || BindingOf(selected.value) != BindingOf(view.value)) {
        return Unavailable;
      }
      if selected.value.recoveryRef == "" {
        return Unavailable;
      }
      if engine.Err? {
        return EngineRefused;
      }
      if engine.value.None? || engine.value.value != BindingOf(selected.value) {
        return Mismatch;
      }
      return Recovered(engine.value.value);
    }
  }

  /** The aborted outcome is valid and a nil usage is copied as the empty object. */
  lemma AbortedEmpty()
    ensures ValidOutcome("aborted") && Clone(None) == Ok(map[])
  {
    assert OUTCOMES[5] == "aborted";
    EmptyClone();
  }

  lemma {:induction false} UnsupportedParsed(arguments: seq<Argument>, i: nat)
    requires i < |arguments| && arguments[i] == Unsupported
    ensures Parsed(arguments).None?
  {
    if i < |arguments| - 1 {
      UnsupportedParsed(arguments[..|arguments| - 1], i);
    }
  }
}
