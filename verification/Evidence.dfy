/** The view that the Engine returns, what makes its evidence complete, and the receipt that a
    session gives its host. */
module Evidence {
  import opened Codec
  import opened Digests
  import opened GoValues
  import opened Wrappers
  import U = Utf8

  // ---------- views ----------

  datatype Status = Succeeded | Degraded | Rejected | Failed

  /** The `source_refs` of an invocation record: a list of any values, of which only the strings can
      match, a list of strings, or something else. */
  datatype Lineage = Anything(items: seq<Option<string>>) | Strings(refs: seq<string>) | NoLineage

  /** The three fields of the observation record that are compared; None when a field is not a string. */
  datatype Observation = Observation(
    invocationID: Option<string>,
    outputDigest: Option<string>,
    outputRef: Option<string>)

  datatype View = View(
    status: Status,
    text: Option<string>,
    outputRef: Option<string>,
    outputDigest: Option<string>,
    sourceRef: string,
    sourceDigest: string,
    recoveryRef: string,
    invocationID: string,
    lineage: Lineage,
    observation: Observation,
    link: Option<string>)

  predicate InLineage(lineage: Lineage, ref: string) {
    match lineage
    case Anything(items) => Some(ref) in items
    case Strings(refs) => ref in refs
    case NoLineage => false
  }

  /** The evidence is complete and consistent: there is an output that can be recovered, its source
      is in the invocation's lineage, and observation and receipt link speak of the same invocation
      and output. */
  predicate Complete(v: View) {
    && (v.status == Succeeded || v.status == Degraded)
    && v.recoveryRef != "" && v.text.Some? && v.outputRef.Some? && v.outputDigest.Some?
    && InLineage(v.lineage, v.sourceRef)
    && v.observation == Observation(Some(v.invocationID), v.outputDigest, v.outputRef)
    && v.link == Some(v.invocationID)
  }

  method ObservationMatches(v: View) returns (ok: bool)
    requires v.outputDigest.Some? && v.outputRef.Some?
    ensures ok <==> v.observation == Observation(Some(v.invocationID), v.outputDigest, v.outputRef) && v.link == Some(v.invocationID)
  {
    if v.observation.invocationID != Some(v.invocationID)
      || v.observation.outputDigest != Some(v.outputDigest.value)
      || v.observation.outputRef != Some(v.outputRef.value) {
      return false;
    }
    return v.link.Some? && v.link.value == v.invocationID;
  }

  /** `ContextView.Verify`. */
  method VerifyView(v: View) returns (ok: bool)
    ensures ok <==> Complete(v)
  {
    if v.status != Succeeded && v.status != Degraded {
      return false;
    }
    if v.recoveryRef == "" || v.outputRef.None? || v.outputDigest.None? || v.text.None? {
      return false;
    }
    if v.lineage.Strings? {
      for i := 0 to |v.lineage.refs|
        invariant v.sourceRef !in v.lineage.refs[..i]
      {
        if v.lineage.refs[i] == v.sourceRef {
          ok := ObservationMatches(v);
          return;
        }
      }
      return false;
    }
    if v.lineage.NoLineage? {
      return false;
    }
    var found := false;
    for i := 0 to |v.lineage.items|
      invariant found <==> Some(v.sourceRef) in v.lineage.items[..i]
    {
      if v.lineage.items[i].Some? && v.lineage.items[i].value == v.sourceRef {
        found := true;
      }
    }
    var matches := ObservationMatches(v);
    return found && matches;
  }

  // ---------- receipts ----------

  const MAX_REF_BYTES := 512

  const OUTCOMES: seq<string> := ["unknown", "accepted", "rejected", "completed", "failed", "aborted"]

  predicate ValidOutcome(outcome: string) {
    outcome in OUTCOMES
  }

  predicate IsPlanRef(id: string) {
    |id| == 76 && id[..12] == "plan:sha256:" && AllHex(id[12..])
  }

  /** A Go error value, by the two names of its type. */
  datatype Exception = Exception(typeString: string, typeName: string)

  predicate SafeTypeName(name: string) {
    |U.Encode(name)| <= MAX_REF_BYTES && ':' !in name && '\n' !in name
  }

  datatype Receipt = Receipt(
    planID: Option<string>,
    view: Option<View>,
    outcome: string,
    sealed: bool,
    degradations: seq<string>,
    usage: map<GoString, Value>,
    exceptionType: string,
    exception: Option<Exception>)

  /** The host exception belongs to an aborted outcome and its recorded type name is safe and its own. */
  predicate ExceptionFits(outcome: string, exceptionType: string, exception: Option<Exception>) {
    && (exceptionType != "" ==> SafeTypeName(exceptionType))
    && (exception.Some? ==>
      && outcome == "aborted"
      && (exceptionType == "" || exceptionType == exception.value.typeString || exceptionType == exception.value.typeName))
  }

  /** `NewContextReceipt`, for session and task ids that the session has already checked. */
  method NewReceipt(planID: Option<string>, view: Option<View>, outcome: string, sealed: bool,
                    degradations: seq<string>, usage: Fields, exceptionType: string, exception: Option<Exception>)
    returns (r: Result<Receipt>)
    ensures r.Ok? <==>
      && (planID.Some? ==> IsPlanRef(planID.value)) && ValidOutcome(outcome)
      && ExceptionFits(outcome, exceptionType, exception) && Clone(usage).Ok? && "" !in degradations
      && (sealed ==> view.Some? && Complete(view.value))
    ensures r.Ok? ==> r.value == Receipt(planID, view, outcome, sealed, degradations, Clone(usage).value, exceptionType, exception)
  {
    if planID.Some? && !IsPlanRef(planID.value) {
      return Err;
    }
    if !ValidOutcome(outcome) {
      return Err;
    }
    if exceptionType != "" && !SafeTypeName(exceptionType) {
      return Err;
    }
    if exception.Some? && outcome != "aborted" {
      return Err;
    }
    if exception.Some? && exceptionType != "" && exceptionType != exception.value.typeString
      && exceptionType != exception.value.typeName {
      return Err;
    }
    var copied := CloneMap(usage);
    if copied.Err? {
      return Err;
    }
    for i := 0 to |degradations|
      invariant "" !in degradations[..i]
    {
      if degradations[i] == "" {
        return Err;
      }
    }
    if sealed {
      if view.None? {
        return Err;
      }
      var verified := VerifyView(view.value);
      if !verified {
        return Err;
      }
    }
    return Ok(Receipt(planID, view, outcome, sealed, degradations, copied.value, exceptionType, exception));
  }

  /** `ContextReceipt.Verify`. */
  method VerifyReceipt(r: Receipt) returns (ok: bool)
    ensures ok <==> r.sealed && r.view.Some? && Complete(r.view.value)
  {
    if !r.sealed || r.view.None? {
      return false;
    }
    ok := VerifyView(r.view.value);
  }

  /** Both usages have canonical bytes, and the same ones: they are the same JSON value. */
  ghost predicate SameUsage(stored: map<GoString, Value>, usage: Fields) {
    Meaning(AsValue(usage)).Some? && Meaning(Object(stored)) == Meaning(AsValue(usage))
  }

  /** `sameCompletion`: a repeated completion is the same one if its outcome is and its usage has the
      canonical bytes of the stored one. The test for two nil maps never helps: a receipt has no nil usage. */
  method SameCompletion(receipt: Receipt, outcome: string, usage: Fields) returns (same: bool)
    ensures same <==> (receipt.outcome == outcome && SameUsage(receipt.usage, usage))
  {
    if receipt.outcome != outcome {
      return false;
    }
    var left := CanonicalJSON(Object(receipt.usage));
    var right := CanonicalJSON(AsValue(usage));
    CanonicalUnique(AsValue(usage), Object(receipt.usage));
    CanonicalUnique(Object(receipt.usage), AsValue(usage));
    return left.Ok? && right.Ok? && left.value == right.value;
  }
}
