/** The execution plan that an Enterprise answer returns: the declared plan, in which only two fields
    may differ. */
module DeclaredPlans {
  import opened Codec
  import opened Decimals
  import opened GoValues
  import opened Numbers
  import opened Wrappers
  import J = Json

  const CONTEXT_PLAN_ID := "context_plan_id"

  const DECISION_REF := "context_autopilot_decision_ref"

  type Plan = map<GoString, Value>

  // ---------- what may differ ----------

  /** The field is not one that the answer may set. */
  predicate Fixed(plan: Plan, key: string) {
    key != CONTEXT_PLAN_ID && (key == DECISION_REF ==> Text(DECISION_REF) in plan)
  }

  /** The returned plan is a JSON object that has the id of the source plan, a decision reference if the
      declared plan has none, and otherwise exactly the fields of the declared plan. */
  ghost predicate KeepsDeclared(plan: Plan, returned: Plan, contextPlanID: string) {
    && AllText(plan.Keys)
    && Meaning(Object(returned)).Some?
    && var fields := Meaning(Object(returned)).value.fields;
       && CONTEXT_PLAN_ID in fields && fields[CONTEXT_PLAN_ID] == J.Str(contextPlanID)
       && (Text(DECISION_REF) !in plan ==>
             DECISION_REF in fields && fields[DECISION_REF].Str? && fields[DECISION_REF].text != "")
       && (forall key | Fixed(plan, key) :: key in fields <==> Text(key) in plan)
       && (forall key | Fixed(plan, key) && key in fields :: Meaning(plan[Text(key)]) == Some(fields[key]))
  }

  // ---------- the check ----------

  predicate IsText(v: Value, text: string) {
    v == String(Text(text))
  }

  /** The declared plan with the fields that the answer may set. */
  function ExpectedPlan(plan: Plan, returned: Plan, contextPlanID: string): Plan {
    var expected := plan[Text(CONTEXT_PLAN_ID) := String(Text(contextPlanID))];
    if Text(DECISION_REF) !in expected && Text(DECISION_REF) in returned
    then expected[Text(DECISION_REF) := returned[Text(DECISION_REF)]] else expected
  }

  /** The part of `enterpriseExecutionV1` that compares the returned plan with the declared one. */
  method CheckDeclaredPlan(plan: Plan, returned: Plan, contextPlanID: string) returns (ok: bool)
    ensures ok <==> KeepsDeclared(plan, returned, contextPlanID)
  {
    Compared(plan, returned, contextPlanID);
    if Text(CONTEXT_PLAN_ID) !in returned || !IsText(returned[Text(CONTEXT_PLAN_ID)], contextPlanID) {
      return false;
    }
    var expected := plan[Text(CONTEXT_PLAN_ID) := String(Text(contextPlanID))];
    if Text(DECISION_REF) !in expected {
      if Text(DECISION_REF) !in returned || !returned[Text(DECISION_REF)].String?
        || returned[Text(DECISION_REF)].s == Text("") {
        return false;
      }
      expected := expected[Text(DECISION_REF) := returned[Text(DECISION_REF)]];
    }
    ok := ValuesEqual(Object(expected), Object(returned));
  }

  /** Two objects are the same JSON value exactly if they have the same fields with the same meanings. */
  lemma SameObjectIff(a: Plan, b: Plan)
    ensures Meaning(Object(a)).Some? && Meaning(Object(a)) == Meaning(Object(b)) <==>
      AllText(a.Keys) && a.Keys == b.Keys && forall k | k in a :: Meaning(a[k]).Some? && Meaning(a[k]) == Meaning(b[k])
  {
    if Meaning(Object(a)).Some? && Meaning(Object(a)) == Meaning(Object(b)) {
      assert Texts(a.Keys) == Meaning(Object(a)).value.fields.Keys == Texts(b.Keys);
      SameKeys(a.Keys, b.Keys);
      forall k | k in a ensures Meaning(a[k]).Some? && Meaning(a[k]) == Meaning(b[k]) {
        assert k == Text(k.text) && k.text in Texts(a.Keys);
        assert Meaning(Object(a)).value.fields[k.text] == Meaning(a[k]).value;
        assert Meaning(Object(b)).value.fields[k.text] == Meaning(b[k]).value;
      }
    } else if AllText(a.Keys) && a.Keys == b.Keys && forall k | k in a :: Meaning(a[k]).Some? && Meaning(a[k]) == Meaning(b[k]) {
      SameMeaningObject(a, b);
    }
  }

  lemma SameKeys(a: set<GoString>, b: set<GoString>)
    requires AllText(a) && AllText(b) && Texts(a) == Texts(b)
    ensures a == b
  {
    forall k ensures k in a <==> k in b {
      if k.Text? {
        assert k in a <==> k.text in Texts(a);
        assert k in b <==> k.text in Texts(b);
      }
    }
  }

  /** The meaning of an object, field by field. */
  lemma FieldMeaning(fields: Plan, key: string)
    requires Meaning(Object(fields)).Some?
    ensures key in Meaning(Object(fields)).value.fields <==> Text(key) in fields
    ensures Text(key) in fields ==> Meaning(fields[Text(key)]) == Some(Meaning(Object(fields)).value.fields[key])
  {
  }

  lemma TextMeaning(v: Value, text: string)
    ensures Meaning(v) == Some(J.Str(text)) <==> v == String(Text(text))
  {
  }

  ghost predicate Passes(plan: Plan, returned: Plan, contextPlanID: string) {
    && Text(CONTEXT_PLAN_ID) in returned && IsText(returned[Text(CONTEXT_PLAN_ID)], contextPlanID)
    && (Text(DECISION_REF) !in plan ==>
          && Text(DECISION_REF) in returned && returned[Text(DECISION_REF)].String?
          && returned[Text(DECISION_REF)].s != Text(""))
    && var expected := ExpectedPlan(plan, returned, contextPlanID);
       Meaning(Object(expected)).Some? && Meaning(Object(expected)) == Meaning(Object(returned))
  }

  lemma Compared(plan: Plan, returned: Plan, contextPlanID: string)
    ensures Passes(plan, returned, contextPlanID) <==> KeepsDeclared(plan, returned, contextPlanID)
  {
    if Passes(plan, returned, contextPlanID) {
      PassingKeeps(plan, returned, contextPlanID);
    }
    if KeepsDeclared(plan, returned, contextPlanID) {
      KeepingPasses(plan, returned, contextPlanID);
    }
  }

  lemma PassingKeeps(plan: Plan, returned: Plan, contextPlanID: string)
    requires Passes(plan, returned, contextPlanID)
    ensures KeepsDeclared(plan, returned, contextPlanID)
  {
    var expected := ExpectedPlan(plan, returned, contextPlanID);
    SameObjectIff(expected, returned);
    assert forall k | k in plan :: k in expected;
    FieldMeaning(returned, CONTEXT_PLAN_ID);
    FieldMeaning(returned, DECISION_REF);
    var fields := Meaning(Object(returned)).value.fields;
    forall key | Fixed(plan, key)
      ensures key in fields <==> Text(key) in plan
      ensures key in fields ==> Meaning(plan[Text(key)]) == Some(fields[key])
    {
      FieldMeaning(returned, key);
      assert Text(key) in expected <==> Text(key) in plan;
      assert Text(key) in plan ==> expected[Text(key)] == plan[Text(key)];
    }
  }

  /** The fields that the answer may set. */
  lemma SettableKept(plan: Plan, returned: Plan, contextPlanID: string)
    requires KeepsDeclared(plan, returned, contextPlanID)
    ensures Text(CONTEXT_PLAN_ID) in returned && IsText(returned[Text(CONTEXT_PLAN_ID)], contextPlanID)
    ensures Text(DECISION_REF) !in plan ==>
      && Text(DECISION_REF) in returned && returned[Text(DECISION_REF)].String?
      && returned[Text(DECISION_REF)].s != Text("")
  {
    var fields := Meaning(Object(returned)).value.fields;
    FieldMeaning(returned, CONTEXT_PLAN_ID);
    TextMeaning(returned[Text(CONTEXT_PLAN_ID)], contextPlanID);
    if Text(DECISION_REF) !in plan {
      FieldMeaning(returned, DECISION_REF);
      TextMeaning(returned[Text(DECISION_REF)], fields[DECISION_REF].text);
    }
  }

  /** Each field of the answer is the expected one. */
  lemma FieldKept(plan: Plan, returned: Plan, contextPlanID: string, k: GoString)
    requires KeepsDeclared(plan, returned, contextPlanID)
    ensures var expected := ExpectedPlan(plan, returned, contextPlanID);
      && (k in expected <==> k in returned)
      && (k in expected ==> k.Text? && Meaning(expected[k]).Some? && Meaning(expected[k]) == Meaning(returned[k]))
  {
    SettableKept(plan, returned, contextPlanID);
    if k.Text? {
      FieldMeaning(returned, k.text);
      TextMeaning(String(Text(contextPlanID)), contextPlanID);
    }
  }

  lemma KeepingPasses(plan: Plan, returned: Plan, contextPlanID: string)
    requires KeepsDeclared(plan, returned, contextPlanID)
    ensures Passes(plan, returned, contextPlanID)
  {
    var expected := ExpectedPlan(plan, returned, contextPlanID);
    SettableKept(plan, returned, contextPlanID);
    hide Meaning, KeepsDeclared, ExpectedPlan;
    forall k
      ensures k in expected <==> k in returned
      ensures k in expected ==> k.Text? && Meaning(expected[k]).Some? && Meaning(expected[k]) == Meaning(returned[k])
    {
      FieldKept(plan, returned, contextPlanID, k);
    }
    SameObjectIff(expected, returned);
  }

  // ---------- the budget ----------

  const BUDGET := "context_budget_tokens"

  const U64_BOUND := 0x1_0000_0000_0000_0000

  /** `enterpriseExecutionBoundedU64` without a smaller bound: an unsigned integer of 64 bits, or number
      text that is one without sign, fraction, exponent or leading zero. */
  function U64Of(v: Value): Option<nat> {
    match v
    case Integer(n) => if 0 <= n < U64_BOUND then Some(n) else None
    case Literal(text) =>
      if text != "" && AllDigits(text) && (|text| == 1 || text[0] != '0') && Nat(text) < U64_BOUND then Some(Nat(text)) else None
    case _ => None
  }

  predicate BudgetIs(returned: Plan, budget: nat) {
    Text(BUDGET) in returned && U64Of(returned[Text(BUDGET)]) == Some(budget)
  }

  /** A value with a meaning that is read as an unsigned integer means that integer. */
  lemma U64Means(v: Value, n: nat)
    requires U64Of(v) == Some(n) && Meaning(v).Some?
    ensures Meaning(v) == Some(J.Num(n))
  {
    if v.Literal? {
      DigitsNat(v.text);
      FormattedMeans(n, Normalized(v.text).value);
    }
  }

  /** The text that is written for an integer denotes nothing else. */
  lemma FormattedMeans(n: nat, m: int)
    requires Normalized(FormatInt(n)) == Ok(m)
    ensures m == n
  {
    hide Normalized, Digits;
    var number := IntNumeral(n);
    MatchNumberOf(number);
    NormalizedMeans(FormatInt(n), m);
    assert number.Text() == FormatInt(n);
    NatDigits(n);
    assert Pow10(0) == 1 && number.Joined() == number.whole;
  }

  // ---------- the local-native form ----------

  const LOCAL_NATIVE := "local-native"
  const CAPABILITY := "capability://leanctx/context-optimization"
  const CAPABILITY_VERSION := "1.0.0"

  predicate FieldIs(fields: Plan, key: string, text: string) {
    Text(key) in fields && IsText(fields[Text(key)], text)
  }

  /** `enterpriseExecutionLocalPlan`: the one local provider and model, and the one capability. */
  predicate IsLocal(returned: Plan) {
    && FieldIs(returned, "provider", LOCAL_NATIVE) && FieldIs(returned, "model", LOCAL_NATIVE)
    && Text("capability_ids") in returned
    && returned[Text("capability_ids")] == List([String(Text(CAPABILITY))])
    && Text("capability_bindings") in returned
    && returned[Text("capability_bindings")].List? && |returned[Text("capability_bindings")].items| == 1
    && var binding := returned[Text("capability_bindings")].items[0];
       binding.Object? && |binding.fields| == 2
       && FieldIs(binding.fields, "capability_id", CAPABILITY) && FieldIs(binding.fields, "version", CAPABILITY_VERSION)
  }

  // ---------- the whole comparison ----------

  /** What the comparison demands: the budget of the source plan, the local form, the declared plan and,
      where one was asked for, the evaluation time. */
  ghost predicate Agrees(plan: Plan, returned: Plan, contextPlanID: string, budget: nat,
                         asked: Option<string>, evaluated: Option<string>) {
    && KeepsDeclared(plan, returned, contextPlanID)
    && BudgetIs(returned, budget)
    && IsLocal(returned)
    && (asked.Some? ==> evaluated == asked)
  }

  /** The comparison of the execution plan in `enterpriseExecutionV1`: `contextPlanID`, `budget` and
      `evaluated` are the source plan's id, budget and evaluation time. */
  method CheckExecutionPlan(plan: Plan, returned: Plan, contextPlanID: string, budget: nat,
                            asked: Option<string>, evaluated: Option<string>) returns (ok: bool)
    ensures ok <==> Agrees(plan, returned, contextPlanID, budget, asked, evaluated)
  {
    if Text(BUDGET) !in returned || U64Of(returned[Text(BUDGET)]) != Some(budget) {
      return false;
    }
    if !IsLocal(returned) {
      return false;
    }
    var declared := CheckDeclaredPlan(plan, returned, contextPlanID);
    if !declared {
      return false;
    }
    if asked.Some? && (evaluated.None? || evaluated.value != asked.value) {
      return false;
    }
    return true;
  }

  /** So the budget that was declared is the source plan's budget. */
  lemma DeclaredBudget(plan: Plan, returned: Plan, contextPlanID: string, budget: nat,
                       asked: Option<string>, evaluated: Option<string>)
    requires Agrees(plan, returned, contextPlanID, budget, asked, evaluated)
    ensures Text(BUDGET) in plan && Meaning(plan[Text(BUDGET)]) == Some(J.Num(budget))
  {
    FieldMeaning(returned, BUDGET);
    U64Means(returned[Text(BUDGET)], budget);
    assert Fixed(plan, BUDGET);
  }
}
