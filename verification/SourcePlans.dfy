/** An Enterprise source plan: what the client requires of the plan's selections, of the source
    bindings that come with it and of the sources it asked for. */
module SourcePlans {
  import opened Distinct
  import opened Wrappers
  import J = Json

  const MAX_PLAN_ITEMS := 256

  const MAX_SOURCE_IDS := 64

  type U64 = n: nat | n < 0x1_0000_0000_0000_0000

  const MAX_U64: U64 := 0xFFFF_FFFF_FFFF_FFFF

  datatype Disposition = Selected | Excluded | Deferred

  /** A selection that passed its field checks; its digest is optional. */
  datatype Selection = Selection(ref: string, provider: string, disposition: Disposition, tokens: U64, digest: Option<string>)

  datatype Permission = Permitted | Denied | Unknown

  /** A source binding that passed its field checks. */
  datatype Binding = Binding(ref: string, source: string, digest: string, permission: Permission)

  // ---------- the budget ----------

  datatype Verdict = Accepted(selections: seq<Selection>) | Malformed | Duplicate | OverBudget

  function SelectedTokens(selections: seq<Selection>): nat {
    if selections == [] then 0
    else
      var last := selections[|selections| - 1];
      SelectedTokens(selections[..|selections| - 1]) + if last.disposition == Selected then last.tokens else 0
  }

  function Refs(selections: seq<Selection>): seq<string> {
    Mapped((s: Selection) => s.ref, selections)
  }

  /** The raw items are the selections, each of which passed its field checks. */
  ghost predicate Parses(raw: seq<Option<Selection>>, selections: seq<Selection>) {
    |raw| == |selections| && forall i | 0 <= i < |raw| :: raw[i] == Some(selections[i])
  }

  lemma {:induction false} TokensGrow(selections: seq<Selection>, i: nat)
    requires i <= |selections|
    ensures SelectedTokens(selections[..i]) <= SelectedTokens(selections)
    decreases |selections| - i
  {
    if i < |selections| {
      assert selections[..i + 1][..i] == selections[..i];
      TokensGrow(selections, i + 1);
    } else {
      assert selections[..i] == selections;
    }
  }

  /** `enterprisePlan` for the selections and the budget, where None stands for a value that its field
      check refuses. The sum is kept in 64 bits. */
  method CheckSelections(raw: seq<Option<Selection>>, budget: Option<U64>) returns (v: Verdict)
    ensures v.Accepted? <==>
      exists selections :: Parses(raw, selections) && |raw| <= MAX_PLAN_ITEMS && NoRepeat(Refs(selections))
        && budget.Some? && SelectedTokens(selections) <= budget.value
    ensures v.Accepted? ==> Parses(raw, v.selections)
    ensures forall selections | Parses(raw, selections) && |raw| <= MAX_PLAN_ITEMS && NoRepeat(Refs(selections)) && budget.Some? ::
      v == OverBudget <==> SelectedTokens(selections) > budget.value
  {
    if |raw| > MAX_PLAN_ITEMS {
      return Malformed;
    }
    var refs: set<string> := {};
    var selectedTokens: U64 := 0;
    var selections: seq<Selection> := [];
    for i := 0 to |raw|
      invariant Parses(raw[..i], selections)
      invariant NoRepeat(Refs(selections)) && refs == Elements(Refs(selections))
      invariant selectedTokens == SelectedTokens(selections)
    {
      if raw[i].None? {
        return Malformed;
      }
      var selection := raw[i].value;
      assert Refs(selections + [selection]) == Refs(selections) + [selection.ref];
      assert (selections + [selection])[..i] == selections;
      assert Parses(raw[..i + 1], selections + [selection]);
      if selection.ref in refs {
        RepeatedRef(raw, selections, i);
        return Duplicate;
      }
      refs := refs + {selection.ref};
      if selection.disposition == Selected {
        if selection.tokens > MAX_U64 - selectedTokens {
          Exceeds(raw, selections + [selection], i + 1);
          return OverBudget;
        }
        selectedTokens := selectedTokens + selection.tokens;
      }
      selections := selections + [selection];
      ElementsSnoc(Refs(selections[..i]), selection.ref);
    }
    assert raw[..|raw|] == raw;
    assert forall other | Parses(raw, other) :: other == selections;
    if budget.None? {
      return Malformed;
    }
    if selectedTokens > budget.value {
      return OverBudget;
    }
    return Accepted(selections);
  }

  /** Where a reference repeats, no list of selections without repetition is what was sent. */
  lemma RepeatedRef(raw: seq<Option<Selection>>, before: seq<Selection>, i: nat)
    requires i < |raw| && raw[i].Some? && Parses(raw[..i], before)
    requires raw[i].value.ref in Elements(Refs(before))
    ensures forall selections | Parses(raw, selections) :: !NoRepeat(Refs(selections))
  {
    var j :| 0 <= j < i && Refs(before)[j] == raw[i].value.ref;
    forall selections | Parses(raw, selections) ensures !NoRepeat(Refs(selections)) {
      assert raw[..i][j] == raw[j];
      assert Refs(selections)[j] == Refs(selections)[i];
    }
  }

  /** Where the sum leaves 64 bits, it exceeds every budget. */
  lemma Exceeds(raw: seq<Option<Selection>>, before: seq<Selection>, i: nat)
    requires i <= |raw| && Parses(raw[..i], before) && SelectedTokens(before) > MAX_U64
    ensures forall selections | Parses(raw, selections) :: SelectedTokens(selections) > MAX_U64
  {
    forall selections | Parses(raw, selections) ensures SelectedTokens(selections) > MAX_U64 {
      assert forall j | 0 <= j < i :: raw[..i][j] == raw[j];
      assert selections[..i] == before;
      TokensGrow(selections, i);
    }
  }

  // ---------- selections and bindings ----------

  predicate Matches(s: Selection, b: Binding) {
    s.ref == b.ref && s.provider == b.source && s.digest == Some(b.digest)
  }

  function OnlySelected(selections: seq<Selection>): (r: seq<Selection>)
    ensures forall s :: s in r <==> s in selections && s.disposition == Selected
  {
    if selections == [] then []
    else
      var last := selections[|selections| - 1];
      OnlySelected(selections[..|selections| - 1]) + if last.disposition == Selected then [last] else []
  }

  ghost predicate Sorted(bindings: seq<Binding>) {
    forall i | 0 < i < |bindings| :: J.Less(bindings[i - 1].ref, bindings[i].ref)
  }

  ghost predicate BindingsParse(raw: seq<Option<Binding>>, bindings: seq<Binding>) {
    |raw| == |bindings| && forall i | 0 <= i < |raw| :: raw[i] == Some(bindings[i])
  }

  /** What the client checks: strictly sorted, as many as there are selected entries, and each matches
      one of them. */
  ghost predicate Bind(selections: seq<Selection>, bindings: seq<Binding>) {
    && Sorted(bindings)
    && |OnlySelected(selections)| == |bindings|
    && forall b | b in bindings :: exists s | s in OnlySelected(selections) :: Matches(s, b)
  }

  /** `enterpriseSourcePlan` for the bindings, where None stands for a descriptor that its checks refuse. */
  method CheckBindings(selections: seq<Selection>, raw: seq<Option<Binding>>) returns (r: Result<seq<Binding>>)
    ensures r.Ok? <==> |raw| <= MAX_PLAN_ITEMS && exists bindings :: BindingsParse(raw, bindings) && Bind(selections, bindings)
    ensures r.Ok? ==> BindingsParse(raw, r.value) && Bind(selections, r.value)
  {
    if |raw| > MAX_PLAN_ITEMS {
      return Err;
    }
    var parsed := ParseBindings(raw);
    if parsed.Err? {
      return Err;
    }
    var bindings := parsed.value;
    assert forall other | BindingsParse(raw, other) :: other == bindings;
    var selected := ListSelected(selections);
    if |selected| != |bindings| {
      return Err;
    }
    for i := 0 to |bindings|
      invariant forall j | 0 <= j < i :: exists s | s in selected :: Matches(s, bindings[j])
    {
      var matched := Find(selected, bindings[i]);
      if !matched {
        assert bindings[i] in bindings;
        return Err;
      }
    }
    return Ok(bindings);
  }

  method ParseBindings(raw: seq<Option<Binding>>) returns (r: Result<seq<Binding>>)
    ensures r.Ok? <==> exists bindings :: BindingsParse(raw, bindings) && Sorted(bindings)
    ensures r.Ok? ==> BindingsParse(raw, r.value) && Sorted(r.value)
  {
    var bindings: seq<Binding> := [];
    for i := 0 to |raw|
      invariant BindingsParse(raw[..i], bindings) && Sorted(bindings)
    {
      if raw[i].None? {
        return Err;
      }
      if i > 0 && !J.Less(bindings[i - 1].ref, raw[i].value.ref) {
        assert raw[..i][i - 1] == raw[i - 1];
        assert forall other | BindingsParse(raw, other) :: other[i - 1] == bindings[i - 1] && other[i] == raw[i].value;
        return Err;
      }
      bindings := bindings + [raw[i].value];
      assert forall j | 0 <= j < i :: raw[..i + 1][j] == raw[..i][j];
    }
    assert raw[..|raw|] == raw;
    return Ok(bindings);
  }

  method ListSelected(selections: seq<Selection>) returns (selected: seq<Selection>)
    ensures selected == OnlySelected(selections)
  {
    selected := [];
    for i := 0 to |selections|
      invariant selected == OnlySelected(selections[..i])
    {
      assert selections[..i + 1][..i] == selections[..i];
      if selections[i].disposition == Selected {
        selected := selected + [selections[i]];
      }
    }
    assert selections[..|selections|] == selections;
  }

  method Find(selected: seq<Selection>, b: Binding) returns (matched: bool)
    ensures matched <==> exists s | s in selected :: Matches(s, b)
  {
    for i := 0 to |selected|
      invariant forall j | 0 <= j < i :: !Matches(selected[j], b)
    {
      if Matches(selected[i], b) {
        assert selected[i] in selected;
        return true;
      }
    }
    return false;
  }

  function BindingRefs(bindings: seq<Binding>): seq<string> {
    Mapped((b: Binding) => b.ref, bindings)
  }

  lemma {:induction false} SortedApart(bindings: seq<Binding>, i: nat, j: nat)
    requires Sorted(bindings) && i < j < |bindings|
    ensures J.Less(bindings[i].ref, bindings[j].ref)
    decreases j
  {
    if i + 1 < j {
      SortedApart(bindings, i, j - 1);
      J.LessTransitive(bindings[i].ref, bindings[j - 1].ref, bindings[j].ref);
    } else {
      assert bindings[j - 1] == bindings[i];
    }
  }

  lemma SortedNoRepeat(bindings: seq<Binding>)
    requires Sorted(bindings)
    ensures NoRepeat(BindingRefs(bindings))
  {
    forall i, j | 0 <= i < j < |bindings| ensures bindings[i].ref != bindings[j].ref {
      SortedApart(bindings, i, j);
      J.LessIrreflexive(bindings[i].ref);
    }
  }

  lemma SameRef(selections: seq<Selection>, s: Selection, t: Selection)
    requires NoRepeat(Refs(selections)) && s in selections && t in selections && s.ref == t.ref
    ensures s == t
  {
    var i :| 0 <= i < |selections| && selections[i] == s;
    var j :| 0 <= j < |selections| && selections[j] == t;
    assert Refs(selections)[i] == Refs(selections)[j];
  }

  /** The one-way match is two-way: in an accepted plan every selected entry has exactly one binding,
      and every binding exactly one selected entry. */
  lemma SelectedBound(selections: seq<Selection>, bindings: seq<Binding>, s: Selection)
    requires NoRepeat(Refs(selections)) && Bind(selections, bindings)
    requires s in selections && s.disposition == Selected
    ensures exists b | b in bindings :: Matches(s, b) && forall c | c in bindings && Matches(s, c) :: c == b
  {
    var b := BindingOf(selections, bindings, s);
    SortedNoRepeat(bindings);
    forall c | c in bindings && Matches(s, c) ensures c == b {
      var i :| 0 <= i < |bindings| && bindings[i] == b;
      var m :| 0 <= m < |bindings| && bindings[m] == c;
      assert BindingRefs(bindings)[m] == BindingRefs(bindings)[i];
    }
  }

  /** By counting: the references of the bindings are among those of the selected entries, without
      repetition and as many, so each of those has a binding. */
  lemma BindingOf(selections: seq<Selection>, bindings: seq<Binding>, s: Selection) returns (b: Binding)
    requires NoRepeat(Refs(selections)) && Bind(selections, bindings)
    requires s in selections && s.disposition == Selected
    ensures b in bindings && Matches(s, b)
  {
    var selected := OnlySelected(selections);
    SortedNoRepeat(bindings);
    forall ref | ref in BindingRefs(bindings) ensures ref in Refs(selected) {
      var i :| 0 <= i < |bindings| && bindings[i].ref == ref;
      assert bindings[i] in bindings;
      var t :| t in selected && Matches(t, bindings[i]);
      var j :| 0 <= j < |selected| && selected[j] == t;
      assert Refs(selected)[j] == ref;
    }
    Pigeonhole(BindingRefs(bindings), Refs(selected));
    var k :| 0 <= k < |selected| && selected[k] == s;
    assert Refs(selected)[k] in BindingRefs(bindings);
    var i :| 0 <= i < |bindings| && bindings[i].ref == s.ref;
    b := bindings[i];
    assert b in bindings;
    var t :| t in selected && Matches(t, b);
    SameRef(selections, s, t);
  }

  lemma BindingSelected(selections: seq<Selection>, bindings: seq<Binding>, b: Binding)
    requires NoRepeat(Refs(selections)) && Bind(selections, bindings) && b in bindings
    ensures exists s | s in selections ::
      s.disposition == Selected && Matches(s, b) && forall t | t in selections && Matches(t, b) :: t == s
  {
    var s :| s in OnlySelected(selections) && Matches(s, b);
    forall t | t in selections && Matches(t, b) ensures t == s {
      SameRef(selections, s, t);
    }
  }

  /** Selected entries and bindings correspond one to one, with equal reference, provider and digest. */
  ghost predicate OneToOne(selections: seq<Selection>, bindings: seq<Binding>) {
    && (forall s | s in selections && s.disposition == Selected ::
          exists b | b in bindings :: Matches(s, b) && forall c | c in bindings && Matches(s, c) :: c == b)
    && (forall b | b in bindings ::
          exists s | s in selections ::
            s.disposition == Selected && Matches(s, b) && forall t | t in selections && Matches(t, b) :: t == s)
  }

  /** What is left of a response to check; None stands for a value that its field check refuses. */
  datatype Response = Response(
    task: string,
    budget: Option<U64>,
    selections: seq<Option<Selection>>,
    bindings: seq<Option<Binding>>,
    digest: Option<string>)

  datatype Request = Request(task: string, budget: U64)

  /** The digest of the canonical plan with its bindings; None where there is none. */
  type Hash = (seq<Selection>, seq<Binding>) -> Option<string>

  /** What a source plan has to satisfy: its parts parse, no reference repeats, it is for the requested task,
      the selected tokens are within its budget and that within the requested one, the bindings match,
      and the digest is that of plan and bindings. */
  ghost predicate Acceptable(response: Response, request: Request, hash: Hash,
                             selections: seq<Selection>, bindings: seq<Binding>) {
    && |response.selections| <= MAX_PLAN_ITEMS && |response.bindings| <= MAX_PLAN_ITEMS
    && Parses(response.selections, selections) && BindingsParse(response.bindings, bindings)
    && NoRepeat(Refs(selections))
    && response.task == request.task
    && response.budget.Some? && SelectedTokens(selections) <= response.budget.value <= request.budget
    && Bind(selections, bindings)
    && response.digest.Some? && response.digest == hash(selections, bindings)
  }

  /** `enterpriseSourcePlan` with the plan inside it: an accepted plan selects at most the requested
      budget, and its selected entries and bindings correspond one to one. */
  method CheckSourcePlan(response: Response, request: Request, hash: Hash) returns (r: Result<(seq<Selection>, seq<Binding>)>)
    ensures r.Ok? <==> exists selections, bindings :: Acceptable(response, request, hash, selections, bindings)
    ensures r.Ok? ==>
      && Acceptable(response, request, hash, r.value.0, r.value.1)
      && SelectedTokens(r.value.0) <= request.budget
      && OneToOne(r.value.0, r.value.1)
  {
    var checked := CheckSelections(response.selections, response.budget);
    if !checked.Accepted? {
      return Err;
    }
    var selections := checked.selections;
    assert forall other | Parses(response.selections, other) :: other == selections;
    if response.task != request.task || response.budget.value > request.budget {
      return Err;
    }
    var bound := CheckBindings(selections, response.bindings);
    if bound.Err? {
      assert forall s, b | Acceptable(response, request, hash, s, b) :: s == selections && Bind(selections, b);
      return Err;
    }
    var bindings := bound.value;
    assert forall other | BindingsParse(response.bindings, other) :: other == bindings;
    if response.digest.None? || response.digest != hash(selections, bindings) {
      assert forall s, b | Acceptable(response, request, hash, s, b) :: s == selections && b == bindings;
      return Err;
    }
    BoundOneToOne(selections, bindings);
    assert Acceptable(response, request, hash, selections, bindings);
    return Ok((selections, bindings));
  }

  lemma BoundOneToOne(selections: seq<Selection>, bindings: seq<Binding>)
    requires NoRepeat(Refs(selections)) && Bind(selections, bindings)
    ensures OneToOne(selections, bindings)
  {
    forall s | s in selections && s.disposition == Selected
      ensures exists b | b in bindings :: Matches(s, b) && forall c | c in bindings && Matches(s, c) :: c == b
    {
      SelectedBound(selections, bindings, s);
    }
    forall b | b in bindings
      ensures exists s | s in selections ::
        s.disposition == Selected && Matches(s, b) && forall t | t in selections && Matches(t, b) :: t == s
    {
      BindingSelected(selections, bindings, b);
    }
  }

  // ---------- the requested sources ----------

  /** The plan stays within the requested sources, and every bound source is permitted. */
  ghost predicate InScope(selections: seq<Selection>, bindings: seq<Binding>, sources: seq<string>) {
    && (forall s | s in selections :: s.ref in sources && s.provider in sources)
    && (forall b | b in bindings :: b.ref in sources && b.source in sources && b.permission == Permitted)
  }

  /** `enterpriseSourceScope`. */
  method CheckScope(selections: seq<Selection>, bindings: seq<Binding>, sources: seq<string>) returns (ok: bool)
    ensures ok <==> InScope(selections, bindings, sources)
  {
    var requested := set source | source in sources;
    for i := 0 to |selections|
      invariant forall s | s in selections[..i] :: s.ref in sources && s.provider in sources
    {
      if selections[i].ref !in requested || selections[i].provider !in requested {
        assert selections[i] in selections;
        return false;
      }
    }
    for i := 0 to |bindings|
      invariant forall b | b in bindings[..i] :: b.ref in sources && b.source in sources && b.permission == Permitted
    {
      if bindings[i].ref !in requested || bindings[i].source !in requested || bindings[i].permission != Permitted {
        assert bindings[i] in bindings;
        return false;
      }
    }
    assert selections[..|selections|] == selections && bindings[..|bindings|] == bindings;
    return true;
  }

  /** Every selected entry of an accepted plan in scope is permitted: its one binding says so, and it
      names a requested source with the very digest of the selection. */
  lemma SelectedIsPermitted(selections: seq<Selection>, bindings: seq<Binding>, sources: seq<string>, s: Selection)
    requires NoRepeat(Refs(selections)) && Bind(selections, bindings) && InScope(selections, bindings, sources)
    requires s in selections && s.disposition == Selected
    ensures s.ref in sources && s.provider in sources && s.digest.Some?
    ensures Binding(s.ref, s.provider, s.digest.value, Permitted) in bindings
  {
    SelectedBound(selections, bindings, s);
    var b :| b in bindings && Matches(s, b);
    assert b == Binding(s.ref, s.provider, s.digest.value, Permitted);
  }

  // ---------- source ids ----------

  function Lower(c: char): char {
    if 'A' <= c <= 'Z' then c - 'A' + 'a' else c
  }

  function Lowered(text: string): string {
    Mapped(Lower, text)
  }

  predicate IsDash(i: int) {
    i == 8 || i == 13 || i == 18 || i == 23
  }

  predicate UUIDChar(c: char, i: int) {
    if IsDash(i) then c == '-' else '0' <= c <= '9' || 'a' <= c <= 'f'
  }

  /** A UUID in any case, not the nil one. */
  predicate IsUUID(text: string) {
    && |text| == 36
    && (forall i | 0 <= i < 36 :: UUIDChar(Lower(text[i]), i))
    && (exists i | 0 <= i < 36 :: text[i] != '-' && text[i] != '0')
  }

  function AllLowered(values: seq<string>): seq<string> {
    Mapped(Lowered, values)
  }

  /** `enterpriseSourceIDs`: at most 64 UUIDs that do not repeat, not even in another case. */
  method SourceIDs(values: seq<string>) returns (r: Result<seq<string>>)
    ensures r.Ok? <==> |values| <= MAX_SOURCE_IDS && (forall v | v in values :: IsUUID(v)) && NoRepeat(AllLowered(values))
    ensures r.Ok? ==> r.value == AllLowered(values)
  {
    if |values| > MAX_SOURCE_IDS {
      return Err;
    }
    var result: seq<string> := [];
    var seen: set<string> := {};
    for i := 0 to |values|
      invariant result == AllLowered(values[..i])
      invariant forall j | 0 <= j < i :: IsUUID(values[j])
      invariant NoRepeat(result) && seen == Elements(result)
    {
      if !IsUUID(values[i]) {
        assert values[i] in values;
        return Err;
      }
      var normalized := Lowered(values[i]);
      if normalized in seen {
        var j :| 0 <= j < i && result[j] == normalized;
        assert AllLowered(values)[j] == AllLowered(values)[i];
        return Err;
      }
      ElementsSnoc(result, normalized);
      assert AllLowered(values[..i + 1]) == AllLowered(values[..i]) + [normalized];
      seen := seen + {normalized};
      result := result + [normalized];
    }
    assert values[..|values|] == values;
    return Ok(result);
  }
}
