/** The capabilities that an Agent Tools Engine announces in its hello, and the in-place removal of
    repetitions that the check rests on. */
module Capabilities {
  import opened Wrappers
  import J = Json

  const READ_TOOLS: seq<string> := ["ctx_compose", "ctx_glob", "ctx_read", "ctx_search", "ctx_symbol", "ctx_tree"]
  const WRITE_TOOLS: seq<string> := ["ctx_edit", "ctx_fill", "ctx_patch"]
  const EXECUTE_TOOLS: seq<string> := ["ctx_shell"]
  const PROVIDER_TOOL := "ctx_provider"

  // ---------- uniqueStrings ----------

  /** The list without the elements that equal their predecessor. */
  function Unique(values: seq<string>): (r: seq<string>)
    ensures |r| <= |values| && (r == [] <==> values == [])
    ensures values != [] ==> r[|r| - 1] == values[|values| - 1]
  {
    if values == [] then []
    else
      var front, last := Unique(values[..|values| - 1]), values[|values| - 1];
      if front == [] || front[|front| - 1] != last then front + [last] else front
  }

  lemma EmptyIsUnique()
    ensures Unique([]) == []
  {
  }

  lemma UniqueNext(values: seq<string>, i: nat)
    requires i < |values|
    ensures var front := Unique(values[..i]);
      Unique(values[..i + 1]) ==
        if front == [] || front[|front| - 1] != values[i] then front + [values[i]] else front
  {
    assert values[..i + 1][..i] == values[..i];
  }

  /** `uniqueStrings`: the result reuses the places of the list, and its length is returned. */
  method UniqueStrings(values: array<string>) returns (count: nat)
    modifies values
    ensures count <= values.Length
    ensures values[..count] == Unique(old(values[..]))
  {
    hide Unique;
    EmptyIsUnique();
    count := 0;
    if values.Length == 0 {
      return;
    }
    for i := 0 to values.Length
      invariant count <= i
      invariant values[..count] == Unique(old(values[..i]))
      invariant forall j | i <= j < values.Length :: values[j] == old(values[j])
    {
      var value := values[i];
      UniqueNext(old(values[..]), i);
      assert old(values[..])[..i] == old(values[..i]) && old(values[..])[..i + 1] == old(values[..i + 1]);
      if count == 0 || values[count - 1] != value {
        values[count] := value;
        count := count + 1;
        assert values[..count] == values[..count - 1] + [value];
      }
    }
    assert old(values[..values.Length]) == old(values[..]);
  }

  ghost predicate Sorted(values: seq<string>) {
    forall i, j | 0 <= i < j < |values| :: !J.Less(values[j], values[i])
  }

  /** Of a sorted list it keeps every element once, strictly sorted. */
  lemma {:induction false} UniqueOfSorted(values: seq<string>)
    requires Sorted(values)
    ensures J.StrictlySorted(Unique(values)) && J.KeySet(Unique(values)) == J.KeySet(values)
  {
    hide J.Less, J.StrictlySorted;
    if values == [] {
      EmptyIsStrict();
    } else {
      var front, last := values[..|values| - 1], values[|values| - 1];
      assert values == front + [last];
      assert forall i | 0 <= i < |front| :: front[i] == values[i];
      UniqueOfSorted(front);
      assert J.KeySet(values) == J.KeySet(front) + {last};
      var unique := Unique(front);
      if unique == [] || unique[|unique| - 1] != last {
        UniqueSnoc(front, last, unique);
      } else {
        assert last in J.KeySet(unique);
      }
    }
  }

  lemma EmptyIsStrict()
    ensures J.StrictlySorted([])
  {
  }

  lemma UniqueSnoc(front: seq<string>, last: string, unique: seq<string>)
    requires Sorted(front + [last]) && J.StrictlySorted(unique) && J.KeySet(unique) == J.KeySet(front)
    requires unique == [] || unique[|unique| - 1] != last
    ensures J.StrictlySorted(unique + [last]) && J.KeySet(unique + [last]) == J.KeySet(front) + {last}
  {
    hide J.Less;
    forall i | 0 <= i < |unique| ensures J.Less(unique[i], last) {
      LastIsGreatest(front, last, unique, i);
    }
  }

  lemma LastIsGreatest(front: seq<string>, last: string, unique: seq<string>, i: nat)
    requires Sorted(front + [last]) && J.StrictlySorted(unique) && J.KeySet(unique) == J.KeySet(front)
    requires i < |unique| && unique[|unique| - 1] != last
    ensures J.Less(unique[i], last)
  {
    var values, top := front + [last], unique[|unique| - 1];
    assert top in J.KeySet(unique);
    var k :| 0 <= k < |front| && front[k] == top;
    assert !J.Less(values[|front|], values[k]);
    J.LessTotal(top, last);
    if i < |unique| - 1 {
      J.LessTransitive(unique[i], top, last);
    }
  }

  // ---------- sort.Strings ----------

  /** The library's sort, as an insertion sort. */
  method SortStrings(values: seq<string>) returns (sorted: array<string>)
    ensures fresh(sorted) && Sorted(sorted[..]) && multiset(sorted[..]) == multiset(values)
  {
    var list: seq<string> := [];
    for i := 0 to |values|
      invariant Sorted(list) && multiset(list) == multiset(values[..i])
    {
      list := Insert(list, values[i]);
      assert values[..i + 1] == values[..i] + [values[i]];
    }
    assert values[..|values|] == values;
    sorted := new string[|list|](i requires 0 <= i < |list| => list[i]);
    assert sorted[..] == list;
  }

  method Insert(list: seq<string>, value: string) returns (r: seq<string>)
    requires Sorted(list)
    ensures Sorted(r) && multiset(r) == multiset(list) + multiset{value}
  {
    hide J.Less, Sorted;
    var i := 0;
    while i < |list| && J.Less(list[i], value)
      invariant 0 <= i <= |list|
      invariant forall k | 0 <= k < i :: J.Less(list[k], value)
    {
      i := i + 1;
    }
    Placed(list, i, value);
    r := list[..i] + [value] + list[i..];
    assert list == list[..i] + list[i..];
  }

  /** A place with smaller elements before it and no smaller one right behind it is the right one. */
  lemma Placed(list: seq<string>, i: nat, value: string)
    requires Sorted(list) && i <= |list|
    requires forall k | 0 <= k < i :: J.Less(list[k], value)
    requires i < |list| ==> !J.Less(list[i], value)
    ensures Sorted(list[..i] + [value] + list[i..])
  {
    hide J.Less;
    var r := list[..i] + [value] + list[i..];
    forall k | 0 <= k < i ensures !J.Less(value, list[k]) {
      NotBoth(list[k], value);
    }
    forall k | i <= k < |list| ensures !J.Less(list[k], value) {
      if k > i {
        NotBefore(value, list[i], list[k]);
      }
    }
    forall j, k | 0 <= j < k < |r| ensures !J.Less(r[k], r[j]) {
      var a, b := if j <= i then j else j - 1, if k <= i then k else k - 1;
      assert j != i ==> r[j] == list[a];
      assert k != i ==> r[k] == list[b];
    }
  }

  lemma NotBefore(a: string, b: string, c: string)
    requires !J.Less(b, a) && !J.Less(c, b)
    ensures !J.Less(c, a)
  {
    hide J.Less;
    if J.Less(c, a) {
      J.LessTotal(b, c);
      if J.Less(b, c) {
        J.LessTransitive(b, c, a);
      }
    }
  }

  lemma NotBoth(a: string, b: string)
    requires J.Less(a, b)
    ensures !J.Less(b, a)
  {
    J.LessIrreflexive(a);
    if J.Less(b, a) {
      J.LessTransitive(a, b, a);
    }
  }

  lemma SortedUnique(values: seq<string>, sorted: seq<string>)
    requires Sorted(sorted) && multiset(sorted) == multiset(values)
    ensures J.StrictlySorted(Unique(sorted)) && J.KeySet(Unique(sorted)) == J.KeySet(values)
    ensures values == Unique(sorted) <==> J.StrictlySorted(values)
  {
    UniqueOfSorted(sorted);
    assert J.KeySet(sorted) == J.KeySet(values) by {
      forall x ensures x in sorted <==> x in values {
        assert x in multiset(sorted) <==> x in multiset(values);
      }
    }
    if J.StrictlySorted(values) {
      J.SortedListingUnique(values, Unique(sorted));
    }
  }

  // ---------- acceptHello ----------

  /** The tools that the session's permissions admit. */
  ghost function Admitted(write: bool, execute: bool, gitlab: bool): set<string> {
    J.KeySet(READ_TOOLS) + (if write then J.KeySet(WRITE_TOOLS) else {})
      + (if execute then J.KeySet(EXECUTE_TOOLS) else {}) + (if gitlab then {PROVIDER_TOOL} else {})
  }

  /** The list that `acceptHello` builds before sorting it. */
  function ExpectedTools(write: bool, execute: bool, gitlab: bool): (r: seq<string>)
    ensures J.KeySet(r) == Admitted(write, execute, gitlab)
  {
    var tools := READ_TOOLS + (if write then WRITE_TOOLS else []) + (if execute then EXECUTE_TOOLS else [])
      + (if gitlab then [PROVIDER_TOOL] else []);
    ToolSet(write, execute, gitlab, tools);
    tools
  }

  lemma ToolSet(write: bool, execute: bool, gitlab: bool, tools: seq<string>)
    requires tools == READ_TOOLS + (if write then WRITE_TOOLS else []) + (if execute then EXECUTE_TOOLS else [])
      + (if gitlab then [PROVIDER_TOOL] else [])
    ensures J.KeySet(tools) == Admitted(write, execute, gitlab)
  {
    var w, e, g := if write then WRITE_TOOLS else [], if execute then EXECUTE_TOOLS else [], if gitlab then [PROVIDER_TOOL] else [];
    KeySetAppend(READ_TOOLS, w);
    KeySetAppend(READ_TOOLS + w, e);
    KeySetAppend(READ_TOOLS + w + e, g);
  }

  lemma KeySetAppend(a: seq<string>, b: seq<string>)
    ensures J.KeySet(a + b) == J.KeySet(a) + J.KeySet(b)
  {
  }

  /** The announced list, all strings. */
  ghost predicate Announces(raw: seq<Option<string>>, tools: seq<string>) {
    |raw| == |tools| && forall i | 0 <= i < |raw| :: raw[i] == Some(tools[i])
  }

  /** The part of `acceptHello` about the capabilities: exactly the one strictly sorted listing of the
      admitted tools is accepted. */
  method AcceptCapabilities(raw: seq<Option<string>>, write: bool, execute: bool, gitlab: bool) returns (r: Result<seq<string>>)
    ensures r.Ok? <==> exists tools ::
      Announces(raw, tools) && J.StrictlySorted(tools) && J.KeySet(tools) == Admitted(write, execute, gitlab)
    ensures r.Ok? ==> Announces(raw, r.value)
  {
    var capabilities: seq<string> := [];
    for i := 0 to |raw|
      invariant Announces(raw[..i], capabilities)
    {
      if raw[i].None? {
        return Err;
      }
      capabilities := capabilities + [raw[i].value];
    }
    assert raw[..|raw|] == raw;
    assert forall tools | Announces(raw, tools) :: tools == capabilities;
    var sorted := SortStrings(capabilities);
    SortedUnique(capabilities, sorted[..]);
    var count := UniqueStrings(sorted);
    if capabilities != sorted[..count] {
      return Err;
    }
    var expected := SortStrings(ExpectedTools(write, execute, gitlab));
    SortedUnique(ExpectedTools(write, execute, gitlab), expected[..]);
    ghost var listing := Unique(expected[..]);
    count := UniqueStrings(expected);
    if J.KeySet(capabilities) == Admitted(write, execute, gitlab) {
      J.SortedListingUnique(capabilities, listing);
    }
    if capabilities != expected[..count] {
      return Err;
    }
    return Ok(capabilities);
  }
}
