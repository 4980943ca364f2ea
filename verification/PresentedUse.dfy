/** The source ids in an Enterprise answer about a presented use: Go deletes each listed id from the
    requested ones, Python compares sets. */
module PresentedUse {
  import opened Distinct
  import opened Wrappers

  /** An item of the decoded list: a string, or something else. */
  type Item = Option<string>

  function Texts(ids: seq<string>): (r: seq<Item>)
    ensures |r| == |ids| && forall i | 0 <= i < |ids| :: r[i] == Some(ids[i])
  {
    seq(|ids|, i requires 0 <= i < |ids| => Some(ids[i]))
  }

  /** The list names every requested id exactly once, in any order, and nothing else. */
  ghost predicate NamesEachOnce(ids: seq<string>, listed: seq<Item>) {
    multiset(listed) == multiset(Texts(ids))
  }

  lemma TextsNoRepeat(ids: seq<string>)
    requires NoRepeat(ids)
    ensures NoRepeat(Texts(ids))
  {
  }

  /** The Go client: the length, then delete on match. The ids were checked not to repeat when the
      request was made. */
  method MatchByDeleting(ids: seq<string>, listed: seq<Item>) returns (r: Result<seq<string>>)
    requires NoRepeat(ids)
    ensures r.Ok? <==> NamesEachOnce(ids, listed)
    ensures r.Ok? ==> listed == Texts(r.value)
  {
    TextsNoRepeat(ids);
    PermutationIff(Texts(ids), listed);
    if |listed| != |ids| {
      assert NamesEachOnce(ids, listed) ==> |multiset(listed)| == |multiset(Texts(ids))|;
      return Err;
    }
    var requested := set id | id in ids;
    var named: seq<string> := [];
    for i := 0 to |listed|
      invariant listed[..i] == Texts(named)
      invariant NoRepeat(listed[..i])
      invariant forall id :: id in requested <==> id in ids && Some(id) !in listed[..i]
      invariant forall x | x in listed[..i] :: x in Texts(ids)
    {
      if listed[i].None? || listed[i].value !in requested {
        Refused(ids, listed, i);
        return Err;
      }
      assert listed[..i + 1] == listed[..i] + [listed[i]];
      requested := requested - {listed[i].value};
      named := named + [listed[i].value];
    }
    assert listed[..|listed|] == listed;
    Pigeonhole(listed, Texts(ids));
    assert Elements(listed) == Elements(Texts(ids));
    return Ok(named);
  }

  lemma Refused(ids: seq<string>, listed: seq<Item>, i: nat)
    requires i < |listed|
    requires listed[i].None? || listed[i].value !in ids || listed[i] in listed[..i]
    requires NoRepeat(ids)
    ensures !NamesEachOnce(ids, listed)
  {
    TextsNoRepeat(ids);
    PermutationIff(Texts(ids), listed);
    assert listed[i] in Elements(listed);
  }

  /** The Python parser: a list of non-empty strings without repetition. */
  method ListedIDs(listed: seq<Item>) returns (r: Result<seq<string>>)
    ensures r.Ok? <==> NoRepeat(listed) && forall x | x in listed :: x.Some? && x.value != ""
    ensures r.Ok? ==> listed == Texts(r.value) && NoRepeat(r.value)
  {
    var named: seq<string> := [];
    for i := 0 to |listed|
      invariant listed[..i] == Texts(named) && "" !in named
    {
      if listed[i].None? || listed[i].value == "" {
        assert listed[i] in listed;
        return Err;
      }
      named := named + [listed[i].value];
    }
    assert listed[..|listed|] == listed;
    var strings := set id | id in named;
    assert strings == Elements(named);
    ElementsSize(named);
    assert NoRepeat(listed) <==> NoRepeat(named) by {
      assert forall i | 0 <= i < |named| :: listed[i] == Some(named[i]);
    }
    if |strings| != |named| {
      return Err;
    }
    return Ok(named);
  }

  /** The Python client: the parsed ids and the requested ones are the same set. */
  method MatchBySets(ids: seq<string>, listed: seq<Item>) returns (ok: bool)
    requires NoRepeat(ids) && "" !in ids
    ensures ok <==> NamesEachOnce(ids, listed)
  {
    TextsNoRepeat(ids);
    PermutationIff(Texts(ids), listed);
    var parsed := ListedIDs(listed);
    if parsed.Err? {
      if NamesEachOnce(ids, listed) {
        NamedAreIDs(ids, listed);
      }
      return false;
    }
    var named, wanted := set id | id in parsed.value, set id | id in ids;
    SameTexts(ids, parsed.value);
    return named == wanted;
  }

  lemma NamedAreIDs(ids: seq<string>, listed: seq<Item>)
    requires NamesEachOnce(ids, listed) && "" !in ids
    ensures forall x | x in listed :: x.Some? && x.value != ""
  {
    forall x | x in listed ensures x.Some? && x.value != "" {
      assert x in multiset(listed);
      assert x in Texts(ids);
    }
  }

  lemma InTexts(a: seq<string>, id: string)
    ensures id in Elements(a) <==> Some(id) in Elements(Texts(a))
  {
    if id in a {
      var i :| 0 <= i < |a| && a[i] == id;
      assert Texts(a)[i] == Some(id);
    }
  }

  lemma SameTexts(a: seq<string>, b: seq<string>)
    ensures Elements(Texts(a)) == Elements(Texts(b)) <==> Elements(a) == Elements(b)
  {
    forall id ensures id in Elements(a) <==> Some(id) in Elements(Texts(a)) {
      InTexts(a, id);
    }
    forall id ensures id in Elements(b) <==> Some(id) in Elements(Texts(b)) {
      InTexts(b, id);
    }
    if Elements(a) == Elements(b) {
      assert forall x :: x in Elements(Texts(a)) ==> x.Some?;
      assert forall x :: x in Elements(Texts(b)) ==> x.Some?;
      assert forall x: Item :: x in Elements(Texts(a)) <==> x in Elements(Texts(b));
    } else if Elements(Texts(a)) == Elements(Texts(b)) {
      assert forall id :: id in Elements(a) <==> id in Elements(b);
    }
  }
}
