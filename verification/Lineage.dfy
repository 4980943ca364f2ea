/** The lineage of an Enterprise execution: four references that bind the input, the source plan, the
    task and the execution plan by their digests. */
module Lineage {
  import opened Digests
  import opened Wrappers

  datatype Kind = Input | Evidence | Task | Plan

  function Prefix(kind: Kind): (p: string)
    ensures p != ""
  {
    match kind
    case Input => "input:source-materialization-sha256:"
    case Evidence => "artifact://execution/evidence/"
    case Task => "task:sha256:"
    case Plan => "plan:sha256:"
  }

  predicate IsDigest(digest: string) {
    |digest| == 71 && digest[..7] == "sha256:" && AllHex(digest[7..])
  }

  /** The digests that the references must bind. */
  type Expected = map<Kind, string>

  predicate Total(expected: Expected) {
    expected.Keys == {Input, Evidence, Task, Plan}
  }

  /** The reference of one kind for one digest. */
  function Reference(kind: Kind, digest: string): string
    requires IsDigest(digest)
  {
    Prefix(kind) + digest[7..]
  }

  // ---------- enterpriseExecutionDigestSuffix ----------

  /** The digest that a reference binds, if it has the prefix and ends in a digest. */
  function DigestSuffix(value: string, kind: Kind): (r: Result<string>)
    ensures r.Ok? <==> exists digest :: IsDigest(digest) && value == Reference(kind, digest)
    ensures r.Ok? ==> IsDigest(r.value) && value == Reference(kind, r.value)
  {
    if !(Prefix(kind) <= value) then
      assert forall digest | IsDigest(digest) :: Prefix(kind) <= Reference(kind, digest);
      Err
    else
      var digest := "sha256:" + value[|Prefix(kind)|..];
      assert digest[7..] == value[|Prefix(kind)|..];
      if IsDigest(digest) then
        assert value == Prefix(kind) + value[|Prefix(kind)|..];
        Ok(digest)
      else
        SuffixOnly(value, kind);
        Err
  }

  lemma SuffixOf(kind: Kind, digest: string)
    requires IsDigest(digest)
    ensures Prefix(kind) <= Reference(kind, digest)
    ensures "sha256:" + Reference(kind, digest)[|Prefix(kind)|..] == digest
  {
    assert Reference(kind, digest)[|Prefix(kind)|..] == digest[7..];
    assert digest == digest[..7] + digest[7..];
  }

  lemma SuffixOnly(value: string, kind: Kind)
    requires Prefix(kind) <= value && !IsDigest("sha256:" + value[|Prefix(kind)|..])
    ensures forall digest | IsDigest(digest) :: value != Reference(kind, digest)
  {
    hide Prefix;
    forall digest | IsDigest(digest) ensures value != Reference(kind, digest) {
      SuffixOf(kind, digest);
    }
  }

  lemma ReferenceInjective(kind: Kind, digest: string, digest': string)
    requires IsDigest(digest) && IsDigest(digest') && Reference(kind, digest) == Reference(kind, digest')
    ensures digest == digest'
  {
    assert Reference(kind, digest)[|Prefix(kind)|..] == digest[7..];
    assert Reference(kind, digest')[|Prefix(kind)|..] == digest'[7..];
    assert digest == digest[..7] + digest[7..] && digest' == digest'[..7] + digest'[7..];
  }

  /** No reference has two kinds: the prefixes differ in their first character. */
  lemma KindsApart(kind: Kind, other: Kind, value: string)
    requires kind != other && Prefix(kind) <= value
    ensures !(Prefix(other) <= value)
  {
    assert Prefix(kind)[0] != Prefix(other)[0];
  }

  // ---------- enterpriseExecutionLineage ----------

  ghost predicate AllDigests(expected: Expected) {
    forall kind | kind in expected :: IsDigest(expected[kind])
  }

  /** The four references: the input reference itself and those built from the other digests. */
  ghost function Four(expected: Expected): seq<string>
    requires Total(expected) && AllDigests(expected)
  {
    [Reference(Input, expected[Input]), Reference(Evidence, expected[Evidence]),
     Reference(Task, expected[Task]), Reference(Plan, expected[Plan])]
  }

  /** The references are those four in any order. */
  ghost predicate IsLineage(expected: Expected, inputRef: string, refs: seq<string>)
    requires Total(expected)
  {
    && AllDigests(expected)
    && inputRef == Reference(Input, expected[Input])
    && multiset(refs) == multiset(Four(expected))
  }

  /** The kind of a reference by its prefix. */
  function KindOf(value: string): (r: Option<Kind>)
    ensures forall kind :: r == Some(kind) <==> Prefix(kind) <= value
  {
    if Prefix(Input) <= value then KindIs(Input, value); Some(Input)
    else if Prefix(Evidence) <= value then KindIs(Evidence, value); Some(Evidence)
    else if Prefix(Task) <= value then KindIs(Task, value); Some(Task)
    else if Prefix(Plan) <= value then KindIs(Plan, value); Some(Plan)
    else NoKind(value); None
  }

  lemma NoKind(value: string)
    requires !(Prefix(Input) <= value) && !(Prefix(Evidence) <= value) && !(Prefix(Task) <= value) && !(Prefix(Plan) <= value)
    ensures forall kind :: !(Prefix(kind) <= value)
  {
    forall kind ensures !(Prefix(kind) <= value) {
      AllKinds(kind);
    }
  }

  lemma KindIs(kind: Kind, value: string)
    requires Prefix(kind) <= value
    ensures forall other | Prefix(other) <= value :: other == kind
  {
    forall other | Prefix(other) <= value ensures other == kind {
      if other != kind {
        KindsApart(kind, other, value);
      }
    }
  }

  /** The reference binds the digest that is expected of its kind. */
  predicate Binds(expected: Expected, value: string)
    requires Total(expected)
  {
    KindOf(value).Some? && DigestSuffix(value, KindOf(value).value) == Ok(expected[KindOf(value).value])
  }

  /** How many of the references have a kind. */
  ghost function Count(refs: seq<string>, kind: Kind): nat {
    if refs == [] then 0
    else Count(refs[..|refs| - 1], kind) + if KindOf(refs[|refs| - 1]) == Some(kind) then 1 else 0
  }

  ghost predicate AllBind(expected: Expected, refs: seq<string>)
    requires Total(expected)
  {
    forall r | r in refs :: Binds(expected, r)
  }

  ghost predicate EachOnce(refs: seq<string>) {
    forall kind :: Count(refs, kind) == 1
  }

  /** The loop over the references: each must bind, and each kind must come once. */
  method CheckReferences(expected: Expected, refs: seq<string>) returns (ok: bool)
    requires Total(expected)
    ensures ok <==> AllBind(expected, refs) && EachOnce(refs)
  {
    hide KindOf, DigestSuffix, Prefix, Reference;
    var counts: map<Kind, nat> := map[Input := 0, Evidence := 0, Task := 0, Plan := 0];
    forall kind: Kind ensures kind in counts {
      AllKinds(kind);
    }
    for i := 0 to |refs|
      invariant Counted(counts, refs[..i])
      invariant forall j | 0 <= j < i :: Binds(expected, refs[j])
    {
      var kind := KindOf(refs[i]);
      if kind.None? {
        assert refs[i] in refs && !Binds(expected, refs[i]);
        return false;
      }
      AllKinds(kind.value);
      CountedStep(counts, refs, i);
      counts := counts[kind.value := counts[kind.value] + 1];
      var suffix := DigestSuffix(refs[i], kind.value);
      if suffix != Ok(expected[kind.value]) {
        assert refs[i] in refs && !Binds(expected, refs[i]);
        return false;
      }
    }
    assert refs[..|refs|] == refs;
    OnceIff(refs);
    return counts[Input] == 1 && counts[Evidence] == 1 && counts[Task] == 1 && counts[Plan] == 1;
  }

  lemma OnceIff(refs: seq<string>)
    ensures EachOnce(refs) <==> Count(refs, Input) == 1 && Count(refs, Evidence) == 1 && Count(refs, Task) == 1 && Count(refs, Plan) == 1
  {
    hide Count;
    if Count(refs, Input) == 1 && Count(refs, Evidence) == 1 && Count(refs, Task) == 1 && Count(refs, Plan) == 1 {
      forall kind ensures Count(refs, kind) == 1 {
        AllKinds(kind);
      }
    }
  }

  ghost predicate Counted(counts: map<Kind, nat>, refs: seq<string>) {
    forall kind: Kind :: kind in counts && counts[kind] == Count(refs, kind)
  }

  lemma CountedStep(counts: map<Kind, nat>, refs: seq<string>, i: nat)
    requires i < |refs| && Counted(counts, refs[..i]) && KindOf(refs[i]).Some?
    ensures Counted(counts[KindOf(refs[i]).value := counts[KindOf(refs[i]).value] + 1], refs[..i + 1])
  {
    hide KindOf;
    assert refs[..i + 1][..i] == refs[..i];
  }

  lemma AllKinds(kind: Kind)
    ensures kind in {Input, Evidence, Task, Plan}
  {
  }

  /** `enterpriseExecutionLineage`: `refs` and `inputRef` are None when the record does not have them
      in the right form; the input digest is the one of the record. */
  method CheckLineage(expected: Expected, inputRef: Option<string>, refs: Option<seq<string>>) returns (ok: bool)
    requires Total(expected)
    ensures ok <==> refs.Some? && inputRef.Some? && IsLineage(expected, inputRef.value, refs.value)
  {
    if refs.None? || |refs.value| != 4 {
      if refs.Some? && inputRef.Some? && IsLineage(expected, inputRef.value, refs.value) {
        FourSize(expected, refs.value);
      }
      return false;
    }
    if inputRef.None? {
      return false;
    }
    var suffix := DigestSuffix(inputRef.value, Input);
    if suffix != Ok(expected[Input]) {
      if IsLineage(expected, inputRef.value, refs.value) {
        KindOfReference(Input, expected[Input]);
      }
      return false;
    }
    ok := CheckReferences(expected, refs.value);
    ReferencesExact(expected, refs.value);
  }

  lemma FourSize(expected: Expected, refs: seq<string>)
    requires Total(expected) && AllDigests(expected)
    requires multiset(refs) == multiset(Four(expected))
    ensures |refs| == 4
  {
    assert |multiset(refs)| == |multiset(Four(expected))|;
  }

  lemma KindOfReference(kind: Kind, digest: string)
    requires IsDigest(digest)
    ensures KindOf(Reference(kind, digest)) == Some(kind)
    ensures DigestSuffix(Reference(kind, digest), kind) == Ok(digest)
  {
    var value := Reference(kind, digest);
    assert Prefix(kind) <= value;
    ReferenceInjective(kind, DigestSuffix(value, kind).value, digest);
  }

  /** A reference binds exactly if it is the one built from the expected digest of its kind. */
  lemma BindsIff(expected: Expected, value: string)
    requires Total(expected)
    ensures Binds(expected, value) <==>
      exists kind | kind in expected && IsDigest(expected[kind]) :: value == Reference(kind, expected[kind])
  {
    if Binds(expected, value) {
      AllKinds(KindOf(value).value);
    }
    forall kind | kind in expected && IsDigest(expected[kind]) && value == Reference(kind, expected[kind])
      ensures Binds(expected, value)
    {
      KindOfReference(kind, expected[kind]);
    }
  }

  /** Where every reference binds, the references of a kind are the copies of the expected one. */
  lemma {:induction false} CountIsMultiplicity(expected: Expected, refs: seq<string>, kind: Kind)
    requires Total(expected) && kind in expected && IsDigest(expected[kind])
    requires AllBind(expected, refs)
    ensures Count(refs, kind) == multiset(refs)[Reference(kind, expected[kind])]
  {
    if refs != [] {
      var front, last := refs[..|refs| - 1], refs[|refs| - 1];
      assert refs == front + [last];
      CountIsMultiplicity(expected, front, kind);
      KindOfReference(kind, expected[kind]);
      assert Binds(expected, last);
    }
  }

  lemma FourApart(expected: Expected)
    requires Total(expected) && AllDigests(expected)
    ensures forall kind | kind in expected :: multiset(Four(expected))[Reference(kind, expected[kind])] == 1
    ensures AllBind(expected, Four(expected))
  {
    hide KindOf, DigestSuffix, Prefix;
    KindOfReference(Input, expected[Input]);
    KindOfReference(Evidence, expected[Evidence]);
    KindOfReference(Task, expected[Task]);
    KindOfReference(Plan, expected[Plan]);
  }

  /** The counts are one each exactly if the references are a permutation of the four. */
  lemma ReferencesExact(expected: Expected, refs: seq<string>)
    requires Total(expected)
    ensures AllBind(expected, refs) && EachOnce(refs) <==> AllDigests(expected) && multiset(refs) == multiset(Four(expected))
  {
    hide Four, AllBind, EachOnce, AllDigests;
    if AllBind(expected, refs) && EachOnce(refs) {
      OnceIsPermutation(expected, refs);
    }
    if AllDigests(expected) && multiset(refs) == multiset(Four(expected)) {
      PermutationIsOnce(expected, refs);
    }
  }

  lemma OnceIsPermutation(expected: Expected, refs: seq<string>)
    requires Total(expected) && AllBind(expected, refs) && EachOnce(refs)
    ensures AllDigests(expected) && multiset(refs) == multiset(Four(expected))
  {
    hide Four;
    forall kind | kind in expected ensures IsDigest(expected[kind]) {
      CountedBinds(expected, refs, kind);
    }
    forall value ensures multiset(refs)[value] == multiset(Four(expected))[value] {
      ReferenceCount(expected, refs, value);
    }
  }

  lemma PermutationIsOnce(expected: Expected, refs: seq<string>)
    requires Total(expected) && AllDigests(expected) && multiset(refs) == multiset(Four(expected))
    ensures AllBind(expected, refs) && EachOnce(refs)
  {
    hide Four, Binds, IsDigest;
    FourApart(expected);
    forall r | r in refs ensures Binds(expected, r) {
      assert r in multiset(refs);
      assert r in Four(expected);
    }
    forall kind: Kind ensures Count(refs, kind) == 1 {
      AllKinds(kind);
      CountIsMultiplicity(expected, refs, kind);
    }
  }

  lemma {:induction false} CountedBinds(expected: Expected, refs: seq<string>, kind: Kind)
    requires Total(expected) && kind in expected
    requires AllBind(expected, refs) && Count(refs, kind) > 0
    ensures IsDigest(expected[kind])
  {
    var front, last := refs[..|refs| - 1], refs[|refs| - 1];
    assert last in refs;
    if KindOf(last) != Some(kind) {
      CountedBinds(expected, front, kind);
    }
  }

  lemma ReferenceCount(expected: Expected, refs: seq<string>, value: string)
    requires Total(expected) && AllDigests(expected)
    requires AllBind(expected, refs) && EachOnce(refs)
    ensures multiset(refs)[value] == multiset(Four(expected))[value]
  {
    FourApart(expected);
    BindsIff(expected, value);
    if Binds(expected, value) {
      var kind :| kind in expected && value == Reference(kind, expected[kind]);
      CountIsMultiplicity(expected, refs, kind);
    } else {
      assert value !in refs;
      assert value !in Four(expected);
    }
  }
}
