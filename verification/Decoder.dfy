/** The strict decoder: a token stream with the states of Go's `json.Decoder`, the recursive
    `decodeStrictValue` that drives it, and `strictJSONLoads`. */
module Decoder {
  import opened GoValues
  import opened Parser
  import opened Wrappers
  import Utf8

  // ---------- the token stream ----------

  datatype TokenState =
    | TopValue | ArrayStart | ArrayValue | ArrayComma
    | ObjectStart | ObjectKey | ObjectColon | ObjectValue | ObjectComma

  /** The unread text, the state, and the states of the enclosing arrays and objects. */
  datatype Stream = Stream(rest: string, state: TokenState, stack: seq<TokenState>)

  datatype Token = Delim(c: char) | Scalar(v: Value)

  datatype Read = Got(token: Token) | End | Bad

  predicate ValueAllowed(state: TokenState) {
    state == TopValue || state == ArrayStart || state == ArrayValue || state == ObjectValue
  }

  /** The state after a complete value. */
  function ValueEnd(state: TokenState): TokenState {
    match state
    case ArrayStart => ArrayComma
    case ArrayValue => ArrayComma
    case ObjectValue => ObjectComma
    case _ => state
  }

  function Open(s: Stream, t: string, c: char, state: TokenState): (Read, Stream)
    requires t != ""
  {
    if ValueAllowed(s.state) then (Got(Delim(c)), Stream(t[1..], state, s.stack + [s.state])) else (Bad, s)
  }

  function Close(s: Stream, t: string, c: char, start: TokenState, comma: TokenState): (Read, Stream)
    requires t != ""
  {
    if (s.state == start || s.state == comma) && s.stack != [] then
      (Got(Delim(c)), Stream(t[1..], ValueEnd(s.stack[|s.stack| - 1]), s.stack[..|s.stack| - 1]))
    else (Bad, s)
  }

  /** `Decoder.Token`. */
  function NextToken(s: Stream): (r: (Read, Stream))
    ensures |r.1.rest| <= |s.rest|
    ensures r.0.Got? ==> |r.1.rest| < |s.rest|
    decreases |s.rest|
  {
    var t := SkipSpace(s.rest);
    if t == "" then (End, s)
    else if t[0] == '[' then Open(s, t, '[', ArrayStart)
    else if t[0] == '{' then Open(s, t, '{', ObjectStart)
    else if t[0] == ']' then Close(s, t, ']', ArrayStart, ArrayComma)
    else if t[0] == '}' then Close(s, t, '}', ObjectStart, ObjectComma)
    else if t[0] == ':' then
      if s.state == ObjectColon then NextToken(Stream(t[1..], ObjectValue, s.stack)) else (Bad, s)
    else if t[0] == ',' then
      if s.state == ArrayComma then NextToken(Stream(t[1..], ArrayValue, s.stack))
      else if s.state == ObjectComma then NextToken(Stream(t[1..], ObjectKey, s.stack))
      else (Bad, s)
    else if t[0] == '"' && (s.state == ObjectStart || s.state == ObjectKey) then
      match ReadString(t[1..])
      case None => (Bad, s)
      case Some((key, rest)) => (Got(Scalar(String(Text(key)))), Stream(rest, ObjectColon, s.stack))
    else if !ValueAllowed(s.state) then (Bad, s)
    else
      match ReadScalar(t)
      case None => (Bad, s)
      case Some((v, rest)) => (Got(Scalar(v)), Stream(rest, ValueEnd(s.state), s.stack))
  }

  class Decoder {
    var at: Stream

    constructor (text: string)
      ensures at == Stream(text, TopValue, [])
    {
      at := Stream(text, TopValue, []);
    }

    method Token() returns (r: Read)
      modifies this
      ensures (r, at) == NextToken(old(at))
    {
      var (read, after) := NextToken(at);
      at := after;
      return read;
    }

    /** `Decoder.More`: the next character closes nothing. */
    predicate More()
      reads this
    {
      var t := SkipSpace(at.rest);
      t != "" && t[0] != ']' && t[0] != '}'
    }
  }

  // ---------- decodeStrictValue ----------

  /** The states in which `decodeStrictValue` starts: at the top, in an array (before its first
      item or before the comma), or before the colon of a member. */
  predicate AtValue(state: TokenState) {
    state == TopValue || state == ArrayStart || state == ArrayComma || state == ObjectColon
  }

  function AfterValue(state: TokenState): TokenState {
    if state == TopValue then TopValue else if state == ObjectColon then ObjectComma else ArrayComma
  }

  /** The text of the due value: what follows the separator that the state demands. */
  ghost function Due(s: Stream): (u: Option<string>)
    ensures u.Some? ==> |u.value| <= |s.rest|
  {
    var t := SkipSpace(s.rest);
    if s.state == ArrayComma then
      if t != "" && t[0] == ',' then Some(t[1..]) else None
    else if s.state == ObjectColon then
      if t != "" && t[0] == ':' then Some(t[1..]) else None
    else Some(s.rest)
  }

  /** The due value by the reference reader. */
  ghost function DueValue(s: Stream): (r: Option<(Value, string)>)
    ensures r.Some? ==> |r.value.1| < |s.rest|
  {
    if Due(s).None? then None else ReadValue(Due(s).value)
  }

  ghost predicate Decodes(s: Stream, r: Result<Value>, s': Stream) {
    match DueValue(s)
    case None => r.Err?
    case Some((v, rest)) => r == Ok(v) && s' == Stream(rest, AfterValue(s.state), s.stack)
  }

  /** The state in which the first token of a due value is taken. */
  function ValueState(state: TokenState): TokenState {
    if state == ArrayComma then ArrayValue else if state == ObjectColon then ObjectValue else state
  }

  lemma NoScalar(t: string)
    requires t != "" && t[0] in "]},:[{"
    ensures ReadScalar(t).None?
  {
  }

  /** What the token stream says where a value is due, in the terms of the reference reader. */
  ghost predicate FirstTokenOf(s: Stream, u: string, state: TokenState) {
    var (read, after) := NextToken(s);
    var t := SkipSpace(u);
    if t == "" then !read.Got?
    else if t[0] == '[' then (read, after) == (Got(Delim('[')), Stream(t[1..], ArrayStart, s.stack + [state]))
    else if t[0] == '{' then (read, after) == (Got(Delim('{')), Stream(t[1..], ObjectStart, s.stack + [state]))
    else
      match ReadValue(u)
      case None => !read.Got? || read.token == Delim(']') || read.token == Delim('}')
      case Some((v, rest)) => (read, after) == (Got(Scalar(v)), Stream(rest, ValueEnd(state), s.stack))
  }

  lemma FirstTokenHere(s: Stream)
    requires ValueAllowed(s.state)
    ensures FirstTokenOf(s, s.rest, s.state)
  {
    var t := SkipSpace(s.rest);
    if t != "" && t[0] in "]},:[{" {
      NoScalar(t);
    }
  }

  lemma FirstToken(s: Stream)
    requires AtValue(s.state)
    ensures match Due(s)
      case None => !NextToken(s).0.Got? || NextToken(s).0.token == Delim(']') || NextToken(s).0.token == Delim('}')
      case Some(u) => FirstTokenOf(s, u, ValueState(s.state))
  {
    if Due(s).Some? {
      var here := Stream(Due(s).value, ValueState(s.state), s.stack);
      FirstTokenHere(here);
      assert NextToken(s) == NextToken(here);
    }
  }

  /** `decodeStrictValue`: reads exactly the JSON value that is due, and fails otherwise. */
  method DecodeStrictValue(decoder: Decoder) returns (r: Result<Value>)
    requires AtValue(decoder.at.state)
    modifies decoder
    ensures Decodes(old(decoder.at), r, decoder.at)
    decreases |decoder.at.rest|, 0
  {
    hide NextToken, ReadItems, ReadMembers, ReadScalar;
    ghost var start := decoder.at;
    FirstToken(start);
    var read := decoder.Token();
    if !read.Got? {
      return Err;
    }
    match read.token {
      case Delim(c) =>
        if c == '{' {
          var fields := DecodeObject(decoder);
          r := if fields.Ok? then Ok(Object(fields.value)) else Err;
        } else if c == '[' {
          var items := DecodeArray(decoder);
          r := if items.Ok? then Ok(List(items.value)) else Err;
        } else {
          return Err;
        }
      case Scalar(v) =>
        return Ok(v);
    }
  }

  /** The array branch of `decodeStrictValue`, after the opening bracket. */
  method DecodeArray(decoder: Decoder) returns (r: Result<seq<Value>>)
    requires decoder.at.state == ArrayStart && decoder.at.stack != []
    modifies decoder
    ensures match ReadItems(old(decoder.at.rest), true)
      case None => r.Err?
      case Some((items, rest)) =>
        r == Ok(items) && decoder.at == Outer(rest, old(decoder.at.stack))
    decreases |decoder.at.rest|, 1
  {
    ghost var start := decoder.at;
    var result: seq<Value> := [];
    PrefixedNothing(ReadItems(start.rest, true));
    while decoder.More()
      invariant decoder.at.state == (if result == [] then ArrayStart else ArrayComma)
      invariant decoder.at.stack == start.stack && |decoder.at.rest| <= |start.rest|
      invariant ReadItems(start.rest, true) == Prefixed(result, ReadItems(decoder.at.rest, result == []))
      decreases |decoder.at.rest|
    {
      ghost var before := decoder.at;
      var child := DecodeStrictValue(decoder);
      ItemStep(before, result, child, decoder.at);
      if child.Err? {
        return Err;
      }
      result := result + [child.value];
    }
    var end := decoder.Token();
    if end != Got(Delim(']')) {
      return Err;
    }
    assert result + [] == result;
    return Ok(result);
  }

  /** The stream after a closed array or object. */
  function Outer(rest: string, stack: seq<TokenState>): Stream
    requires stack != []
  {
    Stream(rest, ValueEnd(stack[|stack| - 1]), stack[..|stack| - 1])
  }

  ghost function Prefixed(result: seq<Value>, r: Option<(seq<Value>, string)>): Option<(seq<Value>, string)> {
    match r
    case None => None
    case Some((items, rest)) => Some((result + items, rest))
  }

  lemma PrefixedNothing(r: Option<(seq<Value>, string)>)
    ensures Prefixed([], r) == r
  {
    if r.Some? {
      assert [] + r.value.0 == r.value.0;
    }
  }

  lemma ItemStep(s: Stream, result: seq<Value>, child: Result<Value>, s': Stream)
    requires s.state == (if result == [] then ArrayStart else ArrayComma)
    requires SkipSpace(s.rest) != "" && SkipSpace(s.rest)[0] != ']'
    requires Decodes(s, child, s')
    ensures child.Err? ==> ReadItems(s.rest, result == []).None?
    ensures child.Ok? ==>
      Prefixed(result, ReadItems(s.rest, result == [])) == Prefixed(result + [child.value], ReadItems(s'.rest, false))
  {
    hide ReadValue, SkipSpace, NextToken;
    ReadValueSkips(s.rest);
    if child.Ok? {
      var more := ReadItems(s'.rest, false);
      assert more.Some? ==> result + ([child.value] + more.value.0) == result + [child.value] + more.value.0;
    }
  }

  lemma SkipSpaceTwice(s: string)
    ensures SkipSpace(SkipSpace(s)) == SkipSpace(s)
  {
  }

  lemma ReadValueSkips(s: string)
    ensures ReadValue(SkipSpace(s)) == ReadValue(s)
  {
    SkipSpaceTwice(s);
  }

  /** The object branch of `decodeStrictValue`, after the opening brace. */
  method DecodeObject(decoder: Decoder) returns (r: Result<map<GoString, Value>>)
    requires decoder.at.state == ObjectStart && decoder.at.stack != []
    modifies decoder
    ensures match ReadMembers(old(decoder.at.rest), true, map[])
      case None => r.Err?
      case Some((fields, rest)) =>
        r == Ok(fields) && decoder.at == Outer(rest, old(decoder.at.stack))
    decreases |decoder.at.rest|, 1
  {
    ghost var start := decoder.at;
    var result: map<GoString, Value> := map[];
    ghost var first := true;
    while decoder.More()
      invariant decoder.at.state == (if first then ObjectStart else ObjectComma)
      invariant decoder.at.stack == start.stack && |decoder.at.rest| <= |start.rest|
      invariant ReadMembers(start.rest, true, map[]) == ReadMembers(decoder.at.rest, first, result)
      decreases |decoder.at.rest|
    {
      ghost var before := decoder.at;
      KeyToken(before);
      var keyToken := decoder.Token();
      if !keyToken.Got? {
        return Err;
      }
      if !(keyToken.token.Scalar? && keyToken.token.v.String?) {
        return Err;
      }
      var key := keyToken.token.v.s;
      if key in result {
        return Err;
      }
      var child := DecodeStrictValue(decoder);
      if child.Err? {
        return Err;
      }
      result := result[key := child.value];
      first := false;
    }
    var end := decoder.Token();
    if end != Got(Delim('}')) {
      return Err;
    }
    return Ok(result);
  }

  /** Where the reference reader starts the next member; None when the comma is missing. */
  ghost function DueMember(s: Stream): Option<string> {
    var t := SkipSpace(s.rest);
    if s.state == ObjectStart then Some(t)
    else if t != "" && t[0] == ',' then Some(t[1..])
    else None
  }

  /** A key token at `u` starts exactly the members that the reference reader reads there. */
  ghost predicate KeyTokenOf(s: Stream, u: string) {
    var (read, after) := NextToken(s);
    if !read.Got? || !(read.token.Scalar? && read.token.v.String?) then ReadMember(u).None?
    else
      && read.token.v.s.Text? && after.state == ObjectColon && after.stack == s.stack
      && ReadMember(u) ==
           (match DueValue(after)
            case None => None
            case Some((v, rest)) => Some((read.token.v.s.text, v, rest)))
  }

  lemma KeyTokenHere(s: Stream)
    requires s.state == ObjectStart || s.state == ObjectKey
    ensures KeyTokenOf(s, s.rest)
  {
    var t := SkipSpace(s.rest);
    if t != "" && t[0] in "]},:[{" {
      assert !NextToken(s).0.Got? || NextToken(s).0.token.Delim?;
    }
  }

  lemma KeyToken(s: Stream)
    requires s.state == ObjectStart || s.state == ObjectComma
    requires SkipSpace(s.rest) != "" && SkipSpace(s.rest)[0] != '}'
    ensures match DueMember(s)
      case None => !NextToken(s).0.Got? || !(NextToken(s).0.token.Scalar? && NextToken(s).0.token.v.String?)
      case Some(u) => KeyTokenOf(s, u)
  {
    hide ReadMember, DueValue;
    SkipSpaceTwice(s.rest);
    if DueMember(s).Some? {
      var here := Stream(DueMember(s).value, if s.state == ObjectStart then ObjectStart else ObjectKey, s.stack);
      KeyTokenHere(here);
      assert NextToken(s).0.Got? <==> NextToken(here).0.Got?;
      assert NextToken(here).0.Got? ==> NextToken(s) == NextToken(here);
    }
  }

  // ---------- strictJSONLoads ----------

  /** The object that a document denotes: valid UTF-8, one JSON object without repeated keys,
      and nothing but space around it. */
  ghost function StrictLoads(data: seq<Utf8.Byte>): Result<Value> {
    match Utf8.Decode(data)
    case None => Err
    case Some(text) =>
      match ReadValue(text)
      case None => Err
      case Some((value, rest)) => if value.Object? && SkipSpace(rest) == "" then Ok(value) else Err
  }

  /** `strictJSONLoads`. */
  method StrictJSONLoads(data: seq<Utf8.Byte>) returns (r: Result<Value>)
    ensures r == StrictLoads(data)
  {
    var text := Utf8.Decode(data);
    if text.None? {
      return Err;
    }
    var decoder := new Decoder(text.value);
    var value := DecodeStrictValue(decoder);
    if value.Err? {
      return Err;
    }
    var token := decoder.Token();
    if token != End {
      return Err;
    }
    if !value.value.Object? {
      return Err;
    }
    return value;
  }
}
