/** The reading that the surrogate scan is for: JSON text as in `Parser`, but an escape of an unpaired
    surrogate is refused and not replaced. */
module ExactReader {
  import opened GoValues
  import opened Parser
  import opened Wrappers
  import Utf8

  /** The text starts with the escape of a surrogate that has no partner. */
  predicate Unpaired(s: string) {
    var u := LeadingUnit(s);
    IsLow(u) || (IsHigh(u) && !IsLow(LeadingUnit(s[6..])))
  }

  function ExactChar(s: string): (r: Option<(char, string)>)
    ensures r.Some? ==> r == ReadChar(s)
  {
    if Unpaired(s) then None else ReadChar(s)
  }

  function ExactString(s: string): (r: Option<(string, string)>)
    ensures r.Some? ==> r == ReadString(s)
    decreases |s|
  {
    if s != "" && s[0] == '"' then Some(("", s[1..]))
    else match ExactChar(s)
      case None => None
      case Some((c, t)) =>
        match ExactString(t)
        case None => None
        case Some((text, rest)) => Some(([c] + text, rest))
  }

  function ExactScalar(s: string): (r: Option<(Value, string)>)
    ensures r.Some? ==> r == ReadScalar(s)
  {
    if s != "" && s[0] == '"' then
      match ExactString(s[1..])
      case None => None
      case Some((text, rest)) => Some((String(Text(text)), rest))
    else ReadScalar(s)
  }

  function ExactValue(s: string): (r: Option<(Value, string)>)
    ensures r.Some? ==> r == ReadValue(s)
    decreases |s|, 1
  {
    var t := SkipSpace(s);
    if t == "" then None
    else if t[0] == '[' then
      match ExactItems(t[1..], true)
      case None => None
      case Some((items, rest)) => Some((List(items), rest))
    else if t[0] == '{' then
      match ExactMembers(t[1..], true, map[])
      case None => None
      case Some((fields, rest)) => Some((Object(fields), rest))
    else ExactScalar(t)
  }

  function ExactItems(s: string, first: bool): (r: Option<(seq<Value>, string)>)
    ensures r.Some? ==> r == ReadItems(s, first)
    decreases |s|, 2
  {
    var t := SkipSpace(s);
    if t == "" then None
    else if t[0] == ']' then Some(([], t[1..]))
    else if !first && t[0] != ',' then None
    else
      match ExactValue(if first then t else t[1..])
      case None => None
      case Some((item, u)) =>
        match ExactItems(u, false)
        case None => None
        case Some((items, rest)) => Some(([item] + items, rest))
  }

  function ExactMember(s: string): (r: Option<(string, Value, string)>)
    ensures r.Some? ==> r == ReadMember(s)
    decreases |s|, 2
  {
    var t := SkipSpace(s);
    if t == "" || t[0] != '"' then None
    else
      match ExactString(t[1..])
      case None => None
      case Some((key, u)) =>
        var v := SkipSpace(u);
        if v == "" || v[0] != ':' then None
        else
          match ExactValue(v[1..])
          case None => None
          case Some((value, rest)) => Some((key, value, rest))
  }

  function ExactMembers(s: string, first: bool, seen: map<GoString, Value>): (r: Option<(map<GoString, Value>, string)>)
    ensures r.Some? ==> r == ReadMembers(s, first, seen)
    decreases |s|, 3
  {
    var t := SkipSpace(s);
    if t == "" then None
    else if t[0] == '}' then Some((seen, t[1..]))
    else if !first && t[0] != ',' then None
    else
      match ExactMember(if first then t else t[1..])
      case None => None
      case Some((key, value, u)) =>
        if Text(key) in seen then None else ExactMembers(u, false, seen[Text(key) := value])
  }

  /** The object that a document denotes if no surrogate in it is unpaired. */
  function ExactLoads(data: seq<Utf8.Byte>): Result<Value> {
    match Utf8.Decode(data)
    case None => Err
    case Some(text) =>
      match ExactValue(text)
      case None => Err
      case Some((value, rest)) => if value.Object? && SkipSpace(rest) == "" then Ok(value) else Err
  }
}
