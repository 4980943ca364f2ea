/** JSON text (sections 2 to 7 of RFC 8259) as a recursive reading: the reference that the
    token-driven decoder is proved against. Each reader takes the text from its position on and
    returns what it read with the text that follows. */
module Parser {
  import opened GoValues
  import opened Numbers
  import opened Wrappers
  import J = Json

  predicate IsSpace(c: char) {
    c == ' ' || c == '\t' || c == '\r' || c == '\n'
  }

  function SkipSpace(s: string): (t: string)
    ensures |t| <= |s| && (t == "" || !IsSpace(t[0]))
  {
    if s != "" && IsSpace(s[0]) then SkipSpace(s[1..]) else s
  }

  // ---------- strings ----------

  function HexValue(c: char): (v: int)
    ensures -1 <= v < 16
  {
    if '0' <= c <= '9' then c as int - '0' as int
    else if 'a' <= c <= 'f' then c as int - 'a' as int + 10
    else if 'A' <= c <= 'F' then c as int - 'A' as int + 10
    else -1
  }

  /** The code unit of four hexadecimal digits; -1 when they are not that. */
  function Unit(s: string): (u: int)
    requires |s| >= 4
    ensures -1 <= u < 0x1_0000
  {
    if HexValue(s[0]) < 0 || HexValue(s[1]) < 0 || HexValue(s[2]) < 0 || HexValue(s[3]) < 0 then -1
    else ((HexValue(s[0]) * 16 + HexValue(s[1])) * 16 + HexValue(s[2])) * 16 + HexValue(s[3])
  }

  /** The code unit of a leading `\uXXXX`; -1 when there is none. */
  function LeadingUnit(s: string): (u: int)
    ensures -1 <= u < 0x1_0000
    ensures u >= 0 ==> |s| >= 6
  {
    if |s| >= 6 && s[0] == '\\' && s[1] == 'u' then Unit(s[2..6]) else -1
  }

  predicate IsHigh(u: int) { 0xD800 <= u < 0xDC00 }

  predicate IsLow(u: int) { 0xDC00 <= u < 0xE000 }

  /** The scalar value of a surrogate pair. */
  function Pair(high: int, low: int): char
    requires IsHigh(high) && IsLow(low)
  {
    (0x1_0000 + (high - 0xD800) * 0x400 + (low - 0xDC00)) as char
  }

  const REPLACEMENT: char := 0xFFFD as char

  /** The character a one-letter escape stands for; None for any other letter. */
  function ShortEscape(c: char): Option<char> {
    if c == '"' || c == '\\' || c == '/' then Some(c)
    else if c == 'b' then Some(8 as char)
    else if c == 'f' then Some(12 as char)
    else if c == 'n' then Some('\n')
    else if c == 'r' then Some('\r')
    else if c == 't' then Some('\t')
    else None
  }

  /** The first character of a string body and the text after its spelling. Escaped surrogate
      pairs are joined; an unpaired surrogate escape reads as U+FFFD, as in Go. */
  function ReadChar(s: string): (r: Option<(char, string)>)
    ensures r.Some? ==> |r.value.1| < |s|
  {
    if s == "" || s[0] == '"' || (s[0] as int) < 0x20 then None
    else if s[0] != '\\' then Some((s[0], s[1..]))
    else if |s| == 1 then None
    else if s[1] != 'u' then
      match ShortEscape(s[1])
      case None => None
      case Some(c) => Some((c, s[2..]))
    else
      var u := LeadingUnit(s);
      if u < 0 then None
      else if IsHigh(u) && IsLow(LeadingUnit(s[6..])) then Some((Pair(u, LeadingUnit(s[6..])), s[12..]))
      else if IsHigh(u) || IsLow(u) then Some((REPLACEMENT, s[6..]))
      else Some((u as char, s[6..]))
  }

  /** A string from after its opening quote to its closing quote. */
  function ReadString(s: string): (r: Option<(string, string)>)
    ensures r.Some? ==> |r.value.1| < |s|
    decreases |s|
  {
    if s != "" && s[0] == '"' then Some(("", s[1..]))
    else match ReadChar(s)
      case None => None
      case Some((c, t)) =>
        match ReadString(t)
        case None => None
        case Some((text, rest)) => Some(([c] + text, rest))
  }

  // ---------- values ----------

  function ReadWord(s: string, word: string, v: Value): (r: Option<(Value, string)>)
    requires word != ""
    ensures r.Some? ==> |r.value.1| < |s|
  {
    if word <= s then Some((v, s[|word|..])) else None
  }

  /** A string, number or literal that starts at the first character of `s`. */
  function ReadScalar(s: string): (r: Option<(Value, string)>)
    ensures r.Some? ==> |r.value.1| < |s|
  {
    if s == "" then None
    else if s[0] == '"' then
      match ReadString(s[1..])
      case None => None
      case Some((text, rest)) => Some((String(Text(text)), rest))
    else if s[0] == 't' then ReadWord(s, "true", Bool(true))
    else if s[0] == 'f' then ReadWord(s, "false", Bool(false))
    else if s[0] == 'n' then ReadWord(s, "null", Null)
    else
      match ScanNumber(s)
      case None => None
      case Some((number, rest)) => Some((Literal(s[..|s| - |rest|]), rest))
  }

  function ReadValue(s: string): (r: Option<(Value, string)>)
    ensures r.Some? ==> |r.value.1| < |s|
    decreases |s|, 1
  {
    var t := SkipSpace(s);
    if t == "" then None
    else if t[0] == '[' then
      match ReadItems(t[1..], true)
      case None => None
      case Some((items, rest)) => Some((List(items), rest))
    else if t[0] == '{' then
      match ReadMembers(t[1..], true, map[])
      case None => None
      case Some((fields, rest)) => Some((Object(fields), rest))
    else ReadScalar(t)
  }

  /** What follows an opening `[` (`first`) or an array item. */
  function ReadItems(s: string, first: bool): (r: Option<(seq<Value>, string)>)
    ensures r.Some? ==> |r.value.1| < |s|
    decreases |s|, 2
  {
    var t := SkipSpace(s);
    if t == "" then None
    else if t[0] == ']' then Some(([], t[1..]))
    else if !first && t[0] != ',' then None
    else
      match ReadValue(if first then t else t[1..])
      case None => None
      case Some((item, u)) =>
        match ReadItems(u, false)
        case None => None
        case Some((items, rest)) => Some(([item] + items, rest))
  }

  /** A member: its key, the colon and its value. */
  function ReadMember(s: string): (r: Option<(string, Value, string)>)
    ensures r.Some? ==> |r.value.2| < |s|
    decreases |s|, 2
  {
    var t := SkipSpace(s);
    if t == "" || t[0] != '"' then None
    else
      match ReadString(t[1..])
      case None => None
      case Some((key, u)) =>
        var v := SkipSpace(u);
        if v == "" || v[0] != ':' then None
        else
          match ReadValue(v[1..])
          case None => None
          case Some((value, rest)) => Some((key, value, rest))
  }

  /** What follows an opening `{` (`first`) or a member, after the members in `seen`. */
  function ReadMembers(s: string, first: bool, seen: map<GoString, Value>): (r: Option<(map<GoString, Value>, string)>)
    ensures r.Some? ==> |r.value.1| < |s|
    decreases |s|, 3
  {
    var t := SkipSpace(s);
    if t == "" then None
    else if t[0] == '}' then Some((seen, t[1..]))
    else if !first && t[0] != ',' then None
    else
      match ReadMember(if first then t else t[1..])
      case None => None
      case Some((key, value, u)) =>
        if Text(key) in seen then None else ReadMembers(u, false, seen[Text(key) := value])
  }
}
