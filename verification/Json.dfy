/** A JSON decoder in the manner of `json.JSONDecoder.raw_decode` (RFC 8259, section 2), working on the text still
    to be read. */
module Json {
  import opened Common
  import Decimal

  datatype Value =
    | Null
    | Bool(b: bool)
    | Int(n: int)
    | Float(text: string)
    | Str(s: string)
    | Arr(items: seq<Value>)
    | Obj(members: seq<Member>)

  datatype Member = Member(key: string, value: Value)

  datatype Parsed<+T> = Failed | Parsed(value: T, rest: string)

  predicate IsSpace(c: char) {
    c == ' ' || c == '\t' || c == '\n' || c == '\r'
  }

  function SkipSpace(s: string): (r: string)
    ensures |r| <= |s|
    ensures r == "" || !IsSpace(r[0])
  {
    if s != "" && IsSpace(s[0]) then SkipSpace(s[1..]) else s
  }

  // ---------- strings ----------

  function HexValue(c: char): Option<nat> {
    if '0' <= c <= '9' then Some((c - '0') as nat)
    else if 'a' <= c <= 'f' then Some(10 + (c - 'a') as nat)
    else if 'A' <= c <= 'F' then Some(10 + (c - 'A') as nat)
    else None
  }

  /** The code unit of four hexadecimal digits. */
  function Hex4(s: string): Option<nat>
    requires |s| >= 4
  {
    match (HexValue(s[0]), HexValue(s[1]), HexValue(s[2]), HexValue(s[3]))
    case (Some(a), Some(b), Some(c), Some(d)) => Some(4096 * a + 256 * b + 16 * c + d)
    case _ => None
  }

  /** The second half of an escaped surrogate pair, if the text starts with one. */
  function LowSurrogate(s: string): Option<nat> {
    if |s| < 6 || s[0] != '\\' || s[1] != 'u' then None else
    match Hex4(s[2..])
    case None => None
    case Some(unit) => if 0xDC00 <= unit < 0xE000 then Some(unit) else None
  }

  /** The character of a surrogate pair. */
  function PairChar(high: nat, low: nat): char
    requires 0xD800 <= high < 0xDC00 <= low < 0xE000
  {
    (0x10000 + 0x400 * (high - 0xD800) + (low - 0xDC00)) as char
  }

  /** A lone surrogate stands for the replacement character. */
  function CharOf(unit: nat): char {
    if unit < 0xD800 || 0xE000 <= unit < 0x10000 then unit as char else '\U{FFFD}'
  }

  function EscapedChar(c: char): Option<char> {
    match c
    case '\"' => Some('\"')
    case '\\' => Some('\\')
    case '/' => Some('/')
    case 'b' => Some(8 as char)
    case 'f' => Some(12 as char)
    case 'n' => Some('\n')
    case 'r' => Some('\r')
    case 't' => Some('\t')
    case _ => None
  }

  /** The characters up to the closing quote. */
  function ParseChars(s: string): (p: Parsed<string>)
    ensures p.Parsed? ==> |p.rest| < |s|
  {
    if s == "" then Failed
    else if s[0] == '\"' then Parsed("", s[1..])
    else if s[0] != '\\' then
      if s[0] < ' ' then Failed else Prepend(s[0], ParseChars(s[1..]))
    else if |s| < 2 then Failed
    else if s[1] == 'u' then
      if |s| < 6 || Hex4(s[2..]).None? then Failed
      else
        var unit := Hex4(s[2..]).value;
        if 0xD800 <= unit < 0xDC00 && LowSurrogate(s[6..]).Some?
        then Prepend(PairChar(unit, LowSurrogate(s[6..]).value), ParseChars(s[12..]))
        else Prepend(CharOf(unit), ParseChars(s[6..]))
    else
      match EscapedChar(s[1])
      case None => Failed
      case Some(c) => Prepend(c, ParseChars(s[2..]))
  }

  function Prepend(c: char, p: Parsed<string>): Parsed<string> {
    if p.Failed? then Failed else Parsed([c] + p.value, p.rest)
  }

  // ---------- numbers ----------

  function DigitSpan(s: string): (n: nat)
    ensures n <= |s| && Decimal.AllDigits(s[..n])
    ensures n < |s| ==> !Decimal.IsDigit(s[n])
  {
    if s == "" || !Decimal.IsDigit(s[0]) then 0 else
    var n := DigitSpan(s[1..]);
    assert s[..n + 1] == [s[0]] + s[1..][..n];
    n + 1
  }

  /** Length of the integer part: a single 0, or digits that do not start with 0. */
  function IntSpan(s: string): (n: nat)
    ensures n <= |s| && Decimal.AllDigits(s[..n])
  {
    if s != "" && s[0] == '0' then 1 else DigitSpan(s)
  }

  function FractionSpan(s: string): (n: nat)
    ensures n <= |s|
  {
    if s != "" && s[0] == '.' && DigitSpan(s[1..]) > 0 then 1 + DigitSpan(s[1..]) else 0
  }

  function ExponentSpan(s: string): (n: nat)
    ensures n <= |s|
  {
    if s == "" || s[0] !in {'e', 'E'} then 0 else
    var sign := if |s| > 1 && s[1] in {'+', '-'} then 1 else 0;
    var digits := DigitSpan(s[1 + sign..]);
    if digits == 0 then 0 else 1 + sign + digits
  }

  function ParseNumber(s: string): (p: Parsed<Value>)
    ensures p.Parsed? ==> |p.rest| < |s|
  {
    var sign := if s != "" && s[0] == '-' then 1 else 0;
    var whole := IntSpan(s[sign..]);
    if whole == 0 then Failed else
    var after := s[sign + whole..];
    var fraction := FractionSpan(after);
    var exponent := ExponentSpan(after[fraction..]);
    if fraction + exponent == 0 then
      var n: int := Decimal.Value(s[sign..][..whole]);
      Parsed(Int(if sign == 1 then -n else n), after)
    else Parsed(Float(s[..sign + whole + fraction + exponent]), after[fraction + exponent..])
  }

  // ---------- values ----------

  function ParseLiteral(s: string, literal: string, v: Value): (p: Parsed<Value>)
    requires literal != ""
    ensures p.Parsed? ==> |p.rest| < |s|
  {
    if literal <= s then Parsed(v, s[|literal|..]) else Failed
  }

  /** Literals, the non-finite floats Python accepts, and numbers. */
  function ParseScalar(s: string): (p: Parsed<Value>)
    requires s != ""
    ensures p.Parsed? ==> |p.rest| < |s|
  {
    if s[0] == 'n' then ParseLiteral(s, "null", Null)
    else if s[0] == 't' then ParseLiteral(s, "true", Bool(true))
    else if s[0] == 'f' then ParseLiteral(s, "false", Bool(false))
    else if s[0] == 'N' then ParseLiteral(s, "NaN", Float("NaN"))
    else if s[0] == 'I' then ParseLiteral(s, "Infinity", Float("Infinity"))
    else if "-Infinity" <= s then ParseLiteral(s, "-Infinity", Float("-Infinity"))
    else ParseNumber(s)
  }

  /** `scan_once`: one value at the very start of the text. */
  function ParseValue(s: string): (p: Parsed<Value>)
    ensures p.Parsed? ==> |p.rest| < |s|
    decreases |s|, 0
  {
    if s == "" then Failed
    else if s[0] == '\"' then
      var p := ParseChars(s[1..]);
      if p.Failed? then Failed else Parsed(Str(p.value), p.rest)
    else if s[0] == '[' then
      var s1 := SkipSpace(s[1..]);
      if s1 != "" && s1[0] == ']' then Parsed(Arr([]), s1[1..]) else
      var p := ParseItems(s1);
      if p.Failed? then Failed else Parsed(Arr(p.value), p.rest)
    else if s[0] == '{' then
      var s1 := SkipSpace(s[1..]);
      if s1 != "" && s1[0] == '}' then Parsed(Obj([]), s1[1..]) else
      var p := ParseMembers(s1, []);
      if p.Failed? then Failed else Parsed(Obj(p.value), p.rest)
    else ParseScalar(s)
  }

  /** Array items up to the closing bracket. */
  function ParseItems(s: string): (p: Parsed<seq<Value>>)
    ensures p.Parsed? ==> |p.rest| < |s|
    decreases |s|, 1
  {
    var first := ParseValue(s);
    if first.Failed? then Failed else
    var s1 := SkipSpace(first.rest);
    if s1 == "" then Failed
    else if s1[0] == ']' then Parsed([first.value], s1[1..])
    else if s1[0] != ',' then Failed
    else
      var more := ParseItems(SkipSpace(s1[1..]));
      if more.Failed? then Failed else Parsed([first.value] + more.value, more.rest)
  }

  /** A repeated key overwrites the earlier member in place. */
  function Put(members: seq<Member>, m: Member): seq<Member> {
    if members == [] then [m]
    else if members[0].key == m.key then [m] + members[1..]
    else [members[0]] + Put(members[1..], m)
  }

  /** Object members up to the closing brace, added to those already read. */
  function ParseMembers(s: string, before: seq<Member>): (p: Parsed<seq<Member>>)
    ensures p.Parsed? ==> |p.rest| < |s|
    decreases |s|, 1
  {
    if s == "" || s[0] != '\"' then Failed else
    var key := ParseChars(s[1..]);
    if key.Failed? then Failed else
    var s1 := SkipSpace(key.rest);
    if s1 == "" || s1[0] != ':' then Failed else
    var value := ParseValue(SkipSpace(s1[1..]));
    if value.Failed? then Failed else
    var members := Put(before, Member(key.value, value.value));
    var s2 := SkipSpace(value.rest);
    if s2 == "" then Failed
    else if s2[0] == '}' then Parsed(members, s2[1..])
    else if s2[0] != ',' then Failed
    else ParseMembers(SkipSpace(s2[1..]), members)
  }

  /** `raw_decode(text, start)`: the value at `start` and the position after it. */
  function RawDecode(text: string, start: nat): (d: Option<(Value, nat)>)
    requires start <= |text|
    ensures d.Some? ==> start < d.value.1 <= |text|
  {
    var p := ParseValue(text[start..]);
    if p.Failed? then None else Some((p.value, |text| - |p.rest|))
  }

  /** What decodes at a bracket is an array or an object. */
  lemma BracketDecodes(text: string, start: nat)
    requires start < |text| && text[start] in {'[', '{'} && RawDecode(text, start).Some?
    ensures RawDecode(text, start).value.0.Arr? || RawDecode(text, start).value.0.Obj?
  {
    assert text[start..][0] == text[start];
  }

  /** `json.loads`: one value with nothing but white space around it. */
  function Loads(text: string): Option<Value> {
    var p := ParseValue(SkipSpace(text));
    if p.Failed? || SkipSpace(p.rest) != "" then None else Some(p.value)
  }
}
