/** The JSON texts of RFC 8259 as a relation between a value as written and its text, independent of the decoder. Like
    the decoder it admits, beyond the standard, `NaN`, the infinities and lone surrogate escapes. */
module JsonGrammar {
  import opened Common
  import opened Json
  import Decimal

  // ---------- the grammar ----------

  /** Blanks, tabs, line feeds and carriage returns. */
  predicate White(w: string) {
    forall i :: 0 <= i < |w| ==> w[i] in {' ', '\t', '\n', '\r'}
  }

  predicate IsHex(c: char, d: nat) {
    d < 16 && c in {"0123456789abcdef"[d], "0123456789ABCDEF"[d]}
  }

  /** Four hexadecimal digits. */
  ghost predicate HexText(unit: nat, t: string) {
    && |t| == 4
    && exists a: nat, b: nat, c: nat, d: nat ::
         IsHex(t[0], a) && IsHex(t[1], b) && IsHex(t[2], c) && IsHex(t[3], d)
         && unit == 4096 * a + 256 * b + 16 * c + d
  }

  /** The letter of a two-character escape and the code it stands for. */
  predicate ShortEscape(letter: char, unit: nat) {
    || (letter in {'\"', '\\', '/'} && unit == letter as nat)
    || (letter == 'b' && unit == 8)
    || (letter == 't' && unit == 9)
    || (letter == 'n' && unit == 10)
    || (letter == 'f' && unit == 12)
    || (letter == 'r' && unit == 13)
  }

  /** A character's code, or one half of a surrogate pair. */
  type Unit = u: nat | u < 0x110000

  /** One unit of a string: a character itself, a short escape, or an escape of its code. */
  ghost predicate UnitText(unit: Unit, t: string) {
    || (|t| == 1 && t[0] >= ' ' && t[0] !in {'\"', '\\'} && unit == t[0] as nat)
    || (|t| == 2 && t[0] == '\\' && ShortEscape(t[1], unit))
    || (|t| == 6 && t[0] == '\\' && t[1] == 'u' && HexText(unit, t[2..]))
  }

  ghost predicate UnitsText(units: seq<Unit>, t: string) {
    if units == [] then t == ""
    else exists first, more :: t == first + more && UnitText(units[0], first) && UnitsText(units[1..], more)
  }

  predicate IsHigh(unit: Unit) {
    0xD800 <= unit < 0xDC00
  }

  predicate IsLow(unit: Unit) {
    0xDC00 <= unit < 0xE000
  }

  /** Surrogate pairs are joined; a lone surrogate becomes the replacement character. */
  function CharsOf(units: seq<Unit>): string
  {
    if units == [] then ""
    else if IsHigh(units[0]) && |units| > 1 && IsLow(units[1]) then
      [(0x10000 + 1024 * (units[0] - 0xD800) + (units[1] - 0xDC00)) as char] + CharsOf(units[2..])
    else
      [if IsHigh(units[0]) || IsLow(units[0]) then '\U{FFFD}' else units[0] as char] + CharsOf(units[1..])
  }

  ghost predicate StringText(s: string, t: string) {
    exists units, body :: t == "\"" + body + "\"" && UnitsText(units, body) && s == CharsOf(units)
  }

  /** Digits without a leading zero. */
  predicate WholeText(t: string) {
    t != "" && Decimal.AllDigits(t) && (t[0] == '0' ==> |t| == 1)
  }

  predicate FractionText(t: string) {
    t == "" || (|t| > 1 && t[0] == '.' && Decimal.AllDigits(t[1..]))
  }

  predicate ExponentText(t: string) {
    || t == ""
    || (|t| > 1 && t[0] in {'e', 'E'} && Decimal.AllDigits(t[1..]))
    || (|t| > 2 && t[0] in {'e', 'E'} && t[1] in {'+', '-'} && Decimal.AllDigits(t[2..]))
  }

  ghost predicate IntText(n: int, t: string) {
    || (WholeText(t) && n == Decimal.Value(t))
    || (t != "" && t[0] == '-' && WholeText(t[1..]) && n == -(Decimal.Value(t[1..]) as int))
  }

  /** A number with a fraction or an exponent. */
  ghost predicate FloatText(t: string) {
    exists sign, whole, fraction, exponent ::
      t == sign + whole + (fraction + exponent) && sign in {"", "-"} && WholeText(whole)
      && FractionText(fraction) && ExponentText(exponent) && fraction + exponent != ""
  }

  /** `t` is a JSON text of `v`, with any white space around its tokens and no other. Repeated keys are listed as often
      as they are written. */
  ghost predicate ValueText(v: Value, t: string)
    decreases v, 0
  {
    match v
    case Null => t == "null"
    case Bool(b) => t == if b then "true" else "false"
    case Int(n) => IntText(n, t)
    case Float(f) => t == f && (f in {"NaN", "Infinity", "-Infinity"} || FloatText(f))
    case Str(s) => StringText(s, t)
    case Arr(items) => exists w, body :: t == "[" + w + body && White(w) && ItemsText(items, body)
    case Obj(members) => exists w, body :: t == "{" + w + body && White(w) && MembersText(members, body)
  }

  /** Items with commas in between, and the closing bracket. */
  ghost predicate ItemsText(items: seq<Value>, t: string)
    decreases items, 1
  {
    if items == [] then t == "]"
    else if |items| == 1 then exists first, w :: t == first + w + "]" && ValueText(items[0], first) && White(w)
    else
      exists first, w1, w2, rest ::
        t == first + w1 + "," + w2 + rest
        && ValueText(items[0], first) && White(w1) && White(w2) && ItemsText(items[1..], rest)
  }

  /** A key, a colon and a value. */
  ghost predicate MemberText(m: Member, t: string)
    decreases m, 1
  {
    exists key, w1, w2, value ::
      t == key + w1 + ":" + w2 + value
      && StringText(m.key, key) && White(w1) && White(w2) && ValueText(m.value, value)
  }

  /** Members with commas in between, and the closing brace. */
  ghost predicate MembersText(members: seq<Member>, t: string)
    decreases members, 2
  {
    if members == [] then t == "}"
    else if |members| == 1 then exists first, w :: t == first + w + "}" && MemberText(members[0], first) && White(w)
    else
      exists first, w1, w2, rest ::
        t == first + w1 + "," + w2 + rest
        && MemberText(members[0], first) && White(w1) && White(w2) && MembersText(members[1..], rest)
  }

  /** What the value as written is read as: a repeated key keeps its first place and takes its last value. */
  function Collapsed(v: Value): Value
    decreases v, 0
  {
    match v
    case Arr(items) => Arr(CollapsedItems(items))
    case Obj(members) => Obj(CollapsedMembers([], members))
    case _ => v
  }

  function CollapsedItems(items: seq<Value>): (r: seq<Value>)
    ensures |r| == |items|
    decreases items, 1
  {
    if items == [] then [] else [Collapsed(items[0])] + CollapsedItems(items[1..])
  }

  function CollapsedMembers(before: seq<Member>, members: seq<Member>): seq<Member>
    decreases members, 1
  {
    if members == [] then before
    else CollapsedMembers(Put(before, Member(members[0].key, Collapsed(members[0].value))), members[1..])
  }

  /** What may follow a value. */
  predicate Delimits(post: string) {
    post == "" || post[0] in {' ', '\t', '\n', '\r', ',', ']', '}'}
  }

  /** The whole text is one JSON value with white space around it. */
  ghost predicate JsonText(text: string, v: Value) {
    exists w1, written, t, w2 ::
      text == w1 + t + w2 && White(w1) && White(w2) && ValueText(written, t) && Collapsed(written) == v
  }

  /** The text from `start` to `end` is one JSON value. */
  ghost predicate JsonAt(text: string, start: nat, v: Value, end: nat) {
    start <= end <= |text| && exists written :: ValueText(written, text[start..end]) && Collapsed(written) == v
  }
}
