/** Values as `json.dumps` prints them, and what reading a value with repeated keys keeps. */
module JsonPrinter {
  import opened Common
  import opened Json
  import opened JsonGrammar
  import Decimal

  // ---------- printing ----------

  function HexDigit(n: nat): char
    requires n < 16
  {
    if n < 10 then '0' + n as char else 'a' + (n - 10) as char
  }

  function PrintChar(c: char): string {
    if c == '\"' then ['\\', '\"']
    else if c == '\\' then ['\\', '\\']
    else if c < ' ' then ['\\', 'u', '0', '0', HexDigit(c as nat / 16), HexDigit(c as nat % 16)]
    else [c]
  }

  function PrintChars(s: string): string {
    if s == "" then "" else PrintChar(s[0]) + PrintChars(s[1..])
  }

  function PrintString(s: string): string {
    "\"" + PrintChars(s) + "\""
  }

  function PrintInt(n: int): string {
    if n < 0 then "-" + Decimal.Print(-n) else Decimal.Print(n)
  }

  /** The text of a value with `w` after each comma and colon. */
  function Print(v: Value, w: string): string
    decreases v, 0
  {
    match v
    case Null => "null"
    case Bool(b) => if b then "true" else "false"
    case Int(n) => PrintInt(n)
    case Float(text) => text
    case Str(s) => PrintString(s)
    case Arr(items) => "[" + PrintItems(items, w)
    case Obj(members) => "{" + PrintMembers(members, w)
  }

  function PrintItems(items: seq<Value>, w: string): string
    decreases items, 1
  {
    if items == [] then "]"
    else if |items| == 1 then Print(items[0], w) + "]"
    else Print(items[0], w) + "," + w + PrintItems(items[1..], w)
  }

  function PrintMember(m: Member, w: string): string
    decreases m, 1
  {
    PrintString(m.key) + ":" + w + Print(m.value, w)
  }

  function PrintMembers(members: seq<Member>, w: string): string
    decreases members, 2
  {
    if members == [] then "}"
    else if |members| == 1 then PrintMember(members[0], w) + "}"
    else PrintMember(members[0], w) + "," + w + PrintMembers(members[1..], w)
  }

  /** Floats carry a text that is one. */
  ghost predicate Printable(v: Value)
    decreases v
  {
    match v
    case Float(text) => text in {"NaN", "Infinity", "-Infinity"} || FloatText(text)
    case Arr(items) => forall i :: 0 <= i < |items| ==> Printable(items[i])
    case Obj(members) => forall i :: 0 <= i < |members| ==> Printable(members[i].value)
    case _ => true
  }

  // ---------- what is printed is a text ----------

  lemma HexDigitMeans(n: nat)
    requires n < 16
    ensures IsHex(HexDigit(n), n)
  {
  }

  lemma ControlWrites(u: nat)
    requires u < 32
    ensures HexText(u, ['0', '0', HexDigit(u / 16), HexDigit(u % 16)])
  {
    HexDigitMeans(0);
    HexDigitMeans(u / 16);
    HexDigitMeans(u % 16);
    hide HexDigit, IsHex;
    assert HexDigit(0) == '0' by {
      HexZero();
    }
    var t := ['0', '0', HexDigit(u / 16), HexDigit(u % 16)];
    assert IsHex(t[0], 0) && IsHex(t[1], 0) && IsHex(t[2], u / 16) && IsHex(t[3], u % 16);
  }

  lemma HexZero()
    ensures HexDigit(0) == '0'
  {
  }

  lemma CharWrites(c: char)
    ensures UnitText(c as nat, PrintChar(c))
  {
    if c < ' ' && c != '\"' && c != '\\' {
      ControlWrites(c as nat);
      assert PrintChar(c)[2..] == ['0', '0', HexDigit(c as nat / 16), HexDigit(c as nat % 16)];
      hide HexText, HexDigit;
    }
  }

  function CodesOf(s: string): (units: seq<Unit>)
    ensures |units| == |s|
  {
    seq(|s|, i requires 0 <= i < |s| => s[i] as Unit)
  }

  lemma {:induction false} CodesAreChars(s: string)
    ensures CharsOf(CodesOf(s)) == s && UnitsText(CodesOf(s), PrintChars(s))
  {
    if s != "" {
      CodesAreChars(s[1..]);
      CharWrites(s[0]);
      hide UnitText, PrintChar;
      assert CodesOf(s)[1..] == CodesOf(s[1..]);
    }
  }

  lemma StringWrites(s: string)
    ensures StringText(s, PrintString(s))
  {
    CodesAreChars(s);
    hide UnitsText, CharsOf, PrintChars;
  }

  lemma {:induction false} NoLeadingZero(n: nat)
    ensures Decimal.Print(n)[0] == '0' ==> n == 0
  {
    if n >= 10 {
      NoLeadingZero(n / 10);
    }
  }

  lemma IntWrites(n: int)
    ensures IntText(n, PrintInt(n))
  {
    var m: nat := if n < 0 then -n else n;
    NoLeadingZero(m);
    Decimal.ParsePrint(m);
    assert ("-" + Decimal.Print(m))[1..] == Decimal.Print(m);
    assert m == 0 ==> |Decimal.Print(m)| == 1;
    hide Decimal.Print, Decimal.Value;
  }

  /** A printed value is a text of it. */
  lemma {:induction false} PrintWrites(v: Value, w: string)
    requires Printable(v) && White(w)
    ensures ValueText(v, Print(v, w))
    decreases v, 0
  {
    hide ItemsText, MembersText, PrintItems, PrintMembers, FloatText, IntText, StringText, PrintInt, PrintString, White;
    match v {
      case Int(n) => IntWrites(n);
      case Str(s) => StringWrites(s);
      case Arr(items) =>
        ItemsWrite(items, w);
        NoWhite();
        assert Print(v, w) == "[" + "" + PrintItems(items, w);
      case Obj(members) =>
        MembersWrite(members, w);
        NoWhite();
        assert Print(v, w) == "{" + "" + PrintMembers(members, w);
      case _ =>
    }
  }

  lemma NoWhite()
    ensures White("")
  {
  }

  lemma {:induction false} ItemsWrite(items: seq<Value>, w: string)
    requires White(w) && forall i :: 0 <= i < |items| ==> Printable(items[i])
    ensures ItemsText(items, PrintItems(items, w))
    decreases items, 1
  {
    hide ValueText, Print, White, Printable;
    NoWhite();
    if items != [] {
      PrintWrites(items[0], w);
      var first := Print(items[0], w);
      if |items| == 1 {
        assert PrintItems(items, w) == first + "" + "]";
      } else {
        ItemsWrite(items[1..], w);
        assert PrintItems(items, w) == first + "" + "," + w + PrintItems(items[1..], w);
      }
    }
  }

  lemma {:induction false} MembersWrite(members: seq<Member>, w: string)
    requires White(w) && forall i :: 0 <= i < |members| ==> Printable(members[i].value)
    ensures MembersText(members, PrintMembers(members, w))
    decreases members, 2
  {
    hide MemberText, PrintMember, White, Printable;
    NoWhite();
    if members != [] {
      MemberWrites(members[0], w);
      var first := PrintMember(members[0], w);
      if |members| == 1 {
        assert PrintMembers(members, w) == first + "" + "}";
      } else {
        MembersWrite(members[1..], w);
        assert PrintMembers(members, w) == first + "" + "," + w + PrintMembers(members[1..], w);
      }
    }
  }

  lemma {:induction false} MemberWrites(m: Member, w: string)
    requires White(w) && Printable(m.value)
    ensures MemberText(m, PrintMember(m, w))
    decreases m, 1
  {
    hide ValueText, Print, StringText, PrintString, White;
    NoWhite();
    StringWrites(m.key);
    PrintWrites(m.value, w);
    assert PrintMember(m, w) == PrintString(m.key) + "" + ":" + w + Print(m.value, w);
  }

  // ---------- repeated keys ----------

  predicate DistinctKeys(members: seq<Member>) {
    forall i, k :: 0 <= i < k < |members| ==> members[i].key != members[k].key
  }

  /** No object has a repeated key. */
  predicate Plain(v: Value)
    decreases v
  {
    match v
    case Arr(items) => forall i :: 0 <= i < |items| ==> Plain(items[i])
    case Obj(members) => DistinctKeys(members) && forall i :: 0 <= i < |members| ==> Plain(members[i].value)
    case _ => true
  }

  lemma {:induction false} PutNew(before: seq<Member>, m: Member)
    requires forall i :: 0 <= i < |before| ==> before[i].key != m.key
    ensures Put(before, m) == before + [m]
  {
    if before != [] {
      PutNew(before[1..], m);
      assert before == [before[0]] + before[1..];
    }
  }

  /** Without repeated keys a value is read as it is written. */
  lemma {:induction false} PlainIsKept(v: Value)
    requires Plain(v)
    ensures Collapsed(v) == v
    decreases v, 0
  {
    match v {
      case Arr(items) => PlainItems(items);
      case Obj(members) =>
        PlainMembers([], members);
        assert [] + members == members;
      case _ =>
    }
  }

  lemma {:induction false} PlainItems(items: seq<Value>)
    requires forall i :: 0 <= i < |items| ==> Plain(items[i])
    ensures CollapsedItems(items) == items
    decreases items, 1
  {
    hide Plain, Collapsed;
    if items != [] {
      PlainIsKept(items[0]);
      PlainItems(items[1..]);
      assert items == [items[0]] + items[1..];
    }
  }

  lemma {:induction false} PlainMembers(before: seq<Member>, members: seq<Member>)
    requires DistinctKeys(before + members) && forall i :: 0 <= i < |members| ==> Plain(members[i].value)
    ensures CollapsedMembers(before, members) == before + members
    decreases members, 1
  {
    hide Plain, Collapsed, Put;
    if members == [] {
      assert before + members == before;
    } else {
      PlainIsKept(members[0].value);
      var all := before + members;
      assert all[|before|] == members[0] && forall i :: 0 <= i < |before| ==> all[i] == before[i];
      PutNew(before, members[0]);
      assert (before + [members[0]]) + members[1..] == all;
      PlainMembers(before + [members[0]], members[1..]);
    }
  }

  lemma {:induction false} PutMeans(members: seq<Member>, m: Member)
    requires DistinctKeys(members)
    ensures var put := Put(members, m);
            && DistinctKeys(put) && m in put
            && (forall x :: x in put ==> x == m || (x in members && x.key != m.key))
            && (forall x :: x in members && x.key != m.key ==> x in put)
  {
    if members != [] && members[0].key != m.key {
      PutMeans(members[1..], m);
      var rest := Put(members[1..], m);
      assert Put(members, m) == [members[0]] + rest;
      assert members == [members[0]] + members[1..];
      forall i | 0 <= i < |rest|
        ensures rest[i].key != members[0].key
      {
        assert rest[i] in rest;
      }
    } else if members != [] {
      assert members == [members[0]] + members[1..];
    }
  }

  /** The last value written under a key. */
  function LastValue(members: seq<Member>, key: string): Option<Value> {
    if members == [] then None
    else if members[|members| - 1].key == key then Some(members[|members| - 1].value)
    else LastValue(members[..|members| - 1], key)
  }

  lemma {:induction false} CollapsedLast(before: seq<Member>, members: seq<Member>, m: Member)
    ensures CollapsedMembers(before, members + [m]) ==
            Put(CollapsedMembers(before, members), Member(m.key, Collapsed(m.value)))
    decreases members
  {
    hide Collapsed, Put;
    if members == [] {
      assert [] + [m] == [m] && [m][1..] == [];
    } else {
      assert (members + [m])[1..] == members[1..] + [m] && (members + [m])[0] == members[0];
      CollapsedLast(Put(before, Member(members[0].key, Collapsed(members[0].value))), members[1..], m);
    }
  }

  /** An object is read with one member for each of its keys, which has the last value written under it. */
  lemma {:induction false} LastValueWins(members: seq<Member>, m: Member)
    ensures DistinctKeys(CollapsedMembers([], members))
    ensures m in CollapsedMembers([], members) <==>
            LastValue(members, m.key).Some? && m.value == Collapsed(LastValue(members, m.key).value)
  {
    hide Collapsed, Put;
    if members != [] {
      var n := |members| - 1;
      LastValueWins(members[..n], m);
      assert members == members[..n] + [members[n]];
      CollapsedLast([], members[..n], members[n]);
      hide CollapsedMembers, DistinctKeys;
      PutMeans(CollapsedMembers([], members[..n]), Member(members[n].key, Collapsed(members[n].value)));
    }
  }
}
