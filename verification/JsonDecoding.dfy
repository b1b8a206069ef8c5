/** The decoder reads exactly the JSON texts: each text is read as what it writes, and whatever is read is a text. */
module JsonDecoding {
  import opened Common
  import opened Json
  import opened JsonGrammar
  import opened JsonTokens
  import Decimal

  // ---------- values: texts are read ----------

  lemma NumberHead(t: string, n: int)
    requires IntText(n, t) || FloatText(t)
    ensures t != "" && (Decimal.IsDigit(t[0]) || (|t| > 1 && t[0] == '-' && Decimal.IsDigit(t[1])))
  {
    hide Decimal.Value;
  }

  /** A value starts with a visible character that neither closes nor separates anything. */
  lemma ValueHead(v: Value, t: string)
    requires ValueText(v, t)
    ensures t != "" && t[0] !in {' ', '\t', '\n', '\r', ']', '}', ','}
  {
    hide IntText, FloatText, ItemsText, MembersText;
    if v.Int? {
      NumberHead(t, v.n);
    } else if v.Float? && v.text !in {"NaN", "Infinity", "-Infinity"} {
      NumberHead(t, 0);
    }
  }

  lemma NumberDispatch(s: string)
    requires s != "" && (Decimal.IsDigit(s[0]) || (|s| > 1 && s[0] == '-' && Decimal.IsDigit(s[1])))
    ensures ParseValue(s) == ParseNumber(s)
  {
    hide ParseNumber, ParseItems, ParseMembers;
    assert ParseValue(s) == ParseScalar(s);
    assert "-Infinity"[1] == 'I';
  }

  lemma WordReads(v: Value, t: string, post: string)
    requires ValueText(v, t)
    requires v.Null? || v.Bool? || (v.Float? && v.text in {"NaN", "Infinity", "-Infinity"})
    ensures ParseValue(t + post) == Parsed(v, post)
  {
    var s := t + post;
    assert t <= s && s[|t|..] == post;
    hide ParseItems, ParseMembers, ParseNumber, FloatText;
    assert ParseValue(s) == ParseScalar(s);
  }

  lemma IntReads(n: int, t: string, post: string)
    requires IntText(n, t) && Delimits(post)
    ensures ParseValue(t + post) == Parsed(Int(n), post)
  {
    NumberHead(t, n);
    NumberDispatch(t + post);
    hide *;
    var sign, whole := IntParts(n, t);
    NumberReads(sign, whole, "", "", post);
    assert sign + whole + ("" + "") == t;
  }

  lemma IntParts(n: int, t: string) returns (sign: string, whole: string)
    requires IntText(n, t)
    ensures sign in {"", "-"} && WholeText(whole) && t == sign + whole && NumberOf(sign, whole, "", "") == Int(n)
    ensures FractionText("") && ExponentText("")
  {
    hide Decimal.Value;
    if WholeText(t) && n == Decimal.Value(t) {
      sign, whole := "", t;
    } else {
      sign, whole := "-", t[1..];
    }
  }

  lemma FloatReads(t: string, post: string)
    requires FloatText(t) && Delimits(post)
    ensures ParseValue(t + post) == Parsed(Float(t), post)
  {
    NumberHead(t, 0);
    NumberDispatch(t + post);
    hide ParseValue, ParseNumber, Delimits, WholeText, FractionText, ExponentText, Decimal.Value;
    var sign, whole, fraction, exponent :|
      t == sign + whole + (fraction + exponent) && sign in {"", "-"} && WholeText(whole)
      && FractionText(fraction) && ExponentText(exponent) && fraction + exponent != "";
    NumberReads(sign, whole, fraction, exponent, post);
  }

  lemma StringReads(s: string, t: string, post: string)
    requires StringText(s, t)
    ensures |t| >= 2 && t[0] == '\"' && ParseChars((t + post)[1..]) == Parsed(s, post)
    ensures ParseValue(t + post) == Parsed(Str(s), post)
  {
    hide UnitsText, CharsOf, ParseChars, ParseValue;
    var units, body :| t == "\"" + body + "\"" && UnitsText(units, body) && s == CharsOf(units);
    hide StringText;
    CharsRead(units, body, post);
    QuotedPosition(t, body, post);
    QuoteDispatch(t + post);
  }

  lemma QuotedPosition(t: string, body: string, post: string)
    requires t == "\"" + body + "\""
    ensures t[0] == (t + post)[0] == '\"' && (t + post)[1..] == body + ("\"" + post)
  {
  }

  lemma QuoteDispatch(s: string)
    requires s != "" && s[0] == '\"' && ParseChars(s[1..]).Parsed?
    ensures ParseValue(s) == Parsed(Str(ParseChars(s[1..]).value), ParseChars(s[1..]).rest)
  {
    hide ParseChars, ParseItems, ParseMembers, ParseScalar;
  }

  lemma ItemParts(items: seq<Value>, t: string) returns (first: string, w1: string, w2: string, rest: string)
    requires items != [] && ItemsText(items, t)
    ensures ValueText(items[0], first) && White(w1) && White(w2)
    ensures |items| == 1 ==> t == first + w1 + "]"
    ensures |items| > 1 ==> t == first + w1 + "," + w2 + rest && ItemsText(items[1..], rest)
  {
    hide ValueText, White;
    if |items| == 1 {
      first, w1 :| t == first + w1 + "]" && ValueText(items[0], first) && White(w1);
      w2, rest := w1, "";
    } else {
      first, w1, w2, rest :| t == first + w1 + "," + w2 + rest
        && ValueText(items[0], first) && White(w1) && White(w2) && ItemsText(items[1..], rest);
    }
  }

  lemma MemberParts(members: seq<Member>, t: string) returns (first: string, w1: string, w2: string, rest: string)
    requires members != [] && MembersText(members, t)
    ensures MemberText(members[0], first) && White(w1) && White(w2)
    ensures |members| == 1 ==> t == first + w1 + "}"
    ensures |members| > 1 ==> t == first + w1 + "," + w2 + rest && MembersText(members[1..], rest)
  {
    hide MemberText, White;
    if |members| == 1 {
      first, w1 :| t == first + w1 + "}" && MemberText(members[0], first) && White(w1);
      w2, rest := w1, "";
    } else {
      first, w1, w2, rest :| t == first + w1 + "," + w2 + rest
        && MemberText(members[0], first) && White(w1) && White(w2) && MembersText(members[1..], rest);
    }
  }

  /** A text is read as what it writes, up to where it ends. */
  lemma {:induction false} ParsesText(v: Value, t: string, post: string)
    requires ValueText(v, t) && (v.Int? || v.Float? ==> Delimits(post))
    ensures ParseValue(t + post) == Parsed(Collapsed(v), post)
    decreases v, 0
  {
    hide ParseValue, ItemsText, MembersText, IntText, FloatText, StringText, CollapsedItems, CollapsedMembers,
      Delimits, White;
    match v {
      case Int(n) => IntReads(n, t, post);
      case Str(s) => StringReads(s, t, post);
      case Float(f) =>
        if f in {"NaN", "Infinity", "-Infinity"} {
          WordReads(v, t, post);
        } else {
          FloatReads(t, post);
        }
      case Arr(items) =>
        var w, body :| t == "[" + w + body && White(w) && ItemsText(items, body);
        assert t + post == "[" + (w + (body + post));
        EmptyBodies(body);
        if items == [] {
          EmptyReads("[", w, body, post);
        } else {
          ItemsParse(items, body, post);
          ItemsHead(items, body);
          ArrayReads(w, body, items, post);
        }
      case Obj(members) =>
        var w, body :| t == "{" + w + body && White(w) && MembersText(members, body);
        assert t + post == "{" + (w + (body + post));
        EmptyBodies(body);
        if members == [] {
          EmptyReads("{", w, body, post);
        } else {
          MembersParse(members, [], body, post);
          MembersHead(members, body);
          ObjectReads(w, body, members, post);
        }
      case _ => WordReads(v, t, post);
    }
  }

  lemma EmptyBodies(t: string)
    ensures (ItemsText([], t) <==> t == "]") && (MembersText([], t) <==> t == "}")
    ensures Collapsed(Arr([])) == Arr([]) && Collapsed(Obj([])) == Obj([])
  {
  }

  lemma EmptyReads(open: string, w: string, close: string, post: string)
    requires White(w) && ((open == "[" && close == "]") || (open == "{" && close == "}"))
    ensures ParseValue(open + (w + (close + post))) == Parsed(if open == "[" then Arr([]) else Obj([]), post)
  {
    hide ParseItems, ParseMembers, ParseScalar, SkipSpace;
    var s := open + (w + (close + post));
    assert s[1..] == w + (close + post) && (close + post)[1..] == post;
    SkipWhite(w, close + post);
  }

  lemma ItemsHead(items: seq<Value>, body: string)
    requires items != [] && ItemsText(items, body)
    ensures body != "" && body[0] !in {' ', '\t', '\n', '\r', ']'}
  {
    hide ValueText, ItemsText;
    var first, _, _, _ := ItemParts(items, body);
    ValueHead(items[0], first);
  }

  lemma MembersHead(members: seq<Member>, body: string)
    requires members != [] && MembersText(members, body)
    ensures body != "" && body[0] == '\"'
  {
    hide ValueText, MembersText, UnitsText, CharsOf;
    var first, _, _, _ := MemberParts(members, body);
  }

  lemma ArrayReads(w: string, body: string, items: seq<Value>, post: string)
    requires White(w) && body != "" && body[0] !in {' ', '\t', '\n', '\r', ']'}
    requires ParseItems(body + post) == Parsed(CollapsedItems(items), post)
    ensures ParseValue("[" + (w + (body + post))) == Parsed(Collapsed(Arr(items)), post)
  {
    hide ParseItems, ParseMembers, ParseScalar, SkipSpace, CollapsedItems;
    assert ("[" + (w + (body + post)))[1..] == w + (body + post) && (body + post)[0] == body[0];
    SkipWhite(w, body + post);
  }

  lemma ObjectReads(w: string, body: string, members: seq<Member>, post: string)
    requires White(w) && body != "" && body[0] == '\"'
    requires ParseMembers(body + post, []) == Parsed(CollapsedMembers([], members), post)
    ensures ParseValue("{" + (w + (body + post))) == Parsed(Collapsed(Obj(members)), post)
  {
    hide ParseItems, ParseMembers, ParseScalar, SkipSpace, CollapsedMembers;
    assert ("{" + (w + (body + post)))[1..] == w + (body + post) && (body + post)[0] == body[0];
    SkipWhite(w, body + post);
  }

  lemma WhiteDelimits(w: string, more: string)
    requires White(w) && more != "" && more[0] in {',', ']', '}'}
    ensures Delimits(w + more) && SkipSpace(w + more) == more
  {
    SkipWhite(w, more);
  }

  lemma {:induction false} ItemsParse(items: seq<Value>, t: string, post: string)
    requires items != [] && ItemsText(items, t)
    ensures ParseItems(t + post) == Parsed(CollapsedItems(items), post)
    decreases items, 1
  {
    hide *;
    var first, w1, w2, rest := ItemParts(items, t);
    if |items| == 1 {
      var tail := w1 + ("]" + post);
      ItemPosition(t, first, w1, "]", post);
      WhiteDelimits(w1, "]" + post);
      ParsesText(items[0], first, tail);
      LastItem(t + post, items, tail, post);
    } else {
      var tail := w1 + ("," + (w2 + (rest + post)));
      Separated(first, w1, w2, rest, post);
      WhiteDelimits(w1, "," + (w2 + (rest + post)));
      ParsesText(items[0], first, tail);
      ItemsParse(items[1..], rest, post);
      ItemsHead(items[1..], rest);
      assert (rest + post)[0] == rest[0];
      SkipWhite(w2, rest + post);
      MoreItems(t + post, items, tail, w2 + (rest + post), post);
    }
  }

  lemma ItemPosition(t: string, first: string, w: string, more: string, post: string)
    requires t == first + w + more
    ensures t + post == first + (w + (more + post))
  {
  }

  lemma Separated(first: string, w1: string, w2: string, rest: string, post: string)
    ensures first + w1 + "," + w2 + rest + post == first + (w1 + ("," + (w2 + (rest + post))))
  {
  }

  lemma LastItem(s: string, items: seq<Value>, tail: string, post: string)
    requires |items| == 1 && ParseValue(s) == Parsed(Collapsed(items[0]), tail) && SkipSpace(tail) == "]" + post
    ensures ParseItems(s) == Parsed(CollapsedItems(items), post)
  {
    hide ParseValue, SkipSpace, Collapsed;
    assert ("]" + post)[1..] == post;
    assert items == [items[0]];
    CollapsedOne(items[0]);
  }

  lemma CollapsedOne(v: Value)
    ensures CollapsedItems([v]) == [Collapsed(v)]
  {
    hide Collapsed;
    assert [v][1..] == [];
  }

  lemma MoreItems(s: string, items: seq<Value>, tail: string, rest: string, post: string)
    requires |items| > 1 && ParseValue(s) == Parsed(Collapsed(items[0]), tail) && SkipSpace(tail) == "," + rest
    requires ParseItems(SkipSpace(rest)) == Parsed(CollapsedItems(items[1..]), post)
    ensures ParseItems(s) == Parsed(CollapsedItems(items), post)
  {
    hide ParseValue, SkipSpace, Collapsed;
    var s1 := SkipSpace(tail);
    assert s1[0] == ',' && s1[1..] == rest;
  }

  lemma {:induction false} MembersParse(members: seq<Member>, before: seq<Member>, t: string, post: string)
    requires members != [] && MembersText(members, t)
    ensures ParseMembers(t + post, before) == Parsed(CollapsedMembers(before, members), post)
    decreases members, 1
  {
    hide *;
    var first, w1, w2, rest := MemberParts(members, t);
    if |members| == 1 {
      var tail := w1 + ("}" + post);
      ItemPosition(t, first, w1, "}", post);
      WhiteDelimits(w1, "}" + post);
      var afterKey, atValue := MemberReads(members[0], first, tail);
      LastMember(t + post, members, before, afterKey, atValue, tail, post);
    } else {
      var tail := w1 + ("," + (w2 + (rest + post)));
      Separated(first, w1, w2, rest, post);
      WhiteDelimits(w1, "," + (w2 + (rest + post)));
      var afterKey, atValue := MemberReads(members[0], first, tail);
      MembersParse(members[1..], Put(before, Member(members[0].key, Collapsed(members[0].value))), rest, post);
      MembersHead(members[1..], rest);
      assert (rest + post)[0] == rest[0];
      SkipWhite(w2, rest + post);
      MoreMembers(t + post, members, before, afterKey, atValue, tail, w2 + (rest + post), post);
    }
  }

  lemma FirstPart(key: string, w1: string, w2: string, value: string, tail: string)
    ensures key + (w1 + (":" + (w2 + (value + tail)))) == key + w1 + ":" + w2 + value + tail
  {
  }

  /** A member is read up to where it ends. */
  lemma {:induction false} MemberReads(m: Member, t: string, tail: string) returns (afterKey: string, atValue: string)
    requires MemberText(m, t) && Delimits(tail)
    ensures MemberRead(t + tail, m, afterKey, atValue, tail)
    decreases m, 1
  {
    hide StringText, ValueText, White, Delimits, MemberRead;
    var key, w1, w2, value :| t == key + w1 + ":" + w2 + value
      && StringText(m.key, key) && White(w1) && White(w2) && ValueText(m.value, value);
    hide MemberText;
    atValue := w2 + (value + tail);
    afterKey := w1 + (":" + atValue);
    FirstPart(key, w1, w2, value, tail);
    StringReads(m.key, key, afterKey);
    ParsesText(m.value, value, tail);
    ValueHead(m.value, value);
    assert (value + tail)[0] == value[0];
    SkipWhite(w1, ":" + atValue);
    SkipWhite(w2, value + tail);
    MemberReadAs(t + tail, m, afterKey, atValue, tail);
  }

  lemma MemberReadAs(s: string, m: Member, afterKey: string, atValue: string, tail: string)
    requires s != "" && s[0] == '\"' && ParseChars(s[1..]) == Parsed(m.key, afterKey)
    requires SkipSpace(afterKey) == ":" + atValue && ParseValue(SkipSpace(atValue)) == Parsed(Collapsed(m.value), tail)
    ensures MemberRead(s, m, afterKey, atValue, tail)
  {
    hide ParseChars, SkipSpace, ParseValue, Collapsed;
  }

  /** The key, the colon and the value of the next member are read. */
  predicate MemberRead(s: string, m: Member, afterKey: string, atValue: string, tail: string) {
    && s != "" && s[0] == '\"' && ParseChars(s[1..]) == Parsed(m.key, afterKey) && SkipSpace(afterKey) == ":" + atValue
    && ParseValue(SkipSpace(atValue)) == Parsed(Collapsed(m.value), tail)
  }

  lemma LastMember(s: string, members: seq<Member>, before: seq<Member>, afterKey: string, atValue: string,
                   tail: string, post: string)
    requires |members| == 1 && MemberRead(s, members[0], afterKey, atValue, tail) && SkipSpace(tail) == "}" + post
    ensures ParseMembers(s, before) == Parsed(CollapsedMembers(before, members), post)
  {
    hide ParseValue, ParseChars, SkipSpace, Collapsed, Put;
    assert (":" + atValue)[1..] == atValue && ("}" + post)[1..] == post;
  }

  lemma MoreMembers(s: string, members: seq<Member>, before: seq<Member>, afterKey: string, atValue: string,
                    tail: string, rest: string, post: string)
    requires |members| > 1 && MemberRead(s, members[0], afterKey, atValue, tail) && SkipSpace(tail) == "," + rest
    requires var before' := Put(before, Member(members[0].key, Collapsed(members[0].value)));
             ParseMembers(SkipSpace(rest), before') == Parsed(CollapsedMembers(before', members[1..]), post)
    ensures ParseMembers(s, before) == Parsed(CollapsedMembers(before, members), post)
  {
    hide ParseValue, ParseChars, SkipSpace, Collapsed, Put;
    assert (":" + atValue)[1..] == atValue && ("," + rest)[1..] == rest;
  }

  // ---------- values: what is read is a text ----------

  lemma ReadsString(s: string) returns (t: string)
    requires s != "" && s[0] == '\"' && ParseChars(s[1..]).Parsed?
    ensures StringText(ParseChars(s[1..]).value, t) && s == t + ParseChars(s[1..]).rest
  {
    hide UnitsText, CharsOf, ParseChars;
    var units, body := ReadsChars(s[1..]);
    t := "\"" + body + "\"";
    assert s == "\"" + s[1..];
  }

  lemma ReadsScalar(s: string) returns (v: Value, t: string)
    requires s != "" && s[0] !in {'\"', '[', '{'} && ParseValue(s).Parsed?
    ensures ValueText(v, t) && Collapsed(v) == v == ParseValue(s).value && s == t + ParseValue(s).rest
  {
    hide ParseNumber, ParseItems, ParseMembers, FloatText, IntText;
    assert ParseValue(s) == ParseScalar(s);
    v := ParseValue(s).value;
    if s[0] in {'n', 't', 'f', 'N', 'I'} || "-Infinity" <= s {
      t := match v
        case Null => "null"
        case Bool(b) => if b then "true" else "false"
        case Float(text) => text
        case _ => "";
    } else {
      hide ParseScalar, ParseValue;
      t := ReadsNumeral(s);
    }
  }

  lemma ReadsNumeral(s: string) returns (t: string)
    requires ParseNumber(s).Parsed?
    ensures s == t + ParseNumber(s).rest
    ensures var v := ParseNumber(s).value;
            (v.Int? && IntText(v.n, t)) || (v.Float? && t == v.text && FloatText(t))
  {
    hide ParseNumber, FractionText, ExponentText, WholeText, Decimal.Value;
    var sign, whole, fraction, exponent := ReadsNumber(s);
    t := sign + whole + (fraction + exponent);
    if fraction + exponent == "" {
      assert t == sign + whole;
      assert if sign == "-" then t[0] == '-' && t[1..] == whole else t == whole;
    } else {
      assert FloatText(t);
    }
  }

  /** What is read up to some point of a text is written there. */
  lemma {:induction false} ReadsValue(s: string) returns (v: Value, t: string)
    requires ParseValue(s).Parsed?
    ensures ValueText(v, t) && Collapsed(v) == ParseValue(s).value && s == t + ParseValue(s).rest
    decreases |s|, 0
  {
    hide SkipSpace, StringText, ItemsText, MembersText, CollapsedItems, CollapsedMembers, ParseScalar, ParseChars,
      ParseItems, ParseMembers, White;
    assert s != "";
    assert s == [s[0]] + s[1..];
    if s[0] == '\"' {
      t := ReadsString(s);
      v := Str(ParseChars(s[1..]).value);
    } else if s[0] == '[' {
      var items, w, body := ReadsArray(s[1..]);
      v, t := Arr(items), "[" + w + body;
    } else if s[0] == '{' {
      var members, w, body := ReadsObject(s[1..]);
      v, t := Obj(members), "{" + w + body;
    } else {
      hide ParseValue, ValueText;
      v, t := ReadsScalar(s);
    }
  }

  lemma {:induction false} ReadsArray(s: string) returns (items: seq<Value>, w: string, body: string)
    requires ParseValue("[" + s).Parsed?
    ensures White(w) && ItemsText(items, body) && ParseValue("[" + s).value == Arr(CollapsedItems(items))
    ensures s == w + body + ParseValue("[" + s).rest
    decreases |s|, 2
  {
    hide SkipSpace, ItemsText, CollapsedItems, ParseScalar, ParseChars, ParseItems, ParseMembers, White;
    assert ("[" + s)[1..] == s;
    w := SkippedIsWhite(s);
    var s1 := SkipSpace(s);
    if s1 != "" && s1[0] == ']' {
      EmptyBodies("]");
      items, body := [], "]";
      assert s1 == "]" + s1[1..];
    } else {
      items, body := ReadsItems(s1);
    }
    Regroup(w, body, ParseValue("[" + s).rest);
  }

  lemma {:induction false} ReadsObject(s: string) returns (members: seq<Member>, w: string, body: string)
    requires ParseValue("{" + s).Parsed?
    ensures White(w) && MembersText(members, body) && ParseValue("{" + s).value == Obj(CollapsedMembers([], members))
    ensures s == w + body + ParseValue("{" + s).rest
    decreases |s|, 2
  {
    hide SkipSpace, MembersText, CollapsedMembers, ParseScalar, ParseChars, ParseItems, ParseMembers, White;
    assert ("{" + s)[1..] == s;
    w := SkippedIsWhite(s);
    var s1 := SkipSpace(s);
    if s1 != "" && s1[0] == '}' {
      EmptyBodies("}");
      members, body := [], "}";
      assert s1 == "}" + s1[1..];
    } else {
      members, body := ReadsMembers(s1, []);
    }
    Regroup(w, body, ParseValue("{" + s).rest);
  }

  lemma {:induction false} ReadsItems(s: string) returns (items: seq<Value>, t: string)
    requires ParseItems(s).Parsed?
    ensures items != [] && ItemsText(items, t) && CollapsedItems(items) == ParseItems(s).value
    ensures s == t + ParseItems(s).rest
    decreases |s|, 1
  {
    hide ParseValue, ValueText, Collapsed, SkipSpace, White;
    var first, t1 := ReadsValue(s);
    var w1 := SkippedIsWhite(ParseValue(s).rest);
    var s1 := SkipSpace(ParseValue(s).rest);
    if s1[0] == ']' {
      items, t := [first], t1 + w1 + "]";
      hide ParseItems;
      assert s1 == "]" + s1[1..];
      OneItem(first, t1, w1);
    } else {
      var w2 := SkippedIsWhite(s1[1..]);
      var s2 := SkipSpace(s1[1..]);
      var more, t2 := ReadsItems(s2);
      items, t := [first] + more, t1 + w1 + "," + w2 + t2;
      assert s1 == "," + s1[1..];
      Separated(t1, w1, w2, t2, ParseItems(s2).rest);
      hide ParseItems;
      ConsItem(first, t1, w1, w2, more, t2);
    }
  }

  lemma OneItem(v: Value, t: string, w: string)
    requires ValueText(v, t) && White(w)
    ensures ItemsText([v], t + w + "]") && CollapsedItems([v]) == [Collapsed(v)]
  {
    hide ValueText, White;
    CollapsedOne(v);
  }

  lemma ConsItem(v: Value, first: string, w1: string, w2: string, items: seq<Value>, rest: string)
    requires items != [] && ValueText(v, first) && White(w1) && White(w2) && ItemsText(items, rest)
    ensures ItemsText([v] + items, first + w1 + "," + w2 + rest)
    ensures CollapsedItems([v] + items) == [Collapsed(v)] + CollapsedItems(items)
  {
    hide White;
    var all := [v] + items;
    assert all[0] == v && all[1..] == items;
  }

  lemma {:induction false} ReadsMembers(s: string, before: seq<Member>) returns (members: seq<Member>, t: string)
    requires ParseMembers(s, before).Parsed?
    ensures members != [] && MembersText(members, t)
    ensures CollapsedMembers(before, members) == ParseMembers(s, before).value
    ensures s == t + ParseMembers(s, before).rest
    decreases |s|, 1
  {
    hide MemberText, Collapsed, SkipSpace, White, Put, MembersText, CollapsedMembers;
    var m, first, tail := ReadsMember(s, before);
    var w1 := SkippedIsWhite(tail);
    var s1 := SkipSpace(tail);
    assert s1 == [s1[0]] + s1[1..];
    if s1[0] == '}' {
      members, t := [m], first + w1 + "}";
      LastMemberText(before, m, first, w1);
    } else {
      var w2 := SkippedIsWhite(s1[1..]);
      var s2 := SkipSpace(s1[1..]);
      var before' := Put(before, Member(m.key, Collapsed(m.value)));
      hide ParseMembers;
      var more, rest := ReadsMembers(s2, before');
      members, t := [m] + more, first + w1 + "," + w2 + rest;
      Separated(first, w1, w2, rest, ParseMembers(s2, before').rest);
      ConsMember(before, m, first, w1, w2, more, rest);
    }
  }

  /** The first member, and how the rest is read. */
  lemma {:induction false} ReadsMember(s: string, before: seq<Member>)
    returns (m: Member, first: string, tail: string)
    requires ParseMembers(s, before).Parsed?
    ensures MemberText(m, first) && first != "" && s == first + tail
    ensures var s1, before' := SkipSpace(tail), Put(before, Member(m.key, Collapsed(m.value)));
            && s1 != "" && s1[0] in {'}', ','}
            && ParseMembers(s, before) ==
               if s1[0] == '}' then Parsed(before', s1[1..]) else ParseMembers(SkipSpace(s1[1..]), before')
    decreases |s|, 0
  {
    hide ParseValue, ParseChars, StringText, ValueText, Collapsed, SkipSpace, White, Put;
    var key := ReadsString(s);
    var afterKey := ParseChars(s[1..]).rest;
    var w1 := SkippedIsWhite(afterKey);
    var s1 := SkipSpace(afterKey);
    var w2 := SkippedIsWhite(s1[1..]);
    var s2 := SkipSpace(s1[1..]);
    var value, t2 := ReadsValue(s2);
    tail := ParseValue(s2).rest;
    m, first := Member(ParseChars(s[1..]).value, value), key + w1 + ":" + w2 + t2;
    assert s1 == ":" + s1[1..];
    FirstPart(key, w1, w2, t2, tail);
    hide ParseMembers;
    assert StringText(m.key, key) && ValueText(m.value, t2);
  }

  lemma LastMemberText(before: seq<Member>, m: Member, t: string, w: string)
    requires MemberText(m, t) && White(w)
    ensures MembersText([m], t + w + "}")
    ensures CollapsedMembers(before, [m]) == Put(before, Member(m.key, Collapsed(m.value)))
  {
    hide MemberText, White, Collapsed, Put;
    assert [m][1..] == [];
  }

  lemma ConsMember(before: seq<Member>, m: Member, first: string, w1: string, w2: string, members: seq<Member>,
                   rest: string)
    requires members != [] && MemberText(m, first) && White(w1) && White(w2) && MembersText(members, rest)
    ensures MembersText([m] + members, first + w1 + "," + w2 + rest)
    ensures CollapsedMembers(before, [m] + members) ==
            CollapsedMembers(Put(before, Member(m.key, Collapsed(m.value))), members)
  {
    hide MemberText, White, Put;
    var all := [m] + members;
    assert all[0] == m && all[1..] == members;
  }

  // ---------- what decodes ----------

  /** `json.loads` succeeds exactly on the JSON texts. */
  lemma LoadsExactly(text: string, v: Value)
    ensures Loads(text) == Some(v) <==> JsonText(text, v)
  {
    hide ValueText, Collapsed, White, SkipSpace, ParseValue, Delimits;
    if JsonText(text, v) {
      var w1, written, t, w2 :|
        text == w1 + t + w2 && White(w1) && White(w2) && ValueText(written, t) && Collapsed(written) == v;
      ValueHead(written, t);
      assert text == w1 + (t + w2) && (t + w2)[0] == t[0];
      SkipWhite(w1, t + w2);
      WhiteAlone(w2);
      ParsesText(written, t, w2);
    }
    if Loads(text) == Some(v) {
      var w1 := SkippedIsWhite(text);
      var s := SkipSpace(text);
      var written, t := ReadsValue(s);
      var w2 := SkippedIsWhite(ParseValue(s).rest);
      assert w2 + "" == w2 == ParseValue(s).rest;
      assert text == w1 + t + w2;
    }
  }

  lemma WhiteAlone(w: string)
    requires White(w)
    ensures Delimits(w) && SkipSpace(w) == ""
  {
    SkipWhite(w, "");
    assert w + "" == w;
  }

  /** At a bracket `raw_decode` succeeds exactly if a JSON array or object starts there, and ends where that ends. */
  lemma RawDecodeExactly(text: string, start: nat, v: Value, end: nat)
    requires start < |text| && text[start] in {'[', '{'}
    ensures RawDecode(text, start) == Some((v, end)) <==> JsonAt(text, start, v, end)
  {
    hide ValueText, Collapsed, ParseValue, Delimits;
    if JsonAt(text, start, v, end) {
      var written :| ValueText(written, text[start..end]) && Collapsed(written) == v;
      ValueHead(written, text[start..end]);
      BracketWrites(written, text[start..end]);
      ParsesText(written, text[start..end], text[end..]);
      assert text[start..] == text[start..end] + text[end..];
    }
    if RawDecode(text, start) == Some((v, end)) {
      var s := text[start..];
      var written, t := ReadsValue(s);
      assert end == start + |t| && text[start..end] == t;
    }
  }

  /** A text that starts with a bracket is no number. */
  lemma BracketWrites(v: Value, t: string)
    requires ValueText(v, t) && t != "" && t[0] in {'[', '{'}
    ensures v.Arr? || v.Obj?
  {
    hide IntText, FloatText, ItemsText, MembersText, UnitsText, CharsOf;
    if v.Int? {
      NumberHead(t, v.n);
    } else if v.Float? && v.text !in {"NaN", "Infinity", "-Infinity"} {
      NumberHead(t, 0);
    }
  }

  /** An array or object decodes at the point where it stands, up to the point where it ends. */
  lemma DocumentRoundTrip(pre: string, written: Value, t: string, post: string)
    requires ValueText(written, t) && (written.Arr? || written.Obj?)
    ensures RawDecode(pre + t + post, |pre|) == Some((Collapsed(written), |pre| + |t|))
  {
    hide ValueText, ParseValue, Collapsed, Delimits;
    ParsesText(written, t, post);
    assert (pre + t + post)[|pre|..] == t + post;
  }

  lemma SpacedObject(w: string, key: string, k: string, v: Value, t: string) returns (text: string)
    requires White(w) && StringText(key, k) && ValueText(v, t)
    ensures text == "{" + w + (k + w + ":" + w + t) + w + "}" && ValueText(Obj([Member(key, v)]), text)
    ensures Collapsed(Obj([Member(key, v)])) == Obj([Member(key, Collapsed(v))])
  {
    hide ValueText, Collapsed, White, StringText, MembersText, CollapsedMembers;
    var m, member := Member(key, v), k + w + ":" + w + t;
    assert MemberText(m, member);
    LastMemberText([], m, member, w);
    text := "{" + w + member + w + "}";
    assert text == "{" + w + (member + w + "}");
    ObjectWrites([m], w, member + w + "}", text);
    CollapsedOneMember(m);
  }

  lemma CollapsedOneMember(m: Member)
    ensures Collapsed(Obj([m])) == Obj([Member(m.key, Collapsed(m.value))])
  {
    hide Collapsed, CollapsedItems;
    assert [m][1..] == [];
    CollapsedUnfold([m]);
    assert Put([], Member(m.key, Collapsed(m.value))) == [Member(m.key, Collapsed(m.value))];
  }

  lemma CollapsedUnfold(members: seq<Member>)
    ensures Collapsed(Obj(members)) == Obj(CollapsedMembers([], members))
  {
    hide CollapsedMembers;
  }

  lemma SpacedArray(w: string, v: Value, t: string, u: Value, x: string) returns (text: string)
    requires White(w) && ValueText(v, t) && ValueText(u, x)
    ensures text == "[" + w + t + w + "," + w + (x + w + "]") && ValueText(Arr([v, u]), text)
    ensures Collapsed(Arr([v, u])) == Arr([Collapsed(v), Collapsed(u)])
  {
    hide ValueText, White, ItemsText, Collapsed, CollapsedItems;
    OneItem(u, x, w);
    ConsItem(v, t, w, w, [u], x + w + "]");
    text := "[" + w + t + w + "," + w + (x + w + "]");
    assert text == "[" + w + (t + w + "," + w + (x + w + "]"));
    assert [v] + [u] == [v, u];
    ArrayWrites([v, u], w, t + w + "," + w + (x + w + "]"), text);
    CollapsedArray([v, u]);
  }

  lemma CollapsedArray(items: seq<Value>)
    ensures Collapsed(Arr(items)) == Arr(CollapsedItems(items))
  {
    hide CollapsedItems;
  }

  /** White space is allowed, and means nothing, wherever the standard allows it. */
  lemma WhiteSpaceAnywhere(w: string, key: string, k: string, v: Value, t: string, u: Value, x: string)
    requires forall c :: c in w ==> c in {' ', '\t', '\n', '\r'}
    requires StringText(key, k) && ValueText(v, t) && ValueText(u, x)
    ensures Loads(w + ("[" + w + ("{" + w + (k + w + ":" + w + t) + w + "}") + w + "," + w + (x + w + "]")) + w) ==
            Some(Arr([Obj([Member(key, Collapsed(v))]), Collapsed(u)]))
  {
    hide *;
    IsWhite(w);
    var first := SpacedObject(w, key, k, v, t);
    var text := SpacedArray(w, Obj([Member(key, v)]), first, u, x);
    JsonWrites(w, Arr([Obj([Member(key, v)]), u]), text);
    LoadsExactly(w + text + w, Collapsed(Arr([Obj([Member(key, v)]), u])));
  }

  lemma IsWhite(w: string)
    requires forall c :: c in w ==> c in {' ', '\t', '\n', '\r'}
    ensures White(w)
  {
    assert forall i :: 0 <= i < |w| ==> w[i] in w;
  }

  lemma ObjectWrites(members: seq<Member>, w: string, body: string, t: string)
    requires MembersText(members, body) && White(w) && t == "{" + w + body
    ensures ValueText(Obj(members), t)
  {
    hide MembersText, White;
  }

  lemma ArrayWrites(items: seq<Value>, w: string, body: string, t: string)
    requires ItemsText(items, body) && White(w) && t == "[" + w + body
    ensures ValueText(Arr(items), t)
  {
    hide ItemsText, White;
  }

  lemma JsonWrites(w: string, v: Value, t: string)
    requires White(w) && ValueText(v, t)
    ensures JsonText(w + t + w, Collapsed(v))
  {
    hide White, ValueText, Collapsed;
  }
}
