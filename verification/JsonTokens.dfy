/** White space, strings and numbers: the decoder reads exactly the texts of the grammar. */
module JsonTokens {
  import opened Common
  import opened Json
  import opened JsonGrammar
  import Decimal

  lemma Regroup(a: string, b: string, c: string)
    ensures (a + b) + c == a + (b + c)
  {
  }

  // ---------- white space ----------

  lemma {:induction false} SkipWhite(w: string, s: string)
    requires White(w) && (s == "" || s[0] !in {' ', '\t', '\n', '\r'})
    ensures SkipSpace(w + s) == s
  {
    if w == "" {
      assert w + s == s;
    } else {
      assert (w + s)[1..] == w[1..] + s;
      SkipWhite(w[1..], s);
    }
  }

  lemma {:induction false} SkippedIsWhite(s: string) returns (w: string)
    ensures White(w) && s == w + SkipSpace(s)
  {
    w := "";
    if s != "" && IsSpace(s[0]) {
      var w' := SkippedIsWhite(s[1..]);
      w := [s[0]] + w';
      assert s == [s[0]] + s[1..];
    }
  }

  // ---------- strings: texts are read ----------

  lemma HexMeans(c: char, d: nat)
    ensures IsHex(c, d) <==> d < 16 && HexValue(c) == Some(d)
  {
    if d < 16 {
      HexDigitsAt(d);
    }
  }

  lemma HexDigitsAt(d: nat)
    requires d < 16
    ensures "0123456789abcdef"[d] == if d < 10 then '0' + d as char else 'a' + (d - 10) as char
    ensures "0123456789ABCDEF"[d] == if d < 10 then '0' + d as char else 'A' + (d - 10) as char
  {
  }

  lemma HexReads(unit: nat, t: string, rest: string)
    requires HexText(unit, t)
    ensures |t + rest| >= 4 && Hex4(t + rest) == Some(unit) && unit < 0x10000
  {
    hide HexValue, IsHex;
    var a: nat, b: nat, c: nat, d: nat :| IsHex(t[0], a) && IsHex(t[1], b) && IsHex(t[2], c) && IsHex(t[3], d)
      && unit == 4096 * a + 256 * b + 16 * c + d;
    HexMeans(t[0], a);
    HexMeans(t[1], b);
    HexMeans(t[2], c);
    HexMeans(t[3], d);
  }

  lemma ReadsHex(s: string)
    requires |s| >= 4 && Hex4(s).Some?
    ensures HexText(Hex4(s).value, s[..4])
  {
    var a, b, c, d := HexValue(s[0]).value, HexValue(s[1]).value, HexValue(s[2]).value, HexValue(s[3]).value;
    HexMeans(s[0], a);
    HexMeans(s[1], b);
    HexMeans(s[2], c);
    HexMeans(s[3], d);
    HexBelow16(s[0]);
    HexBelow16(s[1]);
    HexBelow16(s[2]);
    HexBelow16(s[3]);
    hide HexValue, IsHex;
  }

  lemma HexBelow16(c: char)
    ensures HexValue(c).Some? ==> HexValue(c).value < 16
  {
  }

  lemma EscapeMeans(letter: char, unit: nat)
    ensures ShortEscape(letter, unit) <==> EscapedChar(letter).Some? && EscapedChar(letter).value as nat == unit
  {
  }

  /** A unit that is no half of a pair with what follows. */
  lemma UnitReads(unit: Unit, first: string, tail: string)
    requires UnitText(unit, first) && (IsHigh(unit) ==> LowSurrogate(tail).None?)
    ensures ParseChars(first + tail) ==
            Prepend(if IsHigh(unit) || IsLow(unit) then '\U{FFFD}' else unit as char, ParseChars(tail))
  {
    var s := first + tail;
    assert s[|first|..] == tail;
    if |first| == 2 {
      EscapeMeans(first[1], unit);
      hide EscapedChar, ShortEscape, LowSurrogate;
    } else if |first| == 6 {
      assert s[2..] == first[2..] + tail;
      HexReads(unit, first[2..], tail);
      hide Hex4, LowSurrogate;
    }
  }

  lemma SurrogateIsHex(unit: Unit, t: string)
    requires UnitText(unit, t) && (IsHigh(unit) || IsLow(unit))
    ensures |t| == 6 && t[0] == '\\' && t[1] == 'u' && HexText(unit, t[2..])
  {
    hide HexText;
  }

  lemma LowReads(unit: Unit, first: string, tail: string)
    requires UnitText(unit, first)
    ensures LowSurrogate(first + tail) == if IsLow(unit) then Some(unit) else None
  {
    hide HexText, Hex4;
    var s := first + tail;
    if |first| == 6 {
      assert s[2..] == first[2..] + tail;
      HexReads(unit, first[2..], tail);
    } else if |first| == 2 {
      assert s[0] == '\\' && s[1] == first[1];
      assert first[1] != 'u';
    } else {
      assert s[0] == first[0];
    }
  }

  lemma PairReads(high: Unit, low: Unit, first: string, second: string, tail: string)
    requires UnitText(high, first) && UnitText(low, second) && IsHigh(high) && IsLow(low)
    ensures ParseChars(first + (second + tail)) ==
            Prepend((0x10000 + 1024 * (high - 0xD800) + (low - 0xDC00)) as char, ParseChars(tail))
  {
    hide UnitText, LowSurrogate, HexText, Hex4;
    SurrogateIsHex(high, first);
    SurrogateIsHex(low, second);
    LowReads(low, second, tail);
    HexReads(high, first[2..], second + tail);
    var s := first + (second + tail);
    assert s[2..] == first[2..] + (second + tail) && s[6..] == second + tail && s[12..] == tail;
  }

  /** The text goes on with the second half of a pair exactly when the next unit is one. */
  lemma NextLow(units: seq<Unit>, t: string, post: string)
    requires UnitsText(units, t)
    ensures LowSurrogate(t + ("\"" + post)) == if units != [] && IsLow(units[0]) then Some(units[0]) else None
  {
    hide UnitText, Hex4;
    if units == [] {
      assert (t + ("\"" + post))[0] == '\"';
    } else {
      hide LowSurrogate;
      var first, more :| t == first + more && UnitText(units[0], first) && UnitsText(units[1..], more);
      LowReads(units[0], first, more + ("\"" + post));
      assert t + ("\"" + post) == first + (more + ("\"" + post));
    }
  }

  lemma {:induction false} CharsRead(units: seq<Unit>, t: string, post: string)
    requires UnitsText(units, t)
    ensures ParseChars(t + ("\"" + post)) == Parsed(CharsOf(units), post)
  {
    hide UnitText, LowSurrogate;
    if units == [] {
      assert t + ("\"" + post) == "\"" + post && ("\"" + post)[1..] == post;
    } else {
      hide ParseChars;
      var first, more :| t == first + more && UnitText(units[0], first) && UnitsText(units[1..], more);
      assert t + ("\"" + post) == first + (more + ("\"" + post));
      NextLow(units[1..], more, post);
      if IsHigh(units[0]) && |units| > 1 && IsLow(units[1]) {
        var second, rest :|
          more == second + rest && UnitText(units[1..][0], second) && UnitsText(units[1..][1..], rest);
        assert units[1..][1..] == units[2..];
        assert more + ("\"" + post) == second + (rest + ("\"" + post));
        CharsRead(units[2..], rest, post);
        PairReads(units[0], units[1], first, second, rest + ("\"" + post));
      } else {
        CharsRead(units[1..], more, post);
        UnitReads(units[0], first, more + ("\"" + post));
      }
    }
  }

  // ---------- strings: what is read is a text ----------

  lemma AddUnit(unit: Unit, first: string, units: seq<Unit>, more: string)
    requires UnitText(unit, first) && UnitsText(units, more)
    ensures UnitsText([unit] + units, first + more)
    ensures !(IsHigh(unit) && units != [] && IsLow(units[0])) ==>
              CharsOf([unit] + units) ==
              [if IsHigh(unit) || IsLow(unit) then '\U{FFFD}' else unit as char] + CharsOf(units)
  {
    hide UnitText;
    assert ([unit] + units)[1..] == units;
  }

  lemma AddPair(high: Unit, low: Unit, units: seq<Unit>)
    requires IsHigh(high) && IsLow(low)
    ensures CharsOf([high] + ([low] + units)) ==
            [(0x10000 + 1024 * (high - 0xD800) + (low - 0xDC00)) as char] + CharsOf(units)
  {
    assert ([high] + ([low] + units))[2..] == units;
  }

  lemma ReadsHexUnit(s: string) returns (unit: Unit)
    requires |s| >= 6 && s[0] == '\\' && s[1] == 'u' && Hex4(s[2..]).Some?
    ensures Hex4(s[2..]) == Some(unit) && unit < 0x10000 && UnitText(unit, s[..6])
  {
    hide Hex4, HexText;
    ReadsHex(s[2..]);
    HexReads(Hex4(s[2..]).value, s[2..][..4], "");
    unit := Hex4(s[2..]).value;
    assert s[..6][2..] == s[2..][..4];
  }

  /** The unit that is written first, and where it ends. */
  lemma ReadsUnit(s: string) returns (unit: Unit, n: nat)
    requires ParseChars(s).Parsed? && s[0] != '\"'
    ensures 0 < n <= |s| && UnitText(unit, s[..n]) && (n != 6 ==> !IsHigh(unit) && !IsLow(unit))
    ensures ParseChars(s) ==
            if IsHigh(unit) && LowSurrogate(s[n..]).Some?
            then Prepend(PairChar(unit, LowSurrogate(s[6..]).value), ParseChars(s[12..]))
            else Prepend(if IsHigh(unit) || IsLow(unit) then '\U{FFFD}' else unit as char, ParseChars(s[n..]))
  {
    hide LowSurrogate, Hex4, HexText;
    if s[0] != '\\' {
      unit, n := s[0] as Unit, 1;
    } else if s[1] == 'u' {
      unit := ReadsHexUnit(s);
      n := 6;
    } else {
      unit, n := EscapedChar(s[1]).value as Unit, 2;
      EscapeMeans(s[1], unit);
    }
  }

  lemma ReadsLow(s: string) returns (unit: Unit)
    requires LowSurrogate(s).Some?
    ensures |s| >= 6 && LowSurrogate(s) == Some(unit) && IsLow(unit) && UnitText(unit, s[..6])
  {
    hide Hex4, HexText, UnitText;
    unit := ReadsHexUnit(s);
  }

  /** A pair at the beginning and what is known of the rest. */
  lemma ReadsPair(s: string, high: Unit, units: seq<Unit>, more: string) returns (low: Unit)
    requires |s| >= 6 && UnitText(high, s[..6]) && IsHigh(high) && LowSurrogate(s[6..]).Some? && UnitsText(units, more)
    ensures |s| >= 12 && LowSurrogate(s[6..]) == Some(low) && IsLow(low)
    ensures UnitsText([high] + ([low] + units), s[..12] + more)
    ensures CharsOf([high] + ([low] + units)) == [PairChar(high, low)] + CharsOf(units)
  {
    hide UnitText, LowSurrogate, UnitsText, CharsOf;
    low := ReadsLow(s[6..]);
    AddUnit(low, s[6..][..6], units, more);
    AddUnit(high, s[..6], [low] + units, s[6..][..6] + more);
    AddPair(high, low, units);
    assert s[..12] + more == s[..6] + (s[6..][..6] + more);
  }

  lemma {:induction false} ReadsChars(s: string) returns (units: seq<Unit>, t: string)
    requires ParseChars(s).Parsed?
    ensures UnitsText(units, t) && s == t + ("\"" + ParseChars(s).rest) && CharsOf(units) == ParseChars(s).value
  {
    if s[0] == '\"' {
      return [], "";
    }
    hide UnitText, LowSurrogate, ParseChars, UnitsText, CharsOf, PairChar;
    var unit, n := ReadsUnit(s);
    if IsHigh(unit) && LowSurrogate(s[n..]).Some? {
      var _ := ReadsLow(s[6..]);
      var units', t' := ReadsChars(s[12..]);
      var low := ReadsPair(s, unit, units', t');
      units, t := [unit] + ([low] + units'), s[..12] + t';
      Regroup(s[..12], t', "\"" + ParseChars(s).rest);
      assert s == s[..12] + s[12..];
    } else {
      var units', t' := ReadsChars(s[n..]);
      NextLow(units', t', ParseChars(s[n..]).rest);
      AddUnit(unit, s[..n], units', t');
      units, t := [unit] + units', s[..n] + t';
      Regroup(s[..n], t', "\"" + ParseChars(s).rest);
      assert s == s[..n] + s[n..];
    }
  }

  // ---------- numbers ----------

  lemma {:induction false} DigitsRead(digits: string, post: string)
    requires Decimal.AllDigits(digits) && (post == "" || !Decimal.IsDigit(post[0]))
    ensures DigitSpan(digits + post) == |digits|
  {
    if digits == "" {
      assert digits + post == post;
    } else {
      assert (digits + post)[1..] == digits[1..] + post;
      DigitsRead(digits[1..], post);
    }
  }

  lemma WholeRead(whole: string, post: string)
    requires WholeText(whole) && (post == "" || !Decimal.IsDigit(post[0]))
    ensures IntSpan(whole + post) == |whole|
  {
    DigitsRead(whole, post);
    assert (whole + post)[0] == whole[0];
  }

  lemma FractionRead(fraction: string, post: string)
    requires FractionText(fraction) && (post == "" || (!Decimal.IsDigit(post[0]) && post[0] != '.'))
    ensures FractionSpan(fraction + post) == |fraction|
  {
    if fraction == "" {
      assert fraction + post == post;
    } else {
      assert (fraction + post)[1..] == fraction[1..] + post;
      DigitsRead(fraction[1..], post);
    }
  }

  lemma ExponentRead(exponent: string, post: string)
    requires ExponentText(exponent) && Delimits(post)
    ensures ExponentSpan(exponent + post) == |exponent|
  {
    if exponent == "" {
      assert exponent + post == post;
    } else if exponent[1] in {'+', '-'} {
      assert (exponent + post)[2..] == exponent[2..] + post;
      DigitsRead(exponent[2..], post);
    } else {
      assert Decimal.IsDigit(exponent[1..][0]);
      assert (exponent + post)[1..] == exponent[1..] + post;
      DigitsRead(exponent[1..], post);
    }
  }

  /** The value of a number from its parts. */
  function NumberOf(sign: string, whole: string, fraction: string, exponent: string): Value
    requires WholeText(whole)
  {
    if fraction + exponent != "" then Float(sign + whole + (fraction + exponent))
    else if sign == "-" then Int(-(Decimal.Value(whole) as int)) else Int(Decimal.Value(whole))
  }

  lemma NumberReads(sign: string, whole: string, fraction: string, exponent: string, post: string)
    requires sign in {"", "-"} && WholeText(whole) && FractionText(fraction) && ExponentText(exponent) && Delimits(post)
    ensures ParseNumber(sign + whole + (fraction + exponent) + post) ==
            Parsed(NumberOf(sign, whole, fraction, exponent), post)
  {
    hide *;
    NumberStart(sign, whole, fraction, exponent, post);
    NumberParts(sign, whole, fraction, exponent, post);
    WholeRead(whole, fraction + (exponent + post));
    FractionRead(fraction, exponent + post);
    ExponentRead(exponent, post);
    NumberBySpans(sign, whole, fraction, exponent, post);
  }

  lemma NumberStart(sign: string, whole: string, fraction: string, exponent: string, post: string)
    requires sign in {"", "-"} && WholeText(whole) && FractionText(fraction) && ExponentText(exponent) && Delimits(post)
    ensures whole != "" && sign + whole + (fraction + exponent) + post != ""
    ensures (sign + whole + (fraction + exponent) + post)[0] == '-' <==> sign == "-"
    ensures var after := fraction + (exponent + post); after == "" || !Decimal.IsDigit(after[0])
    ensures var after := exponent + post; after == "" || (!Decimal.IsDigit(after[0]) && after[0] != '.')
  {
  }

  lemma NumberParts(sign: string, whole: string, fraction: string, exponent: string, post: string)
    ensures var s, after := sign + whole + (fraction + exponent) + post, fraction + (exponent + post);
            && s[|sign|..] == whole + after && s[|sign| + |whole|..] == after
            && s[|sign|..][..|whole|] == whole && after[|fraction|..] == exponent + post
            && s[..|sign| + |whole| + |fraction| + |exponent|] == sign + whole + (fraction + exponent)
            && after[|fraction| + |exponent|..] == post
  {
  }

  lemma NumberBySpans(sign: string, whole: string, fraction: string, exponent: string, post: string)
    requires sign in {"", "-"} && WholeText(whole)
    requires var s := sign + whole + (fraction + exponent) + post; s != "" && (s[0] == '-' <==> sign == "-")
    requires var s, after := sign + whole + (fraction + exponent) + post, fraction + (exponent + post);
             && s[|sign|..] == whole + after && s[|sign| + |whole|..] == after
             && s[|sign|..][..|whole|] == whole && after[|fraction|..] == exponent + post
             && s[..|sign| + |whole| + |fraction| + |exponent|] == sign + whole + (fraction + exponent)
             && after[|fraction| + |exponent|..] == post
             && IntSpan(whole + after) == |whole| && FractionSpan(after) == |fraction|
    requires ExponentSpan(exponent + post) == |exponent|
    ensures ParseNumber(sign + whole + (fraction + exponent) + post) ==
            Parsed(NumberOf(sign, whole, fraction, exponent), post)
  {
    hide IntSpan, FractionSpan, ExponentSpan, Decimal.Value;
    assert fraction + exponent == "" <==> |fraction| + |exponent| == 0;
  }

  lemma WholeSpan(s: string)
    ensures IntSpan(s) > 0 ==> WholeText(s[..IntSpan(s)])
  {
    hide DigitSpan;
  }

  lemma FractionSpanText(s: string)
    ensures FractionText(s[..FractionSpan(s)])
  {
    hide DigitSpan;
    if FractionSpan(s) > 0 {
      var n := DigitSpan(s[1..]);
      assert s[..1 + n][1..] == s[1..][..n];
    }
  }

  lemma ExponentSpanText(s: string)
    ensures ExponentText(s[..ExponentSpan(s)])
  {
    hide DigitSpan;
    if ExponentSpan(s) > 0 {
      var sign := if |s| > 1 && s[1] in {'+', '-'} then 1 else 0;
      var n := DigitSpan(s[1 + sign..]);
      assert s[..1 + sign + n][1 + sign..] == s[1 + sign..][..n];
    }
  }

  lemma NumberHasWhole(s: string, sign: string)
    requires ParseNumber(s).Parsed? && sign == if s != "" && s[0] == '-' then "-" else ""
    ensures s != "" && sign <= s && IntSpan(s[|sign|..]) > 0
  {
    hide IntSpan, FractionSpan, ExponentSpan, Decimal.Value;
  }

  lemma ReadsNumber(s: string) returns (sign: string, whole: string, fraction: string, exponent: string)
    requires ParseNumber(s).Parsed?
    ensures sign in {"", "-"} && WholeText(whole) && FractionText(fraction) && ExponentText(exponent)
    ensures s == sign + whole + (fraction + exponent) + ParseNumber(s).rest
    ensures ParseNumber(s).value == NumberOf(sign, whole, fraction, exponent)
  {
    hide *;
    sign := if s != "" && s[0] == '-' then "-" else "";
    NumberHasWhole(s, sign);
    var s1 := s[|sign|..];
    WholeSpan(s1);
    whole := s1[..IntSpan(s1)];
    var s2 := s1[|whole|..];
    FractionSpanText(s2);
    fraction := s2[..FractionSpan(s2)];
    var s3 := s2[|fraction|..];
    ExponentSpanText(s3);
    exponent := s3[..ExponentSpan(s3)];
    var rest := s3[|exponent|..];
    Reassembled(s, sign, whole, fraction, exponent);
    NumberParts(sign, whole, fraction, exponent, rest);
    NumberBySpans(sign, whole, fraction, exponent, rest);
  }

  lemma Reassembled(s: string, sign: string, whole: string, fraction: string, exponent: string)
    requires sign <= s && whole <= s[|sign|..] && fraction <= s[|sign|..][|whole|..]
    requires exponent <= s[|sign|..][|whole|..][|fraction|..]
    ensures var s1 := s[|sign|..];
            var s2 := s1[|whole|..];
            var s3 := s2[|fraction|..];
            var rest := s3[|exponent|..];
            && s3 == exponent + rest && s2 == fraction + (exponent + rest) && s1 == whole + s2
            && s == sign + whole + (fraction + exponent) + rest
  {
    var s1 := s[|sign|..];
    var s2 := s1[|whole|..];
    var s3 := s2[|fraction|..];
    assert s == sign + s1 && s1 == whole + s2 && s2 == fraction + s3 && s3 == exponent + s3[|exponent|..];
  }
}
