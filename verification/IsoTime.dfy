/** `isoformat()` and `fromisoformat()` for moments in UTC, counted in microseconds since 0001-01-01T00:00:00. Years
    after 9999, where `datetime` ends, are written with more than four digits. */
module IsoTime {
  import opened Common
  import Decimal
  import opened Calendar

  const MICROS_PER_DAY := 86_400_000_000

  /** What is printed and read, field by field. */
  datatype Fields = Fields(date: Date, hour: nat, minute: nat, second: nat, micro: nat)

  predicate ValidFields(f: Fields) {
    ValidDate(f.date) && f.hour < 24 && f.minute < 60 && f.second < 60 && f.micro < 1_000_000
  }

  function FieldsOf(t: nat): (f: Fields)
    ensures ValidFields(f) && MicrosOf(f) == t
  {
    var n, rest := t / MICROS_PER_DAY, t % MICROS_PER_DAY;
    var seconds, micro := rest / 1_000_000, rest % 1_000_000;
    TimeOfDay(rest);
    hide Ordinal, ValidDate;
    Fields(DateOf(n), seconds / 3600, seconds / 60 % 60, seconds % 60, micro)
  }

  lemma TimeOfDay(rest: nat)
    requires rest < MICROS_PER_DAY
    ensures var seconds := rest / 1_000_000;
            && seconds / 3600 < 24
            && ((seconds / 3600 * 60 + seconds / 60 % 60) * 60 + seconds % 60) * 1_000_000 + rest % 1_000_000 == rest
  {
    var seconds := rest / 1_000_000;
    assert seconds / 60 / 60 == seconds / 3600;
  }

  function MicrosOf(f: Fields): (t: nat)
    requires ValidFields(f)
  {
    Ordinal(f.date) * MICROS_PER_DAY + ((f.hour * 60 + f.minute) * 60 + f.second) * 1_000_000 + f.micro
  }

  // ---------- fixed-width numbers ----------

  function Power(width: nat): nat {
    if width == 0 then 1 else 10 * Power(width - 1)
  }

  /** The last `width` digits of `n`. */
  function Digits(n: nat, width: nat): (s: string)
    ensures |s| == width && Decimal.AllDigits(s)
  {
    if width == 0 then "" else Digits(n / 10, width - 1) + [Decimal.DigitChar(n % 10)]
  }

  lemma {:induction false} DigitsValue(n: nat, width: nat)
    requires n < Power(width)
    ensures Decimal.Value(Digits(n, width)) == n
  {
    if width > 0 {
      DigitsValue(n / 10, width - 1);
      var s := Digits(n, width);
      assert s[..width - 1] == Digits(n / 10, width - 1);
    }
  }

  /** A number of exactly `width` digits and what follows it. */
  function ReadDigits(s: string, width: nat): Option<(nat, string)> {
    if |s| < width || !Decimal.AllDigits(s[..width]) then None else Some((Decimal.Value(s[..width]), s[width..]))
  }

  function ReadChar(s: string, c: char): Option<string> {
    if s == "" || s[0] != c then None else Some(s[1..])
  }

  lemma ReadDigitsBack(n: nat, width: nat, rest: string)
    requires n < Power(width)
    ensures ReadDigits(Digits(n, width) + rest, width) == Some((n, rest))
  {
    var s := Digits(n, width) + rest;
    assert s[..width] == Digits(n, width) && s[width..] == rest;
    DigitsValue(n, width);
  }

  lemma ReadCharBack(c: char, rest: string)
    ensures ReadChar([c] + rest, c) == Some(rest)
  {
    assert ([c] + rest)[1..] == rest;
  }

  /** A number followed by a separator. */
  function ReadField(s: string, width: nat, separator: char): Option<(nat, string)> {
    match ReadDigits(s, width)
    case None => None
    case Some((n, rest)) =>
      match ReadChar(rest, separator)
      case None => None
      case Some(more) => Some((n, more))
  }

  function PrintField(n: nat, width: nat, separator: char, rest: string): string {
    Digits(n, width) + ([separator] + rest)
  }

  lemma ReadFieldBack(n: nat, width: nat, separator: char, rest: string)
    requires n < Power(width)
    ensures ReadField(PrintField(n, width, separator, rest), width, separator) == Some((n, rest))
  {
    ReadDigitsBack(n, width, [separator] + rest);
    ReadCharBack(separator, rest);
    hide ReadDigits, ReadChar, Digits;
  }

  // ---------- years ----------

  function YearText(year: nat): (s: string)
    ensures Decimal.AllDigits(s)
  {
    if year < 10_000 then Digits(year, 4) else Decimal.Print(year)
  }

  function FirstDash(s: string): (k: nat)
    ensures k <= |s|
  {
    if s == "" || s[0] == '-' then 0 else 1 + FirstDash(s[1..])
  }

  /** A year of at least four digits, up to the dash. */
  function ReadYear(s: string): Option<(nat, string)> {
    var k := FirstDash(s);
    if k < 4 || k == |s| || !Decimal.AllDigits(s[..k]) then None else Some((Decimal.Value(s[..k]), s[k + 1..]))
  }

  lemma {:induction false} DashAfterDigits(digits: string, rest: string)
    requires Decimal.AllDigits(digits)
    ensures FirstDash(digits + ("-" + rest)) == |digits|
  {
    if digits == "" {
      assert digits + ("-" + rest) == "-" + rest;
    } else {
      assert (digits + ("-" + rest))[1..] == digits[1..] + ("-" + rest);
      DashAfterDigits(digits[1..], rest);
    }
  }

  lemma YearTextValue(year: nat)
    ensures |YearText(year)| >= 4 && Decimal.Value(YearText(year)) == year
  {
    if year < 10_000 {
      assert Power(4) == 10_000;
      DigitsValue(year, 4);
    } else {
      Decimal.ParsePrint(year);
      assert |Decimal.Print(year / 100)| >= 2;
    }
  }

  lemma ReadYearBack(year: nat, rest: string)
    ensures ReadYear(YearText(year) + ("-" + rest)) == Some((year, rest))
  {
    var text := YearText(year);
    var s := text + ("-" + rest);
    YearTextValue(year);
    DashAfterDigits(text, rest);
    assert s[..|text|] == text && s[|text| + 1..] == rest;
    hide YearText;
  }

  // ---------- moments ----------

  const UTC_OFFSET := "+00:00"

  function PrintFields(f: Fields): string {
    YearText(f.date.year) + ("-" + PrintField(
      f.date.month, 2, '-', PrintField(
        f.date.day, 2, 'T', PrintField(
          f.hour, 2, ':', PrintField(
            f.minute, 2, ':', PrintSecond(f.second, f.micro))))))
  }

  /** Microseconds are printed only when there are some. */
  function PrintSecond(second: nat, micro: nat): string {
    if micro == 0 then Digits(second, 2) + UTC_OFFSET else PrintField(second, 2, '.', Digits(micro, 6) + UTC_OFFSET)
  }

  function ReadSecond(s: string): Option<(nat, nat)> {
    match ReadDigits(s, 2)
    case None => None
    case Some((second, rest)) =>
      if rest == UTC_OFFSET then Some((second, 0)) else
      match ReadChar(rest, '.')
      case None => None
      case Some(more) =>
        match ReadDigits(more, 6)
        case None => None
        case Some((micro, offset)) => if offset == UTC_OFFSET then Some((second, micro)) else None
  }

  lemma ReadSecondBack(second: nat, micro: nat)
    requires second < 60 && micro < 1_000_000
    ensures ReadSecond(PrintSecond(second, micro)) == Some((second, micro))
  {
    assert Power(2) == 100 && Power(4) == 10_000 && Power(6) == 1_000_000;
    if micro == 0 {
      ReadDigitsBack(second, 2, UTC_OFFSET);
    } else {
      var more := Digits(micro, 6) + UTC_OFFSET;
      assert ("." + more)[0] == '.' && UTC_OFFSET[0] == '+';
      ReadDigitsBack(second, 2, "." + more);
      ReadCharBack('.', more);
      ReadDigitsBack(micro, 6, UTC_OFFSET);
    }
    hide ReadDigits, ReadChar, Digits, Power;
  }

  function Print(t: nat): string {
    PrintFields(FieldsOf(t))
  }

  /** The form `isoformat` prints; other forms of ISO 8601 are not read. */
  function ReadFields(s: string): Option<Fields> {
    match ReadYear(s)
    case None => None
    case Some((year, s1)) =>
      match ReadField(s1, 2, '-')
      case None => None
      case Some((month, s2)) =>
        match ReadField(s2, 2, 'T')
        case None => None
        case Some((day, s3)) =>
          match ReadField(s3, 2, ':')
          case None => None
          case Some((hour, s4)) =>
            match ReadField(s4, 2, ':')
            case None => None
            case Some((minute, s5)) =>
              match ReadSecond(s5)
              case None => None
              case Some((second, micro)) => Some(Fields(Date(year, month, day), hour, minute, second, micro))
  }

  /** A text whose fields are out of range is refused. */
  function Parse(s: string): Option<nat> {
    match ReadFields(s)
    case None => None
    case Some(f) => if ValidFields(f) then Some(MicrosOf(f)) else None
  }

  lemma ReadFieldsBack(f: Fields)
    requires ValidFields(f)
    ensures ReadFields(PrintFields(f)) == Some(f)
  {
    assert Power(2) == 100;
    MonthHasAtMost31(f.date.year, f.date.month);
    hide ReadField, PrintField, Power, ReadSecond, PrintSecond, ReadYear, YearText, MonthLength;
    ReadSecondBack(f.second, f.micro);
    var s5 := PrintSecond(f.second, f.micro);
    ReadFieldBack(f.minute, 2, ':', s5);
    var s4 := PrintField(f.minute, 2, ':', s5);
    ReadFieldBack(f.hour, 2, ':', s4);
    var s3 := PrintField(f.hour, 2, ':', s4);
    ReadFieldBack(f.date.day, 2, 'T', s3);
    var s2 := PrintField(f.date.day, 2, 'T', s3);
    ReadFieldBack(f.date.month, 2, '-', s2);
    ReadYearBack(f.date.year, PrintField(f.date.month, 2, '-', s2));
  }

  lemma MonthHasAtMost31(year: nat, month: nat)
    requires 1 <= month <= 12
    ensures MonthLength(year, month) <= 31
  {
  }

  /** Every moment is read back from its text. */
  lemma ParsePrint(t: nat)
    ensures Parse(Print(t)) == Some(t) && Print(t) != ""
  {
    ReadFieldsBack(FieldsOf(t));
    hide ReadFields, PrintFields, FieldsOf, MicrosOf, ValidFields;
    assert ReadFields(Print(t)) == Some(FieldsOf(t));
  }

  /** The text of a moment: its date, the letter T, its time of day, with six decimals if it has microseconds, and the
      offset of UTC. */
  lemma PrintExactly(t: nat) returns (f: Fields)
    ensures ValidDate(f.date) && f.hour < 24 && f.minute < 60 && f.second < 60 && f.micro < 1_000_000
    ensures t == Ordinal(f.date) * 86_400_000_000 + f.hour * 3_600_000_000 + f.minute * 60_000_000
                 + f.second * 1_000_000 + f.micro
    ensures Print(t) ==
            (if f.date.year < 10_000 then Digits(f.date.year, 4) else Decimal.Print(f.date.year))
            + "-" + Digits(f.date.month, 2) + "-" + Digits(f.date.day, 2)
            + "T" + Digits(f.hour, 2) + ":" + Digits(f.minute, 2) + ":" + Digits(f.second, 2)
            + (if f.micro == 0 then "" else "." + Digits(f.micro, 6)) + "+00:00"
  {
    f := FieldsOf(t);
    hide FieldsOf, Digits, Ordinal, ValidDate, PrintSecond;
    SecondText(f.second, f.micro);
    Joined(YearText(f.date.year), Digits(f.date.month, 2), Digits(f.date.day, 2), Digits(f.hour, 2),
           Digits(f.minute, 2), Digits(f.second, 2), if f.micro == 0 then "" else "." + Digits(f.micro, 6));
  }

  lemma SecondText(second: nat, micro: nat)
    ensures PrintSecond(second, micro) ==
            Digits(second, 2) + ((if micro == 0 then "" else "." + Digits(micro, 6)) + "+00:00")
  {
    hide Digits;
    assert UTC_OFFSET == "+00:00";
    assert "" + UTC_OFFSET == UTC_OFFSET;
  }

  lemma Joined(y: string, mo: string, d: string, h: string, mi: string, sec: string, micros: string)
    ensures y + ("-" + (mo + (['-'] + (d + (['T'] + (h + ([':'] + (mi + ([':'] + (sec + (micros + "+00:00"))))))))))) ==
            y + "-" + mo + "-" + d + "T" + h + ":" + mi + ":" + sec + micros + "+00:00"
  {
    assert ['-'] == "-" && ['T'] == "T" && [':'] == ":";
  }

  /** Fixed-width numbers are filled with zeros in front. */
  lemma DigitsExamples()
    ensures Digits(7, 2) == "07" && Digits(59, 2) == "59" && Digits(2026, 4) == "2026" && Digits(40, 6) == "000040"
  {
  }
}
