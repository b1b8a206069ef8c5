/** The JSON document in the raw text of a model answer. */
module ModelDocument {
  import opened Common
  import Json
  import opened JsonGrammar
  import opened JsonDecoding

  /** Position of the first bracket at or after `start`, or the length of the text. */
  function NextBracket(text: string, start: nat): (p: nat)
    requires start <= |text|
    ensures start <= p <= |text|
    ensures forall i :: start <= i < p ==> text[i] !in {'{', '['}
    ensures p < |text| ==> text[p] in {'{', '['}
    decreases |text| - start
  {
    if start == |text| || text[start] in {'{', '['} then start else NextBracket(text, start + 1)
  }

  predicate BracketAt(text: string, i: nat) {
    i < |text| && text[i] in {'{', '['}
  }

  /** Some array or object starts at this bracket. */
  ghost predicate StartsAt(text: string, i: nat) {
    BracketAt(text, i) && exists v, end :: JsonAt(text, i, v, end)
  }

  /** The document stands at the first bracket, and no other one starts at a bracket after its end. */
  ghost predicate DocumentAt(text: string, start: nat, v: Json.Value, end: nat) {
    && BracketAt(text, start) && (forall i :: 0 <= i < start ==> !BracketAt(text, i))
    && JsonAt(text, start, v, end)
    && forall i :: end <= i < |text| ==> !StartsAt(text, i)
  }

  ghost predicate SingleDocument(text: string, v: Json.Value) {
    exists start, end :: DocumentAt(text, start, v, end)
  }

  lemma DecodesExactly(text: string, i: nat)
    requires BracketAt(text, i)
    ensures Json.RawDecode(text, i).Some? <==> StartsAt(text, i)
    ensures forall v: Json.Value, end: nat :: JsonAt(text, i, v, end) <==> Json.RawDecode(text, i) == Some((v, end))
  {
    hide Json.RawDecode, JsonAt;
    forall v: Json.Value, end: nat
      ensures JsonAt(text, i, v, end) <==> Json.RawDecode(text, i) == Some((v, end))
    {
      RawDecodeExactly(text, i, v, end);
    }
    if Json.RawDecode(text, i).Some? {
      assert JsonAt(text, i, Json.RawDecode(text, i).value.0, Json.RawDecode(text, i).value.1);
    }
  }

  /** The scan of the source: decode at the first bracket, then look for a second document after it. A bracket at which
      nothing decodes is skipped by one character. */
  method ExtractSingleJsonDocument(text: string) returns (found: Option<Json.Value>)
    ensures found.Some? ==> SingleDocument(text, found.value)
    ensures found.None? ==> forall v :: !SingleDocument(text, v)
  {
    hide Json.RawDecode, NextBracket, JsonAt, StartsAt;
    var start := NextBracket(text, 0);
    if start == |text| {
      return None;
    }
    DecodesExactly(text, start);
    var first := Json.RawDecode(text, start);
    if first.None? {
      return None;
    }
    var cursor := first.value.1;
    var next := NextBracket(text, cursor);
    while next < |text|
      invariant first.value.1 <= cursor <= next <= |text| && next == NextBracket(text, cursor)
      invariant forall i :: first.value.1 <= i < cursor ==> !StartsAt(text, i)
      decreases |text| - cursor
    {
      DecodesExactly(text, next);
      if Json.RawDecode(text, next).Some? {
        return None;
      }
      OnlyBracketsStart(text, cursor, next);
      cursor := next + 1;
      next := NextBracket(text, cursor);
    }
    OnlyBracketsStart(text, cursor, |text|);
    assert DocumentAt(text, start, first.value.0, first.value.1);
    return Some(first.value.0);
  }

  lemma OnlyBracketsStart(text: string, from: nat, to: nat)
    requires from <= to <= |text| && forall i :: from <= i < to ==> text[i] !in {'{', '['}
    ensures forall i :: from <= i < to ==> !StartsAt(text, i)
  {
  }

  predicate BracketFree(s: string) {
    forall i :: 0 <= i < |s| ==> s[i] !in {'{', '['}
  }

  /** Prose without brackets around one array or object yields exactly that document. */
  lemma ProseAroundDocument(before: string, written: Json.Value, doc: string, after: string)
    requires BracketFree(before) && BracketFree(after)
    requires ValueText(written, doc) && (written.Arr? || written.Obj?)
    ensures SingleDocument(before + doc + after, Collapsed(written))
  {
    var text, start, end := before + doc + after, |before|, |before| + |doc|;
    DocumentHead(written, doc);
    hide ValueText, StartsAt;
    assert text[start..end] == doc && text[start] == doc[0];
    assert forall i :: 0 <= i < start ==> text[i] == before[i];
    assert forall i :: end <= i < |text| ==> text[i] == after[i - end];
    OnlyBracketsStart(text, end, |text|);
    assert DocumentAt(text, start, Collapsed(written), end);
  }

  lemma DocumentHead(v: Json.Value, t: string)
    requires ValueText(v, t) && (v.Arr? || v.Obj?)
    ensures t != "" && t[0] in {'[', '{'}
  {
    hide ItemsText, MembersText;
  }

  /** What Python's `str.strip` removes. */
  predicate IsBlank(c: char) {
    var n := c as int;
    9 <= n <= 13 || 28 <= n <= 32 || n == 0x85 || n == 0xA0 || n == 0x1680 || 0x2000 <= n <= 0x200A
    || n == 0x2028 || n == 0x2029 || n == 0x202F || n == 0x205F || n == 0x3000
  }

  const BYTE_ORDER_MARK := '\U{FEFF}'

  function StripLeft(s: string, drop: char -> bool): string {
    if s != "" && drop(s[0]) then StripLeft(s[1..], drop) else s
  }

  function StripRight(s: string): string {
    if s != "" && IsBlank(s[|s| - 1]) then StripRight(s[..|s| - 1]) else s
  }

  function Candidate(raw: string): string {
    StripRight(StripLeft(StripLeft(raw, DropMark()), DropBlank()))
  }

  function DropMark(): char -> bool {
    c => c == BYTE_ORDER_MARK
  }

  function DropBlank(): char -> bool {
    c => IsBlank(c)
  }

  lemma {:induction false} StripLeftParts(s: string, drop: char -> bool) returns (front: string)
    ensures s == front + StripLeft(s, drop) && forall i :: 0 <= i < |front| ==> drop(front[i])
    ensures StripLeft(s, drop) == "" || !drop(StripLeft(s, drop)[0])
  {
    front := "";
    if s != "" && drop(s[0]) {
      var more := StripLeftParts(s[1..], drop);
      front := [s[0]] + more;
      assert s == [s[0]] + s[1..];
    }
  }

  lemma {:induction false} StripRightParts(s: string) returns (back: string)
    ensures s == StripRight(s) + back && forall i :: 0 <= i < |back| ==> IsBlank(back[i])
    ensures StripRight(s) == "" || !IsBlank(StripRight(s)[|StripRight(s)| - 1])
  {
    hide IsBlank;
    back := "";
    if s != "" && IsBlank(s[|s| - 1]) {
      var init, last := s[..|s| - 1], s[|s| - 1];
      var more := StripRightParts(init);
      back := more + [last];
      assert s == init + [last];
      assert StripRight(s) == StripRight(init);
      hide StripRight;
    }
  }

  lemma CodesOfBlanks(c: char)
    ensures IsBlank(c) <==>
            c as int in {9, 10, 11, 12, 13, 28, 29, 30, 31, 32, 0x85, 0xA0, 0x1680, 0x2000, 0x2001, 0x2002, 0x2003,
                         0x2004, 0x2005, 0x2006, 0x2007, 0x2008, 0x2009, 0x200A, 0x2028, 0x2029, 0x202F, 0x205F,
                         0x3000}
  {
  }

  /** Byte order marks are dropped in front, then blanks on both sides, and nothing else. */
  lemma CandidateParts(raw: string) returns (marks: string, left: string, right: string)
    ensures raw == marks + left + Candidate(raw) + right
    ensures (forall c :: c in marks ==> c == '\U{FEFF}') && forall c :: c in left + right ==> IsBlank(c)
    ensures var text := Candidate(raw); text == "" || (!IsBlank(text[0]) && !IsBlank(text[|text| - 1]))
    ensures var text := left + Candidate(raw); text == "" || text[0] != '\U{FEFF}'
  {
    marks := StripLeftParts(raw, DropMark());
    var s1 := StripLeft(raw, DropMark());
    left := StripLeftParts(s1, DropBlank());
    var s2 := StripLeft(s1, DropBlank());
    right := StripRightParts(s2);
    hide StripLeft, StripRight, IsBlank;
    assert s1 == left + (Candidate(raw) + right);
    assert raw == marks + left + Candidate(raw) + right;
    if Candidate(raw) != "" {
      assert s2[0] == Candidate(raw)[0];
    }
    if left + Candidate(raw) != "" {
      assert s1[0] == (left + Candidate(raw))[0];
    }
  }

  /** The document of an answer: the whole text as JSON, or else the one document embedded in it. */
  ghost predicate DocumentOf(raw: string, v: Json.Value) {
    var text := Candidate(raw);
    JsonText(text, v) || ((forall w :: !JsonText(text, w)) && SingleDocument(text, v))
  }

  /** Without a document the source raises its invalid-JSON error. */
  method LoadModelJson(raw: string) returns (r: Option<Json.Value>)
    ensures r.Some? ==> DocumentOf(raw, r.value)
    ensures r.None? ==> forall v :: !DocumentOf(raw, v)
  {
    hide Candidate, Json.Loads, JsonText, SingleDocument;
    var text := Candidate(raw);
    forall v
      ensures Json.Loads(text) == Some(v) <==> JsonText(text, v)
    {
      LoadsExactly(text, v);
    }
    match Json.Loads(text) {
      case Some(v) => r := Some(v);
      case None => r := ExtractSingleJsonDocument(text);
    }
  }

  /** An answer stands for at most one document. */
  lemma DocumentIsUnique(raw: string, v: Json.Value, w: Json.Value)
    requires DocumentOf(raw, v) && DocumentOf(raw, w)
    ensures v == w
  {
    hide Candidate, Json.Loads, JsonText, SingleDocument;
    var text := Candidate(raw);
    LoadsExactly(text, v);
    LoadsExactly(text, w);
    if !JsonText(text, v) {
      SingleIsUnique(text, v, w);
    }
  }

  lemma SingleIsUnique(text: string, v: Json.Value, w: Json.Value)
    requires SingleDocument(text, v) && SingleDocument(text, w)
    ensures v == w
  {
    hide JsonAt, StartsAt, Json.RawDecode;
    var i, m :| DocumentAt(text, i, v, m);
    var k, n :| DocumentAt(text, k, w, n);
    assert i == k;
    DecodesExactly(text, i);
  }
}
