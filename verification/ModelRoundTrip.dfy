/** The answer format the model is asked for is read back exactly: validated outputs, written as any JSON text of their
    array inside bracket-free prose, parse to themselves. */
module ModelRoundTrip {
  import opened Common
  import opened ModerationPolicy
  import opened ModelDocument
  import opened ModelOutput
  import Json
  import opened JsonGrammar
  import opened JsonPrinter

  // ---------- outputs as JSON ----------

  /** The category list in its declared order. */
  function Categories(): seq<Category> {
    [Safe, Suggestive, Nudity, Porn, Gore, Violence, SelfHarm, HateOrExtremism, Drugs, Unknown, SexualMinorContent]
  }

  lemma EveryCategory(c: Category)
    ensures c in Categories()
  {
    var k := match c
      case Safe => 0 case Suggestive => 1 case Nudity => 2 case Porn => 3 case Gore => 4 case Violence => 5
      case SelfHarm => 6 case HateOrExtremism => 7 case Drugs => 8 case Unknown => 9 case SexualMinorContent => 10;
    assert Categories()[k] == c;
  }

  lemma CategoriesDistinct()
    ensures forall i, k :: 0 <= i < k < |Categories()| ==> Categories()[i] != Categories()[k]
  {
  }

  lemma CategoryRoundTrip(c: Category)
    ensures CategoryOf(CategoryName(c)) == Some(c)
  {
  }

  function ScoreMembers(cs: seq<Category>, scores: Scores): seq<Json.Member>
    requires forall c :: c in cs ==> c in scores
  {
    seq(|cs|, i requires 0 <= i < |cs| => Json.Member(CategoryName(cs[i]), Json.Int(scores[cs[i]])))
  }

  function FrameJson(o: FrameOutput): Json.Value
    requires ValidScores(o.categories)
  {
    Json.Obj([
      Json.Member("frame_index", Json.Int(o.frameIndex)),
      Json.Member("top_category", Json.Str(CategoryName(o.topCategory))),
      Json.Member("categories", Json.Obj(ScoreMembers(Categories(), o.categories))),
      Json.Member("reason", Json.Str(o.reason))])
  }

  function AnswerJson(outputs: seq<FrameOutput>): Json.Value
    requires forall i :: 0 <= i < |outputs| ==> ValidScores(outputs[i].categories)
  {
    Json.Arr(seq(|outputs|, i requires 0 <= i < |outputs| => FrameJson(outputs[i])))
  }

  // ---------- validation undoes it ----------

  function Restrict(cs: seq<Category>, scores: Scores): Scores
    requires forall c :: c in cs ==> c in scores
  {
    map c | c in cs :: scores[c]
  }

  lemma RestrictStep(cs: seq<Category>, scores: Scores)
    requires cs != [] && forall c :: c in cs ==> c in scores
    ensures Restrict(cs, scores) == Restrict(cs[..|cs| - 1], scores)[cs[|cs| - 1] := scores[cs[|cs| - 1]]]
  {
    assert cs == cs[..|cs| - 1] + [cs[|cs| - 1]];
  }

  lemma {:induction false} ScoresBack(cs: seq<Category>, scores: Scores)
    requires forall c :: c in cs ==> c in scores && 0 <= scores[c] <= 5
    ensures ScoresOf(ScoreMembers(cs, scores)) == Some(Restrict(cs, scores))
  {
    hide ScoresOf, Restrict, CategoryOf, CategoryName;
    if cs == [] {
      NoScores(scores);
    } else {
      var n := |cs| - 1;
      assert forall c :: c in cs[..n] ==> c in cs;
      ScoresBack(cs[..n], scores);
      var members := ScoreMembers(cs, scores);
      assert members[..n] == ScoreMembers(cs[..n], scores);
      assert cs[n] in cs;
      CategoryRoundTrip(cs[n]);
      ScoresStep(members);
      RestrictStep(cs, scores);
    }
  }

  lemma NoScores(scores: Scores)
    ensures ScoresOf(ScoreMembers([], scores)) == Some(Restrict([], scores))
  {
    assert Restrict([], scores) == map[];
  }

  lemma ScoresStep(members: seq<Json.Member>)
    requires members != []
    ensures ScoresOf(members) ==
            (match (ScoresOf(members[..|members| - 1]), CategoryOf(members[|members| - 1].key),
                LaxInt(members[|members| - 1].value))
             case (Some(before), Some(c), Some(n)) => if 0 <= n <= 5 then Some(before[c := n]) else None
             case _ => None)
  {
  }

  lemma AllScoresBack(scores: Scores)
    requires ValidScores(scores)
    ensures ScoresOf(ScoreMembers(Categories(), scores)) == Some(scores)
  {
    hide Categories, ScoresOf, ScoreMembers;
    ScoresBack(Categories(), scores);
    forall c: Category
      ensures c in Categories()
    {
      EveryCategory(c);
    }
    assert Restrict(Categories(), scores) == scores;
  }

  lemma FieldsOfFrame(o: FrameOutput)
    requires ValidScores(o.categories)
    ensures var v := FrameJson(o);
            && Field(v, "frame_index") == Some(Json.Int(o.frameIndex))
            && Field(v, "top_category") == Some(Json.Str(CategoryName(o.topCategory)))
            && Field(v, "categories") == Some(Json.Obj(ScoreMembers(Categories(), o.categories)))
            && Field(v, "reason") == Some(Json.Str(o.reason))
  {
    hide CategoryName, ScoreMembers, Categories;
    var members := FrameJson(o).members;
    assert members[1..][0].key == "top_category" && members[2..][0].key == "categories"
        && members[3..][0].key == "reason";
    MemberUnfold(members, "frame_index");
    MemberUnfold(members, "top_category");
    MemberUnfold(members, "categories");
    MemberUnfold(members, "reason");
    MemberUnfold(members[1..], "top_category");
    MemberUnfold(members[1..], "categories");
    MemberUnfold(members[1..], "reason");
    MemberUnfold(members[2..], "categories");
    MemberUnfold(members[2..], "reason");
    MemberUnfold(members[3..], "reason");
    assert members[1..][1..] == members[2..] && members[2..][1..] == members[3..];
    hide Member;
  }

  lemma MemberUnfold(members: seq<Json.Member>, key: string)
    requires members != []
    ensures Member(members, key) == if members[0].key == key then Some(members[0].value) else Member(members[1..], key)
  {
  }

  /** Validating the printed form of a valid output gives it back. */
  lemma FrameBack(o: FrameOutput)
    requires ValidOutput(o)
    ensures ValidateFrame(FrameJson(o)) == Some(o)
  {
    FieldsOfFrame(o);
    AllScoresBack(o.categories);
    CategoryRoundTrip(o.topCategory);
    hide Field, FrameJson, CategoryName, CategoryOf, ScoresOf, ScoreMembers, Categories, TopMatches, ValidScores;
  }

  /** Valid and numbered from zero, as a batch is. */
  predicate ValidBatch(outputs: seq<FrameOutput>) {
    forall i :: 0 <= i < |outputs| ==> ValidOutput(outputs[i]) && outputs[i].frameIndex == i
  }

  lemma AnswersItself(outputs: seq<FrameOutput>)
    requires ValidBatch(outputs)
    ensures Answers(AnswerJson(outputs), |outputs|, outputs)
  {
    hide FrameJson, ValidateFrame, ValidScores, TopMatches, FrameFrom, Has;
    var items := AnswerJson(outputs).items;
    forall i | 0 <= i < |outputs|
      ensures FrameFrom(items[i], outputs[i])
    {
      FrameBack(outputs[i]);
      ValidFrameMeans(FrameJson(outputs[i]), outputs[i]);
    }
    assert StandsFor(AnswerJson(outputs), |outputs|, items);
  }

  // ---------- texts ----------

  lemma AnswerIsPlain(outputs: seq<FrameOutput>)
    requires ValidBatch(outputs)
    ensures Plain(AnswerJson(outputs)) && Printable(AnswerJson(outputs))
  {
    hide FrameJson, ValidScores, TopMatches;
    forall i | 0 <= i < |outputs|
      ensures Plain(FrameJson(outputs[i])) && Printable(FrameJson(outputs[i]))
    {
      FrameIsPlain(outputs[i]);
    }
  }

  lemma FrameIsPlain(o: FrameOutput)
    requires ValidScores(o.categories)
    ensures Plain(FrameJson(o)) && Printable(FrameJson(o))
  {
    ScoresPlain(o.categories);
    hide CategoryName, ScoreMembers, Categories;
    var members := FrameJson(o).members;
    assert members[0].key[0] == 'f' && members[1].key[0] == 't' && members[2].key[0] == 'c' && members[3].key[0] == 'r';
    assert DistinctKeys(members);
  }

  lemma ScoresPlain(scores: Scores)
    requires ValidScores(scores)
    ensures var v := Json.Obj(ScoreMembers(Categories(), scores)); Plain(v) && Printable(v)
  {
    CategoriesDistinct();
    hide CategoryName, Categories;
    var cs := Categories();
    var members := ScoreMembers(cs, scores);
    forall i, k | 0 <= i < k < |members|
      ensures members[i].key != members[k].key
    {
      CategoryRoundTrip(cs[i]);
      CategoryRoundTrip(cs[k]);
    }
  }

  // ---------- white space around the text ----------

  lemma {:induction false} StripLeftStops(before: string, rest: string, drop: char -> bool)
    requires rest != "" && !drop(rest[0])
    ensures StripLeft(before + rest, drop) == StripLeft(before, drop) + rest
  {
    if before == "" {
      assert before + rest == rest;
    } else if drop(before[0]) {
      assert (before + rest)[1..] == before[1..] + rest;
      StripLeftStops(before[1..], rest, drop);
    }
  }

  lemma {:induction false} StripRightStops(rest: string, after: string)
    requires rest != "" && !IsBlank(rest[|rest| - 1])
    ensures StripRight(rest + after) == rest + StripRight(after)
  {
    if after == "" {
      assert rest + after == rest;
    } else if IsBlank(after[|after| - 1]) {
      assert (rest + after)[..|rest + after| - 1] == rest + after[..|after| - 1];
      StripRightStops(rest, after[..|after| - 1]);
    }
  }

  lemma {:induction false} StripLeftSuffix(s: string, drop: char -> bool)
    requires BracketFree(s)
    ensures BracketFree(StripLeft(s, drop))
  {
    if s != "" && drop(s[0]) {
      StripLeftSuffix(s[1..], drop);
    }
  }

  lemma {:induction false} StripRightPrefix(s: string)
    requires BracketFree(s)
    ensures BracketFree(StripRight(s))
  {
    if s != "" && IsBlank(s[|s| - 1]) {
      StripRightPrefix(s[..|s| - 1]);
    }
  }

  lemma {:induction false} ItemsEnd(items: seq<Json.Value>, t: string)
    requires ItemsText(items, t)
    ensures t != "" && t[|t| - 1] == ']'
    decreases items
  {
    hide ValueText, White;
    if |items| > 1 {
      var first, w1, w2, rest :| t == first + w1 + "," + w2 + rest
        && ValueText(items[0], first) && White(w1) && White(w2) && ItemsText(items[1..], rest);
      ItemsEnd(items[1..], rest);
    }
  }

  lemma ArrayEnds(items: seq<Json.Value>, t: string)
    requires ValueText(Json.Arr(items), t)
    ensures |t| >= 2 && t[0] == '[' && t[|t| - 1] == ']'
  {
    hide ItemsText, White;
    var w, body :| t == "[" + w + body && White(w) && ItemsText(items, body);
    ItemsEnd(items, body);
  }

  /** Stripping the text of a document in prose strips the prose. */
  lemma CandidateOfProse(before: string, doc: string, after: string) returns (b: string, a: string)
    requires BracketFree(before) && BracketFree(after)
    requires |doc| >= 2 && doc[0] == '[' && doc[|doc| - 1] == ']'
    ensures Candidate(before + doc + after) == b + doc + a && BracketFree(b) && BracketFree(a)
    ensures before == "" ==> b == ""
    ensures after == "" ==> a == ""
  {
    var raw := before + doc + after;
    var rest := doc + after;
    assert raw == before + rest && rest[0] == '[';
    StripLeftStops(before, rest, DropMark());
    StripLeftSuffix(before, DropMark());
    var b1 := StripLeft(before, DropMark());
    StripLeftStops(b1, rest, DropBlank());
    StripLeftSuffix(b1, DropBlank());
    b := StripLeft(b1, DropBlank());
    assert (b + doc)[|b + doc| - 1] == ']';
    StripRightStops(b + doc, after);
    StripRightPrefix(after);
    a := StripRight(after);
    assert b + rest == b + doc + after;
    assert Candidate(raw) == StripRight(StripLeft(StripLeft(raw, DropMark()), DropBlank()));
  }

  /** Valid outputs, written as any JSON text of their array and put into bracket-free prose, are read back exactly,
      unless the whole text happens to be a JSON value itself; alone they always are. */
  lemma OutputsReadBack(before: string, outputs: seq<FrameOutput>, doc: string, after: string)
    requires BracketFree(before) && BracketFree(after) && ValidBatch(outputs) && ValueText(AnswerJson(outputs), doc)
    ensures (forall v :: !JsonText(Candidate(before + doc + after), v)) || (before == "" && after == "") ==>
              Reads(before + doc + after, |outputs|, outputs)
  {
    hide Candidate, ValueText, Plain, Printable, ValidScores, TopMatches, AnswerJson, Answers, SingleDocument, JsonText;
    var v, raw := AnswerJson(outputs), before + doc + after;
    AnswerIsPlain(outputs);
    PlainIsKept(v);
    assert v.Arr? by {
      AnswerIsArray(outputs);
    }
    ArrayEnds(v.items, doc);
    var b, a := CandidateOfProse(before, doc, after);
    ProseAroundDocument(b, v, doc, a);
    AnswersItself(outputs);
    if before == "" && after == "" {
      assert b + doc + a == doc;
      TextAlone(v, doc);
    }
  }

  lemma AnswerIsArray(outputs: seq<FrameOutput>)
    requires ValidBatch(outputs)
    ensures AnswerJson(outputs).Arr?
  {
  }

  lemma TextAlone(v: Json.Value, t: string)
    requires ValueText(v, t) && Collapsed(v) == v
    ensures JsonText(t, v)
  {
    hide ValueText, Collapsed;
    assert t == "" + t + "" && White("");
  }

  /** In particular as `json.dumps` writes them, with a blank after each comma and colon, or with any other white space
      there. */
  lemma PrintedReadBack(outputs: seq<FrameOutput>, w: string)
    requires ValidBatch(outputs) && forall c :: c in w ==> c in {' ', '\t', '\n', '\r'}
    ensures Reads(Print(AnswerJson(outputs), w), |outputs|, outputs)
  {
    hide Candidate, Plain, Printable, ValidScores, TopMatches, AnswerJson, Print;
    AnswerIsPlain(outputs);
    assert White(w) by {
      assert forall i :: 0 <= i < |w| ==> w[i] in w;
    }
    PrintWrites(AnswerJson(outputs), w);
    var doc := Print(AnswerJson(outputs), w);
    OutputsReadBack("", outputs, doc, "");
    assert "" + doc + "" == doc;
  }
}
