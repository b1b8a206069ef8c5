/** From the raw text of a model answer to validated frame outputs. */
module ModelOutput {
  import opened Common
  import opened ModerationPolicy
  import opened ModelDocument
  import Json

  /** The position in the last two is that of the offending frame. */
  datatype ModelError = InvalidJson | NotAnArray | WrongCount | InvalidFrame(index: nat) | OutOfOrder(index: nat)

  // ---------- validating frames ----------

  function CategoryName(c: Category): string {
    match c
    case Safe => "safe"
    case Suggestive => "suggestive"
    case Nudity => "nudity"
    case Porn => "porn"
    case Gore => "gore"
    case Violence => "violence"
    case SelfHarm => "self_harm"
    case HateOrExtremism => "hate_or_extremism"
    case Drugs => "drugs"
    case Unknown => "unknown"
    case SexualMinorContent => "sexual_minor_content"
  }

  function CategoryOf(name: string): Option<Category> {
    if name == "safe" then Some(Safe)
    else if name == "suggestive" then Some(Suggestive)
    else if name == "nudity" then Some(Nudity)
    else if name == "porn" then Some(Porn)
    else if name == "gore" then Some(Gore)
    else if name == "violence" then Some(Violence)
    else if name == "self_harm" then Some(SelfHarm)
    else if name == "hate_or_extremism" then Some(HateOrExtremism)
    else if name == "drugs" then Some(Drugs)
    else if name == "unknown" then Some(Unknown)
    else if name == "sexual_minor_content" then Some(SexualMinorContent)
    else None
  }

  function Field(v: Json.Value, key: string): Option<Json.Value> {
    if v.Obj? then Member(v.members, key) else None
  }

  function Member(members: seq<Json.Member>, key: string): Option<Json.Value> {
    if members == [] then None
    else if members[0].key == key then Some(members[0].value)
    else Member(members[1..], key)
  }

  /** Integers, and booleans as 0 and 1: what the schema's lax integer fields accept. */
  function LaxInt(v: Json.Value): Option<int> {
    match v
    case Int(n) => Some(n)
    case Bool(b) => Some(if b then 1 else 0)
    case _ => None
  }

  /** The score map of a categories object: every member a known category with a severity of 0 to 5. */
  function ScoresOf(members: seq<Json.Member>): (r: Option<Scores>)
    ensures r.Some? ==> forall c :: c in r.value ==> 0 <= r.value[c] <= 5
  {
    if members == [] then Some(map[]) else
    var last := members[|members| - 1];
    match (ScoresOf(members[..|members| - 1]), CategoryOf(last.key), LaxInt(last.value))
    case (Some(before), Some(c), Some(n)) => if 0 <= n <= 5 then Some(before[c := n]) else None
    case _ => None
  }

  datatype FrameOutput = FrameOutput(frameIndex: nat, topCategory: Category, categories: Scores, reason: string)

  /** `FrameModerationOutput.model_validate`: field types, exactly the eleven categories in range, a consistent top
      category, a non-negative index. */
  function ValidateFrame(item: Json.Value): Option<FrameOutput> {
    match (Field(item, "top_category"), Field(item, "categories"), Field(item, "reason"), Field(item, "frame_index"))
    case (Some(Str(top)), Some(Obj(members)), Some(Str(reason)), Some(index)) =>
      (match (CategoryOf(top), ScoresOf(members), LaxInt(index))
       case (Some(c), Some(scores), Some(i)) =>
         if ValidScores(scores) && TopMatches(c, scores) && i >= 0
         then Some(FrameOutput(i, c, scores, reason)) else None
       case _ => None)
    case _ => None
  }

  /** What validation guarantees. */
  predicate ValidOutput(o: FrameOutput) {
    ValidScores(o.categories) && TopMatches(o.topCategory, o.categories)
  }

  // ---------- what a valid frame is ----------

  predicate Named(c: Category, name: string) {
    || (c == Safe && name == "safe")
    || (c == Suggestive && name == "suggestive")
    || (c == Nudity && name == "nudity")
    || (c == Porn && name == "porn")
    || (c == Gore && name == "gore")
    || (c == Violence && name == "violence")
    || (c == SelfHarm && name == "self_harm")
    || (c == HateOrExtremism && name == "hate_or_extremism")
    || (c == Drugs && name == "drugs")
    || (c == Unknown && name == "unknown")
    || (c == SexualMinorContent && name == "sexual_minor_content")
  }

  /** The first member of this key has this value. */
  predicate Has(members: seq<Json.Member>, key: string, v: Json.Value) {
    exists i ::
      0 <= i < |members| && members[i] == Json.Member(key, v) && forall k :: 0 <= k < i ==> members[k].key != key
  }

  /** The integer, or the boolean as 0 or 1. */
  predicate IsInt(v: Json.Value, n: int) {
    v == Json.Int(n) || (v == Json.Bool(false) && n == 0) || (v == Json.Bool(true) && n == 1)
  }

  /** A category's name with a severity of 0 to 5. */
  ghost predicate Scored(m: Json.Member) {
    exists c, n :: Named(c, m.key) && IsInt(m.value, n) && 0 <= n <= 5
  }

  /** Every member scores a category, and each score is the last one given to its category. */
  ghost predicate ScoresFrom(members: seq<Json.Member>, scores: Scores) {
    && (forall i :: 0 <= i < |members| ==> Scored(members[i]))
    && (forall c :: c in scores <==> exists i :: 0 <= i < |members| && Named(c, members[i].key))
    && (forall c :: c in scores ==> exists i: nat :: LastNamed(members, c, i) && IsInt(members[i].value, scores[c]))
  }

  predicate LastNamed(members: seq<Json.Member>, c: Category, i: nat) {
    i < |members| && Named(c, members[i].key) && forall k :: i < k < |members| ==> !Named(c, members[k].key)
  }

  /** An object with these four fields, whose eleven scores are in range and agree with the top category. */
  ghost predicate FrameFrom(item: Json.Value, o: FrameOutput) {
    && item.Obj? && ValidOutput(o)
    && (exists name :: Has(item.members, "top_category", Json.Str(name)) && Named(o.topCategory, name))
    && (exists scores :: Has(item.members, "categories", Json.Obj(scores)) && ScoresFrom(scores, o.categories))
    && Has(item.members, "reason", Json.Str(o.reason))
    && (exists index :: Has(item.members, "frame_index", index) && IsInt(index, o.frameIndex))
  }

  lemma CategoryMeans(c: Category, name: string)
    ensures CategoryOf(name) == Some(c) <==> Named(c, name)
    ensures Named(c, CategoryName(c))
  {
  }

  lemma IntMeans(v: Json.Value, n: int)
    ensures LaxInt(v) == Some(n) <==> IsInt(v, n)
  {
  }

  lemma HasLater(members: seq<Json.Member>, key: string, v: Json.Value)
    requires members != [] && members[0].key != key
    ensures Has(members, key, v) <==> Has(members[1..], key, v)
  {
    var rest := members[1..];
    if Has(rest, key, v) {
      var i :| 0 <= i < |rest| && rest[i] == Json.Member(key, v) && forall k :: 0 <= k < i ==> rest[k].key != key;
      assert members[i + 1] == Json.Member(key, v);
    }
    if Has(members, key, v) {
      var i :|
        0 <= i < |members| && members[i] == Json.Member(key, v) && forall k :: 0 <= k < i ==> members[k].key != key;
      assert rest[i - 1] == Json.Member(key, v);
    }
  }

  lemma HasFirst(members: seq<Json.Member>, key: string, v: Json.Value)
    requires members != [] && members[0].key == key
    ensures Has(members, key, v) <==> members[0].value == v
  {
    assert members[0].value == v ==> members[0] == Json.Member(key, v);
  }

  lemma {:induction false} MemberMeans(members: seq<Json.Member>, key: string, v: Json.Value)
    ensures Member(members, key) == Some(v) <==> Has(members, key, v)
  {
    if members == [] {
    } else if members[0].key == key {
      HasFirst(members, key, v);
    } else {
      HasLater(members, key, v);
      MemberMeans(members[1..], key, v);
      hide Has;
    }
  }

  lemma MemberScored(m: Json.Member)
    ensures Scored(m) <==> CategoryOf(m.key).Some? && LaxInt(m.value).Some? && 0 <= LaxInt(m.value).value <= 5
  {
    hide Named, IsInt, CategoryOf, LaxInt;
    if Scored(m) {
      var c, n :| Named(c, m.key) && IsInt(m.value, n) && 0 <= n <= 5;
      CategoryMeans(c, m.key);
      IntMeans(m.value, n);
    }
    if CategoryOf(m.key).Some? && LaxInt(m.value).Some? {
      CategoryMeans(CategoryOf(m.key).value, m.key);
      IntMeans(m.value, LaxInt(m.value).value);
    }
  }

  lemma {:induction false} ScoresExist(members: seq<Json.Member>)
    ensures ScoresOf(members).Some? <==> forall i :: 0 <= i < |members| ==> Scored(members[i])
  {
    if members != [] {
      var n := |members| - 1;
      ScoresExist(members[..n]);
      MemberScored(members[n]);
      assert (forall i :: 0 <= i < |members| ==> Scored(members[i])) <==>
             Scored(members[n]) && forall i :: 0 <= i < n ==> Scored(members[..n][i]);
      hide Scored, CategoryOf, LaxInt;
    }
  }

  lemma LastNamedGrows(before: seq<Json.Member>, last: Json.Member, c: Category)
    ensures Named(c, last.key) ==> LastNamed(before + [last], c, |before|)
    ensures forall i: nat :: LastNamed(before, c, i) ==>
              i < |before| && (!Named(c, last.key) ==> LastNamed(before + [last], c, i))
    ensures (exists i :: 0 <= i < |before + [last]| && Named(c, (before + [last])[i].key)) <==>
            Named(c, last.key) || exists i :: 0 <= i < |before| && Named(c, before[i].key)
  {
    hide Named;
    var all := before + [last];
    assert all[|before|] == last && forall i :: 0 <= i < |before| ==> all[i] == before[i];
  }

  /** The scores read are the last ones given. */
  lemma {:induction false} ScoresAt(members: seq<Json.Member>, c: Category)
    requires ScoresOf(members).Some?
    ensures var scores := ScoresOf(members).value;
            && (c in scores <==> exists i :: 0 <= i < |members| && Named(c, members[i].key))
            && (c in scores ==> exists i: nat :: LastNamed(members, c, i) && IsInt(members[i].value, scores[c]))
  {
    hide CategoryOf, Named, LaxInt, IsInt, LastNamed;
    if members != [] {
      var before, last := members[..|members| - 1], members[|members| - 1];
      assert members == before + [last];
      ScoresAt(before, c);
      var d, k := CategoryOf(last.key).value, LaxInt(last.value).value;
      assert ScoresOf(members).value == ScoresOf(before).value[d := k];
      CategoryMeans(c, last.key);
      IntMeans(last.value, k);
      hide ScoresOf;
      LastNamedGrows(before, last, c);
      if c != d && c in ScoresOf(before).value {
        var i: nat :| LastNamed(before, c, i) && IsInt(before[i].value, ScoresOf(before).value[c]);
        assert LastNamed(members, c, i) && members[i] == before[i];
      }
    }
  }

  lemma ScoresMean(members: seq<Json.Member>, scores: Scores)
    ensures ScoresOf(members) == Some(scores) <==> ScoresFrom(members, scores)
  {
    ScoresExist(members);
    hide ScoresOf, Named, IsInt;
    if ScoresOf(members).Some? {
      forall c: Category
        ensures var read := ScoresOf(members).value;
                && (c in read <==> exists i :: 0 <= i < |members| && Named(c, members[i].key))
                && (c in read ==> exists i: nat :: LastNamed(members, c, i) && IsInt(members[i].value, read[c]))
      {
        ScoresAt(members, c);
      }
      assert ScoresFrom(members, ScoresOf(members).value);
      if ScoresFrom(members, scores) {
        ScoresUnique(members, scores, ScoresOf(members).value);
      }
    }
  }

  lemma ScoresUnique(members: seq<Json.Member>, a: Scores, b: Scores)
    requires ScoresFrom(members, a) && ScoresFrom(members, b)
    ensures a == b
  {
    hide Named, IsInt;
    forall c | c in a
      ensures c in b && a[c] == b[c]
    {
      var i: nat :| LastNamed(members, c, i) && IsInt(members[i].value, a[c]);
      assert c in b;
      var k: nat :| LastNamed(members, c, k) && IsInt(members[k].value, b[c]);
      LastIsOne(members, c, i, k);
      OneInt(members[i].value, a[c], b[c]);
    }
  }

  lemma LastIsOne(members: seq<Json.Member>, c: Category, i: nat, k: nat)
    requires LastNamed(members, c, i) && LastNamed(members, c, k)
    ensures i == k
  {
    hide Named;
  }

  lemma OneInt(v: Json.Value, m: int, n: int)
    requires IsInt(v, m) && IsInt(v, n)
    ensures m == n
  {
  }

  /** Validation accepts exactly these items. */
  lemma ValidFrameMeans(item: Json.Value, o: FrameOutput)
    ensures ValidateFrame(item) == Some(o) <==> FrameFrom(item, o)
  {
    hide CategoryOf, ScoresOf, LaxInt, Named, IsInt, ScoresFrom, Member, Has, ValidScores, TopMatches;
    if item.Obj? {
      forall key: string, v: Json.Value
        ensures Member(item.members, key) == Some(v) <==> Has(item.members, key, v)
      {
        MemberMeans(item.members, key, v);
      }
      if FrameFrom(item, o) {
        FrameIsRead(item, o);
      }
      if ValidateFrame(item) == Some(o) {
        ReadIsFrame(item, o);
      }
    }
  }

  /** Its scores are complete and in range, it is called safe exactly when nothing unsafe is present, and otherwise no
      unsafe category exceeds the one it names. */
  lemma ValidOutputExactly(o: FrameOutput)
    ensures ValidOutput(o) <==>
            && (forall c: Category :: c in o.categories && 0 <= o.categories[c] <= 5)
            && (o.topCategory == Safe <==> forall c: Category :: c != Safe ==> o.categories[c] == 0)
            && (o.topCategory != Safe ==>
                  forall c: Category :: c != Safe ==> o.categories[c] <= o.categories[o.topCategory])
  {
    var scores, top := o.categories, o.topCategory;
    if forall c: Category :: c in scores && 0 <= scores[c] <= 5 {
      assert forall c: Category :: Score(scores, c) == scores[c];
      if top != Safe && exists c: Category :: c != Safe && scores[c] != 0 {
        var c :| c != Safe && scores[c] != 0;
        assert scores[c] <= scores[top] ==> scores[top] != 0;
      }
    }
  }

  lemma FrameIsRead(item: Json.Value, o: FrameOutput)
    requires item.Obj? && FrameFrom(item, o)
    requires forall key, v :: Member(item.members, key) == Some(v) <==> Has(item.members, key, v)
    ensures ValidateFrame(item) == Some(o)
  {
    hide CategoryOf, ScoresOf, LaxInt, Named, IsInt, ScoresFrom, Member, Has, ValidScores, TopMatches;
    var name :| Has(item.members, "top_category", Json.Str(name)) && Named(o.topCategory, name);
    var scores :| Has(item.members, "categories", Json.Obj(scores)) && ScoresFrom(scores, o.categories);
    var index :| Has(item.members, "frame_index", index) && IsInt(index, o.frameIndex);
    CategoryMeans(o.topCategory, name);
    ScoresMean(scores, o.categories);
    IntMeans(index, o.frameIndex);
    assert Field(item, "top_category") == Some(Json.Str(name)) && Field(item, "reason") == Some(Json.Str(o.reason));
    assert Field(item, "categories") == Some(Json.Obj(scores)) && Field(item, "frame_index") == Some(index);
    hide Field, FrameFrom;
  }

  lemma ReadIsFrame(item: Json.Value, o: FrameOutput)
    requires item.Obj? && ValidateFrame(item) == Some(o)
    requires forall key, v :: Member(item.members, key) == Some(v) <==> Has(item.members, key, v)
    ensures FrameFrom(item, o)
  {
    hide CategoryOf, ScoresOf, LaxInt, Named, IsInt, ScoresFrom, Member, Has, ValidScores, TopMatches;
    var top, scores := Field(item, "top_category").value.s, Field(item, "categories").value.members;
    var index := Field(item, "frame_index").value;
    CategoryMeans(o.topCategory, top);
    ScoresMean(scores, o.categories);
    IntMeans(index, o.frameIndex);
    assert Has(item.members, "top_category", Json.Str(top)) && Has(item.members, "categories", Json.Obj(scores));
    assert Has(item.members, "reason", Json.Str(o.reason)) && Has(item.members, "frame_index", index);
  }

  function UnwrapEnvelope(payload: Json.Value, keys: seq<string>): Json.Value {
    if payload.Obj? && |payload.members| == 1
        && payload.members[0].key in keys then payload.members[0].value else payload
  }

  /** The list of items a payload stands for. */
  function ItemsOf(payload: Json.Value, expectedCount: nat): Option<seq<Json.Value>> {
    var p := UnwrapEnvelope(payload, ["results", "frames", "result"]);
    if p.Obj? && expectedCount == 1 && Field(p, "frame_index").Some? then Some([p])
    else if p.Arr? then Some(p.items)
    else None
  }

  /** A value alone or as the only member of an envelope. */
  predicate Enveloped(payload: Json.Value, v: Json.Value) {
    || payload == v
    || payload == Json.Obj([Json.Member("results", v)])
    || payload == Json.Obj([Json.Member("frames", v)])
    || payload == Json.Obj([Json.Member("result", v)])
  }

  /** An array stands for its items; if one frame is asked for, an object with a frame index stands for itself. */
  ghost predicate StandsFor(payload: Json.Value, expectedCount: nat, items: seq<Json.Value>) {
    || Enveloped(payload, Json.Arr(items))
    || (expectedCount == 1 && |items| == 1 && Enveloped(payload, items[0])
        && items[0].Obj? && exists index :: Has(items[0].members, "frame_index", index))
  }

  lemma FieldMeans(v: Json.Value, key: string)
    ensures Field(v, key).Some? <==> v.Obj? && exists x :: Has(v.members, key, x)
  {
    hide Has, Member;
    if v.Obj? {
      forall x: Json.Value
        ensures Member(v.members, key) == Some(x) <==> Has(v.members, key, x)
      {
        MemberMeans(v.members, key, x);
      }
      if Member(v.members, key).Some? {
        assert Has(v.members, key, Member(v.members, key).value);
      }
    }
  }

  lemma EnvelopeMeans(payload: Json.Value, v: Json.Value)
    requires v.Arr? || (v.Obj? && exists x :: Has(v.members, "frame_index", x))
    ensures Enveloped(payload, v) <==> UnwrapEnvelope(payload, ["results", "frames", "result"]) == v
  {
    if payload.Obj? && |payload.members| == 1 {
      var m := payload.members[0];
      assert payload.members == [m] && m == Json.Member(m.key, m.value);
      assert m.key in ["results", "frames", "result"] <==> m.key in {"results", "frames", "result"};
      if v == payload {
        var x :| Has(v.members, "frame_index", x);
        assert m.key == "frame_index";
      }
    }
  }

  lemma ItemsMean(payload: Json.Value, expectedCount: nat, items: seq<Json.Value>)
    ensures ItemsOf(payload, expectedCount) == Some(items) <==> StandsFor(payload, expectedCount, items)
  {
    hide Has, Enveloped, UnwrapEnvelope, Field;
    EnvelopeMeans(payload, Json.Arr(items));
    var p := UnwrapEnvelope(payload, ["results", "frames", "result"]);
    FieldMeans(p, "frame_index");
    if Field(p, "frame_index").Some? {
      EnvelopeMeans(payload, p);
    }
    if |items| == 1 && items[0].Obj? {
      assert items == [items[0]];
      FieldMeans(items[0], "frame_index");
      if Field(items[0], "frame_index").Some? {
        EnvelopeMeans(payload, items[0]);
      }
    }
  }

  /** The outputs of a payload: as many items as asked for, each valid and each at its own index. */
  ghost predicate Answers(payload: Json.Value, expectedCount: nat, outputs: seq<FrameOutput>) {
    |outputs| == expectedCount
    && exists items ::
         StandsFor(payload, expectedCount, items) && |items| == expectedCount && AllInPlace(items, outputs)
  }

  ghost predicate AllInPlace(items: seq<Json.Value>, outputs: seq<FrameOutput>)
    requires |items| == |outputs|
  {
    forall i :: 0 <= i < |items| ==> FrameFrom(items[i], outputs[i]) && outputs[i].frameIndex == i
  }

  /** Item `i` of the list is a valid frame that names its own position. */
  ghost predicate InPlace(item: Json.Value, i: nat) {
    exists o :: FrameFrom(item, o) && o.frameIndex == i
  }

  /** The items before this one are in place. */
  ghost predicate FirstWrong(items: seq<Json.Value>, expectedCount: nat, i: nat) {
    i < |items| == expectedCount && forall k :: 0 <= k < i ==> InPlace(items[k], k)
  }

  /** The check that fails first, in the order in which they are made. */
  ghost predicate FirstFault(payload: Json.Value, expectedCount: nat, e: ModelError) {
    match e
    case InvalidJson => false
    case NotAnArray => forall items :: !StandsFor(payload, expectedCount, items)
    case WrongCount => exists items :: StandsFor(payload, expectedCount, items) && |items| != expectedCount
    case InvalidFrame(i) =>
      exists items ::
        StandsFor(payload, expectedCount, items) && FirstWrong(items, expectedCount, i)
        && forall o :: !FrameFrom(items[i], o)
    case OutOfOrder(i) =>
      exists items ::
        StandsFor(payload, expectedCount, items) && FirstWrong(items, expectedCount, i)
        && exists o :: FrameFrom(items[i], o) && o.frameIndex != i
  }

  lemma StandsForOne(payload: Json.Value, expectedCount: nat)
    ensures forall items :: StandsFor(payload, expectedCount, items) <==> ItemsOf(payload, expectedCount) == Some(items)
  {
    forall items: seq<Json.Value>
      ensures StandsFor(payload, expectedCount, items) <==> ItemsOf(payload, expectedCount) == Some(items)
    {
      ItemsMean(payload, expectedCount, items);
    }
  }

  lemma ValidFrameIsOne(item: Json.Value)
    ensures forall o :: FrameFrom(item, o) <==> ValidateFrame(item) == Some(o)
  {
    forall o: FrameOutput
      ensures FrameFrom(item, o) <==> ValidateFrame(item) == Some(o)
    {
      ValidFrameMeans(item, o);
    }
  }

  method ParsePayload(payload: Json.Value, expectedCount: nat) returns (r: Result<seq<FrameOutput>, ModelError>)
    ensures r.Ok? ==> Answers(payload, expectedCount, r.value)
    ensures r.Err? ==> FirstFault(payload, expectedCount, r.error)
    ensures r.Err? ==> forall outputs :: !Answers(payload, expectedCount, outputs)
  {
    hide ValidateFrame, ItemsOf, StandsFor, FrameFrom;
    StandsForOne(payload, expectedCount);
    var items := ItemsOf(payload, expectedCount);
    if items.None? {
      return Err(NotAnArray);
    }
    if |items.value| != expectedCount {
      return Err(WrongCount);
    }
    var results: seq<FrameOutput> := [];
    for index := 0 to expectedCount
      invariant |results| == index
      invariant forall i :: 0 <= i < index ==> FrameFrom(items.value[i], results[i]) && results[i].frameIndex == i
    {
      ValidFrameIsOne(items.value[index]);
      assert FirstWrong(items.value, expectedCount, index);
      var parsed := ValidateFrame(items.value[index]);
      if parsed.None? {
        return Err(InvalidFrame(index));
      }
      assert FrameFrom(items.value[index], parsed.value);
      if parsed.value.frameIndex != index {
        return Err(OutOfOrder(index));
      }
      results := results + [parsed.value];
    }
    return Ok(results);
  }

  /** A raw answer is read as these outputs. */
  ghost predicate Reads(raw: string, expectedCount: nat, outputs: seq<FrameOutput>) {
    exists v :: DocumentOf(raw, v) && Answers(v, expectedCount, outputs)
  }

  /** The error of an answer: no document at all, or the first fault of its document. */
  ghost predicate Faults(raw: string, expectedCount: nat, e: ModelError) {
    if e == InvalidJson then forall v :: !DocumentOf(raw, v)
    else exists v :: DocumentOf(raw, v) && FirstFault(v, expectedCount, e)
  }

  method ParseVisualBatchResponse(raw: string, expectedCount: nat) returns (r: Result<seq<FrameOutput>, ModelError>)
    ensures r.Ok? ==> Reads(raw, expectedCount, r.value)
    ensures r.Err? ==> Faults(raw, expectedCount, r.error) && forall outputs :: !Reads(raw, expectedCount, outputs)
  {
    hide Answers, DocumentOf, FirstFault;
    var payload := LoadModelJson(raw);
    if payload.None? {
      return Err(InvalidJson);
    }
    r := ParsePayload(payload.value, expectedCount);
    if r.Err? {
      NotJsonFault(payload.value, expectedCount, r.error);
      forall v | DocumentOf(raw, v)
        ensures v == payload.value
      {
        DocumentIsUnique(raw, v, payload.value);
      }
    }
  }

  lemma NotJsonFault(payload: Json.Value, expectedCount: nat, e: ModelError)
    requires FirstFault(payload, expectedCount, e)
    ensures e != InvalidJson
  {
  }

  /** Accepted outputs are complete, in order and valid. */
  lemma ReadingIsValid(raw: string, expectedCount: nat, outputs: seq<FrameOutput>)
    requires Reads(raw, expectedCount, outputs)
    ensures |outputs| == expectedCount
    ensures forall i :: 0 <= i < |outputs| ==> outputs[i].frameIndex == i && ValidOutput(outputs[i])
  {
    hide StandsFor, DocumentOf, ValidOutput, Has, ScoresFrom, Named, IsInt;
  }

  /** An answer has at most one reading. */
  lemma ReadingIsUnique(raw: string, expectedCount: nat, a: seq<FrameOutput>, b: seq<FrameOutput>)
    requires Reads(raw, expectedCount, a) && Reads(raw, expectedCount, b)
    ensures a == b
  {
    hide ValidateFrame, ItemsOf, DocumentOf, StandsFor, FrameFrom;
    var v :| DocumentOf(raw, v) && Answers(v, expectedCount, a);
    var w :| DocumentOf(raw, w) && Answers(w, expectedCount, b);
    DocumentIsUnique(raw, v, w);
    StandsForOne(v, expectedCount);
    var items := ItemsOf(v, expectedCount).value;
    forall i | 0 <= i < expectedCount
      ensures a[i] == b[i]
    {
      ValidFrameIsOne(items[i]);
    }
  }
}
