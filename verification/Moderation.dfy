/** Category scores, the blocking policy, and the checks every model answer passes. */
module ModerationPolicy {
  datatype Category =
    | Safe
    | Suggestive
    | Nudity
    | Porn
    | Gore
    | Violence
    | SelfHarm
    | HateOrExtremism
    | Drugs
    | Unknown
    | SexualMinorContent

  type Scores = map<Category, int>

  const BLOCK_THRESHOLDS: Scores := map[
    Porn := 4,
    SexualMinorContent := 3,
    Gore := 4,
    Violence := 4,
    SelfHarm := 4,
    HateOrExtremism := 4,
    Drugs := 4,
    Unknown := 4,
    Suggestive := 5,
    Nudity := 5
  ]

  /** `scores.get(category, 0)`. */
  function Score(scores: Scores, c: Category): int {
    if c in scores then scores[c] else 0
  }

  /** Every category present, every severity between 0 and 5. */
  predicate ValidScores(scores: Scores) {
    forall c: Category :: c in scores && 0 <= scores[c] <= 5
  }

  /** Some category reaches its blocking threshold. */
  predicate IsNsfw(scores: Scores) {
    exists c :: c in BLOCK_THRESHOLDS && Score(scores, c) >= BLOCK_THRESHOLDS[c]
  }

  /** The named top category is consistent with the scores: `safe` only when nothing unsafe is present, otherwise a
      present category that no unsafe category exceeds. */
  predicate TopMatches(top: Category, scores: Scores) {
    if top == Safe then
      forall c: Category :: c != Safe ==> Score(scores, c) <= 0
    else
      Score(scores, top) != 0 && forall c: Category :: c != Safe ==> Score(scores, c) <= Score(scores, top)
  }

  datatype FrameResult = FrameResult(
    frameIndex: nat,
    timestampSeconds: real,
    topCategory: Category,
    isNsfw: bool,
    overallSeverity: int,
    categories: Scores,
    reason: string
  )

  /** What a frame result built from a validated model answer satisfies. */
  predicate ValidFrame(f: FrameResult) {
    && ValidScores(f.categories)
    && TopMatches(f.topCategory, f.categories)
    && f.overallSeverity == Score(f.categories, f.topCategory)
    && f.isNsfw == IsNsfw(f.categories)
  }

  lemma ThresholdsAreSevere(c: Category)
    requires c in BLOCK_THRESHOLDS
    ensures c != Safe && BLOCK_THRESHOLDS[c] >= 3 && (BLOCK_THRESHOLDS[c] == 3 ==> c == SexualMinorContent)
  {
  }

  /** A blocked frame is topped by an unsafe category, and severely: 3 only for minor content. */
  lemma BlockedFrameIsSevere(f: FrameResult)
    requires ValidFrame(f) && f.isNsfw
    ensures f.topCategory != Safe
    ensures f.overallSeverity >= 3
    ensures f.overallSeverity == 3 ==> Score(f.categories, SexualMinorContent) == 3
  {
    var c :| c in BLOCK_THRESHOLDS && Score(f.categories, c) >= BLOCK_THRESHOLDS[c];
    ThresholdsAreSevere(c);
    hide IsNsfw, ValidScores;
    assert Score(f.categories, c) <= 0 || Score(f.categories, c) <= f.overallSeverity;
  }
}

/** The any-frame aggregation of frame results into one video result. */
module Aggregation {
  import opened Common
  import opened ModerationPolicy

  datatype Ec = Explicit | NudityEc | Provocative | Neutral

  datatype GoreBand = VeryUnlikely | Unlikely | Possible | Likely | VeryLikely

  datatype AggregationSettings = AggregationSettings(
    moveThreshold: real,
    visualPromptVersion: string,
    aggregationVersion: string
  )

  datatype VideoResult = VideoResult(
    jobId: string,
    videoId: string,
    policyVersion: string,
    promptVersion: string,
    aggregationVersion: string,
    finalIsNsfw: bool,
    finalScore: real,
    finalTopCategory: Category,
    maxOverallSeverity: int,
    nsfwFrameCount: nat,
    totalFrameCount: nat,
    moveRequired: bool,
    moveThreshold: real,
    maxCategorySeverities: Scores,
    legacyNsfwEc: Ec,
    legacyNsfwGore: GoreBand
  )

  function Max(a: int, b: int): int {
    if a < b then b else a
  }

  /** Position in the fixed risk order, most dangerous first. */
  function RiskRank(c: Category): nat {
    match c
    case SexualMinorContent => 0
    case Porn => 1
    case Nudity => 2
    case Gore => 3
    case Violence => 4
    case SelfHarm => 5
    case HateOrExtremism => 6
    case Drugs => 7
    case Suggestive => 8
    case Unknown => 9
    case Safe => 10
  }

  /** `(severity, -rank)` compared lexicographically: the second pair is strictly greater. */
  predicate Outranked(sev1: int, top1: Category, sev2: int, top2: Category) {
    sev1 < sev2 || (sev1 == sev2 && RiskRank(top2) < RiskRank(top1))
  }

  function MaxScore(frames: seq<FrameResult>, c: Category): int
    requires frames != []
  {
    var last := Score(frames[|frames| - 1].categories, c);
    if |frames| == 1 then last else Max(MaxScore(frames[..|frames| - 1], c), last)
  }

  function MaxSeverity(frames: seq<FrameResult>): int
    requires frames != []
  {
    var last := frames[|frames| - 1].overallSeverity;
    if |frames| == 1 then last else Max(MaxSeverity(frames[..|frames| - 1]), last)
  }

  function CountNsfw(frames: seq<FrameResult>): nat {
    if frames == [] then 0
    else CountNsfw(frames[..|frames| - 1]) + (if frames[|frames| - 1].isNsfw then 1 else 0)
  }

  /** Python's `max` with a key: the first frame whose `(severity, -rank)` nothing exceeds. */
  function BestFrame(frames: seq<FrameResult>): FrameResult
    requires frames != []
  {
    var last := frames[|frames| - 1];
    if |frames| == 1 then last else
    var best := BestFrame(frames[..|frames| - 1]);
    if Outranked(best.overallSeverity, best.topCategory, last.overallSeverity, last.topCategory) then last else best
  }

  /** The top categories of the frames of the given severity, in frame order. */
  function Candidates(frames: seq<FrameResult>, severity: int): seq<Category> {
    if frames == [] then [] else
    var last := frames[|frames| - 1];
    Candidates(frames[..|frames| - 1], severity) + (if last.overallSeverity == severity then [last.topCategory] else [])
  }

  function LowestRank(cs: seq<Category>): Category
    requires cs != []
  {
    var last := cs[|cs| - 1];
    if |cs| == 1 then last else
    var best := LowestRank(cs[..|cs| - 1]);
    if RiskRank(last) < RiskRank(best) then last else best
  }

  /** The two passes of the source: find the highest severity, then the riskiest category among its frames. */
  function SelectTopCategory(frames: seq<FrameResult>): Category
    requires frames != []
  {
    var highest := BestFrame(frames).overallSeverity;
    BestFrameBounds(frames);
    CandidatesMember(frames, highest);
    LowestRank(Candidates(frames, highest))
  }

  function MapLegacyEc(top: Category): Ec {
    match top
    case Porn => Explicit
    case Nudity => NudityEc
    case Suggestive => Provocative
    case SexualMinorContent => Explicit
    case _ => Neutral
  }

  function MapLegacyGore(maxima: Scores): GoreBand {
    var severity := Max(Score(maxima, Gore), Score(maxima, Violence));
    if severity >= 5 then VeryLikely
    else if severity >= 4 then Likely
    else if severity >= 3 then Possible
    else if severity >= 1 then Unlikely
    else VeryUnlikely
  }

  function MaxCategories(frames: seq<FrameResult>): (m: Scores)
    requires frames != []
    ensures forall c: Category :: c in m && m[c] == MaxScore(frames, c)
  {
    map c: Category | true :: MaxScore(frames, c)
  }

  datatype AggregationError = EmptyFrameList

  function Aggregate(settings: AggregationSettings, jobId: string, videoId: string, policyVersion: string,
                     frames: seq<FrameResult>): Result<VideoResult, AggregationError>
  {
    if frames == [] then Err(EmptyFrameList) else
    Ok(Summarize(settings, jobId, videoId, policyVersion, MaxCategories(frames), CountNsfw(frames),
                 MaxSeverity(frames), SelectTopCategory(frames), |frames|))
  }

  function FinalScore(severity: int): real {
    severity as real / 5.0
  }

  /** The result record from the values folded over the frames. */
  function Summarize(settings: AggregationSettings, jobId: string, videoId: string, policyVersion: string,
                     maxima: Scores, count: nat, severity: int, top: Category, total: nat): VideoResult
  {
    var score := FinalScore(severity);
    VideoResult(
      jobId, videoId, policyVersion, settings.visualPromptVersion, settings.aggregationVersion,
      count > 0, score, top, severity, count, total,
      score >= settings.moveThreshold, settings.moveThreshold,
      maxima, MapLegacyEc(top), MapLegacyGore(maxima))
  }

  // ---------- what the folds mean: least upper bounds that some frame attains ----------

  lemma {:induction false} MaxScoreIsLub(frames: seq<FrameResult>, c: Category)
    requires frames != []
    ensures forall f :: f in frames ==> Score(f.categories, c) <= MaxScore(frames, c)
    ensures exists f :: f in frames && Score(f.categories, c) == MaxScore(frames, c)
  {
    var n := |frames|;
    assert frames[n - 1] in frames;
    if n > 1 {
      var init := frames[..n - 1];
      MaxScoreIsLub(init, c);
      assert frames == init + [frames[n - 1]];
      var w :| w in init && Score(w.categories, c) == MaxScore(init, c);
      assert w in frames;
    }
  }

  lemma {:induction false} MaxSeverityIsLub(frames: seq<FrameResult>)
    requires frames != []
    ensures forall f :: f in frames ==> f.overallSeverity <= MaxSeverity(frames)
    ensures exists f :: f in frames && f.overallSeverity == MaxSeverity(frames)
  {
    var n := |frames|;
    assert frames[n - 1] in frames;
    if n > 1 {
      var init := frames[..n - 1];
      MaxSeverityIsLub(init);
      assert frames == init + [frames[n - 1]];
      var w :| w in init && w.overallSeverity == MaxSeverity(init);
      assert w in frames;
    }
  }

  lemma {:induction false} BestFrameBounds(frames: seq<FrameResult>)
    requires frames != []
    ensures BestFrame(frames) in frames
    ensures forall f :: f in frames ==>
              !Outranked(BestFrame(frames).overallSeverity, BestFrame(frames).topCategory,
                         f.overallSeverity, f.topCategory)
  {
    var n := |frames|;
    if n > 1 {
      BestFrameBounds(frames[..n - 1]);
      assert frames == frames[..n - 1] + [frames[n - 1]];
    }
  }

  /** Some frame of this severity has this top category. */
  predicate Tops(frames: seq<FrameResult>, severity: int, c: Category) {
    exists f :: f in frames && f.overallSeverity == severity && f.topCategory == c
  }

  lemma TopsOfLast(before: seq<FrameResult>, last: FrameResult, severity: int, c: Category)
    ensures Tops(before + [last], severity, c) <==>
            Tops(before, severity, c) || (last.overallSeverity == severity && last.topCategory == c)
  {
    if Tops(before, severity, c) {
      var f :| f in before && f.overallSeverity == severity && f.topCategory == c;
      assert f in before + [last];
    }
    assert last in before + [last];
  }

  lemma {:induction false} CandidatesMember(frames: seq<FrameResult>, severity: int)
    ensures forall c :: c in Candidates(frames, severity) <==> Tops(frames, severity, c)
    ensures (exists f :: f in frames && f.overallSeverity == severity) ==> Candidates(frames, severity) != []
  {
    if frames != [] {
      var before, last := frames[..|frames| - 1], frames[|frames| - 1];
      assert frames == before + [last];
      CandidatesMember(before, severity);
      forall c
        ensures c in Candidates(frames, severity) <==> Tops(frames, severity, c)
      {
        TopsOfLast(before, last, severity, c);
      }
    }
    if exists f :: f in frames && f.overallSeverity == severity {
      var f :| f in frames && f.overallSeverity == severity;
      assert Tops(frames, severity, f.topCategory);
    }
  }

  lemma {:induction false} LowestRankBounds(cs: seq<Category>)
    requires cs != []
    ensures LowestRank(cs) in cs
    ensures forall c :: c in cs ==> RiskRank(LowestRank(cs)) <= RiskRank(c)
  {
    var n := |cs|;
    if n > 1 {
      LowestRankBounds(cs[..n - 1]);
      assert cs == cs[..n - 1] + [cs[n - 1]];
    }
  }

  /** The two-pass selection is the top category of the lexicographically best frame. */
  lemma SelectTopIsBestFrame(frames: seq<FrameResult>)
    requires frames != []
    ensures SelectTopCategory(frames) == BestFrame(frames).topCategory
  {
    var best := BestFrame(frames);
    BestFrameBounds(frames);
    CandidatesMember(frames, best.overallSeverity);
    var cs := Candidates(frames, best.overallSeverity);
    LowestRankBounds(cs);
    assert best.topCategory in cs;
  }

  // ---------- the result, field by field ----------

  /** The risk order, most dangerous first. */
  lemma RiskOrder()
    ensures forall c: Category :: RiskRank(c) <= 10
    ensures forall i :: 0 <= i <= 10 ==>
              RiskRank([SexualMinorContent, Porn, Nudity, Gore, Violence, SelfHarm, HateOrExtremism, Drugs, Suggestive,
                        Unknown, Safe][i]) == i
  {
  }

  lemma {:induction false} CountIsCardinality(frames: seq<FrameResult>)
    ensures CountNsfw(frames) == |set i | 0 <= i < |frames| && frames[i].isNsfw|
  {
    var marked := set i | 0 <= i < |frames| && frames[i].isNsfw;
    if frames == [] {
      assert marked == {};
    } else {
      var n, before := |frames| - 1, frames[..|frames| - 1];
      CountIsCardinality(before);
      var earlier := set i | 0 <= i < |before| && before[i].isNsfw;
      assert forall i :: i in earlier <==> 0 <= i < n && frames[i].isNsfw;
      assert marked == earlier + if frames[n].isNsfw then {n} else {};
      hide CountNsfw;
    }
  }

  /** The facts of the result: what was asked for, the settings, and how many of the frames are blocked. */
  lemma ResultFacts(settings: AggregationSettings, jobId: string, videoId: string, policyVersion: string,
                    frames: seq<FrameResult>)
    ensures Aggregate(settings, jobId, videoId, policyVersion, frames).Err? <==> frames == []
    ensures frames != [] ==>
              var r := Aggregate(settings, jobId, videoId, policyVersion, frames).value;
              && r.jobId == jobId && r.videoId == videoId && r.policyVersion == policyVersion
              && r.promptVersion == settings.visualPromptVersion && r.aggregationVersion == settings.aggregationVersion
              && r.moveThreshold == settings.moveThreshold && r.totalFrameCount == |frames|
              && r.nsfwFrameCount == |set i | 0 <= i < |frames| && frames[i].isNsfw|
              && (r.finalIsNsfw <==> exists f :: f in frames && f.isNsfw)
              && (r.moveRequired <==> r.maxOverallSeverity as real >= 5.0 * settings.moveThreshold)
              && r.finalScore * 5.0 == r.maxOverallSeverity as real
  {
    CountIsCardinality(frames);
    CountPositive(frames);
    hide MaxCategories, CountNsfw, MaxSeverity, SelectTopCategory, MapLegacyEc, MapLegacyGore;
  }

  /** Its maxima are the greatest values some frame has, a missing score counting as 0; its top category is the riskiest
      one of the frames of the greatest severity. */
  lemma ResultMaxima(settings: AggregationSettings, jobId: string, videoId: string, policyVersion: string,
                     frames: seq<FrameResult>)
    requires frames != []
    ensures var r := Aggregate(settings, jobId, videoId, policyVersion, frames).value;
            && (forall f :: f in frames ==> f.overallSeverity <= r.maxOverallSeverity)
            && (exists f :: f in frames && f.overallSeverity == r.maxOverallSeverity
                            && f.topCategory == r.finalTopCategory)
            && (forall f :: f in frames && f.overallSeverity == r.maxOverallSeverity ==>
                  RiskRank(r.finalTopCategory) <= RiskRank(f.topCategory))
            && (forall c: Category :: c in r.maxCategorySeverities)
            && (forall c, f :: f in frames ==>
                  (if c in f.categories then f.categories[c] else 0) <= r.maxCategorySeverities[c])
            && (forall c: Category ::
                  exists f :: f in frames
                    && (if c in f.categories then f.categories[c] else 0) == r.maxCategorySeverities[c])
  {
    SelectTopIsBestFrame(frames);
    BestFrameSeverity(frames);
    BestFrameBounds(frames);
    MaxSeverityIsLub(frames);
    forall c: Category
      ensures forall f :: f in frames ==> Score(f.categories, c) <= MaxScore(frames, c)
      ensures exists f :: f in frames && Score(f.categories, c) == MaxScore(frames, c)
    {
      MaxScoreIsLub(frames, c);
    }
    hide MaxScore, CountNsfw, MaxSeverity, SelectTopCategory, BestFrame, MapLegacyEc, MapLegacyGore, RiskRank;
  }

  /** Its legacy fields: the label of the top category, and the band of the greater of gore and violence. */
  lemma ResultLegacy(settings: AggregationSettings, jobId: string, videoId: string, policyVersion: string,
                     frames: seq<FrameResult>)
    requires frames != []
    ensures var r := Aggregate(settings, jobId, videoId, policyVersion, frames).value;
            && (r.legacyNsfwEc == Explicit <==> r.finalTopCategory in {Porn, SexualMinorContent})
            && (r.legacyNsfwEc == NudityEc <==> r.finalTopCategory == Nudity)
            && (r.legacyNsfwEc == Provocative <==> r.finalTopCategory == Suggestive)
    ensures var r := Aggregate(settings, jobId, videoId, policyVersion, frames).value;
            Gore in r.maxCategorySeverities && Violence in r.maxCategorySeverities &&
            var gore, violence := r.maxCategorySeverities[Gore], r.maxCategorySeverities[Violence];
            && (r.legacyNsfwGore == VeryLikely <==> gore >= 5 || violence >= 5)
            && (r.legacyNsfwGore == Likely <==> (gore == 4 && violence <= 4) || (violence == 4 && gore <= 4))
            && (r.legacyNsfwGore == Possible <==> (gore == 3 && violence <= 3) || (violence == 3 && gore <= 3))
            && (r.legacyNsfwGore == VeryUnlikely <==> gore <= 0 && violence <= 0)
  {
    hide MaxScore, CountNsfw, MaxSeverity, SelectTopCategory;
  }

  // ---------- homomorphism ----------

  /** Two partial results of one video combined: counts add, severities, score and gore band take the maximum, flags
      take the disjunction, and the riskier top category of the more severe half wins. */
  function Merge(a: VideoResult, b: VideoResult): VideoResult {
    var top := if Outranked(a.maxOverallSeverity, a.finalTopCategory, b.maxOverallSeverity, b.finalTopCategory)
               then b else a;
    a.(finalIsNsfw := a.finalIsNsfw || b.finalIsNsfw,
      finalScore := if a.finalScore < b.finalScore then b.finalScore else a.finalScore,
      finalTopCategory := top.finalTopCategory,
      legacyNsfwEc := top.legacyNsfwEc,
      maxOverallSeverity := Max(a.maxOverallSeverity, b.maxOverallSeverity),
      nsfwFrameCount := a.nsfwFrameCount + b.nsfwFrameCount,
      totalFrameCount := a.totalFrameCount + b.totalFrameCount,
      moveRequired := a.moveRequired || b.moveRequired,
      maxCategorySeverities := MaxOfScores(a.maxCategorySeverities, b.maxCategorySeverities),
      legacyNsfwGore := if Band(a.legacyNsfwGore) < Band(b.legacyNsfwGore) then b.legacyNsfwGore else a.legacyNsfwGore)
  }

  function Band(g: GoreBand): nat {
    match g
    case VeryUnlikely => 0
    case Unlikely => 1
    case Possible => 2
    case Likely => 3
    case VeryLikely => 4
  }

  lemma {:induction false} FoldsAppend(xs: seq<FrameResult>, ys: seq<FrameResult>, c: Category)
    requires xs != [] && ys != []
    ensures MaxScore(xs + ys, c) == Max(MaxScore(xs, c), MaxScore(ys, c))
    ensures MaxSeverity(xs + ys) == Max(MaxSeverity(xs), MaxSeverity(ys))
  {
    var n := |ys|;
    assert (xs + ys)[..|xs + ys| - 1] == xs + ys[..n - 1];
    if n == 1 {
      assert xs + ys[..0] == xs;
    } else {
      FoldsAppend(xs, ys[..n - 1], c);
    }
  }

  lemma {:induction false} CountAppend(xs: seq<FrameResult>, ys: seq<FrameResult>)
    ensures CountNsfw(xs + ys) == CountNsfw(xs) + CountNsfw(ys)
  {
    if ys == [] {
      assert xs + ys == xs;
    } else {
      assert (xs + ys)[..|xs + ys| - 1] == xs + ys[..|ys| - 1];
      CountAppend(xs, ys[..|ys| - 1]);
    }
  }

  lemma {:induction false} BestAppend(xs: seq<FrameResult>, ys: seq<FrameResult>)
    requires xs != [] && ys != []
    ensures var x, y := BestFrame(xs), BestFrame(ys);
            BestFrame(xs + ys) ==
            if Outranked(x.overallSeverity, x.topCategory, y.overallSeverity, y.topCategory) then y else x
  {
    var n := |ys|;
    assert (xs + ys)[..|xs + ys| - 1] == xs + ys[..n - 1];
    if n == 1 {
      assert xs + ys[..0] == xs;
    } else {
      BestAppend(xs, ys[..n - 1]);
    }
  }

  lemma BestFrameSeverity(frames: seq<FrameResult>)
    requires frames != []
    ensures BestFrame(frames).overallSeverity == MaxSeverity(frames)
  {
    BestFrameBounds(frames);
    MaxSeverityIsLub(frames);
  }

  /** Aggregating a concatenation is merging the two aggregates. */
  lemma AggregateIsHomomorphism(settings: AggregationSettings, jobId: string, videoId: string, policyVersion: string,
                                xs: seq<FrameResult>, ys: seq<FrameResult>)
    requires xs != [] && ys != []
    ensures Aggregate(settings, jobId, videoId, policyVersion, xs + ys) ==
            Ok(Merge(Aggregate(settings, jobId, videoId, policyVersion, xs).value,
                     Aggregate(settings, jobId, videoId, policyVersion, ys).value))
  {
    hide BestFrame;
    hide MaxCategories, MaxSeverity, SelectTopCategory, CountNsfw, Merge, Summarize, MaxOfScores, MaxScore;
    TopOfAppend(xs, ys);
    CountAppend(xs, ys);
    FoldsAppend(xs, ys, Safe);
    MaximaOfAppend(xs, ys);
    MergeOfSummaries(settings, jobId, videoId, policyVersion,
                     MaxCategories(xs), CountNsfw(xs), MaxSeverity(xs), SelectTopCategory(xs), |xs|,
                     MaxCategories(ys), CountNsfw(ys), MaxSeverity(ys), SelectTopCategory(ys), |ys|);
  }

  lemma MergeOfSummaries(settings: AggregationSettings, jobId: string, videoId: string, policyVersion: string,
                         m: Scores, c: nat, s: int, t: Category, n: nat,
                         m': Scores, c': nat, s': int, t': Category, n': nat)
    ensures Merge(Summarize(settings, jobId, videoId, policyVersion, m, c, s, t, n),
                  Summarize(settings, jobId, videoId, policyVersion, m', c', s', t', n')) ==
            Summarize(settings, jobId, videoId, policyVersion, MaxOfScores(m, m'), c + c', Max(s, s'),
                      if Outranked(s, t, s', t') then t' else t, n + n')
  {
    ScoreOfMax(s, s');
    GoreOfMaxima(m, m', MaxOfScores(m, m'));
    hide MaxOfScores, Outranked, FinalScore, MapLegacyGore, MapLegacyEc;
  }

  lemma ScoreOfMax(a: int, b: int)
    ensures FinalScore(Max(a, b)) == if FinalScore(a) < FinalScore(b) then FinalScore(b) else FinalScore(a)
  {
  }

  function MaxOfScores(a: Scores, b: Scores): Scores {
    map c: Category | true :: Max(Score(a, c), Score(b, c))
  }

  lemma MaximaOfAppend(xs: seq<FrameResult>, ys: seq<FrameResult>)
    requires xs != [] && ys != []
    ensures MaxCategories(xs + ys) == MaxOfScores(MaxCategories(xs), MaxCategories(ys))
  {
    forall c: Category
      ensures MaxScore(xs + ys, c) == Max(MaxScore(xs, c), MaxScore(ys, c))
    {
      FoldsAppend(xs, ys, c);
    }
  }

  lemma GoreOfMaxima(a: Scores, b: Scores, m: Scores)
    requires m == MaxOfScores(a, b)
    ensures Band(MapLegacyGore(m)) == Max(Band(MapLegacyGore(a)), Band(MapLegacyGore(b)))
  {
    assert Score(m, Gore) == Max(Score(a, Gore), Score(b, Gore));
    assert Score(m, Violence) == Max(Score(a, Violence), Score(b, Violence));
  }

  lemma TopOfAppend(xs: seq<FrameResult>, ys: seq<FrameResult>)
    requires xs != [] && ys != []
    ensures SelectTopCategory(xs + ys) ==
            if Outranked(MaxSeverity(xs), SelectTopCategory(xs), MaxSeverity(ys), SelectTopCategory(ys))
            then SelectTopCategory(ys) else SelectTopCategory(xs)
  {
    SelectTopIsBestFrame(xs);
    SelectTopIsBestFrame(ys);
    SelectTopIsBestFrame(xs + ys);
    BestFrameSeverity(xs);
    BestFrameSeverity(ys);
    BestAppend(xs, ys);
  }

  // ---------- order of frames is irrelevant ----------

  lemma SameMembers(xs: seq<FrameResult>, ys: seq<FrameResult>)
    requires multiset(xs) == multiset(ys)
    ensures |xs| == |ys|
    ensures forall f :: f in xs <==> f in ys
  {
    assert |multiset(xs)| == |multiset(ys)|;
    assert forall f :: f in xs <==> f in multiset(xs);
    assert forall f :: f in ys <==> f in multiset(ys);
  }

  lemma RemoveFromBoth<T>(xs: seq<T>, ys: seq<T>, i: nat)
    requires multiset(xs) == multiset(ys) && xs != [] && i < |ys| && ys[i] == xs[|xs| - 1]
    ensures multiset(xs[..|xs| - 1]) == multiset(ys[..i] + ys[i + 1..])
  {
    var last, a, b := ys[i], ys[..i], ys[i + 1..];
    assert xs == xs[..|xs| - 1] + [last];
    assert ys == a + [last] + b;
    assert multiset(a + [last] + b) == multiset(a) + multiset{last} + multiset(b);
    assert multiset(a + b) == multiset(ys) - multiset{last};
    assert multiset(xs[..|xs| - 1]) == multiset(xs) - multiset{last};
  }

  lemma CountRemoved(ys: seq<FrameResult>, i: nat)
    requires i < |ys|
    ensures CountNsfw(ys) == CountNsfw(ys[..i] + ys[i + 1..]) + if ys[i].isNsfw then 1 else 0
  {
    hide CountNsfw;
    var x := [ys[i]];
    assert ys == ys[..i] + (x + ys[i + 1..]);
    CountAppend(ys[..i], ys[i + 1..]);
    CountAppend(ys[..i], x + ys[i + 1..]);
    CountAppend(x, ys[i + 1..]);
    CountOne(ys[i]);
  }

  lemma CountOne(f: FrameResult)
    ensures CountNsfw([f]) == if f.isNsfw then 1 else 0
  {
    assert [f][..0] == [];
  }

  lemma {:induction false} CountOfPermutation(xs: seq<FrameResult>, ys: seq<FrameResult>)
    requires multiset(xs) == multiset(ys)
    ensures CountNsfw(xs) == CountNsfw(ys)
  {
    SameMembers(xs, ys);
    if xs != [] {
      assert xs[|xs| - 1] in ys;
      var i :| 0 <= i < |ys| && ys[i] == xs[|xs| - 1];
      RemoveFromBoth(xs, ys, i);
      CountRemoved(ys, i);
      CountOfPermutation(xs[..|xs| - 1], ys[..i] + ys[i + 1..]);
    }
  }

  /** Permuting the frames changes nothing in the result. */
  lemma AggregateOfPermutation(settings: AggregationSettings, jobId: string, videoId: string, policyVersion: string,
                               xs: seq<FrameResult>, ys: seq<FrameResult>)
    requires multiset(xs) == multiset(ys)
    ensures Aggregate(settings, jobId, videoId, policyVersion, xs) ==
            Aggregate(settings, jobId, videoId, policyVersion, ys)
  {
    SameMembers(xs, ys);
    if xs != [] {
      CountOfPermutation(xs, ys);
      MaximaOfSameMembers(xs, ys);
      TopOfSameMembers(xs, ys);
    }
  }

  lemma MaximaOfSameMembers(xs: seq<FrameResult>, ys: seq<FrameResult>)
    requires xs != [] && ys != [] && forall f :: f in xs <==> f in ys
    ensures MaxCategories(xs) == MaxCategories(ys) && MaxSeverity(xs) == MaxSeverity(ys)
  {
    forall c: Category
      ensures MaxScore(xs, c) == MaxScore(ys, c)
    {
      MaxScoreIsLub(xs, c);
      MaxScoreIsLub(ys, c);
    }
    MaxSeverityIsLub(xs);
    MaxSeverityIsLub(ys);
  }

  lemma RiskRankInjective(c: Category, d: Category)
    requires RiskRank(c) == RiskRank(d)
    ensures c == d
  {
  }

  lemma TopOfSameMembers(xs: seq<FrameResult>, ys: seq<FrameResult>)
    requires xs != [] && ys != [] && forall f :: f in xs <==> f in ys
    ensures SelectTopCategory(xs) == SelectTopCategory(ys)
  {
    BestFrameBounds(xs);
    BestFrameBounds(ys);
    SelectTopIsBestFrame(xs);
    SelectTopIsBestFrame(ys);
    var x, y := BestFrame(xs), BestFrame(ys);
    assert x in ys && y in xs;
    assert RiskRank(x.topCategory) == RiskRank(y.topCategory);
    RiskRankInjective(x.topCategory, y.topCategory);
  }

  // ---------- verdict and policy ----------

  predicate ValidFrames(frames: seq<FrameResult>) {
    frames != [] && forall f :: f in frames ==> ValidFrame(f)
  }

  lemma {:induction false} CountPositive(frames: seq<FrameResult>)
    ensures CountNsfw(frames) > 0 <==> exists f :: f in frames && f.isNsfw
  {
    if frames != [] {
      CountPositive(frames[..|frames| - 1]);
      assert frames == frames[..|frames| - 1] + [frames[|frames| - 1]];
    }
  }

  /** The any-frame verdict is the blocking policy applied once, to the per-category maxima. */
  lemma VerdictIsPolicyOfMaxima(settings: AggregationSettings, jobId: string, videoId: string, policyVersion: string,
                                frames: seq<FrameResult>)
    requires ValidFrames(frames)
    ensures var r := Aggregate(settings, jobId, videoId, policyVersion, frames).value;
            r.finalIsNsfw <==> IsNsfw(r.maxCategorySeverities)
  {
    var maxima := MaxCategories(frames);
    CountPositive(frames);
    if CountNsfw(frames) > 0 {
      var f :| f in frames && f.isNsfw;
      var c :| c in BLOCK_THRESHOLDS && Score(f.categories, c) >= BLOCK_THRESHOLDS[c];
      MaxScoreIsLub(frames, c);
      assert Score(maxima, c) >= BLOCK_THRESHOLDS[c];
    }
    if IsNsfw(maxima) {
      var c :| c in BLOCK_THRESHOLDS && Score(maxima, c) >= BLOCK_THRESHOLDS[c];
      MaxScoreIsLub(frames, c);
      var f :| f in frames && Score(f.categories, c) == MaxScore(frames, c);
      assert IsNsfw(f.categories);
    }
  }

  /** For the shipped threshold 0.8, a blocked video escapes the move exactly when its worst severity is 3 and that
      severity is reached by minor content. A blocked video always scores at least 0.6. */
  lemma BlockedButNotMoved(settings: AggregationSettings, jobId: string, videoId: string, policyVersion: string,
                           frames: seq<FrameResult>)
    requires ValidFrames(frames) && settings.moveThreshold == 0.8
    ensures var r := Aggregate(settings, jobId, videoId, policyVersion, frames).value;
            && (r.finalIsNsfw && !r.moveRequired <==>
                r.maxOverallSeverity == 3 && Score(r.maxCategorySeverities, SexualMinorContent) == 3)
            && (r.finalIsNsfw ==> r.finalScore >= 0.6)
  {
    MaxSeverityIsLub(frames);
    CountPositive(frames);
    ThresholdScore(MaxSeverity(frames));
    if MaxScore(frames, SexualMinorContent) == 3 {
      MinorBlocks(frames);
    }
    hide ValidFrame, MaxSeverity, MaxScore, CountNsfw, SelectTopCategory, MapLegacyEc, MapLegacyGore, FinalScore;
    if CountNsfw(frames) > 0 {
      WorstOfBlocked(frames);
    }
  }

  lemma MinorBlocks(frames: seq<FrameResult>)
    requires ValidFrames(frames) && MaxScore(frames, SexualMinorContent) == 3
    ensures exists f :: f in frames && f.isNsfw
  {
    MaxScoreIsLub(frames, SexualMinorContent);
    hide MaxScore;
    var g :| g in frames && Score(g.categories, SexualMinorContent) == 3;
    assert Score(g.categories, SexualMinorContent) >= BLOCK_THRESHOLDS[SexualMinorContent];
  }

  lemma ThresholdScore(severity: int)
    ensures FinalScore(severity) >= 0.8 <==> severity >= 4
    ensures FinalScore(severity) >= 0.6 <==> severity >= 3
  {
  }

  lemma WorstOfBlocked(frames: seq<FrameResult>)
    requires ValidFrames(frames) && exists f :: f in frames && f.isNsfw
    ensures MaxSeverity(frames) >= 3
    ensures MaxSeverity(frames) == 3 ==> MaxScore(frames, SexualMinorContent) == 3
  {
    MaxSeverityIsLub(frames);
    MaxScoreIsLub(frames, SexualMinorContent);
    var f :| f in frames && f.isNsfw;
    BlockedFrameIsSevere(f);
    if MaxSeverity(frames) == 3 {
      var g :| g in frames && Score(g.categories, SexualMinorContent) == MaxScore(frames, SexualMinorContent);
      assert Score(g.categories, SexualMinorContent) <= Max(0, g.overallSeverity);
    }
  }

  /** At most 4 for the two categories that block only at 5, at most 2 for minor content, at most 3 for the others. */
  predicate BelowEveryThreshold(maxima: Scores) {
    && Score(maxima, Nudity) <= 4 && Score(maxima, Suggestive) <= 4
    && Score(maxima, SexualMinorContent) <= 2
    && forall c: Category :: c !in {Safe, Nudity, Suggestive} ==> Score(maxima, c) <= 3
  }

  /** The other side of the gap: a moved video is not blocked exactly when it reaches severity 4 with every maximum
      below its threshold, and then each of its worst frames is topped by `safe`, or by nudity or suggestiveness at
      exactly 4. */
  lemma MovedButNotBlocked(settings: AggregationSettings, jobId: string, videoId: string, policyVersion: string,
                           frames: seq<FrameResult>)
    requires ValidFrames(frames) && settings.moveThreshold == 0.8
    ensures var r := Aggregate(settings, jobId, videoId, policyVersion, frames).value;
            && (r.moveRequired && !r.finalIsNsfw <==>
                r.maxOverallSeverity >= 4 && BelowEveryThreshold(r.maxCategorySeverities))
            && (r.moveRequired && !r.finalIsNsfw ==>
                forall f :: f in frames && f.overallSeverity == r.maxOverallSeverity ==>
                  f.topCategory == Safe || (f.topCategory in {Nudity, Suggestive} && f.overallSeverity == 4))
  {
    var r := Aggregate(settings, jobId, videoId, policyVersion, frames).value;
    ThresholdScore(r.maxOverallSeverity);
    VerdictIsPolicyOfMaxima(settings, jobId, videoId, policyVersion, frames);
    assert IsNsfw(r.maxCategorySeverities) <==> !BelowEveryThreshold(r.maxCategorySeverities) by {
      PolicyByThresholds(r.maxCategorySeverities);
    }
    if r.moveRequired && !r.finalIsNsfw {
      forall f | f in frames && f.overallSeverity == r.maxOverallSeverity && f.topCategory != Safe
        ensures f.topCategory in {Nudity, Suggestive} && f.overallSeverity == 4
      {
        MaxScoreIsLub(frames, f.topCategory);
        assert Score(f.categories, f.topCategory) <= Score(r.maxCategorySeverities, f.topCategory);
      }
    }
  }

  /** The legacy fields agree with the verdict: the two upper gore bands mean that some frame shows gore or violence of
      at least 4, and block the video; so does an explicit video at the move threshold 0.8, and a nude or provocative
      one at the full score. */
  lemma LegacyFieldsAgreeWithVerdict(settings: AggregationSettings, jobId: string, videoId: string,
                                     policyVersion: string, frames: seq<FrameResult>)
    requires ValidFrames(frames)
    ensures var r := Aggregate(settings, jobId, videoId, policyVersion, frames).value;
            && (Band(r.legacyNsfwGore) >= 3 <==>
                exists f :: f in frames && (Score(f.categories, Gore) >= 4 || Score(f.categories, Violence) >= 4))
            && (r.legacyNsfwGore == VeryUnlikely <==>
                forall f :: f in frames ==> Score(f.categories, Gore) == 0 && Score(f.categories, Violence) == 0)
            && (Band(r.legacyNsfwGore) >= 3 ==> r.finalIsNsfw)
            && (r.legacyNsfwEc == Explicit && r.finalScore >= 0.8 ==> r.finalIsNsfw)
            && (r.legacyNsfwEc in {NudityEc, Provocative} && r.finalScore >= 1.0 ==> r.finalIsNsfw)
  {
    assert frames != [];
    hide ValidFrames, MapLegacyGore, Band, CountNsfw, IsNsfw, MaxSeverity, SelectTopCategory, MaxScore, MapLegacyEc;
    var r := Aggregate(settings, jobId, videoId, policyVersion, frames).value;
    assert r.maxCategorySeverities == MaxCategories(frames);
    VerdictIsPolicyOfMaxima(settings, jobId, videoId, policyVersion, frames);
    PolicyByThresholds(r.maxCategorySeverities);
    GoreBandMeaning(frames);
    EcMeaning(frames);
    hide BelowEveryThreshold;
  }

  lemma GoreBandMeaning(frames: seq<FrameResult>)
    requires ValidFrames(frames)
    ensures var band, maxima := MapLegacyGore(MaxCategories(frames)), MaxCategories(frames);
            && (Band(band) >= 3 <==>
                exists f :: f in frames && (Score(f.categories, Gore) >= 4 || Score(f.categories, Violence) >= 4))
            && (band == VeryUnlikely <==>
                forall f :: f in frames ==> Score(f.categories, Gore) == 0 && Score(f.categories, Violence) == 0)
            && (Band(band) >= 3 ==> !BelowEveryThreshold(maxima))
  {
    MaxScoreIsLub(frames, Gore);
    MaxScoreIsLub(frames, Violence);
    hide MaxScore, TopMatches, IsNsfw, MapLegacyGore, Band;
    assert frames[0] in frames;
    var maxima := MaxCategories(frames);
    assert Score(maxima, Gore) == MaxScore(frames, Gore) && Score(maxima, Violence) == MaxScore(frames, Violence);
    BandOfScores(maxima);
  }

  lemma BandOfScores(maxima: Scores)
    ensures Band(MapLegacyGore(maxima)) >= 3 <==> Score(maxima, Gore) >= 4 || Score(maxima, Violence) >= 4
    ensures MapLegacyGore(maxima) == VeryUnlikely <==> Score(maxima, Gore) <= 0 && Score(maxima, Violence) <= 0
  {
  }

  lemma EcMeaning(frames: seq<FrameResult>)
    requires ValidFrames(frames)
    ensures var ec, maxima := MapLegacyEc(SelectTopCategory(frames)), MaxCategories(frames);
            && (ec == Explicit && MaxSeverity(frames) >= 4 ==> !BelowEveryThreshold(maxima))
            && (ec in {NudityEc, Provocative} && MaxSeverity(frames) >= 5 ==> !BelowEveryThreshold(maxima))
  {
    TopIsItsMaximum(frames);
    hide ValidFrames, MaxScore, MaxSeverity, SelectTopCategory;
    var top, maxima := SelectTopCategory(frames), MaxCategories(frames);
    assert Score(maxima, top) == MaxScore(frames, top);
  }

  /** An unsafe top category scores the video's worst severity in its maxima. */
  lemma TopIsItsMaximum(frames: seq<FrameResult>)
    requires ValidFrames(frames)
    ensures MaxScore(frames, SelectTopCategory(frames)) >= MaxSeverity(frames)
  {
    SelectTopIsBestFrame(frames);
    BestFrameSeverity(frames);
    BestFrameBounds(frames);
    MaxScoreIsLub(frames, SelectTopCategory(frames));
    assert ValidFrame(BestFrame(frames));
  }

  lemma ThresholdOf(c: Category)
    requires c != Safe
    ensures c in BLOCK_THRESHOLDS
    ensures BLOCK_THRESHOLDS[c] == if c == SexualMinorContent then 3 else if c in {Nudity, Suggestive} then 5 else 4
  {
    match c {
      case Safe =>
      case Suggestive =>
      case Nudity =>
      case Porn =>
      case Gore =>
      case Violence =>
      case SelfHarm =>
      case HateOrExtremism =>
      case Drugs =>
      case Unknown =>
      case SexualMinorContent =>
    }
  }

  lemma BlockedMeans(s: Scores)
    ensures !BelowEveryThreshold(s) <==>
            || (exists c :: c in s && s[c] >= 4
                            && c in {Porn, Gore, Violence, SelfHarm, HateOrExtremism, Drugs, Unknown})
            || (SexualMinorContent in s && s[SexualMinorContent] >= 3)
            || (Suggestive in s && s[Suggestive] >= 5) || (Nudity in s && s[Nudity] >= 5)
  {
    if !BelowEveryThreshold(s) && Score(s, Nudity) <= 4 && Score(s, Suggestive) <= 4
       && Score(s, SexualMinorContent) <= 2 {
      var c: Category :| c !in {Safe, Nudity, Suggestive} && Score(s, c) > 3;
      assert c in s && c != SexualMinorContent;
      assert c in {Porn, Gore, Violence, SelfHarm, HateOrExtremism, Drugs, Unknown};
    }
    if c :| c in s && s[c] >= 4 && c in {Porn, Gore, Violence, SelfHarm, HateOrExtremism, Drugs, Unknown} {
      assert Score(s, c) > 3;
    }
  }

  /** The blocking policy with its thresholds; a category without a score counts as 0. */
  lemma PolicyByThresholds(s: Scores)
    ensures IsNsfw(s) <==> !BelowEveryThreshold(s)
    ensures IsNsfw(s) <==>
            || (exists c :: c in s && s[c] >= 4
                            && c in {Porn, Gore, Violence, SelfHarm, HateOrExtremism, Drugs, Unknown})
            || (SexualMinorContent in s && s[SexualMinorContent] >= 3)
            || (Suggestive in s && s[Suggestive] >= 5) || (Nudity in s && s[Nudity] >= 5)
  {
    BlockedMeans(s);
    if !BelowEveryThreshold(s) {
      if Score(s, Nudity) > 4 {
        assert Score(s, Nudity) >= BLOCK_THRESHOLDS[Nudity];
      } else if Score(s, Suggestive) > 4 {
        assert Score(s, Suggestive) >= BLOCK_THRESHOLDS[Suggestive];
      } else if Score(s, SexualMinorContent) > 2 {
        assert Score(s, SexualMinorContent) >= BLOCK_THRESHOLDS[SexualMinorContent];
      } else {
        var c: Category :| c !in {Safe, Nudity, Suggestive} && Score(s, c) > 3;
        ThresholdOf(c);
        assert Score(s, c) >= BLOCK_THRESHOLDS[c];
      }
    }
  }

  /** A video of one frame scored 4 for nudity alone is moved without being blocked. */
  lemma MoveDoesNotImplyBlocking(settings: AggregationSettings)
    requires settings.moveThreshold == 0.8
    ensures var r := Aggregate(settings, "job", "video", "policy", [NudityFour()]).value;
            ValidFrames([NudityFour()]) && r.moveRequired && !r.finalIsNsfw
  {
    var f := NudityFour();
    NudityFourScores(f);
    PolicyByThresholds(f.categories);
    assert ValidFrame(f);
    hide NudityFour;
    FoldsOfOneFrame([f], f);
  }

  lemma NudityFourScores(f: FrameResult)
    requires f == NudityFour()
    ensures ValidScores(f.categories) && BelowEveryThreshold(f.categories)
    ensures forall c: Category :: c != Nudity ==> Score(f.categories, c) == 0
  {
    forall c: Category
      ensures c in f.categories && f.categories[c] == if c == Nudity then 4 else 0
    {
      match c {
        case Safe =>
        case Suggestive =>
        case Nudity =>
        case Porn =>
        case Gore =>
        case Violence =>
        case SelfHarm =>
        case HateOrExtremism =>
        case Drugs =>
        case Unknown =>
        case SexualMinorContent =>
      }
    }
  }

  lemma FoldsOfOneFrame(frames: seq<FrameResult>, f: FrameResult)
    requires frames == [f] && f.overallSeverity == 4 && !f.isNsfw
    ensures MaxSeverity(frames) == 4 && CountNsfw(frames) == 0
  {
    assert frames[..0] == [];
  }

  function NudityFour(): FrameResult {
    var scores := map[Safe := 0, Suggestive := 0, Nudity := 4, Porn := 0, Gore := 0, Violence := 0, SelfHarm := 0,
                      HateOrExtremism := 0, Drugs := 0, Unknown := 0, SexualMinorContent := 0];
    FrameResult(0, 0.0, Nudity, false, 4, scores, "")
  }
}
