/** Frames through the model in batches and back in order. */
module FramePipeline {
  import opened Common
  import opened Failures
  import opened FramePaths
  import opened ModerationPolicy
  import opened Aggregation
  import opened ModelOutput
  import Decimal
  import opened PostgresState

  datatype ExtractedFrame = ExtractedFrame(frameIndex: nat, timestampSeconds: real, path: Path)

  /** Frames numbered in the order of their sorted paths, one per second. */
  function FramesFromPaths(paths: seq<Path>): (frames: seq<ExtractedFrame>)
    ensures |frames| == |paths|
  {
    SortedIsAscending(paths);
    var sorted := Sorted(paths);
    seq(|sorted|, i requires 0 <= i < |sorted| => ExtractedFrame(i, i as real, sorted[i]))
  }

  function PathsOf(frames: seq<ExtractedFrame>): seq<Path> {
    seq(|frames|, i requires 0 <= i < |frames| => frames[i].path)
  }

  /** The frames carry the given paths, each as often as given, in ascending order, and are numbered by it. */
  lemma FramesInPathOrder(paths: seq<Path>)
    ensures var frames := FramesFromPaths(paths);
            && multiset(PathsOf(frames)) == multiset(paths) && Ascending(PathsOf(frames))
            && forall i :: 0 <= i < |frames| ==> frames[i].frameIndex == i && frames[i].timestampSeconds == i as real
  {
    SortedIsAscending(paths);
    assert PathsOf(FramesFromPaths(paths)) == Sorted(paths);
  }

  /** `frames[k : k + size]` for k = 0, size, 2 * size, ... */
  function FrameBatches(frames: seq<ExtractedFrame>, size: nat): seq<seq<ExtractedFrame>>
    requires size >= 1
    decreases |frames|
  {
    if frames == [] then []
    else if |frames| <= size then [frames]
    else [frames[..size]] + FrameBatches(frames[size..], size)
  }

  function Concat<T>(parts: seq<seq<T>>): seq<T> {
    if parts == [] then [] else parts[0] + Concat(parts[1..])
  }

  /** Put together again the batches are the frames; the last one may be shorter than `size`, but not empty. */
  lemma {:induction false} BatchesCover(frames: seq<ExtractedFrame>, size: nat)
    requires size >= 1
    ensures var batches := FrameBatches(frames, size);
            && Concat(batches) == frames
            && (forall b :: 0 <= b < |batches| ==> 1 <= |batches[b]| <= size)
            && (forall b :: 0 <= b < |batches| - 1 ==> |batches[b]| == size)
    decreases |frames|
  {
    if |frames| > size {
      BatchesCover(frames[size..], size);
      var batches := FrameBatches(frames, size);
      assert batches[1..] == FrameBatches(frames[size..], size);
      assert frames == frames[..size] + frames[size..];
      assert forall b :: 1 <= b < |batches| ==> batches[b] == batches[1..][b - 1];
    }
  }

  // ---------- one batch ----------

  /** What the model client does on one attempt. */
  datatype Response = Answer(raw: string) | ClientError(e: Exn)

  function ToFrameResult(source: ExtractedFrame, o: FrameOutput): FrameResult {
    FrameResult(source.frameIndex, source.timestampSeconds, o.topCategory, IsNsfw(o.categories),
                Score(o.categories, o.topCategory), o.categories, o.reason)
  }

  function Attach(frames: seq<ExtractedFrame>, outputs: seq<FrameOutput>): (results: seq<FrameResult>)
    requires |outputs| == |frames|
    ensures |results| == |frames| && forall i :: 0 <= i < |frames| ==>
            results[i] == ToFrameResult(frames[i], outputs[i])
  {
    seq(|frames|, i requires 0 <= i < |frames| => ToFrameResult(frames[i], outputs[i]))
  }

  /** The result has the index and time of the source frame, whatever index the model gave, and the category, scores and
      reason of the model; its severity is the score of the category, its flag the blocking policy. */
  predicate Carries(f: ExtractedFrame, o: FrameOutput, r: FrameResult) {
    && r.frameIndex == f.frameIndex && r.timestampSeconds == f.timestampSeconds
    && r.topCategory == o.topCategory && r.categories == o.categories && r.reason == o.reason
    && o.topCategory in o.categories && r.overallSeverity == o.categories[o.topCategory]
    && (r.isNsfw <==> IsNsfw(o.categories))
  }

  predicate CarriesAll(frames: seq<ExtractedFrame>, outputs: seq<FrameOutput>, results: seq<FrameResult>) {
    |frames| == |outputs| == |results|
    && forall i :: 0 <= i < |frames| ==> Carries(frames[i], outputs[i], results[i])
  }

  ghost predicate Readable(frames: seq<ExtractedFrame>, response: Response) {
    response.Answer? && exists outputs :: Reads(response.raw, |frames|, outputs)
  }

  function MaxAttempts(value: int): nat {
    if value < 1 then 1 else value
  }

  /** There is a first try, and then as many as the setting allows. */
  predicate Tried(k: nat, gpuMaxAttempts: int) {
    k == 1 || 1 < k <= gpuMaxAttempts
  }

  /** The outputs the model gave for this batch: those of its first readable answer. */
  ghost predicate Said(batch: seq<ExtractedFrame>, gpuMaxAttempts: int, client: nat -> Response,
                       outputs: seq<FrameOutput>)
  {
    exists k: nat :: Tried(k, gpuMaxAttempts) && client(k).Answer? && Reads(client(k).raw, |batch|, outputs)
      && forall i :: 1 <= i < k ==> !Readable(batch, client(i))
  }

  /** No answer the client gives to this batch within the allowed attempts is readable. */
  ghost predicate Unanswered(batch: seq<ExtractedFrame>, gpuMaxAttempts: int, client: nat -> Response) {
    forall k :: Tried(k, gpuMaxAttempts) ==> !Readable(batch, client(k))
  }

  /** The exception of one attempt: the client's own, or the fault of its answer. */
  ghost predicate AttemptFails(frames: seq<ExtractedFrame>, response: Response, e: Exn) {
    match response
    case ClientError(raised) => e == raised
    case Answer(raw) => exists fault :: Faults(raw, |frames|, fault) && e == ErrorOf(fault)
  }

  /** The exception of an exhausted retry loop: application errors as they are, others wrapped. */
  function ModelFailure(last: Exn): Exn {
    if last.AppError? then last
    else AppError("model_moderation_failed", "model moderation failed after retries", 503)
  }

  function ErrorOf(e: ModelError): Exn {
    match e
    case InvalidJson => AppError("model_response_invalid_json", "model response was not valid JSON", 502)
    case NotAnArray => AppError("model_response_invalid_schema", "model response must be a JSON array", 502)
    case WrongCount =>
      AppError("model_response_invalid_schema", "model response count did not match request count", 502)
    case InvalidFrame(i) =>
      AppError("model_response_invalid_schema", "invalid frame response at index " + Decimal.Print(i), 502)
    case OutOfOrder(_) => AppError("model_response_invalid_schema", "frame_index did not match response order", 502)
  }

  /** However the model failed, its failure is an application error of status 502 or 503 with a code that is not
      terminal, or the client's own: so an unreadable answer is retried by the queue as long as attempts are left. */
  lemma ModelFailuresAreRetried(fault: ModelError, last: Exn, attempts: nat, maxAttempts: int)
    ensures var e := ErrorOf(fault);
            && e.AppError? && e.statusCode == 502 && ModelFailure(e) == e
            && e.code == (if fault.InvalidJson? then "model_response_invalid_json" else "model_response_invalid_schema")
            && e.message == (match fault
                             case InvalidJson => "model response was not valid JSON"
                             case NotAnArray => "model response must be a JSON array"
                             case WrongCount => "model response count did not match request count"
                             case InvalidFrame(i) => "invalid frame response at index " + Decimal.Print(i)
                             case OutOfOrder(_) => "frame_index did not match response order")
            && (ClassifyProcessingError(e, attempts, maxAttempts).retryable <==> attempts < maxAttempts)
    ensures last.AppError? ==> ModelFailure(last) == last
    ensures !last.AppError? ==>
              && ModelFailure(last) == AppError("model_moderation_failed", "model moderation failed after retries", 503)
              && (ClassifyProcessingError(ModelFailure(last), attempts, maxAttempts).retryable <==>
                  attempts < maxAttempts)
  {
    assert "model_response_invalid_json" !in TERMINAL_PROCESSING_ERROR_CODES;
  }

  /** The exception of this batch after its last attempt. */
  ghost predicate BatchFails(batch: seq<ExtractedFrame>, gpuMaxAttempts: int, client: nat -> Response, e: Exn) {
    && Unanswered(batch, gpuMaxAttempts, client)
    && exists k: nat, last ::
         Tried(k, gpuMaxAttempts) && !Tried(k + 1, gpuMaxAttempts)
         && AttemptFails(batch, client(k), last) && e == ModelFailure(last)
  }

  /** There is at least one attempt and otherwise as many as the setting allows. The first readable answer among them
      is what the model said, and without one the exception is that of the last attempt. */
  lemma AttemptsAllowed(batch: seq<ExtractedFrame>, gpuMaxAttempts: int, client: nat -> Response,
                        outputs: seq<FrameOutput>, e: Exn)
    ensures var n := if gpuMaxAttempts < 1 then 1 else gpuMaxAttempts;
            && (Said(batch, gpuMaxAttempts, client, outputs) <==>
                exists k: nat :: 1 <= k <= n && client(k).Answer? && Reads(client(k).raw, |batch|, outputs)
                  && forall i :: 1 <= i < k ==> !Readable(batch, client(i)))
            && (BatchFails(batch, gpuMaxAttempts, client, e) <==>
                && (forall k :: 1 <= k <= n ==> !Readable(batch, client(k)))
                && exists last :: AttemptFails(batch, client(n), last) && e == ModelFailure(last))
  {
    hide Readable, AttemptFails, ModelFailure, Reads;
    var n := if gpuMaxAttempts < 1 then 1 else gpuMaxAttempts;
    assert forall k: nat :: Tried(k, gpuMaxAttempts) <==> 1 <= k <= n;
    assert Tried(n, gpuMaxAttempts) && !Tried(n + 1, gpuMaxAttempts);
  }

  /** The retry loop over one batch: the first readable answer among the allowed attempts wins and is carried over frame
      by frame; the loop fails exactly when there is none. */
  method ModerateFrameBatch(frames: seq<ExtractedFrame>, batchSize: int, gpuMaxAttempts: int, client: nat -> Response)
    returns (r: Result<seq<FrameResult>, Exn>)
    ensures frames == [] ==> r == Ok([])
    ensures frames != [] && |frames| > batchSize ==>
              r == Err(OtherError("ValueError", "frame batch is larger than configured batch size"))
    ensures frames != [] && |frames| <= batchSize && r.Ok? ==>
              exists outputs :: Said(frames, gpuMaxAttempts, client, outputs) && CarriesAll(frames, outputs, r.value)
    ensures frames != [] && |frames| <= batchSize && r.Err? ==> BatchFails(frames, gpuMaxAttempts, client, r.error)
  {
    hide CarriesAll, Readable, AttemptFails, ModelFailure, Reads;
    if frames == [] {
      return Ok([]);
    }
    if |frames| > batchSize {
      return Err(OtherError("ValueError", "frame batch is larger than configured batch size"));
    }
    var maxAttempts := MaxAttempts(gpuMaxAttempts);
    var lastError := OtherError("RuntimeError", "GPU moderation failed without an exception");
    var attempt: nat := 1;
    while attempt <= maxAttempts
      invariant 1 <= attempt <= maxAttempts + 1
      invariant forall k :: 1 <= k < attempt ==> !Readable(frames, client(k))
      invariant attempt > 1 ==> AttemptFails(frames, client(attempt - 1), lastError)
    {
      ghost var outputs;
      r, outputs := TryAnswer(frames, client(attempt));
      assert Tried(attempt, gpuMaxAttempts);
      if r.Ok? {
        assert Said(frames, gpuMaxAttempts, client, outputs);
        return r;
      }
      lastError := r.error;
      attempt := attempt + 1;
    }
    assert Tried(maxAttempts, gpuMaxAttempts) && !Tried(maxAttempts + 1, gpuMaxAttempts);
    return Err(ModelFailure(lastError));
  }

  /** One attempt: the client's exception, or the parse of its answer attached to the frames. */
  method TryAnswer(frames: seq<ExtractedFrame>, response: Response)
    returns (r: Result<seq<FrameResult>, Exn>, ghost outputs: seq<FrameOutput>)
    ensures r.Ok? ==> response.Answer? && Reads(response.raw, |frames|, outputs) && CarriesAll(frames, outputs, r.value)
    ensures r.Err? ==> !Readable(frames, response)
    ensures r.Err? ==> AttemptFails(frames, response, r.error)
  {
    hide Reads, Faults, ErrorOf;
    outputs := [];
    match response {
      case ClientError(e) => r := Err(e);
      case Answer(raw) =>
        var parsed := ParseVisualBatchResponse(raw, |frames|);
        if parsed.Ok? {
          outputs := parsed.value;
          ReadingIsValid(raw, |frames|, outputs);
          OutputsAttached(frames, outputs);
          hide ValidOutput, Attach, CarriesAll;
          r := Ok(Attach(frames, parsed.value));
        } else {
          r := Err(ErrorOf(parsed.error));
        }
    }
  }

  /** The result belongs to its source frame and is valid. */
  predicate Matches(f: ExtractedFrame, r: FrameResult) {
    r.frameIndex == f.frameIndex && r.timestampSeconds == f.timestampSeconds && ValidFrame(r)
  }

  predicate Attached(frames: seq<ExtractedFrame>, results: seq<FrameResult>) {
    |results| == |frames| && forall i :: 0 <= i < |frames| ==> Matches(frames[i], results[i])
  }

  lemma OutputMatches(f: ExtractedFrame, o: FrameOutput)
    requires ValidOutput(o)
    ensures Carries(f, o, ToFrameResult(f, o))
    ensures forall r :: Carries(f, o, r) ==> Matches(f, r)
  {
    assert o.topCategory in o.categories;
    hide IsNsfw, TopMatches, ValidScores;
  }

  lemma OutputsAttached(frames: seq<ExtractedFrame>, outputs: seq<FrameOutput>)
    requires |outputs| == |frames| && forall i :: 0 <= i < |outputs| ==> ValidOutput(outputs[i])
    ensures CarriesAll(frames, outputs, Attach(frames, outputs))
  {
    hide ValidOutput, ToFrameResult, Carries;
    forall i | 0 <= i < |frames|
      ensures Carries(frames[i], outputs[i], ToFrameResult(frames[i], outputs[i]))
    {
      OutputMatches(frames[i], outputs[i]);
    }
  }

  lemma CarriedIsAttached(frames: seq<ExtractedFrame>, outputs: seq<FrameOutput>, results: seq<FrameResult>)
    requires CarriesAll(frames, outputs, results) && forall o :: o in outputs ==> ValidOutput(o)
    ensures Attached(frames, results)
  {
    hide Matches, ValidOutput, Carries;
    forall i | 0 <= i < |frames|
      ensures Matches(frames[i], results[i])
    {
      assert outputs[i] in outputs;
      OutputMatches(frames[i], outputs[i]);
    }
  }

  /** What is carried over from a readable answer is valid and attached to its frames. */
  lemma AnswerIsAttached(frames: seq<ExtractedFrame>, gpuMaxAttempts: int, client: nat -> Response,
                         outputs: seq<FrameOutput>, results: seq<FrameResult>)
    requires Said(frames, gpuMaxAttempts, client, outputs) && CarriesAll(frames, outputs, results)
    ensures Attached(frames, results) && forall o :: o in outputs ==> ValidOutput(o)
  {
    hide Reads, ValidOutput, Readable, CarriesAll, Attached;
    var k: nat :| Tried(k, gpuMaxAttempts) && client(k).Answer? && Reads(client(k).raw, |frames|, outputs);
    ReadingIsValid(client(k).raw, |frames|, outputs);
    CarriedIsAttached(frames, outputs, results);
  }

  // ---------- all batches ----------

  lemma CarriesAppend(fs: seq<ExtractedFrame>, os: seq<FrameOutput>, rs: seq<FrameResult>,
                      fs': seq<ExtractedFrame>, os': seq<FrameOutput>, rs': seq<FrameResult>)
    requires CarriesAll(fs, os, rs) && CarriesAll(fs', os', rs')
    ensures CarriesAll(fs + fs', os + os', rs + rs')
  {
    hide Carries;
  }

  lemma {:induction false} ConcatPrefix<T>(parts: seq<seq<T>>, k: nat)
    requires k < |parts|
    ensures Concat(parts[..k + 1]) == Concat(parts[..k]) + parts[k]
  {
    if k == 0 {
      assert parts[..1][1..] == [] && parts[..0] == [];
    } else {
      ConcatPrefix(parts[1..], k - 1);
      assert parts[..k + 1][1..] == parts[1..][..k] && parts[..k][1..] == parts[1..][..k - 1];
    }
  }

  /** Part by part the outputs the model gave for the first batches. */
  ghost predicate AllSaid(batches: seq<seq<ExtractedFrame>>, gpuMaxAttempts: int, client: nat -> nat -> Response,
                          said: seq<seq<FrameOutput>>)
  {
    |said| <= |batches|
    && forall b :: 0 <= b < |said| ==> Said(batches[b], gpuMaxAttempts, client(b), said[b])
  }

  lemma OneMoreSaid(batches: seq<seq<ExtractedFrame>>, gpuMaxAttempts: int, client: nat -> nat -> Response,
                    said: seq<seq<FrameOutput>>, outputs: seq<FrameOutput>)
    requires AllSaid(batches, gpuMaxAttempts, client, said) && |said| < |batches|
    requires Said(batches[|said|], gpuMaxAttempts, client(|said|), outputs)
    ensures AllSaid(batches, gpuMaxAttempts, client, said + [outputs])
  {
    hide Said;
  }

  /** The results so far, and those of one more batch. */
  lemma OneMoreCarried(batches: seq<seq<ExtractedFrame>>, said: seq<seq<FrameOutput>>, outputs: seq<FrameOutput>,
                       results: seq<FrameResult>, part: seq<FrameResult>)
    requires |said| < |batches|
    requires CarriesAll(Concat(batches[..|said|]), Concat(said), results)
    requires CarriesAll(batches[|said|], outputs, part)
    ensures CarriesAll(Concat(batches[..|said| + 1]), Concat(said + [outputs]), results + part)
  {
    var n := |said|;
    assert (said + [outputs])[..n] == said && (said + [outputs])[..n + 1] == said + [outputs];
    assert (said + [outputs])[n] == outputs;
    hide *;
    CarriesAppend(Concat(batches[..n]), Concat(said), results, batches[n], outputs, part);
    ConcatPrefix(batches, n);
    ConcatPrefix(said + [outputs], n);
  }

  /** The frame loop of `_process_video`. A batch size of zero makes Python's `range` raise; a negative one yields no
      batch at all. Otherwise each frame gets what the model said about it, batch by batch; or, if some batch is not
      answered, the exception is that of the first such batch. */
  method ModerateFrames(frames: seq<ExtractedFrame>, batchSize: int, gpuMaxAttempts: int,
                        client: nat -> nat -> Response)
    returns (r: Result<seq<FrameResult>, Exn>, ghost said: seq<seq<FrameOutput>>)
    ensures batchSize >= 1 ==> AllSaid(FrameBatches(frames, batchSize), gpuMaxAttempts, client, said)
    ensures batchSize >= 1 && r.Ok? ==>
              |said| == |FrameBatches(frames, batchSize)| && CarriesAll(frames, Concat(said), r.value)
    ensures batchSize >= 1 && r.Err? ==>
              && |said| < |FrameBatches(frames, batchSize)|
              && BatchFails(FrameBatches(frames, batchSize)[|said|], gpuMaxAttempts, client(|said|), r.error)
    ensures batchSize == 0 ==> r == Err(OtherError("ValueError", "range() arg 3 must not be zero"))
    ensures batchSize < 0 ==> r == Ok([])
  {
    said := [];
    if batchSize == 0 {
      return Err(OtherError("ValueError", "range() arg 3 must not be zero")), said;
    }
    if batchSize < 0 {
      return Ok([]), said;
    }
    var batches := FrameBatches(frames, batchSize);
    BatchesCover(frames, batchSize);
    hide FrameBatches, CarriesAll, AllSaid, Said, BatchFails, Concat;
    var results: seq<FrameResult> := [];
    NothingSaid(batches, gpuMaxAttempts, client);
    for b := 0 to |batches|
      invariant |said| == b && AllSaid(batches, gpuMaxAttempts, client, said)
      invariant CarriesAll(Concat(batches[..b]), Concat(said), results)
    {
      var batch := ModerateFrameBatch(batches[b], batchSize, gpuMaxAttempts, client(b));
      if batch.Err? {
        return Err(batch.error), said;
      }
      ghost var outputs :|
        Said(batches[b], gpuMaxAttempts, client(b), outputs) && CarriesAll(batches[b], outputs, batch.value);
      OneMoreSaid(batches, gpuMaxAttempts, client, said, outputs);
      OneMoreCarried(batches, said, outputs, results, batch.value);
      said := said + [outputs];
      results := results + batch.value;
    }
    assert batches[..|batches|] == batches;
    return Ok(results), said;
  }

  lemma NothingSaid(batches: seq<seq<ExtractedFrame>>, gpuMaxAttempts: int, client: nat -> nat -> Response)
    ensures AllSaid(batches, gpuMaxAttempts, client, [])
    ensures CarriesAll(Concat(batches[..0]), Concat([]), [])
  {
  }

  lemma {:induction false} ConcatMember<T>(parts: seq<seq<T>>, x: T)
    requires x in Concat(parts)
    ensures exists b :: 0 <= b < |parts| && x in parts[b]
  {
    if x !in parts[0] {
      ConcatMember(parts[1..], x);
      var b :| 0 <= b < |parts[1..]| && x in parts[1..][b];
      assert x in parts[b + 1];
    }
  }

  /** Everything the model said is valid, so the results are. */
  lemma AllAttached(batches: seq<seq<ExtractedFrame>>, gpuMaxAttempts: int, client: nat -> nat -> Response,
                    said: seq<seq<FrameOutput>>, results: seq<FrameResult>)
    requires AllSaid(batches, gpuMaxAttempts, client, said) && CarriesAll(Concat(batches), Concat(said), results)
    ensures Attached(Concat(batches), results) && forall o :: o in Concat(said) ==> ValidOutput(o)
  {
    hide Concat, CarriesAll, Attached, ValidOutput, Reads, Readable;
    forall o | o in Concat(said)
      ensures ValidOutput(o)
    {
      ConcatMember(said, o);
      var b :| 0 <= b < |said| && o in said[b];
      var k: nat :|
        Tried(k, gpuMaxAttempts) && client(b)(k).Answer? && Reads(client(b)(k).raw, |batches[b]|, said[b]);
      ReadingIsValid(client(b)(k).raw, |batches[b]|, said[b]);
    }
    CarriedIsAttached(Concat(batches), Concat(said), results);
  }

  /** End to end: extracted frames come back as results 0..n-1, result i for the i-th path in ascending order and at
      second i. */
  lemma ResultsInFrameOrder(paths: seq<Path>, results: seq<FrameResult>)
    requires Attached(FramesFromPaths(paths), results)
    ensures Sequential(results) && |results| == |paths|
    ensures forall i :: 0 <= i < |results| ==> results[i].timestampSeconds == i as real && ValidFrame(results[i])
    ensures exists sorted :: |sorted| == |results| && Ascending(sorted) && multiset(sorted) == multiset(paths)
              && forall i :: 0 <= i < |results| ==> Matches(ExtractedFrame(i, i as real, sorted[i]), results[i])
  {
    FramesInPathOrder(paths);
    hide Sorted, ValidFrame;
    var frames := FramesFromPaths(paths);
    var sorted := PathsOf(frames);
    forall i | 0 <= i < |results|
      ensures Matches(ExtractedFrame(i, i as real, sorted[i]), results[i])
    {
      assert Matches(frames[i], results[i]);
    }
  }

  /** So the rows of one job have distinct frame ids, also distinct from those of any other job. */
  lemma FrameIdsDistinct(j: string, xs: seq<FrameResult>, k: string, ys: seq<FrameResult>, a: nat, b: nat)
    requires Sequential(xs) && Sequential(ys) && a < |xs| && b < |ys|
    ensures FrameId(j, xs[a].frameIndex) == FrameId(k, ys[b].frameIndex) <==> j == k && a == b
  {
    if FrameId(j, xs[a].frameIndex) == FrameId(k, ys[b].frameIndex) {
      FrameIdInjective(j, xs[a].frameIndex, k, ys[b].frameIndex);
    }
  }

  /** The severity is the greatest the model gave a top category, and this category is such a one. */
  predicate SeverityIsOf(r: VideoResult, outputs: seq<FrameOutput>) {
    && (forall o :: o in outputs ==>
          o.topCategory in o.categories && o.categories[o.topCategory] <= r.maxOverallSeverity)
    && (exists o :: o in outputs && o.topCategory == r.finalTopCategory
                    && o.topCategory in o.categories && o.categories[o.topCategory] == r.maxOverallSeverity)
  }

  /** The maximum of each category is the greatest score the model gave it. */
  predicate MaximaAreOf(maxima: Scores, outputs: seq<FrameOutput>) {
    forall c: Category ::
      && c in maxima
      && (forall o :: o in outputs ==> c in o.categories && o.categories[c] <= maxima[c])
      && (exists o :: o in outputs && c in o.categories && o.categories[c] == maxima[c])
  }

  /** Output and result of one frame. */
  predicate Says(o: FrameOutput, f: FrameResult) {
    && f.topCategory == o.topCategory && f.categories == o.categories && o.topCategory in o.categories
    && f.overallSeverity == o.categories[o.topCategory] && (f.isNsfw <==> IsNsfw(o.categories))
  }

  predicate SaysAll(outputs: seq<FrameOutput>, results: seq<FrameResult>) {
    |outputs| == |results| && forall i :: 0 <= i < |outputs| ==> Says(outputs[i], results[i])
  }

  lemma CarriedIsSaid(frames: seq<ExtractedFrame>, outputs: seq<FrameOutput>, results: seq<FrameResult>)
    requires CarriesAll(frames, outputs, results)
    ensures SaysAll(outputs, results)
  {
    hide IsNsfw;
    assert forall i :: 0 <= i < |frames| ==> Carries(frames[i], outputs[i], results[i]);
  }

  lemma SeverityOfModel(r: VideoResult, outputs: seq<FrameOutput>, results: seq<FrameResult>)
    requires SaysAll(outputs, results) && forall f :: f in results ==> f.overallSeverity <= r.maxOverallSeverity
    requires exists f ::
               f in results && f.overallSeverity == r.maxOverallSeverity && f.topCategory == r.finalTopCategory
    ensures SeverityIsOf(r, outputs)
  {
    hide IsNsfw;
    var n :| 0 <= n < |results| && results[n].overallSeverity == r.maxOverallSeverity
      && results[n].topCategory == r.finalTopCategory;
    assert Says(outputs[n], results[n]) && outputs[n] in outputs;
    forall o | o in outputs
      ensures o.topCategory in o.categories && o.categories[o.topCategory] <= r.maxOverallSeverity
    {
      var i :| 0 <= i < |outputs| && outputs[i] == o;
      assert Says(outputs[i], results[i]) && results[i] in results;
    }
  }

  predicate Attained(results: seq<FrameResult>, c: Category, severity: int) {
    exists f :: f in results && (if c in f.categories then f.categories[c] else 0) == severity
  }

  lemma MaximaOfModel(maxima: Scores, outputs: seq<FrameOutput>, results: seq<FrameResult>)
    requires SaysAll(outputs, results) && forall o :: o in outputs ==> ValidScores(o.categories)
    requires forall c: Category :: c in maxima
    requires forall c, f :: f in results ==> (if c in f.categories then f.categories[c] else 0) <= maxima[c]
    requires forall c: Category :: Attained(results, c, maxima[c])
    ensures MaximaAreOf(maxima, outputs)
  {
    hide IsNsfw;
    forall c: Category
      ensures forall o :: o in outputs ==> c in o.categories && o.categories[c] <= maxima[c]
      ensures exists o :: o in outputs && c in o.categories && o.categories[c] == maxima[c]
    {
      assert Attained(results, c, maxima[c]);
      var f :| f in results && (if c in f.categories then f.categories[c] else 0) == maxima[c];
      var n :| 0 <= n < |results| && results[n] == f;
      assert Says(outputs[n], results[n]) && outputs[n] in outputs;
      forall o | o in outputs
        ensures c in o.categories && o.categories[c] <= maxima[c]
      {
        var i :| 0 <= i < |outputs| && outputs[i] == o;
        assert Says(outputs[i], results[i]) && results[i] in results;
      }
    }
  }

  lemma BlockedByModel(outputs: seq<FrameOutput>, results: seq<FrameResult>)
    requires SaysAll(outputs, results)
    ensures (exists f :: f in results && f.isNsfw) <==> exists o :: o in outputs && IsNsfw(o.categories)
  {
    hide IsNsfw;
    if f :| f in results && f.isNsfw {
      var i :| 0 <= i < |results| && results[i] == f;
      assert Says(outputs[i], results[i]) && outputs[i] in outputs;
    }
    if o :| o in outputs && IsNsfw(o.categories) {
      var i :| 0 <= i < |outputs| && outputs[i] == o;
      assert Says(outputs[i], results[i]) && results[i] in results;
    }
  }

  /** The verdict is about what the model said: its maxima are those of the model's scores, its severity and top
      category those of the model's worst output, and it blocks exactly if some output's scores are blocked. */
  lemma VerdictOfModel(settings: AggregationSettings, jobId: string, videoId: string, policyVersion: string,
                       frames: seq<ExtractedFrame>, outputs: seq<FrameOutput>, results: seq<FrameResult>)
    requires CarriesAll(frames, outputs, results) && frames != [] && forall o :: o in outputs ==> ValidOutput(o)
    ensures Aggregate(settings, jobId, videoId, policyVersion, results).Ok?
    ensures var r := Aggregate(settings, jobId, videoId, policyVersion, results).value;
            && r.totalFrameCount == |outputs| && SeverityIsOf(r, outputs)
            && MaximaAreOf(r.maxCategorySeverities, outputs)
            && (r.finalIsNsfw <==> exists o :: o in outputs && IsNsfw(o.categories))
  {
    ResultFacts(settings, jobId, videoId, policyVersion, results);
    ResultMaxima(settings, jobId, videoId, policyVersion, results);
    CarriedIsSaid(frames, outputs, results);
    var r := Aggregate(settings, jobId, videoId, policyVersion, results).value;
    hide Aggregate, IsNsfw, TopMatches, SaysAll, SeverityIsOf, MaximaAreOf;
    SeverityOfModel(r, outputs, results);
    forall c: Category
      ensures Attained(results, c, r.maxCategorySeverities[c])
    {
    }
    MaximaOfModel(r.maxCategorySeverities, outputs, results);
    BlockedByModel(outputs, results);
  }
}
