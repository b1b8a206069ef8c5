/** The string hash of a job record: `_job_to_mapping`, `_job_from_mapping`, and the two wire forms of a stream
    entry. */
module JobCodec {
  import opened Common
  import opened VideoJobs
  import Decimal
  import IsoTime

  /** The fields of a job hash; each stands for the dictionary key of the same name. */
  datatype Field =
    | JobId | VideoId | SourceObjectVersion | PolicyVersion | Status | PublisherUserId | PostId | CanisterId
    | SourceVideoUri | UploadEventId | TraceId | Attempts | LastErrorCode | LastErrorMessage
    | CreatedAt | UpdatedAt | StartedAt | FinishedAt

  /** In the order of the record's declaration. */
  function Fields(): seq<Field> {
    [JobId, VideoId, SourceObjectVersion, PolicyVersion, Status, PublisherUserId, PostId, CanisterId, SourceVideoUri,
     UploadEventId, TraceId, Attempts, LastErrorCode, LastErrorMessage, CreatedAt, UpdatedAt, StartedAt, FinishedAt]
  }

  type Mapping = map<Field, string>

  function StatusText(s: VideoJobStatus): string {
    match s
    case Queued => "queued"
    case Processing => "processing"
    case Classified => "classified"
    case FailedRetryable => "failed_retryable"
    case FailedTerminal => "failed_terminal"
    case Superseded => "superseded"
  }

  function StatusOf(text: string): Option<VideoJobStatus> {
    if text == "queued" then Some(Queued)
    else if text == "processing" then Some(Processing)
    else if text == "classified" then Some(Classified)
    else if text == "failed_retryable" then Some(FailedRetryable)
    else if text == "failed_terminal" then Some(FailedTerminal)
    else if text == "superseded" then Some(Superseded)
    else None
  }

  lemma StatusRoundTrip(s: VideoJobStatus)
    ensures StatusOf(StatusText(s)) == Some(s)
  {
  }

  // ---------- encoding ----------

  /** A value of the record before it is turned into text. */
  datatype Cell = Text(s: string) | Number(n: nat) | Moment(t: Time) | Absent

  function OptText(s: Option<string>): Cell {
    match s
    case None => Absent
    case Some(v) => Text(v)
  }

  function OptMoment(t: Option<Time>): Cell {
    match t
    case None => Absent
    case Some(v) => Moment(v)
  }

  function CellOf(job: VideoJob, f: Field): Cell {
    match f
    case JobId => Text(job.jobId)
    case VideoId => Text(job.videoId)
    case SourceObjectVersion => Text(job.sourceObjectVersion)
    case PolicyVersion => Text(job.policyVersion)
    case Status => Text(StatusText(job.status))
    case PublisherUserId => Text(job.publisherUserId)
    case PostId => OptText(job.postId)
    case CanisterId => OptText(job.canisterId)
    case SourceVideoUri => Text(job.sourceVideoUri)
    case UploadEventId => OptText(job.uploadEventId)
    case TraceId => OptText(job.traceId)
    case Attempts => Number(job.attempts)
    case LastErrorCode => OptText(job.lastErrorCode)
    case LastErrorMessage => OptText(job.lastErrorMessage)
    case CreatedAt => OptMoment(job.createdAt)
    case UpdatedAt => OptMoment(job.updatedAt)
    case StartedAt => OptMoment(job.startedAt)
    case FinishedAt => OptMoment(job.finishedAt)
  }

  function CellText(c: Cell): string {
    match c
    case Text(s) => s
    case Number(n) => Decimal.Print(n)
    case Moment(t) => IsoTime.Print(t)
    case Absent => ""
  }

  function Encode(job: VideoJob): Mapping {
    map f | f in Fields() :: CellText(CellOf(job, f))
  }

  lemma EveryField(f: Field)
    ensures f in Fields()
  {
    var k := match f
      case JobId => 0 case VideoId => 1 case SourceObjectVersion => 2 case PolicyVersion => 3 case Status => 4
      case PublisherUserId => 5 case PostId => 6 case CanisterId => 7 case SourceVideoUri => 8 case UploadEventId => 9
      case TraceId => 10 case Attempts => 11 case LastErrorCode => 12 case LastErrorMessage => 13 case CreatedAt => 14
      case UpdatedAt => 15 case StartedAt => 16 case FinishedAt => 17;
    assert Fields()[k] == f;
  }

  lemma EncodeAt(job: VideoJob, f: Field)
    ensures f in Encode(job) && Encode(job)[f] == CellText(CellOf(job, f))
  {
    EveryField(f);
  }

  lemma EncodeComplete(job: VideoJob)
    ensures forall f: Field :: f in Encode(job) && Encode(job)[f] == CellText(CellOf(job, f))
  {
    forall f: Field
      ensures f in Encode(job) && Encode(job)[f] == CellText(CellOf(job, f))
    {
      EncodeAt(job, f);
    }
  }

  /** The texts of the eighteen fields: the strings and the number, */
  lemma EncodedStrings(job: VideoJob)
    ensures forall f: Field :: f in Encode(job)
    ensures var d := Encode(job);
            && d[JobId] == job.jobId && d[VideoId] == job.videoId && d[SourceObjectVersion] == job.sourceObjectVersion
            && d[PolicyVersion] == job.policyVersion && d[PublisherUserId] == job.publisherUserId
            && d[SourceVideoUri] == job.sourceVideoUri && d[Attempts] == Decimal.Print(job.attempts)
  {
    EncodeComplete(job);
    hide Encode, OptText, OptMoment, StatusText, Decimal.Print;
  }

  /** the status, */
  lemma EncodedStatus(job: VideoJob)
    ensures Status in Encode(job)
    ensures Encode(job)[Status] == match job.status
                                   case Queued => "queued"
                                   case Processing => "processing"
                                   case Classified => "classified"
                                   case FailedRetryable => "failed_retryable"
                                   case FailedTerminal => "failed_terminal"
                                   case Superseded => "superseded"
  {
    EncodeAt(job, Status);
    hide Encode;
  }

  /** the optional strings, */
  lemma EncodedOptions(job: VideoJob)
    ensures forall f: Field :: f in Encode(job)
    ensures var d := Encode(job);
            && d[PostId] == (if job.postId.Some? then job.postId.value else "")
            && d[CanisterId] == (if job.canisterId.Some? then job.canisterId.value else "")
            && d[UploadEventId] == (if job.uploadEventId.Some? then job.uploadEventId.value else "")
            && d[TraceId] == (if job.traceId.Some? then job.traceId.value else "")
            && d[LastErrorCode] == (if job.lastErrorCode.Some? then job.lastErrorCode.value else "")
            && d[LastErrorMessage] == (if job.lastErrorMessage.Some? then job.lastErrorMessage.value else "")
  {
    EncodeComplete(job);
    OptionText(job.postId);
    OptionText(job.canisterId);
    OptionText(job.uploadEventId);
    OptionText(job.traceId);
    OptionText(job.lastErrorCode);
    OptionText(job.lastErrorMessage);
    hide Encode, OptText, OptMoment, StatusText, CellText;
  }

  lemma OptionText(s: Option<string>)
    ensures CellText(OptText(s)) == if s.Some? then s.value else ""
  {
  }

  /** and the moments. */
  lemma EncodedMoments(job: VideoJob)
    ensures forall f: Field :: f in Encode(job)
    ensures var d := Encode(job);
            && d[CreatedAt] == (if job.createdAt.Some? then IsoTime.Print(job.createdAt.value) else "")
            && d[UpdatedAt] == (if job.updatedAt.Some? then IsoTime.Print(job.updatedAt.value) else "")
            && d[StartedAt] == (if job.startedAt.Some? then IsoTime.Print(job.startedAt.value) else "")
            && d[FinishedAt] == (if job.finishedAt.Some? then IsoTime.Print(job.finishedAt.value) else "")
  {
    EncodeComplete(job);
    MomentText(job.createdAt);
    MomentText(job.updatedAt);
    MomentText(job.startedAt);
    MomentText(job.finishedAt);
    hide Encode, OptText, OptMoment, StatusText, CellText, IsoTime.Print;
  }

  lemma MomentText(t: Option<Time>)
    ensures CellText(OptMoment(t)) == if t.Some? then IsoTime.Print(t.value) else ""
  {
    hide IsoTime.Print;
  }

  /** `_job_to_mapping`: the record as a dictionary, each value then replaced by its text in place. */
  method JobToMapping(job: VideoJob) returns (data: map<Field, Cell>)
    ensures forall f: Field :: f in data && f in Encode(job) && data[f] == Text(Encode(job)[f])
  {
    forall f: Field
      ensures f in Fields() && f in Encode(job) && Encode(job)[f] == CellText(CellOf(job, f))
    {
      EncodeAt(job, f);
      EveryField(f);
    }
    hide Fields, CellOf, Encode;
    data := map f | f in Fields() :: CellOf(job, f);
    for i := 0 to |Fields()|
      invariant forall f: Field :: f in data
      invariant forall f: Field :: f in Fields()[..i] ==> data[f] == Text(CellText(CellOf(job, f)))
      invariant forall f: Field :: f !in Fields()[..i] ==> data[f] == CellOf(job, f)
    {
      var key := Fields()[i];
      FieldsDistinct(i);
      var value := data[key];
      var text := match value
        case Moment(t) => IsoTime.Print(t)
        case Absent => ""
        case Number(n) => Decimal.Print(n)
        case Text(s) => s;
      PrefixGrows(i);
      data := data[key := Text(text)];
    }
    assert Fields()[..|Fields()|] == Fields();
  }

  lemma PrefixGrows(i: nat)
    requires i < |Fields()|
    ensures forall f: Field :: f in Fields()[..i + 1] <==> f in Fields()[..i] || f == Fields()[i]
  {
    hide Fields;
    assert Fields()[..i + 1] == Fields()[..i] + [Fields()[i]];
  }

  lemma FieldsDistinct(i: nat)
    requires i < |Fields()|
    ensures Fields()[i] !in Fields()[..i]
  {
  }

  // ---------- decoding ----------

  function Entry(data: Mapping, f: Field, missing: string): string {
    if f in data then data[f] else missing
  }

  /** `value or None`. */
  function Optional(s: string): Option<string> {
    if s == "" then None else Some(s)
  }

  /** A moment, absent when the text is empty; the outer option is the failure to parse. */
  function OptionalMoment(s: string): Option<Option<Time>> {
    if s == "" then Some(None) else
    match IsoTime.Parse(s)
    case None => None
    case Some(t) => Some(Some(t))
  }

  const REQUIRED: set<Field> := {JobId, VideoId, PolicyVersion, Status, PublisherUserId, SourceVideoUri}

  /** `None` stands for the exception of a missing key or an unreadable status, number or time. */
  function Decode(data: Mapping): Option<VideoJob> {
    if !(REQUIRED <= data.Keys) then None else
    var attempts := Entry(data, Attempts, "0");
    match (StatusOf(data[Status]), Decimal.Parse(if attempts == "" then "0" else attempts),
           OptionalMoment(Entry(data, CreatedAt, "")), OptionalMoment(Entry(data, UpdatedAt, "")),
           OptionalMoment(Entry(data, StartedAt, "")), OptionalMoment(Entry(data, FinishedAt, "")))
    case (Some(status), Some(n), Some(created), Some(updated), Some(started), Some(finished)) =>
      Some(VideoJob(
        data[JobId], data[VideoId], Entry(data, SourceObjectVersion, ""), data[PolicyVersion], status,
        data[PublisherUserId], Optional(Entry(data, PostId, "")), Optional(Entry(data, CanisterId, "")),
        data[SourceVideoUri], Optional(Entry(data, UploadEventId, "")), Optional(Entry(data, TraceId, "")), n,
        Optional(Entry(data, LastErrorCode, "")), Optional(Entry(data, LastErrorMessage, "")),
        created, updated, started, finished))
    case _ => None
  }

  /** Fields that are missing and not required count as empty, attempts as zero. */
  lemma DecodeDefaults(data: Mapping, status: VideoJobStatus)
    requires data.Keys == {JobId, VideoId, PolicyVersion, Status, PublisherUserId, SourceVideoUri}
    requires data[Status] == StatusText(status)
    ensures Decode(data) ==
            Some(VideoJob(data[JobId], data[VideoId], "", data[PolicyVersion], status, data[PublisherUserId], None,
                          None, data[SourceVideoUri], None, None, 0, None, None, None, None, None, None))
  {
    StatusRoundTrip(status);
    ZeroReadable();
    hide StatusText, StatusOf, Decimal.Parse, IsoTime.Parse;
    assert REQUIRED <= data.Keys;
    assert Entry(data, SourceObjectVersion, "") == "" && Entry(data, Attempts, "0") == "0";
    assert Entry(data, PostId, "") == "" && Entry(data, CanisterId, "") == "" && Entry(data, UploadEventId, "") == "";
    assert Entry(data, TraceId, "") == "";
    assert Entry(data, LastErrorCode, "") == "" && Entry(data, LastErrorMessage, "") == "";
    assert Entry(data, CreatedAt, "") == "" && Entry(data, UpdatedAt, "") == "";
    assert Entry(data, StartedAt, "") == "" && Entry(data, FinishedAt, "") == "";
    hide Entry;
  }

  /** A missing required field, and a status, number or time that cannot be read, raise. */
  lemma UndecodableExactly(data: Mapping)
    ensures Decode(data).None? <==>
            || !({JobId, VideoId, PolicyVersion, Status, PublisherUserId, SourceVideoUri} <= data.Keys)
            || data[Status] !in {"queued", "processing", "classified", "failed_retryable", "failed_terminal",
                                 "superseded"}
            || (Attempts in data && data[Attempts] != "" && Decimal.Parse(data[Attempts]).None?)
            || exists f :: f in {CreatedAt, UpdatedAt, StartedAt, FinishedAt} && f in data && data[f] != ""
                           && IsoTime.Parse(data[f]).None?
  {
    hide IsoTime.Parse, Decimal.Parse, Decimal.Value;
    StatusReadable(if Status in data then data[Status] else "");
    ZeroReadable();
    hide StatusOf;
    TimeReadable(data, CreatedAt);
    TimeReadable(data, UpdatedAt);
    TimeReadable(data, StartedAt);
    TimeReadable(data, FinishedAt);
    hide OptionalMoment, Entry;
  }

  lemma ZeroReadable()
    ensures Decimal.Parse("0") == Some(0)
  {
    Decimal.PrintExamples();
    Decimal.ParsePrint(0);
  }

  lemma StatusReadable(text: string)
    ensures StatusOf(text).Some? <==>
            text in {"queued", "processing", "classified", "failed_retryable", "failed_terminal", "superseded"}
  {
  }

  lemma TimeReadable(data: Mapping, f: Field)
    ensures OptionalMoment(Entry(data, f, "")).None? <==> f in data && data[f] != "" && IsoTime.Parse(data[f]).None?
  {
    hide IsoTime.Parse;
  }

  function NormalizeText(s: Option<string>): Option<string> {
    if s == Some("") then None else s
  }

  /** Empty optional strings read back as absent. */
  function Normalize(job: VideoJob): VideoJob {
    job.(postId := NormalizeText(job.postId), canisterId := NormalizeText(job.canisterId),
      uploadEventId := NormalizeText(job.uploadEventId), traceId := NormalizeText(job.traceId),
      lastErrorCode := NormalizeText(job.lastErrorCode), lastErrorMessage := NormalizeText(job.lastErrorMessage))
  }

  // ---------- round trips ----------

  lemma TextRoundTrip(s: Option<string>)
    ensures Optional(CellText(OptText(s))) == NormalizeText(s)
    ensures CellText(OptText(NormalizeText(s))) == CellText(OptText(s))
  {
  }

  lemma MomentRoundTrip(t: Option<Time>)
    ensures OptionalMoment(CellText(OptMoment(t))) == Some(t)
  {
    if t.Some? {
      IsoTime.ParsePrint(t.value);
    }
  }

  lemma OptionalFields(job: VideoJob)
    ensures forall f: Field :: f in Encode(job)
    ensures Optional(Encode(job)[PostId]) == Normalize(job).postId
    ensures Optional(Encode(job)[CanisterId]) == Normalize(job).canisterId
    ensures Optional(Encode(job)[UploadEventId]) == Normalize(job).uploadEventId
    ensures Optional(Encode(job)[TraceId]) == Normalize(job).traceId
    ensures Optional(Encode(job)[LastErrorCode]) == Normalize(job).lastErrorCode
    ensures Optional(Encode(job)[LastErrorMessage]) == Normalize(job).lastErrorMessage
  {
    EncodeComplete(job);
    TextRoundTrip(job.postId);
    TextRoundTrip(job.canisterId);
    TextRoundTrip(job.uploadEventId);
    TextRoundTrip(job.traceId);
    TextRoundTrip(job.lastErrorCode);
    TextRoundTrip(job.lastErrorMessage);
    hide Encode, CellText, Optional, OptText, StatusText, OptMoment, NormalizeText;
  }

  lemma MomentFields(job: VideoJob)
    ensures forall f: Field :: f in Encode(job)
    ensures OptionalMoment(Encode(job)[CreatedAt]) == Some(job.createdAt)
    ensures OptionalMoment(Encode(job)[UpdatedAt]) == Some(job.updatedAt)
    ensures OptionalMoment(Encode(job)[StartedAt]) == Some(job.startedAt)
    ensures OptionalMoment(Encode(job)[FinishedAt]) == Some(job.finishedAt)
  {
    EncodeComplete(job);
    MomentRoundTrip(job.createdAt);
    MomentRoundTrip(job.updatedAt);
    MomentRoundTrip(job.startedAt);
    MomentRoundTrip(job.finishedAt);
    hide Encode, CellText, OptText, StatusText, OptMoment, OptionalMoment;
  }

  lemma PlainFields(job: VideoJob)
    ensures forall f: Field :: f in Encode(job)
    ensures Encode(job)[JobId] == job.jobId && Encode(job)[VideoId] == job.videoId
    ensures Encode(job)[SourceObjectVersion] == job.sourceObjectVersion
    ensures Encode(job)[PolicyVersion] == job.policyVersion
    ensures Encode(job)[PublisherUserId] == job.publisherUserId
    ensures Encode(job)[SourceVideoUri] == job.sourceVideoUri
    ensures StatusOf(Encode(job)[Status]) == Some(job.status)
    ensures Encode(job)[Attempts] != "" && Decimal.Parse(Encode(job)[Attempts]) == Some(job.attempts)
  {
    EncodeComplete(job);
    StatusRoundTrip(job.status);
    Decimal.ParsePrint(job.attempts);
    hide Encode, OptText, StatusText, OptMoment, StatusOf, Decimal.Parse, Decimal.Print;
  }

  /** Decoding an encoded record gives it back with empty optional strings turned into `None`. */
  lemma DecodeEncode(job: VideoJob)
    ensures Decode(Encode(job)) == Some(Normalize(job))
  {
    hide Encode, StatusOf, Decimal.Parse, OptionalMoment, Optional, NormalizeText;
    PlainFields(job);
    OptionalFields(job);
    MomentFields(job);
    assert REQUIRED <= Encode(job).Keys;
  }

  /** Two records share an encoding exactly when they differ only in empty versus absent optional strings. */
  lemma EncodeEqual(a: VideoJob, b: VideoJob)
    ensures Encode(a) == Encode(b) <==> Normalize(a) == Normalize(b)
  {
    DecodeEncode(a);
    DecodeEncode(b);
    if Normalize(a) == Normalize(b) {
      EncodeNormalized(a);
      EncodeNormalized(b);
    }
  }

  lemma NormalizedText(job: VideoJob, f: Field)
    ensures CellText(CellOf(Normalize(job), f)) == CellText(CellOf(job, f))
  {
    TextRoundTrip(job.postId);
    TextRoundTrip(job.canisterId);
    TextRoundTrip(job.uploadEventId);
    TextRoundTrip(job.traceId);
    TextRoundTrip(job.lastErrorCode);
    TextRoundTrip(job.lastErrorMessage);
    hide OptText, OptMoment, NormalizeText, StatusText, CellText;
  }

  lemma EncodeNormalized(job: VideoJob)
    ensures Encode(Normalize(job)) == Encode(job)
  {
    hide CellOf, CellText, Normalize, Encode;
    EncodeComplete(job);
    EncodeComplete(Normalize(job));
    forall f: Field
      ensures Encode(Normalize(job))[f] == Encode(job)[f]
    {
      NormalizedText(job, f);
    }
  }

  /** So a record read from the store is stored again unchanged. */
  lemma ReencodingIsStable(job: VideoJob)
    ensures Decode(Encode(job)).Some? && Encode(Decode(Encode(job)).value) == Encode(job)
  {
    DecodeEncode(job);
    EncodeNormalized(job);
  }

  // ---------- stream entries ----------

  /** `zip(payload[0::2], payload[1::2])`: an odd last element is ignored. */
  function Zip(payload: seq<string>): seq<(string, string)> {
    if |payload| < 2 then [] else [(payload[0], payload[1])] + Zip(payload[2..])
  }

  /** The dictionary of a list of pairs; a later pair wins. */
  function Dict(items: seq<(string, string)>): map<string, string> {
    if items == [] then map[] else Dict(items[..|items| - 1])[items[|items| - 1].0 := items[|items| - 1].1]
  }

  function FlatToMapping(payload: seq<string>): map<string, string> {
    Dict(Zip(payload))
  }

  /** The reply of a server that answers with an alternating list. */
  function Flatten(items: seq<(string, string)>): seq<string> {
    if items == [] then [] else [items[0].0, items[0].1] + Flatten(items[1..])
  }

  lemma {:induction false} ZipFlatten(items: seq<(string, string)>, odd: seq<string>)
    requires |odd| <= 1
    ensures Zip(Flatten(items) + odd) == items
  {
    if items != [] {
      ZipFlatten(items[1..], odd);
      var flat := Flatten(items) + odd;
      assert flat[2..] == Flatten(items[1..]) + odd;
      assert flat[0] == items[0].0 && flat[1] == items[0].1;
      assert items == [items[0]] + items[1..];
    }
  }

  predicate Lists(items: seq<(string, string)>, data: map<string, string>) {
    && (forall i, k :: 0 <= i < k < |items| ==> items[i].0 != items[k].0)
    && (forall i :: 0 <= i < |items| ==> items[i].0 in data && data[items[i].0] == items[i].1)
    && (forall key :: key in data ==> exists i :: 0 <= i < |items| && items[i].0 == key)
  }

  lemma {:induction false} DictOfItems(items: seq<(string, string)>, data: map<string, string>)
    requires Lists(items, data)
    ensures Dict(items) == data
  {
    if items == [] {
      assert data == map[];
    } else {
      var n := |items| - 1;
      DropLast(items, data);
      DictOfItems(items[..n], data - {items[n].0});
      hide Dict;
      assert data == (data - {items[n].0})[items[n].0 := items[n].1];
    }
  }

  /** Whatever order the fields of an entry are listed in, the flat form decodes to the dictionary form, with or without
      a stray last element. */
  lemma FlatFormAgrees(items: seq<(string, string)>, odd: seq<string>, data: map<string, string>)
    requires Lists(items, data) && |odd| <= 1
    ensures FlatToMapping(Flatten(items) + odd) == data
  {
    ZipFlatten(items, odd);
    DictOfItems(items, data);
  }

  lemma DropLast(items: seq<(string, string)>, data: map<string, string>)
    requires items != [] && Lists(items, data)
    ensures Lists(items[..|items| - 1], data - {items[|items| - 1].0})
  {
    var n := |items| - 1;
    forall key | key in data && key != items[n].0
      ensures exists i :: 0 <= i < n && items[..n][i].0 == key
    {
      var i :| 0 <= i < |items| && items[i].0 == key;
      assert items[..n][i].0 == key;
    }
  }
}
