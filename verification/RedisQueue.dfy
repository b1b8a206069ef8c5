/** The three families of keys the Redis repository builds, and when they can be told apart. */
module RedisKeys {
  import opened VideoJobs

  function JobKey(jobId: string): string {
    "nsfw:video_job:" + jobId
  }

  function UniqueKey(t: Triple): string {
    "nsfw:video_job_unique:" + t.videoId + ":" + t.sourceObjectVersion + ":" + t.policyVersion
  }

  function VideoIdKey(videoId: string): string {
    "nsfw:video_job_by_video_id:" + videoId
  }

  /** The policy version comes last, so it may contain colons. */
  predicate ColonFree(t: Triple) {
    ':' !in t.videoId && ':' !in t.sourceObjectVersion
  }

  lemma JobKeyInjective(a: string, b: string)
    requires JobKey(a) == JobKey(b)
    ensures a == b
  {
    assert JobKey(a)[15..] == a && JobKey(b)[15..] == b;
  }

  lemma VideoIdKeyInjective(a: string, b: string)
    requires VideoIdKey(a) == VideoIdKey(b)
    ensures a == b
  {
    assert VideoIdKey(a)[27..] == a && VideoIdKey(b)[27..] == b;
  }

  /** The three namespaces are disjoint whatever the ids contain. */
  lemma NamespacesDisjoint(jobId: string, t: Triple, videoId: string)
    ensures JobKey(jobId) != UniqueKey(t) && JobKey(jobId) != VideoIdKey(videoId) && UniqueKey(t) != VideoIdKey(videoId)
  {
    var rest := t.videoId + ":" + t.sourceObjectVersion + ":" + t.policyVersion;
    assert UniqueKey(t) == "nsfw:video_job_unique:" + rest;
    assert JobKey(jobId)[14] == ':' && UniqueKey(t)[14] == '_' && VideoIdKey(videoId)[14] == '_';
    assert UniqueKey(t)[15] == 'u' && VideoIdKey(videoId)[15] == 'b';
  }

  lemma NoEarlierColon(a: string, x: string, b: string, y: string)
    requires |a| < |b| && ':' !in b
    ensures a + ":" + x != b + ":" + y
  {
    assert (a + ":" + x)[|a|] == ':';
    assert (b + ":" + y)[|a|] == b[|a|];
  }

  lemma FirstColon(a: string, x: string, b: string, y: string)
    requires a + ":" + x == b + ":" + y && ':' !in a && ':' !in b
    ensures a == b && x == y
  {
    if |a| < |b| {
      NoEarlierColon(a, x, b, y);
    } else if |b| < |a| {
      NoEarlierColon(b, y, a, x);
    } else {
      var s := a + ":" + x;
      assert s[..|a|] == a && s[..|a|] == b;
      assert s[|a| + 1..] == x && s[|a| + 1..] == y;
    }
  }

  /** Colon-free triples have distinct unique keys. */
  lemma UniqueKeyInjective(a: Triple, b: Triple)
    requires ColonFree(a) && ColonFree(b) && UniqueKey(a) == UniqueKey(b)
    ensures a == b
  {
    var ra := a.sourceObjectVersion + ":" + a.policyVersion;
    var rb := b.sourceObjectVersion + ":" + b.policyVersion;
    assert UniqueKey(a) == "nsfw:video_job_unique:" + (a.videoId + ":" + ra);
    assert UniqueKey(b) == "nsfw:video_job_unique:" + (b.videoId + ":" + rb);
    assert UniqueKey(a)[22..] == a.videoId + ":" + ra && UniqueKey(b)[22..] == b.videoId + ":" + rb;
    FirstColon(a.videoId, ra, b.videoId, rb);
    FirstColon(a.sourceObjectVersion, a.policyVersion, b.sourceObjectVersion, b.policyVersion);
  }

  // ---------- exactly when keys collide ----------

  predicate NoColon(t: Triple) {
    ':' !in t.videoId && ':' !in t.sourceObjectVersion && ':' !in t.policyVersion
  }

  function Joined(t: Triple): string {
    t.videoId + ":" + t.sourceObjectVersion + ":" + t.policyVersion
  }

  function Colons(s: string): nat {
    if s == "" then 0 else (if s[0] == ':' then 1 else 0) + Colons(s[1..])
  }

  lemma {:induction false} ColonsAppend(a: string, b: string)
    ensures Colons(a + b) == Colons(a) + Colons(b)
  {
    if a == "" {
      assert a + b == b;
    } else {
      assert (a + b)[1..] == a[1..] + b;
      ColonsAppend(a[1..], b);
    }
  }

  lemma {:induction false} ColonsZero(s: string)
    ensures Colons(s) == 0 <==> ':' !in s
  {
    if s != "" {
      ColonsZero(s[1..]);
      assert s == [s[0]] + s[1..];
    }
  }

  /** A joined key has two colons of its own, so it has exactly two when its components have none. */
  lemma ColonsOfJoined(t: Triple)
    ensures Colons(Joined(t)) == 2 <==> NoColon(t)
  {
    assert Colons(":") == 1 by {
      assert ":"[1..] == "";
    }
    ColonsAppend(t.videoId + ":" + t.sourceObjectVersion + ":", t.policyVersion);
    ColonsAppend(t.videoId + ":" + t.sourceObjectVersion, ":");
    ColonsAppend(t.videoId + ":", t.sourceObjectVersion);
    ColonsAppend(t.videoId, ":");
    ColonsZero(t.videoId);
    ColonsZero(t.sourceObjectVersion);
    ColonsZero(t.policyVersion);
    hide Colons;
  }

  lemma SameKeyIsSameText(t: Triple, u: Triple)
    ensures UniqueKey(t) == UniqueKey(u) <==> Joined(t) == Joined(u)
  {
    assert UniqueKey(t) == "nsfw:video_job_unique:" + Joined(t) && UniqueKey(u) == "nsfw:video_job_unique:" + Joined(u);
    assert UniqueKey(t)[22..] == Joined(t) && UniqueKey(u)[22..] == Joined(u);
  }

  lemma SplitAtColon(s: string) returns (a: string, b: string)
    requires ':' in s
    ensures s == a + ":" + b && |a| < |s|
  {
    var i :| 0 <= i < |s| && s[i] == ':';
    a, b := s[..i], s[i + 1..];
  }

  /** Another triple of the same joined text, made by moving a colon from inside a component to between two. */
  lemma Reparted(t: Triple) returns (u: Triple)
    requires !NoColon(t)
    ensures u != t && Joined(u) == Joined(t)
  {
    if ':' in t.videoId {
      var a, b := SplitAtColon(t.videoId);
      u := Triple(a, b, t.sourceObjectVersion + ":" + t.policyVersion);
      assert Joined(u) == a + ":" + b + ":" + t.sourceObjectVersion + ":" + t.policyVersion == Joined(t);
    } else if ':' in t.sourceObjectVersion {
      var a, b := SplitAtColon(t.sourceObjectVersion);
      u := Triple(t.videoId, a, b + ":" + t.policyVersion);
      assert Joined(u) == t.videoId + ":" + a + ":" + b + ":" + t.policyVersion == Joined(t);
    } else {
      var a, b := SplitAtColon(t.policyVersion);
      u := Triple(t.videoId, t.sourceObjectVersion + ":" + a, b);
      assert Joined(u) == t.videoId + ":" + t.sourceObjectVersion + ":" + a + ":" + b == Joined(t);
    }
  }

  /** A triple shares its unique key with another one exactly when one of its components contains a colon. */
  lemma UniqueKeyCollidesExactly(t: Triple)
    ensures (exists u :: u != t && UniqueKey(u) == UniqueKey(t)) <==> !NoColon(t)
  {
    hide UniqueKey;
    if NoColon(t) {
      forall u | UniqueKey(u) == UniqueKey(t)
        ensures u == t
      {
        SameKeyIsSameText(u, t);
        ColonsOfJoined(t);
        ColonsOfJoined(u);
        UniqueKeyInjective(u, t);
      }
    } else {
      var u := Reparted(t);
      SameKeyIsSameText(u, t);
    }
  }
}

/** The keyspace and the streams of the Redis repository as a value, with each repository operation as the commands it
    issues; the enqueue is the transactional one. */
module RedisState {
  import opened Common
  import opened VideoJobs
  import opened JobCodec
  import opened RedisKeys
  import QueueState

  datatype Value = Plain(text: string) | Hash(fields: Mapping)

  /** Entries keep their order; the id the server gives one is its place in the stream. */
  datatype StreamEntry = StreamEntry(jobId: string, payload: Mapping)

  datatype Redis = Redis(keys: map<string, Value>, stream: seq<StreamEntry>)

  function HGetAll(r: Redis, key: string): Mapping {
    if key in r.keys && r.keys[key].Hash? then r.keys[key].fields else map[]
  }

  /** HSET writes the given fields and keeps the others. */
  function HSet(r: Redis, key: string, fields: Mapping): Redis {
    r.(keys := r.keys[key := Hash(HGetAll(r, key) + fields)])
  }

  function Get(r: Redis, key: string): string {
    if key in r.keys && r.keys[key].Plain? then r.keys[key].text else ""
  }

  function Set(r: Redis, key: string, text: string): Redis {
    r.(keys := r.keys[key := Plain(text)])
  }

  function SetNx(r: Redis, key: string, text: string): Redis {
    if key in r.keys then r else Set(r, key, text)
  }

  function XAdd(r: Redis, jobId: string, payload: Mapping): Redis {
    r.(stream := r.stream + [StreamEntry(jobId, payload)])
  }

  /** Every stored job can be read back, so that no lookup raises. */
  ghost predicate Readable(r: Redis) {
    forall j {:trigger JobKey(j)} :: HGetAll(r, JobKey(j)) != map[] ==> Decode(HGetAll(r, JobKey(j))).Some?
  }

  function GetJobById(r: Redis, jobId: string): Option<VideoJob> {
    var data := HGetAll(r, JobKey(jobId));
    if data == map[] then None else Decode(data)
  }

  function GetJobByVideoId(r: Redis, videoId: string): Option<VideoJob> {
    var jobId := Get(r, VideoIdKey(videoId));
    if jobId == "" then None else GetJobById(r, jobId)
  }

  /** The job an enqueue finds: under its own id, else under the unique key of its triple, in whatever status. */
  function ExistingJob(r: Redis, request: VideoDetectRequest): Option<VideoJob> {
    if GetJobById(r, request.jobId).Some? then GetJobById(r, request.jobId) else
    var owner := Get(r, UniqueKey(TripleOfRequest(request)));
    if owner == "" then None else GetJobById(r, owner)
  }

  function Create(r: Redis, job: VideoJob): Redis {
    XAdd(Set(Set(HSet(r, JobKey(job.jobId), Encode(job)), UniqueKey(TripleOf(job)), job.jobId),
             VideoIdKey(job.videoId), job.jobId),
         job.jobId, Encode(job))
  }

  function Enqueue(r: Redis, request: VideoDetectRequest, now: Time): Redis {
    match ExistingJob(r, request)
    case Some(existing) => SetNx(r, VideoIdKey(existing.videoId), existing.jobId)
    case None => Create(r, NewJob(request, now))
  }

  function EnqueueAnswer(r: Redis, request: VideoDetectRequest, now: Time): QueueState.EnqueueResult {
    match ExistingJob(r, request)
    case Some(existing) => QueueState.EnqueueResult(existing, false)
    case None => QueueState.EnqueueResult(NewJob(request, now), true)
  }

  function UpdateStatus(r: Redis, jobId: string, status: VideoJobStatus, code: Option<string>, message: Option<string>,
                        now: Time): Redis
  {
    match GetJobById(r, jobId)
    case None => r
    case Some(job) => HSet(r, JobKey(jobId), Encode(WithStatus(job, status, code, message, now)))
  }

  function Requeue(r: Redis, jobId: string): Redis {
    match GetJobById(r, jobId)
    case None => r
    case Some(job) => XAdd(r, job.jobId, Encode(job))
  }

  // ---------- what the operations do, key by key ----------

  /** The job of an id is its decoded hash, that of a video the one its index key names. */
  lemma LookUpFacts(r: Redis, jobId: string, videoId: string)
    ensures var key := "nsfw:video_job:" + jobId;
            GetJobById(r, jobId) ==
            if key in r.keys && r.keys[key].Hash? && r.keys[key].fields != map[] then Decode(r.keys[key].fields)
            else None
    ensures var key := "nsfw:video_job_by_video_id:" + videoId;
            GetJobByVideoId(r, videoId) ==
            if key in r.keys && r.keys[key].Plain? && r.keys[key].text != "" then GetJobById(r, r.keys[key].text)
            else None
  {
    hide Decode;
  }

  /** A request that finds no job stores the new one as a hash, points both index keys to it and appends it to the
      stream; any other request at most completes the video-id key of the job it found. */
  lemma EnqueueFacts(r: Redis, request: VideoDetectRequest, now: Time)
    requires Readable(r)
    ensures var r', a := Enqueue(r, request, now), EnqueueAnswer(r, request, now);
            var unique := "nsfw:video_job_unique:" + request.videoId + ":" + request.sourceObjectVersion + ":"
                          + request.policyVersion;
            var owner := if unique in r.keys && r.keys[unique].Plain? then r.keys[unique].text else "";
            && (a.enqueued <==>
                GetJobById(r, request.jobId).None? && (owner == "" || GetJobById(r, owner).None?))
            && (!a.enqueued ==>
                  && (GetJobById(r, request.jobId) == Some(a.job)
                      || (GetJobById(r, request.jobId).None? && GetJobById(r, owner) == Some(a.job)))
                  && var byVideo := "nsfw:video_job_by_video_id:" + a.job.videoId;
                     r' == if byVideo in r.keys then r else r.(keys := r.keys[byVideo := Plain(a.job.jobId)]))
            && (a.enqueued ==>
                  && r'.stream == r.stream + [StreamEntry(request.jobId, Encode(a.job))]
                  && r'.keys == r.keys["nsfw:video_job:" + request.jobId := Hash(Encode(a.job))]
                    [unique := Plain(request.jobId)]
                    ["nsfw:video_job_by_video_id:" + request.videoId := Plain(request.jobId)])
  {
    hide Decode, Encode;
    var a := EnqueueAnswer(r, request, now);
    if a.enqueued {
      var key := JobKey(request.jobId);
      assert HGetAll(r, key) == map[];
      assert map[] + Encode(a.job) == Encode(a.job);
      NamespacesDisjoint(request.jobId, TripleOfRequest(request), request.videoId);
    }
  }

  /** The new job is the request's, field by field. */
  lemma NewJobFacts(r: Redis, request: VideoDetectRequest, now: Time)
    ensures var a := EnqueueAnswer(r, request, now);
            var job := a.job;
            a.enqueued ==>
              && job.jobId == request.jobId && job.videoId == request.videoId
              && job.sourceObjectVersion == request.sourceObjectVersion && job.policyVersion == request.policyVersion
              && job.publisherUserId == request.publisherUserId && job.sourceVideoUri == request.sourceVideoUri
              && job.postId == request.postId && job.canisterId == request.canisterId
              && job.uploadEventId == request.uploadEventId && job.traceId == request.traceId
              && job.status == Queued && job.attempts == 0
              && job.createdAt == Some(now) && job.updatedAt == Some(now)
              && job.startedAt == None && job.finishedAt == None
              && job.lastErrorCode == None && job.lastErrorMessage == None
  {
    hide ExistingJob;
  }

  /** A status update rewrites the hash of the job it reads. */
  lemma UpdateFacts(r: Redis, jobId: string, status: VideoJobStatus, code: Option<string>, message: Option<string>,
                    now: Time)
    ensures GetJobById(r, jobId).None? ==> UpdateStatus(r, jobId, status, code, message, now) == r
    ensures GetJobById(r, jobId).Some? ==>
              var r', x := UpdateStatus(r, jobId, status, code, message, now), GetJobById(r, jobId).value;
              var key := "nsfw:video_job:" + jobId;
              var attempts := x.attempts + if status == Processing then 1 else 0;
              var started := if status == Processing then Some(now) else x.startedAt;
              var finished := if status in {Classified, FailedTerminal, Superseded} then Some(now) else x.finishedAt;
              && key in r.keys && r.keys[key].Hash?
              && r' == r.(keys := r.keys[key := Hash(r.keys[key].fields + Encode(x.(status := status,
                attempts := attempts, lastErrorCode := code, lastErrorMessage := message, updatedAt := Some(now),
                startedAt := started, finishedAt := finished)))])
  {
    hide Decode, Encode;
  }
}

/** The repository class: each method issues its commands one after another. */
module RedisRepository {
  import opened Common
  import opened VideoJobs
  import opened JobCodec
  import opened RedisKeys
  import RS = RedisState
  import QueueState

  class RedisVideoQueueRepository {
    var keys: map<string, RS.Value>
    var stream: seq<RS.StreamEntry>

    ghost function State(): RS.Redis
      reads this
    {
      RS.Redis(keys, stream)
    }

    constructor ()
      ensures State() == RS.Redis(map[], [])
    {
      keys, stream := map[], [];
    }

    method HGetAll(key: string) returns (fields: Mapping)
      ensures fields == RS.HGetAll(State(), key)
    {
      fields := if key in keys && keys[key].Hash? then keys[key].fields else map[];
    }

    method HSet(key: string, fields: Mapping)
      modifies this
      ensures State() == RS.HSet(old(State()), key, fields)
    {
      var before := HGetAll(key);
      keys := keys[key := RS.Hash(before + fields)];
    }

    method Get(key: string) returns (text: string)
      ensures text == RS.Get(State(), key)
    {
      text := if key in keys && keys[key].Plain? then keys[key].text else "";
    }

    method Set(key: string, text: string)
      modifies this
      ensures State() == RS.Set(old(State()), key, text)
    {
      keys := keys[key := RS.Plain(text)];
    }

    method SetNx(key: string, text: string)
      modifies this
      ensures State() == RS.SetNx(old(State()), key, text)
    {
      if key !in keys {
        Set(key, text);
      }
    }

    method XAdd(jobId: string, payload: Mapping)
      modifies this
      ensures State() == RS.XAdd(old(State()), jobId, payload)
    {
      stream := stream + [RS.StreamEntry(jobId, payload)];
    }

    method GetJobById(jobId: string) returns (job: Option<VideoJob>)
      ensures job == RS.GetJobById(State(), jobId)
    {
      hide Decode;
      var data := HGetAll(JobKey(jobId));
      job := if data == map[] then None else Decode(data);
    }

    method GetJobByVideoId(videoId: string) returns (job: Option<VideoJob>)
      ensures job == RS.GetJobByVideoId(State(), videoId)
    {
      var jobId := Get(VideoIdKey(videoId));
      if jobId == "" {
        return None;
      }
      job := GetJobById(jobId);
    }

    method EnqueueVideoJob(request: VideoDetectRequest, now: Time) returns (result: QueueState.EnqueueResult)
      requires ValidRequest(request) && RS.Readable(State())
      modifies this
      ensures State() == RS.Enqueue(old(State()), request, now)
      ensures result == RS.EnqueueAnswer(old(State()), request, now)
      ensures var unique := "nsfw:video_job_unique:" + request.videoId + ":" + request.sourceObjectVersion + ":"
                            + request.policyVersion;
              result.enqueued ==>
                && stream == old(stream) + [RS.StreamEntry(request.jobId, Encode(result.job))]
                && keys == old(keys)["nsfw:video_job:" + request.jobId := RS.Hash(Encode(result.job))]
                  [unique := RS.Plain(request.jobId)]
                  ["nsfw:video_job_by_video_id:" + request.videoId := RS.Plain(request.jobId)]
      ensures var job := result.job;
              result.enqueued ==>
                && job.jobId == request.jobId && job.videoId == request.videoId
                && job.sourceObjectVersion == request.sourceObjectVersion
                && job.policyVersion == request.policyVersion
                && job.publisherUserId == request.publisherUserId && job.sourceVideoUri == request.sourceVideoUri
                && job.postId == request.postId && job.canisterId == request.canisterId
                && job.uploadEventId == request.uploadEventId && job.traceId == request.traceId
                && job.status == Queued && job.attempts == 0
                && job.createdAt == Some(now) && job.updatedAt == Some(now)
                && job.startedAt == None && job.finishedAt == None
                && job.lastErrorCode == None && job.lastErrorMessage == None
    {
      RS.EnqueueFacts(State(), request, now);
      RS.NewJobFacts(State(), request, now);
      hide Decode, Encode, JobKey, UniqueKey, VideoIdKey;
      var existing := GetJobById(request.jobId);
      if existing.Some? {
        SetNx(VideoIdKey(existing.value.videoId), existing.value.jobId);
        return QueueState.EnqueueResult(existing.value, false);
      }
      var uniqueKey := UniqueKey(TripleOfRequest(request));
      var existingJobId := Get(uniqueKey);
      if existingJobId != "" {
        var owner := GetJobById(existingJobId);
        if owner.Some? {
          SetNx(VideoIdKey(owner.value.videoId), owner.value.jobId);
          return QueueState.EnqueueResult(owner.value, false);
        }
      }
      var job := NewJob(request, now);
      HSet(JobKey(job.jobId), Encode(job));
      Set(uniqueKey, job.jobId);
      Set(VideoIdKey(job.videoId), job.jobId);
      XAdd(job.jobId, Encode(job));
      return QueueState.EnqueueResult(job, true);
    }

    method UpdateStatus(jobId: string, status: VideoJobStatus, code: Option<string>, message: Option<string>, now: Time)
      returns (updated: Option<VideoJob>)
      requires RS.Readable(State())
      modifies this
      ensures State() == RS.UpdateStatus(old(State()), jobId, status, code, message, now)
      ensures updated == match RS.GetJobById(old(State()), jobId)
                         case None => None
                         case Some(job) => Some(WithStatus(job, status, code, message, now))
    {
      hide Decode, Encode, JobKey;
      var job := GetJobById(jobId);
      if job.None? {
        return None;
      }
      var record := WithStatus(job.value, status, code, message, now);
      HSet(JobKey(jobId), Encode(record));
      return Some(record);
    }

    method RequeueVideoJob(jobId: string)
      requires RS.Readable(State())
      modifies this
      ensures State() == RS.Requeue(old(State()), jobId)
      ensures keys == old(keys)
      ensures var job := RS.GetJobById(old(State()), jobId);
              stream == old(stream) + if job.Some? then [RS.StreamEntry(job.value.jobId, Encode(job.value))] else []
    {
      hide Decode, Encode, JobKey;
      var job := GetJobById(jobId);
      if job.Some? {
        XAdd(job.value.jobId, Encode(job.value));
      }
    }
  }
}
