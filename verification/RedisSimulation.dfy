/** The Redis repository simulates the in-memory one, up to empty optional strings, on colon-free triples, until a
    triple whose job waits for a retry is enqueued again under a new job id. */
module RedisSimulation {
  import opened Common
  import opened VideoJobs
  import opened JobCodec
  import opened RedisKeys
  import opened RedisState
  import QS = QueueState

  /** The in-memory repository with the insertion order of its job dictionary. */
  datatype Memory = Memory(q: QS.Queue, order: seq<string>)

  function MemoryEnqueue(m: Memory, r: VideoDetectRequest, now: Time): Memory {
    Memory(QS.Enqueue(m.q, r, now), if QS.ExistingJob(m.q, r).Some? then m.order else m.order + [r.jobId])
  }

  // ---------- the relation ----------

  /** The job of a video that was inserted last. */
  function LastCreated(jobs: map<string, VideoJob>, order: seq<string>, videoId: string): Option<string> {
    if order == [] then None
    else if order[|order| - 1] in jobs && jobs[order[|order| - 1]].videoId == videoId then Some(order[|order| - 1])
    else LastCreated(jobs, order[..|order| - 1], videoId)
  }

  ghost predicate JobsStored(r: Redis, jobs: map<string, VideoJob>) {
    forall j {:trigger JobKey(j)} ::
      (JobKey(j) in r.keys <==> j in jobs) && (j in jobs ==> r.keys[JobKey(j)] == Hash(Encode(jobs[j])))
  }

  ghost predicate IndexStored(r: Redis, index: map<Triple, string>) {
    forall t {:trigger UniqueKey(t)} :: ColonFree(t) ==>
      (UniqueKey(t) in r.keys <==> t in index) && (t in index ==> r.keys[UniqueKey(t)] == Plain(index[t]))
  }

  ghost predicate VideosStored(r: Redis, jobs: map<string, VideoJob>, order: seq<string>) {
    forall v {:trigger VideoIdKey(v)} ::
      match LastCreated(jobs, order, v)
      case None => VideoIdKey(v) !in r.keys
      case Some(j) => VideoIdKey(v) in r.keys && r.keys[VideoIdKey(v)] == Plain(j)
  }

  predicate StreamStored(stream: seq<StreamEntry>, messages: seq<QS.Message>) {
    && |stream| == |messages|
    && forall i :: 0 <= i < |stream| ==>
         stream[i].jobId == messages[i].jobId && stream[i].payload == Encode(messages[i].payload)
  }

  predicate OnlyColonFree(index: map<Triple, string>) {
    forall t :: t in index ==> ColonFree(t)
  }

  predicate Ordered(jobs: map<string, VideoJob>, order: seq<string>) {
    && (forall i :: 0 <= i < |order| ==> order[i] in jobs)
    && (forall j :: j in jobs ==> j in order)
    && (forall i, k :: 0 <= i < k < |order| ==> order[i] != order[k])
  }

  ghost predicate Related(r: Redis, m: Memory) {
    && QS.ValidQueue(m.q)
    && OnlyColonFree(m.q.uniqueIndex)
    && Ordered(m.q.jobs, m.order)
    && JobsStored(r, m.q.jobs)
    && IndexStored(r, m.q.uniqueIndex)
    && VideosStored(r, m.q.jobs, m.order)
    && StreamStored(r.stream, m.q.messages)
  }

  lemma InitiallyRelated()
    ensures Related(Redis(map[], []), Memory(QS.EmptyQueue(), []))
  {
  }

  // ---------- reading ----------

  function NormalizeJob(job: Option<VideoJob>): Option<VideoJob> {
    match job
    case None => None
    case Some(j) => Some(Normalize(j))
  }

  lemma EncodeNonEmpty(job: VideoJob)
    ensures Encode(job) != map[]
  {
    EncodeAt(job, JobId);
  }

  /** A related store answers get-by-id like the in-memory repository, up to empty optional strings. */
  lemma GetByIdAgrees(r: Redis, m: Memory, jobId: string)
    requires Related(r, m)
    ensures GetJobById(r, jobId) == NormalizeJob(QS.GetJob(m.q, jobId))
  {
    hide Encode, Decode, Normalize, IndexStored, VideosStored, StreamStored, QS.ValidQueue, Ordered, OnlyColonFree;
    if jobId in m.q.jobs {
      DecodeEncode(m.q.jobs[jobId]);
      EncodeNonEmpty(m.q.jobs[jobId]);
    }
    assert JobKey(jobId) in r.keys <==> jobId in m.q.jobs;
  }

  /** No lookup in a related store raises. */
  lemma RelatedIsReadable(r: Redis, m: Memory)
    requires Related(r, m)
    ensures Readable(r)
  {
    hide Encode, Decode, JobKey, IndexStored, VideosStored, StreamStored, QS.ValidQueue, Ordered, OnlyColonFree;
    forall j {:trigger JobKey(j)} | HGetAll(r, JobKey(j)) != map[]
      ensures Decode(HGetAll(r, JobKey(j))).Some?
    {
      assert j in m.q.jobs;
      DecodeEncode(m.q.jobs[j]);
    }
  }

  // ---------- existing jobs and the branch where the two part ----------

  /** The triple's job waits for a retry, and the request brings a new job id. */
  predicate AdmitsSecondJob(q: QS.Queue, r: VideoDetectRequest) {
    && r.jobId !in q.jobs
    && TripleOfRequest(r) in q.uniqueIndex
    && q.uniqueIndex[TripleOfRequest(r)] in q.jobs
    && q.jobs[q.uniqueIndex[TripleOfRequest(r)]].status == FailedRetryable
  }

  lemma OwnerAgrees(r: Redis, m: Memory, request: VideoDetectRequest)
    requires Related(r, m) && ColonFree(TripleOfRequest(request))
    ensures var t := TripleOfRequest(request);
            Get(r, UniqueKey(t)) == if t in m.q.uniqueIndex then m.q.uniqueIndex[t] else ""
  {
    hide Encode, JobsStored, VideosStored, StreamStored, QS.ValidQueue, Ordered, OnlyColonFree, ColonFree;
  }

  /** Redis finds exactly the jobs the in-memory repository finds, and the one waiting for a retry besides. */
  lemma ExistingAgrees(r: Redis, m: Memory, request: VideoDetectRequest)
    requires Related(r, m) && ColonFree(TripleOfRequest(request)) && request.jobId != ""
    ensures !AdmitsSecondJob(m.q, request) ==> ExistingJob(r, request) == NormalizeJob(QS.ExistingJob(m.q, request))
    ensures AdmitsSecondJob(m.q, request) ==>
              ExistingJob(r, request) == Some(Normalize(m.q.jobs[m.q.uniqueIndex[TripleOfRequest(request)]]))
    ensures AdmitsSecondJob(m.q, request) ==> QS.ExistingJob(m.q, request).None?
  {
    GetByIdAgrees(r, m, request.jobId);
    OwnerAgrees(r, m, request);
    var t := TripleOfRequest(request);
    if t in m.q.uniqueIndex {
      GetByIdAgrees(r, m, m.q.uniqueIndex[t]);
      assert m.q.uniqueIndex[t] in m.q.jobs && m.q.uniqueIndex[t] != "";
    }
    hide GetJobById, Normalize, JobsStored, IndexStored, VideosStored, StreamStored, Ordered, OnlyColonFree;
  }

  /** The two answers agree, up to empty optional strings, exactly when no second job is admitted. */
  lemma AnswersAgreeExactly(r: Redis, m: Memory, request: VideoDetectRequest, now: Time)
    requires Related(r, m) && ColonFree(TripleOfRequest(request)) && request.jobId != ""
    ensures var a, b := EnqueueAnswer(r, request, now), QS.EnqueueAnswer(m.q, request, now);
            a.enqueued == b.enqueued && Normalize(a.job) == Normalize(b.job) <==> !AdmitsSecondJob(m.q, request)
  {
    ExistingAgrees(r, m, request);
    hide ExistingJob, QS.ExistingJob, Related, NewJob;
  }

  // ---------- the video-id index ----------

  /** The in-memory lookup by video id: the first job, in insertion order, of the greatest `updated_at`. */
  function MostRecent(jobs: map<string, VideoJob>, order: seq<string>, videoId: string): Option<string> {
    if order == [] then None else
    var last := order[|order| - 1];
    var before := MostRecent(jobs, order[..|order| - 1], videoId);
    if !(last in jobs && jobs[last].videoId == videoId) then before
    else if before.Some? && before.value in jobs && Rank(jobs[last]) <= Rank(jobs[before.value]) then before
    else Some(last)
  }

  /** A missing `updated_at` counts as the earliest moment. */
  function Rank(job: VideoJob): int {
    match job.updatedAt
    case None => -1
    case Some(t) => t
  }

  lemma {:induction false} LastCreatedFacts(jobs: map<string, VideoJob>, order: seq<string>, videoId: string)
    ensures var l := LastCreated(jobs, order, videoId);
            && (l.Some? ==> l.value in order && l.value in jobs && jobs[l.value].videoId == videoId)
            && (l.None? ==> forall j :: j in order && j in jobs ==> jobs[j].videoId != videoId)
  {
    if order != [] {
      LastCreatedFacts(jobs, order[..|order| - 1], videoId);
      assert order == order[..|order| - 1] + [order[|order| - 1]];
    }
  }

  lemma {:induction false} MostRecentFacts(jobs: map<string, VideoJob>, order: seq<string>, videoId: string)
    requires forall i :: 0 <= i < |order| ==> order[i] in jobs
    ensures var b := MostRecent(jobs, order, videoId);
            && (b.Some? ==> b.value in order && jobs[b.value].videoId == videoId
                            && forall j :: j in order && jobs[j].videoId == videoId ==>
                               Rank(jobs[j]) <= Rank(jobs[b.value]))
            && (b.None? ==> forall j :: j in order ==> jobs[j].videoId != videoId)
  {
    if order != [] {
      var n := |order| - 1;
      MostRecentFacts(jobs, order[..n], videoId);
      assert order == order[..n] + [order[n]];
      hide Rank;
    }
  }

  /** Every earlier job of the video was updated strictly before the one created last. */
  predicate LastIsFreshest(jobs: map<string, VideoJob>, order: seq<string>, videoId: string) {
    match LastCreated(jobs, order, videoId)
    case None => true
    case Some(l) => forall j :: j in order && j in jobs && l in jobs && j != l && jobs[j].videoId == videoId ==>
                                  Rank(jobs[j]) < Rank(jobs[l])
  }

  /** The two lookups by video id name the same job exactly when the job created last is also the freshest. */
  lemma {:induction false} ByVideoIdAgreesExactly(jobs: map<string, VideoJob>, order: seq<string>, videoId: string)
    requires Ordered(jobs, order)
    ensures LastCreated(jobs, order, videoId) == MostRecent(jobs, order, videoId) <==>
            LastIsFreshest(jobs, order, videoId)
  {
    SameWhenFreshest(jobs, order, videoId);
  }

  lemma {:induction false} SameWhenFreshest(jobs: map<string, VideoJob>, order: seq<string>, videoId: string)
    requires forall i :: 0 <= i < |order| ==> order[i] in jobs
    requires forall i, k :: 0 <= i < k < |order| ==> order[i] != order[k]
    ensures LastCreated(jobs, order, videoId) == MostRecent(jobs, order, videoId) <==>
            LastIsFreshest(jobs, order, videoId)
  {
    if order != [] {
      var n := |order| - 1;
      var before, last := order[..n], order[n];
      assert order == before + [last];
      assert forall j :: j in order <==> j in before || j == last;
      if jobs[last].videoId == videoId {
        MostRecentFacts(jobs, before, videoId);
        assert last !in before;
        hide Rank;
      } else {
        SameWhenFreshest(jobs, before, videoId);
        LastCreatedFacts(jobs, before, videoId);
        hide Rank, MostRecent;
      }
    }
  }

  /** A related store answers get-by-video-id with the job created last. */
  lemma ByVideoIdNamesLastCreated(r: Redis, m: Memory, videoId: string)
    requires Related(r, m)
    ensures GetJobByVideoId(r, videoId) ==
            match LastCreated(m.q.jobs, m.order, videoId)
            case None => None
            case Some(j) => NormalizeJob(QS.GetJob(m.q, j))
  {
    hide GetJobById, Normalize, JobsStored, IndexStored, StreamStored, LastCreated, Ordered, OnlyColonFree;
    LastCreatedFacts(m.q.jobs, m.order, videoId);
    assert VideoIdKey(videoId) in r.keys ==> true;
    var l := LastCreated(m.q.jobs, m.order, videoId);
    if l.Some? {
      GetByIdAgrees(r, m, l.value);
      assert l.value != "";
    }
  }

  // ---------- one operation ----------

  lemma AllFieldsWritten(before: Mapping, job: VideoJob)
    requires before == map[] || exists other :: before == Encode(other)
    ensures before + Encode(job) == Encode(job)
  {
    forall f: Field
      ensures f in Encode(job)
    {
      EncodeAt(job, f);
    }
    hide Encode;
  }

  /** What HSET leaves of a job's hash: all its fields are overwritten. */
  lemma HSetStores(r: Redis, jobs: map<string, VideoJob>, job: VideoJob)
    requires JobsStored(r, jobs)
    ensures HSet(r, JobKey(job.jobId), Encode(job)) == r.(keys := r.keys[JobKey(job.jobId) := Hash(Encode(job))])
  {
    hide Encode;
    var j := job.jobId;
    assert JobKey(j) in r.keys <==> j in jobs;
    AllFieldsWritten(HGetAll(r, JobKey(j)), job);
  }

  lemma StoreJob(r: Redis, jobs: map<string, VideoJob>, job: VideoJob)
    requires JobsStored(r, jobs)
    ensures JobsStored(r.(keys := r.keys[JobKey(job.jobId) := Hash(Encode(job))]), jobs[job.jobId := job])
  {
    hide Encode, JobKey;
    forall j
      ensures JobKey(j) == JobKey(job.jobId) <==> j == job.jobId
    {
      if JobKey(j) == JobKey(job.jobId) {
        JobKeyInjective(j, job.jobId);
      }
    }
  }

  lemma StoreIndex(r: Redis, index: map<Triple, string>, t: Triple, j: string)
    requires IndexStored(r, index) && ColonFree(t)
    ensures IndexStored(Set(r, UniqueKey(t), j), index[t := j])
  {
    hide UniqueKey, ColonFree;
    forall u | ColonFree(u)
      ensures UniqueKey(u) == UniqueKey(t) <==> u == t
    {
      if UniqueKey(u) == UniqueKey(t) {
        UniqueKeyInjective(u, t);
      }
    }
  }

  /** A job appended to the order becomes the last of its video and of no other. */
  lemma StoreVideo(r: Redis, jobs: map<string, VideoJob>, order: seq<string>, job: VideoJob)
    requires VideosStored(r, jobs, order) && Ordered(jobs, order) && job.jobId !in jobs
    ensures VideosStored(Set(r, VideoIdKey(job.videoId), job.jobId), jobs[job.jobId := job], order + [job.jobId])
  {
    hide VideoIdKey;
    var jobs', order' := jobs[job.jobId := job], order + [job.jobId];
    var r' := Set(r, VideoIdKey(job.videoId), job.jobId);
    assert order'[..|order|] == order;
    forall v {:trigger VideoIdKey(v)}
      ensures match LastCreated(jobs', order', v)
              case None => VideoIdKey(v) !in r'.keys
              case Some(j) => VideoIdKey(v) in r'.keys && r'.keys[VideoIdKey(v)] == Plain(j)
    {
      LastCreatedStable(jobs, jobs', order, v);
      if VideoIdKey(v) == VideoIdKey(job.videoId) {
        VideoIdKeyInjective(v, job.videoId);
      }
    }
  }

  lemma {:induction false} LastCreatedStable(jobs: map<string, VideoJob>, jobs': map<string, VideoJob>,
                                             order: seq<string>, videoId: string)
    requires forall i :: 0 <= i < |order| ==>
                           order[i] in jobs && order[i] in jobs' && jobs'[order[i]].videoId == jobs[order[i]].videoId
    ensures LastCreated(jobs', order, videoId) == LastCreated(jobs, order, videoId)
  {
    if order != [] {
      LastCreatedStable(jobs, jobs', order[..|order| - 1], videoId);
    }
  }

  /** Writing a key of one namespace leaves the facts about the other two alone. */
  lemma OtherNamespaces(r: Redis, key: string, value: Value, jobs: map<string, VideoJob>, index: map<Triple, string>,
                        order: seq<string>)
    ensures var r' := r.(keys := r.keys[key := value]);
            && ((forall j :: JobKey(j) != key) && JobsStored(r, jobs) ==> JobsStored(r', jobs))
            && ((forall t :: UniqueKey(t) != key) && IndexStored(r, index) ==> IndexStored(r', index))
            && ((forall v :: VideoIdKey(v) != key) && VideosStored(r, jobs, order) ==> VideosStored(r', jobs, order))
  {
    hide JobKey, UniqueKey, VideoIdKey, ColonFree, Encode, LastCreated;
  }

  lemma KeysApart()
    ensures forall j, t :: JobKey(j) != UniqueKey(t)
    ensures forall j, v :: JobKey(j) != VideoIdKey(v)
    ensures forall t, v :: UniqueKey(t) != VideoIdKey(v)
  {
    forall j, t ensures JobKey(j) != UniqueKey(t) {
      NamespacesDisjoint(j, t, "");
    }
    forall j, v ensures JobKey(j) != VideoIdKey(v) {
      NamespacesDisjoint(j, Triple("", "", ""), v);
    }
    forall t, v ensures UniqueKey(t) != VideoIdKey(v) {
      NamespacesDisjoint("", t, v);
    }
  }

  /** The `nx` writes that backfill the video-id index never write: every job's video is already indexed. */
  lemma BackfillIsNoOp(r: Redis, m: Memory, jobId: string, text: string)
    requires Related(r, m) && jobId in m.q.jobs
    ensures SetNx(r, VideoIdKey(m.q.jobs[jobId].videoId), text) == r
  {
    hide VideoIdKey, JobsStored, IndexStored, StreamStored, QS.ValidQueue;
    var v := m.q.jobs[jobId].videoId;
    LastCreatedFacts(m.q.jobs, m.order, v);
    assert VideoIdKey(v) in r.keys ==> true;
  }

  lemma CreateKeepsRelated(r: Redis, m: Memory, job: VideoJob)
    requires Related(r, m) && ColonFree(TripleOf(job)) && job.jobId != "" && job.jobId !in m.q.jobs
    ensures var q' := QS.AppendMessage(m.q.(jobs := m.q.jobs[job.jobId := job],
                                       uniqueIndex := m.q.uniqueIndex[TripleOf(job) := job.jobId]), job);
            QS.ValidQueue(q') ==> Related(Create(r, job), Memory(q', m.order + [job.jobId]))
  {
    hide JobKey, UniqueKey, VideoIdKey, ColonFree, Encode, JobsStored, IndexStored, VideosStored, QS.ValidQueue;
    var j, t, v := job.jobId, TripleOf(job), job.videoId;
    var jobs', index', order' := m.q.jobs[j := job], m.q.uniqueIndex[t := j], m.order + [j];
    KeysApart();
    HSetStores(r, m.q.jobs, job);
    var r1 := HSet(r, JobKey(j), Encode(job));
    StoreJob(r, m.q.jobs, job);
    OtherNamespaces(r, JobKey(j), Hash(Encode(job)), m.q.jobs, m.q.uniqueIndex, m.order);
    var r2 := Set(r1, UniqueKey(t), j);
    StoreIndex(r1, m.q.uniqueIndex, t, j);
    OtherNamespaces(r1, UniqueKey(t), Plain(j), jobs', index', m.order);
    OtherNamespaces(r1, UniqueKey(t), Plain(j), m.q.jobs, index', m.order);
    var r3 := Set(r2, VideoIdKey(v), j);
    StoreVideo(r2, m.q.jobs, m.order, job);
    OtherNamespaces(r2, VideoIdKey(v), Plain(j), jobs', index', order');
    StreamIrrelevant(r3, XAdd(r3, j, Encode(job)), jobs', index', order');
    AppendKeepsStream(r.stream, m.q.messages, j, job);
  }

  lemma StreamIrrelevant(r: Redis, r': Redis, jobs: map<string, VideoJob>, index: map<Triple, string>,
                         order: seq<string>)
    requires r'.keys == r.keys && JobsStored(r, jobs) && IndexStored(r, index) && VideosStored(r, jobs, order)
    ensures JobsStored(r', jobs) && IndexStored(r', index) && VideosStored(r', jobs, order)
  {
    hide JobKey, UniqueKey, VideoIdKey, ColonFree, Encode, LastCreated;
  }

  lemma AppendKeepsStream(stream: seq<StreamEntry>, messages: seq<QS.Message>, jobId: string, job: VideoJob)
    requires StreamStored(stream, messages)
    ensures StreamStored(stream + [StreamEntry(jobId, Encode(job))],
                         messages + [QS.Message(|messages| + 1, jobId, job)])
  {
    hide Encode;
  }

  lemma EnqueueKeepsRelated(r: Redis, m: Memory, request: VideoDetectRequest, now: Time)
    requires Related(r, m) && ColonFree(TripleOfRequest(request)) && request.jobId != ""
    requires !AdmitsSecondJob(m.q, request)
    ensures Related(Enqueue(r, request, now), MemoryEnqueue(m, request, now))
  {
    hide Related, ColonFree, QS.ValidQueue, ExistingJob, Create, Encode;
    ExistingAgrees(r, m, request);
    match QS.ExistingJob(m.q, request) {
      case Some(existing) =>
        assert existing.jobId in m.q.jobs && m.q.jobs[existing.jobId] == existing by {
          RelatedIsValid(r, m);
          ExistingIsStored(m.q, request);
        }
        BackfillIsNoOp(r, m, existing.jobId, existing.jobId);
      case None =>
        RelatedIsValid(r, m);
        QS.EnqueueKeepsValid(m.q, request, now);
        CreateKeepsRelated(r, m, NewJob(request, now));
    }
  }

  lemma RelatedIsValid(r: Redis, m: Memory)
    requires Related(r, m)
    ensures QS.ValidQueue(m.q) && QS.WellKept(m.q) && Ordered(m.q.jobs, m.order)
  {
    hide JobsStored, IndexStored, VideosStored, StreamStored, QS.JobsKeyed, QS.MessagesListed, QS.IndexPointsToOwner;
  }

  lemma ExistingIsStored(q: QS.Queue, request: VideoDetectRequest)
    requires QS.ValidQueue(q) && QS.ExistingJob(q, request).Some?
    ensures var e := QS.ExistingJob(q, request).value;
            e.jobId in q.jobs && q.jobs[e.jobId] == e
  {
  }

  // ---------- status updates and requeues ----------

  /** A record that went through the store is updated to the same encoding. */
  lemma UpdateOfNormalized(job: VideoJob, status: VideoJobStatus, code: Option<string>, message: Option<string>,
                           now: Time)
    ensures Encode(WithStatus(Normalize(job), status, code, message, now)) ==
            Encode(WithStatus(job, status, code, message, now))
  {
    hide Encode;
    EncodeEqual(WithStatus(Normalize(job), status, code, message, now), WithStatus(job, status, code, message, now));
  }

  lemma RecordStored(r: Redis, m: Memory, updated: VideoJob)
    requires Related(r, m) && updated.jobId in m.q.jobs && m.q.jobs[updated.jobId].videoId == updated.videoId
    requires QS.ValidQueue(m.q.(jobs := m.q.jobs[updated.jobId := updated]))
    ensures Related(HSet(r, JobKey(updated.jobId), Encode(updated)),
                    Memory(m.q.(jobs := m.q.jobs[updated.jobId := updated]), m.order))
  {
    hide JobKey, UniqueKey, VideoIdKey, ColonFree, Encode, JobsStored, IndexStored, VideosStored, QS.ValidQueue, HSet,
      StreamStored, OnlyColonFree;
    var j := updated.jobId;
    HSetStores(r, m.q.jobs, updated);
    StoreJob(r, m.q.jobs, updated);
    var r' := r.(keys := r.keys[JobKey(j) := Hash(Encode(updated))]);
    KeysApart();
    OtherNamespaces(r, JobKey(j), Hash(Encode(updated)), m.q.jobs, m.q.uniqueIndex, m.order);
    VideosKept(r', m.q.jobs, updated, m.order);
  }

  lemma UpdateKeepsRelated(r: Redis, m: Memory, jobId: string, status: VideoJobStatus, code: Option<string>,
                           message: Option<string>, now: Time)
    requires Related(r, m)
    ensures Related(UpdateStatus(r, jobId, status, code, message, now),
                    Memory(QS.UpdateStatus(m.q, jobId, status, code, message, now), m.order))
  {
    hide Related, JobKey, Encode, Normalize, QS.ValidQueue, GetJobById, HSet, QS.JobsGrow, Ordered;
    GetByIdAgrees(r, m, jobId);
    if jobId in m.q.jobs {
      var job := m.q.jobs[jobId];
      var updated := WithStatus(job, status, code, message, now);
      UpdateOfNormalized(job, status, code, message, now);
      RelatedIsValid(r, m);
      KnownJob(m.q, jobId);
      QS.UpdateKeepsValid(m.q, jobId, status, code, message, now);
      RecordStored(r, m, updated);
      HSetOfEqual(r, jobId, WithStatus(Normalize(job), status, code, message, now), updated);
    }
  }

  lemma KnownJob(q: QS.Queue, jobId: string)
    requires QS.ValidQueue(q) && jobId in q.jobs
    ensures q.jobs[jobId].jobId == jobId
  {
  }

  lemma HSetOfEqual(r: Redis, jobId: string, a: VideoJob, b: VideoJob)
    requires Encode(a) == Encode(b)
    ensures HSet(r, JobKey(jobId), Encode(a)) == HSet(r, JobKey(jobId), Encode(b))
  {
  }

  /** An update never moves a job to another video. */
  lemma VideosKept(r: Redis, jobs: map<string, VideoJob>, updated: VideoJob, order: seq<string>)
    requires updated.jobId in jobs && jobs[updated.jobId].videoId == updated.videoId
    requires Ordered(jobs, order) && VideosStored(r, jobs, order)
    ensures VideosStored(r, jobs[updated.jobId := updated], order)
  {
    forall v
      ensures LastCreated(jobs[updated.jobId := updated], order, v) == LastCreated(jobs, order, v)
    {
      LastCreatedStable(jobs, jobs[updated.jobId := updated], order, v);
    }
    hide VideoIdKey, LastCreated;
  }

  lemma RequeueKeepsRelated(r: Redis, m: Memory, jobId: string)
    requires Related(r, m)
    ensures Related(Requeue(r, jobId), Memory(QS.Requeue(m.q, jobId), m.order))
  {
    hide Related, QS.ValidQueue, QS.WellKept, GetJobById, Encode, Normalize, Ordered, QS.JobsGrow, XAdd;
    GetByIdAgrees(r, m, jobId);
    if jobId in m.q.jobs {
      RelatedIsValid(r, m);
      KnownJob(m.q, jobId);
      EncodeNormalized(m.q.jobs[jobId]);
      NormalizeKeepsId(m.q.jobs[jobId]);
      AppendedIsRelated(r, m, jobId);
    }
  }

  lemma NormalizeKeepsId(job: VideoJob)
    ensures Normalize(job).jobId == job.jobId
  {
  }

  lemma AppendedIsRelated(r: Redis, m: Memory, jobId: string)
    requires Related(r, m) && jobId in m.q.jobs && m.q.jobs[jobId].jobId == jobId
    ensures Related(XAdd(r, jobId, Encode(m.q.jobs[jobId])), Memory(QS.Requeue(m.q, jobId), m.order))
  {
    RelatedIsValid(r, m);
    QS.RequeueKeepsValid(m.q, jobId);
    hide JobsStored, IndexStored, VideosStored, StreamStored, OnlyColonFree, Ordered, QS.ValidQueue, QS.WellKept,
      Encode, QS.JobsGrow;
    StreamIrrelevant(r, XAdd(r, jobId, Encode(m.q.jobs[jobId])), m.q.jobs, m.q.uniqueIndex, m.order);
    AppendKeepsStream(r.stream, m.q.messages, jobId, m.q.jobs[jobId]);
  }

  // ---------- runs ----------

  datatype Operation =
    | EnqueueJob(request: VideoDetectRequest, now: Time)
    | UpdateJob(jobId: string, status: VideoJobStatus, code: Option<string>, message: Option<string>, now: Time)
    | RequeueJob(jobId: string)

  function RedisStep(r: Redis, op: Operation): Redis {
    match op
    case EnqueueJob(request, now) => Enqueue(r, request, now)
    case UpdateJob(j, status, code, message, now) => UpdateStatus(r, j, status, code, message, now)
    case RequeueJob(j) => Requeue(r, j)
  }

  function MemoryStep(m: Memory, op: Operation): Memory {
    match op
    case EnqueueJob(request, now) => MemoryEnqueue(m, request, now)
    case UpdateJob(j, status, code, message, now) =>
      Memory(QS.UpdateStatus(m.q, j, status, code, message, now), m.order)
    case RequeueJob(j) => Memory(QS.Requeue(m.q, j), m.order)
  }

  /** A request a client may send and the two repositories treat alike. */
  predicate TreatedAlike(m: Memory, op: Operation) {
    op.EnqueueJob? ==>
      ValidRequest(op.request) && ColonFree(TripleOfRequest(op.request)) && !AdmitsSecondJob(m.q, op.request)
  }

  predicate CommonRun(m: Memory, ops: seq<Operation>)
    decreases |ops|
  {
    ops == [] || (TreatedAlike(m, ops[0]) && CommonRun(MemoryStep(m, ops[0]), ops[1..]))
  }

  function RedisRun(r: Redis, ops: seq<Operation>): Redis
    decreases |ops|
  {
    if ops == [] then r else RedisRun(RedisStep(r, ops[0]), ops[1..])
  }

  function MemoryRun(m: Memory, ops: seq<Operation>): Memory
    decreases |ops|
  {
    if ops == [] then m else MemoryRun(MemoryStep(m, ops[0]), ops[1..])
  }

  lemma StepKeepsRelated(r: Redis, m: Memory, op: Operation)
    requires Related(r, m) && TreatedAlike(m, op)
    ensures Related(RedisStep(r, op), MemoryStep(m, op))
  {
    hide Related, Enqueue, UpdateStatus, Requeue, ColonFree, AdmitsSecondJob;
    match op {
      case EnqueueJob(request, now) => EnqueueKeepsRelated(r, m, request, now);
      case UpdateJob(j, status, code, message, now) => UpdateKeepsRelated(r, m, j, status, code, message, now);
      case RequeueJob(j) => RequeueKeepsRelated(r, m, j);
    }
  }

  lemma {:induction false} RunKeepsRelated(r: Redis, m: Memory, ops: seq<Operation>)
    requires Related(r, m) && CommonRun(m, ops)
    ensures Related(RedisRun(r, ops), MemoryRun(m, ops))
    decreases |ops|
  {
    hide Related, RedisStep, MemoryStep, TreatedAlike;
    if ops != [] {
      StepKeepsRelated(r, m, ops[0]);
      RunKeepsRelated(RedisStep(r, ops[0]), MemoryStep(m, ops[0]), ops[1..]);
    }
  }

  /** The simulation: from empty stores, after any run of operations both treat alike, every lookup by id gives the same
      record up to empty optional strings, the streams carry the same jobs in the same order with encoded payloads, and
      the video-id index names the job created last. */
  lemma RedisSimulatesMemory(ops: seq<Operation>, jobId: string, videoId: string)
    requires CommonRun(Memory(QS.EmptyQueue(), []), ops)
    ensures var r, m := RedisRun(Redis(map[], []), ops), MemoryRun(Memory(QS.EmptyQueue(), []), ops);
            && GetJobById(r, jobId) == NormalizeJob(QS.GetJob(m.q, jobId))
            && GetJobByVideoId(r, videoId) == (match LastCreated(m.q.jobs, m.order, videoId)
                                               case None => None
                                               case Some(j) => NormalizeJob(QS.GetJob(m.q, j)))
            && StreamStored(r.stream, m.q.messages)
  {
    InitiallyRelated();
    var r, m := RedisRun(Redis(map[], []), ops), MemoryRun(Memory(QS.EmptyQueue(), []), ops);
    RunKeepsRelated(Redis(map[], []), Memory(QS.EmptyQueue(), []), ops);
    GetByIdAgrees(r, m, jobId);
    ByVideoIdNamesLastCreated(r, m, videoId);
    hide GetJobById, GetJobByVideoId, NormalizeJob, LastCreated;
  }
}
