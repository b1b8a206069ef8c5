/** The in-memory queue repository as a value: job records, the triple index, the message log with its
    acknowledgements, and the dead letters. */
module QueueState {
  import opened Common
  import opened VideoJobs

  /** Message ids are `str(len(messages) + 1)`; decimal text is injective, so the number stands for the text. The
      payload is the job whose field mapping the message carries. */
  datatype Message = Message(id: nat, jobId: string, payload: VideoJob)

  datatype DeadLetter = DeadLetter(
    messageId: nat,
    jobId: string,
    errorCode: string,
    errorMessage: string,
    payload: VideoJob
  )

  datatype Queue = Queue(
    jobs: map<string, VideoJob>,
    uniqueIndex: map<Triple, string>,
    queue: seq<string>,
    messages: seq<Message>,
    acked: set<nat>,
    dlq: seq<DeadLetter>
  )

  datatype EnqueueResult = EnqueueResult(job: VideoJob, enqueued: bool)

  function EmptyQueue(): Queue {
    Queue(map[], map[], [], [], {}, [])
  }

  /** The job that already owns the request's id or, unless it is waiting for a retry, the request's triple. */
  function ExistingJob(q: Queue, r: VideoDetectRequest): Option<VideoJob> {
    var t := TripleOfRequest(r);
    if r.jobId in q.jobs then Some(q.jobs[r.jobId])
    else if t in q.uniqueIndex && q.uniqueIndex[t] in q.jobs && q.jobs[q.uniqueIndex[t]].status != FailedRetryable
    then Some(q.jobs[q.uniqueIndex[t]])
    else None
  }

  function AppendMessage(q: Queue, job: VideoJob): Queue {
    q.(queue := q.queue + [job.jobId], messages := q.messages + [Message(|q.messages| + 1, job.jobId, job)])
  }

  function Enqueue(q: Queue, r: VideoDetectRequest, now: Time): Queue {
    if ExistingJob(q, r).Some? then q else
    var job := NewJob(r, now);
    AppendMessage(q.(jobs := q.jobs[job.jobId := job], uniqueIndex := q.uniqueIndex[TripleOf(job) := job.jobId]), job)
  }

  function EnqueueAnswer(q: Queue, r: VideoDetectRequest, now: Time): EnqueueResult {
    match ExistingJob(q, r)
    case Some(job) => EnqueueResult(job, false)
    case None => EnqueueResult(NewJob(r, now), true)
  }

  function GetJob(q: Queue, jobId: string): Option<VideoJob> {
    if jobId in q.jobs then Some(q.jobs[jobId]) else None
  }

  function UpdateStatus(q: Queue, jobId: string, status: VideoJobStatus, code: Option<string>, message: Option<string>,
                        now: Time): Queue
  {
    if jobId !in q.jobs then q
    else q.(jobs := q.jobs[jobId := WithStatus(q.jobs[jobId], status, code, message, now)])
  }

  /** Messages not yet acknowledged, oldest first. */
  function Unacked(messages: seq<Message>, acked: set<nat>): seq<Message> {
    if messages == [] then [] else
    var last := messages[|messages| - 1];
    Unacked(messages[..|messages| - 1], acked) + (if last.id in acked then [] else [last])
  }

  function Pending(q: Queue): seq<Message> {
    Unacked(q.messages, q.acked)
  }

  function ReadMessages(q: Queue, count: nat): seq<Message> {
    var pending := Pending(q);
    if |pending| <= count then pending else pending[..count]
  }

  function Ack(q: Queue, messageId: nat): Queue {
    q.(acked := q.acked + {messageId})
  }

  /** A missing job raises `KeyError` in the source; here the queue is left as it is. */
  function Requeue(q: Queue, jobId: string): Queue {
    if jobId !in q.jobs then q else AppendMessage(q, q.jobs[jobId])
  }

  function AppendDeadLetter(q: Queue, m: Message, code: string, message: string): Queue {
    q.(dlq := q.dlq + [DeadLetter(m.id, m.jobId, code, message, m.payload)])
  }

  // ---------- what every operation keeps ----------

  predicate JobsKeyed(q: Queue) {
    forall j :: j in q.jobs ==> q.jobs[j].jobId == j && j != ""
  }

  /** Ids are the positions counted from one, every message names a known job, and `queue` lists the same job ids. */
  predicate MessagesListed(q: Queue) {
    && |q.queue| == |q.messages|
    && (forall i :: 0 <= i < |q.messages| ==>
          q.messages[i].id == i + 1 && q.messages[i].jobId in q.jobs && q.queue[i] == q.messages[i].jobId)
  }

  /** Besides, only messages that exist have been acknowledged. */
  predicate MessagesNumbered(q: Queue) {
    MessagesListed(q) && forall a :: a in q.acked ==> a <= |q.messages|
  }

  predicate IndexPointsToOwner(q: Queue) {
    forall t :: t in q.uniqueIndex ==> q.uniqueIndex[t] in q.jobs && TripleOf(q.jobs[q.uniqueIndex[t]]) == t
  }

  /** What the repository keeps whatever ids its callers acknowledge. */
  predicate WellKept(q: Queue) {
    JobsKeyed(q) && MessagesListed(q) && IndexPointsToOwner(q)
  }

  /** What it keeps when they acknowledge only messages they were given. */
  predicate ValidQueue(q: Queue) {
    JobsKeyed(q) && MessagesNumbered(q) && IndexPointsToOwner(q)
  }

  /** Jobs are never deleted and never change what they were asked to classify. */
  predicate JobsGrow(q: Queue, q': Queue) {
    forall j :: j in q.jobs ==> j in q'.jobs && TripleOf(q'.jobs[j]) == TripleOf(q.jobs[j])
  }

  lemma EnqueueKeepsValid(q: Queue, r: VideoDetectRequest, now: Time)
    requires WellKept(q) && r.jobId != ""
    ensures WellKept(Enqueue(q, r, now)) && JobsGrow(q, Enqueue(q, r, now))
    ensures ValidQueue(q) ==> ValidQueue(Enqueue(q, r, now))
  {
  }

  /** A request that finds no job appends one message with the new job, whose fields are those of the request; any other
      request changes nothing. */
  lemma EnqueueFacts(q: Queue, r: VideoDetectRequest, now: Time)
    requires WellKept(q)
    ensures var q', a := Enqueue(q, r, now), EnqueueAnswer(q, r, now);
            var t := Triple(r.videoId, r.sourceObjectVersion, r.policyVersion);
            && (a.enqueued <==>
                r.jobId !in q.jobs && (t in q.uniqueIndex ==> q.jobs[q.uniqueIndex[t]].status == FailedRetryable))
            && (!a.enqueued ==>
                  q' == q && a.job == if r.jobId in q.jobs then q.jobs[r.jobId] else q.jobs[q.uniqueIndex[t]])
            && (a.enqueued ==>
                  q' == q.(jobs := q.jobs[r.jobId := a.job], uniqueIndex := q.uniqueIndex[t := r.jobId],
                    queue := q.queue + [r.jobId], messages := q.messages + [Message(|q.messages| + 1, r.jobId, a.job)]))
    ensures var job := EnqueueAnswer(q, r, now).job;
            EnqueueAnswer(q, r, now).enqueued ==>
              && job.jobId == r.jobId && job.videoId == r.videoId
              && job.sourceObjectVersion == r.sourceObjectVersion && job.policyVersion == r.policyVersion
              && job.publisherUserId == r.publisherUserId && job.sourceVideoUri == r.sourceVideoUri
              && job.postId == r.postId && job.canisterId == r.canisterId
              && job.uploadEventId == r.uploadEventId && job.traceId == r.traceId
              && job.status == Queued && job.attempts == 0
              && job.createdAt == Some(now) && job.updatedAt == Some(now)
              && job.startedAt == None && job.finishedAt == None
              && job.lastErrorCode == None && job.lastErrorMessage == None
  {
    hide JobsKeyed, MessagesListed;
  }

  /** A status update changes one record: attempts count the entries into PROCESSING, errors are overwritten, and a
      terminal status sets the finish time. */
  lemma UpdateFacts(q: Queue, jobId: string, status: VideoJobStatus, code: Option<string>, message: Option<string>,
                    now: Time)
    ensures var q' := UpdateStatus(q, jobId, status, code, message, now);
            && (jobId !in q.jobs ==> q' == q)
            && (jobId in q.jobs ==>
                  && jobId in q'.jobs && q' == q.(jobs := q.jobs[jobId := q'.jobs[jobId]])
                  && var x, y := q.jobs[jobId], q'.jobs[jobId];
                     && y.status == status && y.lastErrorCode == code && y.lastErrorMessage == message
                     && y.attempts == x.attempts + (if status == Processing then 1 else 0)
                     && y.updatedAt == Some(now)
                     && y.startedAt == (if status == Processing then Some(now) else x.startedAt)
                     && y.finishedAt ==
                        (if status in {Classified, FailedTerminal, Superseded} then Some(now) else x.finishedAt)
                     && x == y.(status := x.status, lastErrorCode := x.lastErrorCode,
                       lastErrorMessage := x.lastErrorMessage, attempts := x.attempts, updatedAt := x.updatedAt,
                       startedAt := x.startedAt, finishedAt := x.finishedAt))
  {
  }

  lemma UpdateKeepsValid(q: Queue, jobId: string, status: VideoJobStatus, code: Option<string>,
                         message: Option<string>, now: Time)
    requires WellKept(q)
    ensures var q' := UpdateStatus(q, jobId, status, code, message, now);
            && WellKept(q') && JobsGrow(q, q') && q'.jobs.Keys == q.jobs.Keys
            && (ValidQueue(q) ==> ValidQueue(q'))
            && forall j :: j in q.jobs && j != jobId ==> q'.jobs[j] == q.jobs[j]
  {
    if jobId in q.jobs {
      var job, job' := q.jobs[jobId], WithStatus(q.jobs[jobId], status, code, message, now);
      assert job'.jobId == job.jobId && TripleOf(job') == TripleOf(job);
      hide WithStatus, TripleOf;
    }
  }

  lemma RequeueKeepsValid(q: Queue, jobId: string)
    requires WellKept(q)
    ensures WellKept(Requeue(q, jobId)) && JobsGrow(q, Requeue(q, jobId))
    ensures ValidQueue(q) ==> ValidQueue(Requeue(q, jobId))
  {
  }

  lemma AckKeepsValid(q: Queue, id: nat)
    requires WellKept(q)
    ensures WellKept(Ack(q, id)) && JobsGrow(q, Ack(q, id))
    ensures ValidQueue(q) && id <= |q.messages| ==> ValidQueue(Ack(q, id))
  {
  }

  // ---------- pending messages ----------

  lemma {:induction false} UnackedMember(messages: seq<Message>, acked: set<nat>)
    ensures forall m :: m in Unacked(messages, acked) <==> m in messages && m.id !in acked
  {
    if messages != [] {
      UnackedMember(messages[..|messages| - 1], acked);
      assert messages == messages[..|messages| - 1] + [messages[|messages| - 1]];
    }
  }

  predicate Numbered(messages: seq<Message>) {
    forall i :: 0 <= i < |messages| ==> messages[i].id == i + 1
  }

  predicate Increasing(u: seq<Message>, limit: nat) {
    && (forall i :: 0 <= i < |u| ==> 1 <= u[i].id <= limit)
    && (forall i, k :: 0 <= i < k < |u| ==> u[i].id < u[k].id)
  }

  /** Pending messages stay in the order of the log. */
  lemma {:induction false} UnackedIncreasing(messages: seq<Message>, acked: set<nat>)
    requires Numbered(messages)
    ensures Increasing(Unacked(messages, acked), |messages|)
  {
    if messages != [] {
      var n := |messages|;
      UnackedIncreasing(messages[..n - 1], acked);
      var before, u := Unacked(messages[..n - 1], acked), Unacked(messages, acked);
      assert messages[n - 1].id == n;
      assert u == before + (if n in acked then [] else [messages[n - 1]]);
    }
  }

  lemma {:induction false} AckOfLaterMessage(messages: seq<Message>, acked: set<nat>, id: nat)
    requires Numbered(messages) && id > |messages|
    ensures Unacked(messages, acked + {id}) == Unacked(messages, acked)
  {
    if messages != [] {
      AckOfLaterMessage(messages[..|messages| - 1], acked, id);
    }
  }

  lemma {:induction false} AckOfOldestPending(messages: seq<Message>, acked: set<nat>)
    requires Numbered(messages) && Unacked(messages, acked) != []
    ensures Unacked(messages, acked + {Unacked(messages, acked)[0].id}) == Unacked(messages, acked)[1..]
  {
    var n := |messages|;
    var before := Unacked(messages[..n - 1], acked);
    if before == [] {
      AckOfLaterMessage(messages[..n - 1], acked, n);
    } else {
      AckOfOldestPending(messages[..n - 1], acked);
      UnackedIncreasing(messages[..n - 1], acked);
      assert before[0].id <= n - 1;
    }
  }

  lemma PendingAfterAppend(q: Queue, job: VideoJob)
    requires MessagesNumbered(q)
    ensures Pending(AppendMessage(q, job)) == Pending(q) + [Message(|q.messages| + 1, job.jobId, job)]
  {
    var m := Message(|q.messages| + 1, job.jobId, job);
    assert (q.messages + [m])[..|q.messages|] == q.messages;
  }

  lemma PendingAfterAckHead(q: Queue)
    requires MessagesNumbered(q) && Pending(q) != []
    ensures Pending(Ack(q, Pending(q)[0].id)) == Pending(q)[1..]
  {
    AckOfOldestPending(q.messages, q.acked);
  }

  lemma PendingFacts(q: Queue)
    requires MessagesNumbered(q)
    ensures forall m :: m in Pending(q) <==> m in q.messages && m.id !in q.acked
    ensures Increasing(Pending(q), |q.messages|)
    ensures forall m :: m in Pending(q) ==> m.jobId in q.jobs
  {
    UnackedMember(q.messages, q.acked);
    UnackedIncreasing(q.messages, q.acked);
  }

  /** A read takes the oldest messages that are not acknowledged, in order. */
  lemma ReadFacts(q: Queue, count: nat)
    ensures var batch := ReadMessages(q, count);
            && |batch| <= count && (forall m :: m in batch ==> m in q.messages && m.id !in q.acked)
            && (|batch| < count ==> forall m :: m in q.messages && m.id !in q.acked ==> m in batch)
    ensures WellKept(q) ==>
              var batch := ReadMessages(q, count);
              && (forall i, k :: 0 <= i < k < |batch| ==> batch[i].id < batch[k].id)
              && (forall m, n :: m in batch && n in q.messages && n.id !in q.acked && n !in batch ==> m.id < n.id)
  {
    UnackedMember(q.messages, q.acked);
    hide Unacked, JobsKeyed, IndexPointsToOwner, Increasing;
    var n := if |Pending(q)| <= count then |Pending(q)| else count;
    assert ReadMessages(q, count) == Pending(q)[..n];
    if WellKept(q) {
      UnackedIncreasing(q.messages, q.acked);
      FirstOfIncreasing(Pending(q), |q.messages|, n);
    }
  }

  lemma FirstOfIncreasing(u: seq<Message>, limit: nat, n: nat)
    requires Increasing(u, limit) && n <= |u|
    ensures forall i, k :: 0 <= i < k < n ==> u[..n][i].id < u[..n][k].id
    ensures forall x, y :: x in u[..n] && y in u && y !in u[..n] ==> x.id < y.id
  {
    forall x, y | x in u[..n] && y in u && y !in u[..n]
      ensures x.id < y.id
    {
      var i :| 0 <= i < n && u[i] == x;
      var k :| 0 <= k < |u| && u[k] == y;
      assert k < n ==> u[..n][k] == y;
    }
  }
}

/** The repository class of the source, each method tied to the corresponding value-level operation. */
module QueueRepository {
  import opened Common
  import opened VideoJobs
  import opened QueueState

  class InMemoryVideoQueueRepository {
    var jobs: map<string, VideoJob>
    var uniqueIndex: map<Triple, string>
    var queue: seq<string>
    var messages: seq<Message>
    var ackedMessageIds: set<nat>
    var dlq: seq<DeadLetter>

    ghost function State(): Queue
      reads this
    {
      Queue(jobs, uniqueIndex, queue, messages, ackedMessageIds, dlq)
    }

    ghost predicate Valid()
      reads this
    {
      WellKept(State())
    }

    constructor ()
      ensures Valid() && State() == EmptyQueue()
    {
      jobs, uniqueIndex, queue, messages, ackedMessageIds, dlq := map[], map[], [], [], {}, [];
    }

    /** A new job is created unless its id is known or its triple has a job that is not waiting for a retry. */
    method EnqueueVideoJob(request: VideoDetectRequest, now: Time) returns (result: EnqueueResult)
      requires Valid() && ValidRequest(request)
      modifies this
      ensures Valid() && State() == Enqueue(old(State()), request, now)
      ensures result == EnqueueAnswer(old(State()), request, now)
      ensures var t := Triple(request.videoId, request.sourceObjectVersion, request.policyVersion);
              && (result.enqueued <==>
                  request.jobId !in old(jobs)
                  && (t in old(uniqueIndex) ==> old(jobs)[old(uniqueIndex)[t]].status == FailedRetryable))
              && (!result.enqueued ==>
                    && State() == old(State())
                    && result.job == if request.jobId in old(jobs) then old(jobs)[request.jobId]
                                     else old(jobs)[old(uniqueIndex)[t]])
              && (result.enqueued ==>
                    && jobs == old(jobs)[request.jobId := result.job]
                    && uniqueIndex == old(uniqueIndex)[t := request.jobId]
                    && queue == old(queue) + [request.jobId]
                    && messages == old(messages) + [Message(|old(messages)| + 1, request.jobId, result.job)]
                    && ackedMessageIds == old(ackedMessageIds) && dlq == old(dlq))
      ensures var job := result.job;
              result.enqueued ==>
                && job.jobId == request.jobId && job.videoId == request.videoId
                && job.sourceObjectVersion == request.sourceObjectVersion
                && job.policyVersion == request.policyVersion
                && job.publisherUserId == request.publisherUserId && job.sourceVideoUri == request.sourceVideoUri
                && job.postId == request.postId && job.canisterId == request.canisterId
                && job.uploadEventId == request.uploadEventId && job.traceId == request.traceId
                && job.status == Queued && job.attempts == 0
                && job.createdAt == Some(now) && job.updatedAt == Some(now)
                && job.startedAt == None && job.finishedAt == None
                && job.lastErrorCode == None && job.lastErrorMessage == None
    {
      EnqueueKeepsValid(State(), request, now);
      hide MessagesListed, MessagesNumbered, JobsKeyed, JobsGrow;
      EnqueueFacts(State(), request, now);
      assert forall t :: t in uniqueIndex ==> uniqueIndex[t] in jobs;
      hide WellKept, ValidQueue, IndexPointsToOwner, NewJob;
      if request.jobId in jobs {
        return EnqueueResult(jobs[request.jobId], false);
      }
      var uniqueKey := Triple(request.videoId, request.sourceObjectVersion, request.policyVersion);
      if uniqueKey in uniqueIndex {
        var existing := jobs[uniqueIndex[uniqueKey]];
        if IsTerminal(existing.status) || existing.status in {Queued, Processing, Classified} {
          return EnqueueResult(existing, false);
        }
      }
      var job := NewJob(request, now);
      jobs := jobs[job.jobId := job];
      uniqueIndex := uniqueIndex[uniqueKey := job.jobId];
      queue := queue + [job.jobId];
      messages := messages + [Message(|messages| + 1, job.jobId, job)];
      return EnqueueResult(job, true);
    }

    method GetJobById(jobId: string) returns (job: Option<VideoJob>)
      ensures job == GetJob(State(), jobId)
      ensures job == if jobId in jobs then Some(jobs[jobId]) else None
    {
      job := if jobId in jobs then Some(jobs[jobId]) else None;
    }

    /** Attempts count the entries into PROCESSING, errors are always overwritten, and a terminal status sets the finish
        time. */
    method UpdateJobStatus(jobId: string, status: VideoJobStatus, code: Option<string>, message: Option<string>,
                           now: Time)
      returns (updated: Option<VideoJob>)
      requires Valid()
      modifies this
      ensures Valid() && State() == UpdateStatus(old(State()), jobId, status, code, message, now)
      ensures updated == GetJob(State(), jobId)
      ensures updated.None? <==> jobId !in old(jobs)
      ensures updated.None? ==> State() == old(State())
      ensures updated.Some? ==>
                && State() == old(State()).(jobs := old(jobs)[jobId := updated.value])
                && var x, y := old(jobs)[jobId], updated.value;
                   && y.status == status && y.lastErrorCode == code && y.lastErrorMessage == message
                   && y.attempts == x.attempts + (if status == Processing then 1 else 0)
                   && y.updatedAt == Some(now)
                   && y.startedAt == (if status == Processing then Some(now) else x.startedAt)
                   && y.finishedAt ==
                      (if status in {Classified, FailedTerminal, Superseded} then Some(now) else x.finishedAt)
                   && x == y.(status := x.status, lastErrorCode := x.lastErrorCode,
                     lastErrorMessage := x.lastErrorMessage, attempts := x.attempts, updatedAt := x.updatedAt,
                     startedAt := x.startedAt, finishedAt := x.finishedAt)
    {
      UpdateKeepsValid(State(), jobId, status, code, message, now);
      UpdateFacts(State(), jobId, status, code, message, now);
      hide WellKept, ValidQueue, JobsGrow, WithStatus;
      if jobId !in jobs {
        return None;
      }
      var job := jobs[jobId];
      var record := WithStatus(job, status, code, message, now);
      jobs := jobs[jobId := record];
      return Some(record);
    }

    /** The filtered comprehension of the source, cut to `count`: the oldest messages that are not acknowledged. */
    method ReadVideoJobMessages(count: nat) returns (batch: seq<Message>)
      ensures batch == ReadMessages(State(), count)
      ensures |batch| <= count && forall m :: m in batch ==> m in messages && m.id !in ackedMessageIds
      ensures |batch| < count ==> forall m :: m in messages && m.id !in ackedMessageIds ==> m in batch
      ensures Valid() ==> forall m, n :: m in batch && n in messages && n.id !in ackedMessageIds && n !in batch ==>
                m.id < n.id
      ensures Valid() ==> forall i, k :: 0 <= i < k < |batch| ==> batch[i].id < batch[k].id
    {
      hide WellKept;
      batch := [];
      for i := 0 to |messages|
        invariant batch == Unacked(messages[..i], ackedMessageIds)
      {
        assert messages[..i + 1][..i] == messages[..i];
        if messages[i].id !in ackedMessageIds {
          batch := batch + [messages[i]];
        }
      }
      assert messages[..|messages|] == messages;
      ReadFacts(State(), count);
      if |batch| > count {
        batch := batch[..count];
      }
    }

    method AckVideoJobMessage(messageId: nat)
      requires Valid()
      modifies this
      ensures Valid() && State() == Ack(old(State()), messageId)
      ensures State() == old(State()).(acked := old(ackedMessageIds) + {messageId})
    {
      AckKeepsValid(State(), messageId);
      ackedMessageIds := ackedMessageIds + {messageId};
    }

    /** An unknown job raises `KeyError` before anything is changed. */
    method RequeueVideoJob(jobId: string) returns (raised: bool)
      requires Valid()
      modifies this
      ensures Valid() && State() == Requeue(old(State()), jobId)
      ensures raised <==> jobId !in old(jobs)
      ensures raised ==> State() == old(State())
      ensures !raised ==>
                State() == old(State()).(queue := old(queue) + [jobId],
                  messages := old(messages) + [Message(|old(messages)| + 1, jobId, old(jobs)[jobId])])
    {
      RequeueKeepsValid(State(), jobId);
      hide MessagesListed, IndexPointsToOwner, ValidQueue, JobsGrow;
      if jobId !in jobs {
        return true;
      }
      var job := jobs[jobId];
      queue := queue + [job.jobId];
      messages := messages + [Message(|messages| + 1, job.jobId, job)];
      return false;
    }

    method AppendToDlq(message: Message, errorCode: string, errorMessage: string)
      requires Valid()
      modifies this
      ensures Valid() && State() == AppendDeadLetter(old(State()), message, errorCode, errorMessage)
      ensures var letter := DeadLetter(message.id, message.jobId, errorCode, errorMessage, message.payload);
              State() == old(State()).(dlq := old(dlq) + [letter])
    {
      dlq := dlq + [DeadLetter(message.id, message.jobId, errorCode, errorMessage, message.payload)];
    }

    method MoveVideoJobMessageToDlq(message: Message, errorCode: string, errorMessage: string)
      requires Valid()
      modifies this
      ensures Valid()
      ensures State() == Ack(AppendDeadLetter(old(State()), message, errorCode, errorMessage), message.id)
      ensures var letter := DeadLetter(message.id, message.jobId, errorCode, errorMessage, message.payload);
              State() == old(State()).(dlq := old(dlq) + [letter], acked := old(ackedMessageIds) + {message.id})
    {
      AppendToDlq(message, errorCode, errorMessage);
      AckVideoJobMessage(message.id);
    }
  }
}
