/** Video jobs, their statuses, and the requests that create them. */
module VideoJobs {
  import opened Common

  /** Clock readings: microseconds since 0001-01-01T00:00:00 UTC. */
  type Time = nat

  datatype VideoJobStatus = Queued | Processing | Classified | FailedRetryable | FailedTerminal | Superseded

  predicate IsTerminal(s: VideoJobStatus) {
    s in {Classified, FailedTerminal, Superseded}
  }

  datatype VideoDetectRequest = VideoDetectRequest(
    jobId: string,
    videoId: string,
    publisherUserId: string,
    sourceVideoUri: string,
    postId: Option<string>,
    canisterId: Option<string>,
    sourceObjectVersion: string,
    uploadEventId: Option<string>,
    policyVersion: string,
    traceId: Option<string>
  )

  /** The request fields declared with a minimum length of one. */
  predicate ValidRequest(r: VideoDetectRequest) {
    r.jobId != "" && r.videoId != "" && r.publisherUserId != "" && r.sourceVideoUri != "" && r.policyVersion != ""
  }

  datatype VideoJob = VideoJob(
    jobId: string,
    videoId: string,
    sourceObjectVersion: string,
    policyVersion: string,
    status: VideoJobStatus,
    publisherUserId: string,
    postId: Option<string>,
    canisterId: Option<string>,
    sourceVideoUri: string,
    uploadEventId: Option<string>,
    traceId: Option<string>,
    attempts: nat,
    lastErrorCode: Option<string>,
    lastErrorMessage: Option<string>,
    createdAt: Option<Time>,
    updatedAt: Option<Time>,
    startedAt: Option<Time>,
    finishedAt: Option<Time>
  )

  /** What makes two jobs the same piece of work. */
  datatype Triple = Triple(videoId: string, sourceObjectVersion: string, policyVersion: string)

  function TripleOf(job: VideoJob): Triple {
    Triple(job.videoId, job.sourceObjectVersion, job.policyVersion)
  }

  function TripleOfRequest(r: VideoDetectRequest): Triple {
    Triple(r.videoId, r.sourceObjectVersion, r.policyVersion)
  }

  function NewJob(r: VideoDetectRequest, now: Time): VideoJob {
    VideoJob(r.jobId, r.videoId, r.sourceObjectVersion, r.policyVersion, Queued, r.publisherUserId, r.postId,
             r.canisterId, r.sourceVideoUri, r.uploadEventId, r.traceId, 0, None, None, Some(now), Some(now),
             None, None)
  }

  /** The record `update_status` writes: attempts count entries into PROCESSING, errors are always overwritten. */
  function WithStatus(job: VideoJob, status: VideoJobStatus, code: Option<string>, message: Option<string>,
                      now: Time): VideoJob
  {
    job.(status := status,
      attempts := if status == Processing then job.attempts + 1 else job.attempts,
      lastErrorCode := code,
      lastErrorMessage := message,
      updatedAt := Some(now),
      startedAt := if status == Processing then Some(now) else job.startedAt,
      finishedAt := if IsTerminal(status) then Some(now) else job.finishedAt)
  }
}

/** Exceptions a processing step may raise, and how the processor classifies them. */
module Failures {
  import opened VideoJobs
  import Decimal

  datatype Exn =
    | HttpStatusError(httpStatus: nat, text: string)
    | RequestError(className: string, text: string)
    | AppError(code: string, message: string, statusCode: nat)
    | OtherError(className: string, text: string)

  const TERMINAL_PROCESSING_ERROR_CODES: set<string> := {
    "video_download_empty", "video_too_large", "video_no_stream", "video_probe_failed", "video_extraction_failed"
  }

  datatype ProcessingFailure = ProcessingFailure(
    status: VideoJobStatus,
    errorCode: string,
    errorMessage: string,
    retryable: bool
  )

  predicate IsRetryable(e: Exn) {
    match e
    case HttpStatusError(s, _) => s in {408, 429} || s >= 500
    case RequestError(_, _) => true
    case AppError(code, _, s) => code !in TERMINAL_PROCESSING_ERROR_CODES && s >= 500
    case OtherError(_, _) => true
  }

  function ErrorCode(e: Exn): string {
    match e
    case AppError(code, _, _) => code
    case HttpStatusError(s, _) => "http_" + Decimal.Print(s)
    case RequestError(name, _) => name
    case OtherError(name, _) => name
  }

  function ErrorMessage(e: Exn): string {
    var message := match e
                   case AppError(_, m, _) => m
                   case HttpStatusError(_, t) => if t == "" then "HTTPStatusError" else t
                   case RequestError(name, t) => if t == "" then name else t
                   case OtherError(name, t) => if t == "" then name else t;
    if |message| <= 1000 then message else message[..1000]
  }

  /** What is recorded of an exception: the code of an application error, the status of an HTTP error or the name of the
      class; and the first thousand characters of its message, or of the class name when it has none. */
  predicate Records(e: Exn, code: string, message: string) {
    match e
    case AppError(c, m, _) => code == c && Begins(message, m)
    case HttpStatusError(s, t) =>
      code == "http_" + Decimal.Print(s) && Begins(message, if t == "" then "HTTPStatusError" else t)
    case RequestError(name, t) => code == name && Begins(message, if t == "" then name else t)
    case OtherError(name, t) => code == name && Begins(message, if t == "" then name else t)
  }

  /** The text cut to a thousand characters. */
  predicate Begins(message: string, text: string) {
    message <= text && (|message| == 1000 || message == text) && |message| <= 1000
  }

  /** Retryable as long as attempts are left: a time-out, a rate limit, a server error, a lost connection, an
      application error of status 500 and above that is not about the video itself, and anything unknown.
      `queue_max_attempts` is any integer setting. */
  function ClassifyProcessingError(e: Exn, attempts: nat, maxAttempts: int): (f: ProcessingFailure)
    ensures f.status == if f.retryable then FailedRetryable else FailedTerminal
    ensures f.retryable <==>
            && attempts < maxAttempts
            && match e
               case HttpStatusError(s, _) => s == 408 || s == 429 || s >= 500
               case RequestError(_, _) => true
               case AppError(code, _, s) =>
                 s >= 500 && code !in {"video_download_empty", "video_too_large", "video_no_stream",
                                       "video_probe_failed", "video_extraction_failed"}
               case OtherError(_, _) => true
    ensures Records(e, f.errorCode, f.errorMessage)
  {
    var retryable := IsRetryable(e) && attempts < maxAttempts;
    ProcessingFailure(if retryable then FailedRetryable else FailedTerminal, ErrorCode(e), ErrorMessage(e), retryable)
  }
}
