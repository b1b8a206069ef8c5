/** The Postgres tables as an object, its job-state repository methods, and the unit of work of the final
    transaction. */
module PostgresRepository {
  import opened Common
  import opened VideoJobs
  import opened ModerationPolicy
  import opened Aggregation
  import opened PostgresState

  class PostgresDatabase {
    var jobs: map<string, VideoJob>
    var frames: map<string, FrameRow>
    var results: map<string, VideoResult>
    var actions: map<string, StorageAction>

    function State(): Db
      reads this
    {
      Db(jobs, frames, results, actions)
    }

    constructor ()
      ensures State() == EmptyDb()
    {
      jobs, frames, results, actions := map[], map[], map[], map[];
    }

    method Install(db: Db)
      modifies this
      ensures State() == db
    {
      jobs, frames, results, actions := db.jobs, db.frames, db.results, db.actions;
    }

    method GetByJobId(jobId: string) returns (job: Option<VideoJob>)
      ensures job == if jobId in jobs then Some(jobs[jobId]) else None
    {
      job := if jobId in jobs then Some(jobs[jobId]) else None;
    }

    /** Offer the job as it was before this attempt, unless its id or its triple is taken; then count the attempt. */
    method MarkProcessing(job: VideoJob, now: Time)
      modifies this
      ensures State() == PostgresState.MarkProcessing(old(State()), job, now)
    {
      var inserted := job.(status := Queued, attempts := if job.attempts - 1 >= 0 then job.attempts - 1 else 0,
        startedAt := None);
      var taken := job.jobId in jobs || exists j :: j in jobs && TripleOf(jobs[j]) == TripleOf(inserted);
      assert taken <==> inserted.jobId in jobs || TripleTaken(State(), TripleOf(inserted));
      if !taken {
        jobs := jobs[job.jobId := inserted];
      }
      if job.jobId in jobs {
        var row := jobs[job.jobId];
        jobs := jobs[job.jobId := row.(status := Processing, attempts := row.attempts + 1,
          startedAt := Some(now), updatedAt := Some(now))];
      }
    }

    method MarkFailed(jobId: string, status: VideoJobStatus, code: string, message: string, now: Time)
      requires status in {FailedRetryable, FailedTerminal}
      modifies this
      ensures State() == SetFailed(old(State()), jobId, status, code, message, now)
      ensures jobId !in old(jobs) ==> State() == old(State())
      ensures jobId in old(jobs) ==>
                && jobId in jobs && State() == old(State()).(jobs := old(jobs)[jobId := jobs[jobId]])
                && var x, y := old(jobs)[jobId], jobs[jobId];
                   && y.status == status && y.lastErrorCode == Some(code) && y.lastErrorMessage == Some(message)
                   && y.finishedAt == (if status == FailedTerminal then Some(now) else None)
                   && y.updatedAt == Some(now)
                   && x == y.(status := x.status, lastErrorCode := x.lastErrorCode,
                     lastErrorMessage := x.lastErrorMessage, finishedAt := x.finishedAt, updatedAt := x.updatedAt)
    {
      if jobId in jobs {
        jobs := jobs[jobId := jobs[jobId].(status := status, lastErrorCode := Some(code),
          lastErrorMessage := Some(message), finishedAt := if status == FailedTerminal then Some(now) else None,
          updatedAt := Some(now))];
      }
    }
  }

  /** One transaction: its statements work on a private copy, which becomes the database when it exits normally and is
      thrown away otherwise. */
  class FinalResultUnitOfWork {
    const database: PostgresDatabase
    var session: Option<Db>

    constructor (database: PostgresDatabase)
      ensures this.database == database && session == None
    {
      this.database, session := database, None;
    }

    method Enter()
      modifies this
      ensures session == Some(database.State())
    {
      session := Some(database.State());
    }

    /** Row after row; the statement fails as a whole on the first violated constraint. */
    method InsertFrameResults(job: VideoJob, frames: seq<FrameResult>) returns (ok: bool)
      requires session.Some?
      modifies this
      ensures ok <==> InsertFrames(old(session.value), job.jobId, job.videoId, frames).Some?
      ensures session == if ok then InsertFrames(old(session.value), job.jobId, job.videoId, frames) else old(session)
    {
      var db := session.value;
      for i := 0 to |frames|
        invariant session == old(session)
        invariant InsertFrames(session.value, job.jobId, job.videoId, frames[..i]) == Some(db)
      {
        InsertStep(session.value, job.jobId, job.videoId, frames, i);
        if !FrameAccepted(db, job.jobId, frames[i]) {
          FailurePropagates(session.value, job.jobId, job.videoId, frames, i + 1);
          return false;
        }
        var row := FrameRow(job.jobId, job.videoId, frames[i]);
        db := db.(frames := db.frames[FrameId(job.jobId, frames[i].frameIndex) := row]);
      }
      assert frames[..|frames|] == frames;
      session := Some(db);
      return true;
    }

    method InsertFinalResult(r: VideoResult) returns (ok: bool)
      requires session.Some?
      modifies this
      ensures ok <==> InsertResult(old(session.value), r).Some?
      ensures session == if ok then InsertResult(old(session.value), r) else old(session)
      ensures var db := old(session.value);
              && (ok <==> r.jobId !in db.results && r.jobId in db.jobs)
              && (ok ==> session == Some(db.(results := db.results[r.jobId := r])))
    {
      var db := session.value;
      ok := r.jobId !in db.results && r.jobId in db.jobs;
      if ok {
        session := Some(db.(results := db.results[r.jobId := r]));
      }
    }

    method InsertStorageAction(a: StorageAction) returns (ok: bool)
      requires session.Some?
      modifies this
      ensures ok <==> InsertAction(old(session.value), a).Some?
      ensures session == if ok then InsertAction(old(session.value), a) else old(session)
      ensures var db := old(session.value);
              && (ok <==> a.actionId !in db.actions && a.jobId in db.jobs)
              && (ok ==> session == Some(db.(actions := db.actions[a.actionId := a])))
    {
      var db := session.value;
      ok := a.actionId !in db.actions && a.jobId in db.jobs;
      if ok {
        session := Some(db.(actions := db.actions[a.actionId := a]));
      }
    }

    method MarkJobClassified(jobId: string, now: Time)
      requires session.Some?
      modifies this
      ensures session == Some(SetClassified(old(session.value), jobId, now))
      ensures var db := old(session.value);
              session == Some(if jobId !in db.jobs then db else
                              db.(jobs := db.jobs[jobId := db.jobs[jobId].(status := Classified,
                                finishedAt := Some(now), updatedAt := Some(now))]))
    {
      var db := session.value;
      if jobId in db.jobs {
        session := Some(db.(jobs := db.jobs[jobId := db.jobs[jobId].(status := Classified, finishedAt := Some(now),
                                            updatedAt := Some(now))]));
      }
    }

    method Exit(commit: bool)
      requires session.Some?
      modifies this, database
      ensures session == None
      ensures database.State() == if commit then old(session.value) else old(database.State())
    {
      if commit {
        database.Install(session.value);
      }
      session := None;
    }
  }

  lemma InsertStep(db: Db, jobId: string, videoId: string, frames: seq<FrameResult>, i: nat)
    requires i < |frames|
    ensures frames[..i + 1][..i] == frames[..i] && frames[..i + 1][i] == frames[i]
  {
  }

  lemma {:induction false} FailurePropagates(db: Db, jobId: string, videoId: string, frames: seq<FrameResult>, i: nat)
    requires i <= |frames| && InsertFrames(db, jobId, videoId, frames[..i]).None?
    ensures InsertFrames(db, jobId, videoId, frames).None?
    decreases |frames| - i
  {
    if i == |frames| {
      assert frames[..i] == frames;
    } else {
      InsertStep(db, jobId, videoId, frames, i);
      FailurePropagates(db, jobId, videoId, frames, i + 1);
    }
  }

  /** The statements of the final transaction in their order. It commits exactly when no constraint is violated, and
      leaves no trace otherwise. */
  method CommitFinalResult(database: PostgresDatabase, job: VideoJob, frames: seq<FrameResult>, r: VideoResult,
                           action: Option<StorageAction>, now: Time)
    returns (committed: bool)
    modifies database
    ensures committed <==> CommitFinal(old(database.State()), job, frames, r, action, now).Some?
    ensures committed ==> Some(database.State()) == CommitFinal(old(database.State()), job, frames, r, action, now)
    ensures !committed ==> database.State() == old(database.State())
  {
    hide InsertFrames, InsertResult, InsertAction, SetClassified;
    var unitOfWork := new FinalResultUnitOfWork(database);
    unitOfWork.Enter();
    committed := unitOfWork.InsertFrameResults(job, frames);
    if committed {
      committed := unitOfWork.InsertFinalResult(r);
    }
    if committed && action.Some? {
      committed := unitOfWork.InsertStorageAction(action.value);
    }
    if committed {
      unitOfWork.MarkJobClassified(job.jobId, now);
    }
    unitOfWork.Exit(committed);
  }
}
