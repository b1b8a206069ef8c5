/** The four Postgres tables as maps keyed by primary key, with their unique, foreign-key and check constraints, and
    the statements and transactions the worker runs against them. */
module PostgresState {
  import opened Common
  import opened VideoJobs
  import opened ModerationPolicy
  import opened Aggregation
  import Decimal

  datatype FrameRow = FrameRow(jobId: string, videoId: string, frame: FrameResult)

  datatype StorageAction = StorageAction(
    actionId: string,
    jobId: string,
    videoId: string,
    publisherUserId: string,
    threshold: real,
    finalScore: real
  )

  datatype Db = Db(
    jobs: map<string, VideoJob>,
    frames: map<string, FrameRow>,
    results: map<string, VideoResult>,
    actions: map<string, StorageAction>
  )

  function EmptyDb(): Db {
    Db(map[], map[], map[], map[])
  }

  // ---------- nsfw_video_jobs ----------

  predicate TripleTaken(db: Db, t: Triple) {
    exists j :: j in db.jobs && TripleOf(db.jobs[j]) == t
  }

  /** INSERT ... ON CONFLICT DO NOTHING: the primary key and the unique triple both count as conflicts. */
  function InsertJobOrIgnore(db: Db, job: VideoJob): Db {
    if job.jobId in db.jobs || TripleTaken(db, TripleOf(job)) then db else db.(jobs := db.jobs[job.jobId := job])
  }

  function SetProcessing(db: Db, jobId: string, now: Time): Db {
    if jobId !in db.jobs then db else
    var row := db.jobs[jobId];
    db.(jobs := db.jobs[jobId := row.(status := Processing, attempts := row.attempts + 1,
      startedAt := Some(now), updatedAt := Some(now))])
  }

  function SetClassified(db: Db, jobId: string, now: Time): Db {
    if jobId !in db.jobs then db else
    db.(jobs := db.jobs[jobId := db.jobs[jobId].(status := Classified, finishedAt := Some(now),
        updatedAt := Some(now))])
  }

  /** No guard on the current status: a CLASSIFIED row is overwritten like any other. */
  function SetFailed(db: Db, jobId: string, status: VideoJobStatus, code: string, message: string, now: Time): Db {
    if jobId !in db.jobs then db else
    db.(jobs := db.jobs[jobId := db.jobs[jobId].(status := status, lastErrorCode := Some(code),
      lastErrorMessage := Some(message), finishedAt := if status == FailedTerminal then Some(now) else None,
      updatedAt := Some(now))])
  }

  /** The row `mark_processing` offers for insertion. */
  function FirstRow(job: VideoJob): VideoJob {
    job.(status := Queued, attempts := if job.attempts == 0 then 0 else job.attempts - 1, startedAt := None)
  }

  /** One transaction: offer a row that has not counted this attempt yet, then count it. */
  function MarkProcessing(db: Db, job: VideoJob, now: Time): Db {
    SetProcessing(InsertJobOrIgnore(db, FirstRow(job)), job.jobId, now)
  }

  // ---------- nsfw_frame_results ----------

  function FrameId(jobId: string, frameIndex: nat): string {
    jobId + ":" + Decimal.Print(frameIndex)
  }

  predicate SeveritiesInRange(f: FrameResult) {
    0 <= f.overallSeverity <= 5 && ValidScores(f.categories)
  }

  /** Primary key, unique (job_id, frame_index), foreign key and severity checks of one row. */
  predicate FrameAccepted(db: Db, jobId: string, f: FrameResult) {
    && FrameId(jobId, f.frameIndex) !in db.frames
    && (forall k :: k in db.frames ==> !(db.frames[k].jobId == jobId && db.frames[k].frame.frameIndex == f.frameIndex))
    && jobId in db.jobs
    && SeveritiesInRange(f)
  }

  /** The rows of one multi-row INSERT: the whole statement fails on the first violated constraint. */
  function InsertFrames(db: Db, jobId: string, videoId: string, frames: seq<FrameResult>): Option<Db> {
    if frames == [] then Some(db) else
    var last := frames[|frames| - 1];
    match InsertFrames(db, jobId, videoId, frames[..|frames| - 1])
    case None => None
    case Some(db1) =>
      if !FrameAccepted(db1, jobId, last) then None
      else Some(db1.(frames := db1.frames[FrameId(jobId, last.frameIndex) := FrameRow(jobId, videoId, last)]))
  }

  // ---------- nsfw_video_results, nsfw_storage_actions ----------

  function InsertResult(db: Db, r: VideoResult): Option<Db> {
    if r.jobId in db.results || r.jobId !in db.jobs then None else Some(db.(results := db.results[r.jobId := r]))
  }

  function InsertAction(db: Db, a: StorageAction): Option<Db> {
    if a.actionId in db.actions || a.jobId !in db.jobs then None else Some(db.(actions := db.actions[a.actionId := a]))
  }

  function ActionFor(job: VideoJob, r: VideoResult, uuid: string): StorageAction {
    StorageAction("storage-action:" + job.jobId + ":" + uuid, job.jobId, job.videoId, job.publisherUserId,
                  r.moveThreshold, r.finalScore)
  }

  /** The final transaction: frames, result, the action of a performed move, and the CLASSIFIED mark; nothing at all
      when any statement violates a constraint. */
  function CommitFinal(db: Db, job: VideoJob, frames: seq<FrameResult>, r: VideoResult, action: Option<StorageAction>,
                       now: Time): Option<Db>
  {
    match InsertFrames(db, job.jobId, job.videoId, frames)
    case None => None
    case Some(db1) =>
      match InsertResult(db1, r)
      case None => None
      case Some(db2) =>
        match action
        case None => Some(SetClassified(db2, job.jobId, now))
        case Some(a) =>
          match InsertAction(db2, a)
          case None => None
          case Some(db3) => Some(SetClassified(db3, job.jobId, now))
  }

  // ---------- frame ids ----------

  lemma ColonAmongDigits(a: string, b: string, x: string, y: string)
    requires Decimal.AllDigits(x) && |a| < |b|
    ensures a + ":" + x != b + ":" + y
  {
    var s, t := a + ":" + x, b + ":" + y;
    assert t[|b|] == ':';
    if |b| < |s| {
      assert s[|b|] == x[|b| - |a| - 1];
      assert s[|b|] != t[|b|];
    }
  }

  lemma LastColonIsUnique(a: string, b: string, x: string, y: string)
    requires Decimal.AllDigits(x) && Decimal.AllDigits(y)
    requires a + ":" + x == b + ":" + y
    ensures a == b && x == y
  {
    if |a| < |b| {
      ColonAmongDigits(a, b, x, y);
    } else if |b| < |a| {
      ColonAmongDigits(b, a, y, x);
    } else {
      var s, t := a + ":" + x, b + ":" + y;
      assert s[..|a|] == a && t[..|b|] == b;
      assert s[|a| + 1..] == x && t[|b| + 1..] == y;
    }
  }

  /** A frame id is job id, colon and index, and no two (job, frame) pairs share one, whatever colons the job ids
      contain. */
  lemma FrameIdInjective(j: string, i: nat, k: string, n: nat)
    requires FrameId(j, i) == FrameId(k, n)
    ensures j == k && i == n && FrameId(j, i) == j + ":" + Decimal.Print(i)
  {
    LastColonIsUnique(j, k, Decimal.Print(i), Decimal.Print(n));
    Decimal.PrintInjective(i, n);
  }

  // ---------- what a committed transaction contains ----------

  /** Rows are stored under the id their job and index determine. */
  predicate FramesKeyed(frames: map<string, FrameRow>) {
    forall k :: k in frames ==> k == FrameId(frames[k].jobId, frames[k].frame.frameIndex)
  }

  /** The checks of one frame row: twelve severities between 0 and 5. */
  predicate RowChecks(f: FrameResult) {
    0 <= f.overallSeverity <= 5 && forall c: Category :: c in f.categories && 0 <= f.categories[c] <= 5
  }

  /** What the table accepts of a multi-row insert: rows of a known job, in range, with indices that are new to the job
      and to each other. */
  ghost predicate Insertable(db: Db, jobId: string, frames: seq<FrameResult>) {
    forall i :: 0 <= i < |frames| ==>
      && jobId in db.jobs && RowChecks(frames[i])
      && FrameId(jobId, frames[i].frameIndex) !in db.frames
      && forall k :: 0 <= k < i ==> frames[k].frameIndex != frames[i].frameIndex
  }

  /** `rows'` are `rows` and exactly the rows of these frames, under the ids made of job and index. */
  predicate RowsAdded(rows: map<string, FrameRow>, rows': map<string, FrameRow>, jobId: string, videoId: string,
                      frames: seq<FrameResult>)
  {
    && (forall key :: key in rows ==> key in rows' && rows'[key] == rows[key])
    && (forall i :: 0 <= i < |frames| ==>
          var key := FrameId(jobId, frames[i].frameIndex);
          key !in rows && key in rows' && rows'[key] == FrameRow(jobId, videoId, frames[i]))
    && (forall key :: key in rows' && key !in rows ==>
          exists i :: 0 <= i < |frames| && key == FrameId(jobId, frames[i].frameIndex))
  }

  /** A multi-row insert goes through exactly when every row is acceptable, and then adds exactly these rows. */
  lemma {:induction false} InsertFramesExactly(db: Db, jobId: string, videoId: string, frames: seq<FrameResult>)
    requires FramesKeyed(db.frames)
    ensures InsertFrames(db, jobId, videoId, frames).Some? <==> Insertable(db, jobId, frames)
    ensures InsertFrames(db, jobId, videoId, frames).Some? ==>
              var db' := InsertFrames(db, jobId, videoId, frames).value;
              db' == db.(frames := db'.frames) && FramesKeyed(db'.frames)
              && RowsAdded(db.frames, db'.frames, jobId, videoId, frames)
  {
    hide FrameAccepted, RowChecks, FramesKeyed, RowsAdded;
    if frames == [] {
      NoRows(db.frames, jobId, videoId);
    } else {
      var before, last := frames[..|frames| - 1], frames[|frames| - 1];
      assert frames == before + [last];
      InsertFramesExactly(db, jobId, videoId, before);
      InsertableGrows(db, jobId, before, last);
      hide Insertable;
      if InsertFrames(db, jobId, videoId, before).Some? {
        var db1 := InsertFrames(db, jobId, videoId, before).value;
        AcceptedExactly(db1, jobId, last);
        NewIndex(db.frames, db1.frames, jobId, videoId, before, last.frameIndex);
        if FrameAccepted(db1, jobId, last) {
          OneMoreRow(db.frames, db1.frames, jobId, videoId, before, last);
        }
      }
    }
  }

  lemma NoRows(rows: map<string, FrameRow>, jobId: string, videoId: string)
    ensures RowsAdded(rows, rows, jobId, videoId, [])
  {
  }

  lemma InsertableGrows(db: Db, jobId: string, before: seq<FrameResult>, last: FrameResult)
    ensures Insertable(db, jobId, before + [last]) <==>
            && Insertable(db, jobId, before) && jobId in db.jobs && RowChecks(last)
            && FrameId(jobId, last.frameIndex) !in db.frames
            && forall k :: 0 <= k < |before| ==> before[k].frameIndex != last.frameIndex
  {
    hide RowChecks, FrameId;
    var all := before + [last];
    assert all[|before|] == last && forall i :: 0 <= i < |before| ==> all[i] == before[i];
  }

  lemma AcceptedExactly(db: Db, jobId: string, f: FrameResult)
    requires FramesKeyed(db.frames)
    ensures FrameAccepted(db, jobId, f) <==>
            jobId in db.jobs && RowChecks(f) && FrameId(jobId, f.frameIndex) !in db.frames
  {
  }

  lemma NewIndex(rows: map<string, FrameRow>, rows': map<string, FrameRow>, jobId: string, videoId: string,
                 before: seq<FrameResult>, index: nat)
    requires RowsAdded(rows, rows', jobId, videoId, before)
    ensures var key := FrameId(jobId, index);
            key !in rows' <==> key !in rows && forall k :: 0 <= k < |before| ==> before[k].frameIndex != index
  {
    hide FrameId;
    var key := FrameId(jobId, index);
    if key in rows' && key !in rows {
      var i :| 0 <= i < |before| && key == FrameId(jobId, before[i].frameIndex);
      FrameIdInjective(jobId, before[i].frameIndex, jobId, index);
    }
  }

  lemma OneMoreRow(rows: map<string, FrameRow>, rows': map<string, FrameRow>, jobId: string, videoId: string,
                   before: seq<FrameResult>, last: FrameResult)
    requires RowsAdded(rows, rows', jobId, videoId, before) && FramesKeyed(rows')
    requires FrameId(jobId, last.frameIndex) !in rows'
    ensures var rows'' := rows'[FrameId(jobId, last.frameIndex) := FrameRow(jobId, videoId, last)];
            FramesKeyed(rows'') && RowsAdded(rows, rows'', jobId, videoId, before + [last])
  {
    hide FrameId;
    var all, key0 := before + [last], FrameId(jobId, last.frameIndex);
    assert all[|before|] == last && forall i :: 0 <= i < |before| ==> all[i] == before[i];
    forall key | key in rows'[key0 := FrameRow(jobId, videoId, last)] && key !in rows
      ensures exists i :: 0 <= i < |all| && key == FrameId(jobId, all[i].frameIndex)
    {
      if key == key0 {
        assert key == FrameId(jobId, all[|before|].frameIndex);
      } else {
        var i :| 0 <= i < |before| && key == FrameId(jobId, before[i].frameIndex);
        assert key == FrameId(jobId, all[i].frameIndex);
      }
    }
  }

  predicate HasFrame(db: Db, jobId: string, i: nat) {
    FrameId(jobId, i) in db.frames
  }

  predicate Sequential(frames: seq<FrameResult>) {
    forall i :: 0 <= i < |frames| ==> frames[i].frameIndex == i
  }

  predicate NoFramesOf(db: Db, jobId: string) {
    forall k :: k in db.frames ==> db.frames[k].jobId != jobId
  }

  /** Inserting the frames 0..n-1 of a job that has none yet succeeds exactly when the job has its parent row. */
  lemma InsertFramesSucceeds(db: Db, jobId: string, videoId: string, frames: seq<FrameResult>)
    requires FramesKeyed(db.frames) && NoFramesOf(db, jobId) && Sequential(frames)
    requires forall f :: f in frames ==> SeveritiesInRange(f)
    ensures InsertFrames(db, jobId, videoId, frames).Some? <==> frames == [] || jobId in db.jobs
    ensures InsertFrames(db, jobId, videoId, frames).Some? ==>
              FramesInserted(db, InsertFrames(db, jobId, videoId, frames).value, jobId, videoId, frames)
  {
    hide InsertFrames;
    InsertFramesExactly(db, jobId, videoId, frames);
    if frames == [] || jobId in db.jobs {
      AllInsertable(db, jobId, frames);
      var db' := InsertFrames(db, jobId, videoId, frames).value;
      RowsOfFrames(db, db', jobId, videoId, frames);
    } else {
      assert !Insertable(db, jobId, frames) by {
        assert jobId !in db.jobs && frames[0] == frames[0];
      }
    }
  }

  lemma AllInsertable(db: Db, jobId: string, frames: seq<FrameResult>)
    requires FramesKeyed(db.frames) && NoFramesOf(db, jobId) && Sequential(frames)
    requires (forall f :: f in frames ==> SeveritiesInRange(f)) && (frames == [] || jobId in db.jobs)
    ensures Insertable(db, jobId, frames)
  {
    forall i | 0 <= i < |frames|
      ensures RowChecks(frames[i]) && FrameId(jobId, frames[i].frameIndex) !in db.frames
    {
      assert frames[i] in frames;
      var key := FrameId(jobId, frames[i].frameIndex);
      if key in db.frames {
        FrameIdInjective(jobId, frames[i].frameIndex, db.frames[key].jobId, db.frames[key].frame.frameIndex);
      }
    }
  }

  lemma RowsOfFrames(db: Db, db': Db, jobId: string, videoId: string, frames: seq<FrameResult>)
    requires Sequential(frames) && db' == db.(frames := db'.frames)
    requires RowsAdded(db.frames, db'.frames, jobId, videoId, frames)
    ensures FramesInserted(db, db', jobId, videoId, frames)
  {
    hide FrameId;
    forall i | 0 <= i < |frames|
      ensures HasFrame(db', jobId, i) && db'.frames[FrameId(jobId, i)] == FrameRow(jobId, videoId, frames[i])
    {
      assert frames[i].frameIndex == i;
    }
    forall k | k in db'.frames && k !in db.frames
      ensures exists i :: 0 <= i < |frames| && k == FrameId(jobId, i)
    {
      var i :| 0 <= i < |frames| && k == FrameId(jobId, frames[i].frameIndex);
      assert frames[i].frameIndex == i;
    }
  }

  /** `db'` is `db` plus exactly the given frames of the job. */
  predicate FramesInserted(db: Db, db': Db, jobId: string, videoId: string, frames: seq<FrameResult>) {
    && db' == db.(frames := db'.frames)
    && (forall k :: k in db.frames ==> k in db'.frames && db'.frames[k] == db.frames[k])
    && (forall i :: 0 <= i < |frames| ==>
          HasFrame(db', jobId, i) && db'.frames[FrameId(jobId, i)] == FrameRow(jobId, videoId, frames[i]))
    && (forall k :: k in db'.frames && k !in db.frames ==> exists i :: 0 <= i < |frames| && k == FrameId(jobId, i))
  }

  /** The first attempt of a job inserts its row, unless its id or its triple is taken; every attempt is counted in the
      row of the job, if it has one. */
  lemma MarkProcessingFacts(db: Db, job: VideoJob, now: Time)
    ensures var db' := MarkProcessing(db, job, now);
            var taken :=
              exists j ::
                && j in db.jobs && db.jobs[j].videoId == job.videoId
                && db.jobs[j].sourceObjectVersion == job.sourceObjectVersion
                && db.jobs[j].policyVersion == job.policyVersion;
            && (job.jobId in db.jobs ==>
                  var x := db.jobs[job.jobId];
                  db' == db.(jobs := db.jobs[job.jobId := x.(status := Processing, attempts := x.attempts + 1,
                    startedAt := Some(now), updatedAt := Some(now))]))
            && (job.jobId !in db.jobs && taken ==> db' == db)
            && (job.jobId !in db.jobs && !taken ==>
                  var attempts := if job.attempts == 0 then 1 else job.attempts;
                  db' == db.(jobs := db.jobs[job.jobId := job.(status := Processing, attempts := attempts,
                    startedAt := Some(now), updatedAt := Some(now))]))
  {
    var taken :=
      exists j ::
        && j in db.jobs && db.jobs[j].videoId == job.videoId
        && db.jobs[j].sourceObjectVersion == job.sourceObjectVersion
        && db.jobs[j].policyVersion == job.policyVersion;
    assert taken <==> TripleTaken(db, TripleOf(FirstRow(job))) by {
      if taken {
        var j :| j in db.jobs && db.jobs[j].videoId == job.videoId
          && db.jobs[j].sourceObjectVersion == job.sourceObjectVersion && db.jobs[j].policyVersion == job.policyVersion;
        assert TripleOf(db.jobs[j]) == TripleOf(FirstRow(job));
      }
    }
    hide TripleTaken, TripleOf;
    if job.jobId !in db.jobs && !taken {
      var attempts := if job.attempts == 0 then 1 else job.attempts;
      var row := job.(status := Processing, attempts := attempts, startedAt := Some(now), updatedAt := Some(now));
      assert db.jobs[job.jobId := FirstRow(job)][job.jobId := row] == db.jobs[job.jobId := row];
    }
  }

  /** The final transaction commits exactly when every statement's constraints are met, and then adds the frame rows,
      the result and the action, and marks the job's row. */
  lemma CommitFinalExactly(db: Db, job: VideoJob, frames: seq<FrameResult>, r: VideoResult,
                           action: Option<StorageAction>, now: Time)
    requires FramesKeyed(db.frames)
    ensures CommitFinal(db, job, frames, r, action, now).Some? <==>
            && Insertable(db, job.jobId, frames)
            && r.jobId !in db.results && r.jobId in db.jobs
            && (action.Some? ==> action.value.actionId !in db.actions && action.value.jobId in db.jobs)
    ensures CommitFinal(db, job, frames, r, action, now).Some? ==>
              var db' := CommitFinal(db, job, frames, r, action, now).value;
              && RowsAdded(db.frames, db'.frames, job.jobId, job.videoId, frames)
              && db'.results == db.results[r.jobId := r]
              && db'.actions == (if action.Some? then db.actions[action.value.actionId := action.value] else db.actions)
              && (job.jobId !in db.jobs ==> db'.jobs == db.jobs)
              && (job.jobId in db.jobs ==>
                    db'.jobs == db.jobs[job.jobId := db.jobs[job.jobId].(status := Classified,
                      finishedAt := Some(now), updatedAt := Some(now))])
  {
    InsertFramesExactly(db, job.jobId, job.videoId, frames);
    hide InsertFrames, Insertable, RowsAdded, FramesKeyed;
  }

  /** The exact condition under which the final transaction of a job without frame rows commits: its parent row exists,
      it has no result yet, and the generated action id is new. */
  lemma CommitFinalSucceeds(db: Db, job: VideoJob, frames: seq<FrameResult>, r: VideoResult,
                            action: Option<StorageAction>, now: Time)
    requires FramesKeyed(db.frames) && NoFramesOf(db, job.jobId) && Sequential(frames) && r.jobId == job.jobId
    requires forall f :: f in frames ==> SeveritiesInRange(f)
    requires action.Some? ==> action.value.jobId == job.jobId
    ensures CommitFinal(db, job, frames, r, action, now).Some? <==>
            && job.jobId in db.jobs
            && job.jobId !in db.results
            && (action.Some? ==> action.value.actionId !in db.actions)
    ensures CommitFinal(db, job, frames, r, action, now).Some? ==>
              var db' := CommitFinal(db, job, frames, r, action, now).value;
              && FramesInserted(db, db.(frames := db'.frames), job.jobId, job.videoId, frames)
              && db'.results == db.results[job.jobId := r]
              && db'.actions == (if action.Some? then db.actions[action.value.actionId := action.value] else db.actions)
              && db'.jobs == SetClassified(db, job.jobId, now).jobs
  {
    InsertFramesSucceeds(db, job.jobId, job.videoId, frames);
  }
}
