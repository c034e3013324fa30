/** The background scheduler (src/scheduler.py): the running flag and the
    table of the two named jobs that start, stop and reschedule change, the
    status listing, the seven-day retention sweep over the snapshot
    directory, and the status writes of the periodic extraction job. Time is
    in whole seconds since the Unix epoch, UTC, and is passed in as `now`. */
module Scheduler {
  import opened Wrappers
  import opened Text
  import opened Measurements
  import opened AirQualityClient
  import MockDataGenerator

  // ---------------------------------------------------------------------------
  // Jobs and triggers

  const ExtractionJobId: string := "air_quality_extraction"
  const CleanupJobId: string := "data_cleanup"
  const ExtractionJobName: string := "Air Quality Data Extraction"
  const CleanupJobName: string := "Data Cleanup"

  const SecondsPerDay: int := 86400

  /** An interval trigger in minutes, or a daily trigger at a UTC time. */
  datatype Trigger = Interval(minutes: int) | DailyAt(hour: nat, minute: nat)

  datatype Job = Job(id: string, name: string, trigger: Trigger, nextRunTime: Option<Timestamp>)

  /** The first time at or after `now` whose UTC clock reads `hour:minute`. */
  function NextDailyRun(now: Timestamp, hour: nat, minute: nat): (r: Timestamp)
    requires hour < 24 && minute < 60
    ensures now <= r < now + SecondsPerDay
    ensures r % SecondsPerDay == hour * 3600 + minute * 60
  {
    var candidate := now - now % SecondsPerDay + hour * 3600 + minute * 60;
    if candidate >= now then candidate else candidate + SecondsPerDay
  }

  /** What `get_job_status` reports for one job. */
  datatype JobInfo = JobInfo(id: string, name: string, nextRunTime: Option<Timestamp>, trigger: Trigger)

  function InfoOf(job: Job): JobInfo {
    JobInfo(job.id, job.name, job.nextRunTime, job.trigger)
  }

  function IdsOf(entries: seq<JobInfo>): set<string> {
    set e | e in entries :: e.id
  }

  /** One step of the listing loop: the entry of a job not yet listed joins
      the entries, whose ids stay exactly the listed jobs. */
  lemma ListingStep(entries: seq<JobInfo>, info: JobInfo, all: set<string>, pending: set<string>, id: string)
    requires pending <= all && id in pending && info.id == id
    requires IdsOf(entries) == all - pending && |entries| == |all - pending|
    ensures IdsOf(entries + [info]) == all - (pending - {id})
    ensures |entries + [info]| == |all - (pending - {id})|
  {
    var done := all - pending;
    assert all - (pending - {id}) == done + {id};
    assert forall e | e in entries + [info] :: e in entries || e == info;
  }

  /** `AirQualityScheduler`: the running flag and the scheduler's job store.
      The job store is kept across `stop` (the memory store is not cleared). */
  class AirQualityScheduler {
    var isRunning: bool
    var jobs: map<string, Job>

    /** Only the two named jobs are ever registered, each under its own id;
        while running both are present, with their triggers. */
    ghost predicate Valid()
      reads this
    {
      && (forall id | id in jobs :: (id == ExtractionJobId || id == CleanupJobId) && jobs[id].id == id)
      && (isRunning ==>
            && ExtractionJobId in jobs && jobs[ExtractionJobId].trigger.Interval?
            && CleanupJobId in jobs && jobs[CleanupJobId].trigger == DailyAt(2, 0))
    }

    constructor()
      ensures Valid() && !isRunning && jobs == map[]
    {
      isRunning := false;
      jobs := map[];
    }

    /** `start_scheduler`: a no-op while running; otherwise register the
        30-minute extraction job (first run 10 s from now) and the daily
        02:00 UTC cleanup job, replacing any earlier registration. */
    method StartScheduler(now: Timestamp)
      requires Valid()
      modifies this
      ensures Valid()
      ensures old(isRunning) ==> isRunning && jobs == old(jobs)
      ensures !old(isRunning) ==>
        && isRunning
        && jobs == map[
             ExtractionJobId := Job(ExtractionJobId, ExtractionJobName, Interval(30), Some(now + 10)),
             CleanupJobId := Job(CleanupJobId, CleanupJobName, DailyAt(2, 0), Some(NextDailyRun(now, 2, 0)))]
    {
      if isRunning {
        return;
      }
      jobs := jobs[ExtractionJobId := Job(ExtractionJobId, ExtractionJobName, Interval(30), Some(now + 10))];
      jobs := jobs[CleanupJobId := Job(CleanupJobId, CleanupJobName, DailyAt(2, 0), Some(NextDailyRun(now, 2, 0)))];
      isRunning := true;
    }

    /** `stop_scheduler`: a no-op while stopped; otherwise shut down (waiting
        for running jobs) and clear the flag. */
    method StopScheduler()
      requires Valid()
      modifies this
      ensures Valid()
      ensures !isRunning && jobs == old(jobs)
    {
      if !isRunning {
        return;
      }
      isRunning := false;
    }

    /** `get_job_status`: "stopped" with no jobs, or "running" with one entry
        per registered job. (The listing order is the library's.) */
    method GetJobStatus() returns (status: string, entries: seq<JobInfo>)
      requires Valid()
      ensures !isRunning ==> status == "stopped" && entries == []
      ensures isRunning ==>
        && status == "running"
        && |entries| == |jobs.Keys|
        && IdsOf(entries) == jobs.Keys
        && (forall e | e in entries :: e.id in jobs && e == InfoOf(jobs[e.id]))
    {
      if !isRunning {
        return "stopped", [];
      }
      status := "running";
      entries := [];
      var pending := jobs.Keys;
      while pending != {}
        invariant pending <= jobs.Keys
        invariant IdsOf(entries) == jobs.Keys - pending
        invariant |entries| == |jobs.Keys - pending|
        invariant forall e | e in entries :: e.id in jobs && e == InfoOf(jobs[e.id])
        decreases |pending|
      {
        var id :| id in pending;
        var info := InfoOf(jobs[id]);
        ListingStep(entries, info, jobs.Keys, pending, id);
        entries := entries + [info];
        pending := pending - {id};
      }
    }

    /** `reschedule_extraction`: a no-op while stopped; otherwise replace the
        extraction job with one at the given interval, first run 10 s from
        now. The interval is not range-checked; the cleanup job is untouched. */
    method RescheduleExtraction(intervalMinutes: int, now: Timestamp)
      requires Valid()
      modifies this
      ensures Valid()
      ensures isRunning == old(isRunning)
      ensures !old(isRunning) ==> jobs == old(jobs)
      ensures old(isRunning) ==>
        && jobs.Keys == old(jobs.Keys)
        && jobs[ExtractionJobId] == Job(ExtractionJobId, ExtractionJobName, Interval(intervalMinutes), Some(now + 10))
        && jobs[CleanupJobId] == old(jobs[CleanupJobId])
    {
      if !isRunning {
        return;
      }
      jobs := jobs[ExtractionJobId := Job(ExtractionJobId, ExtractionJobName, Interval(intervalMinutes), Some(now + 10))];
    }
  }

  /** Starting a stopped scheduler and then stopping it leaves the two jobs
      registered and the scheduler stopped; starting it again re-registers. */
  method StartStopStart(s: AirQualityScheduler, t0: Timestamp, t1: Timestamp)
    requires s.Valid() && !s.isRunning
    modifies s
    ensures s.Valid() && s.isRunning
    ensures s.jobs.Keys == {ExtractionJobId, CleanupJobId}
    ensures s.jobs[ExtractionJobId].nextRunTime == Some(t1 + 10)
  {
    s.StartScheduler(t0);
    s.StopScheduler();
    assert s.jobs.Keys == {ExtractionJobId, CleanupJobId};
    s.StartScheduler(t1);
  }

  // ---------------------------------------------------------------------------
  // cleanup_old_data

  /** Seven days, in seconds. */
  const RetentionSeconds: int := 7 * SecondsPerDay

  /** A file in the snapshot directory: its modification time, and whether
      reading its status and removing it succeed. */
  datatype FileEntry = FileEntry(mtime: Timestamp, removable: bool)

  /** `glob("*.json")`: names ending in ".json". */
  predicate IsJsonName(name: string) {
    |name| >= 5 && name[|name| - 5..] == ".json"
  }

  /** The sweep's age test as written (lines 88, 95, 97): the cut-off is
      `utcnow() - 7 days`, but the file time comes from `fromtimestamp`,
      which is local time; `utcOffset` is the host's local offset from UTC
      in seconds. */
  predicate ExpiredAsWritten(mtime: Timestamp, utcOffset: int, now: Timestamp) {
    mtime + utcOffset < now - RetentionSeconds
  }

  /** On a host five hours behind UTC, a file modified one hour less than
      seven days ago already counts as expired. */
  lemma LocalTimeComparisonExpiresYoungFile(now: Timestamp)
    ensures var mtime := now - RetentionSeconds + 3600;
      now - mtime < RetentionSeconds && ExpiredAsWritten(mtime, -5 * 3600, now)
  {
  }

  /** The age test as intended: modified strictly more than seven days before `now`. */
  predicate Expired(mtime: Timestamp, now: Timestamp) {
    mtime < now - RetentionSeconds
  }

  /** The intended test is the written one on a host whose local time is UTC,
      and exactly the files older than seven days fail it. */
  lemma ExpiredIsAsWrittenAtUtc(mtime: Timestamp, now: Timestamp)
    ensures Expired(mtime, now) == ExpiredAsWritten(mtime, 0, now)
    ensures Expired(mtime, now) <==> now - mtime > RetentionSeconds
  {
  }

  /** The sweep's test for one file (lines 91-99): a `*.json` name, older
      than the cut-off by the written comparison, and removable. */
  predicate Deletable(name: string, f: FileEntry, utcOffset: int, now: Timestamp) {
    IsJsonName(name) && ExpiredAsWritten(f.mtime, utcOffset, now) && f.removable
  }

  /** The files of `names` that the sweep deletes. */
  function DeletedAmong(files: map<string, FileEntry>, names: set<string>, utcOffset: int, now: Timestamp): set<string> {
    set n | n in names && n in files && Deletable(n, files[n], utcOffset, now)
  }

  /** `cleanup_old_data` as written, on a host `utcOffset` seconds ahead of
      UTC: a missing directory deletes nothing; otherwise every `*.json` file
      whose local modification time is before the UTC cut-off is deleted and
      counted, and a file whose removal fails is kept and the sweep goes on. */
  method CleanupOldData(dir: Option<map<string, FileEntry>>, utcOffset: int, now: Timestamp)
    returns (after: Option<map<string, FileEntry>>, cleaned: nat)
    ensures dir.None? ==> after.None? && cleaned == 0
    ensures dir.Some? ==>
      && after == Some(dir.value - DeletedAmong(dir.value, dir.value.Keys, utcOffset, now))
      && cleaned == |DeletedAmong(dir.value, dir.value.Keys, utcOffset, now)|
  {
    if dir.None? {
      return None, 0;
    }
    var files := dir.value;
    var remaining := files;
    var pending := files.Keys;
    cleaned := 0;
    while pending != {}
      invariant pending <= files.Keys
      invariant remaining == files - DeletedAmong(files, files.Keys - pending, utcOffset, now)
      invariant cleaned == |DeletedAmong(files, files.Keys - pending, utcOffset, now)|
      decreases |pending|
    {
      var name :| name in pending;
      var done := files.Keys - pending;
      assert files.Keys - (pending - {name}) == done + {name};
      if IsJsonName(name) && files[name].mtime + utcOffset < now - RetentionSeconds && files[name].removable {
        assert DeletedAmong(files, done + {name}, utcOffset, now) == DeletedAmong(files, done, utcOffset, now) + {name};
        remaining := remaining - {name};
        cleaned := cleaned + 1;
      } else {
        assert DeletedAmong(files, done + {name}, utcOffset, now) == DeletedAmong(files, done, utcOffset, now);
      }
      pending := pending - {name};
    }
    assert files.Keys - pending == files.Keys;
    after := Some(remaining);
  }

  /** After the sweep, no file the sweep would delete is left, and every
      other file is left as it was. */
  lemma CleanupLeavesNoExpiredFile(files: map<string, FileEntry>, utcOffset: int, now: Timestamp)
    ensures var after := files - DeletedAmong(files, files.Keys, utcOffset, now);
      && (forall n | n in after :: !Deletable(n, after[n], utcOffset, now))
      && (forall n | n in files && !Deletable(n, files[n], utcOffset, now) :: n in after && after[n] == files[n])
  {
  }

  /** On a host whose local time is UTC the sweep deletes exactly the
      removable `*.json` files modified more than seven days before `now`. */
  lemma CleanupAtUtcDeletesOldFiles(files: map<string, FileEntry>, now: Timestamp)
    ensures forall n :: n in DeletedAmong(files, files.Keys, 0, now) <==>
      (n in files && IsJsonName(n) && now - files[n].mtime > RetentionSeconds && files[n].removable)
  {
    forall n | n in files
      ensures Expired(files[n].mtime, now) == ExpiredAsWritten(files[n].mtime, 0, now)
      ensures Expired(files[n].mtime, now) <==> now - files[n].mtime > RetentionSeconds
    {
      ExpiredIsAsWrittenAtUtc(files[n].mtime, now);
    }
  }

  /** Behind UTC, the sweep deletes a file younger than seven days. */
  lemma CleanupBehindUtcDeletesYoungFile(now: Timestamp)
    ensures var files := map["old.json" := FileEntry(now - RetentionSeconds + 3600, true)];
      && now - files["old.json"].mtime < RetentionSeconds
      && DeletedAmong(files, files.Keys, -5 * 3600, now) == {"old.json"}
  {
    var files := map["old.json" := FileEntry(now - RetentionSeconds + 3600, true)];
    assert IsJsonName("old.json") by {
      assert "old.json"[|"old.json"| - 5..] == ".json";
    }
    assert Deletable("old.json", files["old.json"], -5 * 3600, now);
  }

  // ---------------------------------------------------------------------------
  // extract_air_quality_data

  /** Lines 64-73: after the snapshots are written the next extraction is
      set 30 minutes ahead; an exception instead becomes the last error. */
  method FinishJob(status: ExtractionStatus, jobFailure: Option<string>, now: Timestamp)
    requires status.Valid()
    modifies status
    ensures status.Valid()
    ensures status.View() == if jobFailure.Some? then old(status.View()).(lastError := jobFailure)
                             else old(status.View()).(nextExtraction := Some(now + 1800))
  {
    if jobFailure.Some? {
      status.lastError := jobFailure;
    } else {
      status.nextExtraction := Some(now + 1800);
    }
  }

  /** The status after one scheduled job: the extraction's status, then
      either the job's exception as the last error or the next extraction
      30 minutes from now. */
  function AfterJob(v: StatusView, airnow: seq<Measurement>, openaq: seq<Measurement>, mock: seq<Measurement>,
                    mockFailure: Option<string>, jobFailure: Option<string>, now: Timestamp): StatusView
  {
    var extracted := AfterExtraction(v, airnow, openaq, mock, mockFailure, now);
    if jobFailure.Some? then extracted.(lastError := jobFailure)
    else extracted.(nextExtraction := Some(now + 1800))
  }

  /** A job counts one run, keeps the counters consistent, and either
      schedules the next extraction or records its own exception, which then
      hides the extraction's error. */
  lemma AfterJobProperties(v: StatusView, airnow: seq<Measurement>, openaq: seq<Measurement>, mock: seq<Measurement>,
                           mockFailure: Option<string>, jobFailure: Option<string>, now: Timestamp)
    ensures var r := AfterJob(v, airnow, openaq, mock, mockFailure, jobFailure, now);
      var e := AfterExtraction(v, airnow, openaq, mock, mockFailure, now);
      && r.total == v.total + 1
      && (ViewValid(v) ==> ViewValid(r))
      && r.successful == e.successful && r.failed == e.failed
      && r.lastExtraction == e.lastExtraction && r.activeSources == e.activeSources
      && (jobFailure.None? ==> r.nextExtraction == Some(now + 1800) && r.lastError == e.lastError)
      && (jobFailure.Some? ==> r.nextExtraction == v.nextExtraction && r.lastError == jobFailure)
  {
    AfterExtractionProperties(v, airnow, openaq, mock, mockFailure, now);
  }

  /** `extract_air_quality_data` as written: run an extraction and plan its
      snapshots through the shared client inside `async with`, whose exit
      closes that client's HTTP connection pool. `jobFailure` is an
      exception raised after the extraction (while the snapshots are
      written); it is stored in `last_error` and not propagated. On success
      the next extraction is set to 30 minutes from now, whatever interval
      the job was scheduled with. */
  method ExtractAirQualityData(
    client: AirQualityApiClient,
    airnowResponses: seq<AirNowResponse>,
    openaqRuns: seq<seq<ParamResponse>>,
    mockDraws: seq<MockDataGenerator.MockDraw>,
    mockFailure: Option<string>,
    jobFailure: Option<string>,
    now: Timestamp,
    snapshotTime: string)
    returns (airnow: seq<Measurement>, openaq: seq<Measurement>, mock: seq<Measurement>, files: seq<SnapshotFile>)
    requires client.status.Valid()
    requires |airnowResponses| == 4 && |openaqRuns| == 11 && WellShapedRuns(openaqRuns)
    requires |mockDraws| == 50 && MockDataGenerator.ValidDraws(mockDraws)
    modifies client, client.status
    ensures airnow == (if client.airnowKey != "" && !old(client.httpClosed) then AirNowCombined(airnowResponses) else [])
    ensures openaq == (if client.openaqKey != "" && !old(client.httpClosed) then Dedup(OpenAQCombined(openaqRuns)) else [])
    ensures mock == (if airnow == [] && openaq == [] && mockFailure.None? then MockDataGenerator.Generated(mockDraws) else [])
    ensures files == SaveDataToJson(airnow, openaq, mock, snapshotTime)
    ensures client.status.Valid()
    ensures client.status.View()
      == AfterJob(old(client.status.View()), airnow, openaq, mock, mockFailure, jobFailure, now)
    ensures client.httpClosed
  {
    airnow, openaq, mock := client.ExtractAllData(airnowResponses, openaqRuns, mockDraws, mockFailure, now);
    files := SaveDataToJson(airnow, openaq, mock, snapshotTime);
    FinishJob(client.status, jobFailure, now);
    client.Close();
  }

  /** As written, the second scheduled run goes through a closed client: it
      gets no AirNow and no OpenAQ data whatever the providers answer, and
      falls back to mock data. */
  method SecondScheduledRunAsWritten(
    client: AirQualityApiClient,
    airnowResponses: seq<AirNowResponse>,
    openaqRuns: seq<seq<ParamResponse>>,
    mockDraws: seq<MockDataGenerator.MockDraw>,
    now: Timestamp)
    returns (airnow: seq<Measurement>, openaq: seq<Measurement>, mock: seq<Measurement>)
    requires client.status.Valid()
    requires |airnowResponses| == 4 && |openaqRuns| == 11 && WellShapedRuns(openaqRuns)
    requires |mockDraws| == 50 && MockDataGenerator.ValidDraws(mockDraws)
    modifies client, client.status
    ensures airnow == [] && openaq == []
    ensures mock == MockDataGenerator.Generated(mockDraws)
  {
    var _, _, _, _ := ExtractAirQualityData(client, airnowResponses, openaqRuns, mockDraws, None, None, now, "");
    airnow, openaq, mock := client.ExtractAllData(airnowResponses, openaqRuns, mockDraws, None, now + 1800);
  }

  /** The job as evidently intended: the same steps, without closing the
      shared client. */
  method ExtractAirQualityDataKeepingClient(
    client: AirQualityApiClient,
    airnowResponses: seq<AirNowResponse>,
    openaqRuns: seq<seq<ParamResponse>>,
    mockDraws: seq<MockDataGenerator.MockDraw>,
    mockFailure: Option<string>,
    jobFailure: Option<string>,
    now: Timestamp,
    snapshotTime: string)
    returns (airnow: seq<Measurement>, openaq: seq<Measurement>, mock: seq<Measurement>, files: seq<SnapshotFile>)
    requires client.status.Valid()
    requires |airnowResponses| == 4 && |openaqRuns| == 11 && WellShapedRuns(openaqRuns)
    requires |mockDraws| == 50 && MockDataGenerator.ValidDraws(mockDraws)
    modifies client.status
    ensures airnow == (if client.airnowKey != "" && !client.httpClosed then AirNowCombined(airnowResponses) else [])
    ensures openaq == (if client.openaqKey != "" && !client.httpClosed then Dedup(OpenAQCombined(openaqRuns)) else [])
    ensures mock == (if airnow == [] && openaq == [] && mockFailure.None? then MockDataGenerator.Generated(mockDraws) else [])
    ensures files == SaveDataToJson(airnow, openaq, mock, snapshotTime)
    ensures client.status.Valid()
    ensures client.status.View()
      == AfterJob(old(client.status.View()), airnow, openaq, mock, mockFailure, jobFailure, now)
  {
    airnow, openaq, mock := client.ExtractAllData(airnowResponses, openaqRuns, mockDraws, mockFailure, now);
    files := SaveDataToJson(airnow, openaq, mock, snapshotTime);
    FinishJob(client.status, jobFailure, now);
  }

  /** With the client kept open, every scheduled run sees what the
      providers answer. */
  method SecondScheduledRun(
    client: AirQualityApiClient,
    airnowResponses: seq<AirNowResponse>,
    openaqRuns: seq<seq<ParamResponse>>,
    mockDraws: seq<MockDataGenerator.MockDraw>,
    now: Timestamp)
    returns (airnow: seq<Measurement>, openaq: seq<Measurement>, mock: seq<Measurement>)
    requires client.status.Valid() && !client.httpClosed
    requires |airnowResponses| == 4 && |openaqRuns| == 11 && WellShapedRuns(openaqRuns)
    requires |mockDraws| == 50 && MockDataGenerator.ValidDraws(mockDraws)
    modifies client.status
    ensures airnow == (if client.airnowKey != "" then AirNowCombined(airnowResponses) else [])
    ensures openaq == (if client.openaqKey != "" then Dedup(OpenAQCombined(openaqRuns)) else [])
  {
    var _, _, _, _ := ExtractAirQualityDataKeepingClient(client, airnowResponses, openaqRuns, mockDraws, None, None, now, "");
    airnow, openaq, mock := client.ExtractAllData(airnowResponses, openaqRuns, mockDraws, None, now + 1800);
  }
}
