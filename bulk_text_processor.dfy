/**
 * Bulk processing of a long Russian text: extracting the candidate words,
 * the job records, and the processor's two job tables (active and finished)
 * with status reports, per-user listings and clean-up of old jobs.
 *
 * Job identifiers and clock readings are parameters; the asynchronous
 * per-word worker is not part of this model (only its final bookkeeping,
 * moving a job to the finished table, is).
 */
module BulkJobs {
  import opened Text
  import opened IntSort
  import R = RussianWords

  // ---------------------------------------------------------------------
  // re.findall(r'[а-яё]+[а-яёъь-]*[а-яё]|[а-яё]', s)
  // ---------------------------------------------------------------------

  /** The middle class [а-яёъь-]: ъ and ь already lie in а-я. */
  predicate WordChar(c: char) {
    R.RussianLetter(c) || c == '-'
  }

  /** The end of the run of letters and hyphens starting at j. */
  function WordRunEnd(s: string, j: nat): (e: nat)
    requires j <= |s|
    ensures j <= e <= |s|
    ensures forall k :: j <= k < e ==> WordChar(s[k])
    decreases |s| - j
  {
    if j < |s| && WordChar(s[j]) then WordRunEnd(s, j + 1) else j
  }

  /** Backtracking to the last letter before e: the match ends just after it. */
  function LastLetterEnd(s: string, i: nat, e: nat): (r: nat)
    requires i < e <= |s| && R.RussianLetter(s[i])
    ensures i < r <= e && R.RussianLetter(s[r - 1])
    ensures forall k :: r <= k < e ==> !R.RussianLetter(s[k])
    decreases e
  {
    if R.RussianLetter(s[e - 1]) then e else LastLetterEnd(s, i, e - 1)
  }

  function FindBulk(s: string, i: nat): seq<string>
    requires i <= |s|
    decreases |s| - i
  {
    if i == |s| then []
    else if R.RussianLetter(s[i]) then
      var k := LastLetterEnd(s, i, WordRunEnd(s, i));
      [s[i..k]] + FindBulk(s, k)
    else FindBulk(s, i + 1)
  }

  /** A match: starts and ends with a letter, letters and hyphens in between. */
  predicate BulkWord(w: string) {
    w != [] && R.RussianLetter(w[0]) && R.RussianLetter(w[|w| - 1])
    && forall k :: 0 <= k < |w| ==> WordChar(w[k])
  }

  lemma {:induction false} FindBulkWords(s: string, i: nat)
    requires i <= |s|
    ensures forall k :: 0 <= k < |FindBulk(s, i)| ==> BulkWord(FindBulk(s, i)[k])
    decreases |s| - i
  {
    if i < |s| {
      if R.RussianLetter(s[i]) {
        var e := WordRunEnd(s, i);
        var k := LastLetterEnd(s, i, e);
        assert BulkWord(s[i..k]);
        FindBulkWords(s, k);
      } else {
        FindBulkWords(s, i + 1);
      }
    }
  }

  lemma {:induction false} FindBulkNone(s: string, i: nat)
    requires i <= |s| && forall k :: 0 <= k < |s| ==> !R.RussianLetter(s[k])
    ensures FindBulk(s, i) == []
    decreases |s| - i
  {
    if i < |s| {
      FindBulkNone(s, i + 1);
    }
  }

  /** The words a bulk job processes. */
  function BulkWords(text: string): seq<string> {
    R.Dedup(R.LongWords(FindBulk(Lower(text), 0)))
  }

  /** Distinct words of at least three characters, each a match, in first-occurrence order. */
  lemma BulkWordsProperties(text: string)
    ensures var r := BulkWords(text);
      var matches := FindBulk(Lower(text), 0);
      && R.DistinctWords(r)
      && (forall w :: w in r <==> w in matches && |w| >= 3)
      && (forall k :: 0 <= k < |r| ==> |r[k]| >= 3 && BulkWord(r[k]))
      && (forall a, b :: 0 <= a < b < |r| ==> R.IndexOf(R.LongWords(matches), r[a]) < R.IndexOf(R.LongWords(matches), r[b]))
  {
    var matches := FindBulk(Lower(text), 0);
    FindBulkWords(Lower(text), 0);
    R.DedupProperties(R.LongWords(matches));
    var r := BulkWords(text);
    forall k | 0 <= k < |r| ensures |r[k]| >= 3 && BulkWord(r[k]) {
      assert r[k] in r;
      var j :| 0 <= j < |matches| && matches[j] == r[k];
    }
  }

  lemma NoRussianNoBulkWords(text: string)
    requires forall k :: 0 <= k < |text| ==> !R.RussianLetter(LowerChar(text[k]))
    ensures BulkWords(text) == []
  {
    FindBulkNone(Lower(text), 0);
  }

  /** One scan: a word is kept when it is long enough and not yet seen. */
  method ExtractRussianWords(text: string) returns (filteredWords: seq<string>)
    ensures filteredWords == BulkWords(text)
  {
    var russianWords := FindBulk(Lower(text), 0);
    filteredWords := [];
    var seenWords: set<string> := {};
    for i := 0 to |russianWords|
      invariant filteredWords == R.Dedup(R.LongWords(russianWords[..i]))
      invariant forall w :: w in seenWords <==> w in filteredWords
    {
      var word := russianWords[i];
      R.DedupLongStep(russianWords, i);
      if |word| >= 3 && word !in seenWords {
        filteredWords := filteredWords + [word];
        seenWords := seenWords + {word};
      }
    }
    assert russianWords[..|russianWords|] == russianWords;
  }

  // ---------------------------------------------------------------------
  // Jobs
  // ---------------------------------------------------------------------

  datatype JobStatus = Pending | Processing | Completed | Failed

  datatype FailedWord = FailedWord(word: string, error: string)

  /** One bulk job; times are whole seconds. */
  datatype Job = Job(
    jobId: string,
    text: string,
    userId: int,
    totalWords: nat,
    processedWords: nat,
    generatedFlashcards: nat,
    status: JobStatus,
    errorMessage: Option<string>,
    createdAt: int,
    completedAt: Option<int>,
    failedWords: seq<FailedWord>,
    processedWordTypes: map<string, nat>)

  /** A fresh job: pending, nothing processed, no error, not finished. */
  function NewJob(jobId: string, text: string, userId: int, totalWords: nat, now: int): Job {
    Job(jobId, text, userId, totalWords, 0, 0, Pending, None, now, None, [], map[])
  }

  /** The status dictionary of one job; progress is a percentage, unrounded. */
  datatype JobReport = JobReport(
    jobId: string,
    status: JobStatus,
    progressPercentage: real,
    processedWords: nat,
    totalWords: nat,
    generatedFlashcards: nat,
    failedWordsCount: nat,
    processedWordTypes: map<string, nat>,
    createdAt: int,
    completedAt: Option<int>,
    errorMessage: Option<string>)

  function Progress(processed: nat, total: nat): real {
    if total > 0 then (processed as real / total as real) * 100.0 else 0.0
  }

  function Report(job: Job): JobReport {
    JobReport(job.jobId, job.status, Progress(job.processedWords, job.totalWords),
      job.processedWords, job.totalWords, job.generatedFlashcards, |job.failedWords|,
      job.processedWordTypes, job.createdAt, job.completedAt, job.errorMessage)
  }

  /** Progress is 0 with no words, and a percentage in [0, 100] while processed <= total. */
  lemma ProgressBounds(processed: nat, total: nat)
    ensures total == 0 ==> Progress(processed, total) == 0.0
    ensures processed <= total ==> 0.0 <= Progress(processed, total) <= 100.0
    ensures 0 < total == processed ==> Progress(processed, total) == 100.0
  {
    if total > 0 {
      var q := processed as real / total as real;
      assert q * total as real == processed as real;
      if processed <= total {
        assert (1.0 - q) * total as real == total as real - processed as real;
      }
    }
  }

  // ---------------------------------------------------------------------
  // Job tables: insertion-ordered dictionaries keyed by job id
  // ---------------------------------------------------------------------

  function Ids(jobs: seq<Job>): set<string> {
    set j | j in jobs :: j.jobId
  }

  predicate DistinctIds(jobs: seq<Job>) {
    forall a, b :: 0 <= a < b < |jobs| ==> jobs[a].jobId != jobs[b].jobId
  }

  /** dict.get(job_id) */
  function Find(jobs: seq<Job>, id: string): (r: Option<Job>)
    ensures r.Some? <==> id in Ids(jobs)
    ensures r.Some? ==> r.value in jobs && r.value.jobId == id
  {
    if jobs == [] then None
    else if jobs[0].jobId == id then Some(jobs[0])
    else
      assert Ids(jobs) == {jobs[0].jobId} + Ids(jobs[1..]) by {
        assert jobs == [jobs[0]] + jobs[1..];
      }
      Find(jobs[1..], id)
  }

  lemma {:induction false} FindDistinct(jobs: seq<Job>, k: nat)
    requires DistinctIds(jobs) && k < |jobs|
    ensures Find(jobs, jobs[k].jobId) == Some(jobs[k])
  {
    if k > 0 {
      assert jobs[1..][k - 1] == jobs[k];
      FindDistinct(jobs[1..], k - 1);
    }
  }

  /** del jobs[id] */
  function Remove(jobs: seq<Job>, id: string): (r: seq<Job>)
    ensures forall j :: j in r <==> j in jobs && j.jobId != id
    ensures DistinctIds(jobs) ==> DistinctIds(r)
  {
    if jobs == [] then []
    else
      assert jobs == [jobs[0]] + jobs[1..];
      var rest := Remove(jobs[1..], id);
      if jobs[0].jobId == id then rest else [jobs[0]] + rest
  }

  /** Reports of the given user's jobs, in table order. */
  function UserReports(jobs: seq<Job>, userId: int): (r: seq<JobReport>)
    ensures forall x :: x in r <==> exists j :: j in jobs && j.userId == userId && x == Report(j)
  {
    if jobs == [] then []
    else
      var last := jobs[|jobs| - 1];
      assert jobs == jobs[..|jobs| - 1] + [last];
      UserReports(jobs[..|jobs| - 1], userId) + (if last.userId == userId then [Report(last)] else [])
  }

  /** list.sort(key=created_at, reverse=True): newest first, ties keep their order. */
  function NewestFirst(reports: seq<JobReport>): (r: seq<JobReport>)
    ensures |r| == |reports|
    ensures forall x :: x in r <==> x in reports
    ensures forall a, b :: 0 <= a < b < |r| ==> r[a].createdAt >= r[b].createdAt
  {
    var keys := seq(|reports|, k requires 0 <= k < |reports| => reports[k].createdAt);
    var order := StableOrder(keys, |reports|);
    var r := seq(|order|, k requires 0 <= k < |order| => reports[order[k]]);
    assert forall x :: x in reports ==> x in r by {
      forall x | x in reports ensures x in r {
        var i :| 0 <= i < |reports| && reports[i] == x;
        assert i in order;
        var k :| 0 <= k < |order| && order[k] == i;
        assert r[k] == x;
      }
    }
    assert forall a, b :: 0 <= a < b < |r| ==> r[a].createdAt >= r[b].createdAt by {
      forall a, b | 0 <= a < b < |r| ensures r[a].createdAt >= r[b].createdAt {
        assert Precedes(keys, order[a], order[b]);
      }
    }
    r
  }

  /** The cut-off time, in seconds: maxAgeHours hours before now. */
  function Cutoff(now: int, maxAgeHours: int): int {
    now - maxAgeHours * 3600
  }

  /** A finished job is stale when it finished before the cut-off. */
  predicate Stale(job: Job, cutoff: int) {
    job.completedAt.Some? && job.completedAt.value < cutoff
  }

  function StaleIds(jobs: seq<Job>, cutoff: int): (r: seq<string>)
    ensures forall id :: id in r <==> exists j :: j in jobs && Stale(j, cutoff) && j.jobId == id
  {
    if jobs == [] then []
    else
      var last := jobs[|jobs| - 1];
      assert jobs == jobs[..|jobs| - 1] + [last];
      StaleIds(jobs[..|jobs| - 1], cutoff) + (if Stale(last, cutoff) then [last.jobId] else [])
  }

  /** The jobs that are kept: table order preserved, stale ones gone. */
  function KeepRecent(jobs: seq<Job>, cutoff: int): (r: seq<Job>)
    ensures forall j :: j in r <==> j in jobs && !Stale(j, cutoff)
  {
    if jobs == [] then []
    else
      assert jobs == [jobs[0]] + jobs[1..];
      (if Stale(jobs[0], cutoff) then [] else [jobs[0]]) + KeepRecent(jobs[1..], cutoff)
  }

  /** Removing ids one by one from a table. */
  function RemoveAll(jobs: seq<Job>, ids: seq<string>): seq<Job>
    decreases |ids|
  {
    if ids == [] then jobs else RemoveAll(Remove(jobs, ids[0]), ids[1..])
  }

  lemma {:induction false} RemoveAllMembers(jobs: seq<Job>, ids: seq<string>)
    ensures forall j :: j in RemoveAll(jobs, ids) <==> j in jobs && j.jobId !in ids
    decreases |ids|
  {
    if ids != [] {
      RemoveAllMembers(Remove(jobs, ids[0]), ids[1..]);
      assert ids == [ids[0]] + ids[1..];
    }
  }

  lemma {:induction false} RemoveAllDistinct(jobs: seq<Job>, ids: seq<string>)
    requires DistinctIds(jobs)
    ensures DistinctIds(RemoveAll(jobs, ids))
    decreases |ids|
  {
    if ids != [] {
      RemoveAllDistinct(Remove(jobs, ids[0]), ids[1..]);
    }
  }

  /** The jobs whose id is not listed, in table order. */
  function Without(jobs: seq<Job>, ids: seq<string>): seq<Job> {
    if jobs == [] then []
    else (if jobs[0].jobId in ids then [] else [jobs[0]]) + Without(jobs[1..], ids)
  }

  lemma {:induction false} WithoutNone(jobs: seq<Job>)
    ensures Without(jobs, []) == jobs
  {
    if jobs != [] {
      WithoutNone(jobs[1..]);
      assert jobs == [jobs[0]] + jobs[1..];
    }
  }

  /** Deleting one id, then filtering out the rest, is filtering out all of them. */
  lemma {:induction false} WithoutRemove(jobs: seq<Job>, id: string, rest: seq<string>)
    ensures Without(Remove(jobs, id), rest) == Without(jobs, [id] + rest)
  {
    if jobs != [] {
      WithoutRemove(jobs[1..], id, rest);
      var r := Remove(jobs[1..], id);
      if jobs[0].jobId != id {
        assert ([jobs[0]] + r)[0] == jobs[0] && ([jobs[0]] + r)[1..] == r;
      }
    }
  }

  /** Deleting the ids one after another keeps the other jobs in table order. */
  lemma {:induction false} RemoveAllIsWithout(jobs: seq<Job>, ids: seq<string>)
    ensures RemoveAll(jobs, ids) == Without(jobs, ids)
    decreases |ids|
  {
    if ids == [] {
      WithoutNone(jobs);
    } else {
      RemoveAllIsWithout(Remove(jobs, ids[0]), ids[1..]);
      WithoutRemove(jobs, ids[0], ids[1..]);
      assert [ids[0]] + ids[1..] == ids;
    }
  }

  /** Filtering by the listed ids is KeepRecent when exactly the stale jobs are listed. */
  lemma {:induction false} WithoutAgrees(jobs: seq<Job>, ids: seq<string>, cutoff: int)
    requires forall j :: j in jobs ==> (j.jobId in ids <==> Stale(j, cutoff))
    ensures Without(jobs, ids) == KeepRecent(jobs, cutoff)
  {
    if jobs != [] {
      assert jobs[0] in jobs;
      assert forall j :: j in jobs[1..] ==> j in jobs;
      WithoutAgrees(jobs[1..], ids, cutoff);
    }
  }

  /** In a table with distinct ids, deleting the stale ids one by one leaves exactly KeepRecent, in table order. */
  lemma {:induction false} RemoveStaleIsKeepRecent(jobs: seq<Job>, cutoff: int)
    requires DistinctIds(jobs)
    ensures RemoveAll(jobs, StaleIds(jobs, cutoff)) == KeepRecent(jobs, cutoff)
  {
    var ids := StaleIds(jobs, cutoff);
    forall j | j in jobs
      ensures j.jobId in ids <==> Stale(j, cutoff)
    {
      if j.jobId in ids {
        var j' :| j' in jobs && Stale(j', cutoff) && j'.jobId == j.jobId;
        var a :| 0 <= a < |jobs| && jobs[a] == j;
        var b :| 0 <= b < |jobs| && jobs[b] == j';
        assert a == b;
      }
    }
    WithoutAgrees(jobs, ids, cutoff);
    RemoveAllIsWithout(jobs, ids);
  }

  class BulkTextProcessor {
    var activeJobs: seq<Job>
    var completedJobs: seq<Job>

    /** Each table is a dictionary, and a job lives in one table at a time. */
    predicate Valid()
      reads this
    {
      DistinctIds(activeJobs) && DistinctIds(completedJobs) && Ids(activeJobs) !! Ids(completedJobs)
    }

    constructor()
      ensures Valid() && activeJobs == [] && completedJobs == []
    {
      activeJobs := [];
      completedJobs := [];
    }

    /** The active table is consulted first, then the finished one; None when neither has the id. */
    function GetJobStatus(jobId: string): (r: Option<JobReport>)
      reads this
      ensures r.None? <==> jobId !in Ids(activeJobs) && jobId !in Ids(completedJobs)
      ensures r.Some? ==> r.value.jobId == jobId
      ensures r.Some? && r.value.totalWords == 0 ==> r.value.progressPercentage == 0.0
    {
      match Find(activeJobs, jobId)
      case Some(job) => Some(Report(job))
      case None =>
        match Find(completedJobs, jobId)
        case Some(job) => Some(Report(job))
        case None => None
    }

    /** Every job in either table reports itself. */
    lemma StatusOfListedJob(job: Job)
      requires Valid() && (job in activeJobs || job in completedJobs)
      ensures GetJobStatus(job.jobId) == Some(Report(job))
    {
      if job in activeJobs {
        var k :| 0 <= k < |activeJobs| && activeJobs[k] == job;
        FindDistinct(activeJobs, k);
      } else {
        var k :| 0 <= k < |completedJobs| && completedJobs[k] == job;
        FindDistinct(completedJobs, k);
        assert job.jobId in Ids(completedJobs);
      }
    }

    /** Registers a pending job over the extracted words; jobId stands for a fresh uuid4. */
    method StartBulkProcessing(text: string, userId: int, jobId: string, now: int) returns (id: string)
      requires Valid()
      requires jobId !in Ids(activeJobs) && jobId !in Ids(completedJobs)
      modifies this
      ensures Valid() && id == jobId
      ensures activeJobs == old(activeJobs) + [NewJob(jobId, text, userId, |BulkWords(text)|, now)]
      ensures completedJobs == old(completedJobs)
      ensures GetJobStatus(id) == Some(Report(NewJob(jobId, text, userId, |BulkWords(text)|, now)))
    {
      var russianWords := ExtractRussianWords(text);
      var job := NewJob(jobId, text, userId, |russianWords|, now);
      activeJobs := activeJobs + [job];
      assert Ids(activeJobs) == Ids(old(activeJobs)) + {jobId};
      StatusOfListedJob(job);
      id := jobId;
    }

    /** The worker's last step on success: the job finishes and moves to the finished table. */
    method CompleteJob(jobId: string, totalFlashcards: nat, now: int)
      requires Valid() && jobId in Ids(activeJobs)
      modifies this
      ensures Valid()
      ensures var job := Find(old(activeJobs), jobId).value;
        && activeJobs == Remove(old(activeJobs), jobId)
        && completedJobs == old(completedJobs) + [job.(status := Completed, generatedFlashcards := totalFlashcards, completedAt := Some(now))]
      ensures jobId !in Ids(activeJobs) && jobId in Ids(completedJobs)
    {
      var job := Find(activeJobs, jobId).value;
      job := job.(status := Completed, generatedFlashcards := totalFlashcards, completedAt := Some(now));
      Finish(job);
    }

    /** The worker's last step on an error: the job fails and moves to the finished table. */
    method FailJob(jobId: string, error: string, now: int)
      requires Valid() && jobId in Ids(activeJobs)
      modifies this
      ensures Valid()
      ensures var job := Find(old(activeJobs), jobId).value;
        && activeJobs == Remove(old(activeJobs), jobId)
        && completedJobs == old(completedJobs) + [job.(status := Failed, errorMessage := Some(error), completedAt := Some(now))]
      ensures jobId !in Ids(activeJobs) && jobId in Ids(completedJobs)
    {
      var job := Find(activeJobs, jobId).value;
      job := job.(status := Failed, errorMessage := Some(error), completedAt := Some(now));
      Finish(job);
    }

    /** completed_jobs[id] = job; del active_jobs[id] */
    method Finish(job: Job)
      requires Valid() && job.jobId in Ids(activeJobs)
      modifies this
      ensures Valid()
      ensures activeJobs == Remove(old(activeJobs), job.jobId)
      ensures completedJobs == old(completedJobs) + [job]
      ensures job.jobId !in Ids(activeJobs) && job.jobId in Ids(completedJobs)
    {
      assert job.jobId !in Ids(completedJobs);
      completedJobs := completedJobs + [job];
      assert Ids(completedJobs) == Ids(old(completedJobs)) + {job.jobId};
      activeJobs := Remove(activeJobs, job.jobId);
      assert Ids(activeJobs) == Ids(old(activeJobs)) - {job.jobId};
    }

    /**
     * The reports of the user's active jobs, then of the user's finished
     * jobs, sorted newest first.
     */
    method GetUserJobs(userId: int) returns (userJobs: seq<JobReport>)
      requires Valid()
      ensures userJobs == NewestFirst(UserReports(activeJobs, userId) + UserReports(completedJobs, userId))
      ensures forall x :: x in userJobs <==>
        exists j :: (j in activeJobs || j in completedJobs) && j.userId == userId && x == Report(j)
      ensures forall a, b :: 0 <= a < b < |userJobs| ==> userJobs[a].createdAt >= userJobs[b].createdAt
    {
      userJobs := [];
      for i := 0 to |activeJobs|
        invariant userJobs == UserReports(activeJobs[..i], userId)
      {
        var job := activeJobs[i];
        assert activeJobs[..i + 1][..i] == activeJobs[..i];
        assert activeJobs[..i + 1][i] == job;
        if job.userId == userId {
          StatusOfListedJob(job);
          var status := GetJobStatus(job.jobId);
          if status.Some? {
            userJobs := userJobs + [status.value];
          }
        }
      }
      assert activeJobs[..|activeJobs|] == activeJobs;
      var fromActive := userJobs;
      userJobs := [];
      for i := 0 to |completedJobs|
        invariant userJobs == UserReports(completedJobs[..i], userId)
      {
        var job := completedJobs[i];
        assert completedJobs[..i + 1][..i] == completedJobs[..i];
        assert completedJobs[..i + 1][i] == job;
        if job.userId == userId {
          StatusOfListedJob(job);
          var status := GetJobStatus(job.jobId);
          if status.Some? {
            userJobs := userJobs + [status.value];
          }
        }
      }
      assert completedJobs[..|completedJobs|] == completedJobs;
      userJobs := NewestFirst(fromActive + userJobs);
    }

    /**
     * Removes the finished jobs that finished more than maxAgeHours hours
     * before now; the active table is untouched.
     */
    method CleanupOldJobs(maxAgeHours: int, now: int)
      requires Valid()
      modifies this
      ensures Valid()
      ensures activeJobs == old(activeJobs)
      ensures completedJobs == KeepRecent(old(completedJobs), Cutoff(now, maxAgeHours))
    {
      var cutoffTime := Cutoff(now, maxAgeHours);
      ghost var start := completedJobs;
      var jobsToRemove: seq<string> := [];
      for i := 0 to |completedJobs|
        invariant jobsToRemove == StaleIds(completedJobs[..i], cutoffTime)
      {
        var job := completedJobs[i];
        assert completedJobs[..i + 1][..i] == completedJobs[..i];
        assert completedJobs[..i + 1][i] == job;
        if job.completedAt.Some? && job.completedAt.value < cutoffTime {
          jobsToRemove := jobsToRemove + [job.jobId];
        }
      }
      assert completedJobs[..|completedJobs|] == completedJobs;
      assert jobsToRemove == StaleIds(start, cutoffTime);
      for i := 0 to |jobsToRemove|
        invariant completedJobs == RemoveAll(start, jobsToRemove[..i])
        invariant activeJobs == old(activeJobs)
      {
        RemoveAllSnoc(start, jobsToRemove, i);
        completedJobs := Remove(completedJobs, jobsToRemove[i]);
      }
      assert jobsToRemove[..|jobsToRemove|] == jobsToRemove;
      assert completedJobs == RemoveAll(start, jobsToRemove);
      CleanupResult(start, cutoffTime);
      assert completedJobs == KeepRecent(start, cutoffTime);
    }
  }

  /** What deleting the stale ids leaves: KeepRecent, still a table with distinct ids drawn from the old one. */
  lemma CleanupResult(jobs: seq<Job>, cutoff: int)
    requires DistinctIds(jobs)
    ensures var r := RemoveAll(jobs, StaleIds(jobs, cutoff));
      r == KeepRecent(jobs, cutoff) && DistinctIds(r) && Ids(r) <= Ids(jobs)
  {
    var ids := StaleIds(jobs, cutoff);
    RemoveStaleIsKeepRecent(jobs, cutoff);
    RemoveAllDistinct(jobs, ids);
    RemoveAllMembers(jobs, ids);
  }

  lemma {:induction false} RemoveAllSnoc(jobs: seq<Job>, ids: seq<string>, i: nat)
    requires i < |ids|
    ensures RemoveAll(jobs, ids[..i + 1]) == Remove(RemoveAll(jobs, ids[..i]), ids[i])
    decreases i
  {
    if i > 0 {
      assert ids[..i + 1][1..] == ids[1..][..i];
      assert ids[..i][1..] == ids[1..][..i - 1];
      RemoveAllSnoc(Remove(jobs, ids[0]), ids[1..], i - 1);
    }
  }
}
