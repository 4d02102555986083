/**
 * The job list (JobManager): jobs are appended in creation order; an update finds the first job
 * with the id and overwrites its status. There is no transition guard: any status may follow
 * any other, and there is no cancelled status.
 */
module Jobs {
  import opened Wrappers

  datatype JobStatus = Pending | Processing | Completed | Failed

  /** A job record; `data` holds the caller's extra fields (duration, languages, error, ...). */
  datatype Job = Job(
    id: Id,
    videoId: Option<Id>,
    status: JobStatus,
    createdAt: int,
    updatedAt: Option<int>,
    data: map<string, string>)

  /** The position of the first job with this id (Array.find). */
  function IndexOfJob(jobs: seq<Job>, jobId: Id): (r: Option<nat>)
    ensures r.Some? ==> r.value < |jobs| && jobs[r.value].id == jobId
    ensures r.Some? ==> forall k :: 0 <= k < r.value ==> jobs[k].id != jobId
    ensures r.None? <==> forall k :: 0 <= k < |jobs| ==> jobs[k].id != jobId
    decreases |jobs|
  {
    if |jobs| == 0 then None
    else if jobs[0].id == jobId then Some(0)
    else
      match IndexOfJob(jobs[1..], jobId)
      case None => None
      case Some(i) => Some(i + 1)
  }

  /** getJob: the first job with the id, or None when there is none. */
  function FindJob(jobs: seq<Job>, jobId: Id): (r: Option<Job>)
    ensures r.Some? ==> r.value in jobs && r.value.id == jobId
    ensures r.Some? ==> exists i :: 0 <= i < |jobs| && jobs[i] == r.value && forall k :: 0 <= k < i ==> jobs[k].id != jobId
    ensures r.None? <==> forall j :: j in jobs ==> j.id != jobId
  {
    match IndexOfJob(jobs, jobId)
    case None => None
    case Some(i) => Some(jobs[i])
  }

  /** The record createJob appends: pending, stamped with its creation time. */
  function NewJob(jobId: Id, videoId: Option<Id>, data: map<string, string>, now: int): Job {
    Job(jobId, videoId, Pending, now, None, data)
  }

  /**
   * The list after updateJobStatus: without a job of that id it is unchanged; otherwise the first
   * such job takes the new status and update time and has `data` merged over its own fields,
   * and every other job is untouched.
   */
  function AfterUpdate(jobs: seq<Job>, jobId: Id, status: JobStatus, data: map<string, string>, now: int): (r: seq<Job>)
    ensures |r| == |jobs|
    ensures IndexOfJob(jobs, jobId).None? ==> r == jobs
    ensures IndexOfJob(jobs, jobId).Some? ==>
      var i := IndexOfJob(jobs, jobId).value;
      && r[i] == jobs[i].(status := status, updatedAt := Some(now), data := jobs[i].data + data)
      && forall k :: 0 <= k < |jobs| && k != i ==> r[k] == jobs[k]
  {
    match IndexOfJob(jobs, jobId)
    case None => jobs
    case Some(i) => jobs[i := jobs[i].(status := status, updatedAt := Some(now), data := jobs[i].data + data)]
  }

  /** Appending a job does not change which job an existing id finds; a new id finds the new job. */
  lemma {:induction false} IndexOfJobAppend(jobs: seq<Job>, j: Job, jobId: Id)
    ensures IndexOfJob(jobs, jobId).Some? ==> IndexOfJob(jobs + [j], jobId) == IndexOfJob(jobs, jobId)
    ensures IndexOfJob(jobs, jobId).None? && j.id == jobId ==> IndexOfJob(jobs + [j], jobId) == Some(|jobs|)
    decreases |jobs|
  {
    if |jobs| > 0 {
      assert (jobs + [j])[1..] == jobs[1..] + [j];
      IndexOfJobAppend(jobs[1..], j, jobId);
    }
  }

  /** A job created under an unused id is found again, pending, with its data. */
  lemma CreateThenGet(jobs: seq<Job>, jobId: Id, videoId: Option<Id>, data: map<string, string>, now: int)
    requires FindJob(jobs, jobId).None?
    ensures FindJob(jobs + [NewJob(jobId, videoId, data, now)], jobId) == Some(NewJob(jobId, videoId, data, now))
  {
    IndexOfJobAppend(jobs, NewJob(jobId, videoId, data, now), jobId);
  }

  /** Creating a job leaves what every other id finds unchanged. */
  lemma CreateKeepsOthers(jobs: seq<Job>, jobId: Id, videoId: Option<Id>, data: map<string, string>, now: int, other: Id)
    requires other != jobId || FindJob(jobs, other).Some?
    ensures FindJob(jobs + [NewJob(jobId, videoId, data, now)], other) == FindJob(jobs, other)
  {
    IndexOfJobAppend(jobs, NewJob(jobId, videoId, data, now), other);
  }

  /** After an update the id finds a job with the new status, and its creation time is kept. */
  lemma {:induction false} UpdateThenGet(jobs: seq<Job>, jobId: Id, status: JobStatus, data: map<string, string>, now: int)
    requires FindJob(jobs, jobId).Some?
    ensures var j := FindJob(AfterUpdate(jobs, jobId, status, data, now), jobId);
      && j.Some? && j.value.status == status && j.value.updatedAt == Some(now)
      && j.value.createdAt == FindJob(jobs, jobId).value.createdAt
  {
    var i := IndexOfJob(jobs, jobId).value;
    var r := AfterUpdate(jobs, jobId, status, data, now);
    assert IndexOfJob(r, jobId) == Some(i) by {
      IndexOfJobUpdate(jobs, i, r[i], jobId);
      assert r == jobs[i := r[i]];
    }
  }

  /** Replacing the found job with one of the same id leaves the lookup unchanged. */
  lemma {:induction false} IndexOfJobUpdate(jobs: seq<Job>, i: nat, j: Job, jobId: Id)
    requires IndexOfJob(jobs, jobId) == Some(i)
    requires j.id == jobId
    ensures IndexOfJob(jobs[i := j], jobId) == Some(i)
    decreases |jobs|
  {
    if i > 0 {
      assert jobs[i := j][1..] == jobs[1..][i - 1 := j];
      IndexOfJobUpdate(jobs[1..], i - 1, j, jobId);
    }
  }

  /** No transition is refused: a completed or failed job can be set back to pending. */
  lemma NoTransitionGuard(jobs: seq<Job>, jobId: Id, now: int)
    requires FindJob(jobs, jobId).Some?
    requires FindJob(jobs, jobId).value.status in {Completed, Failed}
    ensures FindJob(AfterUpdate(jobs, jobId, Pending, map[], now), jobId).value.status == Pending
  {
    UpdateThenGet(jobs, jobId, Pending, map[], now);
  }

  class JobManager {
    var jobs: seq<Job>

    constructor ()
      ensures jobs == []
    {
      jobs := [];
    }

    /** createJob; the job id is supplied by the caller. */
    method CreateJob(jobId: Id, videoId: Option<Id>, data: map<string, string>, now: int) returns (id: Id)
      modifies this
      ensures jobs == old(jobs) + [NewJob(jobId, videoId, data, now)]
      ensures id == jobId
    {
      jobs := jobs + [NewJob(jobId, videoId, data, now)];
      id := jobId;
    }

    /** updateJobStatus: false, with nothing written, when no job has the id. */
    method UpdateJobStatus(jobId: Id, status: JobStatus, data: map<string, string>, now: int) returns (ok: bool)
      modifies this
      ensures ok <==> exists k :: 0 <= k < |old(jobs)| && old(jobs)[k].id == jobId
      ensures jobs == AfterUpdate(old(jobs), jobId, status, data, now)
    {
      var found := IndexOfJob(jobs, jobId);
      if found.None? {
        return false;
      }
      var i := found.value;
      var job := jobs[i];
      jobs := jobs[i := job.(status := status, updatedAt := Some(now), data := job.data + data)];
      ok := true;
    }

    /** getJob */
    function GetJob(jobId: Id): (r: Option<Job>)
      reads this
      ensures r.Some? ==> r.value in jobs && r.value.id == jobId
      ensures r.Some? ==> exists i :: 0 <= i < |jobs| && jobs[i] == r.value && forall k :: 0 <= k < i ==> jobs[k].id != jobId
      ensures r.None? <==> forall j :: j in jobs ==> j.id != jobId
    {
      FindJob(jobs, jobId)
    }
  }
}
