/** The per-job status the user assigns: `new` unless set, a click toggles
    between `new` and `applied` (and resets anything else to `new`), and
    the totals per status that the filter menu shows. */
module Statuses {
  import opened Text
  import opened Feeds
  import opened Aggregator

  const NEW := "new"
  const APPLIED := "applied"
  const IRRELEVANT := "irrelevant"

  /** `jobKey(job)`: `(job.url || job.guid || job.title || "").trim()`. An
      enriched record carries no guid, so the title follows the url. */
  function JobKey(job: JobRecord): (r: string)
    ensures IsTrimmed(r)
    ensures Trim(job.url) != "" ==> r == Trim(job.url)
    ensures job.url == "" ==> r == Trim(job.title)
    ensures job.url != "" && Trim(job.url) == "" ==> r == ""
  {
    Trim(Or(job.url, job.title))
  }

  /** `statuses[key] || "new"`: a missing or empty entry reads as `new`. */
  function StatusOf(statuses: map<string, string>, key: string): (r: string)
    ensures r != ""
    ensures key in statuses && statuses[key] != "" ==> r == statuses[key]
    ensures key !in statuses || statuses[key] == "" ==> r == NEW
  {
    if key in statuses && statuses[key] != "" then statuses[key] else NEW
  }

  /** The status a click on the status pill moves to. */
  function NextOnClick(current: string): (r: string)
    ensures r == APPLIED || r == NEW
    ensures r != current
  {
    if current == NEW then APPLIED else NEW
  }

  /** A click marks a new job applied and returns every other status,
      `irrelevant` and unknown ones included, to `new`; so clicking never
      marks a job irrelevant, and two clicks restore `new` and `applied`. */
  lemma ClickTransitions(current: string)
    ensures NextOnClick(current) == APPLIED <==> current == NEW
    ensures NextOnClick(current) == NEW <==> current != NEW
    ensures NextOnClick(current) != IRRELEVANT
    ensures current == NEW || current == APPLIED ==> NextOnClick(NextOnClick(current)) == current
    ensures current == IRRELEVANT ==> NextOnClick(NextOnClick(current)) == APPLIED
  {
  }

  datatype Totals = Totals(newJobs: nat, applied: nat, irrelevant: nat)

  /** The totals `collectStatusTotals` reaches, job by job: `applied` and
      `irrelevant` are counted as such, every other status as new. */
  function Tally(jobs: seq<JobRecord>, statuses: map<string, string>): Totals {
    if jobs == [] then Totals(0, 0, 0)
    else
      var t := Tally(jobs[..|jobs| - 1], statuses);
      var status := StatusOf(statuses, JobKey(jobs[|jobs| - 1]));
      if status == APPLIED then t.(applied := t.applied + 1)
      else if status == IRRELEVANT then t.(irrelevant := t.irrelevant + 1)
      else t.(newJobs := t.newJobs + 1)
  }

  /** Every job is counted exactly once. */
  lemma {:induction false} TallyCountsEveryJob(jobs: seq<JobRecord>, statuses: map<string, string>)
    ensures var t := Tally(jobs, statuses); t.newJobs + t.applied + t.irrelevant == |jobs|
    decreases |jobs|
  {
    if jobs != [] {
      TallyCountsEveryJob(jobs[..|jobs| - 1], statuses);
    }
  }

  /** A status stored under a key no job has leaves the totals alone. */
  lemma {:induction false} TallyIgnoresOtherKeys(jobs: seq<JobRecord>, statuses: map<string, string>, key: string, status: string)
    requires forall i :: 0 <= i < |jobs| ==> JobKey(jobs[i]) != key
    ensures Tally(jobs, statuses[key := status]) == Tally(jobs, statuses)
    decreases |jobs|
  {
    if jobs != [] {
      var n := |jobs| - 1;
      var front := jobs[..n];
      forall i | 0 <= i < n
        ensures JobKey(front[i]) != key
      {
        assert front[i] == jobs[i];
      }
      TallyIgnoresOtherKeys(front, statuses, key, status);
      var last := JobKey(jobs[n]);
      assert last != key;
      assert StatusOf(statuses[key := status], last) == StatusOf(statuses, last);
    }
  }

  /** The application state the status operations touch: the loaded jobs
      and the map from job key to status. */
  class StatusBoard {
    var jobs: seq<JobRecord>
    var statuses: map<string, string>

    constructor(jobs: seq<JobRecord>, statuses: map<string, string>)
      ensures this.jobs == jobs && this.statuses == statuses
    {
      this.jobs := jobs;
      this.statuses := statuses;
    }

    /** `getJobStatus(key)`. */
    function GetJobStatus(key: string): (r: string)
      reads this
      ensures r != ""
      ensures key in statuses && statuses[key] != "" ==> r == statuses[key]
      ensures key !in statuses || statuses[key] == "" ==> r == NEW
    {
      StatusOf(statuses, key)
    }

    /** `setJobStatus(key, status)`: a new map with that one entry replaced;
      persisting it and re-rendering are not modelled. */
    method SetJobStatus(key: string, status: string)
      modifies this
      ensures statuses == old(statuses)[key := status]
      ensures jobs == old(jobs)
      ensures status != "" ==> GetJobStatus(key) == status
      ensures forall k :: k != key ==> GetJobStatus(k) == old(GetJobStatus(k))
    {
      statuses := statuses[key := status];
    }

    /** `cycleStatusByClick(key)`. */
    method CycleStatusByClick(key: string)
      modifies this
      ensures statuses == old(statuses)[key := NextOnClick(old(GetJobStatus(key)))]
      ensures jobs == old(jobs)
      ensures GetJobStatus(key) == (if old(GetJobStatus(key)) == NEW then APPLIED else NEW)
    {
      var current := GetJobStatus(key);
      if current == NEW {
        SetJobStatus(key, APPLIED);
      } else if current == APPLIED {
        SetJobStatus(key, NEW);
      } else if current == IRRELEVANT {
        SetJobStatus(key, NEW);
      } else {
        SetJobStatus(key, NEW);
      }
    }

    /** `collectStatusTotals`: one pass over the jobs incrementing counters. */
    method CollectStatusTotals() returns (totals: Totals)
      ensures totals == Tally(jobs, statuses)
      ensures totals.newJobs + totals.applied + totals.irrelevant == |jobs|
    {
      totals := Totals(0, 0, 0);
      var i := 0;
      while i < |jobs|
        invariant 0 <= i <= |jobs|
        invariant totals == Tally(jobs[..i], statuses)
      {
        assert jobs[..i + 1][..i] == jobs[..i];
        var status := GetJobStatus(JobKey(jobs[i]));
        if status == APPLIED {
          totals := totals.(applied := totals.applied + 1);
        } else if status == IRRELEVANT {
          totals := totals.(irrelevant := totals.irrelevant + 1);
        } else {
          totals := totals.(newJobs := totals.newJobs + 1);
        }
        i := i + 1;
      }
      assert jobs[..i] == jobs;
      TallyCountsEveryJob(jobs, statuses);
    }
  }
}
