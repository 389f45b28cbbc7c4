/**
 * The job template list (`JobTemplatesList`): a case-insensitive search
 * over the titles, four sort orders, and saving the edit modal's changes,
 * either handing the edited job to the caller (pick mode) or writing them
 * to the store and merging them into the list by id.
 */
module JobTemplates {
  import opened Wrappers
  import opened Records
  import Js
  import Sorting

  /** The four `sortBy` choices. */
  datatype SortMode = TitleAsc | TitleDesc | MoneyAsc | MoneyDesc

  /** A `Partial<Job>`: a field that is present replaces the job's. */
  datatype JobPatch = JobPatch(
    id: Option<string>,
    title: Option<string>,
    description: Option<string>,
    adress: Option<string>,
    duration: Option<int>,
    delivery: Option<string>,
    money: Option<nat>,
    image_url: Option<Option<string>>)

  /** `{ ...job, ...patch }`. */
  function Merge(job: Job, patch: JobPatch): (r: Job)
    ensures patch.id.Some? ==> r.id == patch.id
    ensures patch.id.None? ==> r.id == job.id
    ensures r.title == patch.title.GetOr(job.title) && r.description == patch.description.GetOr(job.description)
    ensures r.adress == patch.adress.GetOr(job.adress) && r.duration == patch.duration.GetOr(job.duration)
    ensures r.money == patch.money.GetOr(job.money) && r.image_url == patch.image_url.GetOr(job.image_url)
    ensures patch.delivery.Some? ==> r.delivery == patch.delivery
    ensures patch.delivery.None? ==> r.delivery == job.delivery
  {
    Job(
      if patch.id.Some? then patch.id else job.id,
      patch.title.GetOr(job.title),
      patch.description.GetOr(job.description),
      patch.adress.GetOr(job.adress),
      patch.duration.GetOr(job.duration),
      if patch.delivery.Some? then patch.delivery else job.delivery,
      patch.money.GetOr(job.money),
      patch.image_url.GetOr(job.image_url))
  }

  /** A job the search keeps: it has a title, and its lower-cased title contains the lower-cased search. */
  predicate Matches(job: Job, search: string, fold: char -> char)
  {
    job.title != [] && Js.Includes(Js.Lower(job.title, fold), Js.Lower(search, fold))
  }

  /** `jobs.filter(keep)`. */
  function Keep(jobs: seq<Job>, keep: Job -> bool): (r: seq<Job>)
    ensures |r| <= |jobs|
    ensures forall j :: j in r ==> j in jobs && keep(j)
  {
    if jobs == [] then []
    else (if keep(jobs[0]) then [jobs[0]] else []) + Keep(jobs[1..], keep)
  }

  /** The positions in `jobs` of the jobs `keep` accepts, in order. */
  function Positions(jobs: seq<Job>, keep: Job -> bool): (idx: seq<nat>)
    ensures forall k :: 0 <= k < |idx| ==> idx[k] < |jobs|
  {
    if jobs == [] then []
    else
      var rest := Positions(jobs[1..], keep);
      (if keep(jobs[0]) then [0] else []) + seq(|rest|, k requires 0 <= k < |rest| => rest[k] + 1)
  }

  /** The kept jobs are the jobs at those positions. */
  lemma {:induction false} PositionsPickKept(jobs: seq<Job>, keep: Job -> bool)
    ensures |Positions(jobs, keep)| == |Keep(jobs, keep)|
    ensures forall k :: 0 <= k < |Positions(jobs, keep)| ==> Keep(jobs, keep)[k] == jobs[Positions(jobs, keep)[k]]
  {
    if jobs != [] {
      PositionsPickKept(jobs[1..], keep);
      var rest := Positions(jobs[1..], keep);
      var tail := Keep(jobs[1..], keep);
      var idx := Positions(jobs, keep);
      var r := Keep(jobs, keep);
      var d := if keep(jobs[0]) then 1 else 0;
      assert r == (if keep(jobs[0]) then [jobs[0]] else []) + tail;
      forall k | d <= k < |idx| ensures r[k] == jobs[idx[k]] {
        assert idx[k] == rest[k - d] + 1 && r[k] == tail[k - d];
        assert jobs[1..][rest[k - d]] == jobs[rest[k - d] + 1];
      }
    }
  }

  /** The positions are strictly increasing, so the filter keeps the order. */
  lemma {:induction false} PositionsIncrease(jobs: seq<Job>, keep: Job -> bool)
    ensures forall k, l :: 0 <= k < l < |Positions(jobs, keep)| ==> Positions(jobs, keep)[k] < Positions(jobs, keep)[l]
  {
    if jobs != [] {
      PositionsIncrease(jobs[1..], keep);
    }
  }

  /** Every accepted job's position is among the positions. */
  lemma {:induction false} PositionsComplete(jobs: seq<Job>, keep: Job -> bool)
    ensures forall i :: 0 <= i < |jobs| && keep(jobs[i]) ==> i in Positions(jobs, keep)
  {
    if jobs != [] {
      PositionsComplete(jobs[1..], keep);
      var rest := Positions(jobs[1..], keep);
      var idx := Positions(jobs, keep);
      var d := if keep(jobs[0]) then 1 else 0;
      forall i | 1 <= i < |jobs| && keep(jobs[i]) ensures i in idx {
        assert jobs[1..][i - 1] == jobs[i];
        var k :| 0 <= k < |rest| && rest[k] == i - 1;
        assert idx[k + d] == i;
      }
    }
  }

  /**
   * A filter keeps exactly the jobs it accepts, in their order: the kept
   * jobs sit at strictly increasing positions of `jobs`, and every accepted
   * position is among them.
   */
  lemma KeepPositions(jobs: seq<Job>, keep: Job -> bool) returns (idx: seq<nat>)
    ensures |idx| == |Keep(jobs, keep)|
    ensures forall k :: 0 <= k < |idx| ==> idx[k] < |jobs| && Keep(jobs, keep)[k] == jobs[idx[k]]
    ensures forall k, l :: 0 <= k < l < |idx| ==> idx[k] < idx[l]
    ensures forall i :: 0 <= i < |jobs| && keep(jobs[i]) ==> i in idx
  {
    idx := Positions(jobs, keep);
    PositionsPickKept(jobs, keep);
    PositionsIncrease(jobs, keep);
    PositionsComplete(jobs, keep);
  }

  /** `filteredJobs`: the jobs the search matches. */
  function Filtered(jobs: seq<Job>, search: string, fold: char -> char): (r: seq<Job>)
    ensures forall j :: j in r ==> j in jobs && Matches(j, search, fold)
  {
    Keep(jobs, (j: Job) => Matches(j, search, fold))
  }

  /** An empty search keeps every job that has a title. */
  lemma EmptySearchKeepsTitled(job: Job, fold: char -> char)
    ensures Matches(job, "", fold) <==> job.title != []
  {
    Js.IncludesEmpty(Js.Lower(job.title, fold));
  }

  /** The comparator of a sort mode, as "may come before"; titles compare with the collation `collate`. */
  function ModeOrder(mode: SortMode, collate: (string, string) -> bool): (Job, Job) -> bool
  {
    match mode
    case TitleAsc => (a: Job, b: Job) => collate(a.title, b.title)
    case TitleDesc => (a: Job, b: Job) => collate(b.title, a.title)
    case MoneyAsc => (a: Job, b: Job) => a.money <= b.money
    case MoneyDesc => (a: Job, b: Job) => a.money >= b.money
  }

  /** Each mode orders consistently when the collation does. */
  lemma ModeOrderIsPreorder(mode: SortMode, collate: (string, string) -> bool)
    requires Sorting.TotalPreorder(collate)
    ensures Sorting.TotalPreorder(ModeOrder(mode, collate))
  {
    var le := ModeOrder(mode, collate);
    if mode == TitleAsc || mode == TitleDesc {
      forall a: Job, b: Job ensures le(a, b) || le(b, a) {
        assert collate(a.title, b.title) || collate(b.title, a.title);
      }
      forall a: Job, b: Job, c: Job | le(a, b) && le(b, c) ensures le(a, c) {
        if mode == TitleAsc {
          assert collate(a.title, b.title) && collate(b.title, c.title);
        } else {
          assert collate(c.title, b.title) && collate(b.title, a.title);
        }
      }
    }
  }

  class TemplatesList {
    var jobs: seq<Job>
    var selectedJob: Option<Job>
    var modalOpen: bool
    var search: string
    var sortBy: SortMode
    /** Whether the parent passed `onPickJob`. */
    const pickMode: bool

    constructor (pickMode: bool, loaded: seq<Job>)
      ensures this.pickMode == pickMode && jobs == loaded
      ensures selectedJob == None && !modalOpen && search == [] && sortBy == TitleAsc
    {
      this.pickMode := pickMode;
      jobs := loaded;
      selectedJob := None;
      modalOpen := false;
      search := [];
      sortBy := TitleAsc;
    }

    /** A job's button: select it and open the modal. */
    method Open(job: Job)
      modifies this
      ensures selectedJob == Some(job) && modalOpen
      ensures jobs == old(jobs) && search == old(search) && sortBy == old(sortBy)
    {
      selectedJob := Some(job);
      modalOpen := true;
    }

    /**
     * `sortedJobs`: the filtered jobs, copied into a fresh array and sorted
     * there in place; the `jobs` state keeps its order.
     */
    method SortedJobs(fold: char -> char, collate: (string, string) -> bool) returns (sorted: seq<Job>)
      ensures sorted == Sorting.Sort(Filtered(jobs, search, fold), ModeOrder(sortBy, collate))
      ensures multiset(sorted) == multiset(Filtered(jobs, search, fold))
      ensures Sorting.TotalPreorder(collate) ==>
        forall i, j :: 0 <= i < j < |sorted| ==> ModeOrder(sortBy, collate)(sorted[i], sorted[j])
    {
      var filtered := Filtered(jobs, search, fold);
      var a := new Job[|filtered|](i requires 0 <= i < |filtered| => filtered[i]);
      assert a[..] == filtered;
      Sorting.SortInPlace(a, ModeOrder(sortBy, collate));
      sorted := a[..];
      if Sorting.TotalPreorder(collate) {
        ModeOrderIsPreorder(sortBy, collate);
        Sorting.SortSorted(filtered, ModeOrder(sortBy, collate));
      }
    }

    /**
     * `handleSave(updates)` while the modal shows `selectedJob`. Returns the
     * job handed to `onPickJob` in pick mode; `updateOk` is the outcome of
     * `updateJob` otherwise.
     */
    method HandleSave(updates: JobPatch, updateOk: bool) returns (picked: Option<Job>)
      requires selectedJob.Some?
      modifies this
      // without an id nothing happens
      ensures updates.id.None? || updates.id == Some([]) ==>
        picked.None? && jobs == old(jobs) && selectedJob == old(selectedJob) && modalOpen == old(modalOpen)
      // pick mode: the merged job keeps the selected job's id; the list is untouched and the modal closes
      ensures pickMode && updates.id.Some? && updates.id != Some([]) ==>
        && picked.Some?
        && picked.value == Merge(old(selectedJob).value, updates).(id := old(selectedJob).value.id)
        && jobs == old(jobs) && selectedJob.None? && !modalOpen
      // edit mode, store write succeeded: only the jobs with that id are merged; the modal closes
      ensures !pickMode && updates.id.Some? && updates.id != Some([]) && updateOk ==>
        && picked.None?
        && |jobs| == |old(jobs)|
        && (forall i :: 0 <= i < |jobs| ==>
              jobs[i] == if old(jobs)[i].id == updates.id then Merge(old(jobs)[i], updates) else old(jobs)[i])
        && selectedJob.None? && !modalOpen
      // edit mode, store write failed: nothing changes
      ensures !pickMode && updates.id.Some? && updates.id != Some([]) && !updateOk ==>
        picked.None? && jobs == old(jobs) && selectedJob == old(selectedJob) && modalOpen == old(modalOpen)
      ensures search == old(search) && sortBy == old(sortBy)
    {
      picked := None;
      if updates.id.None? || updates.id == Some([]) {
        return;
      }
      if pickMode {
        var selected := selectedJob.value;
        picked := Some(Merge(selected, updates).(id := selected.id));
        modalOpen := false;
        selectedJob := None;
      } else {
        if !updateOk {
          return;
        }
        var before := jobs;
        jobs := seq(|before|, i requires 0 <= i < |before| =>
          if before[i].id == updates.id then Merge(before[i], updates) else before[i]);
        modalOpen := false;
        selectedJob := None;
      }
    }
  }
}
