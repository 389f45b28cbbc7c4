/**
 * The approval page: it lists solved jobs with their users' names, opens the
 * approval modal for one job, and on confirm either sends the job back to
 * unsolved (rating fejlet) or approves it with the payout for the rating,
 * then reloads the solved jobs and closes the modal.
 *
 * `approveJob`, `markJobAsUnsolved` and `getSolvedJobs` are store calls whose
 * bodies are not part of this model: the page records which calls it makes,
 * and each call's success or failure is a parameter.
 */
module ApproveJob {
  import opened Wrappers
  import opened Payouts
  import opened Records
  import ApproveModal
  import Js

  /** A call the page makes to the store. */
  datatype StoreCall = MarkJobAsUnsolved(id: string) | ApproveJob(id: string, amount: nat) | GetSolvedJobs

  /** `selectedJob?.id` is truthy: a job is selected and its id is a non-empty string. */
  predicate HasId(selected: Option<UserJob>)
  {
    selected.Some? && selected.value.id.Some? && selected.value.id.value != ""
  }

  /**
   * The amount credited for a rating other than fejlet: it starts as the
   * job's money and is replaced for fint and skidt.
   */
  method ResolveAmount(money: nat, rating: Rating) returns (amount: nat)
    requires rating != Fejlet
    ensures amount == Payout(rating, money)
    ensures amount <= money
  {
    amount := money;
    if rating == Fint {
      amount := FintAmount(money);
    }
    if rating == Skidt {
      amount := SkidtAmount(money);
    }
    PayoutBounded(rating, money);
  }

  /** `Object.fromEntries(users.map(u => [u.id, u.name]))`: a later user with the same id wins. */
  function UserMap(users: seq<User>): map<string, string>
  {
    if users == [] then map[]
    else
      var last := users[|users| - 1];
      UserMap(users[..|users| - 1])[last.id := last.name]
  }

  /** The map's keys are exactly the users' ids. */
  lemma {:induction false} UserMapKeys(users: seq<User>)
    ensures UserMap(users).Keys == set u | u in users :: u.id
  {
    if users != [] {
      var init := users[..|users| - 1];
      UserMapKeys(init);
      assert users == init + [users[|users| - 1]];
    }
  }

  /** The name recorded for an id is that of the last user with that id. */
  lemma {:induction false} UserMapLastWins(users: seq<User>, i: nat)
    requires i < |users|
    requires forall j :: i < j < |users| ==> users[j].id != users[i].id
    ensures users[i].id in UserMap(users) && UserMap(users)[users[i].id] == users[i].name
  {
    if i < |users| - 1 {
      UserMapLastWins(users[..|users| - 1], i);
    }
  }

  /**
   * The `money` prop of the modal as the page renders it: the prop is not
   * passed, so the modal sees `undefined`.
   */
  function ModalMoneyAsRendered(selected: Option<UserJob>): Option<nat>
  {
    None
  }

  /** The `money` prop the modal evidently expects: the selected job's money. */
  function ModalMoneyIntended(selected: Option<UserJob>): Option<nat>
  {
    if selected.Some? then Some(selected.value.money) else None
  }

  /** As rendered, the caption of every rating but fejlet differs from the amount that rating credits. */
  lemma ShownPayoutDiffersFromCredit(job: UserJob, rating: Rating)
    requires rating != Fejlet
    ensures ApproveModal.PayoutLabel(rating, ModalMoneyAsRendered(Some(job)))
         != Js.NatToString(Payout(rating, job.money)) + " kr."
  {
    ApproveModal.LabelWithoutMoney(rating, job.money);
    ApproveModal.LabelShowsPayout(rating, job.money);
  }

  /** With the intended prop, every caption shows exactly the amount its rating credits. */
  lemma IntendedLabelShowsCredit(job: UserJob, rating: Rating)
    ensures ApproveModal.PayoutLabel(rating, ModalMoneyIntended(Some(job)))
         == Js.NatToString(Payout(rating, job.money)) + " kr."
  {
    ApproveModal.LabelShowsPayout(rating, job.money);
  }

  /** The page's state. */
  class ApprovalPage {
    var solvedJobs: seq<UserJob>
    var users: seq<User>
    var selectedJob: Option<UserJob>
    var modalOpen: bool
    /**
     * The approval modal's rating state. The modal is rendered outside the
     * loading conditional, so it is mounted once with the page and its
     * rating is never reset between openings.
     */
    const picker: ApproveModal.RatingPicker

    constructor (jobs: seq<UserJob>, users: seq<User>)
      ensures solvedJobs == jobs && this.users == users
      ensures selectedJob == None && !modalOpen
      ensures fresh(picker) && picker.rating == Some(Godt)
    {
      solvedJobs, this.users := jobs, users;
      selectedJob, modalOpen := None, false;
      picker := new ApproveModal.RatingPicker();
    }

    /** The approve button of a job card: select the job and open the modal. */
    method OpenApproveModal(job: UserJob)
      modifies this
      ensures selectedJob == Some(job) && modalOpen
      ensures solvedJobs == old(solvedJobs) && users == old(users)
    {
      selectedJob, modalOpen := Some(job), true;
    }

    /** Closing the modal forgets the selected job. */
    method CloseApproveModal()
      modifies this
      ensures selectedJob == None && !modalOpen
      ensures solvedJobs == old(solvedJobs) && users == old(users)
    {
      selectedJob, modalOpen := None, false;
    }

    /**
     * `onApprove(rating)`. `storeOk` says whether the approve or unsolve call
     * succeeds and `refreshOk` whether reloading the solved jobs does;
     * `fetched` is what the reload returns. A failed call throws out of the
     * handler, so nothing after it happens. Returns the store calls made, in order.
     */
    method OnApprove(rating: Rating, storeOk: bool, refreshOk: bool, fetched: Option<seq<UserJob>>)
      returns (calls: seq<StoreCall>)
      modifies this
      // no selected id: no store call, but the modal still closes
      ensures !HasId(old(selectedJob)) ==> calls == []
      // the reload follows the store call only when that call succeeded
      ensures HasId(old(selectedJob)) ==> |calls| == if storeOk then 2 else 1
      // fejlet: the job goes back to unsolved and nothing is credited
      ensures HasId(old(selectedJob)) && rating == Fejlet ==>
        calls[0] == MarkJobAsUnsolved(old(selectedJob).value.id.value)
      ensures rating == Fejlet ==> forall c :: c in calls ==> !c.ApproveJob?
      // any other rating: exactly one approveJob, with the payout of the rating
      ensures HasId(old(selectedJob)) && rating != Fejlet ==>
        calls[0] == ApproveJob(old(selectedJob).value.id.value, Payout(rating, old(selectedJob).value.money))
      ensures forall k :: 1 <= k < |calls| ==> calls[k] == GetSolvedJobs
      // the jobs are reloaded before the modal closes
      ensures solvedJobs == if HasId(old(selectedJob)) && storeOk && refreshOk then fetched.GetOr([])
                            else old(solvedJobs)
      ensures if !HasId(old(selectedJob)) || (storeOk && refreshOk)
              then selectedJob == None && !modalOpen
              else selectedJob == old(selectedJob) && modalOpen == old(modalOpen)
      ensures users == old(users)
    {
      calls := [];
      if HasId(selectedJob) {
        var job := selectedJob.value;
        var id := job.id.value;
        if rating == Fejlet {
          calls := calls + [MarkJobAsUnsolved(id)];
        } else {
          var amount := ResolveAmount(job.money, rating);
          calls := calls + [ApproveJob(id, amount)];
        }
        if !storeOk {
          return;
        }
        // refreshJobs
        calls := calls + [GetSolvedJobs];
        if !refreshOk {
          return;
        }
        solvedJobs := fetched.GetOr([]);
      }
      CloseApproveModal();
    }

    /** A rating button of the modal. */
    method ChooseRating(r: Rating)
      modifies picker
      ensures picker.rating == Some(r)
    {
      picker.Choose(r);
    }

    /**
     * The modal's confirm button: `onApprove` with the rating still selected
     * in the modal, whichever job it was chosen for; nothing when none is.
     */
    method ConfirmModal(storeOk: bool, refreshOk: bool, fetched: Option<seq<UserJob>>)
      returns (calls: seq<StoreCall>)
      modifies this
      ensures picker.rating == old(picker.rating)
      ensures picker.rating.None? ==>
        calls == [] && selectedJob == old(selectedJob) && modalOpen == old(modalOpen) && solvedJobs == old(solvedJobs)
      ensures picker.rating.Some? && HasId(old(selectedJob)) ==> |calls| == if storeOk then 2 else 1
      ensures picker.rating.Some? && HasId(old(selectedJob)) && picker.rating.value == Fejlet ==>
        calls[0] == MarkJobAsUnsolved(old(selectedJob).value.id.value)
      ensures picker.rating.Some? && HasId(old(selectedJob)) && picker.rating.value != Fejlet ==>
        calls[0] == ApproveJob(old(selectedJob).value.id.value, Payout(picker.rating.value, old(selectedJob).value.money))
      ensures picker.rating.Some? && !HasId(old(selectedJob)) ==> calls == []
      ensures forall k :: 1 <= k < |calls| ==> calls[k] == GetSolvedJobs
      ensures picker.rating.Some? ==>
        solvedJobs == if HasId(old(selectedJob)) && storeOk && refreshOk then fetched.GetOr([]) else old(solvedJobs)
      ensures picker.rating.Some? ==>
        if !HasId(old(selectedJob)) || (storeOk && refreshOk)
        then selectedJob == None && !modalOpen
        else selectedJob == old(selectedJob) && modalOpen == old(modalOpen)
      ensures users == old(users)
    {
      var call := picker.Confirm();
      if call.Some? {
        calls := OnApprove(call.value, storeOk, refreshOk, fetched);
      } else {
        calls := [];
      }
    }
  }

  /**
   * The rating carries over between openings: after job `a` is approved as
   * skidt, confirming job `b` without a click credits `b` at skidt, not godt.
   */
  method CarriedRatingScenario(a: UserJob, b: UserJob) returns (first: seq<StoreCall>, second: seq<StoreCall>)
    requires HasId(Some(a)) && HasId(Some(b))
    ensures first == [ApproveJob(a.id.value, Payout(Skidt, a.money)), GetSolvedJobs]
    ensures second == [ApproveJob(b.id.value, Payout(Skidt, b.money)), GetSolvedJobs]
  {
    var page := new ApprovalPage([a, b], []);
    page.OpenApproveModal(a);
    page.ChooseRating(Skidt);
    first := page.ConfirmModal(true, true, Some([b]));
    assert first == [first[0], first[1]];
    page.OpenApproveModal(b);
    second := page.ConfirmModal(true, true, Some([]));
    assert second == [second[0], second[1]];
  }
}
