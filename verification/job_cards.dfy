/**
 * The job cards that show a job's payout at each rating: the card of a
 * solved job on the approval page and the detailed card of a job template.
 */
module JobCards {
  import opened Wrappers
  import opened Payouts
  import ApproveModal
  import opened Records
  import ApproveJob
  import Js

  /** `Math.round(money * 0.66)`: the fint value the solved-job card shows. */
  function CardFintAmount(money: nat): (r: nat)
    ensures IsRounding(66 * money, 100, r)
  {
    (66 * money + 50) / 100
  }

  /** The solved-job card's economy row, in its order godt, fint, skidt, fejlet. */
  function SolvedCardTiers(money: nat): seq<nat>
  {
    [money, CardFintAmount(money), SkidtAmount(money), 0]
  }

  /** The ratings in the order the solved-job card lists them. */
  const SolvedCardOrder: seq<Rating> := [Godt, Fint, Skidt, Fejlet]

  /** The same row with the fint factor the payout uses (0.667). */
  function SolvedCardTiersIntended(money: nat): seq<nat>
  {
    [money, FintAmount(money), SkidtAmount(money), 0]
  }

  /** The detailed template card's economy row, in its order fejlet, skidt, fint, godt. */
  function DetailedCardTiers(money: nat): seq<nat>
  {
    [0, SkidtAmount(money), FintAmount(money), money]
  }

  /** The godt, skidt and fejlet values of the solved-job card are the amounts those ratings credit. */
  lemma SolvedCardAgreesExceptFint(money: nat)
    ensures |SolvedCardTiers(money)| == |SolvedCardOrder|
    ensures forall i :: 0 <= i < 4 && i != 1 ==> SolvedCardTiers(money)[i] == Payout(SolvedCardOrder[i], money)
  {
  }

  /** The solved-job card shows 99 as the fint value of a 150 kr. job, which credits 100. */
  lemma SolvedCardFintMisstated()
    ensures SolvedCardTiers(150)[1] == 99
    ensures Payout(Fint, 150) == 100
  {
  }

  /** The card's fint value never exceeds the credited amount and falls short of it by at most 0.007 × money + 1. */
  lemma SolvedCardFintUnderstates(money: nat)
    ensures SolvedCardTiers(money)[1] <= Payout(Fint, money)
    ensures 1000 * (Payout(Fint, money) - SolvedCardTiers(money)[1]) <= 7 * money + 1000
  {
    var c, f := CardFintAmount(money), FintAmount(money);
    assert 200 * c <= 132 * money + 100 < 200 * (c + 1);
    assert 2000 * f <= 1334 * money + 1000 < 2000 * (f + 1);
  }

  /** With the factor 0.667 every value on the solved-job card is the amount its rating credits. */
  lemma SolvedCardIntendedAgrees(money: nat)
    ensures |SolvedCardTiersIntended(money)| == |SolvedCardOrder|
    ensures forall i :: 0 <= i < 4 ==> SolvedCardTiersIntended(money)[i] == Payout(SolvedCardOrder[i], money)
  {
  }

  /** The detailed card lists the ratings in the modal's order and shows exactly the amount each credits. */
  lemma DetailedCardAgrees(money: nat)
    ensures |DetailedCardTiers(money)| == |ApproveModal.RatingOrder|
    ensures forall i :: 0 <= i < 4 ==> DetailedCardTiers(money)[i] == Payout(ApproveModal.RatingOrder[i], money)
  {
  }

  /** `delivery?.slice(0, 5)`: the "HH:MM" part of an "HH:mm:ss" delivery time. */
  function DeliveryLabel(delivery: Option<string>): (r: Option<string>)
    ensures r.Some? <==> delivery.Some?
    ensures r.Some? ==> Js.IsSlice(r.value, delivery.value, 5)
  {
    match delivery
    case None => None
    case Some(d) => Some(Js.Slice(d, 5))
  }

  /** `userName || job.user_id`: the user's name when known and non-empty, otherwise the raw id. */
  function UserLabel(userName: Option<string>, userId: string): (r: string)
    ensures userName.Some? && userName.value != "" ==> r == userName.value
    ensures userName.None? || userName.value == "" ==> r == userId
  {
    if userName.Some? && userName.value != "" then userName.value else userId
  }

  /** `userMap[id]`: the name recorded for `id`, if any. */
  function Lookup(m: map<string, string>, id: string): Option<string>
  {
    if id in m then Some(m[id]) else None
  }

  /** A card of a job whose user is known shows that user's name (the last profile with the id), unless the name is empty. */
  lemma CardShowsKnownUser(users: seq<User>, i: nat, job: UserJob)
    requires i < |users| && users[i].id == job.user_id
    requires forall j :: i < j < |users| ==> users[j].id != users[i].id
    ensures UserLabel(Lookup(ApproveJob.UserMap(users), job.user_id), job.user_id)
         == if users[i].name != "" then users[i].name else job.user_id
  {
    ApproveJob.UserMapLastWins(users, i);
  }

  /** A card of a job whose user is not among the loaded profiles shows the raw user id. */
  lemma CardShowsUnknownUserId(users: seq<User>, job: UserJob)
    requires forall u :: u in users ==> u.id != job.user_id
    ensures UserLabel(Lookup(ApproveJob.UserMap(users), job.user_id), job.user_id) == job.user_id
  {
    ApproveJob.UserMapKeys(users);
  }
}
