/**
 * The rating-to-payout table of the approval modal (`payouts`): a solved job
 * is rated godt, fint, skidt or fejlet, and the rating decides how much of the
 * job's full `money` the user is credited.
 *
 * `Math.round(money * k)` is modelled for whole `money >= 0` as exact
 * round-half-up of the rational product.
 */
module Payouts {

  /** The four quality ratings (good, fine, poor, failed). */
  datatype Rating = Godt | Fint | Skidt | Fejlet

  /**
   * `r` is `Math.round(num / den)`: the whole number nearest to `num / den`,
   * halves rounded up, i.e. `r <= num / den + 1/2 < r + 1`.
   */
  ghost predicate IsRounding(num: int, den: int, r: int)
    requires den > 0
  {
    2 * den * r <= 2 * num + den < 2 * den * (r + 1)
  }

  /** Whole numbers differing by less than one from the same half-shifted value are equal. */
  lemma RoundingIsUnique(num: int, den: int, r1: int, r2: int)
    requires den > 0
    requires IsRounding(num, den, r1) && IsRounding(num, den, r2)
    ensures r1 == r2
  {
  }

  /** `Math.round(money * 0.667)`. */
  function FintAmount(money: nat): (r: nat)
    ensures IsRounding(667 * money, 1000, r)
  {
    (667 * money + 500) / 1000
  }

  /** `Math.round(money * 0.33)`. */
  function SkidtAmount(money: nat): (r: nat)
    ensures IsRounding(33 * money, 100, r)
  {
    (33 * money + 50) / 100
  }

  /** The payout for `rating` on a job worth `money`. */
  function Payout(rating: Rating, money: nat): (r: nat)
    ensures rating == Godt ==> r == money
    ensures rating == Fint ==> IsRounding(667 * money, 1000, r)
    ensures rating == Skidt ==> IsRounding(33 * money, 100, r)
    ensures rating == Fejlet ==> r == 0
  {
    match rating
    case Godt => money
    case Fint => FintAmount(money)
    case Skidt => SkidtAmount(money)
    case Fejlet => 0
  }

  /** The tiers are ordered: 0 = fejlet <= skidt <= fint <= godt = money. */
  lemma TiersOrdered(money: nat)
    ensures 0 == Payout(Fejlet, money) <= Payout(Skidt, money)
    ensures Payout(Skidt, money) <= Payout(Fint, money)
    ensures Payout(Fint, money) <= Payout(Godt, money) == money
  {
    var s, f := Payout(Skidt, money), Payout(Fint, money);
    assert 200 * s <= 66 * money + 100;
    assert 66 * money + 100 < 200 * (s + 1);
    assert 2000 * f <= 1334 * money + 1000 < 2000 * (f + 1);
  }

  /** Every payout lies between 0 and the job's full value. */
  lemma PayoutBounded(rating: Rating, money: nat)
    ensures 0 <= Payout(rating, money) <= money
  {
    TiersOrdered(money);
  }

  /** A job worth nothing pays nothing at any rating. */
  lemma ZeroMoneyPaysZero(rating: Rating)
    ensures Payout(rating, 0) == 0
  {
    PayoutBounded(rating, 0);
  }
}
