/**
 * The approval modal: the administrator picks a rating (godt is selected when
 * the modal is first mounted), sees the payout under each rating button and
 * confirms, which hands the selected rating to the page's `onApprove`.
 */
module ApproveModal {
  import opened Wrappers
  import opened Payouts
  import Js

  /** The order in which the rating buttons are offered. */
  const RatingOrder: seq<Rating> := [Fejlet, Skidt, Fint, Godt]

  /** Every rating is offered exactly once, in the order fejlet, skidt, fint, godt. */
  lemma RatingOrderComplete()
    ensures |RatingOrder| == 4
    ensures forall r: Rating :: r in RatingOrder
    ensures forall i, j :: 0 <= i < j < |RatingOrder| ==> RatingOrder[i] != RatingOrder[j]
  {
    forall r: Rating ensures r in RatingOrder {
      match r
      case Fejlet => assert RatingOrder[0] == r;
      case Skidt => assert RatingOrder[1] == r;
      case Fint => assert RatingOrder[2] == r;
      case Godt => assert RatingOrder[3] == r;
    }
  }

  /**
   * The text of `payouts[rating]` when the modal received `money` (None when
   * the prop was not passed: then `payouts.godt` is `undefined` and
   * `Math.round(undefined * k)` is NaN).
   */
  function PayoutText(rating: Rating, money: Option<nat>): string
  {
    match money
    case Some(m) => Js.NatToString(Payout(rating, m))
    case None =>
      if rating == Godt then "undefined" else if rating == Fejlet then "0" else "NaN"
  }

  /** The caption under a rating button. */
  function PayoutLabel(rating: Rating, money: Option<nat>): string
  {
    if rating == Fejlet then "0 kr." else PayoutText(rating, money) + " kr."
  }

  /** The fejlet caption reads "0 kr." whatever `money` is. */
  lemma FejletLabelIsZero(money: Option<nat>)
    ensures PayoutLabel(Fejlet, money) == "0 kr."
  {
  }

  /** With a `money` value, every caption shows that rating's payout. */
  lemma {:induction false} LabelShowsPayout(rating: Rating, m: nat)
    ensures PayoutLabel(rating, Some(m)) == Js.NatToString(Payout(rating, m)) + " kr."
  {
    assert Js.NatToString(0) == "0";
  }

  /**
   * Without a `money` value, no caption but fejlet's shows a number: godt
   * reads "undefined kr." and fint and skidt read "NaN kr.".
   */
  lemma {:induction false} LabelWithoutMoney(rating: Rating, m: nat)
    requires rating != Fejlet
    ensures PayoutLabel(rating, None) != PayoutLabel(rating, Some(m))
  {
    var shown := Js.NatToString(Payout(rating, m));
    assert Js.IsDecimalDigit(shown[0]);
    assert PayoutLabel(rating, Some(m))[0] == shown[0];
  }

  /** The modal's state: the selected rating, which may be null. */
  class RatingPicker {
    var rating: Option<Rating>

    /** Mounting the modal selects godt. */
    constructor ()
      ensures rating == Some(Godt)
    {
      rating := Some(Godt);
    }

    /** Clicking a rating button (`setRating(type)`). */
    method Choose(r: Rating)
      modifies this
      ensures rating == Some(r)
    {
      rating := Some(r);
    }

    /** The confirm button is disabled exactly when no rating is selected. */
    predicate ConfirmDisabled()
      reads this
    {
      rating.None?
    }

    /**
     * Clicking confirm: `onApprove` is called once with the selected rating,
     * and not at all when none is selected. The result is that call's argument.
     */
    method Confirm() returns (call: Option<Rating>)
      ensures call.Some? <==> !ConfirmDisabled()
      ensures call.Some? ==> rating == Some(call.value)
    {
      if rating.Some? {
        call := Some(rating.value);
      } else {
        call := None;
      }
    }
  }

  /** From mounting on, any sequence of clicks leaves a rating selected, so confirm always calls `onApprove`. */
  method PickerScenario(clicks: seq<Rating>) returns (call: Option<Rating>)
    ensures call == Some(if clicks == [] then Godt else clicks[|clicks| - 1])
  {
    var picker := new RatingPicker();
    var i := 0;
    while i < |clicks|
      invariant 0 <= i <= |clicks|
      invariant picker.rating == Some(if i == 0 then Godt else clicks[i - 1])
    {
      picker.Choose(clicks[i]);
      i := i + 1;
    }
    call := picker.Confirm();
  }
}
