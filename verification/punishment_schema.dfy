/**
 * `punishmentSchema`: the field constraints of the punishment form. A field
 * that fails its type check reports only that; otherwise every failed
 * constraint of the field reports its message, fields in declaration order.
 */
module PunishmentSchema {
  import opened Wrappers
  import Js

  datatype Field = SelectedUserId | PenaltyAmount | PenaltyReason

  /** One reported problem: the field (`path[0]`) and its message. */
  datatype Issue = Issue(field: Field, message: string)

  /** The data handed to `safeParse`. */
  datatype FormData = FormData(selectedUserId: string, penaltyAmount: Js.Number, penaltyReason: string)

  /** The parsed data of a successful `safeParse`. */
  datatype Parsed = Parsed(userId: string, amount: int, reason: string)

  const ChooseUser: string := "Vælg en bruger"
  const NotANumber: string := "Skal være et tal"
  const AmountTooSmall: string := "Beløbet skal være mindst 1 kr."
  const AmountTooLarge: string := "Beløbet kan ikke være over 10.000 kr."
  const NotWhole: string := "Skal være et helt tal"
  const ReasonTooShort: string := "Årsagen skal være mindst 3 tegn"
  const ReasonTooLong: string := "Årsagen kan maksimalt være 200 tegn"

  /** The constraints, stated declaratively. */
  ghost predicate Accepts(d: FormData)
  {
    && |d.selectedUserId| >= 1
    && d.penaltyAmount.Finite?
    && 1.0 <= d.penaltyAmount.value <= 10000.0
    && d.penaltyAmount.IsInteger()
    && 3 <= Js.Length(d.penaltyReason) <= 200
  }

  function UserIdIssues(id: string): seq<Issue>
  {
    if |id| < 1 then [Issue(SelectedUserId, ChooseUser)] else []
  }

  function AmountIssues(n: Js.Number): seq<Issue>
  {
    match n
    case NaN => [Issue(PenaltyAmount, NotANumber)]
    case Finite(v) =>
      (if v < 1.0 then [Issue(PenaltyAmount, AmountTooSmall)] else [])
      + (if v > 10000.0 then [Issue(PenaltyAmount, AmountTooLarge)] else [])
      + (if !n.IsInteger() then [Issue(PenaltyAmount, NotWhole)] else [])
  }

  function ReasonIssues(reason: string): seq<Issue>
  {
    (if Js.Length(reason) < 3 then [Issue(PenaltyReason, ReasonTooShort)] else [])
    + (if Js.Length(reason) > 200 then [Issue(PenaltyReason, ReasonTooLong)] else [])
  }

  /** All issues, in the schema's field order. */
  function Issues(d: FormData): seq<Issue>
  {
    UserIdIssues(d.selectedUserId) + AmountIssues(d.penaltyAmount) + ReasonIssues(d.penaltyReason)
  }

  /**
   * `punishmentSchema.safeParse(d)`: the parsed data exactly when every
   * constraint holds, otherwise the non-empty list of issues.
   */
  function SafeParse(d: FormData): (r: Result<Parsed, seq<Issue>>)
    ensures r.Ok? <==> Accepts(d)
    ensures r.Ok? ==> && r.value.userId == d.selectedUserId
                      && r.value.amount as real == d.penaltyAmount.value
                      && 1 <= r.value.amount <= 10000
                      && r.value.reason == d.penaltyReason
    ensures r.Err? ==> r.error != []
  {
    var issues := Issues(d);
    if issues == [] then
      Ok(Parsed(d.selectedUserId, d.penaltyAmount.value.Floor, d.penaltyReason))
    else
      Err(issues)
  }

  /** Lengths are UTF-16 code units: two characters above U+FFFF already make four, enough for the minimum of 3. */
  lemma WideReasonLength()
    ensures SafeParse(FormData("u", Js.Finite(5.0), "\U{1F600}\U{1F600}")).Ok?
    ensures SafeParse(FormData("u", Js.Finite(5.0), "ab")).Err?
  {
    var wide := "\U{1F600}\U{1F600}";
    assert Js.Length(wide) == 4 by {
      assert wide[1..] == "\U{1F600}" && wide[1..][1..] == [];
    }
    assert Js.Finite(5.0).IsInteger();
  }

  /** Each issue names a field whose constraint the data breaks. */
  lemma IssuesAreViolations(d: FormData, i: nat)
    requires i < |Issues(d)|
    ensures Issues(d)[i].field == SelectedUserId ==> |d.selectedUserId| < 1
    ensures Issues(d)[i].field == PenaltyAmount ==>
      !(d.penaltyAmount.Finite? && 1.0 <= d.penaltyAmount.value <= 10000.0 && d.penaltyAmount.IsInteger())
    ensures Issues(d)[i].field == PenaltyReason ==> !(3 <= Js.Length(d.penaltyReason) <= 200)
  {
    var a, b := UserIdIssues(d.selectedUserId), AmountIssues(d.penaltyAmount);
    var c := ReasonIssues(d.penaltyReason);
    if i < |a| {
      assert Issues(d)[i] == a[i];
    } else if i < |a| + |b| {
      assert Issues(d)[i] == b[i - |a|];
    } else {
      assert Issues(d)[i] == c[i - |a| - |b|];
    }
  }
}
