/**
 * `jobSchema`: the field constraints of the job form. A number field that
 * fails its type check reports only that; otherwise every failed
 * constraint of a field reports its message, fields in declaration order.
 */
module JobSchema {
  import opened Wrappers
  import Js

  datatype Field = Title | Address | Description | Duration | Delivery | Money

  /** One reported problem: the field (`path[0]`) and its message. */
  datatype Issue = Issue(field: Field, message: string)

  /** The data handed to `safeParse`. */
  datatype JobForm = JobForm(
    title: string,
    address: string,
    description: string,
    duration: Js.Number,
    delivery: string,
    money: Js.Number)

  /** The parsed data of a successful `safeParse`. */
  datatype JobFields = JobFields(
    title: string,
    address: string,
    description: string,
    duration: nat,
    delivery: string,
    money: real)

  const Required: string := "Påkrævet"
  const TooLong: string := "Maks 500 tegn"
  const NotANumber: string := "Skal være et tal"
  const Negative: string := "Må ikke være negativ"
  const NotWhole: string := "Skal være et helt tal"

  /** The constraints, stated declaratively. */
  ghost predicate Accepts(d: JobForm)
  {
    && |d.title| >= 1
    && |d.address| >= 1
    && 1 <= Js.Length(d.description) <= 500
    && d.duration.Finite? && d.duration.value >= 0.0 && d.duration.IsInteger()
    && |d.delivery| >= 1
    && d.money.Finite? && d.money.value >= 0.0
  }

  function RequiredIssues(field: Field, s: string): (r: seq<Issue>)
    ensures forall x :: x in r ==> x.field == field && s == []
  {
    if |s| < 1 then [Issue(field, Required)] else []
  }

  function DescriptionIssues(s: string): (r: seq<Issue>)
    ensures forall x :: x in r ==> x.field == Description && !(1 <= Js.Length(s) <= 500)
  {
    RequiredIssues(Description, s) + (if Js.Length(s) > 500 then [Issue(Description, TooLong)] else [])
  }

  function DurationIssues(n: Js.Number): (r: seq<Issue>)
    ensures forall x :: x in r ==> x.field == Duration && !(n.Finite? && n.value >= 0.0 && n.IsInteger())
  {
    match n
    case NaN => [Issue(Duration, NotANumber)]
    case Finite(v) =>
      (if v < 0.0 then [Issue(Duration, Negative)] else [])
      + (if !n.IsInteger() then [Issue(Duration, NotWhole)] else [])
  }

  function MoneyIssues(n: Js.Number): (r: seq<Issue>)
    ensures forall x :: x in r ==> x.field == Money && !(n.Finite? && n.value >= 0.0)
  {
    match n
    case NaN => [Issue(Money, NotANumber)]
    case Finite(v) => if v < 0.0 then [Issue(Money, Negative)] else []
  }

  /** All issues, in the schema's field order. */
  function Issues(d: JobForm): seq<Issue>
  {
    RequiredIssues(Title, d.title) + RequiredIssues(Address, d.address)
    + DescriptionIssues(d.description) + DurationIssues(d.duration)
    + RequiredIssues(Delivery, d.delivery) + MoneyIssues(d.money)
  }

  /**
   * `jobSchema.safeParse(d)`: the parsed fields exactly when every
   * constraint holds, otherwise the non-empty list of issues.
   */
  function SafeParse(d: JobForm): (r: Result<JobFields, seq<Issue>>)
    ensures r.Ok? <==> Accepts(d)
    ensures r.Ok? ==> && r.value.title == d.title && r.value.address == d.address
                      && r.value.description == d.description && r.value.delivery == d.delivery
                      && r.value.duration as real == d.duration.value
                      && r.value.money == d.money.value && r.value.money >= 0.0
    ensures r.Err? ==> r.error != []
  {
    var issues := Issues(d);
    if issues == [] then
      Ok(JobFields(d.title, d.address, d.description, d.duration.value.Floor, d.delivery, d.money.value))
    else
      Err(issues)
  }

  /** Each issue names a field whose constraint the data breaks. */
  lemma IssuesAreViolations(d: JobForm, i: nat)
    requires i < |Issues(d)|
    ensures Issues(d)[i].field == Title ==> d.title == []
    ensures Issues(d)[i].field == Address ==> d.address == []
    ensures Issues(d)[i].field == Description ==> !(1 <= Js.Length(d.description) <= 500)
    ensures Issues(d)[i].field == Duration ==>
      !(d.duration.Finite? && d.duration.value >= 0.0 && d.duration.IsInteger())
    ensures Issues(d)[i].field == Delivery ==> d.delivery == []
    ensures Issues(d)[i].field == Money ==> !(d.money.Finite? && d.money.value >= 0.0)
  {
    var a, b, c := RequiredIssues(Title, d.title), RequiredIssues(Address, d.address), DescriptionIssues(d.description);
    var e, f, g := DurationIssues(d.duration), RequiredIssues(Delivery, d.delivery), MoneyIssues(d.money);
    var x := Issues(d)[i];
    assert x in a + b + c + e + f + g;
    if x in a {
    } else if x in b {
    } else if x in c {
    } else if x in e {
    } else if x in f {
    } else {
      assert x in g;
    }
  }

  /** Unlike `duration`, `money` takes fractional amounts: a form that is otherwise valid passes with any non-negative money. */
  lemma FractionalMoneyAccepted(d: JobForm, v: real)
    requires SafeParse(d).Ok? && v >= 0.0
    ensures SafeParse(d.(money := Js.Finite(v))).Ok?
    ensures SafeParse(d.(money := Js.Finite(v))).value.money == v
  {
  }

  /** A duration that is negative and fractional reports both failed checks, in declaration order. */
  lemma NegativeFractionalDuration(v: real)
    requires v < 0.0 && v.Floor as real != v
    ensures DurationIssues(Js.Finite(v)) == [Issue(Duration, Negative), Issue(Duration, NotWhole)]
  {
  }
}
