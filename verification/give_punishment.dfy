/**
 * The punishment form (the `GivePunishment` component; the punishment page
 * carries an identical copy of its handler). Applying a penalty runs three
 * gates in order: the schema, the user lookup and the balance check; only
 * when all three pass is `addPunishment` called, once, with the validated
 * values.
 */
module GivePunishment {
  import opened Wrappers
  import opened Records
  import opened PunishmentSchema
  import Js
  import Sorting
  import PunishmentApi

  const OverBalanceMessage: string := "Bøden kan ikke være højere end brugerens saldo"

  /** `penaltyAmount ? parseInt(penaltyAmount) : NaN`. */
  function AmountValue(text: string): (n: Js.Number)
    ensures text == [] ==> n == Js.NaN
    ensures n.Finite? ==> n.IsInteger()
  {
    Js.ParseIntIsInteger(text);
    if text == [] then Js.NaN else Js.ParseInt(text)
  }

  /** A typed amount with a fractional part is truncated: `"2.5"` becomes 2. */
  lemma AmountTruncatesFraction(n: nat, fraction: string)
    ensures AmountValue(Js.NatToString(n) + "." + fraction) == Js.Finite(n as real)
  {
    assert Js.NatToString(n) + "." + fraction == Js.NatToString(n) + ("." + fraction);
    Js.ParseIntOfNumeral(n, "." + fraction);
  }

  /**
   * The field-to-message record filled from the issues in order: one
   * message per field, a later message for a field replacing an earlier one.
   */
  function ErrorMap(issues: seq<Issue>): map<Field, string>
  {
    if issues == [] then map[]
    else
      var last := issues[|issues| - 1];
      ErrorMap(issues[..|issues| - 1])[last.field := last.message]
  }

  /** A field has a message exactly when some issue is about it. */
  lemma {:induction false} ErrorMapKeys(issues: seq<Issue>, f: Field)
    ensures f in ErrorMap(issues) <==> exists i :: 0 <= i < |issues| && issues[i].field == f
  {
    if issues != [] {
      var init := issues[..|issues| - 1];
      ErrorMapKeys(init, f);
      if f in ErrorMap(init) {
        var i :| 0 <= i < |init| && init[i].field == f;
        assert issues[i] == init[i];
      }
      if exists i :: 0 <= i < |issues| && issues[i].field == f {
        var i :| 0 <= i < |issues| && issues[i].field == f;
        if i < |init| {
          assert init[i] == issues[i];
        }
      }
    }
  }

  /** The message kept for a field is that of the last issue about it. */
  lemma {:induction false} ErrorMapLastWins(issues: seq<Issue>, i: nat)
    requires i < |issues|
    requires forall j :: i < j < |issues| ==> issues[j].field != issues[i].field
    ensures issues[i].field in ErrorMap(issues)
    ensures ErrorMap(issues)[issues[i].field] == issues[i].message
  {
    if i < |issues| - 1 {
      var init := issues[..|issues| - 1];
      assert init[i] == issues[i];
      forall j | i < j < |init| ensures init[j].field != init[i].field {
        assert init[j] == issues[j];
      }
      ErrorMapLastWins(init, i);
    }
  }

  /** The `forEach` over the issues that fills `fieldErrors`. */
  method CollectFieldErrors(issues: seq<Issue>) returns (fieldErrors: map<Field, string>)
    ensures fieldErrors == ErrorMap(issues)
  {
    fieldErrors := map[];
    var i := 0;
    while i < |issues|
      invariant 0 <= i <= |issues|
      invariant fieldErrors == ErrorMap(issues[..i])
    {
      assert issues[..i + 1][..i] == issues[..i];
      fieldErrors := fieldErrors[issues[i].field := issues[i].message];
      i := i + 1;
    }
    assert issues[..i] == issues;
  }

  /** `users.find(u => u.id === id)`: the first user with the id. */
  function FindUser(users: seq<User>, id: string): (r: Option<User>)
    ensures r.None? <==> forall i :: 0 <= i < |users| ==> users[i].id != id
    ensures r.Some? ==> exists i :: 0 <= i < |users| && users[i] == r.value
                          && r.value.id == id && forall j :: 0 <= j < i ==> users[j].id != id
  {
    if users == [] then None
    else if users[0].id == id then Some(users[0])
    else
      var r := FindUser(users[1..], id);
      assert forall i :: 1 <= i < |users| ==> users[i] == users[1..][i - 1];
      r
  }

  /** What the handler decides for the current form fields. */
  datatype Decision =
    | SchemaRejected(errors: map<Field, string>)
    | UserNotFound
    | OverBalance
    | Accepted(userId: string, amount: int, reason: string)

  /** The data the handler validates. */
  function FormOf(selectedUserId: string, penaltyAmount: string, penaltyReason: string): FormData
  {
    FormData(selectedUserId, AmountValue(penaltyAmount), penaltyReason)
  }

  /**
   * The three gates in order. The first that fails decides; `addPunishment`
   * is called exactly for `Accepted`, with the validated values, and an
   * amount equal to the balance is accepted.
   */
  function Gate(selectedUserId: string, penaltyAmount: string, penaltyReason: string, users: seq<User>): (r: Decision)
    ensures var d := FormOf(selectedUserId, penaltyAmount, penaltyReason);
      && (r.SchemaRejected? <==> !Accepts(d))
      && (r.SchemaRejected? ==> r.errors != map[] && r.errors == ErrorMap(Issues(d)))
      && (r.UserNotFound? <==> Accepts(d) && forall i :: 0 <= i < |users| ==> users[i].id != selectedUserId)
      && (r.OverBalance? <==> Accepts(d) && FindUser(users, selectedUserId).Some?
                              && d.penaltyAmount.value > Balance(FindUser(users, selectedUserId).value) as real)
      && (r.Accepted? ==> && r.userId == selectedUserId && r.reason == penaltyReason
                          && r.amount as real == d.penaltyAmount.value
                          && 1 <= r.amount <= 10000
                          && FindUser(users, selectedUserId).Some?
                          && r.amount <= Balance(FindUser(users, selectedUserId).value))
  {
    var d := FormOf(selectedUserId, penaltyAmount, penaltyReason);
    match SafeParse(d)
    case Err(issues) =>
      assert issues[0].field in ErrorMap(issues) by { ErrorMapKeys(issues, issues[0].field); }
      SchemaRejected(ErrorMap(issues))
    case Ok(p) =>
      match FindUser(users, p.userId)
      case None => UserNotFound
      case Some(u) => if p.amount > Balance(u) then OverBalance else Accepted(p.userId, p.amount, p.reason)
  }

  /** An empty amount field is rejected with the not-a-number message, whatever the other fields hold. */
  lemma EmptyAmountRejected(selectedUserId: string, penaltyReason: string, users: seq<User>)
    ensures Gate(selectedUserId, "", penaltyReason, users).SchemaRejected?
    ensures PenaltyAmount in Gate(selectedUserId, "", penaltyReason, users).errors
    ensures Gate(selectedUserId, "", penaltyReason, users).errors[PenaltyAmount] == NotANumber
  {
    var issues := Issues(FormOf(selectedUserId, "", penaltyReason));
    var a := UserIdIssues(selectedUserId);
    var i := |a|;
    assert issues[i] == Issue(PenaltyAmount, NotANumber);
    forall j | i < j < |issues| ensures issues[j].field != PenaltyAmount {
      assert issues[j] in ReasonIssues(penaltyReason);
    }
    ErrorMapLastWins(issues, i);
  }

  /** One choice in the user picker (`label` is a reserved word here, so the label is `caption`). */
  datatype UserOption = UserOption(value: string, caption: string)

  /** One option per user, in the users' order: value is the id, label the name. */
  function Options(users: seq<User>): (r: seq<UserOption>)
    ensures |r| == |users|
    ensures forall i :: 0 <= i < |users| ==> r[i].value == users[i].id && r[i].caption == users[i].name
  {
    if users == [] then [] else [UserOption(users[0].id, users[0].name)] + Options(users[1..])
  }

  /** Orders options by their labels with the collation `collate`. */
  function ByLabel(collate: (string, string) -> bool): (UserOption, UserOption) -> bool
  {
    (a: UserOption, b: UserOption) => collate(a.caption, b.caption)
  }

  /** `userOptions`: the options sorted by label. */
  function SortedOptions(users: seq<User>, collate: (string, string) -> bool): (r: seq<UserOption>)
    ensures multiset(r) == multiset(Options(users))
  {
    Sorting.Sort(Options(users), ByLabel(collate))
  }

  /** Under a consistent collation, the options are in ascending label order. */
  lemma SortedOptionsAscending(users: seq<User>, collate: (string, string) -> bool)
    requires Sorting.TotalPreorder(collate)
    ensures forall i, j :: 0 <= i < j < |SortedOptions(users, collate)| ==>
      collate(SortedOptions(users, collate)[i].caption, SortedOptions(users, collate)[j].caption)
  {
    var le := ByLabel(collate);
    assert Sorting.TotalPreorder(le) by {
      forall a: UserOption, b: UserOption ensures le(a, b) || le(b, a) {
        assert collate(a.caption, b.caption) || collate(b.caption, a.caption);
      }
      forall a: UserOption, b: UserOption, c: UserOption | le(a, b) && le(b, c) ensures le(a, c) {
        assert collate(a.caption, b.caption) && collate(b.caption, c.caption);
      }
    }
    Sorting.SortSorted(Options(users), le);
  }

  /** What one click of the apply button did: the decision and, if it was reached, the store call's result. */
  datatype Outcome = Outcome(decision: Decision, added: Option<Result<Punishment, PunishmentApi.StoreError>>)
  {
    /** The success toast, the form reset and `onPunishmentAdded`. */
    predicate Succeeded()
    {
      added.Some? && added.value.Ok?
    }
  }

  /** The form's state: the three input fields and the per-field messages. */
  class PenaltyForm {
    var selectedUserId: string
    var penaltyAmount: string
    var penaltyReason: string
    var errors: map<Field, string>

    constructor ()
      ensures selectedUserId == [] && penaltyAmount == [] && penaltyReason == [] && errors == map[]
    {
      selectedUserId, penaltyAmount, penaltyReason := [], [], [];
      errors := map[];
    }

    /** The inputs' change handlers. */
    method Edit(userId: string, amount: string, reason: string)
      modifies this
      ensures selectedUserId == userId && penaltyAmount == amount && penaltyReason == reason
      ensures errors == old(errors)
    {
      selectedUserId, penaltyAmount, penaltyReason := userId, amount, reason;
    }

    /**
     * `handleApplyPenalty` against `store`; the flags are the outcomes of the
     * store calls inside `addPunishment`.
     */
    method ApplyPenalty(users: seq<User>, store: PunishmentApi.Store, now: Instant,
                        readOk: bool, updateOk: bool, insertOk: bool, rollbackOk: bool)
      returns (o: Outcome)
      requires store.Valid()
      modifies this, store
      ensures store.Valid()
      ensures o.decision == Gate(old(selectedUserId), old(penaltyAmount), old(penaltyReason), users)
      // `addPunishment` is called exactly when every gate passes, with the validated values
      ensures o.added.Some? <==> o.decision.Accepted?
      ensures !o.decision.Accepted? ==>
        store.balances == old(store.balances) && store.punishments == old(store.punishments) && store.nextId == old(store.nextId)
      ensures o.Succeeded() ==>
        && o.added.value.value.user_id == o.decision.userId
        && o.added.value.value.amount == o.decision.amount
        && o.added.value.value.reason == o.decision.reason
        && store.punishments == old(store.punishments) + [o.added.value.value]
        && o.decision.userId in old(store.balances)
        && store.balances == old(store.balances)[o.decision.userId :=
             Some(old(store.balances)[o.decision.userId].GetOr(0) - o.decision.amount)]
      ensures o.decision.Accepted? ==>
        (o.Succeeded() <==> readOk && o.decision.userId in old(store.balances) && updateOk && insertOk)
      ensures o.decision.Accepted? && !o.Succeeded() ==> store.punishments == old(store.punishments)
      // the messages shown
      ensures o.decision.SchemaRejected? ==> errors == o.decision.errors
      ensures o.decision.OverBalance? ==> errors == map[PenaltyAmount := OverBalanceMessage]
      ensures o.decision.UserNotFound? || o.decision.Accepted? ==> errors == map[]
      // success resets the fields; otherwise they are kept
      ensures o.Succeeded() ==> selectedUserId == [] && penaltyAmount == [] && penaltyReason == []
      ensures !o.Succeeded() ==>
        selectedUserId == old(selectedUserId) && penaltyAmount == old(penaltyAmount) && penaltyReason == old(penaltyReason)
    {
      var decision := Validate(users);
      if decision.Accepted? {
        var added := Submit(store, decision.userId, decision.amount, decision.reason, now,
                            readOk, updateOk, insertOk, rollbackOk);
        o := Outcome(decision, Some(added));
      } else {
        o := Outcome(decision, None);
      }
    }

    /**
     * The three gates of `handleApplyPenalty` in order (schema, user
     * lookup, balance), setting the messages shown; the fields are kept.
     */
    method Validate(users: seq<User>) returns (decision: Decision)
      modifies this
      ensures decision == Gate(selectedUserId, penaltyAmount, penaltyReason, users)
      ensures selectedUserId == old(selectedUserId) && penaltyAmount == old(penaltyAmount)
      ensures penaltyReason == old(penaltyReason)
      ensures decision.SchemaRejected? ==> errors == decision.errors
      ensures decision.OverBalance? ==> errors == map[PenaltyAmount := OverBalanceMessage]
      ensures decision.UserNotFound? || decision.Accepted? ==> errors == map[]
    {
      errors := map[];
      var d := FormOf(selectedUserId, penaltyAmount, penaltyReason);
      var validation := SafeParse(d);
      if validation.Err? {
        var fieldErrors := CollectFieldErrors(validation.error);
        errors := fieldErrors;
        return SchemaRejected(fieldErrors);
      }
      var userId, amount, reason := validation.value.userId, validation.value.amount, validation.value.reason;
      var selectedUser := FindUser(users, userId);
      if selectedUser.None? {
        return UserNotFound;
      }
      if amount > Balance(selectedUser.value) {
        errors := map[PenaltyAmount := OverBalanceMessage];
        return OverBalance;
      }
      decision := Accepted(userId, amount, reason);
    }

    /** The accepted branch: `addPunishment`, and on success the fields are cleared. */
    method Submit(store: PunishmentApi.Store, userId: string, amount: int, reason: string, now: Instant,
                  readOk: bool, updateOk: bool, insertOk: bool, rollbackOk: bool)
      returns (added: Result<Punishment, PunishmentApi.StoreError>)
      requires store.Valid()
      modifies this, store
      ensures store.Valid()
      ensures added.Ok? <==> readOk && userId in old(store.balances) && updateOk && insertOk
      ensures added.Ok? ==>
        && added.value.user_id == userId && added.value.amount == amount && added.value.reason == reason
        && store.punishments == old(store.punishments) + [added.value]
        && store.balances == old(store.balances)[userId := Some(old(store.balances)[userId].GetOr(0) - amount)]
        && selectedUserId == [] && penaltyAmount == [] && penaltyReason == [] && errors == map[]
      ensures added.Err? ==>
        && store.punishments == old(store.punishments)
        && selectedUserId == old(selectedUserId) && penaltyAmount == old(penaltyAmount)
        && penaltyReason == old(penaltyReason) && errors == old(errors)
    {
      added := store.AddPunishment(userId, amount, reason, now, readOk, updateOk, insertOk, rollbackOk);
      if added.Ok? {
        selectedUserId, penaltyAmount, penaltyReason := [], [], [];
        errors := map[];
      }
    }
  }
}
