/**
 * The punishment page: the users and punishments it loads, its copy of the
 * penalty form, and the balance list, which sorts the `users` state array
 * in place, richest first.
 */
module PunishmentPage {
  import opened Wrappers
  import opened Records
  import Sorting
  import PunishmentApi
  import GivePunishment
  import PunishmentSchema

  /** The balance comparator `(b.money || 0) - (a.money || 0)`: `a` may come first when it holds at least as much. */
  predicate RicherOrSame(a: User, b: User)
  {
    Balance(a) >= Balance(b)
  }

  lemma RicherOrSameIsPreorder()
    ensures Sorting.TotalPreorder(RicherOrSame)
  {
  }

  /** One line of the balance list: the name, the balance shown and its colour. */
  datatype BalanceLine = BalanceLine(name: string, amount: int, green: bool)

  /** The lines for `users` in their order; a balance is green exactly when it is not negative. */
  function BalanceLines(users: seq<User>): (r: seq<BalanceLine>)
    ensures |r| == |users|
    ensures forall i :: 0 <= i < |users| ==>
      r[i].name == users[i].name && r[i].amount == Balance(users[i]) && (r[i].green <==> r[i].amount >= 0)
  {
    if users == [] then []
    else [BalanceLine(users[0].name, Balance(users[0]), Balance(users[0]) >= 0)] + BalanceLines(users[1..])
  }

  /**
   * The page's `userOptions`: one option per user, in the current order of
   * the `users` array (this copy does not sort). That is load order until the
   * balance list renders and sorts the array in place, richest first after.
   */
  function UserOptions(users: seq<User>): (r: seq<GivePunishment.UserOption>)
    ensures |r| == |users|
    ensures forall i :: 0 <= i < |users| ==> r[i] == GivePunishment.UserOption(users[i].id, users[i].name)
  {
    GivePunishment.Options(users)
  }

  /** The page offers the same options as the form component, in the array's order rather than by label. */
  lemma UserOptionsMatchForm(users: seq<User>, collate: (string, string) -> bool)
    ensures multiset(UserOptions(users)) == multiset(GivePunishment.SortedOptions(users, collate))
  {
  }

  /**
   * Once the balance list has sorted `users` in place, the options list the
   * same users as before, richest first.
   */
  lemma OptionsAfterBalanceList(users: seq<User>)
    ensures var sorted := Sorting.Sort(users, RicherOrSame);
      && multiset(sorted) == multiset(users)
      && |UserOptions(sorted)| == |users|
      && (forall i :: 0 <= i < |sorted| ==> UserOptions(sorted)[i] == GivePunishment.UserOption(sorted[i].id, sorted[i].name))
      && (forall i, j :: 0 <= i < j < |sorted| ==> Balance(sorted[i]) >= Balance(sorted[j]))
  {
    RicherOrSameIsPreorder();
    Sorting.SortSorted(users, RicherOrSame);
  }

  /** A loaded list, or the empty list for a null result (`profiles || []`). */
  function OrEmpty<T>(loaded: Option<seq<T>>): (r: seq<T>)
    ensures loaded.None? ==> r == []
    ensures loaded.Some? ==> r == loaded.value
  {
    loaded.GetOr([])
  }

  class Page {
    var users: array<User>
    var punishments: seq<Punishment>
    var loading: bool
    var updating: bool
    const form: GivePunishment.PenaltyForm

    constructor ()
      ensures users.Length == 0 && punishments == [] && loading && !updating
      ensures fresh(form) && form.selectedUserId == [] && form.penaltyAmount == [] && form.penaltyReason == []
      ensures form.errors == map[]
    {
      users := new User[0];
      punishments := [];
      loading := true;
      updating := false;
      form := new GivePunishment.PenaltyForm();
    }

    /**
     * Stores what the two loads returned, a null result as the empty list;
     * `ok` is false when either load throws, and the lists are then kept.
     */
    method Store(profiles: Option<seq<User>>, rows: Option<seq<Punishment>>, ok: bool)
      modifies this
      ensures ok ==> fresh(users) && users[..] == OrEmpty(profiles) && punishments == OrEmpty(rows)
      ensures !ok ==> users == old(users) && punishments == old(punishments)
      ensures loading == old(loading) && updating == old(updating)
    {
      if ok {
        var loaded := OrEmpty(profiles);
        users := new User[|loaded|](i requires 0 <= i < |loaded| => loaded[i]);
        punishments := OrEmpty(rows);
      }
    }

    /** `initialLoad`: loads both lists and clears the loading flag whatever happens. */
    method InitialLoad(profiles: Option<seq<User>>, rows: Option<seq<Punishment>>, ok: bool)
      modifies this
      ensures ok ==> fresh(users) && users[..] == OrEmpty(profiles) && punishments == OrEmpty(rows)
      ensures !ok ==> users == old(users) && punishments == old(punishments)
      ensures !loading && updating == old(updating)
    {
      loading := true;
      Store(profiles, rows, ok);
      loading := false;
    }

    /** `updateData`: the same loads in the background; a failure is swallowed. */
    method UpdateData(profiles: Option<seq<User>>, rows: Option<seq<Punishment>>, ok: bool)
      modifies this
      ensures ok ==> fresh(users) && users[..] == OrEmpty(profiles) && punishments == OrEmpty(rows)
      ensures !ok ==> users == old(users) && punishments == old(punishments)
      ensures !updating && loading == old(loading)
    {
      updating := true;
      Store(profiles, rows, ok);
      updating := false;
    }

    /**
     * Renders the balance list: sorts the `users` state in place, richest
     * first, and lists every user once.
     */
    method BalanceList() returns (lines: seq<BalanceLine>)
      modifies users
      ensures users[..] == Sorting.Sort(old(users[..]), RicherOrSame)
      ensures multiset(users[..]) == multiset(old(users[..]))
      ensures lines == BalanceLines(users[..])
      ensures forall i, j :: 0 <= i < j < |lines| ==> lines[i].amount >= lines[j].amount
    {
      Sorting.SortInPlace(users, RicherOrSame);
      RicherOrSameIsPreorder();
      Sorting.SortSorted(old(users[..]), RicherOrSame);
      lines := BalanceLines(users[..]);
    }

    /**
     * The page's `handleApplyPenalty`: the form's gate over the page's
     * users, followed on success by `updateData` with the given load results.
     */
    method ApplyPenalty(store: PunishmentApi.Store, now: Instant,
                        readOk: bool, updateOk: bool, insertOk: bool, rollbackOk: bool,
                        profiles: Option<seq<User>>, rows: Option<seq<Punishment>>, refreshOk: bool)
      returns (o: GivePunishment.Outcome)
      requires store.Valid()
      modifies this, form, store
      ensures store.Valid()
      ensures o.decision == GivePunishment.Gate(old(form.selectedUserId), old(form.penaltyAmount),
                                               old(form.penaltyReason), old(users[..]))
      ensures o.added.Some? <==> o.decision.Accepted?
      ensures !o.decision.Accepted? ==>
        store.balances == old(store.balances) && store.punishments == old(store.punishments) && store.nextId == old(store.nextId)
      // an accepted penalty is stored with the validated values and debited from the user
      ensures o.Succeeded() ==>
        && o.added.value.value.user_id == o.decision.userId
        && o.added.value.value.amount == o.decision.amount
        && o.added.value.value.reason == o.decision.reason
        && store.punishments == old(store.punishments) + [o.added.value.value]
        && o.decision.userId in old(store.balances)
        && store.balances == old(store.balances)[o.decision.userId :=
             Some(old(store.balances)[o.decision.userId].GetOr(0) - o.decision.amount)]
      ensures o.decision.Accepted? ==>
        (o.Succeeded() <==> readOk && o.decision.userId in old(store.balances) && updateOk && insertOk)
      ensures o.decision.Accepted? && !o.Succeeded() ==> store.punishments == old(store.punishments)
      // the messages shown
      ensures o.decision.SchemaRejected? ==> form.errors == o.decision.errors
      ensures o.decision.OverBalance? ==> form.errors == map[PunishmentSchema.PenaltyAmount := GivePunishment.OverBalanceMessage]
      ensures o.decision.UserNotFound? || o.decision.Accepted? ==> form.errors == map[]
      // success resets the fields; otherwise they are kept
      ensures o.Succeeded() ==> form.selectedUserId == [] && form.penaltyAmount == [] && form.penaltyReason == []
      ensures !o.Succeeded() ==>
        && form.selectedUserId == old(form.selectedUserId)
        && form.penaltyAmount == old(form.penaltyAmount)
        && form.penaltyReason == old(form.penaltyReason)
      // only a successful call refreshes the lists
      ensures o.Succeeded() && refreshOk ==> users[..] == OrEmpty(profiles) && punishments == OrEmpty(rows)
      ensures !(o.Succeeded() && refreshOk) ==> users == old(users) && punishments == old(punishments)
    {
      o := form.ApplyPenalty(users[..], store, now, readOk, updateOk, insertOk, rollbackOk);
      if o.Succeeded() {
        UpdateData(profiles, rows, refreshOk);
      }
    }
  }
}
