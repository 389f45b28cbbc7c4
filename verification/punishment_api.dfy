/**
 * The punishment calls on the store: `addPunishment` reads the user's
 * balance, writes the balance less the amount, inserts the punishment row and,
 * if the insert fails, writes the balance read back; `deletePunishment`
 * removes a row; the getters return rows newest first.
 *
 * The store is a class over the two tables involved. Each store call's success
 * or failure is a parameter, and `now` is the `created_at` the store stamps.
 */
module PunishmentApi {
  import opened Wrappers
  import opened Records
  import Sorting

  /** The store call that failed, which the function rethrows. */
  datatype StoreError = ReadFailed | UpdateFailed | InsertFailed | DeleteFailed | SelectFailed

  /**
   * The order `order('created_at', { ascending: false })` asks for: newer
   * rows first, rows without a timestamp (nulls, first in a descending order)
   * before all others.
   */
  predicate NewerOrSame(a: Punishment, b: Punishment)
  {
    match (a.created_at, b.created_at)
    case (None, _) => true
    case (Some(_), None) => false
    case (Some(x), Some(y)) => x >= y
  }

  lemma NewerOrSameIsPreorder()
    ensures Sorting.TotalPreorder(NewerOrSame)
  {
  }

  /** The rows with id `id`. */
  function WithId(rows: seq<Punishment>, id: nat): (r: seq<Punishment>)
    ensures forall p :: p in r <==> p in rows && p.id == id
  {
    if rows == [] then []
    else (if rows[0].id == id then [rows[0]] else []) + WithId(rows[1..], id)
  }

  /** The rows with id other than `id`, in their order. */
  function WithoutId(rows: seq<Punishment>, id: nat): (r: seq<Punishment>)
    ensures forall p :: p in r <==> p in rows && p.id != id
    ensures |r| <= |rows|
  {
    if rows == [] then []
    else (if rows[0].id != id then [rows[0]] else []) + WithoutId(rows[1..], id)
  }

  /** The rows of user `userId`, in their order. */
  function OfUser(rows: seq<Punishment>, userId: string): (r: seq<Punishment>)
    ensures forall p :: p in r <==> p in rows && p.user_id == userId
    ensures |r| <= |rows|
  {
    if rows == [] then []
    else (if rows[0].user_id == userId then [rows[0]] else []) + OfUser(rows[1..], userId)
  }

  class Store {
    /** `profiles.money` by user id; a balance may be null. */
    var balances: map<string, Option<int>>
    /** The `punishment` table, in insertion order. */
    var punishments: seq<Punishment>
    /** The id the next inserted punishment row gets. */
    var nextId: nat

    /** Row ids are below `nextId` and distinct. */
    ghost predicate Valid()
      reads this
    {
      && (forall p :: p in punishments ==> p.id < nextId)
      && DistinctIds(punishments)
    }

    constructor (balances: map<string, Option<int>>)
      ensures Valid()
      ensures this.balances == balances && punishments == [] && nextId == 0
    {
      this.balances := balances;
      punishments := [];
      nextId := 0;
    }

    /**
     * `addPunishment(userId, amount, reason)`. The outcome flags say whether
     * the balance read, the balance update, the row insert and the
     * compensating write succeed. The read fails as well when no profile has
     * the id (`.single()` finds no row).
     */
    method AddPunishment(userId: string, amount: int, reason: string, now: Instant,
                         readOk: bool, updateOk: bool, insertOk: bool, rollbackOk: bool)
      returns (r: Result<Punishment, StoreError>)
      requires Valid()
      modifies this
      ensures Valid()
      // the read fails: the error is thrown and nothing is written
      ensures !readOk || userId !in old(balances) ==>
        r == Err(ReadFailed) && balances == old(balances) && punishments == old(punishments) && nextId == old(nextId)
      // the update fails: the error is thrown and no row is inserted
      ensures readOk && userId in old(balances) && !updateOk ==>
        r == Err(UpdateFailed) && balances == old(balances) && punishments == old(punishments) && nextId == old(nextId)
      // success: the balance (null read as 0) drops by exactly `amount` and exactly one row is added and returned
      ensures readOk && userId in old(balances) && updateOk && insertOk ==>
        && r == Ok(Punishment(old(nextId), userId, amount, reason, Some(now)))
        && balances == old(balances)[userId := Some(old(balances)[userId].GetOr(0) - amount)]
        && punishments == old(punishments) + [r.value]
        && nextId == old(nextId) + 1
      // the insert fails: no row, and the balance read is written back (null becomes 0) if that write succeeds
      ensures readOk && userId in old(balances) && updateOk && !insertOk ==>
        && r == Err(InsertFailed)
        && punishments == old(punishments) && nextId == old(nextId)
        && balances == old(balances)[userId := Some(
             if rollbackOk then old(balances)[userId].GetOr(0) else old(balances)[userId].GetOr(0) - amount)]
    {
      if !readOk || userId !in balances {
        return Err(ReadFailed);
      }
      var currentMoney := balances[userId].GetOr(0);
      var newMoney := currentMoney - amount;
      if !updateOk {
        return Err(UpdateFailed);
      }
      balances := balances[userId := Some(newMoney)];
      if !insertOk {
        if rollbackOk {
          balances := balances[userId := Some(currentMoney)];
        }
        return Err(InsertFailed);
      }
      var row := Punishment(nextId, userId, amount, reason, Some(now));
      punishments := punishments + [row];
      nextId := nextId + 1;
      r := Ok(row);
    }

    /** `deletePunishment(id)`: removes the row and returns it; the balance is not restored. */
    method DeletePunishment(id: nat, ok: bool) returns (r: Result<seq<Punishment>, StoreError>)
      requires Valid()
      modifies this
      ensures Valid()
      ensures balances == old(balances) && nextId == old(nextId)
      ensures !ok ==> r == Err(DeleteFailed) && punishments == old(punishments)
      ensures ok ==> r == Ok(WithId(old(punishments), id)) && punishments == WithoutId(old(punishments), id)
    {
      if !ok {
        return Err(DeleteFailed);
      }
      r := Ok(WithId(punishments, id));
      WithoutIdKeepsDistinct(punishments, id);
      punishments := WithoutId(punishments, id);
    }

    /** `getPunishments()`: every row, newest first. */
    method GetPunishments(ok: bool) returns (r: Result<seq<Punishment>, StoreError>)
      ensures r.Ok? <==> ok
      ensures r.Ok? ==> multiset(r.value) == multiset(punishments)
      ensures r.Ok? ==> Sorting.Sorted(r.value, NewerOrSame)
    {
      if !ok {
        return Err(SelectFailed);
      }
      NewerOrSameIsPreorder();
      Sorting.SortSorted(punishments, NewerOrSame);
      r := Ok(Sorting.Sort(punishments, NewerOrSame));
    }

    /** `getUserPunishments(userId)`: the user's rows, newest first. */
    method GetUserPunishments(userId: string, ok: bool) returns (r: Result<seq<Punishment>, StoreError>)
      ensures r.Ok? <==> ok
      ensures r.Ok? ==> multiset(r.value) == multiset(OfUser(punishments, userId))
      ensures r.Ok? ==> forall p :: p in r.value ==> p in punishments && p.user_id == userId
      ensures r.Ok? ==> Sorting.Sorted(r.value, NewerOrSame)
    {
      if !ok {
        return Err(SelectFailed);
      }
      var mine := OfUser(punishments, userId);
      NewerOrSameIsPreorder();
      Sorting.SortSorted(mine, NewerOrSame);
      r := Ok(Sorting.Sort(mine, NewerOrSame));
      forall p | p in r.value ensures p in mine {
        assert p in multiset(r.value);
      }
    }

    /** `getLatest15Punishments()`: the first 15 rows of the newest-first order. */
    method GetLatest15Punishments(ok: bool) returns (r: Result<seq<Punishment>, StoreError>)
      ensures r.Ok? <==> ok
      ensures r.Ok? ==> |r.value| == if |punishments| < 15 then |punishments| else 15
      ensures r.Ok? ==> r.value <= Sorting.Sort(punishments, NewerOrSame)
      ensures r.Ok? ==> Sorting.Sorted(r.value, NewerOrSame)
    {
      if !ok {
        return Err(SelectFailed);
      }
      var all := Sorting.Sort(punishments, NewerOrSame);
      NewerOrSameIsPreorder();
      Sorting.SortSorted(punishments, NewerOrSame);
      r := Ok(if |all| < 15 then all else all[..15]);
    }
  }

  /** No two rows share an id. */
  ghost predicate DistinctIds(rows: seq<Punishment>)
  {
    forall i, j :: 0 <= i < j < |rows| ==> rows[i].id != rows[j].id
  }

  lemma {:induction false} WithoutIdKeepsDistinct(rows: seq<Punishment>, id: nat)
    requires DistinctIds(rows)
    ensures DistinctIds(WithoutId(rows, id))
  {
    if rows != [] {
      WithoutIdKeepsDistinct(rows[1..], id);
      var rest := WithoutId(rows[1..], id);
      forall p | p in rest ensures p.id != rows[0].id {
        var k :| 0 <= k < |rows[1..]| && rows[1..][k] == p;
        assert rows[k + 1] == p;
      }
      if rows[0].id != id {
        var r := [rows[0]] + rest;
        assert WithoutId(rows, id) == r;
        forall i, j | 0 <= i < j < |r| ensures r[i].id != r[j].id {
          assert r[j] == rest[j - 1];
          if i > 0 {
            assert r[i] == rest[i - 1];
            assert 0 <= i - 1 < j - 1 < |rest|;
          } else {
            assert r[j] in rest;
          }
        }
      } else {
        assert WithoutId(rows, id) == rest;
      }
    }
  }

  /** Nothing checks that the balance covers the amount: a direct call can overdraw it. */
  method OverdraftScenario() returns (balance: Option<int>)
    ensures balance == Some(-5)
  {
    var store := new Store(map["u" := Some(5)]);
    var r := store.AddPunishment("u", 10, "late", 0, true, true, true, true);
    balance := store.balances["u"];
  }

  /** A punishment of the whole balance leaves exactly 0; a null balance is read as 0 before the debit. */
  method WholeBalanceScenario() returns (whole: Option<int>, fromNull: Option<int>)
    ensures whole == Some(0)
    ensures fromNull == Some(-40)
  {
    var store := new Store(map["u" := Some(60), "v" := None]);
    var r1 := store.AddPunishment("u", 60, "late", 0, true, true, true, true);
    var r2 := store.AddPunishment("v", 40, "late", 1, true, true, true, true);
    whole, fromNull := store.balances["u"], store.balances["v"];
  }
}
