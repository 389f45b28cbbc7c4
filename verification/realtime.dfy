/**
 * The realtime registry (`RealtimeProvider`): for each table name, the set
 * of callbacks to run when that table changes. Subscribing adds a callback
 * to the sets of the listed tables; the returned unsubscribe removes it
 * again and drops a table whose set becomes empty.
 */
module Realtime {
  import Sorting

  /** A subscriber callback, identified as JavaScript identifies functions: by reference. */
  datatype Callback = Callback(ref: nat)

  /** The set of callbacks of `table`, or none. */
  function CallbacksOf(m: map<string, set<Callback>>, table: string): set<Callback>
  {
    if table in m then m[table] else {}
  }

  /** No table is kept with an empty set of callbacks. */
  ghost predicate NoEmptySets(m: map<string, set<Callback>>)
  {
    forall t :: t in m ==> m[t] != {}
  }

  /** The registry after `subscribeTo(tables, cb)`. */
  function Subscribed(m: map<string, set<Callback>>, tables: seq<string>, cb: Callback): (r: map<string, set<Callback>>)
    // every listed table now holds cb, a missing set having been created
    ensures forall t :: t in tables ==> t in r && r[t] == CallbacksOf(m, t) + {cb}
    // tables not listed keep their sets
    ensures forall t :: t !in tables ==> (t in r <==> t in m) && (t in m ==> r[t] == m[t])
  {
    map t | t in m.Keys + (set u | u in tables) :: CallbacksOf(m, t) + if t in tables then {cb} else {}
  }

  /** The registry after the unsubscribe that `subscribeTo(tables, cb)` returned. */
  function Unsubscribed(m: map<string, set<Callback>>, tables: seq<string>, cb: Callback): (r: map<string, set<Callback>>)
    // listed tables lose cb, and are dropped once nothing is left
    ensures forall t :: t in tables ==> (t in r <==> t in m && m[t] - {cb} != {}) && (t in r ==> r[t] == m[t] - {cb})
    // tables not listed keep their sets
    ensures forall t :: t !in tables ==> (t in r <==> t in m) && (t in m ==> r[t] == m[t])
  {
    map t | t in m && (t !in tables || m[t] - {cb} != {}) :: if t in tables then m[t] - {cb} else m[t]
  }

  /** Adding `cb` to one more table: its set, created if missing, gains `cb`. */
  lemma SubscribeStep(m: map<string, set<Callback>>, tables: seq<string>, i: nat, cb: Callback)
    requires i < |tables|
    ensures var s := Subscribed(m, tables[..i], cb);
      Subscribed(m, tables[..i + 1], cb) == s[tables[i] := CallbacksOf(s, tables[i]) + {cb}]
  {
    var table := tables[i];
    assert tables[..i + 1] == tables[..i] + [table];
    var s := Subscribed(m, tables[..i], cb);
    var r := Subscribed(m, tables[..i + 1], cb);
    var q := s[table := CallbacksOf(s, table) + {cb}];
    forall t ensures (t in r <==> t in q) && (t in r ==> r[t] == q[t]) {
      if t == table {
      } else if t in tables[..i] {
        assert t in tables[..i + 1];
      } else {
        assert t !in tables[..i + 1];
      }
    }
  }

  /** Removing `cb` from one more table: its set loses `cb`, and the table goes if the set is then empty. */
  lemma UnsubscribeStep(m: map<string, set<Callback>>, tables: seq<string>, i: nat, cb: Callback)
    requires i < |tables|
    ensures var s, table := Unsubscribed(m, tables[..i], cb), tables[i];
      Unsubscribed(m, tables[..i + 1], cb)
        == if table !in s then s
           else if s[table] - {cb} == {} then s - {table}
           else s[table := s[table] - {cb}]
  {
    var table := tables[i];
    assert tables[..i + 1] == tables[..i] + [table];
    var s := Unsubscribed(m, tables[..i], cb);
    var r := Unsubscribed(m, tables[..i + 1], cb);
    if table in tables[..i] {
      assert forall t :: t in tables[..i + 1] <==> t in tables[..i];
      assert r == s;
      assert table in s ==> s[table] - {cb} == s[table];
    } else if table !in s {
      assert r == s;
    } else if s[table] - {cb} == {} {
      assert r == s - {table};
    } else {
      assert r == s[table := s[table] - {cb}];
    }
  }

  lemma SubscribedKeepsNoEmptySets(m: map<string, set<Callback>>, tables: seq<string>, cb: Callback)
    requires NoEmptySets(m)
    ensures NoEmptySets(Subscribed(m, tables, cb))
  {
  }

  lemma UnsubscribedKeepsNoEmptySets(m: map<string, set<Callback>>, tables: seq<string>, cb: Callback)
    requires NoEmptySets(m)
    ensures NoEmptySets(Unsubscribed(m, tables, cb))
  {
  }

  /** Subscribing a callback again changes nothing: the sets hold it once. */
  lemma SubscribeIdempotent(m: map<string, set<Callback>>, tables: seq<string>, cb: Callback)
    ensures Subscribed(Subscribed(m, tables, cb), tables, cb) == Subscribed(m, tables, cb)
  {
  }

  /** Unsubscribing from tables that do not hold the callback changes nothing. */
  lemma UnsubscribeAbsent(m: map<string, set<Callback>>, tables: seq<string>, cb: Callback)
    requires NoEmptySets(m)
    requires forall t :: t in tables ==> cb !in CallbacksOf(m, t)
    ensures Unsubscribed(m, tables, cb) == m
  {
    forall t | t in tables && t in m ensures m[t] - {cb} == m[t] && m[t] - {cb} != {} {
    }
  }

  /** Unsubscribing undoes subscribing, when the callback was not registered for those tables before. */
  lemma SubscribeRoundTrip(m: map<string, set<Callback>>, tables: seq<string>, cb: Callback)
    requires NoEmptySets(m)
    requires forall t :: t in tables ==> cb !in CallbacksOf(m, t)
    ensures Unsubscribed(Subscribed(m, tables, cb), tables, cb) == m
  {
    var s := Subscribed(m, tables, cb);
    var r := Unsubscribed(s, tables, cb);
    forall t | t in tables ensures (t in r <==> t in m) && (t in m ==> r[t] == m[t]) {
      assert s[t] - {cb} == CallbacksOf(m, t);
    }
  }

  class Registry {
    var subscribers: map<string, set<Callback>>

    ghost predicate Valid()
      reads this
    {
      NoEmptySets(subscribers)
    }

    constructor ()
      ensures Valid() && subscribers == map[]
    {
      subscribers := map[];
    }

    /** `subscribeTo(tables, cb)`: a copy of the map gets the listed tables one by one, creating a missing set first. */
    method SubscribeTo(tables: seq<string>, cb: Callback)
      requires Valid()
      modifies this
      ensures Valid()
      ensures subscribers == Subscribed(old(subscribers), tables, cb)
    {
      var start := subscribers;
      var next := start;
      var i := 0;
      while i < |tables|
        invariant 0 <= i <= |tables|
        invariant next == Subscribed(start, tables[..i], cb)
      {
        var table := tables[i];
        SubscribeStep(start, tables, i, cb);
        ghost var before := next;
        if table !in next {
          next := next[table := {}];
        }
        next := next[table := next[table] + {cb}];
        assert next == before[table := CallbacksOf(before, table) + {cb}];
        i := i + 1;
      }
      assert tables[..i] == tables;
      SubscribedKeepsNoEmptySets(start, tables, cb);
      subscribers := next;
    }

    /** The unsubscribe returned by `subscribeTo(tables, cb)`: a copy of the map loses `cb` table by table. */
    method Unsubscribe(tables: seq<string>, cb: Callback)
      requires Valid()
      modifies this
      ensures Valid()
      ensures subscribers == Unsubscribed(old(subscribers), tables, cb)
    {
      var start := subscribers;
      var next := start;
      var i := 0;
      while i < |tables|
        invariant 0 <= i <= |tables|
        invariant next == Unsubscribed(start, tables[..i], cb)
      {
        var table := tables[i];
        UnsubscribeStep(start, tables, i, cb);
        if table in next {
          var callbacks := next[table] - {cb};
          assert |callbacks| == 0 <==> callbacks == {};
          next := next[table := callbacks];
          if |callbacks| == 0 {
            next := next - {table};
          }
        }
        i := i + 1;
      }
      assert tables[..i] == tables;
      UnsubscribedKeepsNoEmptySets(start, tables, cb);
      subscribers := next;
    }

    /** `handleTableChange(table)`: runs each callback of the table once, in some order, and no other. */
    method HandleTableChange(table: string) returns (invoked: seq<Callback>)
      ensures Sorting.NoDuplicates(invoked)
      ensures forall c :: c in invoked <==> c in CallbacksOf(subscribers, table)
    {
      invoked := [];
      if table in subscribers {
        var rest := subscribers[table];
        while rest != {}
          invariant forall c :: c in invoked <==> c in subscribers[table] && c !in rest
          invariant rest <= subscribers[table]
          invariant Sorting.NoDuplicates(invoked)
          decreases |rest|
        {
          var callback :| callback in rest;
          invoked := invoked + [callback];
          rest := rest - {callback};
        }
      }
    }
  }
}
