/**
 * What the statistics view computes from the approved jobs, the profiles and
 * the punishments, stated as functions: the time buckets, the running net
 * amount of each user per bucket, the line rows and the per-user bars.
 * Jobs and punishments both enter as events: whose the event is, its
 * amount and its bucket key, if it has one.
 */
module StatisticsSpec {
  import opened Wrappers
  import opened Records
  import Js
  import Sorting

  /** A job credit or a punishment debit as the aggregation sees it. */
  datatype Event = Event(owner: string, amount: int, key: Option<string>)

  /** A job's bucket: the `"HH:MM"` prefix of its delivery time, if that is not empty. */
  function JobKey(j: UserJob): (r: Option<string>)
    ensures r.Some? <==> j.delivery.Some? && j.delivery.value != []
    ensures r.Some? ==> Js.IsSlice(r.value, j.delivery.value, 5)
  {
    match j.delivery
    case None => None
    case Some(d) =>
      var k := Js.Slice(d, 5);
      if k == [] then None else Some(k)
  }

  /**
   * A punishment's bucket: the `"HH:MM"` local time `clock` gives for its
   * creation instant, if it has one.
   */
  function PunishmentKey(p: Punishment, clock: Instant -> string): (r: Option<string>)
    ensures r.Some? <==> p.created_at.Some? && clock(p.created_at.value) != []
  {
    match p.created_at
    case None => None
    case Some(t) => if clock(t) == [] then None else Some(clock(t))
  }

  function JobEvents(jobs: seq<UserJob>): (r: seq<Event>)
    ensures |r| == |jobs|
    ensures forall i :: 0 <= i < |jobs| ==>
      r[i].owner == jobs[i].user_id && r[i].amount == jobs[i].money && r[i].key == JobKey(jobs[i])
  {
    seq(|jobs|, i requires 0 <= i < |jobs| => Event(jobs[i].user_id, jobs[i].money, JobKey(jobs[i])))
  }

  function PunishmentEvents(punishments: seq<Punishment>, clock: Instant -> string): (r: seq<Event>)
    ensures |r| == |punishments|
    ensures forall i :: 0 <= i < |punishments| ==>
      r[i].owner == punishments[i].user_id && r[i].amount == punishments[i].amount
      && r[i].key == PunishmentKey(punishments[i], clock)
  {
    seq(|punishments|, i requires 0 <= i < |punishments| =>
      Event(punishments[i].user_id, punishments[i].amount, PunishmentKey(punishments[i], clock)))
  }

  /** What `e` adds to user `id`'s sums: an event with an empty owner is skipped. */
  function Share(e: Event, id: string): int
  {
    if e.owner == id && id != [] then e.amount else 0
  }

  /** The sum of the events of user `id`. */
  function Total(evs: seq<Event>, id: string): int
  {
    if evs == [] then 0 else Total(evs[..|evs| - 1], id) + Share(evs[|evs| - 1], id)
  }

  /** The number of events of user `id`. */
  function Count(evs: seq<Event>, id: string): (r: nat)
    ensures r <= |evs|
  {
    if evs == [] then 0
    else Count(evs[..|evs| - 1], id) + if evs[|evs| - 1].owner == id && id != [] then 1 else 0
  }

  /** Whether an event's key lies in `keys`. */
  predicate KeyIn(e: Event, keys: set<string>)
  {
    e.key.Some? && e.key.value in keys
  }

  /** The sum of the events of user `id` whose key lies in `keys`. */
  function TotalIn(evs: seq<Event>, keys: set<string>, id: string): int
  {
    if evs == [] then 0
    else TotalIn(evs[..|evs| - 1], keys, id) + if KeyIn(evs[|evs| - 1], keys) then Share(evs[|evs| - 1], id) else 0
  }

  /** The sum of the events of user `id` whose key is at most `bound`: the running total up to a bucket. */
  function TotalUpTo(evs: seq<Event>, bound: string, id: string): int
  {
    if evs == [] then 0
    else
      var e := evs[|evs| - 1];
      TotalUpTo(evs[..|evs| - 1], bound, id) + if e.key.Some? && Js.CodeUnitLe(e.key.value, bound) then Share(e, id) else 0
  }

  /** The events with key `t`, in order: one bucket of `jobsByTime` or `punishmentsByTime`. */
  function Bucket(evs: seq<Event>, t: string): (r: seq<Event>)
    ensures forall e :: e in r <==> e in evs && e.key == Some(t)
  {
    if evs == [] then []
    else Bucket(evs[..|evs| - 1], t) + if evs[|evs| - 1].key == Some(t) then [evs[|evs| - 1]] else []
  }

  lemma {:induction false} TotalOfBucket(evs: seq<Event>, t: string, id: string)
    ensures Total(Bucket(evs, t), id) == TotalIn(evs, {t}, id)
  {
    if evs != [] {
      var init, e := evs[..|evs| - 1], evs[|evs| - 1];
      TotalOfBucket(init, t, id);
      var b0 := Bucket(init, t);
      if e.key == Some(t) {
        var b := b0 + [e];
        assert Bucket(evs, t) == b;
        assert b[..|b| - 1] == b0;
        assert Total(b, id) == Total(b0, id) + Share(e, id);
      } else {
        assert Bucket(evs, t) == b0;
      }
    }
  }

  lemma {:induction false} TotalInNone(evs: seq<Event>, id: string)
    ensures TotalIn(evs, {}, id) == 0
  {
    if evs != [] {
      TotalInNone(evs[..|evs| - 1], id);
    }
  }

  /** Adding one more bucket key adds that bucket's events. */
  lemma {:induction false} TotalInSplit(evs: seq<Event>, keys: set<string>, t: string, id: string)
    requires t !in keys
    ensures TotalIn(evs, keys + {t}, id) == TotalIn(evs, keys, id) + TotalIn(evs, {t}, id)
  {
    if evs != [] {
      TotalInSplit(evs[..|evs| - 1], keys, t, id);
    }
  }

  /** When every event's key lies in `keys`, the bucketed sum is the whole sum. */
  lemma {:induction false} TotalInAll(evs: seq<Event>, keys: set<string>, id: string)
    requires forall i :: 0 <= i < |evs| ==> KeyIn(evs[i], keys)
    ensures TotalIn(evs, keys, id) == Total(evs, id)
  {
    if evs != [] {
      TotalInAll(evs[..|evs| - 1], keys, id);
    }
  }

  /** Summing over a set of keys is summing up to `bound` when the set holds exactly the keys up to `bound`. */
  lemma {:induction false} TotalInIsUpTo(evs: seq<Event>, keys: set<string>, bound: string, id: string)
    requires forall i :: 0 <= i < |evs| && evs[i].key.Some? ==>
      (evs[i].key.value in keys <==> Js.CodeUnitLe(evs[i].key.value, bound))
    ensures TotalIn(evs, keys, id) == TotalUpTo(evs, bound, id)
  {
    if evs != [] {
      TotalInIsUpTo(evs[..|evs| - 1], keys, bound, id);
    }
  }

  /** A user without events has nothing counted and nothing summed. */
  lemma {:induction false} NoEventsNoTotals(evs: seq<Event>, id: string)
    requires forall i :: 0 <= i < |evs| ==> evs[i].owner != id
    ensures Count(evs, id) == 0 && Total(evs, id) == 0
  {
    if evs != [] {
      NoEventsNoTotals(evs[..|evs| - 1], id);
    }
  }

  /** The keys of the events that have one, in order (`map` then `filter(Boolean)`). */
  function Keys(evs: seq<Event>): (r: seq<string>)
    ensures forall k :: k in r <==> exists i :: 0 <= i < |evs| && evs[i].key == Some(k)
  {
    if evs == [] then []
    else
      var e := evs[|evs| - 1];
      var r := Keys(evs[..|evs| - 1]) + if e.key.Some? then [e.key.value] else [];
      assert forall i :: 0 <= i < |evs| - 1 ==> evs[..|evs| - 1][i] == evs[i];
      r
  }

  /** `Array.from(new Set(s))`: each element once. */
  function Distinct(s: seq<string>): (r: seq<string>)
    ensures forall x :: x in r <==> x in s
    ensures Sorting.NoDuplicates(r)
  {
    if s == [] then []
    else
      var init := Distinct(s[..|s| - 1]);
      assert s == s[..|s| - 1] + [s[|s| - 1]];
      if s[|s| - 1] in init then init else init + [s[|s| - 1]]
  }

  /** Strictly ascending in the default string order. */
  ghost predicate Ascending(times: seq<string>)
  {
    forall i, j :: 0 <= i < j < |times| ==> Js.CodeUnitLe(times[i], times[j]) && times[i] != times[j]
  }

  lemma CodeUnitLeIsPreorder()
    ensures Sorting.TotalPreorder(Js.CodeUnitLe)
  {
    forall a, b ensures Js.CodeUnitLe(a, b) || Js.CodeUnitLe(b, a) {
      Js.CodeUnitLeTotal(a, b);
    }
    forall a, b, c | Js.CodeUnitLe(a, b) && Js.CodeUnitLe(b, c) ensures Js.CodeUnitLe(a, c) {
      Js.CodeUnitLeTransitive(a, b, c);
    }
  }

  /** `allTimes`: the distinct keys of jobs and punishments, sorted. */
  function AllTimes(jobEvs: seq<Event>, punEvs: seq<Event>): seq<string>
  {
    Sorting.Sort(Distinct(Keys(jobEvs) + Keys(punEvs)), Js.CodeUnitLe)
  }

  /** The buckets are exactly the keys of the events, strictly ascending. */
  lemma AllTimesSpec(jobEvs: seq<Event>, punEvs: seq<Event>)
    ensures forall k :: k in AllTimes(jobEvs, punEvs) <==>
      (exists i :: 0 <= i < |jobEvs| && jobEvs[i].key == Some(k)) || (exists i :: 0 <= i < |punEvs| && punEvs[i].key == Some(k))
    ensures Ascending(AllTimes(jobEvs, punEvs))
  {
    var d := Distinct(Keys(jobEvs) + Keys(punEvs));
    var r := AllTimes(jobEvs, punEvs);
    forall k ensures k in r <==> k in d {
      assert k in r <==> k in multiset(r);
    }
    CodeUnitLeIsPreorder();
    Sorting.SortSorted(d, Js.CodeUnitLe);
    Sorting.NoDuplicatesPermuted(d, r);
  }

  /** In strictly ascending buckets, the first `i + 1` buckets are exactly those at most bucket `i`. */
  lemma BucketPrefix(times: seq<string>, i: nat, k: string)
    requires Ascending(times) && i < |times| && k in times
    ensures k in times[..i + 1] <==> Js.CodeUnitLe(k, times[i])
  {
    var j :| 0 <= j < |times| && times[j] == k;
    var p := times[..i + 1];
    Js.CodeUnitLeTotal(k, k);
    if j <= i {
      assert p[j] == k;
    } else {
      if Js.CodeUnitLe(k, times[i]) {
        Js.CodeUnitLeAntisymmetric(k, times[i]);
      }
      forall m | 0 <= m < |p| ensures p[m] != k {
        assert times[m] != times[j];
      }
    }
  }

  /** The running net amount of user `id` over the buckets in `keys`: jobs earned minus punishments. */
  function Net(jobEvs: seq<Event>, punEvs: seq<Event>, keys: set<string>, id: string): int
  {
    TotalIn(jobEvs, keys, id) - TotalIn(punEvs, keys, id)
  }

  /** `cumulative` after the buckets in `keys`: one entry per profile id. */
  function Cumulative(ids: seq<string>, jobEvs: seq<Event>, punEvs: seq<Event>, keys: set<string>): (r: map<string, int>)
    ensures forall id :: id in r <==> id in ids
  {
    map id | id in ids :: Net(jobEvs, punEvs, keys, id)
  }

  /** A value of a line row: the bucket label or a user's amount. */
  datatype Cell = Label(text: string) | Amount(value: int)

  /**
   * The line row for bucket `t`: `delivery` is the bucket, then for each
   * profile id in order whose display name is known and not empty, the
   * name gets the running amount; a later profile overwrites an earlier
   * one with the same name.
   */
  function Row(t: string, ids: seq<string>, names: map<string, string>, cum: map<string, int>): (r: map<string, Cell>)
    ensures "delivery" in r
    ensures forall k :: k in r ==> k == "delivery" || exists i :: 0 <= i < |ids| && ids[i] in names && names[ids[i]] == k
  {
    if ids == [] then map["delivery" := Label(t)]
    else
      var init, id := ids[..|ids| - 1], ids[|ids| - 1];
      var r := Row(t, init, names, cum);
      assert forall i :: 0 <= i < |init| ==> init[i] == ids[i];
      if id in names && names[id] != [] && id in cum then r[names[id] := Amount(cum[id])] else r
  }

  /** The `delivery` entry is the bucket unless some user's display name is `delivery`. */
  lemma {:induction false} RowLabel(t: string, ids: seq<string>, names: map<string, string>, cum: map<string, int>)
    requires forall i :: 0 <= i < |ids| && ids[i] in names ==> names[ids[i]] != "delivery"
    ensures Row(t, ids, names, cum)["delivery"] == Label(t)
  {
    if ids != [] {
      RowLabel(t, ids[..|ids| - 1], names, cum);
    }
  }

  /** A name's value is the running amount of the last profile in order with that display name. */
  lemma {:induction false} RowValue(t: string, ids: seq<string>, names: map<string, string>, cum: map<string, int>, i: nat)
    requires i < |ids| && ids[i] in names && names[ids[i]] != [] && ids[i] in cum
    requires forall j :: i < j < |ids| && ids[j] in names ==> names[ids[j]] != names[ids[i]]
    ensures names[ids[i]] in Row(t, ids, names, cum)
    ensures Row(t, ids, names, cum)[names[ids[i]]] == Amount(cum[ids[i]])
  {
    if i < |ids| - 1 {
      var init := ids[..|ids| - 1];
      assert init[i] == ids[i];
      forall j | i < j < |init| && init[j] in names ensures names[init[j]] != names[init[i]] {
        assert init[j] == ids[j];
      }
      RowValue(t, init, names, cum, i);
    }
  }

  /** A chart series: the display name and the user id. */
  datatype ChartUser = ChartUser(name: string, id: string)

  /** Names longer than 15 code units are cut to `slice(0, 15)` and marked with `...`. */
  function DisplayName(name: string): (r: string)
    ensures Js.Length(name) <= 15 ==> r == name
    ensures Js.Length(name) > 15 ==> |r| >= 3 && r[|r| - 3..] == "..." && Js.IsSlice(r[..|r| - 3], name, 15)
    ensures r == [] <==> name == []
  {
    if Js.Length(name) > 15 then
      var cut := Js.Slice(name, 15);
      assert (cut + "...")[..|cut|] == cut;
      cut + "..."
    else name
  }

  /** Ten characters above U+FFFF are twenty code units: the name is cut after seven of them. */
  lemma WideNameIsCut()
    ensures DisplayName(seq(10, _ => '\U{1F600}')) == seq(7, _ => '\U{1F600}') + "..."
  {
    var name, seven := seq(10, _ => '\U{1F600}'), seq(7, _ => '\U{1F600}');
    Js.LengthOfAstral(name);
    Js.LengthOfAstral(seven);
    assert seven <= name;
    Js.SliceUnique(Js.Slice(name, 15), seven, name, 15);
  }

  function ChartUsersOf(profiles: seq<User>): (r: seq<ChartUser>)
    ensures |r| == |profiles|
    ensures forall i :: 0 <= i < |profiles| ==> r[i] == ChartUser(DisplayName(profiles[i].name), profiles[i].id)
  {
    seq(|profiles|, i requires 0 <= i < |profiles| => ChartUser(DisplayName(profiles[i].name), profiles[i].id))
  }

  function ByName(collate: (string, string) -> bool): (ChartUser, ChartUser) -> bool
  {
    (a: ChartUser, b: ChartUser) => collate(a.name, b.name)
  }

  /** `chartUsers`: one series per profile, sorted by display name. */
  function ChartUsers(profiles: seq<User>, collate: (string, string) -> bool): (r: seq<ChartUser>)
    ensures multiset(r) == multiset(ChartUsersOf(profiles))
  {
    Sorting.Sort(ChartUsersOf(profiles), ByName(collate))
  }

  lemma ChartUsersSorted(profiles: seq<User>, collate: (string, string) -> bool)
    requires Sorting.TotalPreorder(collate)
    ensures forall i, j :: 0 <= i < j < |ChartUsers(profiles, collate)| ==>
      collate(ChartUsers(profiles, collate)[i].name, ChartUsers(profiles, collate)[j].name)
  {
    var le := ByName(collate);
    assert Sorting.TotalPreorder(le) by {
      forall a: ChartUser, b: ChartUser ensures le(a, b) || le(b, a) {
        assert collate(a.name, b.name) || collate(b.name, a.name);
      }
      forall a: ChartUser, b: ChartUser, c: ChartUser | le(a, b) && le(b, c) ensures le(a, c) {
        assert collate(a.name, b.name) && collate(b.name, c.name);
      }
    }
    Sorting.SortSorted(ChartUsersOf(profiles), le);
  }

  /** `userMap`, `Object.fromEntries` over the series: id to display name, a later entry winning. */
  function NameMap(us: seq<ChartUser>): (r: map<string, string>)
    ensures forall id :: id in r <==> exists i :: 0 <= i < |us| && us[i].id == id
  {
    if us == [] then map[]
    else
      var init := us[..|us| - 1];
      assert forall i :: 0 <= i < |init| ==> init[i] == us[i];
      NameMap(init)[us[|us| - 1].id := us[|us| - 1].name]
  }

  /** When all series with an id agree on the name, the map holds that name. */
  lemma {:induction false} NameMapValue(us: seq<ChartUser>, x: ChartUser)
    requires x in us
    requires forall i :: 0 <= i < |us| && us[i].id == x.id ==> us[i].name == x.name
    ensures x.id in NameMap(us) && NameMap(us)[x.id] == x.name
  {
    var init := us[..|us| - 1];
    if us[|us| - 1] != x {
      assert x in init by {
        var k :| 0 <= k < |us| && us[k] == x;
        assert init[k] == x;
      }
      forall i | 0 <= i < |init| && init[i].id == x.id ensures init[i].name == x.name {
        assert init[i] == us[i];
      }
      NameMapValue(init, x);
    }
  }

  /** A bar: the display name, the job count, the money earned, the punishments and the net. */
  datatype Bar = Bar(name: string, jobs: nat, money: int, punishments: int, netEarnings: int)

  function BarOf(u: User, jobEvs: seq<Event>, punEvs: seq<Event>): (r: Bar)
    ensures r.netEarnings == r.money - r.punishments
  {
    Bar(DisplayName(u.name), Count(jobEvs, u.id), Total(jobEvs, u.id), Total(punEvs, u.id),
        Total(jobEvs, u.id) - Total(punEvs, u.id))
  }

  function BarsOf(profiles: seq<User>, jobEvs: seq<Event>, punEvs: seq<Event>): (r: seq<Bar>)
    ensures |r| == |profiles|
    ensures forall i :: 0 <= i < |profiles| ==> r[i] == BarOf(profiles[i], jobEvs, punEvs)
  {
    seq(|profiles|, i requires 0 <= i < |profiles| => BarOf(profiles[i], jobEvs, punEvs))
  }

  function BarByName(collate: (string, string) -> bool): (Bar, Bar) -> bool
  {
    (a: Bar, b: Bar) => collate(a.name, b.name)
  }

  /** `barData`: one bar per profile, sorted by display name. */
  function Bars(profiles: seq<User>, jobEvs: seq<Event>, punEvs: seq<Event>, collate: (string, string) -> bool): (r: seq<Bar>)
    ensures multiset(r) == multiset(BarsOf(profiles, jobEvs, punEvs))
  {
    Sorting.Sort(BarsOf(profiles, jobEvs, punEvs), BarByName(collate))
  }

  lemma BarsSorted(profiles: seq<User>, jobEvs: seq<Event>, punEvs: seq<Event>, collate: (string, string) -> bool)
    requires Sorting.TotalPreorder(collate)
    ensures forall i, j :: 0 <= i < j < |Bars(profiles, jobEvs, punEvs, collate)| ==>
      collate(Bars(profiles, jobEvs, punEvs, collate)[i].name, Bars(profiles, jobEvs, punEvs, collate)[j].name)
  {
    var le := BarByName(collate);
    assert Sorting.TotalPreorder(le) by {
      forall a: Bar, b: Bar ensures le(a, b) || le(b, a) {
        assert collate(a.name, b.name) || collate(b.name, a.name);
      }
      forall a: Bar, b: Bar, c: Bar | le(a, b) && le(b, c) ensures le(a, c) {
        assert collate(a.name, b.name) && collate(b.name, c.name);
      }
    }
    Sorting.SortSorted(BarsOf(profiles, jobEvs, punEvs), le);
  }
}
