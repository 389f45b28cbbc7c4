/**
 * `useStatisticsData`'s `processedData`: the loops that group the events by
 * bucket, carry each user's running net amount across the buckets, and
 * count and sum per user, each proved against the functions of
 * `StatisticsSpec`.
 */
module Statistics {
  import opened Wrappers
  import opened Records
  import opened StatisticsSpec
  import Js
  import Sorting

  /** The three lists the view loads. */
  datatype RawData = RawData(jobs: seq<UserJob>, profiles: seq<User>, punishments: seq<Punishment>)

  /** The keys among the first `n` buckets. */
  function KeysBefore(times: seq<string>, n: nat): (r: set<string>)
    requires n <= |times|
    ensures forall k :: k in r <==> k in times[..n]
  {
    set k | k in times[..n]
  }

  /** The profile ids, in order. */
  function Ids(profiles: seq<User>): (r: seq<string>)
    ensures |r| == |profiles|
    ensures forall i :: 0 <= i < |profiles| ==> r[i] == profiles[i].id
  {
    seq(|profiles|, i requires 0 <= i < |profiles| => profiles[i].id)
  }

  /** `record[key] || 0`. */
  function OrZero(m: map<string, int>, key: string): int
  {
    if key in m then m[key] else 0
  }

  /** `jobsByTime` / `punishmentsByTime`: an empty bucket per time, then each event pushed into the bucket of its key. */
  method GroupByTime(evs: seq<Event>, times: seq<string>) returns (groups: map<string, seq<Event>>)
    ensures forall t :: t in groups <==> t in times
    ensures forall t :: t in groups ==> groups[t] == Bucket(evs, t)
  {
    groups := map[];
    var i := 0;
    while i < |times|
      invariant 0 <= i <= |times|
      invariant forall t :: t in groups <==> t in times[..i]
      invariant forall t :: t in groups ==> groups[t] == []
    {
      assert times[..i + 1] == times[..i] + [times[i]];
      groups := groups[times[i] := []];
      i := i + 1;
    }
    assert times[..i] == times;
    var k := 0;
    assert evs[..0] == [];
    while k < |evs|
      invariant 0 <= k <= |evs|
      invariant forall t :: t in groups <==> t in times
      invariant forall t :: t in groups ==> groups[t] == Bucket(evs[..k], t)
    {
      var e := evs[k];
      assert evs[..k + 1][..k] == evs[..k];
      if e.key.Some? && e.key.value in groups {
        groups := groups[e.key.value := groups[e.key.value] + [e]];
      }
      k := k + 1;
    }
    assert evs[..k] == evs;
  }

  /**
   * Adds each event's amount to its owner's running amount, or subtracts it
   * when `subtract`; events with an empty owner, or an owner that is not a
   * profile, change nothing the view reads.
   */
  method Accumulate(cum: map<string, int>, group: seq<Event>, subtract: bool) returns (r: map<string, int>)
    ensures r.Keys == cum.Keys
    ensures forall id :: id in r ==> r[id] == cum[id] + if subtract then -Total(group, id) else Total(group, id)
  {
    r := cum;
    var j := 0;
    assert group[..0] == [];
    while j < |group|
      invariant 0 <= j <= |group|
      invariant r.Keys == cum.Keys
      invariant forall id :: id in r ==> r[id] == cum[id] + if subtract then -Total(group[..j], id) else Total(group[..j], id)
    {
      var e := group[j];
      assert group[..j + 1][..j] == group[..j];
      if e.owner != [] && e.owner in r {
        r := r[e.owner := if subtract then r[e.owner] - e.amount else r[e.owner] + e.amount];
      }
      j := j + 1;
    }
    assert group[..j] == group;
  }

  /** One line row: the bucket, then each profile's running amount under its display name. */
  method BuildRow(t: string, ids: seq<string>, names: map<string, string>, cum: map<string, int>)
    returns (row: map<string, Cell>)
    ensures row == Row(t, ids, names, cum)
  {
    row := map["delivery" := Label(t)];
    var i := 0;
    while i < |ids|
      invariant 0 <= i <= |ids|
      invariant row == Row(t, ids[..i], names, cum)
    {
      var userId := ids[i];
      assert ids[..i + 1][..i] == ids[..i];
      if userId in names && names[userId] != [] && userId in cum {
        row := row[names[userId] := Amount(cum[userId])];
      }
      i := i + 1;
    }
    assert ids[..i] == ids;
  }

  /** The first `i + 1` buckets are the first `i` and bucket `i`, which is not among them. */
  lemma KeysBeforeNext(times: seq<string>, i: nat)
    requires Sorting.NoDuplicates(times) && i < |times|
    ensures times[i] !in KeysBefore(times, i)
    ensures KeysBefore(times, i + 1) == KeysBefore(times, i) + {times[i]}
  {
    var p := times[..i];
    forall m | 0 <= m < |p| ensures p[m] != times[i] {
      assert times[m] != times[i];
    }
    assert times[..i + 1] == p + [times[i]];
  }

  /** Moving past one more bucket adds its jobs and subtracts its punishments. */
  lemma CumulativeStep(ids: seq<string>, jobEvs: seq<Event>, punEvs: seq<Event>, before: set<string>, t: string,
                       cum: map<string, int>, after: map<string, int>)
    requires t !in before
    requires cum == Cumulative(ids, jobEvs, punEvs, before)
    requires after.Keys == cum.Keys
    requires forall id :: id in after ==> after[id] == cum[id] + Total(Bucket(jobEvs, t), id) - Total(Bucket(punEvs, t), id)
    ensures after == Cumulative(ids, jobEvs, punEvs, before + {t})
  {
    forall id | id in ids ensures after[id] == Net(jobEvs, punEvs, before + {t}, id) {
      TotalOfBucket(jobEvs, t, id);
      TotalOfBucket(punEvs, t, id);
      TotalInSplit(jobEvs, before, t, id);
      TotalInSplit(punEvs, before, t, id);
    }
  }

  /** `userIds.forEach(id => cumulative[id] = 0)`. */
  method ZeroCumulative(ids: seq<string>, ghost jobEvs: seq<Event>, ghost punEvs: seq<Event>) returns (cumulative: map<string, int>)
    ensures cumulative == Cumulative(ids, jobEvs, punEvs, {})
  {
    cumulative := map[];
    var n := 0;
    while n < |ids|
      invariant 0 <= n <= |ids|
      invariant forall id :: id in cumulative <==> id in ids[..n]
      invariant forall id :: id in cumulative ==> cumulative[id] == 0
    {
      assert ids[..n + 1] == ids[..n] + [ids[n]];
      cumulative := cumulative[ids[n] := 0];
      n := n + 1;
    }
    assert ids[..n] == ids;
    forall id | id in ids ensures Net(jobEvs, punEvs, {}, id) == 0 {
      TotalInNone(jobEvs, id);
      TotalInNone(punEvs, id);
    }
  }

  /** One bucket's turn: its jobs are added, then its punishments subtracted. */
  method AddBucket(cum: map<string, int>, jobs: seq<Event>, punishments: seq<Event>) returns (after: map<string, int>)
    ensures after.Keys == cum.Keys
    ensures forall id :: id in after ==> after[id] == cum[id] + Total(jobs, id) - Total(punishments, id)
  {
    var withJobs := Accumulate(cum, jobs, false);
    after := Accumulate(withJobs, punishments, true);
  }

  /**
   * `lineChartData`: for each bucket in order, add its jobs, subtract its
   * punishments, and record every profile's running amount.
   */
  method LineChart(jobEvs: seq<Event>, punEvs: seq<Event>, ids: seq<string>, names: map<string, string>, times: seq<string>)
    returns (rows: seq<map<string, Cell>>)
    requires Sorting.NoDuplicates(times)
    ensures |rows| == |times|
    ensures forall i :: 0 <= i < |times| ==>
      rows[i] == Row(times[i], ids, names, Cumulative(ids, jobEvs, punEvs, KeysBefore(times, i + 1)))
  {
    var jobsByTime := GroupByTime(jobEvs, times);
    var punishmentsByTime := GroupByTime(punEvs, times);
    var cumulative := ZeroCumulative(ids, jobEvs, punEvs);
    assert KeysBefore(times, 0) == {};
    rows := [];
    var i := 0;
    while i < |times|
      invariant 0 <= i <= |times|
      invariant cumulative == Cumulative(ids, jobEvs, punEvs, KeysBefore(times, i))
      invariant |rows| == i
      invariant forall k :: 0 <= k < i ==>
        rows[k] == Row(times[k], ids, names, Cumulative(ids, jobEvs, punEvs, KeysBefore(times, k + 1)))
    {
      var t := times[i];
      KeysBeforeNext(times, i);
      var after := AddBucket(cumulative, jobsByTime[t], punishmentsByTime[t]);
      CumulativeStep(ids, jobEvs, punEvs, KeysBefore(times, i), t, cumulative, after);
      cumulative := after;
      var row := BuildRow(t, ids, names, cumulative);
      rows := rows + [row];
      i := i + 1;
    }
  }

  /** `jobCounts` and `moneyEarned`: one pass over the jobs, skipping those without a user. */
  method CountJobs(jobEvs: seq<Event>) returns (jobCounts: map<string, int>, moneyEarned: map<string, int>)
    ensures forall id :: OrZero(jobCounts, id) == Count(jobEvs, id)
    ensures forall id :: OrZero(moneyEarned, id) == Total(jobEvs, id)
  {
    jobCounts, moneyEarned := map[], map[];
    var k := 0;
    assert jobEvs[..0] == [];
    while k < |jobEvs|
      invariant 0 <= k <= |jobEvs|
      invariant forall id :: OrZero(jobCounts, id) == Count(jobEvs[..k], id)
      invariant forall id :: OrZero(moneyEarned, id) == Total(jobEvs[..k], id)
    {
      var uid := jobEvs[k].owner;
      assert jobEvs[..k + 1][..k] == jobEvs[..k];
      if uid != [] {
        jobCounts := jobCounts[uid := OrZero(jobCounts, uid) + 1];
        moneyEarned := moneyEarned[uid := OrZero(moneyEarned, uid) + jobEvs[k].amount];
      }
      k := k + 1;
    }
    assert jobEvs[..k] == jobEvs;
  }

  /** `punishmentAmounts`: one pass over the punishments, skipping those without a user. */
  method SumPunishments(punEvs: seq<Event>) returns (punishmentAmounts: map<string, int>)
    ensures forall id :: OrZero(punishmentAmounts, id) == Total(punEvs, id)
  {
    punishmentAmounts := map[];
    var k := 0;
    assert punEvs[..0] == [];
    while k < |punEvs|
      invariant 0 <= k <= |punEvs|
      invariant forall id :: OrZero(punishmentAmounts, id) == Total(punEvs[..k], id)
    {
      var uid := punEvs[k].owner;
      assert punEvs[..k + 1][..k] == punEvs[..k];
      if uid != [] {
        punishmentAmounts := punishmentAmounts[uid := OrZero(punishmentAmounts, uid) + punEvs[k].amount];
      }
      k := k + 1;
    }
    assert punEvs[..k] == punEvs;
  }

  /** The `profiles.map` step of `barData`: one row per profile from the per-user counts and sums. */
  method BarRows(profiles: seq<User>, jobCounts: map<string, int>, moneyEarned: map<string, int>,
                 punishmentAmounts: map<string, int>, ghost jobEvs: seq<Event>, ghost punEvs: seq<Event>)
    returns (rows: seq<Bar>)
    requires forall id :: OrZero(jobCounts, id) == Count(jobEvs, id)
    requires forall id :: OrZero(moneyEarned, id) == Total(jobEvs, id)
    requires forall id :: OrZero(punishmentAmounts, id) == Total(punEvs, id)
    ensures rows == BarsOf(profiles, jobEvs, punEvs)
  {
    rows := [];
    var i := 0;
    while i < |profiles|
      invariant 0 <= i <= |profiles|
      invariant |rows| == i
      invariant forall j :: 0 <= j < i ==> rows[j] == BarOf(profiles[j], jobEvs, punEvs)
    {
      var user := profiles[i];
      var money, punished := OrZero(moneyEarned, user.id), OrZero(punishmentAmounts, user.id);
      var count: nat := OrZero(jobCounts, user.id);
      rows := rows + [Bar(DisplayName(user.name), count, money, punished, money - punished)];
      i := i + 1;
    }
  }

  /** `barData`: counts and sums per user, one bar per profile, sorted by name. */
  method BarData(jobEvs: seq<Event>, punEvs: seq<Event>, profiles: seq<User>, collate: (string, string) -> bool)
    returns (bars: seq<Bar>)
    ensures bars == Bars(profiles, jobEvs, punEvs, collate)
  {
    var jobCounts, moneyEarned := CountJobs(jobEvs);
    var punishmentAmounts := SumPunishments(punEvs);
    var rows := BarRows(profiles, jobCounts, moneyEarned, punishmentAmounts, jobEvs, punEvs);
    var a := new Bar[|rows|](j requires 0 <= j < |rows| => rows[j]);
    assert a[..] == rows;
    Sorting.SortInPlace(a, BarByName(collate));
    bars := a[..];
  }

  /**
   * `processedData`: nothing loaded gives three empty lists; otherwise the
   * series, the line rows over the buckets and the bars.
   */
  method ProcessedData(raw: Option<RawData>, clock: Instant -> string, collate: (string, string) -> bool)
    returns (lineChartData: seq<map<string, Cell>>, barData: seq<Bar>, chartUsers: seq<ChartUser>)
    ensures raw.None? ==> lineChartData == [] && barData == [] && chartUsers == []
    ensures raw.Some? ==>
      var jobEvs, punEvs := JobEvents(raw.value.jobs), PunishmentEvents(raw.value.punishments, clock);
      var times := AllTimes(jobEvs, punEvs);
      && chartUsers == ChartUsers(raw.value.profiles, collate)
      && |lineChartData| == |times|
      && (forall i :: 0 <= i < |times| ==>
            lineChartData[i] == Row(times[i], Ids(raw.value.profiles), NameMap(chartUsers),
                                    Cumulative(Ids(raw.value.profiles), jobEvs, punEvs, KeysBefore(times, i + 1))))
      && barData == Bars(raw.value.profiles, jobEvs, punEvs, collate)
  {
    if raw.None? {
      return [], [], [];
    }
    var jobs, profiles, punishments := raw.value.jobs, raw.value.profiles, raw.value.punishments;
    var series := ChartUsersOf(profiles);
    var a := new ChartUser[|series|](j requires 0 <= j < |series| => series[j]);
    assert a[..] == series;
    Sorting.SortInPlace(a, ByName(collate));
    chartUsers := a[..];
    var userMap := NameMap(chartUsers);
    var jobEvs, punEvs := JobEvents(jobs), PunishmentEvents(punishments, clock);
    var allTimes := AllTimes(jobEvs, punEvs);
    AllTimesSpec(jobEvs, punEvs);
    lineChartData := LineChart(jobEvs, punEvs, Ids(profiles), userMap, allTimes);
    barData := BarData(jobEvs, punEvs, profiles, collate);
  }

  /**
   * Each row holds, for every profile, the sum of that user's job money with
   * a key at most the row's bucket, minus the sum of their punishments with
   * a key at most the bucket.
   */
  lemma RunningTotals(jobEvs: seq<Event>, punEvs: seq<Event>, ids: seq<string>, i: nat, id: string)
    requires i < |AllTimes(jobEvs, punEvs)| && id in ids
    ensures var times := AllTimes(jobEvs, punEvs);
      Cumulative(ids, jobEvs, punEvs, KeysBefore(times, i + 1))[id]
        == TotalUpTo(jobEvs, times[i], id) - TotalUpTo(punEvs, times[i], id)
  {
    var times := AllTimes(jobEvs, punEvs);
    AllTimesSpec(jobEvs, punEvs);
    var keys := KeysBefore(times, i + 1);
    forall m | 0 <= m < |jobEvs| && jobEvs[m].key.Some?
      ensures jobEvs[m].key.value in keys <==> Js.CodeUnitLe(jobEvs[m].key.value, times[i])
    {
      BucketPrefix(times, i, jobEvs[m].key.value);
    }
    forall m | 0 <= m < |punEvs| && punEvs[m].key.Some?
      ensures punEvs[m].key.value in keys <==> Js.CodeUnitLe(punEvs[m].key.value, times[i])
    {
      BucketPrefix(times, i, punEvs[m].key.value);
    }
    TotalInIsUpTo(jobEvs, keys, times[i], id);
    TotalInIsUpTo(punEvs, keys, times[i], id);
  }

  /** With distinct profile ids, `userMap` gives each profile's display name. */
  lemma SeriesNames(profiles: seq<User>, collate: (string, string) -> bool, q: nat)
    requires q < |profiles|
    requires forall a, b :: 0 <= a < b < |profiles| ==> profiles[a].id != profiles[b].id
    ensures profiles[q].id in NameMap(ChartUsers(profiles, collate))
    ensures NameMap(ChartUsers(profiles, collate))[profiles[q].id] == DisplayName(profiles[q].name)
  {
    var series := ChartUsersOf(profiles);
    var sorted := ChartUsers(profiles, collate);
    var x := series[q];
    assert x in multiset(sorted);
    forall i | 0 <= i < |sorted| && sorted[i].id == x.id ensures sorted[i].name == x.name {
      assert sorted[i] in multiset(series);
      var r :| 0 <= r < |series| && series[r] == sorted[i];
      assert r == q;
    }
    NameMapValue(sorted, x);
  }

  /** When every event has a bucket, the running amount after the last bucket is the whole net. */
  lemma LastBucketIsTotal(jobEvs: seq<Event>, punEvs: seq<Event>, ids: seq<string>, id: string)
    requires forall m :: 0 <= m < |jobEvs| ==> jobEvs[m].key.Some?
    requires forall m :: 0 <= m < |punEvs| ==> punEvs[m].key.Some?
    requires id in ids
    ensures var times := AllTimes(jobEvs, punEvs);
      Cumulative(ids, jobEvs, punEvs, KeysBefore(times, |times|))[id] == Total(jobEvs, id) - Total(punEvs, id)
  {
    var times := AllTimes(jobEvs, punEvs);
    var keys := KeysBefore(times, |times|);
    AllTimesSpec(jobEvs, punEvs);
    assert times[..|times|] == times;
    forall m | 0 <= m < |jobEvs| ensures KeyIn(jobEvs[m], keys) {
      assert jobEvs[m].key.value in times;
    }
    forall m | 0 <= m < |punEvs| ensures KeyIn(punEvs[m], keys) {
      assert punEvs[m].key.value in times;
    }
    TotalInAll(jobEvs, keys, id);
    TotalInAll(punEvs, keys, id);
  }

  /** With distinct ids, a later profile's name in `userMap` repeats profile `p`'s only if its display name does. */
  lemma LaterNamesDiffer(profiles: seq<User>, collate: (string, string) -> bool, p: nat)
    requires forall a, b :: 0 <= a < b < |profiles| ==> profiles[a].id != profiles[b].id
    requires p < |profiles|
    requires forall j :: p < j < |profiles| ==> DisplayName(profiles[j].name) != DisplayName(profiles[p].name)
    ensures var ids, names := Ids(profiles), NameMap(ChartUsers(profiles, collate));
      && ids[p] in names && names[ids[p]] == DisplayName(profiles[p].name)
      && forall j :: p < j < |ids| && ids[j] in names ==> names[ids[j]] != names[ids[p]]
  {
    var ids, names := Ids(profiles), NameMap(ChartUsers(profiles, collate));
    SeriesNames(profiles, collate, p);
    forall j | p < j < |ids| && ids[j] in names ensures names[ids[j]] != names[ids[p]] {
      SeriesNames(profiles, collate, j);
    }
  }

  /** The running amounts of the profiles after every bucket. */
  function FinalAmounts(jobEvs: seq<Event>, punEvs: seq<Event>, profiles: seq<User>): (cum: map<string, int>)
    ensures forall id :: id in cum <==> id in Ids(profiles)
  {
    var times := AllTimes(jobEvs, punEvs);
    Cumulative(Ids(profiles), jobEvs, punEvs, KeysBefore(times, |times|))
  }

  /** When every job and punishment has a bucket, a profile's final running amount is its bar's `netEarnings`. */
  lemma FinalAmountIsNet(jobEvs: seq<Event>, punEvs: seq<Event>, profiles: seq<User>, p: nat)
    requires forall m :: 0 <= m < |jobEvs| ==> jobEvs[m].key.Some?
    requires forall m :: 0 <= m < |punEvs| ==> punEvs[m].key.Some?
    requires p < |profiles|
    ensures profiles[p].id in FinalAmounts(jobEvs, punEvs, profiles)
    ensures FinalAmounts(jobEvs, punEvs, profiles)[profiles[p].id] == BarOf(profiles[p], jobEvs, punEvs).netEarnings
  {
    var ids := Ids(profiles);
    assert ids[p] == profiles[p].id;
    LastBucketIsTotal(jobEvs, punEvs, ids, profiles[p].id);
  }

  /** The line chart's last row: the running amounts after every bucket. */
  function LastRow(jobEvs: seq<Event>, punEvs: seq<Event>, profiles: seq<User>, collate: (string, string) -> bool): (row: map<string, Cell>)
    requires AllTimes(jobEvs, punEvs) != []
    ensures "delivery" in row
  {
    var times := AllTimes(jobEvs, punEvs);
    Row(times[|times| - 1], Ids(profiles), NameMap(ChartUsers(profiles, collate)), FinalAmounts(jobEvs, punEvs, profiles))
  }

  /**
   * When every job and punishment has a bucket, profile ids are distinct and
   * no later profile shares the user's display name, the last row's value
   * under that name is the user's bar `netEarnings`.
   */
  lemma LastRowIsNet(jobEvs: seq<Event>, punEvs: seq<Event>, profiles: seq<User>, collate: (string, string) -> bool, p: nat)
    requires forall m :: 0 <= m < |jobEvs| ==> jobEvs[m].key.Some?
    requires forall m :: 0 <= m < |punEvs| ==> punEvs[m].key.Some?
    requires forall a, b :: 0 <= a < b < |profiles| ==> profiles[a].id != profiles[b].id
    requires p < |profiles| && profiles[p].name != []
    requires forall j :: p < j < |profiles| ==> DisplayName(profiles[j].name) != DisplayName(profiles[p].name)
    requires AllTimes(jobEvs, punEvs) != []
    ensures DisplayName(profiles[p].name) in LastRow(jobEvs, punEvs, profiles, collate)
    ensures LastRow(jobEvs, punEvs, profiles, collate)[DisplayName(profiles[p].name)]
      == Amount(BarOf(profiles[p], jobEvs, punEvs).netEarnings)
  {
    var times := AllTimes(jobEvs, punEvs);
    var ids := Ids(profiles);
    var names := NameMap(ChartUsers(profiles, collate));
    var cum := FinalAmounts(jobEvs, punEvs, profiles);
    FinalAmountIsNet(jobEvs, punEvs, profiles, p);
    LaterNamesDiffer(profiles, collate, p);
    RowValue(times[|times| - 1], ids, names, cum, p);
  }
}
