/** `getShareStats` (src/services/shareService.js:373-407): aggregate counts
    over the stored shares and the history. */
module ShareStats {
  import opened Seqs
  import opened ShareService

  const UnknownType: string := "unknown"

  /** The statistics object. `privateShares` is computed by subtraction in
      the source and is kept an `int` here. */
  datatype Summary = Summary(
    totalShares: nat,
    totalViews: nat,
    publicShares: nat,
    privateShares: int,
    shareTypes: map<string, nat>,
    historyCount: nat)

  /** The sum of all view counts. */
  function TotalViews(shares: seq<ShareData>): nat
    decreases |shares|
  {
    if shares == [] then 0 else shares[0].stats.views + TotalViews(shares[1..])
  }

  /** How many shares allow public access. */
  function CountPublic(shares: seq<ShareData>): (n: nat)
    ensures n <= |shares|
    decreases |shares|
  {
    if shares == [] then 0 else (if shares[0].metadata.publicAccess then 1 else 0) + CountPublic(shares[1..])
  }

  /** The key a share is tallied under: its type, or "unknown" when empty. */
  function TypeKey(s: ShareData): (t: string)
    ensures t != ""
  {
    if s.metadata.shareType != "" then s.metadata.shareType else UnknownType
  }

  /** How many shares are tallied under `t`. */
  function CountType(shares: seq<ShareData>, t: string): (n: nat)
    ensures n <= |shares|
    decreases |shares|
  {
    if shares == [] then 0 else (if TypeKey(shares[0]) == t then 1 else 0) + CountType(shares[1..], t)
  }

  /** The `shareTypes` reduction, folding from the oldest share. */
  function Tally(shares: seq<ShareData>): map<string, nat>
    decreases |shares|
  {
    if shares == [] then map[]
    else
      var m := Tally(shares[..|shares| - 1]);
      var t := TypeKey(shares[|shares| - 1]);
      m[t := (if t in m then m[t] else 0) + 1]
  }

  /** Every key of the tally is the type of some share, and every share's
      type is a key. */
  lemma {:induction false} TallyKeys(shares: seq<ShareData>)
    ensures forall t :: t in Tally(shares) <==> exists k :: 0 <= k < |shares| && TypeKey(shares[k]) == t
    decreases |shares|
  {
    if shares != [] {
      var init := shares[..|shares| - 1];
      var m := Tally(init);
      var t := TypeKey(shares[|shares| - 1]);
      TallyKeys(init);
      assert Tally(shares).Keys == m.Keys + {t};
      forall u
        ensures u in Tally(shares) <==> exists k :: 0 <= k < |shares| && TypeKey(shares[k]) == u
      {
        if u != t && u !in m {
          forall k | 0 <= k < |shares|
            ensures TypeKey(shares[k]) != u
          {
            if k < |init| {
              assert shares[k] == init[k];
            }
          }
        }
        if u != t && u in m {
          var k :| 0 <= k < |init| && TypeKey(init[k]) == u;
          assert shares[k] == init[k];
        }
      }
    }
  }

  /** Each key of the tally maps to the number of shares of that type. */
  lemma {:induction false} TallyValues(shares: seq<ShareData>)
    ensures forall t :: t in Tally(shares) ==> Tally(shares)[t] == CountType(shares, t) >= 1
    decreases |shares|
  {
    if shares != [] {
      var init := shares[..|shares| - 1];
      var last := shares[|shares| - 1];
      var m := Tally(init);
      var t := TypeKey(last);
      TallyValues(init);
      TallyKeys(init);
      assert shares == init + [last];
      CountTypeSnoc(init, last);
      assert Tally(shares) == m[t := (if t in m then m[t] else 0) + 1];
      if t !in m {
        assert forall k :: 0 <= k < |init| ==> TypeKey(init[k]) != t;
        CountTypeAbsent(init, t);
      }
    }
  }

  /** A type no share has counts zero. */
  lemma {:induction false} CountTypeAbsent(shares: seq<ShareData>, t: string)
    requires forall k :: 0 <= k < |shares| ==> TypeKey(shares[k]) != t
    ensures CountType(shares, t) == 0
    decreases |shares|
  {
    if shares != [] {
      CountTypeAbsent(shares[1..], t);
    }
  }

  /** The tally depends only on the sequence of the shares' types. */
  lemma {:induction false} TallyDependsOnTypes(a: seq<ShareData>, b: seq<ShareData>)
    requires |a| == |b|
    requires forall k :: 0 <= k < |a| ==> TypeKey(a[k]) == TypeKey(b[k])
    ensures Tally(a) == Tally(b)
    decreases |a|
  {
    if a != [] {
      TallyDependsOnTypes(a[..|a| - 1], b[..|b| - 1]);
    }
  }

  /** Counting one more share at the end. */
  lemma {:induction false} CountTypeSnoc(shares: seq<ShareData>, s: ShareData)
    ensures forall t :: CountType(shares + [s], t) == CountType(shares, t) + (if TypeKey(s) == t then 1 else 0)
    decreases |shares|
  {
    if shares == [] {
      assert shares + [s] == [s];
    } else {
      assert (shares + [s])[1..] == shares[1..] + [s];
      CountTypeSnoc(shares[1..], s);
    }
  }

  /** `getShareStats`: the totals over the shares and the history length;
      public and private shares add up to all shares. */
  function GetShareStats(store: ShareStore): (r: Summary)
    ensures r.totalShares == |store.shares|
    ensures r.totalViews == TotalViews(store.shares)
    ensures r.publicShares == CountPublic(store.shares)
    ensures r.shareTypes == Tally(store.shares)
    ensures r.publicShares + r.privateShares == r.totalShares
    ensures 0 <= r.privateShares <= r.totalShares
    ensures r.historyCount == |store.history|
    ensures forall t :: t in r.shareTypes ==> 1 <= r.shareTypes[t] <= r.totalShares
  {
    TallyValues(store.shares);
    var total := |store.shares|;
    var pub := CountPublic(store.shares);
    Summary(total, TotalViews(store.shares), pub, total - pub, Tally(store.shares), |store.history|)
  }

  // ---------------------------------------------------------------------
  // Sums over the tally
  // ---------------------------------------------------------------------

  /** The sum of a map's values, independent of key order (see
      `MapSumRemove`). */
  ghost function MapSum(m: map<string, nat>): nat
    decreases |m|
  {
    if m == map[] then 0
    else
      var k :| k in m;
      m[k] + MapSum(m - {k})
  }

  /** Any key may be taken out first. */
  lemma {:induction false} MapSumRemove(m: map<string, nat>, k: string)
    requires k in m
    ensures MapSum(m) == m[k] + MapSum(m - {k})
    decreases |m|
  {
    var j :| j in m && MapSum(m) == m[j] + MapSum(m - {j});
    if j != k {
      MapSumRemove(m - {j}, k);
      MapSumRemove(m - {k}, j);
      assert m - {j} - {k} == m - {k} - {j};
    }
  }

  /** The sum after one key's count goes up by one. */
  lemma MapSumIncrement(m: map<string, nat>, t: string)
    ensures MapSum(m[t := (if t in m then m[t] else 0) + 1]) == MapSum(m) + 1
  {
    var m' := m[t := (if t in m then m[t] else 0) + 1];
    MapSumRemove(m', t);
    if t in m {
      MapSumRemove(m, t);
      assert m' - {t} == m - {t};
    } else {
      assert m' - {t} == m;
    }
  }

  /** The `shareTypes` counts add up to the number of shares. */
  lemma {:induction false} TallySumsToTotal(shares: seq<ShareData>)
    ensures MapSum(Tally(shares)) == |shares|
    decreases |shares|
  {
    if shares != [] {
      var init := shares[..|shares| - 1];
      TallySumsToTotal(init);
      MapSumIncrement(Tally(init), TypeKey(shares[|shares| - 1]));
    }
  }

  /** The statistics' type counts add up to the total. */
  lemma StatsTypesSumToTotal(store: ShareStore)
    ensures MapSum(GetShareStats(store).shareTypes) == GetShareStats(store).totalShares
  {
    TallySumsToTotal(store.shares);
  }

  /** Replacing one share changes the view total by the difference in its
      views. */
  lemma {:induction false} TotalViewsReplace(shares: seq<ShareData>, i: nat, s: ShareData)
    requires i < |shares|
    ensures TotalViews(shares[i := s]) + shares[i].stats.views == TotalViews(shares) + s.stats.views
    decreases |shares|
  {
    if i > 0 {
      TotalViewsReplace(shares[1..], i - 1, s);
      assert shares[i := s][1..] == shares[1..][i - 1 := s];
    }
  }

  /** A lookup that finds its share adds exactly one to the total views and
      changes no other statistic; one that finds nothing changes none. */
  lemma LookupAddsOneView(store: ShareStore, id: string, now: string)
    ensures var r := GetShareData(store, id, now);
      var before := GetShareStats(store);
      var after := GetShareStats(r.store);
      && after.totalViews == before.totalViews + (if r.share.Some? then 1 else 0)
      && after.totalShares == before.totalShares
      && after.publicShares == before.publicShares
      && after.shareTypes == before.shareTypes
      && after.historyCount == before.historyCount
  {
    var r := GetShareData(store, id, now);
    if r.share.Some? {
      var i :| FirstWithId(store.shares, id, i) && r.share.value == Viewed(store.shares[i], now)
        && r.store.shares == store.shares[i := r.share.value];
      TotalViewsReplace(store.shares, i, r.share.value);
      SameTallies(store.shares, i, r.share.value);
    }
  }

  /** Replacing a share by one with the same type and access leaves the
      public count and the tally unchanged. */
  lemma SameTallies(shares: seq<ShareData>, i: nat, s: ShareData)
    requires i < |shares|
    requires s.metadata == shares[i].metadata
    ensures CountPublic(shares[i := s]) == CountPublic(shares)
    ensures Tally(shares[i := s]) == Tally(shares)
  {
    var r := shares[i := s];
    SameCounts(shares, r);
    TallyDependsOnTypes(r, shares);
  }

  /** Two share lists that agree on every share's access have the same
      public count. */
  lemma {:induction false} SameCounts(a: seq<ShareData>, b: seq<ShareData>)
    requires |a| == |b|
    requires forall k :: 0 <= k < |a| ==> a[k].metadata == b[k].metadata
    ensures CountPublic(a) == CountPublic(b)
    decreases |a|
  {
    if a != [] {
      SameCounts(a[1..], b[1..]);
    }
  }

  /** The view total of one more share is the old total plus its views. */
  lemma {:induction false} TotalViewsSnoc(shares: seq<ShareData>, s: ShareData)
    ensures TotalViews(shares + [s]) == TotalViews(shares) + s.stats.views
    decreases |shares|
  {
    if shares == [] {
      assert shares + [s] == [s];
    } else {
      assert (shares + [s])[1..] == shares[1..] + [s];
      TotalViewsSnoc(shares[1..], s);
    }
  }

  /** Saving a share while there is room adds one share, its views, its
      public flag and its type to the statistics, and one history entry
      while the history has room. */
  lemma SaveUpdatesStats(store: ShareStore, s: ShareData, clean: string -> string)
    requires |store.shares| < MaxShares
    ensures var before := GetShareStats(store);
      var after := GetShareStats(SaveShareData(store, s, clean));
      && after.totalShares == before.totalShares + 1
      && after.totalViews == before.totalViews + s.stats.views
      && after.publicShares == before.publicShares + (if s.metadata.publicAccess then 1 else 0)
      && after.historyCount == Min(MaxHistory, before.historyCount + 1)
      && TypeKey(s) in after.shareTypes
      && after.shareTypes[TypeKey(s)] == (if TypeKey(s) in before.shareTypes then before.shareTypes[TypeKey(s)] else 0) + 1
  {
    var shares := store.shares + [s];
    TotalViewsSnoc(store.shares, s);
    CountPublicSnoc(store.shares, s);
    assert shares[..|shares| - 1] == store.shares;
  }

  lemma {:induction false} CountPublicSnoc(shares: seq<ShareData>, s: ShareData)
    ensures CountPublic(shares + [s]) == CountPublic(shares) + (if s.metadata.publicAccess then 1 else 0)
    decreases |shares|
  {
    if shares == [] {
      assert shares + [s] == [s];
    } else {
      assert (shares + [s])[1..] == shares[1..] + [s];
      CountPublicSnoc(shares[1..], s);
    }
  }
}
