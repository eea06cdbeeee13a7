/** `build_econometric_master`: the daily series that joins sales totals,
    weekly ad spend spread over days, and the daily context flags. */
module Master {
  import opened Values

  /** One sales ticket after cleaning: its event day, amount and units. */
  datatype Sale = Sale(date: int, amount: real, units: real)

  /** One weekly marketing row: its closing day (absent when the date did not
      parse) and the week's ad spend (0.0 when the sheet has no spend column). */
  datatype WeeklyAd = WeeklyAd(closing: Option<int>, spend: real)

  /** One entry of the daily ad list: a day (absent for an unparsed closing
      date) and the share of spend attributed to it. */
  datatype AdDay = AdDay(date: Option<int>, amount: real)

  /** One row of the daily context table: its day and its cells by column. */
  datatype ContextDay = ContextDay(date: int, flags: map<string, Value>)

  /** The context part of a master record: no context table was joined, the
      join found no row for the day (every flag missing), or it found one. */
  datatype Context = NotJoined | Unmatched | Matched(flags: map<string, Value>)

  /** One row of the master series. */
  datatype DailyRecord = DailyRecord(date: int, revenue: real, units: real, avgPrice: real,
                                     adSpend: real, context: Context)

  /** The context columns the join takes over. */
  const ContextFlags: set<string> := {"Lluvia_Intensa", "Competencia_Agresiva", "Dia_Huelga", "Stockout_Cierre"}

  // ---------------------------------------------------------------------------
  // Sales grouped by day

  predicate StrictlyIncreasing(s: seq<int>)
  {
    forall i, j :: 0 <= i < j < |s| ==> s[i] < s[j]
  }

  /** Some ticket was sold on day `d`. */
  predicate SoldOn(sales: seq<Sale>, d: int)
  {
    exists i :: 0 <= i < |sales| && sales[i].date == d
  }

  /** Insertion of a day into an ascending list of distinct days. */
  function Insert(s: seq<int>, x: int): seq<int>
  {
    if |s| == 0 then [x]
    else if x < s[0] then [x] + s
    else if x == s[0] then s
    else [s[0]] + Insert(s[1..], x)
  }

  /** Insertion adds exactly the new day. */
  lemma {:induction false} InsertMembers(s: seq<int>, x: int)
    ensures forall y :: y in Insert(s, x) <==> y in s || y == x
  {
    if |s| > 0 && x > s[0] {
      InsertMembers(s[1..], x);
      assert s == [s[0]] + s[1..];
    }
  }

  /** A head below every element of an ascending tail gives an ascending list. */
  lemma ConsIncreasing(h: int, t: seq<int>)
    requires StrictlyIncreasing(t)
    requires forall y :: y in t ==> h < y
    ensures StrictlyIncreasing([h] + t)
  {
    var r := [h] + t;
    forall i, j | 0 <= i < j < |r| ensures r[i] < r[j] {
      assert r[j] == t[j - 1];
      if i > 0 { assert r[i] == t[i - 1]; } else { assert t[j - 1] in t; }
    }
  }

  /** Insertion keeps the list ascending. */
  lemma {:induction false} InsertSorted(s: seq<int>, x: int)
    requires StrictlyIncreasing(s)
    ensures StrictlyIncreasing(Insert(s, x))
  {
    if |s| > 0 {
      if x < s[0] {
        forall y | y in s ensures x < y {
          var j :| 0 <= j < |s| && s[j] == y;
        }
        ConsIncreasing(x, s);
      } else if x > s[0] {
        InsertSorted(s[1..], x);
        InsertMembers(s[1..], x);
        forall y | y in s[1..] ensures s[0] < y {
          var j :| 0 <= j < |s[1..]| && s[1..][j] == y;
          assert s[j + 1] == y;
        }
        ConsIncreasing(s[0], Insert(s[1..], x));
      }
    }
  }

  /** The distinct sales days in ascending order: the keys of the group-by. */
  function Days(sales: seq<Sale>): (r: seq<int>)
    ensures StrictlyIncreasing(r)
    ensures forall d :: d in r <==> SoldOn(sales, d)
  {
    if |sales| == 0 then []
    else
      var init := sales[..|sales| - 1];
      InsertSorted(Days(init), sales[|sales| - 1].date);
      InsertMembers(Days(init), sales[|sales| - 1].date);
      var r := Insert(Days(init), sales[|sales| - 1].date);
      assert forall i :: 0 <= i < |init| ==> init[i] == sales[i];
      assert forall d :: SoldOn(sales, d) <==> SoldOn(init, d) || sales[|sales| - 1].date == d;
      r
  }

  /** Sum of the amounts sold on day `d`. */
  function Revenue(sales: seq<Sale>, d: int): (r: real)
    ensures (forall i :: 0 <= i < |sales| ==> sales[i].date != d) ==> r == 0.0
    ensures (forall i :: 0 <= i < |sales| ==> sales[i].amount >= 0.0) ==> r >= 0.0
  {
    if |sales| == 0 then 0.0
    else Revenue(sales[..|sales| - 1], d) + (if sales[|sales| - 1].date == d then sales[|sales| - 1].amount else 0.0)
  }

  /** Sum of the units sold on day `d`. */
  function Units(sales: seq<Sale>, d: int): (r: real)
    ensures (forall i :: 0 <= i < |sales| ==> sales[i].date != d) ==> r == 0.0
    ensures (forall i :: 0 <= i < |sales| ==> sales[i].units >= 0.0) ==> r >= 0.0
  {
    if |sales| == 0 then 0.0
    else Units(sales[..|sales| - 1], d) + (if sales[|sales| - 1].date == d then sales[|sales| - 1].units else 0.0)
  }

  /** The realised average price, guarded against days without units. */
  function AvgPrice(revenue: real, units: real): (p: real)
    ensures units > 0.0 ==> p * units == revenue
    ensures units <= 0.0 ==> p == 0.0
  {
    if units > 0.0 then revenue / units else 0.0
  }

  // ---------------------------------------------------------------------------
  // Weekly ad spend spread over days

  /** `curr_date - timedelta(days=i)`; an unparsed date stays unparsed. */
  function Back(d: Option<int>, i: int): Option<int>
  {
    match d
    case None => None
    case Some(x) => Some(x - i)
  }

  /** The first `n` entries one weekly row appends: its closing day, then the
      days before it, each with a seventh of the spend. */
  function RowDays(ad: WeeklyAd, n: nat): (r: seq<AdDay>)
    ensures |r| == n
    ensures forall i :: 0 <= i < n ==> r[i] == AdDay(Back(ad.closing, i), ad.spend / 7.0)
  {
    seq(n, i requires 0 <= i < n => AdDay(Back(ad.closing, i), ad.spend / 7.0))
  }

  /** The whole daily ad list, row after row. */
  function Spread(ads: seq<WeeklyAd>): seq<AdDay>
  {
    if |ads| == 0 then [] else Spread(ads[..|ads| - 1]) + RowDays(ads[|ads| - 1], 7)
  }

  /** The nested loops of the ad spread, appending to a list. */
  method SpreadAds(ads: seq<WeeklyAd>) returns (list: seq<AdDay>)
    ensures list == Spread(ads)
  {
    list := [];
    for k := 0 to |ads|
      invariant list == Spread(ads[..k])
    {
      assert ads[..k + 1][..k] == ads[..k];
      ghost var before := list;
      var gasto := ads[k].spend;
      var diario := gasto / 7.0;
      for i := 0 to 7
        invariant list == before + RowDays(ads[k], i)
      {
        list := list + [AdDay(Back(ads[k].closing, i), diario)];
        assert RowDays(ads[k], i + 1) == RowDays(ads[k], i) + [AdDay(Back(ads[k].closing, i), diario)];
      }
    }
    assert ads[..|ads|] == ads;
  }

  /** The group-by sum of the ad list on day `d` (0 when the day has no
      entry, which is also the join's fill value). */
  function AdsOn(list: seq<AdDay>, d: int): real
  {
    if |list| == 0 then 0.0
    else AdsOn(list[..|list| - 1], d) + (if list[|list| - 1].date == Some(d) then list[|list| - 1].amount else 0.0)
  }

  /** Independent reference: a seventh of every week whose closing day lies
      between `d` and six days after `d`. */
  function WindowSpend(ads: seq<WeeklyAd>, d: int): real
  {
    if |ads| == 0 then 0.0
    else
      var a := ads[|ads| - 1];
      WindowSpend(ads[..|ads| - 1], d)
        + (if a.closing.Some? && a.closing.value - 6 <= d <= a.closing.value then a.spend / 7.0 else 0.0)
  }

  /** Sum of all dated entries of the ad list (the group-by drops the rest). */
  function DatedTotal(list: seq<AdDay>): real
  {
    if |list| == 0 then 0.0
    else DatedTotal(list[..|list| - 1]) + (if list[|list| - 1].date.Some? then list[|list| - 1].amount else 0.0)
  }

  /** Sum of the spend of the weekly rows whose closing date parsed. */
  function DatedSpend(ads: seq<WeeklyAd>): real
  {
    if |ads| == 0 then 0.0
    else DatedSpend(ads[..|ads| - 1]) + (if ads[|ads| - 1].closing.Some? then ads[|ads| - 1].spend else 0.0)
  }

  // ---------------------------------------------------------------------------
  // The master series

  /** The context columns of one context row that the join takes over. */
  function ProjectFlags(flags: map<string, Value>): (r: map<string, Value>)
    ensures r.Keys == flags.Keys * ContextFlags
    ensures forall k :: k in r ==> r[k] == flags[k]
  {
    map k | k in flags && k in ContextFlags :: flags[k]
  }

  /** The context rows of day `d`, in table order. */
  function MatchesOn(ctx: seq<ContextDay>, d: int): (r: seq<map<string, Value>>)
    ensures |r| <= |ctx|
  {
    if |ctx| == 0 then []
    else MatchesOn(ctx[..|ctx| - 1], d) + (if ctx[|ctx| - 1].date == d then [ProjectFlags(ctx[|ctx| - 1].flags)] else [])
  }

  /** The left join of one sales day with the context table: one record per
      matching context row, or one unmatched record. */
  function JoinDay(base: DailyRecord, ctx: Option<seq<ContextDay>>): (r: seq<DailyRecord>)
    ensures |r| >= 1
    ensures forall i :: 0 <= i < |r| ==> r[i].(context := NotJoined) == base.(context := NotJoined)
    ensures ctx.None? || |ctx.value| == 0 ==> r == [base.(context := NotJoined)]
    ensures ctx.Some? && |ctx.value| > 0 && |MatchesOn(ctx.value, base.date)| == 0 ==> r == [base.(context := Unmatched)]
    ensures ctx.Some? && |MatchesOn(ctx.value, base.date)| > 0 ==>
      |r| == |MatchesOn(ctx.value, base.date)|
      && forall i :: 0 <= i < |r| ==> r[i].context == Matched(MatchesOn(ctx.value, base.date)[i])
  {
    if ctx.None? || |ctx.value| == 0 then [base.(context := NotJoined)]
    else
      var ms := MatchesOn(ctx.value, base.date);
      if |ms| == 0 then [base.(context := Unmatched)]
      else seq(|ms|, i requires 0 <= i < |ms| => base.(context := Matched(ms[i])))
  }

  /** The record of one sales day before the context join. */
  function DayRecord(sales: seq<Sale>, list: seq<AdDay>, d: int): DailyRecord
  {
    var rev := Revenue(sales, d);
    var units := Units(sales, d);
    DailyRecord(d, rev, units, AvgPrice(rev, units), AdsOn(list, d), NotJoined)
  }

  /** The joined records of the given days, in order. */
  function JoinDays(days: seq<int>, sales: seq<Sale>, list: seq<AdDay>, ctx: Option<seq<ContextDay>>): (r: seq<DailyRecord>)
    ensures |r| >= |days|
    ensures forall i :: 0 <= i < |r| ==> r[i].date in days
  {
    if |days| == 0 then []
    else
      var init := JoinDays(days[..|days| - 1], sales, list, ctx);
      var last := JoinDay(DayRecord(sales, list, days[|days| - 1]), ctx);
      assert forall i :: 0 <= i < |last| ==> last[i].date == days[|days| - 1];
      init + last
  }

  /** `build_econometric_master` on the sales, the weekly ads and the context
      table (`None` when that table is missing or has no event-date column).
      An empty sales table gives an empty series. */
  function BuildMaster(sales: seq<Sale>, ads: seq<WeeklyAd>, ctx: Option<seq<ContextDay>>): (r: seq<DailyRecord>)
    ensures |sales| == 0 ==> r == []
    ensures forall i :: 0 <= i < |r| ==> SoldOn(sales, r[i].date)
  {
    if |sales| == 0 then [] else JoinDays(Days(sales), sales, Spread(ads), ctx)
  }

  // ---------------------------------------------------------------------------
  // Properties of the ad spread

  /** Each weekly row contributes exactly seven entries. */
  lemma {:induction false} SpreadLength(ads: seq<WeeklyAd>)
    ensures |Spread(ads)| == 7 * |ads|
  {
    if |ads| > 0 {
      SpreadLength(ads[..|ads| - 1]);
    }
  }

  /** Entry `k` of the list is day `k % 7` back from the closing day of
      weekly row `k / 7`, carrying a seventh of that row's spend. */
  lemma {:induction false} SpreadEntries(ads: seq<WeeklyAd>)
    ensures |Spread(ads)| == 7 * |ads|
    ensures forall k :: 0 <= k < |Spread(ads)| ==>
      Spread(ads)[k] == AdDay(Back(ads[k / 7].closing, k % 7), ads[k / 7].spend / 7.0)
  {
    if |ads| > 0 {
      var n := |ads|;
      var init := ads[..n - 1];
      SpreadEntries(init);
      SpreadLength(ads);
      forall k | 0 <= k < |Spread(ads)|
        ensures Spread(ads)[k] == AdDay(Back(ads[k / 7].closing, k % 7), ads[k / 7].spend / 7.0)
      {
        if k < 7 * (n - 1) {
          assert Spread(ads)[k] == Spread(init)[k];
          assert k / 7 < n - 1;
          assert init[k / 7] == ads[k / 7];
        } else {
          var m := k - 7 * (n - 1);
          assert 0 <= m < 7 && k == 7 * (n - 1) + m;
          assert k / 7 == n - 1 && k % 7 == m;
          assert Spread(ads)[k] == RowDays(ads[n - 1], 7)[m];
        }
      }
    }
  }

  /** The list of two batches of rows is the two lists one after the other. */
  lemma {:induction false} SpreadConcat(a: seq<WeeklyAd>, b: seq<WeeklyAd>)
    ensures Spread(a + b) == Spread(a) + Spread(b)
    decreases |b|
  {
    if |b| == 0 {
      assert a + b == a;
    } else {
      assert (a + b)[..|a + b| - 1] == a + b[..|b| - 1];
      assert (a + b)[|a + b| - 1] == b[|b| - 1];
      SpreadConcat(a, b[..|b| - 1]);
    }
  }

  /** The per-day sum over two lists is the sum of the two per-day sums. */
  lemma {:induction false} AdsOnConcat(u: seq<AdDay>, v: seq<AdDay>, d: int)
    ensures AdsOn(u + v, d) == AdsOn(u, d) + AdsOn(v, d)
    decreases |v|
  {
    if |v| == 0 {
      assert u + v == u;
    } else {
      assert (u + v)[..|u + v| - 1] == u + v[..|v| - 1];
      AdsOnConcat(u, v[..|v| - 1], d);
    }
  }

  lemma {:induction false} DatedTotalConcat(u: seq<AdDay>, v: seq<AdDay>)
    ensures DatedTotal(u + v) == DatedTotal(u) + DatedTotal(v)
    decreases |v|
  {
    if |v| == 0 {
      assert u + v == u;
    } else {
      assert (u + v)[..|u + v| - 1] == u + v[..|v| - 1];
      DatedTotalConcat(u, v[..|v| - 1]);
    }
  }

  /** The first `n` entries of a row hit day `d` once when `d` is among the
      closing day and the `n - 1` days before it, and never otherwise. */
  lemma {:induction false} RowAdsOn(ad: WeeklyAd, n: nat, d: int)
    ensures AdsOn(RowDays(ad, n), d) ==
      if ad.closing.Some? && ad.closing.value - n < d <= ad.closing.value then ad.spend / 7.0 else 0.0
  {
    if n > 0 {
      assert RowDays(ad, n)[..n - 1] == RowDays(ad, n - 1);
      RowAdsOn(ad, n - 1, d);
    }
  }

  /** The dated entries of the first `n` entries of a row add up to `n`
      sevenths of its spend. */
  lemma {:induction false} RowDatedTotal(ad: WeeklyAd, n: nat)
    ensures DatedTotal(RowDays(ad, n)) == if ad.closing.Some? then n as real * (ad.spend / 7.0) else 0.0
  {
    if n > 0 {
      assert RowDays(ad, n)[..n - 1] == RowDays(ad, n - 1);
      RowDatedTotal(ad, n - 1);
    }
  }

  /** The daily ad amount of a day is a seventh of every week whose window
      (its closing day and the six days before it) contains that day. */
  lemma {:induction false} SpreadAdsOn(ads: seq<WeeklyAd>, d: int)
    ensures AdsOn(Spread(ads), d) == WindowSpend(ads, d)
  {
    if |ads| > 0 {
      SpreadAdsOn(ads[..|ads| - 1], d);
      AdsOnConcat(Spread(ads[..|ads| - 1]), RowDays(ads[|ads| - 1], 7), d);
      RowAdsOn(ads[|ads| - 1], 7, d);
    }
  }

  /** Conservation: the dated part of the daily list adds up to the spend of
      the weekly rows whose closing date parsed. */
  lemma {:induction false} SpreadConserves(ads: seq<WeeklyAd>)
    ensures DatedTotal(Spread(ads)) == DatedSpend(ads)
  {
    if |ads| > 0 {
      SpreadConserves(ads[..|ads| - 1]);
      DatedTotalConcat(Spread(ads[..|ads| - 1]), RowDays(ads[|ads| - 1], 7));
      RowDatedTotal(ads[|ads| - 1], 7);
    }
  }

  /** Weeks that share days add up on those days. */
  lemma OverlapAdds(a: seq<WeeklyAd>, b: seq<WeeklyAd>, d: int)
    ensures AdsOn(Spread(a + b), d) == AdsOn(Spread(a), d) + AdsOn(Spread(b), d)
  {
    SpreadConcat(a, b);
    AdsOnConcat(Spread(a), Spread(b), d);
  }

  /** Two weeks of 700 closing on days 10 and 13 share days 7 to 10, which
      get 200; day 11 only gets the second week's 100. */
  lemma OverlapExample()
    ensures AdsOn(Spread([WeeklyAd(Some(10), 700.0), WeeklyAd(Some(13), 700.0)]), 8) == 200.0
    ensures AdsOn(Spread([WeeklyAd(Some(10), 700.0), WeeklyAd(Some(13), 700.0)]), 11) == 100.0
  {
    var ads := [WeeklyAd(Some(10), 700.0), WeeklyAd(Some(13), 700.0)];
    SpreadAdsOn(ads, 8);
    SpreadAdsOn(ads, 11);
    assert ads[..1][..0] == [];
    assert ads[..1] == [WeeklyAd(Some(10), 700.0)];
  }

  /** Weeks closing seven days apart (consecutive Sundays) share no day: the
      windows are the closing day and the six days before it. */
  lemma ConsecutiveWeeksDisjoint(c: int, s1: real, s2: real, d: int)
    ensures AdsOn(Spread([WeeklyAd(Some(c), s1), WeeklyAd(Some(c + 7), s2)]), d) ==
      if c - 6 <= d <= c then s1 / 7.0 else if c + 1 <= d <= c + 7 then s2 / 7.0 else 0.0
  {
    var ads := [WeeklyAd(Some(c), s1), WeeklyAd(Some(c + 7), s2)];
    SpreadAdsOn(ads, d);
    assert ads[..1][..0] == [];
    assert ads[..1] == [WeeklyAd(Some(c), s1)];
    assert WindowSpend(ads[..1], d) == if c - 6 <= d <= c then s1 / 7.0 else 0.0;
  }

  // ---------------------------------------------------------------------------
  // Properties of the master series

  /** The joined records of distinct days, each with at most one context row,
      are one per day in the days' order. */
  lemma {:induction false} JoinDaysOnePerDay(days: seq<int>, sales: seq<Sale>, list: seq<AdDay>, ctx: Option<seq<ContextDay>>)
    requires UniqueDates(ctx)
    ensures |JoinDays(days, sales, list, ctx)| == |days|
    ensures forall i :: 0 <= i < |days| ==> JoinDays(days, sales, list, ctx)[i].date == days[i]
  {
    if |days| > 0 {
      var n := |days|;
      JoinDaysOnePerDay(days[..n - 1], sales, list, ctx);
      var init := JoinDays(days[..n - 1], sales, list, ctx);
      var base := DayRecord(sales, list, days[n - 1]);
      JoinDayOne(base, ctx);
      var r := JoinDays(days, sales, list, ctx);
      assert r == init + JoinDay(base, ctx);
      forall i | 0 <= i < n ensures r[i].date == days[i] {
        if i < n - 1 {
          assert r[i] == init[i];
          assert days[..n - 1][i] == days[i];
        }
      }
    }
  }

  /** With at most one context row per day, the join keeps one record. */
  lemma JoinDayOne(base: DailyRecord, ctx: Option<seq<ContextDay>>)
    requires UniqueDates(ctx)
    ensures |JoinDay(base, ctx)| == 1 && JoinDay(base, ctx)[0].date == base.date
  {
    if ctx.Some? {
      MatchesAtMostOne(ctx.value, base.date);
    }
  }

  /** A day without a context row has no matches. */
  lemma {:induction false} MatchMissing(ctx: seq<ContextDay>, d: int)
    requires forall i :: 0 <= i < |ctx| ==> ctx[i].date != d
    ensures MatchesOn(ctx, d) == []
  {
    if |ctx| > 0 {
      var init := ctx[..|ctx| - 1];
      assert forall i :: 0 <= i < |init| ==> init[i] == ctx[i];
      MatchMissing(init, d);
    }
  }

  /** With unique dates, the day of context row `j` matches exactly that
      row's flags. */
  lemma {:induction false} MatchFound(ctx: seq<ContextDay>, d: int, j: nat)
    requires forall a, b :: 0 <= a < b < |ctx| ==> ctx[a].date != ctx[b].date
    requires j < |ctx| && ctx[j].date == d
    ensures MatchesOn(ctx, d) == [ProjectFlags(ctx[j].flags)]
  {
    var init := ctx[..|ctx| - 1];
    assert forall i :: 0 <= i < |init| ==> init[i] == ctx[i];
    if j == |ctx| - 1 {
      MatchMissing(init, d);
    } else {
      MatchFound(init, d, j);
    }
  }

  /** Every joined record is one of the records the join of its own day
      produces. */
  lemma {:induction false} JoinDaysFrom(days: seq<int>, sales: seq<Sale>, list: seq<AdDay>, ctx: Option<seq<ContextDay>>)
    ensures forall i :: 0 <= i < |JoinDays(days, sales, list, ctx)| ==>
      JoinDays(days, sales, list, ctx)[i] in JoinDay(DayRecord(sales, list, JoinDays(days, sales, list, ctx)[i].date), ctx)
  {
    if |days| > 0 {
      var n := |days|;
      JoinDaysFrom(days[..n - 1], sales, list, ctx);
      var init := JoinDays(days[..n - 1], sales, list, ctx);
      var base := DayRecord(sales, list, days[n - 1]);
      var last := JoinDay(base, ctx);
      var r := JoinDays(days, sales, list, ctx);
      assert r == init + last;
      forall i | 0 <= i < |r|
        ensures r[i] in JoinDay(DayRecord(sales, list, r[i].date), ctx)
      {
        if i < |init| {
          assert r[i] == init[i];
        } else {
          assert r[i] == last[i - |init|];
          assert r[i].date == days[n - 1];
        }
      }
    }
  }

  /** The context of a record (with unique context dates): not joined when
      there is no context table or it is empty, unmatched when no context row
      has the record's day, and otherwise the flags of the row of that day. */
  lemma RecordContext(sales: seq<Sale>, ads: seq<WeeklyAd>, ctx: Option<seq<ContextDay>>, i: nat)
    requires UniqueDates(ctx)
    requires i < |BuildMaster(sales, ads, ctx)|
    ensures var r := BuildMaster(sales, ads, ctx)[i];
      (ctx.None? || |ctx.value| == 0 ==> r.context == NotJoined)
      && (ctx.Some? && |ctx.value| > 0 && (forall j :: 0 <= j < |ctx.value| ==> ctx.value[j].date != r.date) ==> r.context == Unmatched)
      && (forall j :: ctx.Some? && 0 <= j < |ctx.value| && ctx.value[j].date == r.date ==> r.context == Matched(ProjectFlags(ctx.value[j].flags)))
  {
    var rows := JoinDays(Days(sales), sales, Spread(ads), ctx);
    assert BuildMaster(sales, ads, ctx) == rows;
    JoinDaysFrom(Days(sales), sales, Spread(ads), ctx);
    RowContext(rows[i], DayRecord(sales, Spread(ads), rows[i].date), ctx);
  }

  /** A record a day yields, with unique context dates, carries the context
      of its own day. */
  lemma RowContext(r: DailyRecord, base: DailyRecord, ctx: Option<seq<ContextDay>>)
    requires UniqueDates(ctx) && r in JoinDay(base, ctx)
    ensures (ctx.None? || |ctx.value| == 0 ==> r.context == NotJoined)
      && (ctx.Some? && |ctx.value| > 0 && (forall j :: 0 <= j < |ctx.value| ==> ctx.value[j].date != r.date) ==> r.context == Unmatched)
      && (forall j :: ctx.Some? && 0 <= j < |ctx.value| && ctx.value[j].date == r.date ==> r.context == Matched(ProjectFlags(ctx.value[j].flags)))
  {
    JoinDayOne(base, ctx);
    JoinedContext(base, ctx);
    assert r == JoinDay(base, ctx)[0];
  }

  /** The context of the one record a day yields, with unique context dates. */
  lemma JoinedContext(base: DailyRecord, ctx: Option<seq<ContextDay>>)
    requires UniqueDates(ctx)
    ensures |JoinDay(base, ctx)| == 1
    ensures var r := JoinDay(base, ctx)[0];
      (ctx.None? || |ctx.value| == 0 ==> r.context == NotJoined)
      && (ctx.Some? && |ctx.value| > 0 && (forall j :: 0 <= j < |ctx.value| ==> ctx.value[j].date != base.date) ==> r.context == Unmatched)
      && (forall j :: ctx.Some? && 0 <= j < |ctx.value| && ctx.value[j].date == base.date ==> r.context == Matched(ProjectFlags(ctx.value[j].flags)))
  {
    JoinDayOne(base, ctx);
    if ctx.Some? {
      if forall j :: 0 <= j < |ctx.value| ==> ctx.value[j].date != base.date {
        MatchMissing(ctx.value, base.date);
      }
      forall j | 0 <= j < |ctx.value| && ctx.value[j].date == base.date
        ensures JoinDay(base, ctx)[0].context == Matched(ProjectFlags(ctx.value[j].flags))
      {
        MatchFound(ctx.value, base.date, j);
      }
    }
  }

  /** No two context rows share a day. */
  predicate UniqueDates(ctx: Option<seq<ContextDay>>)
  {
    ctx.Some? ==> forall i, j :: 0 <= i < j < |ctx.value| ==> ctx.value[i].date != ctx.value[j].date
  }

  lemma {:induction false} MatchesAtMostOne(ctx: seq<ContextDay>, d: int)
    requires forall i, j :: 0 <= i < j < |ctx| ==> ctx[i].date != ctx[j].date
    ensures |MatchesOn(ctx, d)| <= 1
    ensures |MatchesOn(ctx, d)| == 1 <==> exists i :: 0 <= i < |ctx| && ctx[i].date == d
  {
    if |ctx| > 0 {
      var init := ctx[..|ctx| - 1];
      MatchesAtMostOne(init, d);
      assert forall i :: 0 <= i < |init| ==> init[i] == ctx[i];
      if ctx[|ctx| - 1].date == d {
        assert forall i :: 0 <= i < |init| ==> init[i].date != d;
      }
    }
  }

  /** With context dates unique (or no context table), the series holds one
      record per distinct sales day in ascending order, and ad-only days are
      absent. */
  lemma OneRecordPerSalesDay(sales: seq<Sale>, ads: seq<WeeklyAd>, ctx: Option<seq<ContextDay>>)
    requires UniqueDates(ctx)
    ensures |BuildMaster(sales, ads, ctx)| == |Days(sales)|
    ensures forall i :: 0 <= i < |Days(sales)| ==> BuildMaster(sales, ads, ctx)[i].date == Days(sales)[i]
    ensures forall i, j :: 0 <= i < j < |BuildMaster(sales, ads, ctx)| ==>
      BuildMaster(sales, ads, ctx)[i].date < BuildMaster(sales, ads, ctx)[j].date
    ensures forall d :: SoldOn(sales, d) <==> exists i :: 0 <= i < |BuildMaster(sales, ads, ctx)| && BuildMaster(sales, ads, ctx)[i].date == d
  {
    if |sales| > 0 {
      JoinDaysOnePerDay(Days(sales), sales, Spread(ads), ctx);
    }
    var r := BuildMaster(sales, ads, ctx);
    forall d | SoldOn(sales, d)
      ensures exists i :: 0 <= i < |r| && r[i].date == d
    {
      var k :| 0 <= k < |Days(sales)| && Days(sales)[k] == d;
      assert r[k].date == d;
    }
  }

  /** Every record carries the day's sales totals, the guarded average price
      and the spread ad spend of its day (0 when no week covers it). */
  lemma {:induction false} JoinDaysFields(days: seq<int>, sales: seq<Sale>, list: seq<AdDay>, ctx: Option<seq<ContextDay>>)
    ensures forall i :: 0 <= i < |JoinDays(days, sales, list, ctx)| ==>
      JoinDays(days, sales, list, ctx)[i].(context := NotJoined) == DayRecord(sales, list, JoinDays(days, sales, list, ctx)[i].date)
  {
    if |days| > 0 {
      JoinDaysFields(days[..|days| - 1], sales, list, ctx);
    }
  }

  lemma RecordFields(sales: seq<Sale>, ads: seq<WeeklyAd>, ctx: Option<seq<ContextDay>>, i: nat)
    requires i < |BuildMaster(sales, ads, ctx)|
    ensures var r := BuildMaster(sales, ads, ctx)[i];
      r.revenue == Revenue(sales, r.date) && r.units == Units(sales, r.date)
      && r.avgPrice == AvgPrice(r.revenue, r.units) && r.adSpend == WindowSpend(ads, r.date)
  {
    JoinDaysFields(Days(sales), sales, Spread(ads), ctx);
    SpreadAdsOn(ads, BuildMaster(sales, ads, ctx)[i].date);
  }

  /** The end-to-end example: 100 over 5 units on day 1 and 150 over 5 units
      on day 2, with no ads and no context table, give two records with
      average prices 20 and 30 and no ad spend. */
  lemma EndToEnd()
    ensures BuildMaster([Sale(1, 100.0, 5.0), Sale(2, 150.0, 5.0)], [], None) ==
      [DailyRecord(1, 100.0, 5.0, 20.0, 0.0, NotJoined), DailyRecord(2, 150.0, 5.0, 30.0, 0.0, NotJoined)]
  {
    ExampleDays();
    ExampleTotals();
    assert [1, 2][..1] == [1];
    assert [1, 2][..1][..0] == [];
  }

  lemma ExampleDays()
    ensures Days([Sale(1, 100.0, 5.0), Sale(2, 150.0, 5.0)]) == [1, 2]
  {
    var sales := [Sale(1, 100.0, 5.0), Sale(2, 150.0, 5.0)];
    assert sales[..1] == [Sale(1, 100.0, 5.0)];
    assert sales[..1][..0] == [];
    assert Days(sales[..1]) == [1];
    assert [1][1..] == [];
    assert Insert([1], 2) == [1, 2];
  }

  lemma ExampleTotals()
    ensures Revenue([Sale(1, 100.0, 5.0), Sale(2, 150.0, 5.0)], 1) == 100.0
    ensures Units([Sale(1, 100.0, 5.0), Sale(2, 150.0, 5.0)], 1) == 5.0
    ensures Revenue([Sale(1, 100.0, 5.0), Sale(2, 150.0, 5.0)], 2) == 150.0
    ensures Units([Sale(1, 100.0, 5.0), Sale(2, 150.0, 5.0)], 2) == 5.0
  {
    var sales := [Sale(1, 100.0, 5.0), Sale(2, 150.0, 5.0)];
    assert sales[..1] == [Sale(1, 100.0, 5.0)];
    assert sales[..1][..0] == [];
  }
}
