/** The daily mining-cost pipeline: the halving schedule, the hardware-table
    and monthly-rate lookups, the per-day cost formulas, and the frame that
    `get_final_df` builds column by column and then smooths in place. */
module Utils {
  import opened Wrappers
  import opened Averages

  // ---------------------------------------------------------------- dates

  /** A calendar date, compared field by field like `datetime.date`. */
  datatype Date = Date(year: int, month: int, day: int)

  /** Strict chronological order: lexicographic on (year, month, day). */
  predicate Before(a: Date, b: Date)
  {
    a.year < b.year
    || (a.year == b.year && (a.month < b.month || (a.month == b.month && a.day < b.day)))
  }

  // ------------------------------------------------------ halving schedule

  const FirstHalving: Date := Date(2020, 5, 11)
  const SecondHalving: Date := Date(2024, 4, 19)

  /** `get_block_reward`: the block subsidy in force on date `d`. */
  function BlockReward(d: Date): (reward: real)
    ensures reward == 12.5 <==> Before(d, FirstHalving)
    ensures reward == 6.25 <==> !Before(d, FirstHalving) && Before(d, SecondHalving)
    ensures reward == 3.125 <==> !Before(d, SecondHalving)
  {
    if Before(d, FirstHalving) then 12.5
    else if !Before(d, FirstHalving) && Before(d, SecondHalving) then 6.25
    else 3.125
  }

  /** The subsidy never grows as time goes on. */
  lemma BlockRewardNonIncreasing(d1: Date, d2: Date)
    requires Before(d1, d2)
    ensures BlockReward(d2) <= BlockReward(d1)
  {
  }

  /** Each halving date cuts the subsidy of the day before it in half. */
  lemma HalvingDatesHalveTheReward()
    ensures BlockReward(Date(2020, 5, 10)) == 12.5
    ensures BlockReward(Date(2020, 5, 11)) == 6.25
    ensures BlockReward(Date(2024, 4, 18)) == 6.25
    ensures BlockReward(Date(2024, 4, 19)) == 3.125
    ensures BlockReward(FirstHalving) * 2.0 == BlockReward(Date(2020, 5, 10))
    ensures BlockReward(SecondHalving) * 2.0 == BlockReward(Date(2024, 4, 18))
  {
  }

  // ------------------------------------------------------ hardware table

  /** One row of the hardware table: year, rig name, hash power (Th/s),
      power draw (kW) and local electricity price (rub/kWh). */
  datatype AsicsRow = AsicsRow(year: int, name: string, thS: real, kwtH: real, rubKwt: real)

  /** Row j is the first row of the table whose year is `year`. */
  predicate FirstOfYear(table: seq<AsicsRow>, year: int, j: int)
  {
    && 0 <= j < |table|
    && table[j].year == year
    && forall k :: 0 <= k < j ==> table[k].year != year
  }

  /** Index of the first row at or after `from` whose year is `year`. */
  function FirstRowIndex(table: seq<AsicsRow>, year: int, from: nat): (j: Option<nat>)
    requires from <= |table|
    ensures j.Some? ==> from <= j.value < |table| && table[j.value].year == year
    ensures j.Some? ==> forall k :: from <= k < j.value ==> table[k].year != year
    ensures j.None? ==> forall k :: from <= k < |table| ==> table[k].year != year
    decreases |table| - from
  {
    if from == |table| then None
    else if table[from].year == year then Some(from)
    else FirstRowIndex(table, year, from + 1)
  }

  /** The row that `asics[asics['year'] == year]...values[0]` reads, or None
      where pandas raises because no row has that year. */
  function RowOfYear(table: seq<AsicsRow>, year: int): (row: Option<AsicsRow>)
    ensures row.None? <==> forall k :: 0 <= k < |table| ==> table[k].year != year
    ensures row.Some? ==> exists j :: FirstOfYear(table, year, j) && table[j] == row.value
  {
    match FirstRowIndex(table, year, 0)
    case None => None
    case Some(j) => assert FirstOfYear(table, year, j); Some(table[j])
  }

  /** `Asics.get_name`. */
  function GetName(table: seq<AsicsRow>, d: Date): (name: Option<string>)
    ensures name.None? <==> forall k :: 0 <= k < |table| ==> table[k].year != d.year
    ensures name.Some? ==> exists j :: FirstOfYear(table, d.year, j) && table[j].name == name.value
  {
    match RowOfYear(table, d.year)
    case None => None
    case Some(row) => Some(row.name)
  }

  /** `Asics.get_th_s`. */
  function GetThS(table: seq<AsicsRow>, d: Date): (thS: Option<real>)
    ensures thS.None? <==> forall k :: 0 <= k < |table| ==> table[k].year != d.year
    ensures thS.Some? ==> exists j :: FirstOfYear(table, d.year, j) && table[j].thS == thS.value
  {
    match RowOfYear(table, d.year)
    case None => None
    case Some(row) => Some(row.thS)
  }

  /** `Asics.get_kwt_h`. */
  function GetKwtH(table: seq<AsicsRow>, d: Date): (kwtH: Option<real>)
    ensures kwtH.None? <==> forall k :: 0 <= k < |table| ==> table[k].year != d.year
    ensures kwtH.Some? ==> exists j :: FirstOfYear(table, d.year, j) && table[j].kwtH == kwtH.value
  {
    match RowOfYear(table, d.year)
    case None => None
    case Some(row) => Some(row.kwtH)
  }

  /** `Asics.get_rub_kwt`. */
  function GetRubKwt(table: seq<AsicsRow>, d: Date): (rubKwt: Option<real>)
    ensures rubKwt.None? <==> forall k :: 0 <= k < |table| ==> table[k].year != d.year
    ensures rubKwt.Some? ==> exists j :: FirstOfYear(table, d.year, j) && table[j].rubKwt == rubKwt.value
  {
    match RowOfYear(table, d.year)
    case None => None
    case Some(row) => Some(row.rubKwt)
  }

  // ------------------------------------------------- monthly currency rates

  /** The (year, month) group key of `get_avg_usd_rub_rate_df`. */
  datatype MonthKey = MonthKey(year: int, month: int)

  function MonthOf(d: Date): MonthKey
  {
    MonthKey(d.year, d.month)
  }

  /** One row of the raw currency series: its date and its quoted rate. */
  datatype RateSample = RateSample(date: Date, value: real)

  /** The rates quoted in month `key`, in input order. */
  function Bucket(samples: seq<RateSample>, key: MonthKey): (values: seq<real>)
    ensures |values| > 0 <==> exists i :: 0 <= i < |samples| && MonthOf(samples[i].date) == key
    ensures forall v :: v in values ==>
      exists i :: 0 <= i < |samples| && MonthOf(samples[i].date) == key && samples[i].value == v
  {
    if |samples| == 0 then []
    else
      var rest := Bucket(samples[1..], key);
      assert forall i :: 1 <= i < |samples| ==> samples[1..][i - 1] == samples[i];
      (if MonthOf(samples[0].date) == key then [samples[0].value] else []) + rest
  }

  /** The bucket of a concatenation is the bucket of the first part followed
      by the bucket of the second. */
  lemma {:induction false} BucketAppend(s1: seq<RateSample>, s2: seq<RateSample>, key: MonthKey)
    ensures Bucket(s1 + s2, key) == Bucket(s1, key) + Bucket(s2, key)
    decreases |s1|
  {
    if |s1| == 0 {
      assert s1 + s2 == s2;
    } else {
      assert (s1 + s2)[1..] == s1[1..] + s2;
      BucketAppend(s1[1..], s2, key);
    }
  }

  /** A single sample lands in the bucket of its own month and in no other. */
  lemma BucketSingle(x: RateSample, key: MonthKey)
    ensures Bucket([x], key) == if MonthOf(x.date) == key then [x.value] else []
  {
  }

  /** Positions of the samples of month `key` quoted at rate `v`. */
  function MatchingPositions(samples: seq<RateSample>, key: MonthKey, v: real): set<int>
  {
    set i | 0 <= i < |samples| && MonthOf(samples[i].date) == key && samples[i].value == v
  }

  /** Appending a sample adds its position to the matching positions exactly
      when it is of month `key` and quoted at `v`. */
  lemma MatchingPositionsAppend(init: seq<RateSample>, x: RateSample, key: MonthKey, v: real)
    ensures MatchingPositions(init + [x], key, v) ==
      MatchingPositions(init, key, v) + (if MonthOf(x.date) == key && x.value == v then {|init|} else {})
  {
  }

  /** The bucket of a month holds every sample of that month, each as many
      times as it is quoted: nothing is dropped and nothing is added. */
  lemma {:induction false} BucketMultiplicity(samples: seq<RateSample>, key: MonthKey, v: real)
    ensures multiset(Bucket(samples, key))[v] == |MatchingPositions(samples, key, v)|
    decreases |samples|
  {
    if |samples| > 0 {
      var n := |samples| - 1;
      var init := samples[..n];
      var x := samples[n];
      assert samples == init + [x];
      BucketMultiplicity(init, key, v);
      MatchingPositionsAppend(init, x, key, v);
      BucketAppend(init, [x], key);
      BucketSingle(x, key);
      var before := MatchingPositions(init, key, v);
      assert n !in before;
      assert multiset(Bucket(samples, key))[v] == multiset(Bucket(init, key))[v] + multiset(Bucket([x], key))[v];
    }
  }

  /** The months that occur in the series. */
  function MonthsOf(samples: seq<RateSample>): set<MonthKey>
  {
    set i | 0 <= i < |samples| :: MonthOf(samples[i].date)
  }

  /** `get_avg_usd_rub_rate_df`: group the series by (year, month) and take
      the mean rate of each group. */
  function MonthlyRates(samples: seq<RateSample>): (table: map<MonthKey, real>)
    ensures forall k :: k in table <==> exists i :: 0 <= i < |samples| && MonthOf(samples[i].date) == k
  {
    map k | k in MonthsOf(samples) :: Mean(Bucket(samples, k))
  }

  /** A month's average lies between the lowest and the highest rate quoted
      in that month (so a month quoted at one constant rate averages to it). */
  lemma MonthlyRateBounds(samples: seq<RateSample>, key: MonthKey, lo: real, hi: real)
    requires key in MonthlyRates(samples)
    requires forall i :: 0 <= i < |samples| && MonthOf(samples[i].date) == key ==>
      lo <= samples[i].value <= hi
    ensures lo <= MonthlyRates(samples)[key] <= hi
  {
    var values := Bucket(samples, key);
    forall j | 0 <= j < |values| ensures lo <= values[j] <= hi {
      assert values[j] in values;
    }
    MeanBounds(values, lo, hi);
  }

  /** A month that occurs in the series keeps occurring after a new quote,
      and its average is the mean of its bucket. */
  lemma MonthlyRateOf(samples: seq<RateSample>, x: RateSample, key: MonthKey)
    requires key in MonthlyRates(samples)
    ensures key in MonthlyRates(samples + [x])
    ensures MonthlyRates(samples)[key] == Mean(Bucket(samples, key))
    ensures MonthlyRates(samples + [x])[key] == Mean(Bucket(samples + [x], key))
  {
    var i :| 0 <= i < |samples| && MonthOf(samples[i].date) == key;
    assert (samples + [x])[i] == samples[i];
  }

  /** A new quote leaves the average of every other month unchanged and
      updates the average of its own month as a running mean. */
  lemma MonthlyRateAppend(samples: seq<RateSample>, x: RateSample, key: MonthKey)
    requires key in MonthlyRates(samples)
    ensures key in MonthlyRates(samples + [x])
    ensures MonthOf(x.date) != key ==> MonthlyRates(samples + [x])[key] == MonthlyRates(samples)[key]
    ensures MonthOf(x.date) == key ==>
      MonthlyRates(samples + [x])[key] == RunningUpdate(MonthlyRates(samples)[key], |Bucket(samples, key)|, x.value)
  {
    MonthlyRateOf(samples, x, key);
    var before := Bucket(samples, key);
    BucketAppend(samples, [x], key);
    BucketSingle(x, key);
    if MonthOf(x.date) == key {
      assert Bucket(samples + [x], key) == before + [x.value];
      RunningMean(before, x.value);
    } else {
      assert Bucket(samples + [x], key) == before;
    }
  }

  // ---------------------------------------------------------- cost formulas

  const BlocksPerDay: real := 144.0
  const UsdPerKwh: real := 0.05
  const HoursPerDay: real := 24.0
  const ElectricityShare: real := 0.6
  const Window: nat := 7

  /** `btc_per_th`: coins mined per day per unit of network hash rate. */
  function BtcPerTh(reward: real, hashrate: real): (perTh: real)
    requires hashrate != 0.0
    ensures perTh * hashrate == reward * BlocksPerDay
  {
    reward * BlocksPerDay / hashrate
  }

  /** `mining_cost_in_usd` before smoothing: a rig's daily electricity bill
      at the fixed 0.05 USD/kWh over the coins it mines in a day. */
  function MiningCost(kwtH: real, thS: real, perTh: real): (cost: real)
    requires thS * perTh != 0.0
    ensures cost * (thS * perTh) == kwtH * UsdPerKwh * HoursPerDay
  {
    kwtH * UsdPerKwh * HoursPerDay / (thS * perTh)
  }

  /** `total_mining_cost_in_usd` before smoothing: electricity taken as 60%
      of all operating costs. */
  function TotalMiningCost(cost: real): (total: real)
    ensures total * ElectricityShare == cost
  {
    cost / ElectricityShare
  }

  /** A halving doubles the cost of mining one coin, all else equal. */
  lemma HalvingDoublesMiningCost(kwtH: real, thS: real, reward: real, hashrate: real)
    requires hashrate != 0.0 && thS != 0.0 && reward != 0.0
    ensures BtcPerTh(reward / 2.0, hashrate) * 2.0 == BtcPerTh(reward, hashrate)
    ensures MiningCost(kwtH, thS, BtcPerTh(reward / 2.0, hashrate))
      == 2.0 * MiningCost(kwtH, thS, BtcPerTh(reward, hashrate))
  {
  }

  // ------------------------------------------------------------ the frame

  /** One aligned input day: the date, the market price and the hash rate. */
  datatype DayInput = DayInput(date: Date, btcPrice: real, hashrate: real)

  /** One row of the frame `get_final_df` returns. The two cost columns hold
      None where pandas holds NaN. */
  datatype DailyRecord = DailyRecord(
    date: Date, btcPrice: real, hashrate: real, btcReward: real, usdRubRate: real,
    asicsName: string, thS: real, kwtH: real, rubKwt: real, btcPerTh: real,
    miningCost: Option<real>, totalMiningCost: Option<real>)

  /** A lookup that makes `get_final_df` raise, with the first date it fails on. */
  datatype PipelineError = MissingMonthlyRate(date: Date) | MissingAsics(date: Date)

  /** The two divisions of a day are by non-zero values: the hash rate and the
      hash power of the rig the table gives for that year. */
  predicate Divisible(day: DayInput, asics: seq<AsicsRow>)
  {
    && day.hashrate != 0.0
    && (RowOfYear(asics, day.date.year).Some? ==> RowOfYear(asics, day.date.year).value.thS != 0.0)
  }

  /** One row before smoothing, from its input day, its month's rate and the
      hardware row of its year (the row all four `Asics` getters read). */
  function RawRecord(day: DayInput, rate: real, row: AsicsRow): (rec: DailyRecord)
    requires day.hashrate != 0.0 && row.thS != 0.0
    ensures rec.date == day.date && rec.btcPrice == day.btcPrice && rec.hashrate == day.hashrate
    ensures rec.btcReward == BlockReward(day.date) && rec.usdRubRate == rate
    ensures rec.asicsName == row.name && rec.thS == row.thS && rec.kwtH == row.kwtH && rec.rubKwt == row.rubKwt
    ensures rec.btcPerTh * day.hashrate == rec.btcReward * BlocksPerDay
    ensures rec.miningCost.Some? && rec.totalMiningCost.Some?
    ensures rec.miningCost.value * (row.thS * rec.btcPerTh) == row.kwtH * UsdPerKwh * HoursPerDay
    ensures rec.totalMiningCost.value * ElectricityShare == rec.miningCost.value
  {
    var reward := BlockReward(day.date);
    var perTh := BtcPerTh(reward, day.hashrate);
    assert perTh != 0.0 && row.thS * perTh != 0.0;
    var cost := MiningCost(row.kwtH, row.thS, perTh);
    DailyRecord(day.date, day.btcPrice, day.hashrate, reward, rate,
                row.name, row.thS, row.kwtH, row.rubKwt, perTh, Some(cost), Some(TotalMiningCost(cost)))
  }

  /** Index of the first day at or after `from` whose month has no rate. */
  function FirstLackingRate(days: seq<DayInput>, rates: map<MonthKey, real>, from: nat): (i: Option<nat>)
    requires from <= |days|
    ensures i.Some? ==> from <= i.value < |days| && MonthOf(days[i.value].date) !in rates
    ensures i.Some? ==> forall j :: from <= j < i.value ==> MonthOf(days[j].date) in rates
    ensures i.None? ==> forall j :: from <= j < |days| ==> MonthOf(days[j].date) in rates
    decreases |days| - from
  {
    if from == |days| then None
    else if MonthOf(days[from].date) !in rates then Some(from)
    else FirstLackingRate(days, rates, from + 1)
  }

  /** Index of the first day at or after `from` whose year has no hardware row. */
  function FirstLackingAsics(days: seq<DayInput>, asics: seq<AsicsRow>, from: nat): (i: Option<nat>)
    requires from <= |days|
    ensures i.Some? ==> from <= i.value < |days| && RowOfYear(asics, days[i.value].date.year).None?
    ensures i.Some? ==> forall j :: from <= j < i.value ==> RowOfYear(asics, days[j].date.year).Some?
    ensures i.None? ==> forall j :: from <= j < |days| ==> RowOfYear(asics, days[j].date.year).Some?
    decreases |days| - from
  {
    if from == |days| then None
    else if RowOfYear(asics, days[from].date.year).None? then Some(from)
    else FirstLackingAsics(days, asics, from + 1)
  }

  /** The frame as it stands before the smoothing step. pandas fills the
      rate column (for every row) before the hardware columns, so a missing
      rate anywhere is reported before a missing hardware row anywhere. */
  function RawFrame(days: seq<DayInput>, rates: map<MonthKey, real>, asics: seq<AsicsRow>)
    : (frame: Result<seq<DailyRecord>, PipelineError>)
    requires forall i :: 0 <= i < |days| ==> Divisible(days[i], asics)
    ensures frame.Failure? <==> exists i :: 0 <= i < |days| && !Resolvable(days[i], rates, asics)
    ensures FirstLackingRate(days, rates, 0).Some? ==>
      frame == Failure(MissingMonthlyRate(days[FirstLackingRate(days, rates, 0).value].date))
    ensures FirstLackingRate(days, rates, 0).None? && FirstLackingAsics(days, asics, 0).Some? ==>
      frame == Failure(MissingAsics(days[FirstLackingAsics(days, asics, 0).value].date))
    ensures frame.Success? ==> |frame.value| == |days|
    ensures frame.Success? ==> forall i :: 0 <= i < |days| ==> Resolved(frame.value[i], days[i], rates, asics)
  {
    match FirstLackingRate(days, rates, 0)
    case Some(i) => Failure(MissingMonthlyRate(days[i].date))
    case None =>
      match FirstLackingAsics(days, asics, 0)
      case Some(i) => Failure(MissingAsics(days[i].date))
      case None =>
        Success(seq(|days|, i requires 0 <= i < |days| =>
          assert Divisible(days[i], asics) && RowOfYear(asics, days[i].date.year).Some?;
          RawRecord(days[i], rates[MonthOf(days[i].date)], RowOfYear(asics, days[i].date.year).value)))
  }

  /** Both lookups of a day succeed: its month has a rate and its year a hardware row. */
  predicate Resolvable(day: DayInput, rates: map<MonthKey, real>, asics: seq<AsicsRow>)
  {
    MonthOf(day.date) in rates && RowOfYear(asics, day.date.year).Some?
  }

  /** Record `rec` is the raw record of the day, its month's rate and its
      year's hardware row. */
  predicate Resolved(rec: DailyRecord, day: DayInput, rates: map<MonthKey, real>, asics: seq<AsicsRow>)
  {
    && Resolvable(day, rates, asics)
    && Divisible(day, asics)
    && rec == RawRecord(day, rates[MonthOf(day.date)], RowOfYear(asics, day.date.year).value)
  }

  /** The `mining_cost_in_usd` column of a frame whose costs are all defined. */
  function CostColumn(frame: seq<DailyRecord>): (col: seq<real>)
    requires forall i :: 0 <= i < |frame| ==> frame[i].miningCost.Some?
    ensures |col| == |frame| && forall i :: 0 <= i < |frame| ==> Some(col[i]) == frame[i].miningCost
  {
    seq(|frame|, i requires 0 <= i < |frame| => frame[i].miningCost.value)
  }

  /** The `total_mining_cost_in_usd` column of a frame whose totals are all defined. */
  function TotalColumn(frame: seq<DailyRecord>): (col: seq<real>)
    requires forall i :: 0 <= i < |frame| ==> frame[i].totalMiningCost.Some?
    ensures |col| == |frame| && forall i :: 0 <= i < |frame| ==> Some(col[i]) == frame[i].totalMiningCost
  {
    seq(|frame|, i requires 0 <= i < |frame| => frame[i].totalMiningCost.value)
  }

  /** The frame after both cost columns are replaced by their trailing
      7-day means; every other column is kept. */
  function Smoothed(raw: seq<DailyRecord>): (frame: seq<DailyRecord>)
    requires forall i :: 0 <= i < |raw| ==> raw[i].miningCost.Some? && raw[i].totalMiningCost.Some?
    ensures |frame| == |raw|
    ensures forall i :: 0 <= i < |raw| ==>
      frame[i] == raw[i].(miningCost := frame[i].miningCost, totalMiningCost := frame[i].totalMiningCost)
    ensures forall i :: 0 <= i < |raw| ==>
      (frame[i].miningCost.Some? <==> i >= Window - 1)
      && (frame[i].totalMiningCost.Some? <==> i >= Window - 1)
  {
    var costs := RollingMean(CostColumn(raw), Window);
    var totals := RollingMean(TotalColumn(raw), Window);
    seq(|raw|, i requires 0 <= i < |raw| => raw[i].(miningCost := costs[i], totalMiningCost := totals[i]))
  }

  /** `get_final_df`: the raw frame, then the two smoothing assignments. */
  function FinalFrame(days: seq<DayInput>, rates: map<MonthKey, real>, asics: seq<AsicsRow>)
    : (frame: Result<seq<DailyRecord>, PipelineError>)
    requires forall i :: 0 <= i < |days| ==> Divisible(days[i], asics)
    ensures frame.Failure? <==> exists i :: 0 <= i < |days| && !Resolvable(days[i], rates, asics)
    ensures frame.Failure? ==> frame == RawFrame(days, rates, asics)
    ensures frame.Success? ==> frame.value == Smoothed(RawFrame(days, rates, asics).value)
  {
    match RawFrame(days, rates, asics)
    case Failure(e) => Failure(e)
    case Success(raw) => Success(Smoothed(raw))
  }

  /** The two cost columns are smoothed with the same window, so after
      smoothing a total is defined exactly where the mining cost is, and every
      defined total is still the smoothed mining cost divided by 0.6. */
  lemma SmoothedTotalTracksCost(raw: seq<DailyRecord>)
    requires forall i :: 0 <= i < |raw| ==> raw[i].miningCost.Some? && raw[i].totalMiningCost.Some?
    requires forall i :: 0 <= i < |raw| ==>
      raw[i].totalMiningCost.value * ElectricityShare == raw[i].miningCost.value
    ensures forall i :: 0 <= i < |raw| ==>
      (Smoothed(raw)[i].totalMiningCost.Some? <==> Smoothed(raw)[i].miningCost.Some?)
      && (Smoothed(raw)[i].miningCost.Some? ==>
            Smoothed(raw)[i].totalMiningCost.value == Smoothed(raw)[i].miningCost.value / ElectricityShare)
  {
    var costs := CostColumn(raw);
    assert TotalColumn(raw) == DivideAll(costs, ElectricityShare);
    RollingMeanDivideAll(costs, Window, ElectricityShare);
  }

  /** Both smoothed costs of a row are defined, and the total is the mining cost over 0.6. */
  predicate SmoothedCostsAgree(rec: DailyRecord)
  {
    && rec.miningCost.Some? && rec.totalMiningCost.Some?
    && rec.totalMiningCost.value == rec.miningCost.value / ElectricityShare
  }

  /** What `get_final_df` promises about its result: the first six rows carry
      no costs, and from the seventh row on each total is its row's mining cost
      divided by 0.6. */
  lemma FinalFrameCosts(days: seq<DayInput>, rates: map<MonthKey, real>, asics: seq<AsicsRow>)
    requires forall i :: 0 <= i < |days| ==> Divisible(days[i], asics)
    ensures FinalFrame(days, rates, asics).Success? ==>
      var frame := FinalFrame(days, rates, asics).value;
      |frame| == |days|
      && forall i :: 0 <= i < |frame| ==>
        && (i < Window - 1 ==> frame[i].miningCost.None? && frame[i].totalMiningCost.None?)
        && (i >= Window - 1 ==> SmoothedCostsAgree(frame[i]))
  {
    var raw := RawFrame(days, rates, asics);
    if raw.Success? {
      forall i | 0 <= i < |raw.value|
        ensures raw.value[i].totalMiningCost.value * ElectricityShare == raw.value[i].miningCost.value
      {
      }
      SmoothedTotalTracksCost(raw.value);
    }
  }

  /** The smoothing step of `get_final_df`: each cost column in turn is
      overwritten in place with its trailing 7-day mean. */
  method SmoothCosts(a: array<DailyRecord>)
    requires forall i :: 0 <= i < a.Length ==> a[i].miningCost.Some? && a[i].totalMiningCost.Some?
    modifies a
    ensures a[..] == Smoothed(old(a[..]))
  {
    ghost var raw := a[..];
    var costs := RollingMean(CostColumn(a[..]), Window);
    SetMiningCosts(a, costs);
    assert TotalColumn(a[..]) == TotalColumn(raw);
    var totals := RollingMean(TotalColumn(a[..]), Window);
    SetTotalCosts(a, totals);
    SmoothedFromColumns(raw, a[..]);
  }

  /** `df['mining_cost_in_usd'] = costs`: the column overwritten in place,
      every other column of every row kept. */
  method SetMiningCosts(a: array<DailyRecord>, costs: seq<Option<real>>)
    requires |costs| == a.Length
    modifies a
    ensures forall j :: 0 <= j < a.Length ==> a[j] == old(a[j]).(miningCost := costs[j])
  {
    for i := 0 to a.Length
      invariant forall j :: 0 <= j < i ==> a[j] == old(a[j]).(miningCost := costs[j])
      invariant forall j :: i <= j < a.Length ==> a[j] == old(a[j])
    {
      a[i] := a[i].(miningCost := costs[i]);
    }
  }

  /** `df['total_mining_cost_in_usd'] = totals`: the column overwritten in
      place, every other column of every row kept. */
  method SetTotalCosts(a: array<DailyRecord>, totals: seq<Option<real>>)
    requires |totals| == a.Length
    modifies a
    ensures forall j :: 0 <= j < a.Length ==> a[j] == old(a[j]).(totalMiningCost := totals[j])
  {
    for i := 0 to a.Length
      invariant forall j :: 0 <= j < i ==> a[j] == old(a[j]).(totalMiningCost := totals[j])
      invariant forall j :: i <= j < a.Length ==> a[j] == old(a[j])
    {
      a[i] := a[i].(totalMiningCost := totals[i]);
    }
  }

  /** A frame that holds each raw row with both cost columns replaced by
      their rolling means is the smoothed frame. */
  lemma SmoothedFromColumns(raw: seq<DailyRecord>, frame: seq<DailyRecord>)
    requires forall i :: 0 <= i < |raw| ==> raw[i].miningCost.Some? && raw[i].totalMiningCost.Some?
    requires |frame| == |raw|
    requires forall j :: 0 <= j < |raw| ==>
      frame[j] == raw[j].(miningCost := RollingMean(CostColumn(raw), Window)[j],
                          totalMiningCost := RollingMean(TotalColumn(raw), Window)[j])
    ensures frame == Smoothed(raw)
  {
  }

  /** The `usd_rub_rate` column: each day's monthly rate, or the failure at
      the first day whose month has no rate. */
  method RateColumn(days: seq<DayInput>, rates: map<MonthKey, real>)
    returns (column: Result<seq<real>, PipelineError>)
    ensures column.Failure? <==> FirstLackingRate(days, rates, 0).Some?
    ensures column.Failure? ==>
      column.error == MissingMonthlyRate(days[FirstLackingRate(days, rates, 0).value].date)
    ensures column.Success? ==> |column.value| == |days|
    ensures column.Success? ==> forall j :: 0 <= j < |days| ==>
      MonthOf(days[j].date) in rates && column.value[j] == rates[MonthOf(days[j].date)]
  {
    var values: seq<real> := [];
    for i := 0 to |days|
      invariant |values| == i
      invariant forall j :: 0 <= j < i ==>
        MonthOf(days[j].date) in rates && values[j] == rates[MonthOf(days[j].date)]
    {
      var key := MonthOf(days[i].date);
      if key !in rates {
        assert FirstLackingRate(days, rates, 0) == Some(i);
        return Failure(MissingMonthlyRate(days[i].date));
      }
      values := values + [rates[key]];
    }
    assert FirstLackingRate(days, rates, 0) == None;
    column := Success(values);
  }

  /** The hardware row of each day's year (the row the `asics_name`, `th_s`,
      `kwt_h` and `rub_kwt` columns read), or the failure at the first day
      whose year has none. */
  method ProfileColumn(days: seq<DayInput>, asics: seq<AsicsRow>)
    returns (column: Result<seq<AsicsRow>, PipelineError>)
    ensures column.Failure? <==> FirstLackingAsics(days, asics, 0).Some?
    ensures column.Failure? ==>
      column.error == MissingAsics(days[FirstLackingAsics(days, asics, 0).value].date)
    ensures column.Success? ==> |column.value| == |days|
    ensures column.Success? ==> forall j :: 0 <= j < |days| ==>
      RowOfYear(asics, days[j].date.year) == Some(column.value[j])
  {
    var rows: seq<AsicsRow> := [];
    for i := 0 to |days|
      invariant |rows| == i
      invariant forall j :: 0 <= j < i ==> RowOfYear(asics, days[j].date.year) == Some(rows[j])
    {
      var row := RowOfYear(asics, days[i].date.year);
      if row.None? {
        assert FirstLackingAsics(days, asics, 0) == Some(i);
        return Failure(MissingAsics(days[i].date));
      }
      rows := rows + [row.value];
    }
    assert FirstLackingAsics(days, asics, 0) == None;
    column := Success(rows);
  }

  /** Columns that resolve every day build the raw frame record by record. */
  lemma RawFrameFromColumns(days: seq<DayInput>, rates: map<MonthKey, real>, asics: seq<AsicsRow>,
                            rateColumn: seq<real>, rows: seq<AsicsRow>, records: seq<DailyRecord>)
    requires forall i :: 0 <= i < |days| ==> Divisible(days[i], asics)
    requires |rateColumn| == |days| && |rows| == |days| && |records| == |days|
    requires forall j :: 0 <= j < |days| ==>
      MonthOf(days[j].date) in rates && rateColumn[j] == rates[MonthOf(days[j].date)]
    requires forall j :: 0 <= j < |days| ==> RowOfYear(asics, days[j].date.year) == Some(rows[j])
    requires forall j :: 0 <= j < |days| ==>
      && days[j].hashrate != 0.0 && rows[j].thS != 0.0
      && records[j] == RawRecord(days[j], rateColumn[j], rows[j])
    ensures RawFrame(days, rates, asics) == Success(records)
  {
    var frame := RawFrame(days, rates, asics);
    forall i | 0 <= i < |days| ensures Resolvable(days[i], rates, asics) {
    }
    assert frame.Success?;
    forall i | 0 <= i < |days| ensures frame.value[i] == records[i] {
      assert Resolved(frame.value[i], days[i], rates, asics);
    }
    assert frame.value == records;
  }

  /** The cost columns computed row by row into a fresh frame, from each
      day's rate and hardware row. */
  method RawRows(days: seq<DayInput>, rateColumn: seq<real>, rows: seq<AsicsRow>)
    returns (a: array<DailyRecord>)
    requires |rateColumn| == |days| && |rows| == |days|
    requires forall j :: 0 <= j < |days| ==> days[j].hashrate != 0.0 && rows[j].thS != 0.0
    ensures fresh(a) && a.Length == |days|
    ensures forall j :: 0 <= j < |days| ==> a[j] == RawRecord(days[j], rateColumn[j], rows[j])
  {
    a := new DailyRecord[|days|];
    for i := 0 to |days|
      invariant forall j :: 0 <= j < i ==> a[j] == RawRecord(days[j], rateColumn[j], rows[j])
    {
      a[i] := RawRecord(days[i], rateColumn[i], rows[i]);
    }
  }

  /** `get_final_df`: fill the rate column, then the hardware columns (either
      fails at the first day it cannot resolve), compute the costs row by row
      into a fresh frame, and smooth the cost columns in place. */
  method GetFinalDf(days: seq<DayInput>, rates: map<MonthKey, real>, asics: seq<AsicsRow>)
    returns (result: Result<seq<DailyRecord>, PipelineError>)
    requires forall i :: 0 <= i < |days| ==> Divisible(days[i], asics)
    ensures result == FinalFrame(days, rates, asics)
  {
    var rateColumn := RateColumn(days, rates);
    if rateColumn.Failure? {
      return Failure(rateColumn.error);
    }
    var profiles := ProfileColumn(days, asics);
    if profiles.Failure? {
      return Failure(profiles.error);
    }
    assert forall j :: 0 <= j < |days| ==> Divisible(days[j], asics);
    var a := RawRows(days, rateColumn.value, profiles.value);
    RawFrameFromColumns(days, rates, asics, rateColumn.value, profiles.value, a[..]);
    SmoothCosts(a);
    result := Success(a[..]);
  }
}
