/** Rainfall estimation of the weather widget (js/crop.js): the forecast-based estimator
    `calculateRainfall` and the current-conditions fallback `estimateRainfallFromWeather`.
    `Math.random()` and `new Date().getMonth()` are passed in as `r` and `month`; amounts are
    exact reals. */
module Rainfall {
  import opened Wrappers

  /** A value `Math.random()` can return. */
  type RandomDraw = r: real | 0.0 <= r < 1.0

  /** A value `new Date().getMonth()` can return: 0 is January, 11 is December. */
  type Month = m: int | 0 <= m < 12

  /** The provider's `rain` object: `rain['1h']` and `rain['3h']` in millimetres, each possibly absent. */
  datatype Rain = Rain(oneHour: Option<real>, threeHour: Option<real>)

  /** One forecast interval, reduced to what the estimator reads: `weather[0].id` and the optional
      `rain` object. */
  datatype Interval = Interval(weatherId: int, rain: Option<Rain>)

  /** A forecast payload: its `list` of intervals and `city.coord.lat`. */
  datatype ForecastData = ForecastData(list: seq<Interval>, cityLat: real)

  /** A current-weather payload: `weather[0].id`, the optional `rain` object and `coord.lat`. */
  datatype WeatherData = WeatherData(weatherId: int, rain: Option<Rain>, lat: real)

  /** The `dataSource` tag of a result: "forecast", "estimate", "climate" or "current". */
  datatype Source = Forecast | Estimate | Climate | Current

  /** The object both estimators return. */
  datatype RainfallInfo = RainfallInfo(hasRainfall: bool, dailySumMM: real, monthlySumMM: real, dataSource: Source)

  /** A forecast with no interval makes `list[0].weather` throw. */
  datatype Error = EmptyForecast

  /** JavaScript truthiness of an optional amount: present and non-zero. */
  predicate Truthy(v: Option<real>) {
    v.Some? && v.value != 0.0
  }

  /** `interval.rain && interval.rain['3h']` */
  predicate HasThreeHourRain(i: Interval) {
    i.rain.Some? && Truthy(i.rain.value.threeHour)
  }

  /** What the forecast loop adds for one interval. */
  function ThreeHourAmount(i: Interval): real {
    if HasThreeHourRain(i) then i.rain.value.threeHour.value else 0.0
  }

  predicate AnyRain(list: seq<Interval>) {
    exists k :: 0 <= k < |list| && HasThreeHourRain(list[k])
  }

  /** The truthy three-hour amounts of `list`, added up in list order. */
  function RainSum(list: seq<Interval>): (total: real)
    ensures !AnyRain(list) ==> total == 0.0
    ensures (forall k :: 0 <= k < |list| ==> ThreeHourAmount(list[k]) >= 0.0) ==> total >= 0.0
  {
    if |list| == 0 then 0.0
    else
      var init := list[..|list| - 1];
      assert forall k :: 0 <= k < |init| ==> init[k] == list[k];
      RainSum(init) + ThreeHourAmount(list[|list| - 1])
  }

  /** The `forEach` loop over the forecast intervals. */
  method SumForecastRain(list: seq<Interval>) returns (totalRain: real, hasRainfall: bool)
    ensures totalRain == RainSum(list)
    ensures hasRainfall <==> AnyRain(list)
  {
    totalRain := 0.0;
    hasRainfall := false;
    for k := 0 to |list|
      invariant totalRain == RainSum(list[..k])
      invariant hasRainfall <==> AnyRain(list[..k])
    {
      assert list[..k + 1][..k] == list[..k];
      if list[k].rain.Some? && Truthy(list[k].rain.value.threeHour) {
        totalRain := totalRain + list[k].rain.value.threeHour.value;
        hasRainfall := true;
        assert list[..k + 1][k] == list[k];
      }
    }
    assert list[..|list|] == list;
  }

  datatype Zone = Temperate | Subtropical | Tropical

  function Abs(x: real): real {
    if x < 0.0 then -x else x
  }

  /** The latitude zones of both estimators: above 40 degrees temperate, above 23 subtropical. */
  function ZoneOf(lat: real): (z: Zone)
    ensures z == Temperate <==> lat < -40.0 || 40.0 < lat
    ensures z == Subtropical <==> -40.0 <= lat < -23.0 || 23.0 < lat <= 40.0
    ensures z == Tropical <==> -23.0 <= lat <= 23.0
  {
    if Abs(lat) > 40.0 then Temperate
    else if Abs(lat) > 23.0 then Subtropical
    else Tropical
  }

  /** Monthly rainfall averages (mm per month) of `calculateRainfall`'s climate fallback. */
  function MonthlyClimate(z: Zone, m: Month): (mm: real)
    ensures 20.0 <= mm <= 200.0
  {
    var table :=
      match z
      case Temperate => [80.0, 70.0, 65.0, 60.0, 55.0, 50.0, 45.0, 50.0, 55.0, 65.0, 75.0, 80.0]
      case Subtropical => [40.0, 45.0, 50.0, 55.0, 60.0, 30.0, 20.0, 25.0, 30.0, 40.0, 45.0, 40.0]
      case Tropical => [20.0, 30.0, 50.0, 70.0, 120.0, 180.0, 200.0, 190.0, 150.0, 100.0, 60.0, 30.0];
    table[m]
  }

  /** Daily rainfall averages (mm per day) of `estimateRainfallFromWeather`'s climate fallback. */
  function DailyClimate(z: Zone, m: Month): (mm: real)
    ensures 0.7 <= mm <= 6.7
  {
    var table :=
      match z
      case Temperate => [2.5, 2.3, 2.1, 2.0, 1.8, 1.7, 1.5, 1.7, 1.8, 2.1, 2.3, 2.5]
      case Subtropical => [1.3, 1.5, 1.7, 1.8, 2.0, 1.0, 0.7, 0.8, 1.0, 1.3, 1.5, 1.3]
      case Tropical => [0.7, 1.0, 1.7, 2.3, 4.0, 6.0, 6.7, 6.3, 5.0, 3.3, 2.0, 1.0];
    table[m]
  }

  /** `calculateRainfall` for a first-interval code in [200,700): the bucket amount scaled by
      `0.5 + 0.5 r`. Codes in [400,500) match no bucket and keep the running total `current`. */
  function ConditionAmount(id: int, r: RandomDraw, current: real): (amount: real)
    requires 200 <= id < 700
    ensures 200 <= id < 300 ==> 7.5 <= amount < 15.0
    ensures 300 <= id < 400 ==> 2.5 <= amount < 5.0
    ensures 500 <= id < 600 ==> 5.0 <= amount < 10.0
    ensures 600 <= id < 700 ==> 4.0 <= amount < 8.0
    ensures 400 <= id < 500 ==> amount == current
  {
    var randomness := r * 0.5 + 0.5;
    if 200 <= id < 300 then 15.0 * randomness
    else if 300 <= id < 400 then 5.0 * randomness
    else if 500 <= id < 600 then 10.0 * randomness
    else if 600 <= id < 700 then 8.0 * randomness
    else current
  }

  /** `calculateRainfall`'s climate fallback: a thirtieth of the monthly average, jittered by
      a factor in [0.8, 1.2). */
  function JitteredClimate(z: Zone, m: Month, r: RandomDraw): (daily: real)
    ensures MonthlyClimate(z, m) / 30.0 * 0.8 <= daily < MonthlyClimate(z, m) / 30.0 * 1.2
    ensures daily > 0.0
  {
    var base := MonthlyClimate(z, m) / 30.0;
    assert base * r >= 0.0 && base * r < base by {
      assert base > 0.0;
      assert base - base * r == base * (1.0 - r);
    }
    base * (0.8 + r * 0.4)
  }

  /** `calculateRainfall`: forecast totals when any interval reports three-hour rain, else a
      condition-code estimate from the first interval, else a climate estimate. */
  function CalculateRainfall(f: ForecastData, r: RandomDraw, month: Month): (res: Result<RainfallInfo, Error>)
    ensures res.Failure? <==> |f.list| == 0
    ensures res.Success? ==> res.value.hasRainfall
    ensures res.Success? ==> (res.value.dataSource == Forecast <==> AnyRain(f.list))
    ensures res.Success? && res.value.dataSource == Forecast ==>
              res.value.dailySumMM == RainSum(f.list) && res.value.monthlySumMM == 6.0 * res.value.dailySumMM
    ensures res.Success? && res.value.dataSource != Forecast ==>
              res.value.monthlySumMM == 30.0 * res.value.dailySumMM
    ensures res.Success? && !AnyRain(f.list) ==>
              (res.value.dataSource == Estimate <==> 200 <= f.list[0].weatherId < 700)
    ensures res.Success? && res.value.dataSource == Estimate ==>
              res.value.dailySumMM == ConditionAmount(f.list[0].weatherId, r, 0.0)
    ensures res.Success? && !AnyRain(f.list) && !(200 <= f.list[0].weatherId < 700) ==>
              res.value.dataSource == Climate
    ensures res.Success? && res.value.dataSource == Climate ==>
              res.value.dailySumMM == JitteredClimate(ZoneOf(f.cityLat), month, r)
  {
    var totalRain := RainSum(f.list);
    var hasRainfall := AnyRain(f.list);
    var monthlyRain := totalRain * 6.0;
    if !hasRainfall then
      if |f.list| == 0 then Failure(EmptyForecast)
      else
        var weatherId := f.list[0].weatherId;
        if 200 <= weatherId < 700 then
          var daily := ConditionAmount(weatherId, r, totalRain);
          Success(RainfallInfo(true, daily, daily * 30.0, Estimate))
        else
          var daily := JitteredClimate(ZoneOf(f.cityLat), month, r);
          Success(RainfallInfo(true, daily, daily * 30.0, Climate))
    else
      Success(RainfallInfo(hasRainfall, totalRain, monthlyRain, Forecast))
  }

  /** `estimateRainfallFromWeather` without a `rain` object: amounts for the four precipitation
      buckets, `None` for every other code. */
  function CurrentConditionAmount(id: int, r: RandomDraw): (amount: Option<real>)
    ensures amount.Some? <==> 200 <= id < 400 || 500 <= id < 700
    ensures 200 <= id < 300 ==> 10.0 <= amount.value < 25.0
    ensures 300 <= id < 400 ==> 2.0 <= amount.value < 7.0
    ensures 500 <= id < 600 ==> 5.0 <= amount.value < 20.0
    ensures 600 <= id < 700 ==> 3.0 <= amount.value < 13.0
  {
    if 200 <= id < 300 then Some(10.0 + r * 15.0)
    else if 300 <= id < 400 then Some(2.0 + r * 5.0)
    else if 500 <= id < 600 then Some(5.0 + r * 15.0)
    else if 600 <= id < 700 then Some(3.0 + r * 10.0)
    else None
  }

  /** `estimateRainfallFromWeather`: the current `rain` object converted to a daily rate when there
      is one, else a condition-code estimate, else the unjittered climate average. */
  function EstimateRainfallFromWeather(w: WeatherData, r: RandomDraw, month: Month): (info: RainfallInfo)
    ensures info.hasRainfall
    ensures info.monthlySumMM == 30.0 * info.dailySumMM
    ensures info.dataSource == Current || info.dataSource == Climate
    ensures w.rain.Some? ==> info.dataSource == Current
    ensures w.rain.Some? && Truthy(w.rain.value.threeHour) ==>
              info.dailySumMM == 8.0 * w.rain.value.threeHour.value
    ensures w.rain.Some? && !Truthy(w.rain.value.threeHour) && Truthy(w.rain.value.oneHour) ==>
              info.dailySumMM == 24.0 * w.rain.value.oneHour.value
    ensures w.rain.Some? && !Truthy(w.rain.value.threeHour) && !Truthy(w.rain.value.oneHour) ==>
              info.dailySumMM == 0.0
    ensures w.rain.None? ==>
              (info.dataSource == Current <==> CurrentConditionAmount(w.weatherId, r).Some?)
    ensures w.rain.None? && info.dataSource == Current ==>
              info.dailySumMM == CurrentConditionAmount(w.weatherId, r).value
    ensures info.dataSource == Climate ==> info.dailySumMM == DailyClimate(ZoneOf(w.lat), month)
  {
    var weatherId := w.weatherId;
    var (dailyRain, source) :=
      if w.rain.Some? then
        var rain := w.rain.value;
        var fromOneHour := if Truthy(rain.oneHour) then rain.oneHour.value * 24.0 else 0.0;
        (if Truthy(rain.threeHour) then rain.threeHour.value * 8.0 else fromOneHour, Current)
      else
        match CurrentConditionAmount(weatherId, r)
        case Some(amount) => (amount, Current)
        case None => (DailyClimate(ZoneOf(w.lat), month), Climate);
    RainfallInfo(true, dailyRain, dailyRain * 30.0, source)
  }
}
