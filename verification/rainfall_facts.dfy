/** Properties of the two rainfall estimators that relate several calls or whole input families. */
module RainfallFacts {
  import opened Wrappers
  import opened Rainfall

  /** Two forecast lists that agree, interval by interval, on whether a truthy three-hour amount
      is present and on that amount have the same total and the same rain flag. */
  lemma {:induction false} SameCountedRainSameSum(a: seq<Interval>, b: seq<Interval>)
    requires |a| == |b|
    requires forall k :: 0 <= k < |a| ==> HasThreeHourRain(a[k]) == HasThreeHourRain(b[k])
    requires forall k :: 0 <= k < |a| ==> ThreeHourAmount(a[k]) == ThreeHourAmount(b[k])
    ensures RainSum(a) == RainSum(b)
    ensures AnyRain(a) == AnyRain(b)
  {
    if |a| > 0 {
      SameCountedRainSameSum(a[..|a| - 1], b[..|b| - 1]);
    }
    if AnyRain(a) {
      var k :| 0 <= k < |a| && HasThreeHourRain(a[k]);
      assert HasThreeHourRain(b[k]);
    }
    if AnyRain(b) {
      var k :| 0 <= k < |b| && HasThreeHourRain(b[k]);
      assert HasThreeHourRain(a[k]);
    }
  }

  /** Only truthy `rain['3h']` values count: one-hour amounts, zero or absent three-hour amounts,
      missing `rain` objects and the condition codes after the first interval never change the
      result of `calculateRainfall`. */
  lemma OnlyThreeHourRainCounts(f: ForecastData, g: ForecastData, r: RandomDraw, month: Month)
    requires |f.list| == |g.list| && f.cityLat == g.cityLat
    requires |f.list| > 0 ==> f.list[0].weatherId == g.list[0].weatherId
    requires forall k :: 0 <= k < |f.list| ==> HasThreeHourRain(f.list[k]) == HasThreeHourRain(g.list[k])
    requires forall k :: 0 <= k < |f.list| ==> ThreeHourAmount(f.list[k]) == ThreeHourAmount(g.list[k])
    ensures CalculateRainfall(f, r, month) == CalculateRainfall(g, r, month)
  {
    SameCountedRainSameSum(f.list, g.list);
  }

  /** A list in which every interval reports the same truthy three-hour amount `c` totals `|list| * c`. */
  lemma {:induction false} UniformRainSum(list: seq<Interval>, c: real)
    requires forall k :: 0 <= k < |list| ==> HasThreeHourRain(list[k]) && ThreeHourAmount(list[k]) == c
    ensures RainSum(list) == |list| as real * c
  {
    if |list| > 0 {
      UniformRainSum(list[..|list| - 1], c);
    }
  }

  /** A forecast whose `n > 0` intervals each report `rain['3h'] == c != 0` gives the forecast
      source, a daily figure of `n * c` and a monthly figure of `6 * (n * c)`. */
  lemma UniformForecast(f: ForecastData, c: real, r: RandomDraw, month: Month)
    requires |f.list| > 0 && c != 0.0
    requires forall k :: 0 <= k < |f.list| ==> f.list[k].rain.Some? && f.list[k].rain.value.threeHour == Some(c)
    ensures CalculateRainfall(f, r, month)
            == Success(RainfallInfo(true, |f.list| as real * c, 6.0 * (|f.list| as real * c), Forecast))
  {
    UniformRainSum(f.list, c);
    assert HasThreeHourRain(f.list[0]);
    var res := CalculateRainfall(f, r, month);
    assert res.Success? && res.value.dataSource == Forecast;
    assert res.value.dailySumMM == |f.list| as real * c;
  }

  /** Forty three-hour intervals of 0.5 mm each: 20 mm daily, 120 mm monthly, from the forecast. */
  lemma FortyHalfMillimetreIntervals(lat: real, r: RandomDraw, month: Month)
    ensures var list := seq(40, k => Interval(500, Some(Rain(None, Some(0.5)))));
            CalculateRainfall(ForecastData(list, lat), r, month) == Success(RainfallInfo(true, 20.0, 120.0, Forecast))
  {
    var list := seq(40, k => Interval(500, Some(Rain(None, Some(0.5)))));
    UniformForecast(ForecastData(list, lat), 0.5, r, month);
  }

  /** All amounts a payload can report are non-negative. */
  predicate NonNegativeRain(rain: Option<Rain>) {
    rain.Some? ==>
      && (rain.value.oneHour.Some? ==> rain.value.oneHour.value >= 0.0)
      && (rain.value.threeHour.Some? ==> rain.value.threeHour.value >= 0.0)
  }

  /** With non-negative reported amounts, every figure either estimator returns is non-negative. */
  lemma NonNegativeEstimates(f: ForecastData, w: WeatherData, r: RandomDraw, month: Month)
    requires forall k :: 0 <= k < |f.list| ==> NonNegativeRain(f.list[k].rain)
    requires NonNegativeRain(w.rain)
    ensures CalculateRainfall(f, r, month).Success? ==>
              CalculateRainfall(f, r, month).value.dailySumMM >= 0.0
              && CalculateRainfall(f, r, month).value.monthlySumMM >= 0.0
    ensures EstimateRainfallFromWeather(w, r, month).dailySumMM >= 0.0
    ensures EstimateRainfallFromWeather(w, r, month).monthlySumMM >= 0.0
  {
    assert forall k :: 0 <= k < |f.list| ==> ThreeHourAmount(f.list[k]) >= 0.0;
  }

  /** With a `rain` object present, `estimateRainfallFromWeather` never consults the condition
      code, the latitude, the month or the random draw. */
  lemma RainObjectDecides(w: WeatherData, w': WeatherData, r: RandomDraw, r': RandomDraw, m: Month, m': Month)
    requires w.rain.Some? && w'.rain == w.rain
    ensures EstimateRainfallFromWeather(w, r, m) == EstimateRainfallFromWeather(w', r', m')
  {
  }

  /** Codes in [400,500) with no rain data: the forecast estimator reports an "estimate" of 0 mm,
      while the current-conditions estimator falls through to the climate table. */
  lemma FourHundredsDiverge(f: ForecastData, w: WeatherData, r: RandomDraw, month: Month)
    requires |f.list| > 0 && !AnyRain(f.list) && 400 <= f.list[0].weatherId < 500
    requires w.rain.None? && 400 <= w.weatherId < 500
    ensures CalculateRainfall(f, r, month) == Success(RainfallInfo(true, 0.0, 0.0, Estimate))
    ensures EstimateRainfallFromWeather(w, r, month).dataSource == Climate
  {
  }

  /** Outside the temperate zone the daily table is the monthly table divided by 30 and rounded to
      0.1 mm; in the temperate zone January (and November, December) departs from it. */
  lemma ClimateTablesAgree(z: Zone, m: Month)
    ensures z != Temperate ==> -0.05 <= DailyClimate(z, m) - MonthlyClimate(z, m) / 30.0 <= 0.05
    ensures DailyClimate(Temperate, 0) - MonthlyClimate(Temperate, 0) / 30.0 == -1.0 / 6.0
  {
  }

  /** Latitude 10, July, clear sky, no rain data: the current-conditions estimate is exactly the
      tropical July average 6.7 mm, and the forecast estimate lies within 20% of 200/30 mm. */
  lemma TropicalJulyExample(r: RandomDraw)
    ensures EstimateRainfallFromWeather(WeatherData(800, None, 10.0), r, 6)
            == RainfallInfo(true, 6.7, 201.0, Climate)
    ensures var res := CalculateRainfall(ForecastData([Interval(800, None)], 10.0), r, 6);
            && res.Success? && res.value.dataSource == Climate
            && 200.0 / 30.0 * 0.8 <= res.value.dailySumMM < 200.0 / 30.0 * 1.2
  {
    var list := [Interval(800, None)];
    assert !HasThreeHourRain(list[0]);
  }
}
