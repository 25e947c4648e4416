/** The display decisions of `updateWeatherDisplay` (js/crop.js): which background category a
    condition code selects and which subtitle explains a rainfall figure. Colours, icons and
    number formatting are not modelled. */
module WeatherDisplay {
  import opened Wrappers
  import Rainfall

  /** The background branches, one per condition group of the provider's code scheme. */
  datatype Category = Thunderstorm | Drizzle | RainCategory | Snow | Atmosphere | Clear | Clouds

  /** The codes each category stands for: six ranges and, for clouds, everything left over. */
  predicate Covers(c: Category, id: int) {
    match c
    case Thunderstorm => 200 <= id < 300
    case Drizzle => 300 <= id < 400
    case RainCategory => 500 <= id < 600
    case Snow => 600 <= id < 700
    case Atmosphere => 700 <= id < 800
    case Clear => id == 800
    case Clouds => id < 200 || 400 <= id < 500 || 800 < id
  }

  /** The branch the background `if` chain takes: the one category covering `id`, and no other
      category covers it. */
  function Classify(id: int): (c: Category)
    ensures Covers(c, id)
    ensures forall other: Category :: Covers(other, id) ==> other == c
  {
    if 200 <= id < 300 then Thunderstorm
    else if 300 <= id < 400 then Drizzle
    else if 500 <= id < 600 then RainCategory
    else if 600 <= id < 700 then Snow
    else if 700 <= id < 800 then Atmosphere
    else if id == 800 then Clear
    else Clouds
  }

  predicate IsPrecipitation(c: Category) {
    c == Thunderstorm || c == Drizzle || c == RainCategory || c == Snow
  }

  /** The four amount buckets of the current-conditions estimator are exactly the four
      precipitation categories of the display; the forecast estimator's [200,700) test also
      admits the cloud codes 400-499. */
  lemma BucketsArePrecipitationCategories(id: int, r: Rainfall.RandomDraw)
    ensures Rainfall.CurrentConditionAmount(id, r).Some? <==> IsPrecipitation(Classify(id))
    ensures (200 <= id < 700) <==> IsPrecipitation(Classify(id)) || 400 <= id < 500
  {
  }

  /** The `dataSource` string each source is tagged with. */
  function Tag(s: Rainfall.Source): string {
    match s
    case Forecast => "forecast"
    case Estimate => "estimate"
    case Climate => "climate"
    case Current => "current"
  }

  const NoRainfallSubtitle := "No rainfall expected"

  /** The `else if` chain on `dataSource`: a subtitle for each of the four known tags, `None`
      (subtitle left as it was) for any other string. */
  function SubtitleForTag(tag: string): (sub: Option<string>)
    ensures sub.Some? <==> tag in {"forecast", "estimate", "climate", "current"}
    ensures sub.Some? ==> sub.value != NoRainfallSubtitle
  {
    if tag == "forecast" then Some("Based on weather forecast data")
    else if tag == "estimate" then Some("Estimated from current weather conditions")
    else if tag == "climate" then Some("Estimated from typical climate patterns")
    else if tag == "current" then Some("Estimated from current weather data")
    else None
  }

  /** The subtitle shown under a rainfall figure, given the one currently shown. Every estimator
      result gets a subtitle of its own; only a result without rainfall says none is expected. */
  function RainfallSubtitle(info: Rainfall.RainfallInfo, shown: string): (sub: string)
    ensures info.hasRainfall ==> sub != NoRainfallSubtitle && SubtitleForTag(Tag(info.dataSource)) == Some(sub)
    ensures !info.hasRainfall ==> sub == NoRainfallSubtitle
  {
    if info.hasRainfall then
      match SubtitleForTag(Tag(info.dataSource))
      case Some(s) => s
      case None => shown
    else NoRainfallSubtitle
  }

  /** Distinct sources get distinct subtitles, so the subtitle tells the reader which source produced
      the figure. */
  lemma SubtitleIdentifiesSource(a: Rainfall.RainfallInfo, b: Rainfall.RainfallInfo, shownA: string, shownB: string)
    requires a.hasRainfall && b.hasRainfall
    requires RainfallSubtitle(a, shownA) == RainfallSubtitle(b, shownB)
    ensures a.dataSource == b.dataSource
  {
  }
}
