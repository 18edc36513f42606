/**
 * The forecast view: one row per day of the daily forecast, each row drawn
 * from the same index of every parallel column, with the day's weather code
 * translated through the code table.
 */
module Forecast {
  import opened Wrappers
  import opened WeatherCode

  /** The `daily` part of the forecast response: parallel per-day columns. */
  datatype Daily = Daily(
    time: seq<string>,
    temperatureMin: seq<real>,
    temperatureMax: seq<real>,
    apparentTemperatureMin: seq<real>,
    apparentTemperatureMax: seq<real>,
    weathercode: seq<int>)

  /** The `daily_units` part: one unit string per temperature column. */
  datatype DailyUnits = DailyUnits(
    temperatureMin: string,
    temperatureMax: string,
    apparentTemperatureMin: string,
    apparentTemperatureMax: string)

  /** The forecast response (`WeatherData`). */
  datatype WeatherData = WeatherData(daily: Daily, dailyUnits: DailyUnits, latitude: real, longitude: real)

  /** A temperature followed by its unit. */
  datatype Reading = Reading(value: real, unit: string)

  /** One rendered day: date, min ~ max, "feels like" min ~ max, weather. */
  datatype Row = Row(time: string, low: Reading, high: Reading, feelsLow: Reading, feelsHigh: Reading, weather: Shown)

  /** What the forecast area shows: the "Use GPS first" prompt, or the rows. */
  datatype View = UseGpsFirst | Rows(rows: seq<Row>)

  /** Every column has an entry for each date of `time`. */
  predicate CoversTime(daily: Daily) {
    && |daily.temperatureMin| >= |daily.time|
    && |daily.temperatureMax| >= |daily.time|
    && |daily.apparentTemperatureMin| >= |daily.time|
    && |daily.apparentTemperatureMax| >= |daily.time|
    && |daily.weathercode| >= |daily.time|
  }

  /** The row of day `i`. */
  function RenderRow(data: WeatherData, table: Option<CodeTable>, i: nat): Row
    requires CoversTime(data.daily) && i < |data.daily.time|
  {
    var daily, units := data.daily, data.dailyUnits;
    Row(daily.time[i],
        Reading(daily.temperatureMin[i], units.temperatureMin),
        Reading(daily.temperatureMax[i], units.temperatureMax),
        Reading(daily.apparentTemperatureMin[i], units.apparentTemperatureMin),
        Reading(daily.apparentTemperatureMax[i], units.apparentTemperatureMax),
        ShownWeather(table, daily.weathercode[i]))
  }

  /**
   * `renderRows`: `time.map` over the dates. There is exactly one row per
   * date, and row `i` takes every field from index `i` of its column.
   */
  function RenderRows(data: WeatherData, table: Option<CodeTable>): (rows: seq<Row>)
    requires CoversTime(data.daily)
    ensures |rows| == |data.daily.time|
    ensures forall i | 0 <= i < |rows| ::
      && rows[i].time == data.daily.time[i]
      && rows[i].low == Reading(data.daily.temperatureMin[i], data.dailyUnits.temperatureMin)
      && rows[i].high == Reading(data.daily.temperatureMax[i], data.dailyUnits.temperatureMax)
      && rows[i].feelsLow == Reading(data.daily.apparentTemperatureMin[i], data.dailyUnits.apparentTemperatureMin)
      && rows[i].feelsHigh == Reading(data.daily.apparentTemperatureMax[i], data.dailyUnits.apparentTemperatureMax)
      && rows[i].weather == ShownWeather(table, data.daily.weathercode[i])
  {
    seq(|data.daily.time|, i requires 0 <= i < |data.daily.time| => RenderRow(data, table, i))
  }

  /** `renderWeatherData`: the prompt until a forecast has arrived, then its rows. */
  function RenderWeatherData(weatherData: Option<WeatherData>, table: Option<CodeTable>): (view: View)
    requires weatherData.Some? ==> CoversTime(weatherData.value.daily)
    ensures view.UseGpsFirst? <==> weatherData.None?
    ensures view.Rows? ==> |view.rows| == |weatherData.value.daily.time|
    ensures view.Rows? ==> view.rows == RenderRows(weatherData.value, table)
  {
    match weatherData
    case None => UseGpsFirst
    case Some(data) => Rows(RenderRows(data, table))
  }

  /** The forecast with every column cut down to the dates of `time`. */
  function Trimmed(daily: Daily): (trimmed: Daily)
    requires CoversTime(daily)
    ensures CoversTime(trimmed) && trimmed.time == daily.time
  {
    var n := |daily.time|;
    Daily(daily.time, daily.temperatureMin[..n], daily.temperatureMax[..n],
          daily.apparentTemperatureMin[..n], daily.apparentTemperatureMax[..n], daily.weathercode[..n])
  }

  /** Column entries past the last date are never shown. */
  lemma RowsIgnoreExtraEntries(data: WeatherData, table: Option<CodeTable>)
    requires CoversTime(data.daily)
    ensures RenderRows(data.(daily := Trimmed(data.daily)), table) == RenderRows(data, table)
  {
  }

  /** The rows of the first `k` dates are the first `k` rows: each row depends only on its own day. */
  lemma RowsOfFirstDays(data: WeatherData, table: Option<CodeTable>, k: nat)
    requires CoversTime(data.daily) && k <= |data.daily.time|
    ensures CoversTime(data.daily.(time := data.daily.time[..k]))
    ensures RenderRows(data.(daily := data.daily.(time := data.daily.time[..k])), table)
         == RenderRows(data, table)[..k]
  {
  }

  /** A five-day forecast renders exactly five rows. */
  lemma FiveDaysFiveRows(data: WeatherData, table: Option<CodeTable>)
    requires CoversTime(data.daily) && |data.daily.time| == 5
    ensures RenderWeatherData(Some(data), table) == Rows(RenderRows(data, table))
    ensures |RenderRows(data, table)| == 5
  {
  }
}
