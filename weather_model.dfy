/** `WeatherModel`: the last forecast that was received, and the accessors that read it. */
module Models {
  import opened Wrappers
  import opened Foundation
  import opened Networking
  import opened WeatherAPI
  import StringExtensions

  /** `dict[key] ?? nil`: a missing key and a key holding `nil` both read as `nil`. */
  function Lookup(dict: Record, key: string): (r: Option<string>)
    ensures r.Some? <==> key in dict && dict[key].Some?
    ensures r.Some? ==> dict[key] == r
  {
    if key in dict then dict[key] else None
  }

  class WeatherModel {
    var currentWeather: CurrentData
    var hourlyWeather: HourlyData

    /** The shared instance starts with no data. */
    constructor()
      ensures currentWeather == map[] && hourlyWeather == []
      ensures !HasData()
    {
      currentWeather := map[];
      hourlyWeather := [];
    }

    /**
     * `maybeUpdate`: a success carrying a weather value replaces both parts of the state and
     * reports `true`; a failure or any other payload reports `false` and changes nothing.
     * The delegate notification is the caller acting on `true`.
     */
    method MaybeUpdate(result: Result<Payload, Error>) returns (updated: bool)
      modifies this
      ensures updated <==> result.Success? && result.value.WeatherPayload?
      ensures updated ==> currentWeather == result.value.weather.current
      ensures updated ==> hourlyWeather == result.value.weather.hourly
      ensures !updated ==> currentWeather == old(currentWeather) && hourlyWeather == old(hourlyWeather)
    {
      match result
      case Success(WeatherPayload(weather)) =>
        currentWeather := weather.current;
        hourlyWeather := weather.hourly;
        return true;
      case Failure(_) =>
        return false;
      case _ =>
        return false;
    }

    function HourlyModels(): HourlyData
      reads this
    {
      hourlyWeather
    }

    /** `hasData`: both the current observation and the hourly forecast are non-empty. */
    predicate HasData(): (b: bool)
      reads this
      ensures b <==> |currentWeather| > 0 && |hourlyWeather| > 0
    {
      currentWeather != map[] && hourlyWeather != []
    }

    function CurrentCity(): (r: Option<string>)
      reads this
      ensures r.None? <==> "currentCity" !in currentWeather || currentWeather["currentCity"].None?
    {
      Lookup(currentWeather, "currentCity")
    }

    function CurrentTempF(): (r: Option<string>)
      reads this
      ensures r.None? <==> "currentTempF" !in currentWeather || currentWeather["currentTempF"].None?
    {
      Lookup(currentWeather, "currentTempF")
    }

    function CurrentTempC(): (r: Option<string>)
      reads this
      ensures r.None? <==> "currentTempC" !in currentWeather || currentWeather["currentTempC"].None?
    {
      Lookup(currentWeather, "currentTempC")
    }

    function CurrentCondition(): (r: Option<string>)
      reads this
      ensures r.None? <==> "currentCondition" !in currentWeather || currentWeather["currentCondition"].None?
    {
      Lookup(currentWeather, "currentCondition")
    }

    // The hourly accessors read the record given to them, not the model's own state.

    function HourlyPrettyTimestamp(hour: nat, weather: HourlyData): (r: Option<string>)
      requires hour < |weather|
      ensures r.None? <==> "hourlyPrettyTimestamp" !in weather[hour] || weather[hour]["hourlyPrettyTimestamp"].None?
    {
      Lookup(weather[hour], "hourlyPrettyTimestamp")
    }

    function HourlyUnixTimestamp(hour: nat, weather: HourlyData): (r: Option<string>)
      requires hour < |weather|
      ensures r.None? <==> "hourlyUnixTimestamp" !in weather[hour] || weather[hour]["hourlyUnixTimestamp"].None?
    {
      Lookup(weather[hour], "hourlyUnixTimestamp")
    }

    function HourlyTempF(hour: nat, weather: HourlyData): (r: Option<string>)
      requires hour < |weather|
      ensures r.None? <==> "hourlyTempF" !in weather[hour] || weather[hour]["hourlyTempF"].None?
    {
      Lookup(weather[hour], "hourlyTempF")
    }

    function HourlyTempC(hour: nat, weather: HourlyData): (r: Option<string>)
      requires hour < |weather|
      ensures r.None? <==> "hourlyTempC" !in weather[hour] || weather[hour]["hourlyTempC"].None?
    {
      Lookup(weather[hour], "hourlyTempC")
    }

    /** `hourlyIconURL`: `nil` without an icon key, otherwise the icon's image URL. */
    function HourlyIconURL(hour: nat, highlighted: bool, weather: HourlyData): (r: Option<Url>)
      requires hour < |weather|
      ensures r.None? <==> Lookup(weather[hour], "hourlyIcon").None?
      ensures r.Some? ==> r == StringExtensions.WeatherIconURL(Lookup(weather[hour], "hourlyIcon").value, highlighted)
    {
      match Lookup(weather[hour], "hourlyIcon")
      case None => None
      case Some(icon) => StringExtensions.WeatherIconURL(icon, highlighted)
    }
  }

  /**
   * After a forecast document has been parsed into the model, the accessors give back the
   * strings of the document, and the model has data.
   */
  lemma AccessorsAfterParse(model: WeatherModel, o: Observation, hours: seq<Hour>, hour: nat, highlighted: bool)
    requires o.condition.Some?
    requires Parsed(Success(DataPayload(Decodable(ForecastJson(o, hours))))) ==
             Returned(Weather(model.currentWeather, model.hourlyWeather))
    requires hour < |hours|
    ensures model.HasData()
    ensures model.CurrentCity() == Some(o.city)
    ensures model.CurrentTempF() == Some(o.tempF)
    ensures model.CurrentTempC() == Some(o.tempC)
    ensures model.CurrentCondition() == o.condition
    ensures model.HourlyPrettyTimestamp(hour, model.hourlyWeather) == Some(hours[hour].civil)
    ensures model.HourlyUnixTimestamp(hour, model.hourlyWeather) == Some(hours[hour].epoch)
    ensures model.HourlyTempF(hour, model.hourlyWeather) == Some(hours[hour].english)
    ensures model.HourlyTempC(hour, model.hourlyWeather) == Some(hours[hour].metric)
    ensures model.HourlyIconURL(hour, highlighted, model.hourlyWeather) ==
            StringExtensions.WeatherIconURL(hours[hour].icon, highlighted)
  {
    ForecastRoundTrip(o, hours);
    assert model.currentWeather == CurrentRecord(o);
    assert model.hourlyWeather[hour] == HourlyRecord(hours[hour]);
    CurrentAccessors(model, o);
    HourlyAccessors(model, model.hourlyWeather, hour, hours[hour], highlighted);
  }

  lemma CurrentAccessors(model: WeatherModel, o: Observation)
    requires o.condition.Some? && model.currentWeather == CurrentRecord(o)
    ensures model.CurrentCity() == Some(o.city)
    ensures model.CurrentTempF() == Some(o.tempF)
    ensures model.CurrentTempC() == Some(o.tempC)
    ensures model.CurrentCondition() == o.condition
  {
  }

  lemma HourlyAccessors(model: WeatherModel, weather: HourlyData, hour: nat, h: Hour, highlighted: bool)
    requires hour < |weather| && weather[hour] == HourlyRecord(h)
    ensures model.HourlyPrettyTimestamp(hour, weather) == Some(h.civil)
    ensures model.HourlyUnixTimestamp(hour, weather) == Some(h.epoch)
    ensures model.HourlyTempF(hour, weather) == Some(h.english)
    ensures model.HourlyTempC(hour, weather) == Some(h.metric)
    ensures model.HourlyIconURL(hour, highlighted, weather) == StringExtensions.WeatherIconURL(h.icon, highlighted)
  {
  }
}
