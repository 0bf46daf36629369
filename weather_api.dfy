/**
 * `WeatherAPI`: the checks made before the forecast request, and the parser
 * that turns the decoded response into the current map and the hourly records.
 */
module WeatherAPI {
  import opened Wrappers
  import opened Foundation
  import opened JsonModel
  import opened Networking
  import URLFacility

  /** `CurrentWeather.allValues`, as their `String(describing:)` keys, in order. */
  const CurrentKeys: seq<string> := ["currentCity", "currentTempF", "currentTempC", "currentCondition"]
  /** `HourlyWeather.allValues`, as their `String(describing:)` keys, in order. */
  const HourlyKeys: seq<string> :=
    ["hourlyPrettyTimestamp", "hourlyUnixTimestamp", "hourlyIcon", "hourlyTempF", "hourlyTempC"]

  /** `[String: String?]`: one current observation or one hourly record. */
  type Record = map<string, Option<string>>
  type CurrentData = Record
  type HourlyData = seq<Record>

  datatype Weather = Weather(current: CurrentData, hourly: HourlyData)

  /** Response bytes, represented by what decoding them as JSON gives. */
  datatype Data = Decodable(doc: Json) | Undecodable

  /** The errors that reach a completion: network, facility, or a JSON error from Freddy. */
  datatype Error =
    | Network(net: NetworkError)
    | Facility(facility: URLFacility.WeatherURLFacilityError)
    | JsonError

  /** The outcome of a throwing call. */
  datatype Throws<T> = Returned(value: T) | Threw(error: Error)

  /** The `Any` payload of a successful `Result`. */
  datatype Payload = DataPayload(data: Data) | WeatherPayload(weather: Weather) | OtherPayload

  function CannotParseIn(name: string): Error {
    Network(CannotParse(Some(name)))
  }

  /** `r` is what reading the string at `path` gives, or `cannotParse(name)`. */
  ghost predicate ReadsString(doc: Option<Json>, path: seq<string>, name: string, r: Throws<string>) {
    && (r.Returned? <==> doc.Some? && GetString(doc.value, path).Some?)
    && (r.Returned? ==> r.value == GetString(doc.value, path).value)
    && (r.Threw? ==> r.error == CannotParseIn(name))
  }

  function DocOf(data: Data): Option<Json> {
    if data.Decodable? then Some(data.doc) else None
  }

  function Field(data: Data, path: seq<string>, name: string): (r: Throws<string>)
    ensures ReadsString(DocOf(data), path, name, r)
  {
    if data.Undecodable? then Threw(CannotParseIn(name))
    else match GetString(data.doc, path)
      case Some(s) => Returned(s)
      case None => Threw(CannotParseIn(name))
  }

  function HourField(hour: Json, path: seq<string>, name: string): (r: Throws<string>)
    ensures ReadsString(Some(hour), path, name, r)
  {
    match GetString(hour, path)
    case Some(s) => Returned(s)
    case None => Threw(CannotParseIn(name))
  }

  // The current-observation extractors; each throws `cannotParse` with its own name.

  function ParsedCurrentCity(data: Data): (r: Throws<string>)
    ensures ReadsString(DocOf(data), ["current_observation", "display_location", "full"], "parsedCurrentCity(_:)", r)
  {
    Field(data, ["current_observation", "display_location", "full"], "parsedCurrentCity(_:)")
  }

  function ParsedCurrentTempF(data: Data): (r: Throws<string>)
    ensures ReadsString(DocOf(data), ["current_observation", "temp_f"], "parsedCurrentTempF(_:)", r)
  {
    Field(data, ["current_observation", "temp_f"], "parsedCurrentTempF(_:)")
  }

  function ParsedCurrentTempC(data: Data): (r: Throws<string>)
    ensures ReadsString(DocOf(data), ["current_observation", "temp_c"], "parsedCurrentTempC(_:)", r)
  {
    Field(data, ["current_observation", "temp_c"], "parsedCurrentTempC(_:)")
  }

  function ParsedCurrentCondition(data: Data): (r: Throws<string>)
    ensures ReadsString(DocOf(data), ["current_observation", "weather"], "parsedCurrentCondition(_:)", r)
  {
    Field(data, ["current_observation", "weather"], "parsedCurrentCondition(_:)")
  }

  // The hourly extractors, applied to one element of `hourly_forecast`.

  function ParsedHourlyPrettyTimestamp(hour: Json): (r: Throws<string>)
    ensures ReadsString(Some(hour), ["FCTTIME", "civil"], "parsedHourlyPrettyTimestamp(_:)", r)
  {
    HourField(hour, ["FCTTIME", "civil"], "parsedHourlyPrettyTimestamp(_:)")
  }

  function ParsedHourlyUnixTimestamp(hour: Json): (r: Throws<string>)
    ensures ReadsString(Some(hour), ["FCTTIME", "epoch"], "parsedHourlyUnixTimestamp(_:)", r)
  {
    HourField(hour, ["FCTTIME", "epoch"], "parsedHourlyUnixTimestamp(_:)")
  }

  function ParsedHourlyIcon(hour: Json): (r: Throws<string>)
    ensures ReadsString(Some(hour), ["icon"], "parsedHourlyIcon(_:)", r)
  {
    HourField(hour, ["icon"], "parsedHourlyIcon(_:)")
  }

  function ParsedHourlyTempF(hour: Json): (r: Throws<string>)
    ensures ReadsString(Some(hour), ["temp", "english"], "parsedHourlyTempF(_:)", r)
  {
    HourField(hour, ["temp", "english"], "parsedHourlyTempF(_:)")
  }

  function ParsedHourlyTempC(hour: Json): (r: Throws<string>)
    ensures ReadsString(Some(hour), ["temp", "metric"], "parsedHourlyTempC(_:)", r)
  {
    HourField(hour, ["temp", "metric"], "parsedHourlyTempC(_:)")
  }

  /** Entry `k` of `parseCurrent`'s extractor array, applied to the data. */
  function CurrentExtractor(k: nat, data: Data): Throws<string>
    requires k < 4
  {
    match k
    case 0 => ParsedCurrentCity(data)
    case 1 => ParsedCurrentTempF(data)
    case 2 => ParsedCurrentTempC(data)
    case 3 => ParsedCurrentCondition(data)
  }

  /** Entry `k` of `parseHourly`'s extractor array, applied to one hour. */
  function HourlyExtractor(k: nat, hour: Json): Throws<string>
    requires k < 5
  {
    match k
    case 0 => ParsedHourlyPrettyTimestamp(hour)
    case 1 => ParsedHourlyUnixTimestamp(hour)
    case 2 => ParsedHourlyIcon(hour)
    case 3 => ParsedHourlyTempF(hour)
    case 4 => ParsedHourlyTempC(hour)
  }

  /** The first `n` current extractors run in order into `dict`, stopping at the first throw. */
  function RunCurrent(data: Data, n: nat): Throws<CurrentData>
    requires n <= 4
  {
    if n == 0 then Returned(map[])
    else match RunCurrent(data, n - 1)
      case Threw(e) => Threw(e)
      case Returned(dict) =>
        match CurrentExtractor(n - 1, data)
        case Threw(e) => Threw(e)
        case Returned(v) => Returned(dict[CurrentKeys[n - 1] := Some(v)])
  }

  /** What `parseCurrent` returns or throws. */
  function CurrentOutcome(data: Data): Throws<CurrentData> {
    RunCurrent(data, 4)
  }

  /** The first `n` hourly extractors run in order for one hour, writing into `dict`. */
  function RunHour(dict: Record, hour: Json, n: nat): Throws<Record>
    requires n <= 5
  {
    if n == 0 then Returned(dict)
    else match RunHour(dict, hour, n - 1)
      case Threw(e) => Threw(e)
      case Returned(d) =>
        match HourlyExtractor(n - 1, hour)
        case Threw(e) => Threw(e)
        case Returned(v) => Returned(d[HourlyKeys[n - 1] := Some(v)])
  }

  /** The record made from one element of `hourly_forecast`. */
  function HourRecord(hour: Json): Throws<Record> {
    RunHour(map[], hour, 5)
  }

  /** The records of a sequence of hours, in order, or the error of the first hour that fails. */
  function RunHours(hours: seq<Json>): (r: Throws<HourlyData>)
    ensures r.Returned? <==> forall i :: 0 <= i < |hours| ==> HourRecord(hours[i]).Returned?
    ensures r.Returned? ==> |r.value| == |hours|
    ensures r.Returned? ==> forall i :: 0 <= i < |hours| ==> r.value[i] == HourRecord(hours[i]).value
    decreases |hours|
  {
    if hours == [] then Returned([])
    else match RunHours(hours[..|hours| - 1])
      case Threw(e) => Threw(e)
      case Returned(prefix) =>
        match HourRecord(hours[|hours| - 1])
        case Threw(e) => Threw(e)
        case Returned(rec) => Returned(prefix + [rec])
  }

  /** What `parseHourly` returns or throws; decoding and `getArray` throw Freddy's JSON error. */
  function HourlyOutcome(data: Data): Throws<HourlyData> {
    match data
    case Undecodable => Threw(JsonError)
    case Decodable(doc) =>
      match GetArray(doc, ["hourly_forecast"])
      case None => Threw(JsonError)
      case Some(hours) => RunHours(hours)
  }

  const HourlyKeySet: set<string> :=
    {"hourlyPrettyTimestamp", "hourlyUnixTimestamp", "hourlyIcon", "hourlyTempF", "hourlyTempC"}

  /** Once an extractor has thrown, running further extractors gives the same throw. */
  lemma {:induction false} RunCurrentThrown(data: Data, n: nat, m: nat)
    requires n <= m <= 4
    requires RunCurrent(data, n).Threw?
    ensures RunCurrent(data, m) == RunCurrent(data, n)
    decreases m
  {
    if m > n {
      RunCurrentThrown(data, n, m - 1);
    }
  }

  lemma {:induction false} RunHourThrown(dict: Record, hour: Json, n: nat, m: nat)
    requires n <= m <= 5
    requires RunHour(dict, hour, n).Threw?
    ensures RunHour(dict, hour, m) == RunHour(dict, hour, n)
    decreases m
  {
    if m > n {
      RunHourThrown(dict, hour, n, m - 1);
    }
  }

  /** Starting from a non-empty dictionary only adds its entries under the ones written. */
  lemma {:induction false} RunHourFrom(dict: Record, hour: Json, n: nat)
    requires n <= 5
    ensures RunHour(dict, hour, n).Threw? <==> RunHour(map[], hour, n).Threw?
    ensures RunHour(dict, hour, n).Threw? ==> RunHour(dict, hour, n) == RunHour(map[], hour, n)
    ensures RunHour(dict, hour, n).Returned? ==>
              RunHour(dict, hour, n).value == dict + RunHour(map[], hour, n).value
  {
    if n > 0 {
      RunHourFrom(dict, hour, n - 1);
      if RunHour(dict, hour, n - 1).Returned? && HourlyExtractor(n - 1, hour).Returned? {
        var m0 := RunHour(map[], hour, n - 1).value;
        var k := HourlyKeys[n - 1];
        var v := Some(HourlyExtractor(n - 1, hour).value);
        MergeUpdate(dict, m0, k, v);
      }
    }
  }

  lemma MergeUpdate<K, V>(a: map<K, V>, b: map<K, V>, k: K, v: V)
    ensures (a + b)[k := v] == a + b[k := v]
  {
  }

  /** The dictionary carried over from the previous hour is overwritten completely. */
  lemma HourFromCarried(start: Record, hour: Json)
    requires start.Keys <= HourlyKeySet
    ensures RunHour(start, hour, 5) == HourRecord(hour)
    ensures HourRecord(hour).Returned? ==> HourRecord(hour).value.Keys == HourlyKeySet
  {
    RunHourFrom(start, hour, 5);
    HourRecordShape(hour);
    if HourRecord(hour).Returned? {
      assert start + HourRecord(hour).value == HourRecord(hour).value;
    }
  }

  /**
   * One hour's record: exactly the five hourly keys, each holding its extractor's string,
   * or the error of the first extractor that throws.
   */
  lemma HourRecordShape(hour: Json)
    ensures HourRecord(hour).Returned? <==>
              && ParsedHourlyPrettyTimestamp(hour).Returned? && ParsedHourlyUnixTimestamp(hour).Returned?
              && ParsedHourlyIcon(hour).Returned? && ParsedHourlyTempF(hour).Returned?
              && ParsedHourlyTempC(hour).Returned?
    ensures && ParsedHourlyPrettyTimestamp(hour).Returned? && ParsedHourlyUnixTimestamp(hour).Returned?
            && ParsedHourlyIcon(hour).Returned? && ParsedHourlyTempF(hour).Returned?
            && ParsedHourlyTempC(hour).Returned? ==>
              HourRecord(hour) == Returned(map[
                "hourlyPrettyTimestamp" := Some(ParsedHourlyPrettyTimestamp(hour).value),
                "hourlyUnixTimestamp" := Some(ParsedHourlyUnixTimestamp(hour).value),
                "hourlyIcon" := Some(ParsedHourlyIcon(hour).value),
                "hourlyTempF" := Some(ParsedHourlyTempF(hour).value),
                "hourlyTempC" := Some(ParsedHourlyTempC(hour).value)])
    ensures HourRecord(hour).Returned? ==> HourRecord(hour).value.Keys == HourlyKeySet
    ensures HourRecord(hour).Threw? ==>
              HourRecord(hour).error ==
              (if ParsedHourlyPrettyTimestamp(hour).Threw? then ParsedHourlyPrettyTimestamp(hour).error
              else if ParsedHourlyUnixTimestamp(hour).Threw? then ParsedHourlyUnixTimestamp(hour).error
              else if ParsedHourlyIcon(hour).Threw? then ParsedHourlyIcon(hour).error
              else if ParsedHourlyTempF(hour).Threw? then ParsedHourlyTempF(hour).error
              else ParsedHourlyTempC(hour).error)
  {
    // Mentioning each intermediate step unfolds its definition once.
    assert RunHour(map[], hour, 1) == RunHour(map[], hour, 1);
    assert RunHour(map[], hour, 2) == RunHour(map[], hour, 2);
    assert RunHour(map[], hour, 3) == RunHour(map[], hour, 3);
    assert RunHour(map[], hour, 4) == RunHour(map[], hour, 4);
  }

  /**
   * The current observation: exactly the four current keys, each holding its extractor's
   * string, or the error of the first extractor that throws.
   */
  lemma CurrentOutcomeShape(data: Data)
    ensures CurrentOutcome(data).Returned? <==>
              && ParsedCurrentCity(data).Returned? && ParsedCurrentTempF(data).Returned?
              && ParsedCurrentTempC(data).Returned? && ParsedCurrentCondition(data).Returned?
    ensures && ParsedCurrentCity(data).Returned? && ParsedCurrentTempF(data).Returned?
            && ParsedCurrentTempC(data).Returned? && ParsedCurrentCondition(data).Returned? ==>
              CurrentOutcome(data) == Returned(map[
                "currentCity" := Some(ParsedCurrentCity(data).value),
                "currentTempF" := Some(ParsedCurrentTempF(data).value),
                "currentTempC" := Some(ParsedCurrentTempC(data).value),
                "currentCondition" := Some(ParsedCurrentCondition(data).value)])
    ensures CurrentOutcome(data).Threw? ==>
              CurrentOutcome(data).error ==
              (if ParsedCurrentCity(data).Threw? then ParsedCurrentCity(data).error
              else if ParsedCurrentTempF(data).Threw? then ParsedCurrentTempF(data).error
              else if ParsedCurrentTempC(data).Threw? then ParsedCurrentTempC(data).error
              else ParsedCurrentCondition(data).error)
  {
    // Mentioning each intermediate step unfolds its definition once.
    assert RunCurrent(data, 1) == RunCurrent(data, 1);
    assert RunCurrent(data, 2) == RunCurrent(data, 2);
    assert RunCurrent(data, 3) == RunCurrent(data, 3);
  }

  /** Once some hour has failed, the later hours do not change the outcome. */
  lemma {:induction false} RunHoursThrown(hours: seq<Json>, n: nat)
    requires n <= |hours|
    requires RunHours(hours[..n]).Threw?
    ensures RunHours(hours) == RunHours(hours[..n])
    decreases |hours| - n
  {
    if n < |hours| {
      var front := hours[..|hours| - 1];
      assert front[..n] == hours[..n];
      RunHoursThrown(front, n);
      assert hours[..|hours|] == hours;
    } else {
      assert hours[..n] == hours;
    }
  }

  /** `parseCurrent`: the four extractors in array order, each result stored under its key. */
  method ParseCurrent(data: Data) returns (r: Throws<CurrentData>)
    ensures r == CurrentOutcome(data)
  {
    var weatherData: CurrentData := map[];
    for index := 0 to 4
      invariant RunCurrent(data, index) == Returned(weatherData)
    {
      var parsed := CurrentExtractor(index, data);
      if parsed.Threw? {
        RunCurrentThrown(data, index + 1, 4);
        return Threw(parsed.error);
      }
      weatherData := weatherData[CurrentKeys[index] := Some(parsed.value)];
    }
    return Returned(weatherData);
  }

  /**
   * `parseHourly`: one record per element of `hourly_forecast`. As in `parseHourly`,
   * the dictionary is declared outside the loop over hours and rewritten for each hour.
   */
  method ParseHourly(data: Data) returns (r: Throws<HourlyData>)
    ensures r == HourlyOutcome(data)
  {
    var weatherData: Record := map[];
    var weatherArray: HourlyData := [];
    if data.Undecodable? {
      return Threw(JsonError);
    }
    var hoursArray := GetArray(data.doc, ["hourly_forecast"]);
    if hoursArray.None? {
      return Threw(JsonError);
    }
    var hours := hoursArray.value;
    for h := 0 to |hours|
      invariant RunHours(hours[..h]) == Returned(weatherArray)
      invariant weatherData.Keys <= HourlyKeySet
    {
      assert hours[..h + 1][..h] == hours[..h];
      var parsed := ParseHour(weatherData, hours[h]);
      if parsed.Threw? {
        RunHoursThrown(hours, h + 1);
        return Threw(parsed.error);
      }
      weatherData := parsed.value;
      weatherArray := weatherArray + [weatherData];
    }
    assert hours[..|hours|] == hours;
    return Returned(weatherArray);
  }

  /**
   * The loop of `parseHourly` over the five extractors of one hour, writing into the
   * dictionary left over from the previous hour; every key is rewritten, so the record is
   * the hour's own.
   */
  method ParseHour(weatherData: Record, hour: Json) returns (r: Throws<Record>)
    requires weatherData.Keys <= HourlyKeySet
    ensures r == HourRecord(hour)
    ensures r.Returned? ==> r.value.Keys == HourlyKeySet
  {
    var dict := weatherData;
    for index := 0 to 5
      invariant RunHour(weatherData, hour, index) == Returned(dict)
    {
      var parsed := HourlyExtractor(index, hour);
      if parsed.Threw? {
        RunHourThrown(weatherData, hour, index + 1, 5);
        HourFromCarried(weatherData, hour);
        return Threw(parsed.error);
      }
      dict := dict[HourlyKeys[index] := Some(parsed.value)];
    }
    HourFromCarried(weatherData, hour);
    return Returned(dict);
  }

  /** What `parseAll` returns or throws for the requestor's result. */
  function Parsed(result: Result<Payload, Error>): Throws<Weather> {
    match result
    case Failure(e) => Threw(e.GetOr(Network(Invalid(Some("Bad data.")))))
    case Success(DataPayload(data)) =>
      (match CurrentOutcome(data)
       case Threw(e) => Threw(e)
       case Returned(current) =>
         match HourlyOutcome(data)
         case Threw(e) => Threw(e)
         case Returned(hourly) => Returned(Weather(current, hourly)))
    case Success(_) => Threw(Network(CannotParse(Some("Bad data."))))
  }

  /** `parseAll`: the current observation is parsed first, then the hourly forecast. */
  method ParseAll(result: Result<Payload, Error>) returns (r: Throws<Weather>)
    ensures r == Parsed(result)
  {
    match result
    case Failure(e) =>
      return Threw(e.GetOr(Network(Invalid(Some("Bad data.")))));
    case Success(payload) =>
      if !payload.DataPayload? {
        return Threw(Network(CannotParse(Some("Bad data."))));
      }
      var currentWeather := ParseCurrent(payload.data);
      if currentWeather.Threw? {
        return Threw(currentWeather.error);
      }
      var hourlyWeather := ParseHourly(payload.data);
      if hourlyWeather.Threw? {
        return Threw(hourlyWeather.error);
      }
      return Returned(Weather(currentWeather.value, hourlyWeather.value));
  }

  /**
   * How the outcome of `parseAll` is reported: a weather value on success, a network error
   * as a failure; any other error makes `error as! NetworkError` trap, shown as `None`.
   */
  function Completion(parsed: Throws<Weather>): (c: Option<Result<Payload, Error>>)
    ensures c.Some? <==> parsed.Returned? || parsed.error.Network?
    ensures parsed.Returned? ==> c == Some(Success(WeatherPayload(parsed.value)))
    ensures parsed.Threw? && parsed.error.Network? ==> c == Some(Failure(Some(parsed.error)))
  {
    match parsed
    case Returned(w) => Some(Success(WeatherPayload(w)))
    case Threw(Network(e)) => Some(Failure(Some(Network(e))))
    case Threw(_) => None
  }

  /**
   * The guards of `fetchWeather` before the request: an invalid zip code is reported as
   * `BadZipCode`; for a valid one the facility's URL always exists, so `BadURL` never occurs.
   */
  function RequestURL(zipCode: string): (r: Throws<Url>)
    ensures r.Threw? <==> !URLFacility.ValidZipCode(zipCode)
    ensures r.Threw? ==> r.error == Facility(URLFacility.BadZipCode)
    ensures r.Returned? ==> r.value == Url("https", URLFacility.APIHost, URLFacility.RequestPath(zipCode))
  {
    match URLFacility.Init(zipCode)
    case None => Threw(Facility(URLFacility.BadZipCode))
    case Some(facility) =>
      match URLFacility.Url(facility)
      case None => Threw(Facility(URLFacility.BadURL))
      case Some(url) => Returned(url)
  }

  /**
   * `fetchWeather(forZipCode:completion:)`. `response` stands for what the requestor delivers
   * for the requested URL; `request` is the URL handed to it, `None` when no request is made.
   */
  method FetchWeather(zipCode: string, response: Result<Payload, Error>)
    returns (request: Option<Url>, completion: Option<Result<Payload, Error>>)
    ensures !URLFacility.ValidZipCode(zipCode) ==>
              request == None && completion == Some(Failure(Some(Facility(URLFacility.BadZipCode))))
    ensures URLFacility.ValidZipCode(zipCode) ==>
              request == Some(Url("https", URLFacility.APIHost, URLFacility.RequestPath(zipCode)))
    ensures URLFacility.ValidZipCode(zipCode) ==> completion == Completion(Parsed(response))
  {
    var url := RequestURL(zipCode);
    if url.Threw? {
      return None, Some(Failure(Some(url.error)));
    }
    request := Some(url.value);
    var weather := ParseAll(response);
    completion := Completion(weather);
  }

  // Documents in the shape the service sends, for the round trips below.

  datatype Observation = Observation(city: string, tempF: string, tempC: string, condition: Option<string>)
  datatype Hour = Hour(civil: string, epoch: string, icon: string, english: string, metric: string)

  function ObservationJson(o: Observation): Json {
    var fields := map[
      "display_location" := JObject(map["full" := JString(o.city)]),
      "temp_f" := JString(o.tempF),
      "temp_c" := JString(o.tempC)];
    JObject(if o.condition.Some? then fields["weather" := JString(o.condition.value)] else fields)
  }

  function HourJson(h: Hour): Json {
    JObject(map[
      "FCTTIME" := JObject(map["civil" := JString(h.civil), "epoch" := JString(h.epoch)]),
      "icon" := JString(h.icon),
      "temp" := JObject(map["english" := JString(h.english), "metric" := JString(h.metric)])])
  }

  function ForecastJson(o: Observation, hours: seq<Hour>): Json {
    JObject(map[
      "current_observation" := ObservationJson(o),
      "hourly_forecast" := JArray(seq(|hours|, i requires 0 <= i < |hours| => HourJson(hours[i])))])
  }

  function CurrentRecord(o: Observation): CurrentData
    requires o.condition.Some?
  {
    map["currentCity" := Some(o.city), "currentTempF" := Some(o.tempF),
        "currentTempC" := Some(o.tempC), "currentCondition" := Some(o.condition.value)]
  }

  function HourlyRecord(h: Hour): Record {
    map["hourlyPrettyTimestamp" := Some(h.civil), "hourlyUnixTimestamp" := Some(h.epoch),
        "hourlyIcon" := Some(h.icon), "hourlyTempF" := Some(h.english), "hourlyTempC" := Some(h.metric)]
  }

  /** An hour element gives back the strings it was built from. */
  lemma HourRoundTrip(h: Hour)
    ensures HourRecord(HourJson(h)) == Returned(HourlyRecord(h))
  {
    HourAt(h);
    HourRecordShape(HourJson(h));
  }

  /** The fields of an hour element, read through its paths. */
  lemma HourAt(h: Hour)
    ensures At(HourJson(h), ["FCTTIME", "civil"]) == Some(JString(h.civil))
    ensures At(HourJson(h), ["FCTTIME", "epoch"]) == Some(JString(h.epoch))
    ensures At(HourJson(h), ["icon"]) == Some(JString(h.icon))
    ensures At(HourJson(h), ["temp", "english"]) == Some(JString(h.english))
    ensures At(HourJson(h), ["temp", "metric"]) == Some(JString(h.metric))
  {
  }

  /** The fields of the observation, read through the whole document. */
  lemma ObservationAt(o: Observation, hours: seq<Hour>)
    ensures At(ForecastJson(o, hours), ["current_observation", "display_location", "full"]) == Some(JString(o.city))
    ensures At(ForecastJson(o, hours), ["current_observation", "temp_f"]) == Some(JString(o.tempF))
    ensures At(ForecastJson(o, hours), ["current_observation", "temp_c"]) == Some(JString(o.tempC))
    ensures At(ForecastJson(o, hours), ["current_observation", "weather"]) ==
              if o.condition.Some? then Some(JString(o.condition.value)) else None
  {
    var doc := ForecastJson(o, hours);
    assert At(doc, ["current_observation"]) == Some(ObservationJson(o));
    AtConcat(doc, ["current_observation"], ["display_location", "full"]);
    assert ["current_observation"] + ["display_location", "full"] == ["current_observation", "display_location", "full"];
    AtConcat(doc, ["current_observation"], ["temp_f"]);
    assert ["current_observation"] + ["temp_f"] == ["current_observation", "temp_f"];
    AtConcat(doc, ["current_observation"], ["temp_c"]);
    assert ["current_observation"] + ["temp_c"] == ["current_observation", "temp_c"];
    AtConcat(doc, ["current_observation"], ["weather"]);
    assert ["current_observation"] + ["weather"] == ["current_observation", "weather"];
  }

  /** The hourly part of a forecast document parses to the hours it was built from. */
  lemma ForecastHourly(o: Observation, hours: seq<Hour>)
    ensures HourlyOutcome(Decodable(ForecastJson(o, hours))) ==
            Returned(seq(|hours|, i requires 0 <= i < |hours| => HourlyRecord(hours[i])))
  {
    var doc := ForecastJson(o, hours);
    var elements := seq(|hours|, i requires 0 <= i < |hours| => HourJson(hours[i]));
    assert At(doc, ["hourly_forecast"]) == Some(JArray(elements));
    forall i | 0 <= i < |hours|
      ensures HourRecord(elements[i]) == Returned(HourlyRecord(hours[i]))
    {
      HourRoundTrip(hours[i]);
    }
    var hourly := RunHours(elements).value;
    assert hourly == seq(|hours|, i requires 0 <= i < |hours| => HourlyRecord(hours[i]));
  }

  /** A complete forecast document parses to the observation and the hours it was built from. */
  lemma ForecastRoundTrip(o: Observation, hours: seq<Hour>)
    requires o.condition.Some?
    ensures Parsed(Success(DataPayload(Decodable(ForecastJson(o, hours))))) ==
            Returned(Weather(CurrentRecord(o), seq(|hours|, i requires 0 <= i < |hours| => HourlyRecord(hours[i]))))
  {
    ObservationAt(o, hours);
    CurrentOutcomeShape(Decodable(ForecastJson(o, hours)));
    ForecastHourly(o, hours);
  }

  /** A document whose observation has no "weather" field fails in `parsedCurrentCondition`. */
  lemma MissingCondition(o: Observation, hours: seq<Hour>)
    requires o.condition.None?
    ensures Parsed(Success(DataPayload(Decodable(ForecastJson(o, hours))))) ==
            Threw(CannotParseIn("parsedCurrentCondition(_:)"))
  {
    ObservationAt(o, hours);
    CurrentOutcomeShape(Decodable(ForecastJson(o, hours)));
  }
}
