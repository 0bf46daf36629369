/**
 * `MainViewModel`: the grid of hourly forecasts grouped by day, the per-day extremes that
 * decide the cool and warm tints, and the image and tint caches filled while cells load.
 */
module ViewModel {
  import opened Wrappers
  import opened Foundation
  import opened Networking
  import opened WeatherAPI
  import opened DayGrouping
  import opened Extremes
  import Models
  import Utility

  /** A cell position: a day section and an hour item within it. */
  datatype IndexPath = IndexPath(section: int, item: int)

  /** A decoded icon image; only its identity matters here. */
  datatype Image = Image(data: seq<bv8>)

  /** A cell text with its tint, and whether a general failure was signalled. */
  datatype Viewable = Viewable(text: string, tint: Option<TintColor>, failed: bool)

  /**
   * What `iconViewable` does for a cell: complete at once without an image (`failed` when
   * the delegate was told of a failure), complete at once from the image cache, or request
   * the icon at `url`, to be completed by `OnIconFetched` with `tint`.
   */
  datatype IconRequest =
    | NoIcon(failed: bool)
    | CachedIcon(image: Image, tint: Option<TintColor>)
    | FetchIcon(url: Url, tint: Option<TintColor>)

  /** The extreme-item cache `cache` names the cell `ip` as its section's extreme item. */
  predicate Names(cache: map<int, int>, ip: IndexPath) {
    ip.section in cache && cache[ip.section] == ip.item
  }

  function Get<K, V>(m: map<K, V>, k: K): (r: Option<V>)
    ensures r.Some? <==> k in m
    ensures r.Some? ==> r.value == m[k]
  {
    if k in m then Some(m[k]) else None
  }

  class MainViewModel {
    /** `WeatherModel.sharedInstance`. */
    const weatherModel: Models.WeatherModel
    const platform: Platform
    /** `StandardDefaults.sharedInstance.englishMode`. */
    var englishMode: bool
    var imageCache: map<IndexPath, Image>
    var tintCache: map<IndexPath, TintColor>
    var groupedHourlyWeatherByDayCache: map<int, HourlyData>
    var groupedMinTempByDayCache: map<int, int>
    var groupedMaxTempByDayCache: map<int, int>

    /** The three day caches are what grouping and the extreme scans give for the current state. */
    ghost predicate Derived()
      reads this`groupedHourlyWeatherByDayCache, this`groupedMinTempByDayCache,
            this`groupedMaxTempByDayCache, this`englishMode, weatherModel
    {
      var count := NumberOfSections().value;
      && groupedHourlyWeatherByDayCache == Grouping(platform, weatherModel.hourlyWeather)
      && groupedMinTempByDayCache ==
         ExtremeItems(weatherModel.HasData(), groupedHourlyWeatherByDayCache, count, englishMode, Least)
      && groupedMaxTempByDayCache ==
         ExtremeItems(weatherModel.HasData(), groupedHourlyWeatherByDayCache, count, englishMode, Greatest)
    }

    /**
     * Every cached tint is the tint the rule gives now, and a cell whose image is cached
     * without a tint is one the rule leaves untinted.
     */
    ghost predicate CacheConsistent()
      reads this`imageCache, this`tintCache, this`groupedMinTempByDayCache, this`groupedMaxTempByDayCache
    {
      && (forall ip :: ip in tintCache ==> Tint(ip) == Some(tintCache[ip]))
      && (forall ip :: ip in imageCache && ip !in tintCache ==> Tint(ip) == None)
    }

    /** `init()`: empty caches, then `buildGroupedCaches`. */
    constructor(model: Models.WeatherModel, platform: Platform, englishMode: bool)
      ensures weatherModel == model && this.platform == platform && this.englishMode == englishMode
      ensures imageCache == map[] && tintCache == map[]
      ensures Derived() && CacheConsistent()
    {
      weatherModel := model;
      this.platform := platform;
      this.englishMode := englishMode;
      imageCache := map[];
      tintCache := map[];
      groupedHourlyWeatherByDayCache := map[];
      groupedMinTempByDayCache := map[];
      groupedMaxTempByDayCache := map[];
      new;
      BuildGroupedCaches();
    }

    /**
     * `fetchWeatherAsync`: fetch through the weather API with `response` standing for what
     * the service delivers; a completion reaches `maybeUpdate`, and an update notifies this
     * view model, which runs `updateStore`.
     */
    method FetchWeatherAsync(zipCode: string, response: Result<Payload, Error>)
      returns (request: Option<Url>, completion: Option<Result<Payload, Error>>, updated: bool)
      modifies this, weatherModel
      ensures !URLFacility.ValidZipCode(zipCode) ==>
                request == None && completion == Some(Failure(Some(Facility(URLFacility.BadZipCode))))
      ensures URLFacility.ValidZipCode(zipCode) ==> completion == Completion(Parsed(response))
      ensures updated <==> completion.Some? && completion.value.Success?
      ensures updated ==> weatherModel.currentWeather == completion.value.value.weather.current
      ensures updated ==> weatherModel.hourlyWeather == completion.value.value.weather.hourly
      ensures updated ==> Derived() && imageCache == map[] && tintCache == map[]
      ensures englishMode == old(englishMode)
      ensures !updated ==> unchanged(this)
      ensures !updated ==> weatherModel.currentWeather == old(weatherModel.currentWeather)
      ensures !updated ==> weatherModel.hourlyWeather == old(weatherModel.hourlyWeather)
    {
      request, completion := WeatherAPI.FetchWeather(zipCode, response);
      updated := false;
      if completion.Some? {
        updated := weatherModel.MaybeUpdate(completion.value);
        if updated {
          UpdateStore();
        }
      }
    }

    /** The settings switch: store the new mode, then `updateStore`. */
    method ChangeEnglishMode(mode: bool)
      modifies this
      ensures englishMode == mode
      ensures Derived() && imageCache == map[] && tintCache == map[]
    {
      englishMode := mode;
      UpdateStore();
    }

    /**
     * `numberOfSections`: the number of calendar days from the first record's timestamp to
     * the last one's, both included; 0 without data or a timestamp, 0 with a failure when a
     * timestamp is not a number. Only the first and the last record are read.
     */
    function NumberOfSections(): (r: Signalled<int>)
      reads weatherModel
      ensures !weatherModel.HasData() ==> r == Signalled(0, false)
      ensures r.failed ==> r.value == 0 && weatherModel.HasData()
      ensures weatherModel.HasData() &&
              (Models.Lookup(weatherModel.hourlyWeather[0], "hourlyUnixTimestamp").None? ||
               Models.Lookup(Last(weatherModel.hourlyWeather), "hourlyUnixTimestamp").None?) ==>
                r == Signalled(0, false)
      ensures weatherModel.HasData() ==>
                (r.failed <==>
                   && Models.Lookup(weatherModel.hourlyWeather[0], "hourlyUnixTimestamp").Some?
                   && Models.Lookup(Last(weatherModel.hourlyWeather), "hourlyUnixTimestamp").Some?
                   && !(Dated(platform, weatherModel.hourlyWeather[0]) &&
                        Dated(platform, Last(weatherModel.hourlyWeather))))
      ensures weatherModel.HasData() &&
              Dated(platform, weatherModel.hourlyWeather[0]) && Dated(platform, Last(weatherModel.hourlyWeather)) ==>
                r == Signalled(platform.ordinalDay(Epoch(platform, Last(weatherModel.hourlyWeather)).value)
                               - platform.ordinalDay(Epoch(platform, weatherModel.hourlyWeather[0]).value) + 1, false)
    {
      if !weatherModel.HasData() then Signalled(0, false)
      else
        var hourly := weatherModel.HourlyModels();
        var lastIndex := |hourly| - 1;
        var beginEpoch := weatherModel.HourlyUnixTimestamp(0, hourly);
        var endEpoch := weatherModel.HourlyUnixTimestamp(lastIndex, hourly);
        if beginEpoch.None? || endEpoch.None? then Signalled(0, false)
        else
          var beginNum := platform.parseDouble(beginEpoch.value);
          var endNum := platform.parseDouble(endEpoch.value);
          if beginNum.None? || endNum.None? then Signalled(0, true)
          else
            assert Dated(platform, hourly[0]) && Dated(platform, hourly[lastIndex]);
            Signalled(platform.ordinalDay(endNum.value) - platform.ordinalDay(beginNum.value) + 1, false)
    }

    /** `numberOfItemsInSection`: the size of the cached bucket; 0 with a failure when it is absent. */
    function NumberOfItemsInSection(section: int): (r: Signalled<int>)
      reads this`groupedHourlyWeatherByDayCache, weatherModel
      ensures !weatherModel.HasData() ==> r == Signalled(0, false)
      ensures weatherModel.HasData() ==> (r.failed <==> section !in groupedHourlyWeatherByDayCache)
      ensures weatherModel.HasData() && section !in groupedHourlyWeatherByDayCache ==> r == Signalled(0, true)
      ensures weatherModel.HasData() && section in groupedHourlyWeatherByDayCache ==>
                r == Signalled(|groupedHourlyWeatherByDayCache[section]|, false)
      ensures r.value >= 0
    {
      if !weatherModel.HasData() then Signalled(0, false)
      else if section !in groupedHourlyWeatherByDayCache then Signalled(0, true)
      else Signalled(|groupedHourlyWeatherByDayCache[section]|, false)
    }

    /**
     * The section count follows the calendar span while the grouping follows the days that
     * occur: a forecast of two hours two calendar days apart gets three sections but two
     * buckets, and the grid's last section finds no bucket and signals a failure.
     */
    lemma SpanOutrunsBuckets(a: string, b: string, x: real, y: real)
      requires weatherModel.currentWeather != map[]
      requires weatherModel.hourlyWeather == [Stamped(a), Stamped(b)]
      requires platform.parseDouble(a) == Some(x) && platform.parseDouble(b) == Some(y)
      requires platform.dayFromEpoch(x) != platform.dayFromEpoch(y)
      requires platform.ordinalDay(y) == platform.ordinalDay(x) + 2
      ensures NumberOfSections() == Signalled(3, false)
      ensures AllDated(platform, weatherModel.hourlyWeather)
      ensures |Days(platform, weatherModel.hourlyWeather)| == 2
      ensures Derived() ==> NumberOfItemsInSection(2) == Signalled(0, true)
    {
      var h := weatherModel.hourlyWeather;
      assert Epoch(platform, h[0]) == Some(x) && Epoch(platform, h[1]) == Some(y);
      assert AllDated(platform, h);
      assert h[..1] == [h[0]];
      assert Days(platform, h) == {platform.dayFromEpoch(x), platform.dayFromEpoch(y)};
      GroupingShape(platform, h);
    }

    /**
     * `tint(fromIndexPath:)` over the two cached extreme items of the cell's section: cool on
     * the cell the min cache names and the max cache does not, warm the other way round,
     * and none when both or neither name it.
     */
    function Tint(ip: IndexPath): (r: Option<TintColor>)
      reads this`groupedMinTempByDayCache, this`groupedMaxTempByDayCache
      ensures r == Some(Cool) <==> Names(groupedMinTempByDayCache, ip) && !Names(groupedMaxTempByDayCache, ip)
      ensures r == Some(Warm) <==> Names(groupedMaxTempByDayCache, ip) && !Names(groupedMinTempByDayCache, ip)
      ensures r == None <==> (Names(groupedMinTempByDayCache, ip) <==> Names(groupedMaxTempByDayCache, ip))
    {
      TintRule(Get(groupedMinTempByDayCache, ip.section), Get(groupedMaxTempByDayCache, ip.section), ip.item)
    }

    /**
     * The tint of `timeViewable` and `tempViewable`: the cached tint if there is one, else
     * the computed tint when no image is cached, else none.
     */
    function ViewTint(ip: IndexPath): (r: Option<TintColor>)
      reads this`imageCache, this`tintCache, this`groupedMinTempByDayCache, this`groupedMaxTempByDayCache
      ensures ip in tintCache ==> r == Some(tintCache[ip])
      ensures ip !in tintCache && ip !in imageCache ==> r == Tint(ip)
      ensures ip !in tintCache && ip in imageCache ==> r == None
    {
      if ip in tintCache then Some(tintCache[ip])
      else if ip !in imageCache then Tint(ip)
      else None
    }

    /** `timeViewable`: the civil time of the cell's record with its tint. */
    function TimeViewable(ip: IndexPath): (v: Viewable)
      reads this, weatherModel
      requires weatherModel.HasData() && ip.section in groupedHourlyWeatherByDayCache ==>
                 0 <= ip.item < |groupedHourlyWeatherByDayCache[ip.section]|
      ensures !weatherModel.HasData() ==> v == Viewable("2:00 PM", None, false)
      ensures weatherModel.HasData() && ip.section !in groupedHourlyWeatherByDayCache ==>
                v == Viewable("2:00 PM", None, true)
      ensures weatherModel.HasData() && ip.section in groupedHourlyWeatherByDayCache ==>
                var time := Models.Lookup(groupedHourlyWeatherByDayCache[ip.section][ip.item], "hourlyPrettyTimestamp");
                v == if time.None? then Viewable("2.00 PM", None, true) else Viewable(time.value, ViewTint(ip), false)
    {
      if !weatherModel.HasData() then Viewable("2:00 PM", None, false)
      else if ip.section !in groupedHourlyWeatherByDayCache then Viewable("2:00 PM", None, true)
      else
        var time := weatherModel.HourlyPrettyTimestamp(ip.item, groupedHourlyWeatherByDayCache[ip.section]);
        var tint := ViewTint(ip);
        if time.None? then Viewable("2.00 PM", None, true) else Viewable(time.value, tint, false)
    }

    /** `tempViewable`: the cell's temperature in the current unit, with a degree sign, and its tint. */
    function TempViewable(ip: IndexPath): (v: Viewable)
      reads this, weatherModel
      requires weatherModel.HasData() && ip.section in groupedHourlyWeatherByDayCache ==>
                 0 <= ip.item < |groupedHourlyWeatherByDayCache[ip.section]|
      ensures !weatherModel.HasData() ==> v == Viewable("50°", None, false)
      ensures weatherModel.HasData() && ip.section !in groupedHourlyWeatherByDayCache ==>
                v == Viewable("50°", None, true)
      ensures weatherModel.HasData() && ip.section in groupedHourlyWeatherByDayCache ==>
                var temp := TempOf(groupedHourlyWeatherByDayCache[ip.section][ip.item], englishMode);
                v == if temp.None? then Viewable("50°", None, true) else Viewable(temp.value + "°", ViewTint(ip), false)
    {
      if !weatherModel.HasData() then Viewable("50°", None, false)
      else if ip.section !in groupedHourlyWeatherByDayCache then Viewable("50°", None, true)
      else
        var section := groupedHourlyWeatherByDayCache[ip.section];
        var temp := if englishMode then weatherModel.HourlyTempF(ip.item, section)
                    else weatherModel.HourlyTempC(ip.item, section);
        if temp.None? then Viewable("50°", None, true)
        else Viewable(temp.value + "°", ViewTint(ip), false)
    }

    /**
     * `headerTitleViewable`: "Today" for section 0 (and without data), "Tomorrow" for
     * section 1, otherwise the weekday of the record at the cell's item, or "Next Day" with
     * a failure when that record or its timestamp is missing.
     */
    function HeaderTitleViewable(ip: IndexPath): (r: Signalled<string>)
      reads this, weatherModel
      requires weatherModel.HasData() && ip.section != 0 && ip.section != 1 &&
               ip.section in groupedHourlyWeatherByDayCache ==>
                 0 <= ip.item < |groupedHourlyWeatherByDayCache[ip.section]|
      ensures !weatherModel.HasData() || ip.section == 0 ==> r == Signalled("Today", false)
      ensures weatherModel.HasData() && ip.section == 1 ==> r == Signalled("Tomorrow", false)
      ensures r.failed ==> r.value == "Next Day"
      ensures weatherModel.HasData() && ip.section != 0 && ip.section != 1 &&
              ip.section in groupedHourlyWeatherByDayCache &&
              Dated(platform, groupedHourlyWeatherByDayCache[ip.section][ip.item]) ==>
                r == Signalled(platform.prettyWeekday(
                       Epoch(platform, groupedHourlyWeatherByDayCache[ip.section][ip.item]).value), false)
      ensures weatherModel.HasData() && ip.section != 0 && ip.section != 1 ==>
                (r.failed <==> ip.section !in groupedHourlyWeatherByDayCache ||
                               !Dated(platform, groupedHourlyWeatherByDayCache[ip.section][ip.item]))
    {
      if !weatherModel.HasData() then Signalled("Today", false)
      else if ip.section == 0 then Signalled("Today", false)
      else if ip.section == 1 then Signalled("Tomorrow", false)
      else if ip.section !in groupedHourlyWeatherByDayCache then Signalled("Next Day", true)
      else
        var day := weatherModel.HourlyUnixTimestamp(ip.item, groupedHourlyWeatherByDayCache[ip.section]);
        if day.None? then Signalled("Next Day", true)
        else
          var doubleDay := platform.parseDouble(day.value);
          if doubleDay.None? then Signalled("Next Day", true)
          else Signalled(platform.prettyWeekday(doubleDay.value), false)
    }

    /**
     * `iconViewable`: a cached image completes at once with the cached tint; otherwise the
     * tint is computed and, when there is one, cached before the highlighted or plain icon
     * URL is requested.
     */
    method IconViewable(ip: IndexPath) returns (o: IconRequest)
      modifies this`tintCache
      requires weatherModel.HasData() && ip.section in groupedHourlyWeatherByDayCache && ip !in imageCache ==>
                 0 <= ip.item < |groupedHourlyWeatherByDayCache[ip.section]|
      ensures !weatherModel.HasData() ==> o == NoIcon(false) && unchanged(this)
      ensures weatherModel.HasData() && ip.section !in groupedHourlyWeatherByDayCache ==>
                o == NoIcon(true) && unchanged(this)
      ensures weatherModel.HasData() && ip.section in groupedHourlyWeatherByDayCache && ip in old(imageCache) ==>
                o == CachedIcon(old(imageCache)[ip], Get(old(tintCache), ip)) && unchanged(this)
      ensures weatherModel.HasData() && ip.section in groupedHourlyWeatherByDayCache && ip !in imageCache ==>
                var tint := Tint(ip);
                var url := weatherModel.HourlyIconURL(ip.item, tint.Some?, groupedHourlyWeatherByDayCache[ip.section]);
                && tintCache == (if tint.Some? then old(tintCache)[ip := tint.value] else old(tintCache))
                && o == (if url.None? then NoIcon(true) else FetchIcon(url.value, tint))
      ensures old(CacheConsistent()) ==> CacheConsistent()
    {
      if !weatherModel.HasData() {
        return NoIcon(false);
      }
      if ip.section !in groupedHourlyWeatherByDayCache {
        return NoIcon(true);
      }
      var sectionArray := groupedHourlyWeatherByDayCache[ip.section];
      if ip in imageCache {
        var tint: Option<TintColor> := None;
        if ip in tintCache {
          tint := Some(tintCache[ip]);
        }
        return CachedIcon(imageCache[ip], tint);
      }
      var tint := Tint(ip);
      if tint.Some? {
        tintCache := tintCache[ip := tint.value];
      }
      var imageUrl := weatherModel.HourlyIconURL(ip.item, tint.Some?, sectionArray);
      if imageUrl.None? {
        return NoIcon(true);
      }
      return FetchIcon(imageUrl.value, tint);
    }

    /**
     * The completion of the icon request of `IconViewable`: a fetched image is cached with
     * the tint computed at request time and shown; a failed fetch shows nothing.
     */
    method OnIconFetched(ip: IndexPath, tint: Option<TintColor>, fetched: Option<Image>)
      returns (image: Option<Image>, imageTint: Option<TintColor>, failed: bool)
      modifies this`imageCache, this`tintCache
      ensures fetched.None? ==> image == None && imageTint == None && failed && unchanged(this)
      ensures fetched.Some? ==> image == fetched && imageTint == tint && !failed
      ensures fetched.Some? ==> imageCache == old(imageCache)[ip := fetched.value]
      ensures fetched.Some? ==> tintCache == if tint.Some? then old(tintCache)[ip := tint.value] else old(tintCache)
      ensures old(CacheConsistent()) && tint == Tint(ip) ==> CacheConsistent()
    {
      if fetched.None? {
        return None, None, true;
      }
      Cache(fetched.value, tint, ip);
      return fetched, tint, false;
    }

    /** `cache(withImage:withTintColor:forIndexPath:)`: the image always, the tint only when there is one. */
    method Cache(image: Image, tintColor: Option<TintColor>, ip: IndexPath)
      modifies this`imageCache, this`tintCache
      ensures imageCache == old(imageCache)[ip := image]
      ensures tintCache == if tintColor.Some? then old(tintCache)[ip := tintColor.value] else old(tintCache)
      ensures old(CacheConsistent()) && tintColor == Tint(ip) ==> CacheConsistent()
    {
      imageCache := imageCache[ip := image];
      if tintColor.Some? {
        tintCache := tintCache[ip := tintColor.value];
      }
    }

    /** `updateStore`: empty every cache, then rebuild the day caches. */
    method UpdateStore()
      modifies this`imageCache, this`tintCache, this`groupedHourlyWeatherByDayCache,
               this`groupedMinTempByDayCache, this`groupedMaxTempByDayCache
      ensures imageCache == map[] && tintCache == map[]
      ensures Derived() && CacheConsistent()
    {
      EmptyAllCaches();
      BuildGroupedCaches();
    }

    method EmptyAllCaches()
      modifies this`imageCache, this`tintCache, this`groupedHourlyWeatherByDayCache,
               this`groupedMinTempByDayCache, this`groupedMaxTempByDayCache
      ensures imageCache == map[] && tintCache == map[]
      ensures groupedHourlyWeatherByDayCache == map[]
      ensures groupedMinTempByDayCache == map[] && groupedMaxTempByDayCache == map[]
    {
      imageCache := map[];
      tintCache := map[];
      groupedHourlyWeatherByDayCache := map[];
      groupedMinTempByDayCache := map[];
      groupedMaxTempByDayCache := map[];
    }

    /** `buildGroupedCaches`: the grouping first, then the extreme items of its sections. */
    method BuildGroupedCaches()
      modifies this`groupedHourlyWeatherByDayCache, this`groupedMinTempByDayCache, this`groupedMaxTempByDayCache
      ensures Derived()
    {
      var grouped, _ := GroupedHourlyWeatherByDay();
      groupedHourlyWeatherByDayCache := grouped;
      var minItems := GroupedExtremeItemByDay(Least);
      var maxItems := GroupedExtremeItemByDay(Greatest);
      ghost var count := NumberOfSections().value;
      groupedMinTempByDayCache := minItems;
      groupedMaxTempByDayCache := maxItems;
      assert NumberOfSections().value == count;
      assert groupedMinTempByDayCache ==
             ExtremeItems(weatherModel.HasData(), groupedHourlyWeatherByDayCache, count, englishMode, Least);
      assert groupedMaxTempByDayCache ==
             ExtremeItems(weatherModel.HasData(), groupedHourlyWeatherByDayCache, count, englishMode, Greatest);
    }

    /**
     * `groupedHourlyWeatherByDay`: bucket the records by day of the month, then renumber
     * the sorted day keys 0, 1, 2, … with `switchKey`.
     */
    method GroupedHourlyWeatherByDay() returns (grouped: map<int, HourlyData>, failed: bool)
      ensures grouped == Grouping(platform, weatherModel.hourlyWeather)
      ensures failed <==> !AllDated(platform, weatherModel.hourlyWeather)
    {
      var hourlyModels := weatherModel.HourlyModels();
      var buckets, dated := BucketByDay(hourlyModels);
      if !dated {
        return Placeholder, true;
      }
      var keys := SortKeys(buckets.Keys);
      RenumberTargets(buckets.Keys, keys);
      grouped := SwitchKeysToCounter(buckets, keys);
      SwitchedIsRenumbered(platform, hourlyModels, buckets, keys, grouped);
      return grouped, false;
    }

    /**
     * The first loop of `groupedHourlyWeatherByDay`: append each record to the bucket of its
     * day of the month; stop at the first record without a numeric timestamp.
     */
    method BucketByDay(hourlyModels: HourlyData) returns (grouped: map<int, HourlyData>, dated: bool)
      ensures dated <==> AllDated(platform, hourlyModels)
      ensures dated ==> grouped.Keys == Days(platform, hourlyModels)
      ensures dated ==> forall d :: d in grouped ==> grouped[d] == Bucket(platform, hourlyModels, d)
    {
      var p := platform;
      grouped := map[];
      for index := 0 to |hourlyModels|
        invariant AllDated(p, hourlyModels[..index])
        invariant grouped.Keys == Days(p, hourlyModels[..index])
        invariant forall d :: d in grouped ==> grouped[d] == Bucket(p, hourlyModels[..index], d)
      {
        var hour := hourlyModels[index];
        var epoch := weatherModel.HourlyUnixTimestamp(index, hourlyModels);
        if epoch.None? {
          Undated(p, hourlyModels, index);
          return grouped, false;
        }
        var epochNum := p.parseDouble(epoch.value);
        if epochNum.None? {
          Undated(p, hourlyModels, index);
          return grouped, false;
        }
        var day := p.dayFromEpoch(epochNum.value);
        PrefixSnoc(hourlyModels, index);
        AppendToBuckets(p, hourlyModels[..index], hour, grouped);
        ghost var old_grouped := grouped;
        if day !in grouped {
          grouped := grouped[day := [hour]];
        } else {
          grouped := grouped[day := grouped[day] + [hour]];
        }
        assert grouped == Appended(p, old_grouped, hour);
      }
      assert hourlyModels[..|hourlyModels|] == hourlyModels;
      return grouped, true;
    }

    /** `minTemp` / `maxTemp`: the extreme reading of a cached section. */
    method SectionExtremeTemp(section: int, kind: Extreme) returns (r: int, failed: bool)
      ensures Signalled(r, failed) == ExtremeTemp(groupedHourlyWeatherByDayCache, section, englishMode, kind)
    {
      if section !in groupedHourlyWeatherByDayCache {
        return 0, true;
      }
      var sectionArray := groupedHourlyWeatherByDayCache[section];
      var tempArray: seq<int> := [];
      for i := 0 to |sectionArray|
        invariant Readings(sectionArray[..i], englishMode) == Some(tempArray)
      {
        var temp := if englishMode then weatherModel.HourlyTempF(i, sectionArray)
                    else weatherModel.HourlyTempC(i, sectionArray);
        assert sectionArray[..i + 1][..i] == sectionArray[..i];
        if temp.None? {
          assert !(TempOf(sectionArray[i], englishMode).Some?);
          return 0, true;
        }
        tempArray := tempArray + [Reading(temp.value)];
      }
      assert sectionArray[..|sectionArray|] == sectionArray;
      if tempArray == [] {
        return 0, true;
      }
      return Extremum(tempArray, kind), false;
    }

    /** `itemOfFirstMin` / `itemOfFirstMax`: the first item of a section holding its extreme reading. */
    method ItemOfFirstExtreme(section: int, kind: Extreme) returns (index: int, failed: bool)
      ensures Signalled(index, failed) ==
              FirstExtremeItem(weatherModel.HasData(), groupedHourlyWeatherByDayCache, section, englishMode, kind)
    {
      if !weatherModel.HasData() {
        return 0, false;
      }
      var temp, tempFailed := SectionExtremeTemp(section, kind);
      if section !in groupedHourlyWeatherByDayCache {
        return 0, true;
      }
      var sectionArray := groupedHourlyWeatherByDayCache[section];
      index := 0;
      for hour := 0 to |sectionArray|
        invariant Scan(sectionArray, englishMode, temp, 0) == Scan(sectionArray, englishMode, temp, hour)
      {
        var hourTemp := if englishMode then weatherModel.HourlyTempF(hour, sectionArray)
                        else weatherModel.HourlyTempC(hour, sectionArray);
        if hourTemp.None? {
          return 0, true;
        }
        if Reading(hourTemp.value) == temp {
          // The first match ends the scan (`break`) with its index.
          return hour, tempFailed;
        }
      }
      return index, tempFailed;
    }

    /**
     * `groupedMinTempItemByDayCache` / `groupedMaxTempItemByDayCache`: the extreme item of
     * every section `0 ..< numberOfSections()`.
     */
    method GroupedExtremeItemByDay(kind: Extreme) returns (grouped: map<int, int>)
      ensures grouped == ExtremeItems(weatherModel.HasData(), groupedHourlyWeatherByDayCache,
                                      NumberOfSections().value, englishMode, kind)
    {
      grouped := map[];
      var dayCount := NumberOfSections().value;
      var count := if dayCount < 0 then 0 else dayCount;
      ghost var hasData := weatherModel.HasData();
      ExtremeItemsUpTo(hasData, groupedHourlyWeatherByDayCache, dayCount, englishMode, kind);
      for i := 0 to count
        invariant grouped == ExtremeItems(hasData, groupedHourlyWeatherByDayCache, i, englishMode, kind)
      {
        var item, _ := ItemOfFirstExtreme(i, kind);
        ExtremeItemsStep(hasData, groupedHourlyWeatherByDayCache, i, englishMode, kind);
        grouped := grouped[i := item];
      }
    }

    /** While the caches are consistent, the tint a cell shows is the tint the rule gives. */
    lemma ViewTintIsTint(ip: IndexPath)
      requires CacheConsistent()
      ensures ViewTint(ip) == Tint(ip)
    {
      if ip in tintCache {
        assert Tint(ip) == Some(tintCache[ip]);
      }
    }

    /**
     * In a day whose readings are not all equal, exactly one cell is cool, the first one
     * holding the day's lowest reading, and exactly one is warm, the first one holding its
     * highest reading.
     */
    lemma TintsMarkFirstExtremes(section: int, item: int, rs: seq<int>)
      requires Derived() && weatherModel.HasData()
      requires 0 <= section < NumberOfSections().value
      requires section in groupedHourlyWeatherByDayCache
      requires Readings(groupedHourlyWeatherByDayCache[section], englishMode) == Some(rs) && rs != []
      requires Extremum(rs, Least) < Extremum(rs, Greatest)
      ensures Tint(IndexPath(section, item)) == Some(Cool) <==> FirstIndexOf(rs, Extremum(rs, Least), item)
      ensures Tint(IndexPath(section, item)) == Some(Warm) <==> FirstIndexOf(rs, Extremum(rs, Greatest), item)
    {
      var g := groupedHourlyWeatherByDayCache;
      var lo := FirstExtremeItem(true, g, section, englishMode, Least).value;
      var hi := FirstExtremeItem(true, g, section, englishMode, Greatest).value;
      assert Get(groupedMinTempByDayCache, section) == Some(lo);
      assert Get(groupedMaxTempByDayCache, section) == Some(hi);
      TintMarksExtremes(g, section, englishMode, rs);
      FirstExtremeIsLeast(g, section, englishMode, Least, rs);
      FirstExtremeIsLeast(g, section, englishMode, Greatest, rs);
      assert FirstIndexOf(rs, Extremum(rs, Least), lo);
      assert FirstIndexOf(rs, Extremum(rs, Greatest), hi);
      if FirstIndexOf(rs, Extremum(rs, Least), item) {
        FirstIndexUnique(rs, Extremum(rs, Least), item, lo);
      }
      if FirstIndexOf(rs, Extremum(rs, Greatest), item) {
        FirstIndexUnique(rs, Extremum(rs, Greatest), item, hi);
      }
    }

    /** A day whose readings are all equal shows no tint at all. */
    lemma EvenDayUntinted(section: int, item: int, rs: seq<int>)
      requires Derived() && weatherModel.HasData()
      requires 0 <= section < NumberOfSections().value
      requires section in groupedHourlyWeatherByDayCache
      requires Readings(groupedHourlyWeatherByDayCache[section], englishMode) == Some(rs) && rs != []
      requires Extremum(rs, Least) == Extremum(rs, Greatest)
      ensures Tint(IndexPath(section, item)) == None
    {
      var g := groupedHourlyWeatherByDayCache;
      var lo := FirstExtremeItem(true, g, section, englishMode, Least).value;
      var hi := FirstExtremeItem(true, g, section, englishMode, Greatest).value;
      assert Get(groupedMinTempByDayCache, section) == Some(lo);
      assert Get(groupedMaxTempByDayCache, section) == Some(hi);
      FirstExtremeIsLeast(g, section, englishMode, Least, rs);
      FirstExtremeIsLeast(g, section, englishMode, Greatest, rs);
      FirstIndexUnique(rs, Extremum(rs, Least), lo, hi);
    }

    /** The item counts of sections `0 ..< n`, added up. */
    ghost function ItemTotal(n: nat): int
      reads this`groupedHourlyWeatherByDayCache, weatherModel
    {
      if n == 0 then 0 else ItemTotal(n - 1) + NumberOfItemsInSection(n - 1).value
    }

    /**
     * Once the records are grouped, the item counts of the sections, one per distinct day,
     * add up to the number of records.
     */
    lemma ItemsAddUp()
      requires Derived() && weatherModel.HasData() && AllDated(platform, weatherModel.hourlyWeather)
      ensures ItemTotal(|Days(platform, weatherModel.hourlyWeather)|) == |weatherModel.hourlyWeather|
    {
      var records := weatherModel.hourlyWeather;
      SortedLists(Days(platform, records));
      var n := |Days(platform, records)|;
      ItemTotalIsSectionTotal(n);
      GroupedTotal(platform, records);
    }

    lemma {:induction false} ItemTotalIsSectionTotal(n: nat)
      requires weatherModel.HasData()
      ensures ItemTotal(n) == SectionTotal(groupedHourlyWeatherByDayCache, n)
    {
      if n > 0 {
        ItemTotalIsSectionTotal(n - 1);
      }
    }

    /**
     * The header of a later day names the weekday of the record it reads, and that record
     * belongs to the day the section stands for: the `section`-th smallest day of the month.
     */
    lemma HeaderNamesSectionDay(section: int, item: int)
      requires Derived() && weatherModel.HasData() && AllDated(platform, weatherModel.hourlyWeather)
      requires section >= 2 && section in groupedHourlyWeatherByDayCache
      requires 0 <= item < |groupedHourlyWeatherByDayCache[section]|
      ensures var rec := groupedHourlyWeatherByDayCache[section][item];
              && Dated(platform, rec)
              && HeaderTitleViewable(IndexPath(section, item)) ==
                 Signalled(platform.prettyWeekday(Epoch(platform, rec).value), false)
              && 0 <= section < |Days(platform, weatherModel.hourlyWeather)|
              && DayOf(platform, rec) == Sorted(Days(platform, weatherModel.hourlyWeather))[section]
    {
      GroupingShape(platform, weatherModel.hourlyWeather);
    }
  }

  /** The sizes of the sections `0 ..< n` of `g`, added up; an absent section counts 0. */
  ghost function SectionTotal(g: map<int, HourlyData>, n: nat): nat {
    if n == 0 then 0 else SectionTotal(g, n - 1) + (if n - 1 in g then |g[n - 1]| else 0)
  }

  /** The section sizes of a grouping of dated records add up to the number of records. */
  lemma GroupedTotal(p: Platform, records: HourlyData)
    requires AllDated(p, records)
    ensures SectionTotal(Grouping(p, records), |Days(p, records)|) == |records|
  {
    var ks := Sorted(Days(p, records));
    SortedLists(Days(p, records));
    SectionTotalIsSizes(p, records, |ks|);
    GroupingCount(p, records);
    assert ks[..|ks|] == ks;
  }

  lemma {:induction false} SectionTotalIsSizes(p: Platform, records: HourlyData, n: nat)
    requires AllDated(p, records)
    requires n <= |Sorted(Days(p, records))|
    ensures SectionTotal(Grouping(p, records), n) == Sizes(p, records, Sorted(Days(p, records))[..n])
  {
    var ks := Sorted(Days(p, records));
    if n > 0 {
      SectionTotalIsSizes(p, records, n - 1);
      SortedLists(Days(p, records));
      GroupingShape(p, records);
      PrefixOfPrefix(ks, n);
    }
  }

  lemma PrefixOfPrefix<T>(s: seq<T>, n: nat)
    requires 0 < n <= |s|
    ensures s[..n][..n - 1] == s[..n - 1] && s[..n][n - 1] == s[n - 1]
  {
  }

  function Last(records: HourlyData): Record
    requires records != []
  {
    records[|records| - 1]
  }

  lemma PrefixSnoc<T>(s: seq<T>, i: nat)
    requires i < |s|
    ensures s[..i + 1] == s[..i] + [s[i]]
  {
  }

  /** One record without a numeric timestamp leaves the records undated. */
  lemma Undated(p: Platform, records: HourlyData, i: nat)
    requires i < |records| && !Dated(p, records[i])
    ensures !AllDated(p, records)
  {
  }

  /** The buckets after record `r` is appended, as the bucketing loop updates them. */
  function Appended(p: Platform, grouped: map<int, HourlyData>, r: Record): map<int, HourlyData>
    requires Dated(p, r)
  {
    var day := DayOf(p, r);
    if day !in grouped then grouped[day := [r]] else grouped[day := grouped[day] + [r]]
  }

  /** One step of the bucketing loop keeps the buckets equal to those of the records seen. */
  lemma AppendToBuckets(p: Platform, front: HourlyData, r: Record, grouped: map<int, HourlyData>)
    requires AllDated(p, front) && Dated(p, r)
    requires grouped.Keys == Days(p, front)
    requires forall d :: d in grouped ==> grouped[d] == Bucket(p, front, d)
    ensures AllDated(p, front + [r])
    ensures Appended(p, grouped, r).Keys == Days(p, front + [r])
    ensures forall d :: d in Appended(p, grouped, r) ==> Appended(p, grouped, r)[d] == Bucket(p, front + [r], d)
  {
    AppendedKeys(p, front, r, grouped);
    AppendedValues(p, front, r, grouped);
  }

  lemma AppendedKeys(p: Platform, front: HourlyData, r: Record, grouped: map<int, HourlyData>)
    requires AllDated(p, front) && Dated(p, r)
    requires grouped.Keys == Days(p, front)
    ensures AllDated(p, front + [r])
    ensures Appended(p, grouped, r).Keys == Days(p, front + [r])
  {
    BucketSnoc(p, front, r, DayOf(p, r));
  }

  lemma AppendedValues(p: Platform, front: HourlyData, r: Record, grouped: map<int, HourlyData>)
    requires AllDated(p, front) && Dated(p, r)
    requires grouped.Keys == Days(p, front)
    requires forall d :: d in grouped ==> grouped[d] == Bucket(p, front, d)
    ensures AllDated(p, front + [r])
    ensures forall d :: d in Appended(p, grouped, r) ==> Appended(p, grouped, r)[d] == Bucket(p, front + [r], d)
  {
    BucketSnoc(p, front, r, 0);
    forall d | d in Appended(p, grouped, r)
      ensures Appended(p, grouped, r)[d] == Bucket(p, front + [r], d)
    {
      AppendedValue(p, front, r, grouped, d);
    }
  }

  /** The bucket of day `d` after record `r` is appended. */
  lemma AppendedValue(p: Platform, front: HourlyData, r: Record, grouped: map<int, HourlyData>, d: int)
    requires AllDated(p, front) && Dated(p, r)
    requires d in grouped <==> d in Days(p, front)
    requires d in grouped ==> grouped[d] == Bucket(p, front, d)
    requires d in Appended(p, grouped, r)
    ensures AllDated(p, front + [r])
    ensures Appended(p, grouped, r)[d] == Bucket(p, front + [r], d)
  {
    BucketSnoc(p, front, r, d);
    var day := DayOf(p, r);
    var next := Bucket(p, front + [r], d);
    if d != day {
      assert next == Bucket(p, front, d);
      assert d in grouped;
      assert Appended(p, grouped, r)[d] == grouped[d];
    } else if d in grouped {
      assert next == grouped[d] + [r];
      assert Appended(p, grouped, r)[d] == grouped[d] + [r];
    } else {
      assert d !in Days(p, front);
      assert Bucket(p, front, d) == [];
      assert next == [r];
      assert Appended(p, grouped, r)[d] == [r];
    }
  }

  /**
   * The renumbering loop of `groupedHourlyWeatherByDay`: `switchKey` each key of `keys`,
   * in ascending order, to the counter `ctr`. Every key still to be moved lies above `ctr`,
   * so no bucket is overwritten, and bucket `u` ends up under key `u`.
   */
  method SwitchKeysToCounter<V>(buckets: map<int, V>, keys: seq<int>) returns (grouped: map<int, V>)
    requires Increasing(keys)
    requires forall x :: x in keys <==> x in buckets
    requires forall j :: 0 <= j < |keys| ==> keys[j] > j
    ensures forall u :: u in grouped <==> 0 <= u < |keys|
    ensures forall u :: 0 <= u < |keys| ==> grouped[u] == buckets[keys[u]]
  {
    grouped := buckets;
    var ctr := 0;
    for t := 0 to |keys|
      invariant ctr == t
      invariant forall u :: 0 <= u < t ==> u in grouped && grouped[u] == buckets[keys[u]]
      invariant forall j :: t <= j < |keys| ==> keys[j] in grouped && grouped[keys[j]] == buckets[keys[j]]
      invariant forall k :: k in grouped ==> 0 <= k < t || (k in buckets && k !in keys[..t])
    {
      assert keys[t] > t && keys[t] in grouped;
      ghost var before := grouped;
      grouped := Utility.SwitchKey(grouped, keys[t], ctr);
      forall u | 0 <= u < t + 1
        ensures u in grouped && grouped[u] == buckets[keys[u]]
      {
        if u < t {
          assert u != keys[t] && u in before;
        }
      }
      forall j | t + 1 <= j < |keys|
        ensures keys[j] in grouped && grouped[keys[j]] == buckets[keys[j]]
      {
        assert keys[j] != keys[t] && keys[j] != t && keys[j] in before;
      }
      assert keys[..t + 1] == keys[..t] + [keys[t]];
      forall k | k in grouped && !(0 <= k < t + 1)
        ensures k in buckets && k !in keys[..t + 1]
      {
        assert k in before && k != keys[t];
      }
      ctr := ctr + 1;
    }
    assert keys[..|keys|] == keys;
  }

  /** Switching the sorted day keys of the buckets to the counter gives the grouping. */
  lemma SwitchedIsRenumbered(p: Platform, records: HourlyData, buckets: map<int, HourlyData>,
                             keys: seq<int>, grouped: map<int, HourlyData>)
    requires AllDated(p, records)
    requires buckets.Keys == Days(p, records)
    requires forall d :: d in buckets ==> buckets[d] == Bucket(p, records, d)
    requires keys == Sorted(Days(p, records))
    requires forall u :: 0 <= u < |keys| ==> keys[u] in buckets
    requires forall u :: u in grouped <==> 0 <= u < |keys|
    requires forall u :: 0 <= u < |keys| ==> grouped[u] == buckets[keys[u]]
    ensures grouped == Renumbered(p, records)
  {
    SwitchedBuckets(buckets, keys, grouped);
    BucketsByIndex(p, records, buckets, keys);
    RenumberedByIndex(p, records, keys);
  }

  lemma BucketsByIndex(p: Platform, records: HourlyData, buckets: map<int, HourlyData>, keys: seq<int>)
    requires AllDated(p, records)
    requires forall d :: d in buckets ==> buckets[d] == Bucket(p, records, d)
    requires forall u :: 0 <= u < |keys| ==> keys[u] in buckets
    ensures (map u | 0 <= u < |keys| :: buckets[keys[u]]) == (map u | 0 <= u < |keys| :: Bucket(p, records, keys[u]))
  {
  }

  lemma RenumberedByIndex(p: Platform, records: HourlyData, keys: seq<int>)
    requires AllDated(p, records)
    requires keys == Sorted(Days(p, records))
    ensures Renumbered(p, records) == map u | 0 <= u < |keys| :: Bucket(p, records, keys[u])
  {
  }

  lemma SwitchedBuckets<V>(buckets: map<int, V>, keys: seq<int>, grouped: map<int, V>)
    requires forall u :: 0 <= u < |keys| ==> keys[u] in buckets
    requires forall u :: u in grouped <==> 0 <= u < |keys|
    requires forall u :: 0 <= u < |keys| ==> grouped[u] == buckets[keys[u]]
    ensures grouped == map u | 0 <= u < |keys| :: buckets[keys[u]]
  {
    var m := map u | 0 <= u < |keys| :: buckets[keys[u]];
    assert grouped.Keys == m.Keys;
  }

  /** Every day key still to be moved lies above its target: `ctr` never lands on a bucket. */
  lemma RenumberTargets(s: set<int>, keys: seq<int>)
    requires forall x :: x in s ==> x >= 1
    requires keys == Sorted(s)
    ensures |keys| == |s| && Increasing(keys)
    ensures forall x :: x in keys <==> x in s
    ensures forall j :: 0 <= j < |keys| ==> keys[j] > j
  {
    SortedLists(s);
    forall j | 0 <= j < |keys|
      ensures keys[j] > j
    {
      SortedAboveIndex(s, j);
    }
  }
}
