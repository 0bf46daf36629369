# Umbrella weather core in Dafny

Umbrella is an iOS weather app. The user enters a US zip code, and the app:

- checks the zip code;
- requests the current observation and the hourly forecast from the Weather Underground service;
- parses the JSON answer into a dictionary of current values and a list of hourly records;
- shows the hours in a grid with one section per day.

For each day the first coldest hour is tinted cool and the first warmest hour warm. Icon images and tints are cached per cell while the cells load.

This project models that core and proves properties of the model.

| module (file) | models |
|---|---|
| `Wrappers` (wrappers.dfy) | `Option` |
| `Foundation` (foundation.dfy) | the platform services the core calls: `URLComponents.url`, `components(separatedBy:)`, `Int(String)`, decimal digits |
| `StringExtensions` (strings.dfy) | `String+`: `weatherIconURL`, `trimmed`, the UTF-16 `count` |
| `Networking` (networking.dfy) | `Result` and `NetworkError` with its `description` |
| `URLFacility` (url_facility.dfy) | `WeatherURLFacility`: zip-code validation, the request URL, the facility errors |
| `Utility` (utility.dfy) | `switchKey` |
| `JsonModel` (json.dfy) | decoded JSON and Freddy's `getString(at:)` / `getArray(at:)` path lookups |
| `WeatherAPI` (weather_api.dfy) | `fetchWeather`'s guards and error mapping, `parseAll`, `parseCurrent`, `parseHourly`, the nine field extractors |
| `Models` (weather_model.dfy) | `WeatherModel`: `maybeUpdate`, `hasData`, the accessors, `hourlyIconURL` |
| `DayGrouping` (day_grouping.dfy) | the specification of `groupedHourlyWeatherByDay` |
| `Extremes` (extremes.dfy) | the specification of `minTemp`, `maxTemp`, `itemOfFirstMin`, `itemOfFirstMax` and `tint` |
| `ViewModel` (main_view_model.dfy) | `MainViewModel`: its caches, the section and item counts, the cell viewables, `updateStore` and the cache builders |

## How the model is built

`WeatherModel` and `MainViewModel` update their fields in place, so they are classes.

- The two dictionaries of the weather model are fields.
- The five caches of the view model are `map` fields.
- The methods state the whole new state.
- Two ghost predicates capture what must hold between calls:
  - `Derived` says the three day caches are what grouping and the extreme scans give for the current forecast and unit.
  - `CacheConsistent` says every cached tint is the tint the rule gives now.

The Swift loops are methods with loop invariants:

- the bucketing and renumbering loops of `groupedHourlyWeatherByDay`;
- the scans of `minTemp` / `itemOfFirstMin`;
- the loops of the cache builders;
- the extractor loops of the parser.

Each is proved equal to a specification function (`Grouping`, `ExtremeTemp`, `FirstExtremeItem`, `ExtremeItems`, `CurrentOutcome`, `HourlyOutcome`). Lemmas about those functions state what the code achieves.

What the platform computes is passed in as a `Platform` value of functions:

- `Double(String)`;
- the day of the month of a timestamp;
- a running day number of a timestamp (its year, month and day, which is what `uniqueDays` subtracts);
- the weekday name.

The response of the weather service is a parameter of `FetchWeather`. The view model's `delegate?.onGeneralFailure()` becomes a `failed` flag returned next to the value.

Swift traps are modelled as follows:

- An index out of range (`weather[hour]`) becomes a precondition.
- The `error as! NetworkError` cast in `fetchWeather` traps for any other error. The model gives `None` as the completion in that case.

### Where the code and its stated intent differ

The model follows the code in each case.

- **Grouping key.** Hours are grouped by the *day of the month* (`Calendar.component(.day)`), and the keys are sorted as numbers.
  - Across a month boundary, the first day of the next month sorts before the 31st, so the later hours become section 0. `MonthBoundary` proves this on a two-hour forecast.
  - In time order within one month, the sections come out in chronological order (`GroupingKeepsOrder`).
- **Zip codes.** The comment above the zip-code check (WeatherURLFacility.swift:67-69) asks for five digits, optionally followed by a dash and four digits, and the digit test the code applies to the undashed form shows the same intent.
  - With a dash, the code checks only the *length* of the part before it, so `"abcde-1234"` is accepted (`DashFormSkipsFirstPartDigits`).
  - Lengths are counted in UTF-16 code units.
- **Section count.** `numberOfSections` is computed from the running day numbers of the first and last hour, not from the grouping. The model keeps the two separate, as the code does.
  - The two agree only when every calendar day between the first and the last hour has at least one hour in the forecast.
  - When a day is skipped, there is one section more than there are buckets, and `numberOfItemsInSection` signals a failure for the last section (`SpanOutrunsBuckets`).
- **`BadURL`.** `BadURL` cannot occur: the facility's path always starts with "/", so `URLComponents` always yields a URL (`RequestURL`).

## Model

| member | source | states |
|---|---|---|
| `Foundation.UrlFrom` | Umbrella/Models/WeatherURLFacility.swift:52-57 | the URL exists exactly when the path is empty or starts with "/", and then carries the scheme, host and path given |
| `Foundation.Split` | Umbrella/Models/WeatherURLFacility.swift:72 | splitting on a character gives at least one part and no part contains the separator |
| `Foundation.SplitJoin` | Umbrella/Models/WeatherURLFacility.swift:72 | joining the parts with the separator gives back the zip code: splitting loses nothing |
| `Foundation.SplitCount` | Umbrella/Models/WeatherURLFacility.swift:72 | there is exactly one more part than there are dashes |
| `Foundation.SplitNoSeparator` | Umbrella/Models/WeatherURLFacility.swift:72 | a string without a dash is a single part |
| `Foundation.SplitAtFirst` | Umbrella/Models/WeatherURLFacility.swift:72 | the first part is everything before the first dash, followed by the parts of the rest |
| `Foundation.ParseInt` | Umbrella/MainViewModel.swift:402 | `Int(temp)` succeeds only with a value in the 64-bit range |
| `Foundation.ParseIntDecimal` | Umbrella/MainViewModel.swift:402 | every 64-bit integer is read back from its decimal rendering, negative ones included |
| `Foundation.ParseIntRejects` | Umbrella/MainViewModel.swift:402 | the empty string, a lone sign, trailing letters, a leading space and a decimal point are not integers |
| `Foundation.DigitsRoundTrip` | Umbrella/MainViewModel.swift:402 | the value of the decimal digits of a natural number is that number |
| `StringExtensions.WeatherIconURL` | Umbrella/Extensions/String+.swift:13-29 | always a URL: https, the icon host, path "/key-selected.png" when highlighted and "/key.png" otherwise |
| `StringExtensions.WeatherIconURLInjective` | Umbrella/Extensions/String+.swift:13-29 | two icon keys with the same URL (same highlighting) are the same key |
| `StringExtensions.WeatherIconURLVariantsDiffer` | Umbrella/Extensions/String+.swift:19-26 | the highlighted and plain URLs of one icon differ |
| `StringExtensions.TrimStart` | Umbrella/Extensions/String+.swift:31-34 | the result is a suffix, everything dropped is whitespace, and it does not start with whitespace |
| `StringExtensions.TrimEnd` | Umbrella/Extensions/String+.swift:31-34 | the result is a prefix, everything dropped is whitespace, and it does not end with whitespace |
| `StringExtensions.Trimmed` | Umbrella/Extensions/String+.swift:31-34 | the result is a contiguous middle of the string framed by whitespace only, and it starts and ends with a non-whitespace character |
| `StringExtensions.TrimmedNoop` | Umbrella/Extensions/String+.swift:31-34 | a string without whitespace at its ends is unchanged |
| `StringExtensions.TrimmedIdempotent` | Umbrella/Extensions/String+.swift:31-34 | trimming twice equals trimming once |
| `StringExtensions.Utf16Count` | Umbrella/Extensions/String+.swift:36-39 | the UTF-16 count lies between the number of characters and twice it, and equals it within the Basic Multilingual Plane |
| `StringExtensions.Utf16CountAppend` | Umbrella/Extensions/String+.swift:36-39 | the count of a concatenation is the sum of the counts |
| `StringExtensions.Utf16CountDigits` | Umbrella/Extensions/String+.swift:36-39 | a string of decimal digits counts one unit per digit |
| `Networking.Description` | Umbrella/Networking.swift:25-35 | "Unable to make request: " or "Unable to parse response: " followed by the reason, or "Unknown" without one |
| `Networking.DescriptionDetermines` | Umbrella/Networking.swift:25-35 | two errors read the same exactly when they are the same case with the same reason, a missing reason counting as "Unknown" |
| `Networking.DescriptionWithoutReason` | Umbrella/Networking.swift:25-35 | the descriptions of the two cases without a reason |
| `URLFacility.Description` | Umbrella/Models/WeatherURLFacility.swift:16-26 | "Invalid zip code format." exactly for `BadZipCode` and "Bad URL." exactly for `BadURL` |
| `URLFacility.ValidZipCode` | Umbrella/Models/WeatherURLFacility.swift:70-91 | an accepted zip code has at most two dash-separated parts |
| `URLFacility.ValidZipCodeShape` | Umbrella/Models/WeatherURLFacility.swift:70-91 | accepted exactly when the code is five digits, or a dash-free first part of five UTF-16 units, one dash and four digits |
| `URLFacility.OnePartRule` | Umbrella/Models/WeatherURLFacility.swift:76-81 | a code without a dash is accepted exactly when it is five units long and all digits |
| `URLFacility.TwoPartRule` | Umbrella/Models/WeatherURLFacility.swift:76-86 | a code with one dash is accepted exactly when the first part is five units, and the second four units and all digits |
| `URLFacility.ManyPartsRule` | Umbrella/Models/WeatherURLFacility.swift:78-89 | a code with two dashes or more is rejected |
| `URLFacility.ZipCodeFiveDigits` | Umbrella/Models/WeatherURLFacility.swift:67-69 | "12345" is accepted |
| `URLFacility.ZipCodePlusFour` | Umbrella/Models/WeatherURLFacility.swift:67-69 | "12345-6789" is accepted |
| `URLFacility.ZipCodeRejected` | Umbrella/Models/WeatherURLFacility.swift:76-81 | the empty string, "1234", "123456" and "abcde" are rejected |
| `URLFacility.ZipCodeShortLastPart` | Umbrella/Models/WeatherURLFacility.swift:83-86 | "12345-123" is rejected |
| `URLFacility.ZipCodeThreeParts` | Umbrella/Models/WeatherURLFacility.swift:88-89 | "12345-67-89" is rejected |
| `URLFacility.DashFormSkipsFirstPartDigits` | Umbrella/Models/WeatherURLFacility.swift:76-86 | "abcde-1234" is accepted: the part before the dash is checked for length only |
| `URLFacility.Init` | Umbrella/Models/WeatherURLFacility.swift:38-46 | a facility exists exactly for a valid zip code and keeps it |
| `URLFacility.Url` | Umbrella/Models/WeatherURLFacility.swift:48-59 | always a URL: https on api.wunderground.com with path "/api/<key>/conditions/hourly/q/<zip>.json" |
| `Utility.SwitchKey` | Umbrella/Utility.swift:11-17 | a present entry moves to the new key and leaves the old key; an absent key or equal keys leave the dictionary alone; other keys keep their entries |
| `JsonModel.At` | Umbrella/WeatherAPI.swift:206 | the empty path gives the document itself |
| `JsonModel.GetString` | Umbrella/WeatherAPI.swift:206 | a string exactly when the path leads to a JSON string, and then that string |
| `JsonModel.GetArray` | Umbrella/WeatherAPI.swift:184 | an array exactly when the path leads to a JSON array, and then its elements |
| `JsonModel.AtConcat` | Umbrella/WeatherAPI.swift:206 | following a concatenated path is following the first part, then the second |
| `JsonModel.AtNest` | Umbrella/WeatherAPI.swift:206 | a document nested along a path gives back its leaf at that path |
| `WeatherAPI.ParsedCurrentCity` | Umbrella/WeatherAPI.swift:201-213 | the string at current_observation/display_location/full; any decoding or lookup failure throws `cannotParse("parsedCurrentCity(_:)")` |
| `WeatherAPI.ParsedCurrentTempF` | Umbrella/WeatherAPI.swift:215-227 | the string at current_observation/temp_f, or `cannotParse` with its own name |
| `WeatherAPI.ParsedCurrentTempC` | Umbrella/WeatherAPI.swift:229-241 | the string at current_observation/temp_c, or `cannotParse` with its own name |
| `WeatherAPI.ParsedCurrentCondition` | Umbrella/WeatherAPI.swift:243-255 | the string at current_observation/weather, or `cannotParse` with its own name |
| `WeatherAPI.ParsedHourlyPrettyTimestamp` | Umbrella/WeatherAPI.swift:259-270 | the string at FCTTIME/civil of the hour, or `cannotParse` with its own name |
| `WeatherAPI.ParsedHourlyUnixTimestamp` | Umbrella/WeatherAPI.swift:272-283 | the string at FCTTIME/epoch of the hour, or `cannotParse` with its own name |
| `WeatherAPI.ParsedHourlyIcon` | Umbrella/WeatherAPI.swift:285-296 | the string at icon of the hour, or `cannotParse` with its own name |
| `WeatherAPI.ParsedHourlyTempF` | Umbrella/WeatherAPI.swift:298-309 | the string at temp/english of the hour, or `cannotParse` with its own name |
| `WeatherAPI.ParsedHourlyTempC` | Umbrella/WeatherAPI.swift:311-322 | the string at temp/metric of the hour, or `cannotParse` with its own name |
| `WeatherAPI.RunHours` | Umbrella/WeatherAPI.swift:185-195 | records exactly when every hour parses, one per hour in order, each that hour's record |
| `WeatherAPI.RunCurrentThrown` | Umbrella/WeatherAPI.swift:160-166 | once a current extractor throws, the later ones do not change the outcome |
| `WeatherAPI.RunHourThrown` | Umbrella/WeatherAPI.swift:187-193 | once an hourly extractor throws, the later ones do not change the outcome |
| `WeatherAPI.RunHourFrom` | Umbrella/WeatherAPI.swift:180-193 | writing into a non-empty dictionary throws as writing into an empty one does, and otherwise only adds the old entries under the new ones |
| `WeatherAPI.HourFromCarried` | Umbrella/WeatherAPI.swift:180-194 | the dictionary carried over from the previous hour is overwritten completely, so each record is the hour's own with exactly the five hourly keys |
| `WeatherAPI.HourRecordShape` | Umbrella/WeatherAPI.swift:174-193 | an hour's record exists exactly when all five extractors succeed; it then maps each hourly key to its extractor's string, and otherwise the error is that of the first extractor to throw |
| `WeatherAPI.CurrentOutcomeShape` | Umbrella/WeatherAPI.swift:150-168 | the current dictionary exists exactly when all four extractors succeed; it then maps each current key to its string, and otherwise the error is that of the first extractor to throw |
| `WeatherAPI.RunHoursThrown` | Umbrella/WeatherAPI.swift:185-195 | once an hour fails, the later hours do not change the outcome |
| `WeatherAPI.ParseCurrent` | Umbrella/WeatherAPI.swift:150-168 | the loop over the four extractors returns or throws what `CurrentOutcome` specifies |
| `WeatherAPI.ParseHourly` | Umbrella/WeatherAPI.swift:170-197 | the loops over the hours and their extractors return or throw what `HourlyOutcome` specifies; undecodable data or a missing hourly_forecast array throws the JSON error |
| `WeatherAPI.ParseHour` | Umbrella/WeatherAPI.swift:187-194 | one hour's extractor loop, started from the previous hour's dictionary, gives that hour's own record with the five hourly keys |
| `WeatherAPI.ParseAll` | Umbrella/WeatherAPI.swift:127-148 | a failure is rethrown (`invalid("Bad data.")` without an error), a non-`Data` payload throws `cannotParse("Bad data.")`, and otherwise the current part is parsed and then the hourly part |
| `WeatherAPI.Completion` | Umbrella/WeatherAPI.swift:84-94 | a completion is delivered exactly when parsing succeeded or threw a network error: success with the weather, or failure with that error |
| `WeatherAPI.RequestURL` | Umbrella/WeatherAPI.swift:68-77 | `BadZipCode` exactly for an invalid zip code, and otherwise the facility URL, so `BadURL` never occurs |
| `WeatherAPI.FetchWeather` | Umbrella/WeatherAPI.swift:66-96 | an invalid zip code completes at once with `BadZipCode` and makes no request; a valid one requests the facility URL and completes with what parsing the response gives |
| `WeatherAPI.HourRoundTrip` | Umbrella/WeatherAPI.swift:259-322 | an hour element parses back to the five strings it was built from |
| `WeatherAPI.HourAt` | Umbrella/WeatherAPI.swift:259-322 | the five hourly paths lead to the five strings of an hour element |
| `WeatherAPI.ObservationAt` | Umbrella/WeatherAPI.swift:201-255 | the four current paths lead to the observation's strings, and the weather path is missing when the observation has no condition |
| `WeatherAPI.ForecastHourly` | Umbrella/WeatherAPI.swift:170-197 | the hourly part of a forecast document parses back to the records of its hours, in order |
| `WeatherAPI.ForecastRoundTrip` | Umbrella/WeatherAPI.swift:127-197 | a complete forecast document parses back to the observation and the hours it was built from |
| `WeatherAPI.MissingCondition` | Umbrella/WeatherAPI.swift:243-255 | a document without a weather condition fails with `cannotParse("parsedCurrentCondition(_:)")` |
| `Models.Lookup` | Umbrella/Models/WeatherModel.swift:61 | `dict[key] ?? nil`: a value exactly when the key is present and holds one |
| `Models.WeatherModel.constructor` | Umbrella/Models/WeatherModel.swift:21-22 | the shared instance starts with empty dictionaries and no data |
| `Models.WeatherModel.HasData` | Umbrella/Models/WeatherModel.swift:52-55 | true exactly when the current observation has at least one entry and the forecast at least one hour; false for a new instance, true after a parsed forecast is stored (`AccessorsAfterParse`) |
| `Models.WeatherModel.MaybeUpdate` | Umbrella/Models/WeatherModel.swift:28-45 | true exactly for a success carrying a weather value, which then replaces both parts; otherwise nothing changes |
| `Models.WeatherModel.CurrentCity` | Umbrella/Models/WeatherModel.swift:59-62 | nil exactly when the key is missing or holds nil |
| `Models.WeatherModel.CurrentTempF` | Umbrella/Models/WeatherModel.swift:64-67 | nil exactly when the key is missing or holds nil |
| `Models.WeatherModel.CurrentTempC` | Umbrella/Models/WeatherModel.swift:69-72 | nil exactly when the key is missing or holds nil |
| `Models.WeatherModel.CurrentCondition` | Umbrella/Models/WeatherModel.swift:74-77 | nil exactly when the key is missing or holds nil |
| `Models.WeatherModel.HourlyPrettyTimestamp` | Umbrella/Models/WeatherModel.swift:81-84 | nil exactly when the hour's key is missing or holds nil |
| `Models.WeatherModel.HourlyUnixTimestamp` | Umbrella/Models/WeatherModel.swift:86-89 | nil exactly when the hour's key is missing or holds nil |
| `Models.WeatherModel.HourlyIconURL` | Umbrella/Models/WeatherModel.swift:91-96 | nil exactly when the hour has no icon, otherwise the icon's URL with the requested highlighting |
| `Models.WeatherModel.HourlyTempF` | Umbrella/Models/WeatherModel.swift:98-101 | nil exactly when the hour's key is missing or holds nil |
| `Models.WeatherModel.HourlyTempC` | Umbrella/Models/WeatherModel.swift:103-106 | nil exactly when the hour's key is missing or holds nil |
| `Models.AccessorsAfterParse` | Umbrella/Models/WeatherModel.swift:28-106 | after a forecast document is stored, the model has data and every accessor gives back the document's string |
| `Models.CurrentAccessors` | Umbrella/Models/WeatherModel.swift:59-77 | the current accessors read the observation's strings from its record |
| `Models.HourlyAccessors` | Umbrella/Models/WeatherModel.swift:81-106 | the hourly accessors read the hour's strings from its record, and the icon URL is built from its icon |
| `DayGrouping.Days` | Umbrella/MainViewModel.swift:509-531 | the bucket keys are exactly the days of the month of the records |
| `DayGrouping.Bucket` | Umbrella/MainViewModel.swift:521-530 | a day's bucket is non-empty exactly for a day that occurs, and holds only records of that day |
| `DayGrouping.SortedLists` | Umbrella/MainViewModel.swift:534 | `keys.sorted()` lists every key once, in strictly ascending order |
| `DayGrouping.GroupingShape` | Umbrella/MainViewModel.swift:505-541 | with all timestamps numeric, the sections are exactly 0 … k-1 for k days, and section u holds the non-empty bucket of the u-th smallest day; otherwise the result is the placeholder |
| `DayGrouping.BucketSnoc` | Umbrella/MainViewModel.swift:523-530 | appending a record only extends the bucket of its own day |
| `DayGrouping.SizesTotal` | Umbrella/MainViewModel.swift:505-541 | the bucket sizes of any ascending list of all the days add up to the number of records |
| `DayGrouping.GroupingCount` | Umbrella/MainViewModel.swift:505-541 | the buckets of the sorted days hold exactly as many records as were grouped |
| `DayGrouping.ConcatSnoc` | Umbrella/MainViewModel.swift:519-527 | appending a record adds it once to the buckets of an ascending key list holding its day, and to no bucket otherwise |
| `DayGrouping.ConcatPermutes` | Umbrella/MainViewModel.swift:505-541 | the buckets of any ascending list of all the days, laid end to end, are a permutation of the records |
| `DayGrouping.GroupingPermutes` | Umbrella/MainViewModel.swift:505-541 | the buckets of the sorted days, laid end to end, are a permutation of the grouped records: each lands in exactly one section, as often as it occurs |
| `DayGrouping.GroupingKeepsOrder` | Umbrella/MainViewModel.swift:505-541 | when the days never decrease, reading the sections in order gives back the records unchanged |
| `DayGrouping.MonthBoundary` | Umbrella/MainViewModel.swift:521-538 | across a month boundary the later hour lands in section 0 and the earlier one in section 1 |
| `DayGrouping.SortKeys` | Umbrella/MainViewModel.swift:534 | the loop lists the keys in the order `Sorted` specifies |
| `Extremes.Reading` | Umbrella/MainViewModel.swift:402 | `Int(temp) ?? 0`: the integer when the text is one, otherwise 0 |
| `Extremes.Readings` | Umbrella/MainViewModel.swift:394-404 | readings exactly when every record has a temperature, one per record in order |
| `Extremes.Extremum` | Umbrella/MainViewModel.swift:406-411 | `min()` / `max()`: an element of the list no larger (smaller) than any other |
| `Extremes.ExtremeItemsStep` | Umbrella/MainViewModel.swift:547-551 | one more iteration of the cache loop adds the next section's item |
| `Extremes.ExtremeItemsUpTo` | Umbrella/MainViewModel.swift:546-551 | no sections, or a negative count, give an empty cache |
| `Extremes.TintRule` | Umbrella/MainViewModel.swift:325-349 | cool exactly on the min item and warm exactly on the max item when the two differ; no tint when they agree, both absent included |
| `Extremes.TintAtMostOnce` | Umbrella/MainViewModel.swift:335-346 | at most one item of a section is cool and at most one is warm |
| `Extremes.ScanFindsFirst` | Umbrella/MainViewModel.swift:426-439 | the scan stops without failure at the first item holding the target reading |
| `Extremes.FirstExtremeIsLeast` | Umbrella/MainViewModel.swift:414-442 | for a non-empty section with temperatures, the item found is the first holding the section's extreme, and nothing fails |
| `Extremes.AbsentSectionFails` | Umbrella/MainViewModel.swift:385-392 | a missing section gives temperature 0 and item 0, with a failure |
| `Extremes.TintMarksExtremes` | Umbrella/MainViewModel.swift:325-349 | when a day's lowest reading is below its highest, the first coldest and first warmest items differ and are tinted cool and warm |
| `Extremes.FirstIndexUnique` | Umbrella/MainViewModel.swift:426-439 | a reading has only one first index |
| `ViewModel.MainViewModel.constructor` | Umbrella/MainViewModel.swift:21-25 | empty caches, then day caches derived from the model |
| `ViewModel.MainViewModel.FetchWeatherAsync` | Umbrella/MainViewModel.swift:34-44 | fetches as `fetchWeather` does; an update replaces the model's forecast, empties the image and tint caches and derives the day caches again for the unchanged unit setting; otherwise nothing changes |
| `ViewModel.MainViewModel.ChangeEnglishMode` | Umbrella/MainViewModel.swift:317-321 | the unit switch of the settings screen (`onEnglishModeValueChanged` in MainViewController.swift): the new unit is stored and `updateStore` rebuilds every cache for it |
| `ViewModel.MainViewModel.NumberOfSections` | Umbrella/MainViewModel.swift:51-79 | reads only the first and the last hour; 0 without data; 0 without failure when either lacks a timestamp; a failure with 0 exactly when both have one and either is not a number; with both numeric, the day number of the last hour minus that of the first, plus one |
| `ViewModel.MainViewModel.NumberOfItemsInSection` | Umbrella/MainViewModel.swift:81-93 | 0 without data; otherwise the size of the cached section without failure, or 0 with a failure exactly when the section is missing |
| `ViewModel.MainViewModel.SpanOutrunsBuckets` | Umbrella/MainViewModel.swift:51-93 | two hours two calendar days apart give three sections but two buckets, and the third section reports a failure once the caches are derived |
| `ViewModel.MainViewModel.Tint` | Umbrella/MainViewModel.swift:325-349 | cool exactly when the min cache names the cell as its section's item and the max cache does not; warm exactly the other way round; no tint when both or neither name it |
| `ViewModel.MainViewModel.ViewTint` | Umbrella/MainViewModel.swift:108-116 | the cached tint, else the computed tint when no image is cached, else none |
| `ViewModel.MainViewModel.TimeViewable` | Umbrella/MainViewModel.swift:95-124 | "2:00 PM" without data or section (the latter failing), "2.00 PM" with a failure without a time, otherwise the time and its tint |
| `ViewModel.MainViewModel.TempViewable` | Umbrella/MainViewModel.swift:126-157 | "50°" without data, section or temperature (the latter two failing), otherwise the temperature in the current unit with "°" and its tint |
| `ViewModel.MainViewModel.HeaderTitleViewable` | Umbrella/MainViewModel.swift:226-260 | "Today" for section 0 or without data, "Tomorrow" for section 1, otherwise the weekday of the cell's record; "Next Day" with a failure exactly when the section or a numeric timestamp is missing |
| `ViewModel.MainViewModel.IconViewable` | Umbrella/MainViewModel.swift:159-200 | no icon without data or section; a cached image with its cached tint; otherwise the tint is computed, cached when present, and the highlighted or plain icon is requested; cached tints stay consistent |
| `ViewModel.MainViewModel.OnIconFetched` | Umbrella/MainViewModel.swift:200-223 | a fetched image is cached with the request's tint and shown; a failed fetch shows nothing and fails; cached tints stay consistent when the tint saved at request time is still the one the rule gives (`tint == Tint(ip)`), that is, when no `updateStore` ran since the request |
| `ViewModel.MainViewModel.Cache` | Umbrella/MainViewModel.swift:351-358 | the image is always stored and the tint only when there is one |
| `ViewModel.MainViewModel.UpdateStore` | Umbrella/MainViewModel.swift:317-321 | image and tint caches empty, day caches derived from the current forecast and unit |
| `ViewModel.MainViewModel.EmptyAllCaches` | Umbrella/MainViewModel.swift:360-367 | all five caches are empty |
| `ViewModel.MainViewModel.BuildGroupedCaches` | Umbrella/MainViewModel.swift:369-374 | the grouping, then the min and max items of its sections, as `Derived` specifies |
| `ViewModel.MainViewModel.GroupedHourlyWeatherByDay` | Umbrella/MainViewModel.swift:505-541 | the result is `Grouping` of the forecast, with a failure exactly when a timestamp is missing or not numeric |
| `ViewModel.MainViewModel.BucketByDay` | Umbrella/MainViewModel.swift:509-531 | stops exactly at a record without a numeric timestamp; otherwise the keys are the days and each bucket holds that day's records in order |
| `ViewModel.MainViewModel.SectionExtremeTemp` | Umbrella/MainViewModel.swift:385-412 | the loop gives what `ExtremeTemp` specifies (`maxTemp` at 476-503 is the same loop) |
| `ViewModel.MainViewModel.ItemOfFirstExtreme` | Umbrella/MainViewModel.swift:414-442 | the scan with `break` gives what `FirstExtremeItem` specifies (`itemOfFirstMax` at 444-474 is the same loop) |
| `ViewModel.MainViewModel.GroupedExtremeItemByDay` | Umbrella/MainViewModel.swift:543-554 | the cache holds the first extreme item of every section below `numberOfSections()` (`groupedMaxTempItemByDayCache` at 556-567 is the same loop) |
| `ViewModel.MainViewModel.ViewTintIsTint` | Umbrella/MainViewModel.swift:108-116 | while the caches are consistent, a cell shows the tint the rule gives |
| `ViewModel.MainViewModel.TintsMarkFirstExtremes` | Umbrella/MainViewModel.swift:325-349 | in a day whose readings are not all equal, a cell is cool exactly when it is the first coldest, and warm exactly when it is the first warmest |
| `ViewModel.MainViewModel.EvenDayUntinted` | Umbrella/MainViewModel.swift:335-338 | a day whose readings are all equal shows no tint |
| `ViewModel.MainViewModel.ItemsAddUp` | Umbrella/MainViewModel.swift:81-93 | the item counts of the sections add up to the number of hourly records |
| `ViewModel.MainViewModel.ItemTotalIsSectionTotal` | Umbrella/MainViewModel.swift:81-93 | with data, the item counts of the first n sections add up to their cached sizes |
| `ViewModel.MainViewModel.HeaderNamesSectionDay` | Umbrella/MainViewModel.swift:240-258 | a later section's header names the weekday of its record, and that record belongs to the section's day |
| `ViewModel.GroupedTotal` | Umbrella/MainViewModel.swift:505-541 | the section sizes of a grouping of dated records add up to the number of records |
| `ViewModel.SwitchKeysToCounter` | Umbrella/MainViewModel.swift:533-538 | renumbering the ascending keys with `switchKey` never overwrites a bucket, and leaves bucket u under key u |
| `ViewModel.SwitchedIsRenumbered` | Umbrella/MainViewModel.swift:533-540 | the renumbered buckets are the grouping `Renumbered` specifies |
| `ViewModel.RenumberTargets` | Umbrella/MainViewModel.swift:533-538 | every sorted day key lies above its position, so the counter never lands on a key still to be moved |
| `ViewModel.AppendToBuckets` | Umbrella/MainViewModel.swift:523-530 | one step of the bucketing loop keeps the buckets equal to those of the records seen |

## Left out

- Transport: `Requestor`, `AlamofireRequestor` and `showNetworkActivity` are I/O. The service's response is a parameter of `FetchWeather` and `FetchWeatherAsync`.
- `fetchImage` and `fetchImageAsync`: these are image download and decoding. The fetched image, or its absence, is a parameter of `OnIconFetched`.
- JSON decoding of the response bytes (`JSON(data:)`) is not modelled. Data is represented by the document it decodes to, or as undecodable.
- Asynchrony: `[weak self]` captures, dispatch to the main queue, and concurrent icon requests are not modelled. A completion whose owner is gone, and the interleaving of several requests, are not modelled.
- OnIconFetched: does not promise consistent caches for a completion that arrives after `updateStore` rebuilt the caches (after a new forecast or a unit change). Like the Swift code, which captures the tint when the request is made (MainViewModel.swift:188) and caches it without a staleness check (MainViewModel.swift:209), it then stores the old image and tint for that cell.
- A `nil` zip code is not modelled. The facility takes a string, and `components(separatedBy:)` on a `nil` implicitly unwrapped value traps.
- `Double(String)`, `Calendar` and `DateFormatter` are `Platform` functions. They are not computed, because they are floating point and time-zone dependent.
- `CharacterSet.decimalDigits` is modelled as the ASCII digits. Other Unicode decimal digits are not modelled.
- `NSCache` eviction: the image and tint caches are maps that never drop entries.
- `currentCityStateViewable`, `currentTempViewable`, `currentViewBackgroundColor` and `currentConditionViewable` are left out. They round floating-point temperatures and format them with `%.0f`.
- `print` output is left out.
- The `assertionFailure` branch of `iconViewable`'s fetch completion is left out. It is a success that is not an image, which the image fetcher never delivers.
- `GroupedExtremeItemByDay`: a negative `numberOfSections()` makes Swift's `0..<dayCount` trap. The model clamps the count to 0 and builds an empty cache.
- `BuildGroupedCaches`: the failure notifications raised while the caches are built are dropped, not reported.
- `TimeViewable`, `TempViewable`, `HeaderTitleViewable` and `IconViewable` require the item to lie inside its section. Swift traps there on the array index.
- `MainViewModel.englishMode` reads the stored user setting on every access. The model holds it in a field, which `ChangeEnglishMode` updates.
