# ictb-time work-time adapter, modelled in Dafny

The ioBroker adapter `ictb-time` turns the geofence states that traccar
publishes for each tracked device (`traccar.0.devices.<n>.geofences_string`)
into work sessions of the employee who carries the device. A customer key
opens a session, a different key switches to a new one, and an empty, `0` or
`null` value closes it. Closing a session writes a log entry with the
customer's billing data and the duration in hours. The adapter also keeps one
channel object per configured customer (`<ns>.kunden.<key>`) and per
employee (`<ns>.mitarbeiter.<device>`) in the ioBroker object tree. It
accepts `saveConfig` and `getConfig` messages. A separate aggregation
adapter (test_aggregates.js) adds the hours of a log entry to a day, week,
month and year bucket of the employee.

The model has these modules:

- `Text`: JavaScript string operations the code relies on:
  - `toString` of numbers;
  - `trim`;
  - ASCII `toLowerCase`;
  - string `<=`;
  - `split(c)[0]`.
- `Calendar`: the parts of `Date` the code uses, on integer day numbers and
  millisecond time values in UTC:
  - `getFullYear`, `getMonth`, `getDay`;
  - `getISOWeek` as written;
  - `toISOString` and parsing its output.
- `Records`: customers, employees, sessions and log entries.
- `Geofence`: the state id pattern and the "no geofence" sentinel.
- `Sessions`: the per-device state machine of `onStateChange` and
  `closeSession`, as functions.
- `ObjectTree`: the in-memory object store of the test adapter, as a class:
  - set, delete and range view;
  - what reconciling one section of it leaves behind.
- `Adapter`: the `WorkTimeAdapter` class:
  - its configuration, its open sessions, its work log and its object tree;
  - methods proved against `Sessions` and `ObjectTree`;
  - the `runFullTest` run.
- `Aggregates`: the store of the aggregation adapter as a class, plus:
  - `aggregateForKey` and `updateAggregates`;
  - the period labels;
  - the `runAggregationTest` run.

The model follows the code. Three behaviours of the code are worth naming:

- There is no debounce of geofence changes. Every update acts at once.
- `closeSession` accepts an end before the start, giving negative hours.
  There is no error for it.
- The week bucket label is built from the calendar year, not from the ISO
  week-numbering year. `Aggregates.AggregationStore.UpdateAggregates` uses
  this label. The label with the week-numbering year is modelled beside it as
  the corrected version. See "## Findings".

## Model

| member | source | states |
|---|---|---|
| Text.NatToString | test_aggregates.js:76 | the numeral of a natural number is a non-empty digit string without a leading zero; it has one digit exactly for n < 10 |
| Text.NatToStringRoundTrip | test_aggregates.js:76 | reading the digits of `n.toString()` back gives `n` |
| Text.IntToString | test_aggregates.js:76-78 | `i.toString()` starts with a minus sign exactly when i is negative |
| Text.IntToStringRoundTrip | test_aggregates.js:76 | the text of every integer is a well-formed integer text that parses back to the integer |
| Text.IntToStringInjective | test_aggregates.js:76-78 | two integers have the same text exactly when they are equal |
| Text.PadRoundTrip | main.js:201-202 | a zero-padded field reads back as its number, has at least w characters, and exactly w when the number fits |
| Text.TrimStart | main.js:159 | what `trimStart` keeps is a suffix of the input |
| Text.TrimEnd | main.js:159 | what `trimEnd` keeps is a prefix of the input |
| Text.TrimIsCore | main.js:159 | `trim` returns a slice of the input; it drops only white space on both sides; its result neither starts nor ends with white space |
| Text.TrimClean | main.js:159 | a string without surrounding white space is its own trim |
| Text.TrimIdempotent | main.js:159 | trimming twice equals trimming once |
| Text.LexLeReflexive | test_full.js:21 | string `<=` is reflexive |
| Text.LexLeTransitive | test_full.js:21 | string `<=` is transitive |
| Text.LexLeTotal | test_full.js:21 | any two strings are comparable by `<=` |
| Text.LexLeAntisymmetric | test_full.js:21 | `a <= b` and `b <= a` imply a == b |
| Text.LexLeCommonPrefix | test_full.js:21 | a common prefix does not change the comparison |
| Text.LexLePrefix | test_full.js:21 | a string sorts no higher than every extension of it |
| Text.LexLeFirstDifference | test_full.js:21 | after a common prefix, the first differing character decides the comparison |
| Text.BetweenPrefixAndExtension | test_full.js:21 | a string between `p` and an extension of `p` starts with `p` |
| Text.SplitFirst | test_aggregates.js:72 | `s.split(c)[0]` is the prefix of `s` before the first `c`, without `c`; it is all of `s` when there is no `c` |
| Text.SplitFirstAt | test_aggregates.js:72 | splitting `a + c + b` at a `c` that `a` lacks gives `a` |
| Calendar.YearOf | test_aggregates.js:73 | `getFullYear`: the day lies between the first of January of the year and that of the next year |
| Calendar.YearOfUnique | test_aggregates.js:73 | every day lies in exactly one year |
| Calendar.JanFirstIncreasing | test_aggregates.js:73 | later years start on later days |
| Calendar.CivilFromDays | test_aggregates.js:73-74 | `getFullYear`, `getMonth() + 1` and `getDate` give a valid date whose day number is the day, in the year `YearOf` gives |
| Calendar.CivilRoundTrip | test_aggregates.js:73-74 | every valid date is the date of its own day number |
| Calendar.DaysSinceMonday | test_aggregates.js:91 | `(getDay() + 6) % 7` lies in 0..6, counted from Monday |
| Calendar.ThursdayOfIsThursday | test_aggregates.js:91 | the shifted date is the Thursday of the Monday-to-Sunday week of the day, at most three days away |
| Calendar.WeekOneOfYear | test_aggregates.js:92-93 | the first Thursday of a year lies in its first seven days, and its Monday starts the week that holds 4 January; `getISOWeek` takes it of the year `new Date(year, 0, 4)` lands in |
| Calendar.RoundWholeWeeks | test_aggregates.js:94 | the rounded quotient of `getISOWeek` is the exact number of whole weeks between the two Thursdays |
| Calendar.GetISOWeekCounts | test_aggregates.js:88-96 | for every day, `getISOWeek` - 1 is the number of weeks from the week-1 Monday of the year `new Date(year, 0, 4)` gives for the year of the week's Thursday, up to the day's Monday |
| Calendar.GetISOWeekIsIsoWeek | test_aggregates.js:88-96 | for week-numbering years outside 0..99, `getISOWeek` is in 1..53 and counts the weeks from week 1 of the ISO week-numbering year of the day |
| Calendar.GetISOWeekTwoDigitYears | test_aggregates.js:92 | for week-numbering years 0..99, `new Date(year, 0, 4)` lands in 1900 + year, and `getISOWeek` returns a number below -90000 |
| Calendar.SameWeekSameIsoWeek | test_aggregates.js:88-96 | days of one Monday-to-Sunday week have the same ISO week and week-numbering year |
| Calendar.IsoWeekDeterminesWeek | test_aggregates.js:88-96 | the week-numbering year and the week number identify the week |
| Calendar.IsoWeekOf | test_aggregates.js:88-96 | for y outside 0..99, a day whose week's Thursday falls in year y is in week 1 + (Monday - week-1 Monday) / 7 of y |
| Calendar.MondayIsoWeek | test_aggregates.js:88-96 | the same for a Monday, for y outside 0..99 |
| Calendar.ToIsoStringLayout | main.js:201-202 | for four-digit years, `toISOString` writes the zero-padded year, month, day, hours, minutes, seconds and milliseconds of the time value in `YYYY-MM-DDTHH:mm:ss.sssZ` |
| Calendar.ParsePadded | test_aggregates.js:71 | parsing such a text of a real date and time of day gives its time value |
| Calendar.IsoStringRoundTrip | test_aggregates.js:71 | `new Date(new Date(t).toISOString())` is `t` again for every four-digit year |
| Geofence.DigitRun | main.js:150 | `\d+` takes the longest run of digits |
| Geofence.MatchAtOccurs | main.js:150 | the pattern matches at a position exactly when prefix, digits and suffix occur there; the key is the prefix and the digits |
| Geofence.MatchFromLeftmost | main.js:150-152 | `match` finds the leftmost occurrence, or none exists |
| Geofence.DeviceKeyOfStateId | main.js:150-152 | the geofence state of device n yields the key `traccar.0.devices.<n>` |
| Geofence.DeviceKeyOfNone | main.js:150-151 | an id without an occurrence of the pattern yields no key |
| Geofence.CustomerKeyCases | main.js:162 | a trimmed value is the sentinel exactly when it is empty, `0`, or `null` in any case |
| ObjectTree.IdsElements | test_full.js:79 | the mapped ids are the ids of the rows |
| ObjectTree.Without | test_full.js:93 | `filter(id => id !== x)` keeps every other id and removes every `x` |
| ObjectTree.ObjectTree.constructor | test_full.js:5-9 | a store starts empty, in the given namespace, or in `ictb-time.0` when none or an empty one is given |
| ObjectTree.ObjectTree.SetObject | test_full.js:11-14 | `setObjectAsync` inserts or overwrites one id; nothing else changes |
| ObjectTree.ObjectTree.DelObject | test_full.js:28-31 | `delObjectAsync` removes one id; nothing else changes |
| ObjectTree.ObjectTree.GetObjectView | test_full.js:16-26 | the view lists exactly the stored ids with `startkey <= id <= endkey`, each once and with its stored object |
| ObjectTree.ScanStep | test_full.js:19-24 | visiting one more id keeps the invariant of the view loop |
| ObjectTree.InSectionStartsWith | test_full.js:73-76 | every id the section view can list starts with the section prefix |
| ObjectTree.KeyInSection | test_full.js:73-76 | `prefix + key` is in the section view when the key sorts no higher than `'香'` |
| ObjectTree.PlacedAt | test_full.js:82-94 | the ids written are exactly `<prefix><key>` for the configured keys, each holding its key's channel |
| ObjectTree.ReconciledKeys | test_full.js:71-100 | reconciling creates no id but the desired ones |
| ObjectTree.ReconciledSection | test_full.js:71-100 | after reconciling, every desired id holds its channel and the section view lists no other id |
| ObjectTree.ReconciledOutside | test_full.js:71-100 | ids outside the section view that are not desired keep their object, or stay absent |
| ObjectTree.ReconciledSectionExact | test_full.js:71-100 | when every desired id is in the section, the section view afterwards lists exactly the desired ids |
| ObjectTree.SettledFixpoint | test_full.js:71-100 | reconciling a settled tree changes nothing |
| ObjectTree.ReconciledIdempotent | test_full.js:71-100 | reconciling twice gives the tree of once |
| ObjectTree.ReconcileKeepsOtherSettled | test_full.js:71-127 | reconciling one section keeps another, apart section settled |
| ObjectTree.ReconcileBothIdempotent | test_full.js:71-127 | reconciling two apart sections twice gives the tree of once |
| Sessions.DurationHoursInverse | main.js:191-192 | the hours convert back to exactly the milliseconds between start and end |
| Sessions.DurationHoursAdditive | main.js:170-176 | the hours of back-to-back sessions add up: a switch at t loses no time |
| Sessions.LogEntryRecordsSession | main.js:194-205 | the entry's times read back as the session's start and end; the hours span that interval; the entry names the employee as first name, a space and last name; it keeps the work description; a configured customer gives its name, address and rate; an unknown customer gets its key as name, an empty address and rate 0 |
| Sessions.CloseSessionResult | main.js:186-197 | `closeSession` does nothing exactly when the device has no session, and fails exactly when it has one but no employee |
| Sessions.LogOf | main.js:196-219 | a transition writes one log entry when it closes a session, naming the employee, and none otherwise |
| Sessions.ClosedEntryIsLogged | main.js:186-222 | closing an open session of a known employee yields exactly the entry the transition logs |
| Sessions.DeviceStepQuiet | main.js:162-183 | a device step changes sessions or log exactly when its outcome is Opened, Switched or Closed, and then only the device's own entry |
| Sessions.QuietChangesNothing | main.js:147-159 | a missing state, an undefined value, a non-matching id, an unknown device or a null value leave the sessions unchanged and close nothing |
| Sessions.OtherDevicesUntouched | main.js:147-184 | an update touches only the session of the device it names |
| Sessions.DeviceTransitions | main.js:159-183 | the five transitions: Idle + key opens `{v, t, ""}`; Active + same key keeps; Active + other key closes at t and opens at t; Active + sentinel closes and removes; Idle + sentinel does nothing |
| Sessions.CustomerKeyLeavesOneSession | main.js:162-178 | after a customer key the device holds exactly one session, for that key, and no other key appears |
| Sessions.DeviceStepRepeat | main.js:162-183 | the same value again, at any time, is a no-op for the device |
| Sessions.RepeatIsNoOp | main.js:147-184 | any update repeated at any clock reading leaves the sessions as they are and closes nothing |
| Sessions.DeviceStepKeepsValid | main.js:162-183 | open sessions stay with known employees, customer keys and an empty description; a closed session was open and ends at t |
| Sessions.StateChangeKeepsValid | main.js:147-184 | every update keeps the sessions valid |
| Adapter.SectionsApart | main.js:87-123 | the `kunden` and `mitarbeiter` prefixes differ right after the namespace |
| Adapter.CustomerChannels | main.js:95-105 | one channel per configured customer key |
| Adapter.EmployeeChannels | main.js:129-138 | one channel per configured employee key |
| Adapter.PlacedInSection | main.js:86-89 | channels of keys that sort no higher than `'香'` lie in the section view |
| Adapter.UpdateIdempotent | main.js:84-145 | running both updates again without a configuration change gives the same tree |
| Adapter.UpdateSettled | main.js:84-145 | after both updates both sections hold their configured channels and nothing else in their views |
| Adapter.UpdateWritesChannels | main.js:84-145 | after both updates every configured key has its channel `<ns>.kunden.<k>` or `<ns>.mitarbeiter.<k>` |
| Adapter.UpdateSectionsExact | main.js:84-145 | with keys sorting no higher than `'香'`, each section view lists exactly the configured ids |
| Adapter.UpdateKeepsOthers | main.js:84-145 | ids outside both sections keep their object, or stay absent |
| Adapter.UpdateKeysExact | test_full.js:71-127 | a tree of section channels holds exactly the configured channels after both updates |
| Adapter.UpsertStep | main.js:95-108 | one round of the upsert loop writes one more channel and strikes its id from the stale list |
| Adapter.WorkTimeAdapter.constructor | test_full.js:5-9 | the adapter starts with its configuration, no sessions, an empty log and an empty tree in the given namespace, or in `ictb-time.0` when none is given |
| Adapter.WorkTimeAdapter.UpsertChannels | main.js:95-108 | the first loop writes every configured channel and leaves the listed ids minus the written ones |
| Adapter.WorkTimeAdapter.DeleteIds | main.js:110-112 | the second loop deletes exactly the listed ids |
| Adapter.WorkTimeAdapter.ReconcileSection | main.js:84-114 | view, upsert and delete leave the reconciled tree of the section |
| Adapter.WorkTimeAdapter.UpdateCustomerObjects | main.js:84-114 | `updateCustomerObjects` reconciles the `kunden` section with the configured customers |
| Adapter.WorkTimeAdapter.UpdateEmployeeObjects | main.js:120-145 | `updateEmployeeObjects` reconciles the `mitarbeiter` section with the configured employees |
| Adapter.WorkTimeAdapter.InstallDefaults | main.js:21-46 | empty customer or employee maps are replaced by the defaults |
| Adapter.WorkTimeAdapter.OnReady | main.js:19-59 | `onReady` installs the defaults, then leaves the tree both updates produce; sessions and log are unchanged |
| Adapter.WorkTimeAdapter.UpdateTree | main.js:49-50 | both updates in turn |
| Adapter.WorkTimeAdapter.ReplaceConfig | main.js:64-65 | `saveConfig` replaces both maps wholesale |
| Adapter.WorkTimeAdapter.SaveConfig | main.js:62-70 | `saveConfig` replaces both maps and updates the tree |
| Adapter.WorkTimeAdapter.OnMessage | main.js:61-78 | `saveConfig` replaces both maps, updates the tree and answers `ok`; `getConfig` answers with the current maps; anything else changes nothing and gets no answer |
| Adapter.WorkTimeAdapter.CloseSession | main.js:186-224 | `closeSession` appends the built entry and removes the session; it changes nothing when there is no session or no employee |
| Adapter.WorkTimeAdapter.SwitchSession | main.js:170-177 | a switch logs the old session as ending at the timestamp and opens the new one at the same timestamp |
| Adapter.WorkTimeAdapter.EndSession | main.js:179-182 | the sentinel logs the session as ending at the timestamp and removes only that device's entry |
| Adapter.WorkTimeAdapter.StepDevice | main.js:162-183 | the sessions, outcome and log after the employee lookup are those of the device step |
| Adapter.WorkTimeAdapter.OnStateChange | main.js:147-184 | `onStateChange` leaves the sessions, outcome and log of `StateChange`, and keeps the configuration |
| Adapter.FirstUpdateInSections | test_full.js:154-156 | the first update of the run, from an empty tree, leaves only section channels |
| Adapter.SingleKeysUpdate | test_full.js:175-176 | updating for one customer key and one employee key leaves exactly their two channels |
| Adapter.SavedTreeKeys | test_full.js:161-183 | saving New-Customer and `traccar.0.devices.3` leaves `ictb-time.0.kunden.New-Customer` and `ictb-time.0.mitarbeiter.traccar.0.devices.3` only |
| Adapter.RunFullTest | test_full.js:148-189 | the run ends with exactly the two new channels; `saveConfig` answers `ok` and `getConfig` returns the saved maps |
| Aggregates.Total | test_aggregates.js:52-53 | the previous total is the stored value when there is a state, and 0 otherwise |
| Aggregates.AddHoursEffect | test_aggregates.js:51-67 | `aggregateForKey` sets its key to previous total + hours with `ack: true`; every other id keeps its entry or stays absent |
| Aggregates.AddHoursNeverLowers | test_aggregates.js:51-67 | with hours >= 0 the bucket never decreases |
| Aggregates.AddToFourBuckets | test_aggregates.js:81-84 | four aggregations in turn are four `aggregateForKey` calls |
| Aggregates.AddToBucketsEffect | test_aggregates.js:81-84 | aggregating under distinct keys adds the hours to exactly those keys, acknowledged, and leaves every other id as it was |
| Aggregates.SliceLast | test_aggregates.js:77 | `slice(-n)` keeps the last n characters, or all of a shorter string; `slice(-0)` keeps all of the string |
| Aggregates.MonthPadded | test_aggregates.js:77 | `('0' + month).slice(-2)` is the month zero-padded to two digits |
| Aggregates.MonthTextInjective | test_aggregates.js:77 | the month label names its year and month |
| Aggregates.WeekTextInjective | test_aggregates.js:78 | `${year}-W${week}` names its year and week |
| Aggregates.DayLabelIsDate | test_aggregates.js:72 | the day label is the `YYYY-MM-DD` part of the ISO text |
| Aggregates.DateFieldsInjective | test_aggregates.js:72 | the `YYYY-MM-DD` text of a four-digit year names the date |
| Aggregates.DayLabelIdentifiesDay | test_aggregates.js:72 | two time values of four-digit years share a day label exactly when they fall on the same day |
| Aggregates.YearLabelIdentifiesYear | test_aggregates.js:73-76 | two days share a year label exactly when they share their calendar year |
| Aggregates.MonthLabelIdentifiesMonth | test_aggregates.js:73-77 | two days share a month label exactly when they share year and month |
| Aggregates.LabelsNest | test_aggregates.js:72-77 | for years 1000..9999 the day label has 10 characters, and the year and month labels are its first 4 and 7 |
| Aggregates.WeekLabelAsWrittenAgrees | test_aggregates.js:73-78 | the week label as written equals the ISO one exactly when the calendar year is the week-numbering year |
| Aggregates.WeekLabelAsWrittenCollides | test_aggregates.js:78 | as written, for y >= 100, when week 1 of year y starts on or after 1 January and week 1 of y + 1 starts in December of y, their Mondays share a label but are different weeks, and their ISO labels differ |
| Aggregates.WeekOneMondays2024 | test_aggregates.js:88-96 | 2024-01-01 (day 19723) and 2024-12-30 (day 20087) are the Mondays of week 1 of 2024 and of 2025 |
| Aggregates.WeekLabelIdentifiesWeek | test_aggregates.js:75-78 | with the week-numbering year, two days share a week label exactly when they share their Monday |
| Aggregates.BucketKeysDistinct | test_aggregates.js:81-84 | the four bucket ids are four different ids |
| Aggregates.WeekBucketOnlyWeek | test_aggregates.js:81-84 | the week bucket of one entry is among another entry's buckets exactly when their week labels agree |
| Aggregates.EntryBuckets | test_aggregates.js:71-84 | an entry has four distinct buckets exactly when its end time parses |
| Aggregates.AfterUpdateEffect | test_aggregates.js:70-85 | `updateAggregates` adds the hours to exactly the entry's four buckets, acknowledged, and touches no other id; this holds for the code's week label and for the week-numbering-year one |
| Aggregates.UpdateAsWrittenMergesWeeks | test_aggregates.js:70-85 | as written, entries ending on the week-1 Mondays of y and of y + 1 (the latter in December of y) are in different weeks but feed one week bucket, which ends with the sum of their hours |
| Aggregates.WeeksOf2024Merged | test_aggregates.js:70-85 | entries ending on Monday 2024-01-01 and Monday 2024-12-30 feed one week bucket, which ends with the sum of their hours |
| Aggregates.UpdateIntendedSeparatesWeeks | test_aggregates.js:70-85 | with the week-numbering year, entries of different weeks feed different week buckets, each ending with only its own entry's hours |
| Aggregates.AddToEmptyStore | test_aggregates.js:51-67 | aggregating distinct keys into an empty store creates exactly those keys, each holding the hours |
| Aggregates.FourBucketsOnEmpty | test_aggregates.js:81-84 | four distinct buckets on an empty store give a map of exactly those four to the hours |
| Aggregates.ScenarioEndTime | test_aggregates.js:111 | `2025-02-23T12:00:00.000Z` reads as time value 1740312000000 |
| Aggregates.ScenarioIsoWeek | test_aggregates.js:111 | 2025-02-23 lies in ISO week 8 of 2025 |
| Aggregates.ScenarioLabels | test_aggregates.js:71-78 | with the labels as the code builds them, that time value is filed under `2025-02-23`, `2025-W8`, `2025-02` and `2025` |
| Aggregates.ScenarioKeys | test_aggregates.js:81-84 | the four bucket ids of Max Mustermann for those labels |
| Aggregates.AggregationScenario | test_aggregates.js:100-121 | the 4-hour entry on an empty store leaves exactly the four buckets, each at 4 and acknowledged |
| Aggregates.AggregationStore.constructor | test_aggregates.js:5-8 | the store starts empty |
| Aggregates.AggregationStore.SetObjectNotExists | test_aggregates.js:10-15 | stores the object only when the id is absent; an existing entry is untouched |
| Aggregates.AggregationStore.SetState | test_aggregates.js:17-21 | replaces whatever the id holds by the state |
| Aggregates.AggregationStore.GetState | test_aggregates.js:23-25 | returns the id's state, or none |
| Aggregates.AggregationStore.AggregateForKey | test_aggregates.js:51-67 | the store afterwards is the store with previous total + hours under the key |
| Aggregates.AggregationStore.UpdateAggregates | test_aggregates.js:70-85 | succeeds exactly when the end time parses; the store afterwards is the four-bucket aggregation of the entry, with the week labelled by the calendar year as the code does |

## Left out

- `writeTimeToSheet` (main.js:231-256) is not modelled. It is an HTTP POST to an external service and nothing in the core calls it.
- Logging, `subscribeForeignStates`, `sendTo`, the event wiring and `toLocaleString` are not modelled. They are framework calls without logic. `sendTo`'s payload is modelled as the reply of `OnMessage`.
- The persistence of log entries is modelled as an append to the `workLog` sequence. The `workLog.<Date.now()>` state ids and the JSON text are left out, because they depend on the wall clock.
- `main.js` `updateAggregates` (main.js:226-229) only logs, so it is not modelled. The aggregation is modelled on the aggregation adapter of test_aggregates.js. `Adapter.WorkTimeAdapter.CloseSession` does not call it.
- Asynchrony is not modelled. Every `await` is taken to complete in program order, with no interleaving of handlers.
- The host's time zone is not modelled. `getFullYear`, `getMonth`, `getDay` and `setHours(0, 0, 0, 0)` are taken in UTC.
- Hours and rates are `real`, not IEEE doubles. Rounding of `durationMs / 3600000` and `parseFloat` of a number are not modelled.
- Calendar.ParseIso: `new Date(text)` is modelled only for the `toISOString` layout with a four-digit year. Every other text is treated as an invalid date.
- The limits of the JavaScript `Date` range (±8.64e15 ms) are not modelled.
- Calendar.IsoStringRoundTrip: stated for four-digit years only. Outside 0..9999, `toISOString` writes a sign and six digits, and `new Date` of that is not modelled.
- Aggregates.DayLabelIdentifiesDay: stated for four-digit years only, for the same reason.
- Calendar.GetISOWeekIsIsoWeek, Calendar.IsoWeekOf and Calendar.MondayIsoWeek: stated for week-numbering years outside 0..99. For those years `new Date(year, 0, 4)` lands in 1900 + year, so the week number is not an ISO week number. Calendar.GetISOWeekTwoDigitYears states what the code returns there.
- Aggregates.WeekLabelAsWrittenCollides and Aggregates.UpdateAsWrittenMergesWeeks: stated for years from 100 on, for the same reason.
- Sessions.LogEntryRecordsSession: the read-back of the two times is stated for four-digit years only, for the same reason.
- Text.LowerAscii lower-cases ASCII letters only. For the comparison with `null` this is exact: no other code point lower-cases to `n`, `u` or `l`.
- Calendar.ParseIso treats the hour `24` and out-of-range days as invalid dates. Engines that roll these over are not modelled.
- Text.LexLe compares characters as code points. JavaScript compares UTF-16 code units, which differs above U+FFFF.
- Adapter.UpdateSectionsExact: keys that sort above `'香'` are never listed by the section view, so they are never deleted. The exact statement therefore needs `KeysInSection`.
- Adapter.WorkTimeAdapter.OnReady: the `|| {}` for an undefined configuration map is not modelled. The maps are always present.
- Adapter.WorkTimeAdapter.OnMessage: a message whose `data` is missing is modelled as changing nothing and answering nothing. The code throws there before any assignment. A `saveConfig` whose `data` lacks `customers` or `employees` is not modelled either. The code stores `undefined` there (main.js:64-65). The tree is then rebuilt as if that map were empty, `getConfig` answers `undefined`, and every later geofence event that reaches the employee lookup throws at main.js:154. The model's configuration always holds two maps.
- Object keys inherited from `Object.prototype` (`constructor`, `__proto__`, ...) are not modelled. Configuration maps and stores are plain maps.
- The order of keys in `for ... in` and of rows in the view is not modelled. Sets and maps stand for them, and the final state does not depend on the order.
- The `common`, `type` and `role` metadata of objects is not modelled. Channels keep their `common.name` and `native` record. `Aggregates.AggregationStore.SetObjectNotExists` stores a name-only marker, which `setStateAsync` overwrites at once.
- Sessions.BuildLogEntry keeps `hourlyRate` as a number. A configured customer without a rate is not modelled.
- `getObjectViewAsync` and `delObjectAsync` of test_aggregates.js (lines 27-42) are not modelled separately. They are the same as the ones of test_full.js and the aggregation never calls them.
- `getStateAsync` and `setStateAsync` of test_full.js (lines 33-41) are not modelled. Nothing in that run calls them.
- Bucket ids of two employees coincide when their names contain `_` or `.` in matching places. The model keeps the code's ids and proves only that one entry's four buckets are distinct.
- The test files test.js, test_admin.js and test_admin_full.js, and admin/index_m.js are not part of this model. They repeat the store and reconciliation code, or they are user interface.

## Findings

| source | as written | input that shows it | evidently intended | confidence | as-written member | corrected member |
|---|---|---|---|---|---|---|
| test_aggregates.js:73-78 | the week bucket is labelled `${year}-W${week}`, with `year` the calendar year of the end date and `week` the ISO week number | Monday 2024-01-01 (day 19723, ISO week 1 of 2024) and Monday 2024-12-30 (day 20087, ISO week 1 of 2025) both get `2024-W1`, so the hours of two weeks a year apart add up in one bucket `aggregates.<first>_<last>.week.2024-W1` | the ISO week-numbering year that the week number belongs to, which gives `2024-W1` and `2025-W1` | not executed | Aggregates.WeeksOf2024Merged | Aggregates.UpdateIntendedSeparatesWeeks |
