# Verified model of the home automation backend

This project models five parts of the backend in Dafny and proves what they are
for. Each module is one part of the program; the classes and methods follow the
source's fields, loops and error paths and are proved against functions on
values, and the lemmas are about those functions.

- **Spotify remote.** `History`, `HistoryLaws` and `SpotifyClient` are the
  listening history: merging, sorting, capping, and the batches that feed it.
  `RemoteModel` says what each operation of the remote computes on its shared
  state; `Remote` is the object with its lock, retries and buttons; `RemoteLaws`,
  `Cycling` and `Verifiers` hold the properties of its commands, of cycling
  through channels and of the background verifiers. Spotify's answers, the clock
  and what other goroutines do while the lock is free are arbitrary inputs (the
  `World` of a command). Commands are serial, as `backend/hub/hub.go:66-75`
  delivers them. A ghost flag records whether the running goroutine holds the
  lock, and every method that takes the lock requires that it does not.
- **Electricity prices.** `Nordpool` lists and chooses windows of hours;
  `HeatPump` cuts the dearest hours and times the water tank. Prices are reals.
- **mDNS names.** `Dns` is the decoder down to bytes; `DnsLaws` proves it against
  a writer of `\DDD` escapes (section 5.1 of RFC 1035) over UTF-8 (section 3 of
  RFC 3629).
- **Floor heating.** `HeatingCurve`, `CoverControl` and `Valves`.
- **Durable work.** `Migrations` applies versioned migrations that may be
  interrupted; `RetryQueues` and `Senders` are the coupled text message and email
  queues, as steps that interleave and as the polling loops.

`Sorting` and `Spacing` are shared: a stable sort and an ordered permutation, and
points in time that keep their distance. `sort.Slice` and `sort.Float64s` are
methods that promise an ordered permutation and no more, so nothing proved of
their callers depends on the order of ties.

Where the code departs from what one would expect, the model follows the code:

- Threshold search with windows of fewer than two hours never completes a block
  and returns nothing (`FindCheapestElectricityHoursByIncLevel` states exactly
  when the result is empty).
- A writer that follows section 5.1 of RFC 1035 may write a byte raw, as `\DDD`, or,
  if it is no digit, behind a backslash. Decoding gives the written text back exactly
  when every byte was raw, or nothing was quoted and every byte above ASCII was
  escaped (`RoundTrip`). Where the RFC drops a backslash before a character that is
  no digit, the decoder keeps it, unless the character is a sign with two digits
  behind it: `strconv.Atoi` accepts `+12` and `-05`, so these are read as one byte
  (`BackslashIsKept`, `SignedNumbersAreBytes`). No text with a quoted byte reads back
  (`QuotedDoesNotReadBack`).
- At or below the coldest row the heating curve has no lower row and the source
  dereferences nil; `LookUp` reports that as `BelowTable`, exactly there.
- Interrupted migrations are completed correctly exactly when no two pending
  migrations share a version (`CrashSafeIffDistinct`).
- The water tank's remembered stop time is its start time; `Brain` proves that
  this is enough for home assistant to show the right hours.
- A comment at `backend/floorheating/floorheating.go:495` has the hall heated until the
  end of May; the code lets it be off from May to September, and so does `OffTime`
  (`HallTurnsOff`).
- If the time of a cover movement cannot be recorded, the once-a-minute limit is
  lost (`UnrecordedIsUnlimited`): it holds in all runs exactly when every movement
  but the last is recorded (`LimitHoldsIffRecorded`).
- In January, too, the hall is turned off if home assistant does not show its valve:
  the source passes the thermostat's wish on before it looks at the month. The winter
  rule is kept exactly when the valve is shown or nothing asks for off
  (`HallStaysOnInWinter`, `HallOffInJanuaryAndMay`).
- A valve that home assistant does not show is commanded again in every pass
  (`SecondPassOnlyRepeatsUnshown`).

## Model

| member | source | states |
|---|---|---|
| Sorting.StableSortSorts | backend/sound/spotify.go:660-662 | the stable sort of the history is an ordered permutation |
| Sorting.StableSortKeepsTies | backend/sound/spotify.go:660-662 | entries with equal times keep their order |
| History.SeenMeans | backend/sound/spotify.go:638-655 | whatever the order and repetitions in a batch, an entry ends with the latest time, the last non-empty hint and the first known type |
| History.ChangedMeans | backend/sound/spotify.go:632-659 | a merge reports a change exactly if some context of the batch made one |
| HistoryLaws.MergedIsCappedSort | backend/sound/spotify.go:657-665 | leaving out the sort and the cap when nothing changed makes no difference |
| HistoryLaws.MergeKeepsInvariant | backend/sound/spotify.go:627-668 | a merge keeps uris distinct and non-empty, newest first, at most 200; kept entries are up to date; an entry is dropped only from a full history in which nothing is older |
| HistoryLaws.MergeIsIdempotent | backend/sound/spotify.go:630-668 | merging the same batch again changes nothing, also when the cap dropped some of it |
| HistoryLaws.CappingAsYouGoLosesNothing | backend/sound/spotify.go:630-668 | merging and capping batch by batch gives the same times as merging everything, sorting once and capping once, and the same uris unless the cut runs through a tie |
| SpotifyClient.RecentlyPlayedContexts | backend/spotify/spotify.go:425-456 | the contexts of the tracks, each once, with the name and time of the first track played from it |
| SpotifyClient.FirstSeenSameTimes | backend/spotify/spotify.go:443-455 | keeping first mentions of a newest-first list loses no latest play |
| SpotifyClient.PolledHistoryLosesNothing | backend/sound/spotify.go:671-684 | over all polls the history is the 200 most recent of everything ever reported |
| SpotifyClient.ReportedTracksLoseNothing | backend/spotify/spotify.go:443-454 | the same for reports of tracks, newest first: their deduplicated contexts, merged poll by poll, keep the 200 most recent of all plays |
| Remote.SpotifyRemote.MergeHistory | backend/sound/spotify.go:630-668 | the loop leaves the merged history, and reports a change exactly when some turn made one; takes and frees the lock |
| Remote.SpotifyRemote.RefreshChannels | backend/sound/spotify.go:541-577 | re-takes a list that is empty or stale with the lock let go of meanwhile, and aligns the cursor; fails exactly when no channel is left |
| Remote.SpotifyRemote.PlayChannel | backend/sound/spotify.go:509-523 | cursor, current uri, time and verifier change together, and only if the play was accepted |
| Remote.SpotifyRemote.SetCurrent | backend/sound/spotify.go:525-530 | the current uri with the cursor on its first occurrence |
| Remote.SpotifyRemote.ChooseOnce | backend/sound/spotify.go:377-416 | one run of the selection: the first channel if none is selected, else the nearest playable one in the direction, skipping others, ended by a 404 |
| Remote.SpotifyRemote.BeginOnce | backend/sound/spotify.go:307-357 | one run of start: morning playlist, else resume, else the first channel, with a 404 handed up |
| Remote.SpotifyRemote.TryDevice | backend/sound/spotify.go:237-266 | one attempt of the device retry |
| Remote.SpotifyRemote.WithDevice | backend/sound/spotify.go:229-268 | the retry loop does exactly what Retry says: state, answer and every lookup, wait and call in order |
| Remote.SpotifyRemote.Toggle | backend/sound/spotify.go:283-302 | pauses what plays here, else starts, and hands on the answer; keeps the shared state valid |
| Remote.SpotifyRemote.Select | backend/sound/spotify.go:359-418 | on success the cursor is on the returned channel, which is current, and one verifier was started under this command's number; a failure is handed on |
| Remote.SpotifyRemote.Skip | backend/sound/spotify.go:420-450 | handled only when playing here; a skip is issued exactly when its time is recorded, after 1200 ms, and its answer is handed on |
| Remote.SkipsAreSpaced | backend/sound/spotify.go:432-437 | recorded skips are 1200 ms apart for any readings of the clock |
| Remote.SkipsInASpan | backend/sound/spotify.go:432-437 | a span of recorded time holds at most one skip per 1200 ms and one more |
| RemoteLaws.RefreshTakes | backend/sound/spotify.go:541-577 | the list is the history with the poll merged exactly if it was empty or, like the last selection, over ten minutes old; what plays here and is not in it goes in front |
| RemoteLaws.RefreshAligns | backend/sound/spotify.go:541-577 | whatever other goroutines do during the unlock, afterwards the cursor agrees with the current uri or there is no channel; a non-empty list stays non-empty |
| RemoteLaws.SetCurrentObeys | backend/sound/spotify.go:525-530 | keeps the invariant of the shared state; the cursor is missing exactly when the uri is not listed |
| RemoteLaws.PollObeys | backend/sound/spotify.go:671-684 | a background poll keeps the invariant and never empties the history |
| RemoteLaws.CommandKeeps | backend/sound/spotify.go:232-418 | every command keeps the invariant, empties no list, and starts at most one verifier, under its own number |
| RemoteLaws.SelectionKeeps | backend/sound/spotify.go:363-418 | a successful selection leaves the cursor on the channel that plays |
| RemoteLaws.StartPlays | backend/sound/spotify.go:304-357 | start plays the morning playlist if it is tried and accepted, else resumes, else plays the first channel; the verifier carries that uri |
| RemoteLaws.StartAnswers | backend/sound/spotify.go:304-357 | how each run of start ends: a 404 of the morning playlist or the resume is handed up, any other failure falls through |
| RemoteLaws.DeviceRetrySound | backend/sound/spotify.go:229-268 | success exactly when the last call succeeded; at most four lookups, at most four calls and waits together; only a 404 is followed by anything; after it the device is looked up anew |
| RemoteLaws.DeviceRetryCompletes | backend/sound/spotify.go:229-268 | in every world a command reports a missing device only if the fourth lookup missed it, and a 404 only from the fourth attempt; any other answer of a call or failed lookup ends it at once |
| RemoteLaws.ReceiverIsWaitedFor | backend/sound/spotify.go:240-257 | a receiver that is there at the j-th lookup is called then, after j waits, and a cached one at once; unless that is a 404 its answer is the command's |
| RemoteLaws.DeviceIsRemembered | backend/sound/spotify.go:250-265 | the cached device is the one called last, or none if it was gone or missing |
| Cycling.FirstSelectionIsTheTop | backend/sound/spotify.go:383-391 | with nothing selected either button selects the first channel of the list, through any retries, and fails if that one cannot be played |
| Cycling.PressMoves | backend/sound/spotify.go:229-268 | however often the device is gone or waited for: a press that succeeds moves to the nearest playable channel and keeps the list, one that fails leaves the selection as it is |
| Cycling.PressWithoutAnother | backend/sound/spotify.go:397-415 | with no other playable channel a press fails and leaves the selection as it is |
| Cycling.OtherButtonUndoes | backend/sound/spotify.go:397-415 | from a playable channel a successful press moves to another one and the other button moves back |
| Cycling.NextStop | backend/sound/spotify.go:397-415 | back from one playable channel leads to the next in the list, around the end |
| Cycling.BackPressesFollowStops | backend/sound/spotify.go:397-415 | back presses of which m succeed lead through the next m playable channels, modulo their number |
| Cycling.BackPressesVisitAll | backend/sound/spotify.go:397-415 | as many successful back presses as playable channels visit each exactly once and end at the start |
| Cycling.ListOnlyGrowsInFront | backend/sound/spotify.go:550-575 | over any series of commands within ten minutes of a selection the list is never reordered or shortened |
| Cycling.RetakenListStays | backend/sound/spotify.go:550-562 | a re-taken list is the history with at most the playing context in front, and stays for ten minutes |
| Cycling.SelectedListStays | backend/sound/spotify.go:516-518 | a list is not re-taken within ten minutes of a selection from it |
| Cycling.PlayingElsewhereIsFollowed | backend/sound/spotify.go:541-549 | the cursor moves to what plays on our device, also when it was selected elsewhere and is not in the history |
| Cycling.PressAfterGone | backend/sound/spotify.go:254-266 | from every state a press can succeed although the device was gone at first, under the assumptions of the cycling theorems |
| Verifiers.InvHolds | backend/sound/spotify.go:471-507 | every interleaving of commands and verifiers keeps captured numbers increasing and rounds and plays bounded |
| Verifiers.AtMostOneLive | backend/sound/spotify.go:471-507 | at most one verifier holds the current number; each makes at most 4 rounds and 16 plays |
| Verifiers.SupersededStops | backend/sound/spotify.go:471-507 | a superseded verifier stays so and begins no round beyond the one in flight |
| Verifiers.StepDecides | backend/sound/spotify.go:474-505 | a verifier wakes only if not superseded, begins a round exactly if nothing plays, and goes on after each round but the fourth |
| Verifiers.VerifierTriesFourTimes | backend/sound/spotify.go:474-505 | while its command is the latest and nothing plays a verifier makes four rounds; told that all is well it stops |
| Verifiers.VerifierTerminates | backend/sound/spotify.go:479-505 | in any run at most thirty steps change a verifier, and until it is finished its next step does |
| Verifiers.RoundIsRetry | backend/sound/spotify.go:493-500 | the retry of a verifier calls Play at most four times, and a round of steps holds all its attempts and counts all its plays |
| Verifiers.NoTwoVerifiersShareANumber | backend/sound/spotify.go:468-478 | over any series of commands no two verifiers capture the same number |
| Nordpool.OrderHoursAscending | backend/nordpool/cheapest-price.go:115-120 | the prices in ascending order |
| Nordpool.BlocksWithin | backend/nordpool/cheapest-price.go:53-79 | one pass finds the greedy blocks within a limit, and none for fewer than two hours |
| Nordpool.GreedyIsMost | backend/nordpool/cheapest-price.go:53-79 | no set of disjoint blocks within the limit outnumbers the greedy ones |
| Nordpool.ThresholdIsMinimax | backend/nordpool/cheapest-price.go:49-85 | the first threshold that lets a block through is the smallest possible highest price of such a block |
| Nordpool.FindCheapestElectricityHoursByIncLevel | backend/nordpool/cheapest-price.go:49-85 | a result exactly for 2 <= n <= hours, and then all blocks carry the minimax limit, are in order, disjoint, within it, and as many as possible |
| Nordpool.CalcTotal | backend/nordpool/cheapest-price.go:87-93 | the sum of the prices |
| Nordpool.TotalAdds | backend/nordpool/cheapest-price.go:87-93 | totals of adjoining hours add up, and one hour's total is its price |
| Nordpool.FindCheapestElectricityHours | backend/nordpool/cheapest-price.go:18-47 | a permutation of all windows of n hours in the range, by total; none for n < 1 or too short a range |
| Nordpool.ListIsCompleteAndOrdered | backend/nordpool/cheapest-price.go:18-47 | each window is listed exactly once with its own total and average, averages rise with totals, and the head is the cheapest |
| HeatPump.FourthHighestIsUnique | backend/brain/heatpump.go:418-421 | the limit taken from the sorted day is the one price with at most three above and at least four not below |
| HeatPump.HeatingOff | backend/brain/heatpump.go:418-438 | heating is off exactly when cuts count and the price is above the hard limit or among the at most three dearest |
| HeatPump.AtMostThreeHoursCut | backend/brain/heatpump.go:418-438 | with no price above the hard limit at most three hours of a day are cut; every hour above it is cut; an hour dearer than a cut hour is cut |
| HeatPump.Brain.Send | backend/brain/heatpump.go:273-295 | what is remembered is what home assistant shows, whatever calls fail; it fails exactly if a needed call does |
| HeatPump.Brain.SetHeatPumpWaterTankStartStopTime | backend/brain/heatpump.go:209-298 | on success home assistant shows the start of a cheapest three-hour window and a stop three hours later |
| Dns.Decode | backend/chromecast/dns.go:182-220 | the loop gives what reading the escapes and then the runes gives, for every string of bytes |
| Dns.DecodeRunes | backend/chromecast/dns.go:192-201 | drains the pending bytes into runes |
| DnsLaws.EncodedScalarDecodes | backend/chromecast/dns.go:192-201 | a scalar value's UTF-8 bytes decode to it, whatever follows |
| DnsLaws.DecodesWhatIsEncoded | backend/chromecast/dns.go:192-201 | a rune is read exactly where the UTF-8 bytes of a scalar value stand; any other byte is U+FFFD |
| DnsLaws.RoundTrip | backend/chromecast/dns.go:182-220 | for every text and every way to write its bytes (raw, as \DDD, or quoted, with no raw backslash and no quoted digit): the text comes back exactly when every byte is raw, or none is quoted and every non-ASCII byte is escaped |
| DnsLaws.EscapedTextRoundTrips | backend/chromecast/dns.go:179-220 | escaping the non-ASCII bytes and backslashes always round-trips |
| DnsLaws.BackslashIsKept | backend/chromecast/dns.go:203-217 | before any rest and with any bytes pending: a backslash is dropped, with three bytes, exactly when they are digits or a sign and two digits; else it is kept |
| DnsLaws.QuotedDoesNotReadBack | backend/chromecast/dns.go:203-217 | no string of bytes written with a quoted byte reads back |
| DnsLaws.SignedNumbersAreBytes | backend/chromecast/dns.go:204-211 | a quoted sign and two digits are read as one byte |
| HeatingCurve.LookUp | backend/floorheating/floorheating.go:250-319 | errors exactly for an empty table and at or below its coldest row; else rounds the point on the straight line between the bracketing rows, or the warmest row's target |
| HeatingCurve.RoundIsNearest | backend/floorheating/floorheating.go:288 | rounding is to the nearest integer, halves away from zero |
| HeatingCurve.RoundedTargetIsBracketed | backend/floorheating/floorheating.go:260-290 | the target lies between those of the bracketing rows, is a row's own at that row, and the warmest row's beyond the table |
| HeatingCurve.CurveFalls | backend/floorheating/floorheating.go:258-319 | with distinct rows whose targets do not rise, the target never rises with the outside temperature |
| HeatingCurve.UpdateFloorHeatingTargetTemp | backend/floorheating/floorheating.go:219-307 | sends the rounded curve value plus offset exactly when it differs from the set one; each failure exactly when its cause holds |
| CoverControl.Controller.SetFloorHeatingCoverPosition | backend/floorheating/floorheating.go:321-429 | decides as Decide does and records the time of a movement if it can |
| CoverControl.CommandIsSafe | backend/floorheating/floorheating.go:375-410 | commanded positions are in [0, 1], 0.03 to 0.05 away, opening only below and closing only above the dead band |
| CoverControl.CommandIsGiven | backend/floorheating/floorheating.go:331-413 | the exact conditions under which the cover is moved, and where to, and under which the call fails |
| CoverControl.TravelIsLimited | backend/floorheating/floorheating.go:363-428 | in any run with all times but the last recorded a span holds at most one movement a minute and one more, which bounds the travel |
| CoverControl.SecondMovesIffUnrecorded | backend/floorheating/floorheating.go:363-419 | of two calls within a minute that want to move, the second moves exactly when the first was not recorded |
| CoverControl.LimitHoldsIffRecorded | backend/floorheating/floorheating.go:363-419 | for given outcomes of recording, all runs with a forward clock keep a minute between movements exactly when every outcome but the last is recorded |
| CoverControl.UnrecordedIsUnlimited | backend/floorheating/floorheating.go:415-419 | a pair of calls at one time that both move the cover |
| Valves.FloorHeating.TurnFloorHeatingValves | backend/floorheating/floorheating.go:478-535 | publishes and returns exactly the updates that the valves need |
| Valves.FloorHeating.CheckFloorHeatingValves | backend/floorheating/floorheating.go:431-476 | publishes exactly the updates of one pass over the thermostats |
| Valves.ResolvedAreOwned | backend/floorheating/floorheating.go:570-598 | every valve belongs to exactly one thermostat name |
| Valves.TopicsAreDistinct | backend/floorheating/floorheating.go:102-122 | no two valves share a command topic |
| Valves.DeadBandSeparates | backend/floorheating/floorheating.go:452-458 | a thermostat turns off above 0.3 over its target and on below 0.1 over it, and cannot flip within 0.2 degrees |
| Valves.HallTurnsOff | backend/floorheating/floorheating.go:484-510 | a pass turns the hall off exactly when its thermostat asks for off and its valve is not shown, or it is summer and the valve is not shown off |
| Valves.HallStaysOnInWinter | backend/floorheating/floorheating.go:492-504 | from October to April the hall is never turned off exactly when its valve is shown or nothing asks for off |
| Valves.HallOffInJanuaryAndMay | backend/floorheating/floorheating.go:486-504 | a hall valve that is not shown is turned off in January, a shown one in May |
| Valves.PassListsEachValveOnce | backend/floorheating/floorheating.go:431-535 | one pass commands each valve at most once |
| Valves.PassSends | backend/floorheating/floorheating.go:444-527 | a pass sends a valve a value exactly if its thermostat asks for something that, with what is shown and the month, sends it |
| Valves.SecondPassOnlyRepeatsUnshown | backend/floorheating/floorheating.go:431-535 | once shown valves followed the commands, a second pass repeats exactly those for valves that are not shown, and is empty if and only if there were none |
| Migrations.Store.ApplyMigrations | backend/sqlite/migrations.go:22-60 | commits the pending migrations in order up to the first that fails, which stops the run, and reports success exactly when every pending one commits |
| Migrations.VersionTellsWhatIsApplied | backend/sqlite/migrations.go:35-59 | after any series of interrupted runs the version says exactly which pending migrations are applied, each once, ascending |
| Migrations.CrashSafeIffDistinct | backend/sqlite/migrations.go:35-59 | restarting gives the uninterrupted database exactly when no two pending migrations share a version |
| Migrations.SharedVersionIsLost | backend/sqlite/migrations.go:35-38 | stopping between two migrations of one version loses the second |
| Migrations.SecondRunIsIdle | backend/sqlite/migrations.go:35-38 | a run after a complete one changes nothing |
| RetryQueues.StepKeeps | backend/sms/sms.go:181-225 | every step keeps the invariant; every attempt lowers the weighted sum of remaining tries and only a new message raises it |
| RetryQueues.QueuesDrain | backend/mailer/mailer.go:123-197 | k messages cause at most 11k posts and 44k emails under every interleaving and failure |
| RetryQueues.EveryAttemptIsRecorded | backend/sms/sms.go:192-222 | every attempt is in the tables as a failure or as the success that closed its row, except the one in flight |
| RetryQueues.TablesTellOutcomes | backend/sms/sms.go:181-225 | over every run a row is closed exactly if its last settled attempt succeeded, its retries are its failures, and it is selected again exactly if none succeeded and at most ten (three) failed |
| RetryQueues.OnlyOpenRowsAreTried | backend/sms/sms.go:165-179 | only rows that are open and within their tries are attempted |
| RetryQueues.ClosedIsNeverTriedAgain | backend/mailer/mailer.go:123-137 | a finished message or sent email is never attempted again |
| Senders.Database.Select | backend/sms/sms.go:174-177 | all open rows within their tries, each once |
| Senders.Database.StoreSMS | backend/sms/sms.go:227-246 | a new message is one step of the queues |
| Senders.Database.TriggerSMS | backend/sms/sms.go:181-225 | a sent message is finished; a failed one counts a retry and leaves one warning email if that can be stored; as the steps say |
| Senders.Database.TriggerUnfinishedSMS | backend/sms/sms.go:151-163 | a pass tries each open message within its tries once, and no other; a run of steps |
| Senders.Database.SendEmail | backend/mailer/mailer.go:139-197 | a sent email is closed, a failed one counts a retry, without a provider nothing happens; as the steps say |
| Senders.Database.SendUnsentEmails | backend/mailer/mailer.go:109-121 | a pass tries each open email within its tries once, and no other; a run of steps |

## Left out

- HTTP, MQTT, Spotify, snapcast, ESPHome and home assistant clients: their answers are inputs.
- SQL and JSON encoding: tables are sequences, and a history loaded from disk is assumed to be one that was saved.
- Sleeping, the length of delays and floating-point rounding: times are integer milliseconds, temperatures, positions and prices are reals.
- `Stop`, `Channels`, the output preparation and logging of the remote: single calls without effect on the shared state beyond the command number.
- The morning window and the lookup of the morning playlist by name: one optional uri per attempt.
- Two commands at once: the hub delivers messages one at a time.
- `SetHeatPumpWaterHeating`, `SetHeatPumpTemperature` and the winter mode branch of `SetHeatPumpHeating`: case analysis without state.
- `FindMinMax`, day statistics of the cover, email templates and the other automations: easy members.
- Prices of a day with fewer than four hours: the source takes a slice that does not exist.
- Crashes between a post and its update, and failing updates in the retry queues: the bounds need the updates to succeed.
- HeatPump.HomeAssistant: a call that fails is taken to have changed nothing.
