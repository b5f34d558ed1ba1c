# go-RFLink: a verified model of the gateway's state machines

go-RFLink bridges an RFLink radio gateway on a serial port to MQTT and HTTP. Under the plumbing
sit small, time-driven state machines and text grammars. This Dafny project models them and
proves what they keep over whole runs. `dafny verify dfyconfig.toml` checks everything.

| file | what it models |
|---|---|
| `PingWatchdog.dfy` | the PING/PONG watchdog as an interleaving of the ping loop and the publish loop |
| `TokenBucket.dfy` | the command token bucket, shared by commands and status reads |
| `LoginLimiter.dfy` | the per-IP sliding window and lockout for GUI logins |
| `SessionStore.dfy` | the bounded session store with eviction, lazy expiry and reaper |
| `SensorData.dfy`, `Debounce.dfy` | the sensor line parser, the debounce key and the pruned debounce cache |
| `PendingBuffer.dfy`, `Publisher.dfy` | the latest-reading buffer, publishing and replay |
| `Replay.dfy` | the life of a reading while the broker refuses: messages and lock sections of publish loop and flushes interleaved |
| `Gateway.dfy`, `PongPath.dfy` | the gateway replies, and the way of a PONG line through the debouncer to the watchdog |
| `SampleLines.dfy` | a family of lines that the parser accepts |
| `Options.dfy` | colon maps, ignore list, canonical HWIDs and friendly names |
| `Commands.dfy`, `CommandBridge.dfy` | the command grammar, the actuator lists and the path of concurrent commands |
| `RuntimeOverlay.dfy` | the runtime file: patch, rotate, persist, apply, restore and hot reload |
| `Text.dfy`, `Wrappers.dfy` | the string operations used, Option and Result |

The shape is the same throughout. A class holds the fields that the source updates in place, and
each method is proved against a step function on values. A run is a list of events (lock
sections, calls, arrivals) with their clock readings; `Exec` or a run predicate gives the state
after it, and the theorems quantify over every legal run. Map iteration is an arbitrary choice;
the broker, the serial port, the file system, the clock and the random source are parameters.

## Where the code and its description differ

The model follows the code. Each entry names the theorem with the exact law and, where there is one, the
lemma with a run that shows the difference.

- A PONG handled between the serial write and `MarkPingSent` is not credited to that ping
  (`EarlyPongIsNotCredited`); a PONG is credited exactly when a marked ping is unresolved
  (`PongCreditedIff`).
- All answers to a PING share one debounce key. An answer is credited exactly if no answer was let
  through less than a window before and a marked ping is unresolved (`AnswerIsCreditedIff`); else its
  ping times out (`DroppedAnswerTimesOut`).
- HTTP.md:97 announces 5 failed logins in 5 minutes. With k attempts of one IP in flight the code
  records up to 4 + k (`FailureBound`), and for every k >= 1 some run does
  (`LoginLimiter.BoundIsReached`).
- The rate limit bounds tokens, not lines. Calls from MQTT, HTTP and webhooks overlap, and a write
  holds no lock of the bucket: with k commands between grant and write, a window of writes of
  length T sees up to limit + limit * T + k lines (`WriteWindow`), and for every limit and k some
  run puts out limit + k lines at one moment (`CommandBridge.BoundIsReached`).
- The reaper shows in the answer of Revoke exactly for a stored expired session, and in the counts
  of RevokeAllExcept and Count by exactly the expired sessions (`ReapingShows`,
  `RevokeSeesTheReaper`), though in no answer of Get or List (`ReaperIsUnobservable`).
- README.md:33 calls the pending buffer a buffer of the latest state. It holds, under a key, an older
  reading than the latest one exactly if the last section to touch the key ended a refused replay
  whose reading was older than the latest reception of its key (`BufferIsStaleIff`), whether the
  newer one had been refused or published. A message puts an older record on a topic exactly if it
  belongs to a replayed reading received before the record last shown there (`OlderMessageIff`). A
  replay that ends makes the buffer forget a newer reading exactly if that is there under its key
  (`ReplayForgetsNewerIff`). `OlderReplayWins` has the runs.
- README.md:315 gives the buffer a TTL. It counts from the latest store: a reading that was put
  back n times is taken up to (n + 1) * TTL after its reception, not counting its time outside the
  buffer, and apart from that time later than TTL only if it was put back
  (`TakenLateOnlyAfterPutBack`); for every n some run reaches the bound
  (`RefusedReplaysOutliveTTL`).
- rflink/runtime_config.go:198 keeps an explicit empty token list as owned by the runtime layer,
  but the file omits it, so a reload of the manager's own save changes nothing exactly when no list
  is present but empty (`ReloadAfterSave`).
- rflink/runtime_config.go:126 reads the file outside the mutex under which line 151 applies it.
  Saves in between are undone in memory: the overlay becomes what was read, and loses exactly the
  keys that it had or they reported and that were not read (`SavesDuringReloadAreUndone`,
  `OnlyReportedKeysAreLost`); the next save drops them from the file unless a reload comes first
  (`NextSaveDropsThem`, `NextReloadHeals`, `SavedButtonsAreLost`).
- rflink/runtime_config.go:167 starts from the environment on every apply. The HA keys do not:
  they remember the last overlay that had them (`HAKeysRememberTheLastOverlay`,
  `RestoreDoesNotReleaseButtons`), so undoing a restore does not always bring them back
  (`RestoreThenUndo`).
- When a reload finds no file, the overlay is reset but not applied. After any history on any
  directory the recomputed options are those of the overlay applied last
  (`OptionsAreThoseOfTheLastApplied`); they follow the overlay in memory exactly if no reload has
  found the file missing since then, or if that overlay added nothing to env
  (`OptionsFollowTheOverlayIff`, `MissingFileLeavesOptions`, `LostNamesStay`). The watch loop skips a
  missing file, so after the first load only a removal between its Stat and the ReadFile leads there.
- HTTP.md:87 promises the last 3 backups. A save that rotates and then fails to write uses up one
  of them. The slots hold the last versions in order exactly if as many persists have written since
  the last such failure (`LastBackupsAreKeptIff`, `LastVersionsAreOnDiskIff`); three failures in a
  row leave no other version at all (`FailedSavesLoseBackups`). Whatever fails and whoever edits the
  file, as many slots hold the last versions as persists have worked since (`SureVersionsAreKept`).

## Model

| member | source | states |
|---|---|---|
| PingWatchdog.ClearTakesTheTimedPing | rflink/publisher.go:863-880 | in every interleaving, when the timeout check clears `pingSentAt` in its second lock section, the value there is the one it loaded and timed, it is the last marked ping, and no ping was marked in between |
| PingWatchdog.CheckClearsIff | rflink/publisher.go:863-880 | in every interleaving a check that has loaded the ping and reads the clock at `at` goes on to clear it exactly if `at` is the timeout or more after the ping; else it gives up and changes nothing |
| PingWatchdog.MarkFindsNoPing | rflink/app.go:369-379 | `MarkPingSent` never overwrites an outstanding ping, though it runs well after the check |
| PingWatchdog.PingLedger | rflink/publisher.go:844-902 | pings marked = pings credited to a PONG + pings timed out + 1 if one is outstanding, in every interleaving |
| PingWatchdog.PongCreditedIff | rflink/publisher.go:851-856 | a PONG is credited exactly when a marked ping is neither credited nor timed out yet |
| PingWatchdog.EarlyPongIsNotCredited | rflink/app.go:374-379 | a run whose only ping is answered between write and mark, and still counts a failure |
| Gateway.ParseGatewayMessage | rflink/sensor_data.go:242-308 | the loop gives the reply, or none, that the piece-by-piece reading gives |
| Gateway.GatewayReplies | rflink/sensor_data.go:242-308 | a line is a gateway reply exactly if it may be one and some piece marks it as PONG or as version |
| Gateway.RepliesInFull | rflink/sensor_data.go:258-308 | the version of a reply is that of its last piece that says one, and every other key has the value of its last piece |
| Gateway.PongLines | rflink/sensor_data.go:242-308 | a line is a PONG exactly if it has the prefix, no device ID anywhere and a piece that says so |
| Gateway.PongReplyKey | rflink/publisher.go:388-398 | the answers to a PING, whatever their counters, share one debounce key, and no other line has it |
| Gateway.RepliesArePongs | rflink/sensor_data.go:258-278 | such an answer is handled as a PONG when its counter is no field |
| PongPath.AnswerPassesIff | rflink/publisher.go:400-428 | an answer is let through exactly if no answer was let through less than a window before |
| PongPath.AnswerIsCreditedIff | rflink/publisher.go:698-722 | in every interleaving of lines, ping loop and timeout checks an answer is credited exactly if none was let through less than a window before and a marked ping is unresolved |
| PongPath.DroppedAnswerTimesOut | rflink/publisher.go:698-722 | a run in which both pings are answered, the second answer is dropped by the debouncer and its ping times out |
| PingWatchdog.SettledVerdict | rflink/publisher.go:882-894 | between publish-loop calls `pingFails` is the number of timeouts since the last PONG or the start, and the gateway is flagged exactly when that reaches the threshold |
| PingWatchdog.NeverFlaggedEarly | rflink/publisher.go:863-895 | no step raises the flag before threshold * timeout has passed since the later of start and last PONG |
| PingWatchdog.PingOptions.Timeout | rflink/options.go:525-531 | a positive configured number of seconds is the timeout in nanoseconds, anything else means 5 seconds, so it is always positive |
| PingWatchdog.PingOptions.Threshold | rflink/options.go:533-539 | a positive configured threshold is used, anything else means 3, so it is always at least one |
| PingWatchdog.PingFields.MarkPingSent | rflink/publisher.go:844-849 | the outstanding ping becomes the current time |
| PingWatchdog.PingFields.PingOutstanding | rflink/publisher.go:897-902 | tells whether a ping is outstanding |
| PingWatchdog.PingFields.NotePong | rflink/publisher.go:851-861 | taken alone, the call is the three events PONG-clear, zero, unflag of the interleaved machine: no ping, no failure and no flag afterwards |
| PingWatchdog.PingFields.CheckPingTimeout | rflink/publisher.go:863-895 | with PING on, a ping outstanding for the timeout or longer is cleared and counted, and the flag raised from the threshold on; in every other case nothing changes; taken alone, the call is the load, age, clear, count, flag events of the machine |
| PingWatchdog.PingFields.SendPing | rflink/app.go:365-383 | taken alone, the call is the check, write, mark events; a line goes out exactly if connected, none outstanding and the write works |
| TokenBucket.TokensAreTheMinimum | rflink/app.go:215-222 | after any refill at t the tokens are the minimum, over the start and all refill instants s so far, of limit + drip(t - s) - grants since s |
| TokenBucket.DripIsProduct | rflink/app.go:218 | the drip of d seconds is d * limit |
| TokenBucket.RefusedIff | rflink/app.go:207-209 | a command is refused exactly when one of those candidates is below one token |
| TokenBucket.WindowBound | rflink/app.go:200-213 | a window of length T, ends included, sees at most limit + T * limit grants |
| TokenBucket.StatusReadsAreInvisible | rflink/app.go:225-234 | dropping every status read from a run changes no answer to a command, though each one refills the shared bucket |
| TokenBucket.PacedSenderNeverRefused | rflink/app.go:200-222 | commands at least 1/limit seconds apart are all granted, with status reads anywhere in between |
| TokenBucket.NeverNegative | rflink/app.go:207-211 | the bucket always holds between 0 and limit tokens after a refill |
| TokenBucket.Limiter.RefillCmdTokensLocked | rflink/app.go:215-222 | the new bucket is the refill of the old one at now |
| TokenBucket.Limiter.AllowCommand | rflink/app.go:200-213 | the answer and the new bucket are those of a command operation; always yes and no change when unlimited |
| TokenBucket.Limiter.CommandRateStatus | rflink/app.go:225-234 | reports limit and tokens after a refill, and the new bucket is that of a status operation |
| LoginLimiter.LockedIffEnoughAttempts | rflink/login_limit.go:40-75 | in every reachable state an IP is locked exactly when five or more attempts are stored, and its lock ends at least a lockout after each of them |
| LoginLimiter.RefusesOnlyThroughTheLock | rflink/login_limit.go:40-63 | Allow refuses exactly while a lock runs, with the exact time left; the count test at lines 59-62 never succeeds |
| LoginLimiter.LockedOutUntilItEnds | rflink/login_limit.go:40-46 | without a success a lock only moves later, and until it ends every Allow is refused with the exact remaining time |
| LoginLimiter.FailureBound | rflink/login_limit.go:33-76 | with at most k attempts in flight and no success since some call before the window, any half-open five-minute window records at most 4 + k failures of an IP |
| LoginLimiter.SequentialFailureBound | rflink/login_limit.go:27-31 | the documented five when logins of one IP do not overlap and none has succeeded since some call before the window |
| LoginLimiter.BoundIsReached | rflink/login_limit.go:66-76 | for every k >= 1 a legal run records exactly 4 + k failures in one window |
| LoginLimiter.OtherIPsDoNotMatter | rflink/login_limit.go:14-18 | in any run of the two maps, what is held for an IP is what its own calls alone produce |
| LoginLimiter.KeysAreAddresses | rflink/login_limit.go:33-36 | two addresses share an entry exactly if they are equal or each is empty or "unknown" |
| LoginLimiter.SilentAddressIsAllowed | rflink/login_limit.go:33-76 | in any run, an address that is neither empty nor "unknown" and made no call has nothing stored and is allowed at any moment |
| LoginLimiter.AllowInFull | rflink/login_limit.go:33-64 | a lock that runs refuses with the time left and changes nothing; one that has ended is forgotten with all attempts; without one, exactly the attempts of the last 300 s stay, fewer than five are allowed and five or more locked for 900 s |
| LoginLimiter.PruneIsFilter | rflink/login_limit.go:48-57 | pruning keeps each attempt after the cut as often as it was stored, and no other |
| LoginLimiter.Limiter.Allow | rflink/login_limit.go:33-64 | answer and new entry are those of the lock test, expiry and in-place pruning; every other address, unless both are empty or "unknown", keeps its attempts and its lock |
| LoginLimiter.Limiter.Fail | rflink/login_limit.go:66-76 | appends the attempt and, from the fifth on, locks for 900 s from the second clock reading; every other address keeps its attempts and its lock |
| LoginLimiter.Limiter.Success | rflink/login_limit.go:78-86 | forgets the attempts and the lock of the address; every other address keeps its own |
| SessionStore.ReaperIsUnobservable | rflink/session.go:40-53 | two runs with the same calls and distinct creation times, reaped at different moments, give the same answer to any Get or List that follows |
| SessionStore.LiveSessionsAgree | rflink/session.go:40-107 | such runs always hold the same unexpired sessions |
| SessionStore.EvictsExpiredFirst | rflink/session.go:67-87 | as the TTL is constant, oldest-first eviction takes an expired session whenever one is stored |
| SessionStore.RunInvariant | rflink/session.go:67-89 | no run stores more than 16 sessions, each under its own ID with the constant TTL |
| SessionStore.SessionSurvives | rflink/session.go:55-137 | in every run a session is found with its own data until exactly 72 h after its creation, whatever is looked up, listed or reaped, unless it is revoked or replaced under its ID, or 16 others are created that come after it or are as new as it |
| SessionStore.LastSixteenStay | rflink/session.go:67-89 | after any run of creations with increasing times exactly the last 16 sessions are stored |
| SessionStore.RevokeSeesTheReaper | rflink/session.go:109-117 | two runs that differ only in reaping and in whether an expired ID is stored for Revoke to find |
| SessionStore.ReapingShows | rflink/session.go:40-137 | after any run one more reaping changes the answer of Revoke exactly if the session is stored and expired, lowers the counts of RevokeAllExcept and Count by exactly the expired sessions they would have counted, and changes no other answer |
| SessionStore.RevokeDiffersOnlyOnExpired | rflink/session.go:109-117 | however two runs were reaped, their answers to Revoke can differ only on a session that is expired wherever it is stored |
| SessionStore.Sessions.Create | rflink/session.go:55-90 | on a random ID, evicts an oldest session if full and stores the new one; without one nothing changes |
| SessionStore.Sessions.FindOldest | rflink/session.go:70-80 | the scan in arbitrary order finds a session none is older than |
| SessionStore.Sessions.Get | rflink/session.go:92-107 | answers the stored unexpired session or nothing, and deletes an expired one it meets |
| SessionStore.Sessions.Revoke | rflink/session.go:109-117 | removes the session and tells whether it was stored |
| SessionStore.Sessions.RevokeAllExcept | rflink/session.go:125-137 | leaves only the kept ID and counts what went |
| SessionStore.Sessions.Count | rflink/session.go:119-123 | the number of stored sessions, expired or not |
| SessionStore.Sessions.List | rflink/session.go:139-161 | lists exactly the unexpired sessions, one entry each |
| SessionStore.EntriesInFull | rflink/session.go:139-161 | a listed entry has the data of its session, and the first eight characters of its ID as the short form |
| SessionStore.Sessions.Reap | rflink/session.go:43-52 | leaves exactly the unexpired sessions |
| SensorMessages.SensorDataFromMessage | rflink/sensor_data.go:47-118 | the loop computes the record or error that the field-by-field reading gives |
| SensorMessages.RecordOfALine | rflink/sensor_data.go:47-118 | a line is a sensor message exactly if it has a protocol name, only acceptable pieces and a last ID that is not empty; its record carries for each known key the last value given, and every other key under its lower-case name with its last value |
| SensorMessages.ErrorOfALine | rflink/sensor_data.go:47-118 | the error of a line: empty, too short, what is wrong with its first piece that is not acceptable, or no ID, in this order |
| SampleLines.BatteryLine | rflink/sensor_data.go:47-118 | every line of counter, protocol name, ID and battery state is accepted, and its record has that ID and that state |
| SensorMessages.AcceptedNumbers | rflink/utils.go:10-17 | a number is accepted exactly if it is a non-empty numeral of the base whose place value fits 16 bits, and has that value |
| SensorMessages.EqualKeysSameRecord | rflink/publisher.go:388-398 | lines with equal debounce keys both fail to parse or give the same record, for all strings |
| SensorMessages.EqualKeysAgree | rflink/publisher.go:388-398 | equal keys mean equal lines, equal pieces after the counter, or two lines of at most three pieces |
| SensorMessages.RetransmissionsShareAKey | rflink/publisher.go:388-398 | lines that differ in the counter only have one debounce key |
| SensorMessages.FieldsForPublish | rflink/sensor_data.go:140-189 | the map built in arbitrary order is readings, then events, then non-empty extras |
| SensorMessages.PublishedNumbersReadBack | rflink/sensor_data.go:145-162 | a published humidity reads back as itself, a Celsius temperature as its tenths, a Fahrenheit one as the nearest tenth |
| SensorMessages.StrippedIsReplayable | rflink/sensor_data.go:67-111 | for any line that parses, no extra field has the name of a known one in any case, and the stripped record has no event left |
| SensorMessages.StripKeepsReadings | rflink/sensor_data.go:128-138 | stripping clears cmd and switch and keeps every reading, extra, name, time and the topic; what the stripped record publishes is exactly the readings and extras of the original |
| SensorMessages.PublishedEvents | rflink/sensor_data.go:167-180 | SWITCH and CMD together are published as one channel sw_<switch in lower case> with the command in upper case, never as switch or cmd; one alone goes out as it is under its own name |
| SensorMessages.PublishedReadings | rflink/sensor_data.go:141-189 | in a parsed record no extra field shadows temp, hum or bat, each is published exactly when present with its own value, and every non-empty extra goes out unchanged |
| SensorMessages.NothingElseIsPublished | rflink/sensor_data.go:140-189 | every published field is a reading, an event of the record or a non-empty extra field |
| SensorMessages.ReplayPublishesNoEvent | rflink/sensor_data.go:128-189 | publishing such a record yields no cmd and no switch field, any sw_ field is one the sensor sent under that name, and all readings and extras stay |
| Debounce.PruningIsInvisible | rflink/publisher.go:400-428 | in every run a message is dropped exactly if a same-key message was let through less than one window before, whatever was pruned since |
| Debounce.DropLosesNoReading | rflink/publisher.go:698-712 | a dropped line that parses repeats the record of a line let through less than one window before |
| Debounce.AcceptedAsByHistory | rflink/publisher.go:409-426 | the map lets a message through exactly if a history that never forgets would |
| Debounce.AcceptedAreApart | rflink/publisher.go:409-419 | same-key messages that are let through are at least a window apart |
| Debounce.StreamKeepsPassing | rflink/publisher.go:409-419 | a stream of one key with gaps <= g has another message let through within window + g of the last one let through |
| Debounce.Debouncer.IsDuplicate | rflink/publisher.go:400-428 | answer, cache after pruning and drop counter of one message; off when the window is not positive |
| PendingBuffer.StoresAreConserved | rflink/publisher.go:537-585 | in every interleaving of lock sections stores = still buffered + superseded + cleared + expired + taken |
| PendingBuffer.BufferHoldsUntouchedStores | rflink/publisher.go:547-576 | the buffer holds exactly the stores no later section touched, with their value and time |
| PendingBuffer.OnlyTheLatestStays | rflink/publisher.go:547-549 | of two stores of one key only the later can be buffered |
| PendingBuffer.FlushTakesFreshStoresOnce | rflink/publisher.go:564-576 | a flush takes exactly the untouched stores at most TTL old, and a taken or dropped store is settled for good |
| PendingBuffer.LedgerCountsFates | rflink/publisher.go:537-585 | each count of the ledger is the number of stores of the run that met that fate |
| PendingBuffer.BufferCountsUntouchedStores | rflink/publisher.go:537-585 | and the buffer has as many entries as there are untouched stores |
| PendingBuffer.Sweep | rflink/publisher.go:564-576 | sweeping the map in any order lists each fresh entry once and counts the stale ones |
| Publisher.ReplayedMessagesAreEventFree | rflink/publisher.go:537-551 | no message of a replayable record names an event |
| Publisher.MessagesInFull | rflink/publisher.go:452-479 | every message carries the topic segment and a field of its record with its own value; cmd, switch and sw_ channels are never retained, everything else exactly if configured |
| Publisher.ReadingsToKeep | rflink/publisher.go:537-546 | there is a reading to keep exactly if the record without its events publishes a field or has an extra one |
| Publisher.PreparedInFull | rflink/publisher.go:434-439 | in terms of the configured lists: the HWID becomes what the last entry for it says, else the last entry for the raw ID, else it stays; a missing name becomes the entry for the topic segment, else a default; nothing else changes |
| Publisher.IgnoredInFull | rflink/publisher.go:434-438 | a record is ignored exactly if a part of the configured list is its published HWID, its raw ID or its model, up to case and outer space |
| Publisher.Publisher.StorePending | rflink/publisher.go:537-551 | without TTL or reading nothing is stored; else under the topic ID the record without cmd and switch and with every reading, extra and time unchanged, as of now; the buffer stays replayable |
| Publisher.Publisher.ClearPending | rflink/publisher.go:553-557 | removes the key |
| Publisher.Publisher.PublishFields | rflink/publisher.go:457-468 | succeeds exactly if every field is delivered, and then every field was sent |
| Publisher.Publisher.PublishSensor | rflink/publisher.go:430-491 | for any broker answers: outcome, counters, the messages sent (all of them on success) and the buffer section gone through |
| Publisher.Publisher.TakePending | rflink/publisher.go:564-576 | empties the buffer into the fresh items and counts the dropped ones |
| Publisher.Publisher.ReplayItems | rflink/publisher.go:577-584 | buffer and counters after publishing the items in turn; no message names a past event |
| Publisher.Publisher.FlushPending | rflink/publisher.go:559-585 | a whole flush: fresh items replayed once without events, those published sent completely, those refused put back, stale ones counted |
| Publisher.Publisher.HandleSensorLine | rflink/publisher.go:714-721 | whatever line arrives, the buffer stays free of events and goes through the section of its record, and only that record is announced |
| Replay.BufferFollowsTheSections | rflink/publisher.go:430-585 | in every interleaving of the messages and sections of the publish loop and any flushes, the buffer is what the code's own sections make of it, so the ledger theorems hold of the run |
| Replay.EveryReadingIsItsLine | rflink/publisher.go:430-585 | in every interleaving each reading that is buffered or in hand carries exactly the readings and extras of a serial line received at its reception time, under the same ID and model, however often it was put back |
| Replay.ReplayPublishesTheLine | rflink/publisher.go:577-584 | what a replay of such a reading publishes is exactly the readings and extras of that line |
| Replay.TakenLateOnlyAfterPutBack | rflink/publisher.go:537-585 | in every interleaving a reading put back n times is taken at most (n + 1) * TTL after reception, not counting its time outside the buffer, and apart from that time later than TTL only if n > 0 |
| Replay.TimesIsProduct | rflink/publisher.go:568 | the bound counts n times TTL |
| Replay.RefusedReplaysOutliveTTL | rflink/publisher.go:577-581 | for every n and every serial line with a reading, a run with a refusing broker takes it exactly (n + 1) * TTL after its reception |
| Replay.BufferIsStaleIff | rflink/publisher.go:463-557 | after every interleaving the buffer holds under a key an older reading than the latest one the publish loop has ended exactly if the last section to touch the key ended a refused replay of a reading older than the latest reception of its key at that moment |
| Replay.OlderMessageIff | rflink/publisher.go:457-485 | in every interleaving a message puts an older record on a topic than the last one there exactly if it is of a reading in hand, of an accepted or a refused replay, received before that one |
| Replay.ReplayForgetsNewerIff | rflink/publisher.go:463-557 | in every interleaving the end of a replay makes the buffer forget a newer reading exactly if that is there under the key of the reading, which is not ignored |
| Replay.LinesForgetNothingNewer | rflink/publisher.go:698-722 | the end of a line from the serial port never makes the buffer forget a newer reading |
| Replay.OlderReplayWins | rflink/publisher.go:463-585 | runs from any two serial lines of one key in which the older one is in hand while the newer one is received, for each answer of the broker to either: a refused replay leaves the older one in the buffer though the newer may be published, an accepted one is the last message and leaves nothing |
| Options.ParseColonMap | rflink/options.go:289-312 | the loop computes the colon map |
| Options.LastEntryWins | rflink/options.go:289-312 | the map holds, for each upper-case key, the last well-formed entry for it and nothing else |
| Options.IgnoredNames | rflink/options.go:411-420 | a name is in the ignore set exactly if it is a non-blank part of the list up to case and outer space |
| Options.ParseIgnoreList | rflink/options.go:411-420 | the loop computes the set of upper-cased non-blank parts |
| Commands.ValidateRFLinkCommand | rflink/validate.go:30-65 | the loops report the first complaint in the order of the checks |
| Commands.ComplaintsAreRight | rflink/validate.go:30-65 | the error named is one the text has, and without an error the text has none |
| Commands.ComplaintsComeInOrder | rflink/validate.go:30-65 | no other error the text has comes earlier in the order of the checks |
| Commands.AcceptedPayloads | rflink/options.go:370-393 | a payload is accepted exactly if its trimmed text, terminated, is within the cap and renders good fields |
| Commands.RefusalsInFull | rflink/options.go:370-393 | a payload is refused as blank, as longer than the cap (256 if none is set) once terminated, or with the first complaint about its text, in this order; else the result is that text |
| Commands.RenderingsAreFixedPoints | rflink/options.go:370-393 | every list of good fields whose rendering fits is accepted as it is and can be read back |
| Commands.OutputsAreRenderings | rflink/validate.go:48-64 | every accepted output is the rendering of its own good fields within the cap |
| Commands.NormalizeIsIdempotent | rflink/options.go:372-393 | an accepted output normalizes to itself |
| Commands.CommandAllowed | rflink/options.go:356-368 | allowed exactly if the whitelist is empty or one entry is a prefix of the trimmed command |
| Commands.SplitCSV | rflink/validate.go:217-226 | the trimmed non-blank parts in order |
| Commands.ValidateHAButtonsCSV | rflink/validate.go:140-167 | the error of the first part that has one |
| Commands.ValidateHASwitchesCSV | rflink/validate.go:169-203 | the error of the first part that has one |
| Commands.ButtonErrorsInFull | rflink/validate.go:140-167 | for any Label:command: an empty half, then a bad label, then what is wrong with the command |
| Commands.SwitchErrorsInFull | rflink/validate.go:169-203 | the same for any Label:on:off, the command for on before the one for off |
| Commands.LabelsInFull | rflink/validate.go:21-28 | a label is 1 to 64 letters, digits, spaces and _./- and starts with a letter or digit |
| Commands.FirstErrorIs | rflink/validate.go:140-203 | the error of a list is that of its first part with one, and there is none exactly if no part has one |
| Commands.ParseHAButtons | rflink/options.go:422-448 | the entries of the parts that say something, in order |
| Commands.ParseHASwitches | rflink/options.go:450-482 | the entries of the parts that say something, in order |
| Commands.ButtonsInFull | rflink/options.go:422-448 | any Label:command with both halves non-blank gives the button of that label and the terminated command; only the command may contain a colon |
| Commands.SwitchesInFull | rflink/options.go:450-482 | any Label:on:off gives the switch with these two commands in this order; only the last may contain a colon |
| Commands.AcceptedButtonsAreParsed | rflink/validate.go:140-167 | a list the validator accepts is parsed with one button per non-blank part, and each in-cap command is a fixed point of normalization |
| Commands.AcceptedSwitchesAreParsed | rflink/validate.go:169-203 | the same for switches and both of their commands |
| CommandBridge.LinesInAWindow | rflink/app.go:150-222 | in every interleaving of the steps of any calls, the lines of a window of length T plus the tokens in flight after it are at most limit + drip(T) plus the tokens in flight before it, whatever the serial port does |
| CommandBridge.WriteWindow | rflink/app.go:150-222 | with at most k calls between grant and write, a window of writes of length T, measured at the writes, sees at most limit + drip(T) + k lines |
| CommandBridge.WriteWindowFromRest | rflink/app.go:150-222 | a window that no token was in flight into sees at most limit + drip(T) lines |
| CommandBridge.BoundIsReached | rflink/app.go:172-190 | for every limit and every k >= 1 a legal run with at most k calls in flight puts out limit + k lines at one moment |
| CommandBridge.TokensAreConserved | rflink/app.go:172-190 | in every interleaving tokens in flight before + tokens granted = tokens in flight after + writes tried |
| CommandBridge.BucketFollowsTheSteps | rflink/app.go:172-197 | however the calls interleave, the shared bucket goes through the operations of their steps in order |
| CommandBridge.ScreenedIsNormal | rflink/app.go:154-170 | what passes normalization and whitelist is a whitelisted fixed point of normalization |
| CommandBridge.PassesIff | rflink/app.go:154-170 | a payload passes exactly if its trimmed, terminated text is within the cap and renders good fields, and the whitelist is empty or has a prefix of that text; it passes as that text |
| CommandBridge.Bridge.ExecuteCommand | rflink/app.go:150-198 | the answer is not "rejected" exactly if the trimmed, terminated text is within the cap, renders good fields and is whitelisted, and then only that text is ever written and named; run without interruption in any state of the machine, the call takes its own steps (none for a rejected payload) and leaves only the bucket changed; past the bucket the serial port alone decides the status, and remaining tokens and rate are those of the bucket |
| RuntimeOverlay.BackupsHoldTheLastVersions | rflink/runtime_config.go:347-416 | on any directory, after any saves, restores and reloads whose copies work, each slot reached holds the version with its number, and on an empty one the others are empty; a persist that rotates but cannot write puts the current number in twice |
| RuntimeOverlay.SureVersionsAreKept | rflink/runtime_config.go:347-416 | from any state, whatever fails and whoever edits the file, the current file and its backups are the last versions as far as persists have worked completely since the last fault or edit |
| RuntimeOverlay.RecentVersionsAreKept | rflink/runtime_config.go:347-416 | the same from any directory whatever failed or was edited before, for the places of the run itself |
| RuntimeOverlay.LastBackupsAreKeptIff | rflink/runtime_config.go:347-389 | the slots have the numbers n - 1, n - 2, ... of the last versions exactly if at least min(3, n - 1) persists have written since the last one that rotated and could not write |
| RuntimeOverlay.LastVersionsAreOnDiskIff | rflink/runtime_config.go:347-416 | the same law read off any directory, when the versions of the run differ |
| RuntimeOverlay.FailedSavesLoseBackups | rflink/runtime_config.go:347-389 | from any state, after three saves that rotate and cannot write every slot holds the current version |
| RuntimeOverlay.RestoreThenUndo | rflink/runtime_config.go:439-463 | restoring any slot and then slot 1 brings back the overlay of the current file and the recomputed options; a HA key comes back only if that overlay has it, else it keeps the value of the slot, or its own |
| RuntimeOverlay.RestoreThenUndoOwnFile | rflink/runtime_config.go:439-463 | the manager's own file comes back unchanged, and the overlay in memory exactly if no list is present but empty |
| RuntimeOverlay.OptionsAreThoseOfTheLastApplied | rflink/runtime_config.go:125-206 | after any history on any directory, names, ignore list, HWID map, tokens and webhooks are those of env and the overlay applied last, the sources are those of the overlay in memory, and this is the one applied last unless a reload has found no file since |
| RuntimeOverlay.OptionsFollowTheOverlayIff | rflink/runtime_config.go:125-206 | so they follow the overlay in memory exactly if no reload has missed the file since, or that overlay added nothing to env |
| RuntimeOverlay.MissingFileLeavesOptions | rflink/runtime_config.go:126-137 | whatever came before, a reload that finds no file leaves them right exactly if the overlay applied last added nothing to env |
| RuntimeOverlay.LostNamesStay | rflink/runtime_config.go:126-137 | a run in which saved names stay in force after the file is gone, while file and sources say env |
| RuntimeOverlay.HAKeysRememberTheLastOverlay | rflink/runtime_config.go:208-239 | on any directory, discovery, buttons, switches and prefix are those of the last applied overlay that had the key, or env; a blank prefix of env gives way to the default exactly once an apply has left discovery on |
| RuntimeOverlay.RestoreDoesNotReleaseButtons | rflink/runtime_config.go:222-227 | a restore after which env owns the buttons but those of the replaced overlay stay in force |
| RuntimeOverlay.DiscoveryHasAPrefix | rflink/runtime_config.go:235-239 | in every run on any directory, once an overlay has been applied, discovery is never on with a blank prefix |
| RuntimeOverlay.EachKeyIsReportedOnce | rflink/runtime_config.go:265-345 | under saves no key is ever released, and the keys that become owned are reported exactly once each |
| RuntimeOverlay.SaveSetsEachKey | rflink/runtime_config.go:265-345 | after a written save each of the nine keys has in the overlay, and in the file up to an empty list, the value of the patch if that has the key (a prefix trimmed, a blank one the default), and else the value it had |
| RuntimeOverlay.SaveShowsEachKey | rflink/runtime_config.go:158-251 | and the options show the value of every key of the patch |
| RuntimeOverlay.EachKeyHoldsTheLastValue | rflink/runtime_config.go:265-345 | over any run of saves each key holds the last value that a written one gave it, or the value it started with |
| RuntimeOverlay.FailedSaveChangesNothing | rflink/runtime_config.go:337-345 | a save that cannot be written leaves overlay, options, sources and the current file as they were |
| RuntimeOverlay.SourcesTellTheOwner | rflink/runtime_config.go:158-251 | in every run on any directory a key is reported as owned by the runtime layer exactly if the overlay in memory has it |
| RuntimeOverlay.OverlayElseEnv | rflink/runtime_config.go:158-251 | in every run on any directory names, ignore list, HWID map, tokens and webhooks are those of the overlay applied last for each key it has, and those of the environment for each key it lacks |
| RuntimeOverlay.ReloadInFull | rflink/runtime_config.go:125-156 | what a reload makes of a missing file, unreadable text, blank text and a file with or without a version number |
| RuntimeOverlay.ReloadAfterSave | rflink/runtime_config.go:330-337 | reloading the manager's own save changes nothing exactly if no list is present but empty |
| RuntimeOverlay.ReloadAfterRestore | rflink/runtime_config.go:147-154 | after a restore the file must also carry a version number |
| RuntimeOverlay.SavesDuringReloadAreUndone | rflink/runtime_config.go:126-155 | when any saves come between the read and the apply of a reload, from any state, the overlay is what was read, and the keys it loses are exactly those it had before or these saves reported that were not read |
| RuntimeOverlay.OnlyReportedKeysAreLost | rflink/runtime_config.go:126-155 | if the file was the overlay in memory, they are exactly those reported as first-time meanwhile |
| RuntimeOverlay.NextSaveDropsThem | rflink/runtime_config.go:265-345 | the next save then writes a file with a key that the overlay lacks only if its own patch brings it |
| RuntimeOverlay.NextReloadHeals | rflink/runtime_config.go:125-156 | if one of these saves was written, a reload before the next save brings back what the file can hold of the last |
| RuntimeOverlay.SavedButtonsAreLost | rflink/runtime_config.go:125-156 | a run in which buttons are saved and reported during a reload and the next save writes a file without them |
| RuntimeOverlay.RuntimeManager.ApplyLocked | rflink/runtime_config.go:158-251 | options and sources after merging the overlay over env |
| RuntimeOverlay.RuntimeManager.RotateBackupsLocked | rflink/runtime_config.go:391-409 | the counting-down copy loop, with a failing copy wherever it may happen |
| RuntimeOverlay.RuntimeManager.PersistLocked | rflink/runtime_config.go:347-389 | the directory after a persist and whether it worked |
| RuntimeOverlay.RuntimeManager.SaveOverlay | rflink/runtime_config.go:265-345 | state after a save, and the first-time keys when it was persisted; then every key of the patch has its value in overlay and options and every other key the value it had |
| RuntimeOverlay.RuntimeManager.RestoreBackup | rflink/runtime_config.go:439-463 | state after a restore, and the error of a bad slot, missing or unreadable backup or failed persist |
| RuntimeOverlay.RuntimeManager.ReadFile | rflink/runtime_config.go:126 | the read, which holds no lock and changes nothing else |
| RuntimeOverlay.RuntimeManager.ApplyFile | rflink/runtime_config.go:127-155 | state after the rest of the reload in whatever state it finds, and whether the text could be parsed |
| RuntimeOverlay.RuntimeManager.LoadAndApply | rflink/runtime_config.go:125-156 | a reload that nothing comes in between is the two steps |
| RuntimeOverlay.MergePatch | rflink/runtime_config.go:271-331 | the nine marked assignments give the patched file and the first-time keys in order |
| RuntimeOverlay.APITokensFromRuntime | rflink/runtime_config.go:654-682 | the loop keeps exactly the entries with a name and a hash, in order |
| RuntimeOverlay.UsableTokens | rflink/runtime_config.go:654-682 | a token without name or hash is left out, any other is kept after those before it |
| Text.SplitOfJoin | rflink/publisher.go:395 | splitting a join gives back pieces that are free of the separator |
| Text.JoinOfSplit | rflink/publisher.go:392 | joining a split gives back the text |
| Text.JoinOfSplitN | rflink/options.go:429 | joining a split into at most n pieces gives the text back; all pieces but the n-th are free of the separator |
| Text.TrimmedIsInner | rflink/validate.go:31 | a text is white space, its trimmed text and white space, and the trimmed text has none at either end |

## Left out

- Text is ASCII: Unicode white space, letter case and UTF-8 lengths are not modelled; for other text the byte cap and the trims of the source differ.
- Token bucket arithmetic is over exact reals; rounding of float64 is not modelled.
- The timers of runPingLoop and of the publish loop: pings and checks may come at any time, which includes theirs.
- Publishing the gateway info of a reply.
- Home-assistant discovery, hooks, the raw and sample buffers, and the log.
- sanitizeTopicSegment and the topic strings: messages carry topic ID and field name instead.
- The validators of friendly names, HWID maps, ignore lists and the discovery prefix: the same part-by-part shape as the two that are modelled, without commands inside.
- GetOptions clamping other than the PING timeout and threshold: single assignments.
- API tokens keep only name and hash, webhooks only name and URL; expiry, scopes, hashing and the parsing of the environment's lists are parameters or absent.
- Read errors other than a missing file on reload: they return an error and change nothing, like unreadable text.
- watchLoop's modification times: a reload may happen at any moment.
- RuntimeOverlay.BackupsHoldTheLastVersions: assumes that no single backup copy of the run fails and nobody edits the file during it, because after either the slots depend on which copies were made before; `SureVersionsAreKept` has what holds then.
- RuntimeOverlay.LastVersionsAreOnDiskIff: likewise.
- RuntimeOverlay.RuntimeManager.LoadAndApply: one goroutine reloads, so at most one reading is under way.
- SensorMessages.FieldsForPublish: the values are payloads, and Rendered is their text, for which the floating-point numbers are taken as exact.
- Publisher.Publisher.PublishSensor: home-assistant discovery, the last-seen stamps, the sample buffer and the sensor hook are left out; none of them touches the pending buffer.
- Publisher.Publisher.FlushPending: a flush with no other call in between; flushes that interleave with the publish loop and with each other are the runs of the Replay machine.
- Publisher.Publisher.ReplayItems: likewise without other calls between the items.
- Replay.TakenLateOnlyAfterPutBack: the options stay as they are during a run, and the clock of receptions is the clock of the stores.
- Replay.OlderMessageIff: a publish that fails counts as a message that the broker has not taken, though a broker may have it when only the acknowledgement is lost.
- CommandBridge.Bridge.ExecuteCommand: one call without interruption; overlapping calls are the runs of the machine of steps.
- PendingBuffer.Sweep: works on a copy of the map and returns what is left, while the source deletes from the field itself; the method that calls it holds the lock throughout.
- HTTP handlers, cookies, CSRF, the WebSocket hub, the MQTT client, TLS and webhook delivery.
