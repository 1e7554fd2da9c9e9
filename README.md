# WaterBot core, modelled in Dafny

WaterBot switches garden devices (pumps, valves, lights) wired to GPIO pins, on
chat commands and on a daily schedule. This project models its core:

- **Configuration** (`waterbot/config.py`): the `DEVICE_TO_PIN` registry built from
  `DEVICE_*` environment entries with Python's `int()`, `validate_config`, and the
  schedule store. The store is a table device → action → sorted list of `"HH:MM"`
  times, edited in place by `add_schedule` and `remove_schedule` and written out by
  `save_schedules`.
- **Pin drivers** (`waterbot/gpio/interface.py`): the emulation driver and the
  call-recording mock, as classes. Both are specified by one value type, `PinBoard`,
  and three transition functions.
- **Device controller** (`waterbot/gpio/handler.py`): status, timers and pin writes of
  `turn_on`, `turn_off`, `turn_all_on`, `turn_all_off`, `get_status` and `cleanup`.
  Each method is proved against a specification function (`Switch`, `SwitchAll`,
  `CleanedUp`) over a snapshot of the controller.
- **Scheduler** (`waterbot/scheduler.py`): the list of scheduled job records kept in
  step with the job table of the `schedule` library. The central invariant is
  `Consistent`: for every (device, action, time), the number of live records equals
  the number of times the stored table lists it, counting only times that
  `strptime("%H:%M")` and the library accept. The invariant is proved to hold after
  `setup_schedules`, `start` and `remove_schedule`, and after an `add_schedule` that
  is refused or that stores a new entry and saves it. It is also proved that a failed
  save, or a duplicate whose time parses, makes `add_schedule` break it: the duplicate
  returns True and schedules a second job for a time the table lists once. `get_next_runs` is proved sorted, a permutation, and
  stable.
- **Command parser** (`waterbot/utils/command_parser.py`): the cascade of exact words
  and regular expressions applied after `strip().lower()`. Each regular expression is
  a matcher that consumes the text the way the engine does under `re.match`. The
  proofs cover soundness of every result and round trips from each command's written
  form back to the command. They also show that padding and letter case do not
  matter, and that every schedule entry the parser yields can be stored and
  scheduled.

Shared pieces live in `wrappers.dfy` (Option) and `text.dfy`. The latter models
Python's character classes, `str.strip`, `str.lower` on ASCII, string order,
`list.sort`, `list.remove` and decimal digits. `jobs.dfy` stands in for the default
scheduler of the third-party `schedule` library.

The code was followed where it differs from its documentation and tests:

- `parse_command` never returns `(None, None)`, whatever its docstring says. Unknown
  text gives "help".
- `off <device> <n>` always yields a timeout of None. The tests at
  `tests/test_command_parser.py:141-156` expect 600 or 1800 seconds.
- The store accepts any `\d{2}:\d{2}` time, including "25:00" and a time with one
  trailing newline (`$` matches before it). The scheduler's `strptime` refuses those,
  so such an entry is saved but never scheduled (`Scheduler.StoreOutrunsClock`). The
  parser's own range check keeps such times away on the chat path
  (`CommandParser.ParsedEntriesSchedulable`).

## Model

| member | source | states |
|---|---|---|
| Text.Strip | waterbot/utils/command_parser.py:21 | `str.strip()`: the result is no longer than the input and neither starts nor ends with whitespace |
| Text.StripPadding | waterbot/utils/command_parser.py:21 | padding of the stripped class added on either side is removed, for `strip()` and for the narrower class `int()` skips |
| Text.StripIdempotent | waterbot/utils/command_parser.py:21 | stripping twice is stripping once |
| Text.LowerStrip | waterbot/utils/command_parser.py:21 | lower-casing commutes with stripping |
| Text.LowerIdempotent | waterbot/utils/command_parser.py:21 | lower-casing twice is lower-casing once |
| Text.Sort | waterbot/config.py:111 | `list.sort()` on strings, as an insertion sort; its properties are `SortFacts` and `AscendingUnique` |
| Text.SortFacts | waterbot/config.py:110-111 | `list.sort()` leaves the list ascending in Python string order and holding the same elements |
| Text.AscendingUnique | waterbot/config.py:111 | two ascending arrangements of the same strings are equal, so the sorted list is determined by its contents |
| Text.LessTransitive | waterbot/config.py:111 | Python's `<` on strings is transitive |
| Text.RemoveFirst | waterbot/config.py:133 | `list.remove(x)` takes out exactly one copy of `x`, when present |
| Text.RemoveFirstSubsequence | waterbot/config.py:133 | removing a time from a strictly ascending list keeps it strictly ascending |
| Text.NatToStringRoundTrip | waterbot/utils/command_parser.py:89 | a number written in decimal is non-empty digits that `int()` reads back as the number |
| Config.DropUnderscores | waterbot/config.py:43 | dropping the underscores `int()` allows leaves only digits, and changes nothing in a digit string |
| Config.ParseInt | waterbot/config.py:43 | `int(value)`: a result comes only from a non-empty signed or unsigned digit run once the padding `int()` skips is removed, and is negative only after a minus sign |
| Config.ParseIntRoundTrip | waterbot/config.py:43 | `int()` reads back what `str()` wrote, surrounded by any whitespace `int()` skips (ASCII blanks and non-ASCII spaces, not U+001C to U+001F) |
| Config.IntSpaceOnly | waterbot/config.py:42-46 | a value padded with a no-break space is read, one padded with U+001C is refused (and its entry skipped), although both count as `str.isspace()` |
| Config.ParseIntRefuses | waterbot/config.py:43 | a value whose first character is not skipped padding, a sign or a digit is refused by `int()` |
| Config.ParseStrippedRoundTrip | waterbot/config.py:43 | `int()` on an unpadded `str(n)` gives `n`, negative numbers included |
| Config.LoadDeviceRegistry | waterbot/config.py:37-46 | the loop over the environment builds exactly `RegistryOf(env)`: the registry of well-formed entries, in insertion order |
| Config.RegistryOf | waterbot/config.py:37-46 | the registry lists every name once in its order, and its order holds exactly the registered names |
| Config.RegistryMembership | waterbot/config.py:39-44 | a name is registered exactly when some `DEVICE_` entry lower-cases to it and its value parses as an int |
| Config.RegistryLastWins | waterbot/config.py:43-44 | a name re-registered later takes the pin of its last valid entry |
| Config.RegistryNamesLower | waterbot/config.py:41 | every registered name is already lower case |
| Config.ValidateConfig | waterbot/config.py:166-186 | success exactly when there is a device and, outside offline mode, all three credentials are set; the bot token is checked first |
| Config.TimeFormatOk | waterbot/config.py:100 | `re.match(r"^\d{2}:\d{2}$", time)`: two ASCII digits, a colon, two digits, and at most one final newline; its property is `FormatOnly` |
| Config.FormatOnly | waterbot/config.py:100 | the store checks only the shape `dd:dd` (with an optional final newline), not the ranges |
| Config.AddEntry | waterbot/config.py:103-111 | the table edit of `add_schedule` once its checks pass; its properties are `AddEntryFacts`, `AddEntryFrame` and `AddPreservesCanonical` |
| Config.AddEntryFacts | waterbot/config.py:103-111 | after adding, the time is listed; a new time lands in an ascending list holding the old times plus this one |
| Config.AddEntryFrame | waterbot/config.py:103-111 | adding changes no list but the one under the device and action |
| Config.RemoveEntry | waterbot/config.py:128-140 | the table edit of `remove_schedule`, with pruning; its properties are `RemoveEntryFacts`, `RemoveEntryFrame`, `RemoveEntryPrunes` and `RemovePreservesCanonical` |
| Config.RemoveEntryFacts | waterbot/config.py:128-140 | removing an absent entry changes nothing; otherwise exactly one copy leaves its list |
| Config.RemoveEntryFrame | waterbot/config.py:128-140 | removing changes no list but the one under the device and action |
| Config.RemoveEntryPrunes | waterbot/config.py:135-140 | an emptied action list and an emptied device map are deleted |
| Config.AddPreservesCanonical | waterbot/config.py:103-111 | adding keeps every list sorted without duplicates and nothing empty |
| Config.RemovePreservesCanonical | waterbot/config.py:128-140 | removing keeps every list sorted without duplicates and nothing empty |
| Config.SortInsertStrict | waterbot/config.py:109-111 | appending a new time and sorting keeps a list strictly ascending |
| Config.InsertThenRemove | waterbot/config.py:109-133 | removing a time just inserted into a sorted list gives the list back |
| Config.RemoveThenInsert | waterbot/config.py:109-133 | inserting a time just removed from a sorted list gives the list back |
| Config.RemoveAfterAdd | waterbot/config.py:83-144 | `remove_schedule` undoes `add_schedule` of a new entry on a tidy table |
| Config.RemoveAfterPut | waterbot/config.py:128-140 | removing the time from a list that held it beside the old times restores the table |
| Config.AddAfterRemove | waterbot/config.py:83-144 | `add_schedule` undoes `remove_schedule` of a listed entry on a tidy table |
| Config.ScheduleStore.constructor | waterbot/config.py:52-69 | the store starts from the loaded table, with nothing saved |
| Config.ScheduleStore.Save | waterbot/config.py:72-80 | the table is handed to the writer unchanged, and the result is whether the write succeeded |
| Config.ScheduleStore.AddSchedule | waterbot/config.py:83-114 | False without change for an unknown device, a bad action or a bad time; True without saving for a duplicate; otherwise the entry is added, the table saved and the save's result returned; tidiness is kept |
| Config.ScheduleStore.RemoveSchedule | waterbot/config.py:117-144 | False without change for an unlisted entry; otherwise one copy is removed, empty nodes pruned, the table saved and the save's result returned |
| Config.ScheduleStore.GetSchedules | waterbot/config.py:147-158 | a non-empty name gives that device's action map (empty if unknown), anything else the whole table |
| GpioInterface.SetupPinFacts | waterbot/gpio/interface.py:86-89 | after `setup` the pin is set up and low; other pins keep level and set-up state; the mock logs the call |
| GpioInterface.WritePinFacts | waterbot/gpio/interface.py:91-95 | `output` raises exactly for a pin never set up; otherwise only that pin changes level and the mock logs the call |
| GpioInterface.ReleaseFacts | waterbot/gpio/interface.py:105-108 | after `cleanup` every pin reads low, the emulation has no pin set up, and the mock keeps its logs |
| GpioInterface.ReleaseIdempotent | waterbot/gpio/interface.py:105-108 | cleaning up twice is cleaning up once |
| GpioInterface.EmulationGpio.constructor | waterbot/gpio/interface.py:81-84 | no pin levels and no pins set up |
| GpioInterface.EmulationGpio.Setup | waterbot/gpio/interface.py:86-89 | records the mode and sets the pin low, as `SetupPin` says |
| GpioInterface.EmulationGpio.Output | waterbot/gpio/interface.py:91-95 | fails without change for a pin not set up, otherwise sets its level, as `WritePin` says |
| GpioInterface.EmulationGpio.GetPinState | waterbot/gpio/interface.py:97-99 | the recorded level, False when none is recorded |
| GpioInterface.EmulationGpio.GetSetupPins | waterbot/gpio/interface.py:101-103 | the set-up pins with their modes, and so exactly the pins that `output` accepts |
| GpioInterface.EmulationGpio.Cleanup | waterbot/gpio/interface.py:105-108 | both maps are emptied, as `Release` says |
| GpioInterface.MockGpio.constructor | waterbot/gpio/interface.py:114-119 | empty logs, no cleanup yet, no pin levels |
| GpioInterface.MockGpio.Setup | waterbot/gpio/interface.py:121-124 | appends the call to the log and sets the pin low |
| GpioInterface.MockGpio.Output | waterbot/gpio/interface.py:126-129 | never fails; appends the call and sets the level |
| GpioInterface.MockGpio.GetPinState | waterbot/gpio/interface.py:131-133 | the recorded level, False when none is recorded |
| GpioInterface.MockGpio.Cleanup | waterbot/gpio/interface.py:135-138 | notes the call and forgets the levels, keeping both logs |
| GpioInterface.Driver.Setup | waterbot/gpio/interface.py:10-13 | whichever driver is behind the handle does `SetupPin` |
| GpioInterface.Driver.Output | waterbot/gpio/interface.py:15-18 | whichever driver is behind the handle does `WritePin`, reporting whether it raised |
| GpioInterface.Driver.Cleanup | waterbot/gpio/interface.py:20-23 | whichever driver is behind the handle does `Release` |
| Handler.Switch | waterbot/gpio/handler.py:53-113 | `turn_on`/`turn_off` on a snapshot of the controller; its properties are `SwitchFacts`, `SwitchWritten`, `SwitchRaised`, `LatestCommandWins` and `TimerReverses` |
| Handler.SwitchAll | waterbot/gpio/handler.py:119-133 | the loop of `turn_all_on`/`turn_all_off` on a snapshot; its properties are `SwitchAllRaises`, `SwitchAllEffect` and `SwitchAllStops` |
| Handler.SetUpAll | waterbot/gpio/handler.py:43-49 | the loop of `_setup_devices` on the driver's pins; its properties are `SetUpAllLevels` and `SetUpAllLog` |
| Handler.SwitchFacts | waterbot/gpio/handler.py:53-113 | an unknown device gives False and changes nothing; a pin not set up raises after the old timer is dropped; otherwise the pin is written, the status recorded and the new timer armed |
| Handler.SwitchWritten | waterbot/gpio/handler.py:59-82 | the full new state of a switch whose pin write goes through |
| Handler.SwitchRaised | waterbot/gpio/handler.py:59-67 | the full new state of a switch whose pin write raises |
| Handler.FireTimer | waterbot/gpio/handler.py:74-79 | a timer fires exactly when one is pending and not cancelled |
| Handler.LatestCommandWins | waterbot/gpio/handler.py:59-79 | a second switch of a device leaves the status, timer and pin levels that it alone would leave |
| Handler.TimerReverses | waterbot/gpio/handler.py:74-79 | the timer armed by a truthy timeout performs the opposite switch and leaves no timer behind |
| Handler.NoTimeoutNoTimer | waterbot/gpio/handler.py:74 | without a truthy timeout no timer is pending afterwards |
| Handler.SwitchAllRaises | waterbot/gpio/handler.py:119-133 | the loop over all devices raises exactly when one of their pins is not set up |
| Handler.SwitchAllEffect | waterbot/gpio/handler.py:119-133 | with every pin set up, the loop returns True and switches every listed device, leaving the others alone |
| Handler.SwitchAllStops | waterbot/gpio/handler.py:119-133 | once a switch raises, the rest of the loop does not run |
| Handler.SetUpAllLevels | waterbot/gpio/handler.py:43-49 | after set-up every registered pin is set up and low |
| Handler.SetUpAllLog | waterbot/gpio/handler.py:43-49 | on the mock, set-up logs one `setup(pin, "OUT")` and one `output(pin, False)` per device, in registry order |
| Handler.CleanedUp | waterbot/gpio/handler.py:135-150 | after cleanup every timer is cancelled, every device is off and every pin is low |
| Handler.CleanupDisarms | waterbot/gpio/handler.py:137-140 | after cleanup no timer can fire |
| Handler.EmulationRefusesAfterCleanup | waterbot/gpio/handler.py:135-148 | after cleanup the emulation driver makes every switch of a registered device raise |
| Handler.DeviceController.constructor | waterbot/gpio/handler.py:16-28 | every device starts off with no timer, and the driver has done the set-up sequence |
| Handler.DeviceController.SetUpDevices | waterbot/gpio/handler.py:43-49 | status all off, no timers, and the driver set up as `SetUpAll` says |
| Handler.DeviceController.SetUpDevice | waterbot/gpio/handler.py:45-49 | one device: setup and write low, status off, no timer |
| Handler.DeviceController.TurnOn | waterbot/gpio/handler.py:53-82 | the new state and outcome are `Switch(..., on = true, ...)` |
| Handler.DeviceController.TurnOff | waterbot/gpio/handler.py:84-113 | the new state and outcome are `Switch(..., on = false, ...)` |
| Handler.DeviceController.SwitchDevice | waterbot/gpio/handler.py:53-113 | the shared body of both: the new state and outcome are `Switch` |
| Handler.DeviceController.DropTimer | waterbot/gpio/handler.py:61-63 | the device's timer slot is emptied and nothing else changes |
| Handler.DeviceController.ArmTimer | waterbot/gpio/handler.py:74-79 | the device's timer slot holds the timer for this timeout |
| Handler.DeviceController.Fire | waterbot/gpio/handler.py:74-79 | a pending timer does `FireTimer`; otherwise nothing changes |
| Handler.DeviceController.GetStatus | waterbot/gpio/handler.py:115-117 | a copy equal to the status map, with exactly the registered devices as keys |
| Handler.DeviceController.TurnAllOn | waterbot/gpio/handler.py:119-125 | the new state and outcome are `SwitchAll` over the registry order, switching on |
| Handler.DeviceController.TurnAllOff | waterbot/gpio/handler.py:127-133 | the new state and outcome are `SwitchAll` over the registry order, switching off |
| Handler.DeviceController.SwitchEach | waterbot/gpio/handler.py:119-133 | the shared loop: the new state and outcome are `SwitchAll` |
| Handler.DeviceController.Cleanup | waterbot/gpio/handler.py:135-150 | the new state is `CleanedUp` of the old |
| Handler.DeviceController.CancelTimers | waterbot/gpio/handler.py:137-140 | every pending timer is cancelled and stays in its slot |
| Handler.DeviceController.MarkAllOff | waterbot/gpio/handler.py:143-144 | every device's status is off |
| JobLibrary.JobTable.constructor | waterbot/scheduler.py:29 | an empty job table |
| JobLibrary.JobTable.Clear | waterbot/scheduler.py:29 | `schedule.clear()` empties the table |
| JobLibrary.JobTable.Register | waterbot/scheduler.py:89 | a job is appended exactly when the library accepts the time, with a fresh id and its next run |
| JobLibrary.JobTable.Cancel | waterbot/scheduler.py:127 | `cancel_job` removes that job and keeps the ids fresh |
| JobLibrary.RemoveFirstFresh | waterbot/scheduler.py:127 | removing a job keeps the ids increasing and below the next one |
| Scheduler.ParsesAsClock | waterbot/scheduler.py:49 | `datetime.strptime(time, "%H:%M")` succeeds; its properties are `HourRange`, `MinuteRange` and `StoreTimeParses` |
| Scheduler.HourRange | waterbot/scheduler.py:49 | the `%H` pattern accepts one or two digits exactly when their value is at most 23 |
| Scheduler.MinuteRange | waterbot/scheduler.py:49 | the `%M` pattern accepts one or two digits exactly when their value is at most 59 |
| Scheduler.StoreTimeParses | waterbot/scheduler.py:49 | a stored time parses exactly when it has no newline and its hour and minute are in range |
| Scheduler.StoreOutrunsClock | waterbot/scheduler.py:49 | "25:00" and "07:30" plus newline pass the store's check but not `strptime`; "07:30" and "7:30" parse |
| Scheduler.ScheduledCount | waterbot/scheduler.py:38-39 | scheduling a list of times registers each schedulable time once per occurrence |
| Scheduler.ExpectedElsewhere | waterbot/scheduler.py:106-133 | a change confined to one list leaves what every other entry asks for |
| Scheduler.ExpectedAfterAdd | waterbot/scheduler.py:106-114 | a new table entry asks for one more live record, for that entry only |
| Scheduler.ExpectedAfterRemove | waterbot/scheduler.py:116-133 | removing a listed entry asks for one record fewer, for that entry only |
| Scheduler.ConsistentAfterAdd | waterbot/scheduler.py:106-114 | adding a new entry and registering its job keeps the records in step with the table |
| Scheduler.ConsistentAfterRemove | waterbot/scheduler.py:116-133 | removing an entry and its first record keeps the records in step with the table |
| Scheduler.FirstMatch | waterbot/scheduler.py:121-130 | the index of the first record for an entry, or None when no record matches |
| Scheduler.KeysRemoveAt | waterbot/scheduler.py:128 | dropping one record drops its entry from the list of entries, once |
| Scheduler.RemoveFirstAt | waterbot/scheduler.py:127-128 | with distinct jobs, cancelling the job at index i removes index i |
| Scheduler.PendingMembership | waterbot/scheduler.py:137-149 | the upcoming runs are exactly the records whose job has a next run |
| Scheduler.SortByNextRun | waterbot/scheduler.py:152 | `sort(key=next_run)`, as an insertion sort; its properties are `SortByNextRunSorted` and `SortByNextRunStable` |
| Scheduler.SortByNextRunSorted | waterbot/scheduler.py:152 | sorting by next run gives non-decreasing next runs |
| Scheduler.SortByNextRunStable | waterbot/scheduler.py:152 | the sort is a permutation that keeps the order of runs with equal next run |
| Scheduler.InsertKeepsOrder | waterbot/scheduler.py:152 | one insertion step keeps the order of runs with equal next run |
| Scheduler.InsertKeepsEntries | waterbot/scheduler.py:152 | one insertion step adds exactly the inserted run |
| Scheduler.DeviceScheduler.constructor | waterbot/scheduler.py:20-24 | not running, no records, no notifications |
| Scheduler.DeviceScheduler.ScheduleDeviceAction | waterbot/scheduler.py:43-104 | a time that parses and that the library accepts adds one record and one job; any other time changes nothing |
| Scheduler.DeviceScheduler.ScheduleTimes | waterbot/scheduler.py:38-39 | the records gain exactly the schedulable times of the list |
| Scheduler.DeviceScheduler.ScheduleDevice | waterbot/scheduler.py:37-39 | the records gain, per entry of the device, as many as the table lists when it can be scheduled |
| Scheduler.DeviceScheduler.SetupSchedules | waterbot/scheduler.py:26-41 | disabled: no records and no jobs; enabled: records and jobs consistent with the table |
| Scheduler.DeviceScheduler.AddSchedule | waterbot/scheduler.py:106-114 | True exactly when the store accepts; the table is updated as the store says; on True with a time that parses, exactly one record with the library's new handle is appended at the end, otherwise the records are unchanged; consistency is kept when the add is refused or stores a new entry and saves, and is broken by a duplicate or a failed save |
| Scheduler.DeviceScheduler.FindJob | waterbot/scheduler.py:121-126 | the first matching record, as `FirstMatch` says |
| Scheduler.DeviceScheduler.RemoveSchedule | waterbot/scheduler.py:116-133 | the first matching record and its job go, the store removes the entry, and consistency is kept |
| Scheduler.DeviceScheduler.DropRecord | waterbot/scheduler.py:127-128 | the record at i and its job leave both lists |
| Scheduler.DeviceScheduler.RunJob | waterbot/scheduler.py:62-86 | "on"/"off" switch the device as `Switch` says and notify success or failure; another action does nothing |
| Scheduler.DeviceScheduler.GetNextRuns | waterbot/scheduler.py:135-153 | the upcoming runs, sorted by next run, a permutation of them, stable among equal next runs |
| Scheduler.DeviceScheduler.Start | waterbot/scheduler.py:155-174 | already running or disabled: nothing changes; otherwise running, with records consistent with the table |
| Scheduler.DeviceScheduler.Stop | waterbot/scheduler.py:189-206 | not running: nothing changes; otherwise stopped, with no records and no jobs |
| CommandParser.Plus | waterbot/utils/command_parser.py:38 | a greedy `\s+`, `\w+` or `\d+`: a non-empty run of the class followed by a character outside it, or None |
| CommandParser.MatchScheduleFor | waterbot/utils/command_parser.py:38 | a match yields a `\w` word |
| CommandParser.MatchForDevice | waterbot/utils/command_parser.py:38 | the `for\s+(\w+)` part of the query pattern: a match yields a `\w` word |
| CommandParser.MatchEntry | waterbot/utils/command_parser.py:46 | a match yields a word, "on" or "off", and a `dd:dd` time |
| CommandParser.MatchSwitch | waterbot/utils/command_parser.py:81 | a match yields a word and, when the group matched, non-empty digits |
| CommandParser.ForCommand | waterbot/utils/command_parser.py:39-43 | a query for a registered device, or the unknown-device error |
| CommandParser.EntryCommand | waterbot/utils/command_parser.py:47-57 | unknown device: error; time out of range: help; otherwise the entry |
| CommandParser.OnCommand | waterbot/utils/command_parser.py:82-90 | unknown device: error; otherwise on, for the minutes given (or the default) in seconds |
| CommandParser.OffCommand | waterbot/utils/command_parser.py:93-101 | unknown device: error; otherwise off, with no timeout |
| CommandParser.Parse | waterbot/utils/command_parser.py:12-108 | `parse_command(text)`: never None; every result is sound, and `all_on`/`all_off` come only from texts that strip and lower-case to "on all"/"off all" |
| CommandParser.Classify | waterbot/utils/command_parser.py:23-108 | every result is sound: registered devices, valid actions, in-range times, timeouts in whole minutes, errors naming unregistered words; `all_on`/`all_off` only for those exact texts |
| CommandParser.ScheduleOrRest | waterbot/utils/command_parser.py:37-71 | the schedule part of the cascade yields only sound results |
| CommandParser.SwitchOrRest | waterbot/utils/command_parser.py:73-108 | the switch part of the cascade yields only sound results |
| CommandParser.ParseIgnoresPadding | waterbot/utils/command_parser.py:21 | whitespace around a command does not change its meaning |
| CommandParser.ParseIgnoresCase | waterbot/utils/command_parser.py:21 | letter case does not change a command's meaning |
| CommandParser.PlusOf | waterbot/utils/command_parser.py:38 | a greedy run placed before a character outside its class takes exactly that run |
| CommandParser.EntryMatches | waterbot/utils/command_parser.py:46 | a written entry command matches with exactly its three groups, whatever follows |
| CommandParser.ScheduleIsNotQuery | waterbot/utils/command_parser.py:38 | a schedule command for a device other than "for" is not a schedule query |
| CommandParser.ForDeviceMatches | waterbot/utils/command_parser.py:38 | `for`, a space and a word followed by a non-word character match with exactly that word |
| CommandParser.QueryMatches | waterbot/utils/command_parser.py:38 | a written `schedule(s) for device` matches the query pattern with exactly that device |
| CommandParser.ScheduleRoundTrip | waterbot/utils/command_parser.py:46-57 | `schedule device action time` parses to that entry (or its error or help) |
| CommandParser.UnscheduleRoundTrip | waterbot/utils/command_parser.py:60-71 | `unschedule device action time` parses to that entry (or its error or help) |
| CommandParser.QueryRoundTrip | waterbot/utils/command_parser.py:38-43 | `schedule(s) for device` parses to that query or the unknown-device error |
| CommandParser.SwitchWithNumber | waterbot/utils/command_parser.py:81 | a written switch with a number matches with the device and the digits |
| CommandParser.SwitchAlone | waterbot/utils/command_parser.py:81 | a written switch without a number matches with no timeout group |
| CommandParser.OnRoundTrip | waterbot/utils/command_parser.py:81-90 | `on device n` turns the device on for n minutes, in seconds |
| CommandParser.OnDefaultRoundTrip | waterbot/utils/command_parser.py:81-90 | `on device` uses the default timeout, except that "on all" is the all-devices command |
| CommandParser.OffRoundTrip | waterbot/utils/command_parser.py:92-101 | `off device n` turns the device off with no timeout; the number is dropped |
| CommandParser.OffAloneRoundTrip | waterbot/utils/command_parser.py:92-101 | `off device` turns the device off, except that "off all" is the all-devices command |
| CommandParser.ExactWords | waterbot/utils/command_parser.py:24-35 | "status", "test", "time" and "ip" are their own commands |
| CommandParser.AllCommands | waterbot/utils/command_parser.py:74-78 | "on all" and "off all" switch every device for the default timeout |
| CommandParser.ListingPlural | waterbot/utils/command_parser.py:104-105 | "schedules" alone lists every schedule |
| CommandParser.ListingSingular | waterbot/utils/command_parser.py:104-105 | "schedule" alone lists every schedule |
| CommandParser.HelpFallback | waterbot/utils/command_parser.py:108 | unmatched text asks for help |
| CommandParser.ParsedTimeAccepted | waterbot/utils/command_parser.py:53-54 | a time the parser lets through has the store's shape, and its range check agrees with the scheduler's `strptime` |
| CommandParser.ParsedEntriesSchedulable | waterbot/utils/command_parser.py:46-71 | every schedule entry the parser returns can be stored and parsed by the scheduler |

## Left out

- Character classes: `\w`, `\d` and `str.lower()` are modelled on ASCII only. Python applies them to all of Unicode, as do `int()` and `strptime`, which also accept non-ASCII digits. Whitespace for `strip()` and `\s` is the full `str.isspace` set; for `int()` it is that set without U+001C to U+001F.
- Config.ParseInt: does not model Python's limit of 4300 digits on `int()` of a string (`sys.set_int_max_str_digits`). A longer value raises ValueError, so its entry is skipped at waterbot/config.py:42-46, and at waterbot/utils/command_parser.py:89 the exception escapes `parse_command`.
- Threads and locks: the controller's lock, the scheduler thread, the `_run_scheduler` loop, its `join(timeout=5)` and the `threading.Timer` threads are left out. A timer is a value in its slot, and `Fire` runs it.
- The race between a timer firing and being cancelled is left out. `Fire` acts only on a pending, uncancelled timer.
- Discord notifications (`_send_discord_notification`) are a log of (device, action, success) entries. The message sending and its event loop are not modelled.
- `HardwareGPIO` and `_initialize_gpio` are not modelled: they need the RPi.GPIO library. The controller is always given a driver.
- The module-level singletons (`_controller`, `get_scheduler`, the wrapper functions) are left out. They only forward to the class methods.
- Dictionary iteration order of the schedule table is not modelled. `setup_schedules` is specified by how many records each entry gets, not by their order. The registry's insertion order is modelled, because `turn_all_*` and set-up follow it.
- File and environment I/O are parameters. The JSON load, `load_dotenv` and `os.environ` give the loaded table and the entry list. `save_schedules` is an oracle boolean passed to each call.
- `get_schedules` returns copies that share inner lists with the table. That aliasing is not modelled: the result is a value.
- The `schedule` library's internals are not modelled. Whether `at()` accepts a time is the parameter `accepts`, and a job's next run is the parameter `nextRunAt`. A next run is an int, not a `strftime` string; that string sorts in time order.
- `datetime.now()` is left out. It only feeds a log message.
- `turn_all_on`/`turn_all_off` with a device missing from the registry cannot happen. They loop over the registry itself.
- Logging is not modelled.
- Scheduler.DeviceScheduler.SetupSchedules: the per-entry counts are stated, not the order in which records are appended. That order follows the dict iteration left out above.

