# desk: battery, sound and surface daemons in Dafny

This project models the core of *desk*, a set of small Linux desktop
daemons written in C. It covers:

- **powermon**: watches the UPower batteries on the system bus and sends a
  "Low battery" desktop notification. It closes the notification once the
  battery stops discharging. There are two variants. The `bin` variant
  aborts on any bus error. The `daemon` variant propagates errors with the
  `SD_TRY`/`SD_TRY_GOTO` macros. These re-evaluate a failing call: `SD_TRY`
  makes it three times (test, log message, return value) and
  `SD_TRY_GOTO` twice (test, log message). The model keeps every repeat.
- **the shared headers**: the UPower enumeration (`upower.h`), the
  freedesktop Notify call (`notify.h`), the logger (`log.h`) and the
  utility macros (`macros.h`).
- **usound and soundmon**: these follow PipeWire audio nodes. They keep a
  list of sink/source devices with their volume and mute state, and export
  each device as a D-Bus object under an encoded object path.
- **sinit**: the surface bookkeeping of the small Wayland toolkit (`sinit.c`).
  It covers XDG toplevel and layer-shell surfaces, their configure/ack
  cycle, shared-memory buffers that are resized on demand, and frame
  callbacks that drive rendering.

Outgoing library calls are modelled as ghost logs of requests or actions
kept on the objects that make them. These are D-Bus calls, Wayland
requests, `mmap`/`munmap`, and PipeWire bindings. Incoming events and
library replies are method parameters. A reply is `Reply<T>`, either
`Ok(value)` or `Fail(errno)`. Values that the C code updates in place are
Dafny classes with `modifies` frames. These are the battery records, the
powermon state, the device lists and the surface. Each such method is
specified by a pure step function (`View() == AfterX(old(View()), …)`),
and the properties are lemmas about those functions.

Modules:

- `Common`: 32-bit integer types, C casts, `Errno`, `Option`, `Reply`.
- `Macros`: `VERCMP`, `ALEN`, `STRLEN`.
- `Log`: log classes, routing to stderr and syslog, level parsing.
- `UPower`: device state and level codes, battery enumeration.
- `Notify`: the Notify call and the notification id.
- `Battery`: battery snapshots, property-change application, and the
  low/close decision shared by both powermon variants.
- `PowerMonBin` and `PowerMonDaemon`: the two powermon programs.
- `ObjectPath`: object path encoding.
- `Audio`: node properties, volume and mute state, the changed-property list.
- `USound` and `SoundMon`: the two PipeWire daemons.
- `Sinit`: the Wayland surface.

## Model

| member | source | states |
|---|---|---|
| Common.AsInt32 | src/notify.h:38-40 | reading a `uint32_t` as a signed `int` keeps values below 2^31 and subtracts 2^32 from the rest |
| Macros.VerCmp | src/macros.h:8 | the check holds exactly when (cx, cy) is not lexicographically below (x, y) |
| Macros.VerCmpIsLexGe | src/macros.h:8 | `VERCMP(x, y, cx, cy)` holds exactly when version (cx, cy) is not lexicographically below (x, y) |
| Macros.VerCmpReflexive | src/macros.h:8 | every version satisfies its own requirement |
| Macros.VerCmpMajorDecides | src/macros.h:8 | a larger major version always satisfies the check, and a smaller one never does, whatever the minors |
| Macros.VerCmpTotalOrder | src/macros.h:8 | `VERCMP` is a total order on (major, minor) pairs: total, transitive and antisymmetric |
| Macros.Alen | src/macros.h:215 | `sizeof(arr) / sizeof(arr[0])` is the element count for any positive element size |
| Macros.StrLen | src/macros.h:6 | `sizeof(lit) - 1` is the length of a string literal, whose storage holds one more byte for the NUL |
| Log.Ord | src/log.h:30-37 | the log classes are numbered 0 to 4 |
| Log.FromOrd | src/log.h:30-37 | every number below 5 names exactly one class |
| Log.SyslogEquivalent | src/log.h:105-111 | only the `none` class maps to a negative syslog priority |
| Log.ParseLevel | src/log.h:105-111 | a string parses exactly when it is one of the five level names, and then to the level of that name |
| Log.ParseName | src/log.h:259-268 | parsing a level's own name yields that level |
| Log.LevelFromString | src/log.h:259-268 | the loop returns -1 exactly for unknown strings, including the empty one, and otherwise the table index holding that exact name |
| Log.Route | src/log.h:159-207 | an out-of-range class is a bug; a message reaches stderr iff its class is at most the threshold, and syslog iff syslog is on as well |
| Log.SilentAtNone | src/log.h:165-166 | at level `none` no valid message is written anywhere |
| Log.RouteMonotone | src/log.h:165-166 | raising the threshold never silences a message that was shown, and does not change whether it goes to syslog |
| Log.CText | src/log.h:134 | the text a C reader sees is the prefix of the string before its first NUL, and holds no NUL |
| Log.NoColor | src/log.h:132-134 | `NO_COLOR` counts exactly when it is set and its C text is not empty: set and non-empty disables colour, unset or empty never does |
| Log.Logger.constructor | src/log.h:96-98 | the logger starts uncoloured, without syslog, at level `none` |
| Log.Logger.Init | src/log.h:125-152 | colour is on for `always`, or for `auto` on a terminal without `NO_COLOR`; syslog is opened, with the level's priority, iff requested and the level is not `none` |
| Log.Logger.Routes | src/log.h:159-207 | a running logger only ever writes to syslog when syslog was enabled at init |
| Log.Logger.LogFatal | src/log.h:234-240 | a fatal message is routed as an error-class message, shown on stderr unless the level is `none`, and ends in an abort |
| UPower.StateCode | src/bin/powermon/upower.h:14-22 | device states are numbered 0 to 6 |
| UPower.StateOf | src/bin/powermon/upower.h:14-22 | exactly the codes 0 to 6 denote a state |
| UPower.StateNumbering | src/bin/powermon/upower.h:14-22 | state codes and states are inverse mappings |
| UPower.LevelCode | src/bin/powermon/upower.h:60-68 | battery levels are numbered 0 to 6 |
| UPower.LevelOf | src/bin/powermon/upower.h:60-68 | exactly the codes 0 to 6 denote a level |
| UPower.LevelNumbering | src/bin/powermon/upower.h:60-68 | level codes and levels are inverse mappings |
| UPower.Constants | src/bin/powermon/upower.h:14-68 | discharging is state 2, a battery is device type 2, the low level is 2 and the critical level is 3 |
| UPower.IsBattery | src/bin/powermon/upower.h:96-99 | only a device whose `Type` read succeeded with the battery type counts as a battery; an unreadable one never does |
| UPower.Batteries | src/bin/powermon/upower.h:96-99 | the callback targets are a subset of the enumerated devices, all of them batteries |
| UPower.BatteriesAppend | src/bin/powermon/upower.h:85-100 | the batteries of two device lists are visited in order, first list first |
| UPower.BatteriesCount | src/bin/powermon/upower.h:96-99 | each battery is visited as many times as it is enumerated, and other devices never |
| UPower.NonBatterySkipped | src/bin/powermon/upower.h:96-99 | a device that is not a battery adds no callback |
| UPower.FirstTypeFailure | src/bin/powermon/upower.h:89-94 | locates the first device whose `Type` cannot be read, with all earlier reads succeeding |
| UPower.ForAllBatteries | src/bin/powermon/upower.h:70-104 | a failed enumeration aborts before any callback; otherwise the callback runs on the batteries in order, stopping with an abort at the first unreadable `Type` |
| UPower.FirstFailureAt | src/bin/powermon/upower.h:89-94 | the first unreadable device is uniquely determined |
| Notify.OrEmpty | src/notify.h:38-40 | a NULL string field is sent as the empty string, and any other one as is |
| Notify.WireCall | src/notify.h:35-40 | the call carries the app, replace id, icon, title and body, with NULLs sent as "", no actions, no hints, and the timeout reinterpreted as a signed `int` |
| Notify.IdAfter | src/notify.h:46-49 | the stored id changes only when the call succeeded, no id was being replaced and the reply was read, and then it becomes the returned id |
| Notify.ReplaceKeepsId | src/notify.h:46-49 | replacing an existing notification never changes the stored id |
| Notify.Result | src/notify.h:41-54 | `notify` returns a negative value exactly when the bus call fails |
| Notify.Notify | src/notify.h:30-55 | sends the wire call, returns the bus result and updates the caller's id as `IdAfter` says |
| Battery.ApplyEntry | src/bin/powermon/main.c:104-133 | a changed property other than State, BatteryLevel and Percentage leaves the snapshot unchanged |
| Battery.ApplyAll | src/bin/powermon/main.c:97-136 | a failure is reported at the index of an entry of the changed-properties array |
| Battery.LastOccurrenceWins | src/bin/powermon/main.c:97-136 | after a fully read signal each tracked property holds its last value in the signal, or keeps the old one when it is absent |
| Battery.ApplyAllAppend | src/bin/powermon/main.c:97-136 | reading two batches of entries is reading the first and then the second |
| Battery.UntrackedEntryIgnored | src/bin/powermon/main.c:130-133 | an untracked entry anywhere in the array changes neither the result nor whether reading succeeds |
| Battery.Decide | src/bin/powermon/main.c:138-165 | a low notification is sent iff the battery discharges at level LOW or below 20%; an open notification is closed iff the battery is not discharging; nothing happens otherwise |
| Battery.IsLow | src/bin/powermon/main.c:140-141 | only a discharging battery is low; a discharging one below 20% or at level LOW always is; at 20% or more it is low only at level LOW |
| Battery.CriticalAloneIsNotLow | src/bin/powermon/main.c:140-141 | a critical level at 20% or more sends nothing |
| Battery.LowPercentageIsLow | src/bin/powermon/main.c:140-141 | a discharging battery below 20% always gets a low notification, replacing the current one |
| Battery.Record.constructor | src/bin/powermon/main.c:35-41 | a new battery record is zeroed and has no match slot |
| Battery.Record.ApplyEntries | src/bin/powermon/main.c:97-136 | the in-place loop leaves the record as `ApplyAll` says and reports the same failure index |
| Battery.ApplyAllStops | src/daemon/powermon/main.c:294-332 | reading stops at the first failing entry, and the entries read before it stay applied |
| Battery.StoppedStaysStopped | src/daemon/powermon/main.c:294-332 | entries after a failure have no effect |
| Battery.LowBatteryNotification | src/bin/powermon/main.c:143-148 | the notification is titled "Low battery", never expires, replaces the current id and carries one urgency hint |
| PowerMonBin.HandleSignal | src/bin/powermon/main.c:76-171 | the shared id changes only from 0, and then on a successful notify that returns normally; an abort only comes from a Device-interface signal; a signal makes at most one call |
| PowerMonBin.OtherInterfaceIgnored | src/bin/powermon/main.c:89-91 | a signal for another interface changes nothing and makes no call |
| PowerMonBin.SendOrCloseRule | src/bin/powermon/main.c:138-165 | after a readable Device signal exactly one call is made iff the decision is not `NoAction`: a Notify replacing the current id for a low battery, or a close of the current id |
| PowerMonBin.ReplaceKeepsSharedId | src/bin/powermon/main.c:155-157 | once a notification is shown, later signals keep replacing that same id |
| PowerMonBin.CloseRepeats | src/bin/powermon/main.c:159-164 | the id is not cleared after closing, so every further non-discharging signal closes the same id again |
| PowerMonBin.DecisionWithoutTrackedKeys | src/bin/powermon/main.c:138-165 | a signal with no tracked key keeps the snapshot but still re-runs the decision, and may notify or close |
| PowerMonBin.WatchSucceeds | src/bin/powermon/main.c:184-216 | a watch succeeds only when the three initial reads and the match registration all do |
| PowerMonBin.InitialSnapshot | src/bin/powermon/main.c:184-210 | a watched battery starts with the percentage, level and state read at start |
| PowerMonBin.Matches | src/bin/powermon/main.c:213-216 | one registered match per watched battery, in order, on its path and with its initial readings |
| PowerMonBin.CallsArePrefix | src/bin/powermon/upower.h:84-101 | the callback runs are a prefix of the enumerated batteries, and all of them when the enumeration completes |
| PowerMonBin.WalkVerdict | src/bin/powermon/upower.h:84-101 | the walk returns normally iff the enumeration completes and every battery's watch succeeds, and then the callbacks ran on exactly the batteries |
| PowerMonBin.Releases | src/bin/powermon/main.c:328-332 | releasing a list of batteries makes one action per battery |
| PowerMonBin.ReleasesInOrder | src/bin/powermon/main.c:328-332 | the j-th release frees the slot of the j-th battery in the list |
| PowerMonBin.PowerMon.constructor | src/bin/powermon/main.c:46-52 | the program starts with no battery, id 0 and no action |
| PowerMonBin.PowerMon.OnBatteryChanged | src/bin/powermon/main.c:76-171 | updates the record and the shared id as `HandleSignal` says, leaving the battery list and match slot alone |
| PowerMonBin.PowerMon.WatchBattery | src/bin/powermon/main.c:174-221 | appends a fresh record, seeded from the initial reads, and returns normally only if every read and the match succeed |
| PowerMonBin.PowerMon.WatchAll | src/bin/powermon/main.c:322 | only appends records; the batteries watched are a prefix of the enumerated ones, each with its record and its match, in order; it returns normally iff enumeration, every `Type` read and every watch succeed, and then every battery was watched |
| PowerMonBin.PowerMon.WatchEach | src/bin/powermon/upower.h:84-101 | watches the devices in order up to the first failing watch, leaving one record and one match per successful watch, and aborts exactly at that device |
| PowerMonBin.PowerMon.Shutdown | src/bin/powermon/main.c:328-332 | releases each battery's slot in list order and empties the list |
| PowerMonDaemon.HandleSignal | src/daemon/powermon/main.c:275-367 | a signal for another interface changes nothing and makes no call; the shared id changes only from 0; a signal makes at most two calls |
| PowerMonDaemon.FailsOnlyOnUnreadableEntry | src/daemon/powermon/main.c:294-332 | the handler fails exactly when an entry of a Device signal cannot be read, and then it makes no call |
| PowerMonDaemon.FailedNotifySentTwice | src/daemon/powermon/main.c:353-355 | a failing Notify is made twice by `SD_TRY_GOTO`, with the same arguments; the id is what the second call leaves, and an id already shown is kept; the handler still returns success |
| PowerMonDaemon.RetriedNotifyCapturesId | src/daemon/powermon/main.c:353-355 | with no notification shown, when the first Notify fails and the second succeeds, the id that second call returns is stored |
| PowerMonDaemon.FailedCloseSentTwice | src/daemon/powermon/main.c:358-361 | a failing close is made twice by `SD_TRY_GOTO` and the handler still returns success |
| PowerMonDaemon.AgreesWithAbortingVariant | src/daemon/powermon/main.c:275-367 | without bus errors the daemon updates the record and id like the aborting variant and makes the same calls, up to the application name |
| PowerMonDaemon.WatchCode | src/daemon/powermon/main.c:219-273 | watching returns 0 exactly when every read and the match succeed, and a negative code otherwise |
| PowerMonDaemon.WatchedSnapshot | src/daemon/powermon/main.c:230-256 | a fully read battery starts like the aborting variant's record, and a battery whose first read fails stays zeroed |
| PowerMonDaemon.WatchedSlot | src/daemon/powermon/main.c:259-262 | a match slot is held exactly when watching succeeded |
| PowerMonDaemon.Walk | src/daemon/powermon/main.c:194-212 | the walk ends with a nonzero code only when some device's visit returned |
| PowerMonDaemon.Visit | src/daemon/powermon/main.c:199-210 | a visit returns exactly when the `Type` read fails or a battery's watch fails; a failing watch is run three times by `SD_TRY` and the third run's code is returned; otherwise a battery is watched once and other devices not at all |
| PowerMonDaemon.WalkStep | src/daemon/powermon/main.c:194-212 | the walk is the visit of the first device followed by the walk of the rest, stopping at the first failure |
| PowerMonDaemon.EnumerationCode | src/daemon/powermon/main.c:181-217 | a successful enumeration whose devices are all visited without a `return` yields 0 |
| PowerMonDaemon.WalkSucceeds | src/daemon/powermon/main.c:181-217 | the walk succeeds iff every type read and every battery watch succeed, and then it watched exactly the batteries, in order |
| PowerMonDaemon.WalkAppend | src/daemon/powermon/main.c:194-212 | after a successful prefix the walk of the rest continues from where it stopped |
| PowerMonDaemon.StopsAtFirstReturn | src/daemon/powermon/main.c:194-212 | the walk ends at the first visit that returns: the batteries before it were watched once each, then that visit's runs, and its code is returned; later devices are never visited |
| PowerMonDaemon.FailingBatteryWatchedThrice | src/daemon/powermon/main.c:206-208 | a battery whose watch fails is watched three times by `SD_TRY`, leaving three records, and the third run's code ends the walk; when that run succeeds the walk returns 0 with the later batteries never watched |
| PowerMonDaemon.Matches | src/daemon/powermon/main.c:259-262 | the daemon registers at most one match per watch run |
| PowerMonDaemon.MatchesAppend | src/daemon/powermon/main.c:194-212 | the matches of two successive stretches of runs are those of the first followed by those of the second |
| PowerMonDaemon.MatchesOfRuns | src/daemon/powermon/main.c:259-262 | when every run succeeds there is one match per run, in order, on its path and with the snapshot it left; when none does there is no match |
| PowerMonDaemon.CleanWalkMatchesAll | src/daemon/powermon/main.c:181-217 | a walk without a `return` watches every battery successfully and registers the same matches as the aborting variant |
| PowerMonDaemon.SlotsReleased | src/daemon/powermon/main.c:146-151 | releasing the records of a stretch of runs frees, run by run, the slot each run left |
| PowerMonDaemon.ReleasesAfterWalk | src/daemon/powermon/main.c:146-151 | after a walk, releasing every battery frees the old slots and then those of the walk's runs, in order |
| PowerMonDaemon.ExitCode | src/daemon/powermon/main.c:159 | the corrected exit code: success iff the last result is not negative |
| PowerMonDaemon.ExitCodeAsWritten | src/daemon/powermon/main.c:159 | the code as written exits with failure exactly where the corrected one succeeds |
| PowerMonDaemon.ExitCodeInverted | src/daemon/powermon/main.c:159 | a clean run exits with failure, and any error exits with success |
| PowerMonDaemon.LevelArgAsWritten | src/daemon/powermon/main.c:91-92 | an unknown `-l` argument stores -1 as the log level, unchecked |
| PowerMonDaemon.UnknownLevelOutsideMap | src/daemon/powermon/main.c:91-92 | that stored level lies outside the level table |
| PowerMonDaemon.LevelArg | src/bin/powermon/main.c:262-268 | the corrected parse rejects exactly the strings that are not level names, and otherwise yields the level with that name |
| PowerMonDaemon.PowerMon.constructor | src/daemon/powermon/main.c:108 | the daemon starts with no battery, id 0 and no action |
| PowerMonDaemon.PowerMon.OnBatteryChanged | src/daemon/powermon/main.c:275-367 | updates the record, the id and the calls as the daemon's `HandleSignal` says, with a failing call made a second time and the second Notify's answer stored, and reports its status |
| PowerMonDaemon.PowerMon.WatchBattery | src/daemon/powermon/main.c:219-273 | always appends a fresh record, with the snapshot and slot the reads leave, and returns `WatchCode` |
| PowerMonDaemon.PowerMon.ForAllBatteries | src/daemon/powermon/main.c:181-217 | returns `EnumerationCode` and appends one record per watch run the walk makes, in order, each with the snapshot and slot that run leaves; the actions gain exactly the matches of those runs |
| PowerMonDaemon.PowerMon.WalkAll | src/daemon/powermon/main.c:194-212 | the loop over the enumerated devices returns the walk's code, appends one record per run and gains exactly the matches of the runs |
| PowerMonDaemon.PowerMon.VisitDevice | src/daemon/powermon/main.c:199-210 | one loop iteration appends the records of one visit, keeps the earlier ones and gains exactly the matches of that visit's runs |
| PowerMonDaemon.PowerMon.VisitOnce | src/daemon/powermon/main.c:199-210 | a visit appends exactly the records its walk lists, and the actions gain exactly their matches |
| PowerMonDaemon.PowerMon.WatchAgain | src/daemon/powermon/main.c:206-208 | the second and third runs `SD_TRY` makes of a failing watch each append one record from their own replies, and the third run's code is returned; the actions gain the matches of those two runs |
| PowerMonDaemon.PowerMon.ReleaseAll | src/daemon/powermon/main.c:146-151 | releases each slot in list order and empties the list |
| PowerMonDaemon.PowerMon.WatchThenRelease | src/daemon/powermon/main.c:142-151 | watches every battery the walk reaches and then releases every slot: the actions are the walk's matches, the old batteries' releases, then the releases of the new records |
| PowerMonDaemon.PowerMon.Run | src/daemon/powermon/main.c:75-160 | the exit code reflects the setup error or the enumeration result, with the corrected polarity; the actions are the walk's matches (none when setup fails), then the release of every old and new battery in list order, and the list ends empty |
| ObjectPath.Encoded | src/daemon/usound/main.c:289-298 | encoding preserves the length |
| ObjectPath.EncodedAllowed | src/daemon/usound/main.c:289-298 | the encoded path has only letters, digits, `_` and `/`; allowed characters are kept and every other one becomes `_` |
| ObjectPath.EncodedFixedPoints | src/daemon/usound/main.c:289-298 | encoding changes a path iff it holds a forbidden character |
| ObjectPath.EncodedIdempotent | src/daemon/usound/main.c:289-298 | encoding twice is encoding once |
| ObjectPath.EncodedConcat | src/daemon/usound/main.c:289-298 | encoding works character by character, so it distributes over concatenation |
| ObjectPath.DevicePath | src/daemon/usound/main.c:348-350 | a device path is the base, `/devices/` and the encoded node name |
| ObjectPath.DevicePathKeepsPrefix | src/daemon/usound/main.c:348-350 | an allowed base survives encoding: the path is the base, `/devices/` and the encoded name, and holds only allowed characters |
| ObjectPath.EncodedSlashes | src/daemon/usound/main.c:289-298 | encoding keeps exactly the slashes of its input, where they were |
| ObjectPath.DevicePathValid | src/daemon/usound/main.c:348-350 | under a valid base other than "/", the device path is a valid D-Bus object path iff the node name is non-empty, neither starts nor ends with `/`, and holds no `//` |
| ObjectPath.DistinctNamesMayCollide | src/daemon/usound/main.c:348-350 | two different node names can map to the same object path |
| ObjectPath.NulIndex | src/daemon/usound/main.c:291 | the index of the first NUL |
| ObjectPath.EncodeObjectPath | src/daemon/usound/main.c:289-298 | the in-place loop encodes the string up to its NUL and leaves the NUL and everything after it alone |
| Audio.Lookup | src/daemon/usound/main.c:315-324 | a key lookup finds nothing iff the key is absent, and otherwise returns the value of the first item with that key |
| Audio.KindOf | src/daemon/usound/main.c:307-324 | a node is a sink or a source iff its properties are not empty and its first media class says so |
| Audio.FirstMediaClassDecides | src/daemon/usound/main.c:315-324 | once a media class is present, a later media class entry changes nothing about the kind |
| Audio.VideoNodeStaysOut | src/daemon/usound/main.c:315-324 | a node whose first class is "Video/Source" stays out whatever class entry follows |
| Audio.LookupAppend | src/daemon/usound/main.c:315 | appending items never changes the value found for a key already present |
| Audio.RequestsParams | src/daemon/usound/main.c:174-182 | parameters are re-read exactly when bit 4 of the change mask is set |
| Audio.CopiedChannels | src/daemon/usound/main.c:146-154 | at most 64 channel volumes are copied, as a prefix, and all of them when there are at most 64 |
| Audio.ApplyProp | src/daemon/usound/main.c:146-161 | a channel-volume property sets only the volume, a mute property only the mute flag, and any other key neither |
| Audio.ApplyProps | src/daemon/usound/main.c:136-163 | a param made only of skipped keys leaves the device as it was |
| Audio.ChangedNamesAsWritten | src/daemon/usound/main.c:129-161 | as written, one name per recognised property, in object order, with no bound, each the volume name or "Muted" |
| Audio.ChangedOverflow | src/daemon/usound/main.c:129-160 | three mute properties write "Muted" three times, the third into the NULL slot, and four write past the three-slot array |
| Audio.RecognisedAllWritten | src/daemon/usound/main.c:136-163 | every recognised property writes a slot |
| Audio.AsWrittenNames | src/daemon/usound/main.c:129-160 | every name written comes from a recognised property of that kind |
| Audio.AsWrittenWhenEachKeyOnce | src/daemon/usound/main.c:129-166 | for a param carrying each of channel volumes and mute at most once, the names written are the corrected list and fit the two slots |
| Audio.ChangedNames | src/daemon/usound/main.c:129-166 | the corrected list holds at most two distinct names, each the volume or "Muted" |
| Audio.ChangedNamesExact | src/daemon/usound/main.c:129-166 | the volume is reported iff the param carried channel volumes, and "Muted" iff it carried a mute property |
| Audio.Dedup | src/daemon/usound/main.c:129-166 | reference: keeps each element once, in the order of first occurrence |
| Audio.ChangedNamesDedup | src/daemon/usound/main.c:129-166 | the corrected list is the as-written one with repeated names dropped, so names keep the order they were first seen in |
| Audio.LastPropWins | src/daemon/usound/main.c:136-163 | after a param the mute flag and volume follow the last such property, or stay as they were |
| Audio.ApplyPropsAppend | src/daemon/usound/main.c:136-163 | applying two params is applying one and then the other |
| Audio.IndexOf | src/daemon/usound/main.c:103-117 | the first position of a listed device |
| Audio.Without | src/daemon/usound/main.c:103-117 | removal drops one occurrence of the device, and only that |
| Audio.WithoutDistinct | src/daemon/usound/main.c:103-117 | removing a device from a list without repeats leaves the others in order and drops the device entirely |
| Audio.Device.constructor | src/daemon/usound/main.c:339-340 | a new device has its id, names, kind and path, zero volume and is not muted |
| Audio.Device.ApplyParam | src/daemon/usound/main.c:119-172 | the in-place loop leaves the device as `ApplyProps` says and returns the corrected changed-property list |
| USound.Admit | src/daemon/usound/main.c:300-364 | a node is added iff it is a sink or source with a name and a description and the bind and the three exports succeed; nodes of other kinds are ignored |
| USound.DevicePathsUnderService | src/daemon/usound/main.c:348-350 | each device path starts with the service path and holds only allowed characters, and it is a valid object path iff the node name is non-empty, neither starts nor ends with `/` and holds no `//` |
| USound.Registry.constructor | src/daemon/usound/main.c:300 | the registry starts with no device and no event |
| USound.Registry.Track | src/daemon/usound/main.c:361 | appending a new device keeps the list free of repeats |
| USound.Registry.RegistryGlobal | src/daemon/usound/main.c:300-364 | admits the node as `Admit` says; an added node is appended with its encoded path after the bind and export calls, and nothing else is ever appended |
| USound.Registry.HandleNodeParam | src/daemon/usound/main.c:119-172 | only a Props param updates the device, as `ApplyProps` says, and emits one change signal with the corrected names |
| USound.Registry.OnInfoChanged | src/daemon/usound/main.c:174-182 | params are requested exactly when the change mask carries the PARAMS bit |
| USound.Registry.DeviceFree | src/daemon/usound/main.c:103-117 | freeing removes the device from the list and destroys its proxy; freeing NULL does nothing |
| USound.Registry.ProxyRemoved | src/daemon/usound/main.c:190-199 | the device's object is removed from the bus, its proxy destroyed and it leaves the list |
| USound.Registry.EnumerateDevices | src/daemon/usound/main.c:219-241 | the enumeration lists every device's path, in list order, each of allowed characters and a valid object path iff its node name is as `DevicePathValid` says |
| SoundMon.Admit | src/daemon/soundmon/main.c:381-440 | a node is added iff it is a sink or source with a name and a description and the bind succeeds; a failed bind is its own outcome, and other kinds are ignored |
| SoundMon.Registry.constructor | src/daemon/soundmon/main.c:381 | the registry starts with no device and no event |
| SoundMon.Registry.Track | src/daemon/soundmon/main.c:427 | appending a new device keeps the list free of repeats |
| SoundMon.Registry.RegistryGlobal | src/daemon/soundmon/main.c:381-440 | admits the node as `Admit` says; a failed bind adds no device; an added node is appended, with its encoded path, even when adding its vtable fails |
| SoundMon.Registry.HandleNodeParam | src/daemon/soundmon/main.c:251-304 | only a Props param updates the device, as `ApplyProps` says, and emits one change signal with the corrected names |
| SoundMon.Registry.OnInfoChanged | src/daemon/soundmon/main.c:306-314 | params are requested exactly when the change mask carries the PARAMS bit |
| SoundMon.Registry.ProxyRemoved | src/daemon/soundmon/main.c:322-326 | the device's proxy is destroyed and it leaves the list |
| SoundMon.SameDevicesAsUSound | src/daemon/soundmon/main.c:381-440 | when exporting succeeds both daemons add exactly the same nodes, and a failed bind stops both |
| Sinit.CreateBuffer | src/sinit.c:402-427 | an ARGB8888 buffer has four bytes per pixel |
| Sinit.MappedSize | src/sinit.c:404-412 | a surface without a buffer has nothing mapped; one whose buffer came from `create_wl_buffer` has four bytes per pixel mapped |
| Sinit.RegionSetup | src/sinit.c:552-557 | init sends region requests exactly for an opaque surface: first the region covering the requested size, last the opaque-region request; none of them maps memory or adds a callback |
| Sinit.ScaledBufferSize | src/sinit.c:436-437 | a buffer for a surface at scale f holds f^2 times the unscaled bytes |
| Sinit.AfterRequestFrame | src/sinit.c:507-512 | afterwards a frame callback is pending, and a second request changes nothing |
| Sinit.AfterRender | src/sinit.c:514-525 | a closed surface is never rendered; an open one records the frame time, and it asks for another frame only when the render function did |
| Sinit.ResizeWith | src/sinit.c:429-440 | resizing replaces only the buffer, by one of the requested size times the scale |
| Sinit.AfterResizeAsWritten | src/sinit.c:433-434 | as written, the resize also creates a buffer of the scaled size |
| Sinit.AfterResize | src/sinit.c:429-440 | the corrected resize replaces only the buffer, by one of the scaled size |
| Sinit.AfterToplevelConfigure | src/sinit.c:227-243 | each positive dimension the compositor suggests becomes pending; zero and negative ones keep the old pending value |
| Sinit.Ack | src/sinit.c:189 | acknowledging a configure only sends a request |
| Sinit.AfterPresent | src/sinit.c:217-220 | before the first frame the surface renders at once; afterwards it waits for a frame callback |
| Sinit.RegionUpdate | src/sinit.c:205-210 | the region update sends only region requests, never a buffer, unmap or callback request, and ends by setting the opaque region |
| Sinit.XdgReshape | src/sinit.c:191-211 | a reshape replaces the buffer by one of the new size at the current scale (with the corrected resize) |
| Sinit.XdgSized | src/sinit.c:181-211 | the sizing part of a configure touches only the buffer and the request log (with the corrected resize) |
| Sinit.AfterXdgConfigure | src/sinit.c:181-221 | a configure only adds requests to the log (with the corrected resize) |
| Sinit.Filled | src/sinit.c:312-319 | a layer configure fills only the zero dimensions, with the compositor's size read as signed |
| Sinit.LayerSized | src/sinit.c:308-323 | the sizing part of a layer configure sets the filled config and touches only the buffer besides (with the corrected resize) |
| Sinit.AfterLayerConfigure | src/sinit.c:299-330 | a layer configure only adds requests to the log (with the corrected resize) |
| Sinit.AfterClose | src/sinit.c:245-252 | closing only sets the closed flag |
| Sinit.AfterScale | src/sinit.c:358-368 | the new factor is recorded, the buffer and size are kept, and a frame is requested |
| Sinit.AfterFrameDone | src/sinit.c:284-293 | a frame callback only adds requests to the log |
| Sinit.AfterXdgInit | src/sinit.c:529-561 | init makes an open XDG toplevel at scale 1, with the requested size pending |
| Sinit.AnchorArg | src/sinit.c:603-605 | folding the exclusive anchor bits yields a plain 4-bit edge set |
| Sinit.LayerSetup | src/sinit.c:603-612 | the size is always set last, and the anchor is set iff any anchor bit was given |
| Sinit.AfterLayerInit | src/sinit.c:586-624 | init makes an open layer surface at scale 1, with the requested size as config |
| Sinit.ReleaseWith | src/sinit.c:563-582 | releasing leaves only the surface type reset, besides the requests |
| Sinit.AfterDeinitAsWritten | src/sinit.c:563-582 | as written, deinit resets the surface type |
| Sinit.AfterDeinit | src/sinit.c:563-582 | the corrected deinit leaves only the surface type reset, besides the requests |
| Sinit.Consistent | src/sinit.c:429-440 | in a consistent surface at most one frame callback is outstanding, and without a buffer no byte is mapped |
| Sinit.AtMostOneCallback | src/sinit.c:507-512 | in a consistent surface at most one frame callback is outstanding, and exactly one iff the surface holds one |
| Sinit.RequestFrameIdempotent | src/sinit.c:507-512 | requesting a frame twice is requesting it once, and creates a callback only when none is held |
| Sinit.PendingStaysPositive | src/sinit.c:239-242 | a positive pending size stays positive whatever the compositor suggests |
| Sinit.XdgConfigureAdoptsPending | src/sinit.c:181-221 | a configure adopts the pending size; it creates a buffer at that size and scale iff the size changed or nothing was rendered; it renders at once iff nothing was rendered and the surface is open, and otherwise waits for a callback |
| Sinit.LayerConfigureFillsZeros | src/sinit.c:299-330 | a layer configure fills the zero dimensions; it creates a buffer at that size iff a dimension was zero or nothing was rendered; it renders or waits as the XDG configure does |
| Sinit.FrameDoneRearms | src/sinit.c:284-293 | the fired callback is destroyed first, so a render that asks for another frame always gets a new one |
| Sinit.ClosedConfigureStaysDark | src/sinit.c:514-525 | a closed surface stays closed and is not rendered by any configure |
| Sinit.ClosedFrameStaysDark | src/sinit.c:514-525 | a closed surface is not rendered by a frame callback or a scale change either |
| Sinit.InitReopens | src/sinit.c:529-624 | a close sets the closed flag, and both inits clear it |
| Sinit.AnchorFoldsExclusive | src/sinit.c:603-605 | an edge is anchored iff the caller set it plainly or in its exclusive form |
| Sinit.ExclusiveZoneRule | src/sinit.c:603-611 | an explicit exclusive zone wins; otherwise an exclusive anchor sets the zone to the folded anchor bits; anchors are set only when any were given |
| Sinit.ResizeKeepsConsistent | src/sinit.c:429-440 | the corrected resize keeps the mapped bytes equal to the held buffer's size |
| Sinit.RequestFrameKeepsConsistent | src/sinit.c:507-512 | requesting a frame, a scale change, a toplevel configure and a close keep the callback and mapping tallies consistent |
| Sinit.RenderKeepsConsistent | src/sinit.c:514-525 | rendering, and a frame callback on a surface holding one, keep the tallies consistent |
| Sinit.XdgConfigureKeepsConsistent | src/sinit.c:181-221 | an XDG configure keeps the tallies consistent |
| Sinit.LayerConfigureKeepsConsistent | src/sinit.c:299-330 | a layer configure keeps the tallies consistent |
| Sinit.XdgInitKeepsConsistent | src/sinit.c:529-561 | XDG init keeps the tallies consistent |
| Sinit.LayerInitKeepsConsistent | src/sinit.c:586-624 | layer init keeps the tallies consistent |
| Sinit.DeinitReleasesEverything | src/sinit.c:563-582 | after the corrected deinit no callback is outstanding and no byte stays mapped |
| Sinit.ResizeUnmapsTooLittle | src/sinit.c:433-434 | at scale 2 the resize as written unmaps 80000 of a 160000-byte mapping, so 80000 bytes stay mapped after the new buffer is created |
| Sinit.ResizeUnmapAsWritten | src/sinit.c:433-434 | as written, resize unmaps `factor` times an unscaled buffer's size |
| Sinit.ResizeUnmapRightOnlyUnscaled | src/sinit.c:433-434 | the written length equals the mapped size only at scale 0 or 1 or for an empty surface |
| Sinit.DeinitUnmapsTooLittle | src/sinit.c:569-570 | at scale 2 deinit as written unmaps 40000 of 160000 bytes, leaving 120000 mapped |
| Sinit.DeinitUnmapAsWritten | src/sinit.c:569-570 | as written, deinit unmaps exactly an unscaled buffer's size |
| Sinit.Surface.constructor | src/sinit.c:23-39 | a new surface is zeroed |
| Sinit.Surface.IsClosed | src/sinit.c:505 | reports the closed flag |
| Sinit.Surface.RequestFrame | src/sinit.c:507-512 | changes the surface as `AfterRequestFrame` says |
| Sinit.Surface.Render | src/sinit.c:514-525 | changes the surface as `AfterRender` says |
| Sinit.Surface.ResizeSurface | src/sinit.c:429-440 | changes the surface as the corrected `AfterResize` says |
| Sinit.Surface.XdgSurfaceConfigure | src/sinit.c:181-221 | changes the surface as `AfterXdgConfigure` says (with the corrected resize) |
| Sinit.Surface.Present | src/sinit.c:217-220 | renders at once or requests a frame, as `AfterPresent` says |
| Sinit.Surface.ToplevelConfigure | src/sinit.c:227-243 | changes the pending size as `AfterToplevelConfigure` says |
| Sinit.Surface.ToplevelClose | src/sinit.c:245-252 | marks the surface closed |
| Sinit.Surface.FrameDone | src/sinit.c:284-293 | changes the surface as `AfterFrameDone` says |
| Sinit.Surface.LayerSurfaceConfigure | src/sinit.c:299-330 | changes the surface as `AfterLayerConfigure` says (with the corrected resize) |
| Sinit.Surface.LayerSurfaceClosed | src/sinit.c:332-337 | marks the surface closed |
| Sinit.Surface.SurfaceScale | src/sinit.c:358-368 | changes the surface as `AfterScale` says |
| Sinit.Surface.XdgInit | src/sinit.c:529-561 | changes the surface as `AfterXdgInit` says |
| Sinit.Surface.LayerInit | src/sinit.c:586-624 | changes the surface as `AfterLayerInit` says |
| Sinit.Surface.XdgDeinit | src/sinit.c:563-582 | releases the toplevel surface as the corrected `AfterDeinit` says |
| Sinit.Surface.LayerDeinit | src/sinit.c:632-649 | releases the layer surface as the corrected `AfterDeinit` says |
| Sinit.Surface.Release | src/sinit.c:563-582 | the release shared by both deinits |

## Left out

- USound.Registry.EnumerateDevices: the result of each
  `sd_bus_message_append` is ignored (src/daemon/usound/main.c:233-235).
  A path that is not a valid object path (see `DevicePathValid`) makes that
  append fail. The model lists every path and models neither that failure
  nor its effect on the reply.
- Channel volumes are modelled as exact reals. The device volume is the
  uninterpreted `CubeRootMean` of the copied channels, so the
  single-precision arithmetic, the cube roots, the percentage rounding
  and the division by a zero channel count are not modelled.
- Notification body formatting (`%.0f%%`) and the urgency hint's wire
  encoding are not modelled. The hint is counted, not sent. `notify`
  never invokes the hint functions, and the model agrees.
- Allocation failures and the resulting `LOG_FATAL`/`abort` paths are not
  modelled. `calloc`, `strdup` and `malloc` always succeed.
- D-Bus message decoding is reduced to "the entry carried the expected
  variant type". A type mismatch is the fixed error `TYPE_MISMATCH` (-6).
  The container enter/exit calls and their errors are not modelled.
- The D-Bus getters, the object vtables, `print_usage`, `getopt`, the
  event loops, the SIGINT handlers and `daemon()` are I/O glue around the
  modelled operations.
- `bus_dispatch_cb` in usound/soundmon is not modelled. Neither are the
  volumemon daemon, the Wayland registry globals or `init_wayland`.
- shm file creation, `mmap` failures and the 32-bit overflow of
  `stride * height` in `create_wl_buffer` are not modelled. Buffer sizes
  are unbounded integers.
- Several PipeWire values are fixed here because their headers are not
  part of this model: `SPA_PARAM_Props` is 2, the PARAMS change bit is
  bit 4, and the channel limit is 64.
- Sinit.AfterRender: the client's render function is abstracted. It is
  the `again` flag, which says whether the render callback asked for
  another frame, as volumemon's render does.
- `sinit_layer_surface_margin`, `configure_bounds`, `wm_capabilities`,
  the `enter`/`leave`/`transform` events and `ping` are no-ops or only
  forward to the compositor. They are not modelled.
- `sinit.c` defines `struct sinit_surface_config` twice and uses
  `sinit_render_fn` before its declaration. The model follows the
  evident single definition.
- PowerMonDaemon.HandleSignal: the handler returns `r`, which holds
  `asprintf`'s length on the notify path, otherwise the last
  `sd_bus_message_read` result, or 0 when the signal carries no entry
  (src/daemon/powermon/main.c:293-297). None of these is negative, so it reports
  success even after a failing Notify or close, as the source does. The
  model reports that success and does not correct it.
- PowerMonDaemon.Visit: the replies of the `Type` get and of its read
  are folded into one reply, and the code a failing `SD_TRY` returns is
  the parameter `typeReturn` (`enumerateReturn` for the enumeration),
  because the macro re-evaluates the failing call and returns whatever
  that evaluation yields. The repeated get calls are not logged, and
  `sd_bus_message_enter_container` is not modelled.
- Sinit.ReleaseWith: always logs the role and surface destruction,
  while `sinit.c:565-580` destroys only the objects that are not NULL.
- Audio.Device.ApplyParam: emits each changed name once. The source
  lists a name twice when a Props object carries the same key twice;
  `ChangedNamesDedup` relates the two lists. The same holds for
  USound.Registry.HandleNodeParam and SoundMon.Registry.HandleNodeParam.
- Log: `print_stack_trace`, the message text, the colour escape codes and
  `closelog` are not modelled. Only where a message goes is modelled.
- The error paths of soundmon's `main` and of `error.h` are not modelled.
- The `main` functions of usound and soundmon are not modelled.
- `Audio.LastMute` and `Audio.LastChannels` are reference definitions for
  `LastPropWins` and carry no contract of their own.

## Findings

| source | as written | input that shows it | evidently intended | confidence | as-written member | corrected member |
|---|---|---|---|---|---|---|
| src/daemon/powermon/main.c:159 | `return r < 0 ? EXIT_SUCCESS : EXIT_FAILURE;` | a clean run ending with r = 0 exits with failure, and an error exits with success | success iff r >= 0 | high, not executed | PowerMonDaemon.ExitCodeInverted | PowerMonDaemon.ExitCode |
| src/daemon/powermon/main.c:91-92 | the result of `log_level_from_string` is stored without a check | `-l verbose` stores -1, which lies outside `log_level_map` | reject an unknown level as the bin variant does | high, not executed | PowerMonDaemon.UnknownLevelOutsideMap | PowerMonDaemon.LevelArg |
| src/daemon/usound/main.c:129-160 | `changed[2 + 1]` is indexed by a counter that grows once per recognised property | a Props param with three mute properties writes `changed[2]` (the NULL slot), and four write past the array | report each changed property once | medium, not executed | Audio.ChangedOverflow | Audio.ChangedNamesExact |
| src/daemon/soundmon/main.c:261-292 | the same `changed` array and counter as usound | the same three or four mute properties | report each changed property once | medium, not executed | Audio.ChangedOverflow | Audio.ChangedNamesExact |
| src/sinit.c:433-434 | `munmap` length `factor * width * height * 4`, with the factor once although the buffer is `factor` times wider and higher | a 100 x 100 surface at scale 2 unmaps 80000 of its 160000 mapped bytes | unmap the size that was mapped | high, not executed | Sinit.ResizeUnmapsTooLittle | Sinit.ResizeKeepsConsistent |
| src/sinit.c:569-570 | deinit unmaps the config size, without the scale factor | a 100 x 100 surface at scale 2 leaves 120000 bytes mapped | unmap the size that was mapped | high, not executed | Sinit.DeinitUnmapsTooLittle | Sinit.DeinitReleasesEverything |
| src/sinit.c:638-639 | layer deinit unmaps the config size, without the scale factor | a 100 x 100 layer surface at scale 2 leaves 120000 bytes mapped | unmap the size that was mapped | high, not executed | Sinit.DeinitUnmapsTooLittle | Sinit.DeinitReleasesEverything |
