# FACTOVA_Execute launch orchestration, modelled in Dafny

FACTOVA_Execute is a Windows tray tool. It watches a condition and, once the condition holds, starts a list of programs in sequence. There are two watchers:

- **The network monitor** (`NetworkMonitorService`) probes a `;`-separated list of gateway addresses with one probe kind (`CheckType`: Ping, HTTP or TCP). When the machine goes from disconnected to connected, it starts every enabled program once.
- **The process monitor** (`ProcessMonitorService`) looks for any of a `;`-separated list of trigger process names. When one appears, it starts the "Trigger"-mode programs in `ExecutionOrder`.

Both launchers share one per-program decision (`StartProgram`):

1. Skip the entry when its process already runs.
2. Otherwise skip it when its file is missing.
3. Otherwise start it from its own directory.

Around the monitors sit the settings screens that edit the stored strings and numbers, the Execute tab's start/stop controller, the execution-mode display converter and the log colorizer.

The model is functional:

- Settings, program entries and monitor state are immutable datatypes.
- Each timer tick or UI handler is one pure step function. It returns the next state and what it did: the probes it issued, the launch attempts and whether `AllProgramsStarted` fired.
- The operating system and the network are oracle parameters:
  - the reachability probe `ProbeRequest -> bool`;
  - the process table `string -> Lookup`, where a lookup can also throw;
  - `File.Exists`, `Path.GetDirectoryName` and `Path.GetFileName`.
- The C# library behaviour the code relies on is written out:
  - `Split` with `RemoveEmptyEntries`, `Trim`, `IsNullOrWhiteSpace`, `string.Join`, `Replace`, ordinal `Contains` and `IndexOf`;
  - `int.Parse`/`int.TryParse` with `NumberStyles.Integer`, and `int.ToString()`;
  - unchecked Int32 multiplication.

Modules, one per file:

- Library semantics: `Wrappers`, `Seqs`, `Text`, `Numbers`.
- Stored records: `Models`, `TriggerSettings`.
- Launching and probing: `Programs` (the launch decision and the launch loop) and `Probes` (the first-success address scan).
- The two services: `NetworkMonitor`, `ProcessMonitor`.
- The converter and the colorizer: `ExecutionModeConverter`, `LogColorizer`.
- One module per view: `ExecuteTabView`, `NetworkSettingsView`, `TriggerSettingsView`, `GeneralSettingsView`.

Notes on the program's behaviour, as the code has it:

- The network monitor uses one `CheckType` for one address list. There are no separate Ping/HTTP/TCP address buckets tried in priority order.
- The network launcher filters on `IsEnabled` only. It has no mode filter and no sort.
- The network monitor's completion does not start the process monitor. `AllProgramsStarted` only makes the Execute tab stop monitoring.
- `_isProgramsStarted` is set inside `StartEnabledPrograms`, and only after a non-empty list was run. With an empty list the tick still fires `AllProgramsStarted` but leaves the flag false (`NetworkMonitor.EmptyListStillSignals`).
  - In the process monitor this means a running trigger process with no "Trigger"-mode entry fires `AllProgramsStarted` on every tick (`ProcessMonitor.EmptyQueueSignalsEveryTick`).
- A database error while reading the program list during a launch is caught inside `StartEnabledPrograms`. The tick still fires `AllProgramsStarted`, so the Execute tab stops monitoring although nothing was launched.
- The process monitor clears its detected set and flag only when nothing was detected while programs were marked started. When nothing was detected before any start, names are removed one by one as they are found absent.

## Model

| member | source | states |
|---|---|---|
| Programs.StartProgram | Services/NetworkMonitorService.cs:198-238 | The per-program decision, identical in both services. It reports "already running" iff the process name is non-blank and a process with that name runs. It reports "lookup failed" iff that lookup throws. It reports "file missing" iff the duplicate check passes and the file does not exist. Otherwise it makes one start with the path's file name, the path's directory as working directory, and shell execute on. |
| Programs.RunSequence | Services/NetworkMonitorService.cs:180-184 | The launch loop decides every listed entry exactly once, in list order. A skipped or failed entry does not stop the loop. |
| Programs.StartedByRun | Services/NetworkMonitorService.cs:180-184 | The entries a launch loop actually starts are exactly the listed entries that pass the decision, in list order. |
| Probes.RequestFor | Services/NetworkMonitorService.cs:99-110 | `CheckType` selects the probe: Ping and HTTP get the address and timeout, TCP also gets the port. Any other `CheckType` issues no probe. |
| Probes.ScanAddresses | Services/NetworkMonitorService.cs:93-123 | The address loop visits no more addresses than the list holds. Reaching an address means that address answered and was the last one visited. Finding nothing means every address was visited. An unknown `CheckType` issues no probe and reaches nothing. |
| Probes.ScanIsFirstSuccess | Services/NetworkMonitorService.cs:93-123 | The i-th probe issued is the probe for the i-th address. Every visited address before the last one failed, so nothing after the first success is probed. When nothing is reached, no address answers. |
| Probes.ScanFindsAny | Services/NetworkMonitorService.cs:112-118 | The loop reaches an address iff some address of the list answers its probe. |
| NetworkMonitor.StartEnabledPrograms | Services/NetworkMonitorService.cs:164-193 | The network launcher attempts the enabled entries in repository order, each once, with no mode filter. `_isProgramsStarted` ends true iff it was true already or some entry is enabled. |
| NetworkMonitor.NetworkLaunchesEnabled | Services/NetworkMonitorService.cs:168-184 | The network launcher starts exactly the enabled entries that pass the per-program decision, in repository order. |
| NetworkMonitor.CheckNetworkAndStartPrograms | Services/NetworkMonitorService.cs:75-159 | With no non-empty `;`-segment, the tick probes nothing and changes nothing. Otherwise it scans the trimmed segments in order. Success while disconnected connects, and launches and signals iff auto-start is on and programs were not started. Success while connected changes nothing. Failure while connected clears both flags. Failure while disconnected changes nothing. The launcher runs only on the signalling path. |
| NetworkMonitor.TickPreservesInv | Services/NetworkMonitorService.cs:125-153 | `_isProgramsStarted` implies `_isNetworkConnected`, and every tick keeps it so. |
| NetworkMonitor.SignalOnlyOnConnect | Services/NetworkMonitorService.cs:125-137 | `AllProgramsStarted` fires only on a disconnected-to-connected edge with auto-start on. |
| NetworkMonitor.UnknownCheckTypeDisconnects | Services/NetworkMonitorService.cs:99-142 | An unrecognised `CheckType` issues no probe and counts as a failed check: a connected monitor drops both flags, a disconnected one stays as it was. |
| NetworkMonitor.Run | Services/NetworkMonitorService.cs:49-57 | The repeating timer runs ticks back to back: the first starts from the given flags, each later one from the flags the previous tick left, and under the invariant every tick leaves `_isProgramsStarted` implying `_isNetworkConnected`. |
| NetworkMonitor.AtMostOneLaunchPerSession | Services/NetworkMonitorService.cs:125-142 | Over any sequence of ticks, `AllProgramsStarted` fires no more often than the monitor goes from disconnected to connected. |
| NetworkMonitor.ReconnectRelaunches | Services/NetworkMonitorService.cs:125-142 | A failed tick while connected and started, then a successful tick, runs the launcher again and fires the signal. |
| NetworkMonitor.EmptyListStillSignals | Services/NetworkMonitorService.cs:131-186 | With no enabled entry, a connecting tick still fires `AllProgramsStarted`, attempts nothing and leaves `_isProgramsStarted` false. |
| ProcessMonitor.CheckTargets | Services/ProcessMonitorService.cs:101-135 | The name loop looks up a prefix of the names. It looks up all of them when nothing is found, and otherwise stops at the found name, which is the last one looked up. The detected set afterwards is the old set plus the found name, minus the looked-up names reported absent. A throwing lookup leaves the set alone. |
| ProcessMonitor.CheckTargetsStopsAtFirst | Services/ProcessMonitorService.cs:101-135 | Every name looked up before the found one was not running. A pass that found nothing saw no running name. |
| ProcessMonitor.CheckTargetsFindsAny | Services/ProcessMonitorService.cs:105-119 | `processDetected` holds iff some target name has a running process. A lookup that throws never counts as found. |
| ProcessMonitor.SortByOrder | Services/ProcessMonitorService.cs:172 | The sort result is a permutation of its input in non-decreasing `ExecutionOrder`. |
| ProcessMonitor.SortByOrderStable | Services/ProcessMonitorService.cs:172 | The sort is stable: for every order value, the entries with that value keep their input order. |
| ProcessMonitor.TriggerQueue | Services/ProcessMonitorService.cs:170-173 | The trigger launch list holds exactly the enabled "Trigger"-mode entries, each as often as in the repository, in non-decreasing `ExecutionOrder`. |
| ProcessMonitor.TriggerQueueStable | Services/ProcessMonitorService.cs:170-173 | In the trigger launch list, entries with equal `ExecutionOrder` keep their repository order. |
| ProcessMonitor.StartEnabledPrograms | Services/ProcessMonitorService.cs:166-198 | The trigger launcher attempts the queue entries in queue order, each once. `_isProgramsStarted` ends true iff it was true already or some enabled "Trigger" entry exists. |
| ProcessMonitor.ProcessLaunchesQueue | Services/ProcessMonitorService.cs:183-189 | The trigger launcher starts exactly the queued entries that pass the per-program decision, in queue order. |
| ProcessMonitor.CheckProcessAndStartPrograms | Services/ProcessMonitorService.cs:72-161 | With no target name, the tick looks nothing up and changes nothing. Otherwise it runs the name loop. Detection before a start updates the set, and launches and signals iff auto-start is on; without auto-start the flag is unchanged. Detection after a start only updates the set. No detection after a start clears the set and the flag. No detection before a start only prunes the set. The launcher runs only on the signalling path. |
| ProcessMonitor.BlankHasNoTargets | Services/ProcessMonitorService.cs:78-94 | A blank `TargetProcesses` parses to no name, so the blank early return agrees with the empty-list return. |
| ProcessMonitor.TickPreservesInv | Services/ProcessMonitorService.cs:138-155 | While programs are marked started, the detected set is non-empty, and every tick keeps it so. |
| ProcessMonitor.DetectedNamesTracked | Services/ProcessMonitorService.cs:113-155 | Unless the episode ends, a detected name leaves the set iff it was looked up this tick and reported absent. Names after the found one are not examined and stay. |
| ProcessMonitor.EmptyQueueSignalsEveryTick | Services/ProcessMonitorService.cs:138-191 | With a running trigger process, auto-start on and no "Trigger"-mode entry, a tick fires `AllProgramsStarted` with no attempt and leaves the flag false. So the next tick fires again. |
| TriggerSettings.GetProcessList | Models/TriggerSettings.cs:29-36 | Every parsed name is non-blank, trimmed and free of `;`. |
| TriggerSettings.SetProcessList | Models/TriggerSettings.cs:41-44 | The written string is empty iff every given entry is blank. When no entry contains ';', the string's ';'-separated entries are exactly the non-blank inputs, untrimmed and in their given order. |
| TriggerSettings.GetProcessListConcat | Models/TriggerSettings.cs:31-35 | Text on either side of a `;` parses independently, so parsing keeps the order of the non-blank segments. |
| TriggerSettings.SetThenGet | Models/TriggerSettings.cs:29-44 | For entries without `;`, writing then reading gives the non-blank entries, trimmed, in order. |
| TriggerSettings.SetThenGetNormal | Models/TriggerSettings.cs:29-44 | A list of trimmed, non-blank names without `;` survives a write and a read unchanged. |
| TriggerSettings.NormaliseIdempotent | Models/TriggerSettings.cs:29-44 | Reading, writing and reading again gives the list the first read gave. |
| TriggerSettings.GetProcessListExcludes | Models/TriggerSettings.cs:31-35 | A character absent from the stored string is absent from every parsed name. |
| ExecutionModeConverter.Convert | Converters/ExecutionModeConverter.cs:14-26 | "Network" and "Trigger" become their two Korean display names. Any other string, and any non-string value, passes through unchanged. |
| ExecutionModeConverter.ConvertBack | Converters/ExecutionModeConverter.cs:28-40 | The two display names become "Network" and "Trigger". Every other value passes through unchanged. |
| ExecutionModeConverter.NamesDisjoint | Converters/ExecutionModeConverter.cs:20-35 | No mode is a display name, no display name is a mode, and the two display names differ. |
| ExecutionModeConverter.ConvertBackConvert | Converters/ExecutionModeConverter.cs:14-40 | `ConvertBack(Convert(v)) == v` for every value that is not a display name. |
| ExecutionModeConverter.ConvertConvertBack | Converters/ExecutionModeConverter.cs:14-40 | `Convert(ConvertBack(v)) == v` for every value that is not a mode. |
| ExecutionModeConverter.ConvertInjectiveOnModes | Converters/ExecutionModeConverter.cs:20-21 | The two modes are shown as different names. |
| ExecutionModeConverter.DisplayNameNotRestored | Converters/ExecutionModeConverter.cs:14-40 | The excluded case is real: a stored display name comes back from the round trip as "Network". |
| LogColorizer.Classify | Helpers/LogColorizer.cs:13-62 | An empty line takes no branch. Otherwise a green keyword selects green. Failing that, a yellow keyword selects yellow. Failing that, a red keyword selects red, where "없습니다" counts only together with "파일". Otherwise no branch is taken. Each case is stated in both directions. |
| LogColorizer.TimestampGuardMeans | Helpers/LogColorizer.cs:25-26 | The guard holds iff the first `]` of the line exists, is not its first character and is not its last. |
| LogColorizer.ColorizeElement | Helpers/LogColorizer.cs:21-61 | Without a branch or without the guard, the brush is unchanged. With the guard, yellow and red lines get Yellow and Red. A green line gets LightGreen only when its brush was not null. |
| LogColorizer.EmptyLineUnchanged | Helpers/LogColorizer.cs:15-16 | A zero-length line is never recoloured. |
| LogColorizer.RecolourNeedsKeywordAndTimestamp | Helpers/LogColorizer.cs:21-61 | A recoloured element had the timestamp guard and a keyword, and got one of the three brushes. |
| LogColorizer.SuccessWins | Helpers/LogColorizer.cs:21 | A line containing "성공" is green whatever surrounds it. |
| LogColorizer.FailureBeatsError | Helpers/LogColorizer.cs:37-51 | A line with "실패" and no green keyword is yellow, even next to an error keyword. |
| LogColorizer.MissingNeedsFile | Helpers/LogColorizer.cs:50-51 | "없습니다" without "파일" and without other keywords takes no branch. |
| LogColorizer.NullBrushOnlyGreenKeeps | Helpers/LogColorizer.cs:29-58 | Under the guard, a null brush stays null iff the line is green. |
| ExecuteTabView.DisposeHeld | Views/ExecuteTabView.xaml.cs:207-210 | Unloaded stops the held service's timer and no other, and keeps the reference and the buttons. Under the view invariant, no timer runs after Unloaded. |
| ExecuteTabView.StartMonitoring | Views/ExecuteTabView.xaml.cs:84-101 | The previous service is disposed and a new one is held. When its timer starts, Start is disabled and Stop enabled. When starting throws, the new service stays held but idle and the buttons keep their state. Under the controller invariant, afterwards only the new service runs when its timer started, and none runs otherwise. |
| ExecuteTabView.StopMonitoring | Views/ExecuteTabView.xaml.cs:114-129 | Stop releases the held service, if any, and stops its timer. Start becomes enabled and Stop disabled. |
| ExecuteTabView.OnLoaded | Views/ExecuteTabView.xaml.cs:34-64 | A second Loaded changes nothing. The first one marks the view initialised and starts monitoring iff the general settings were read and ask for auto-start. |
| ExecuteTabView.Handle | Views/ExecuteTabView.xaml.cs:106-210 | Manual start leaves the controller untouched. Stop and `AllProgramsStarted` release the service and show the stopped buttons. Unloaded only stops the held timer. Every handler keeps the controller invariant. |
| ExecuteTabView.HandleAllPreservesInv | Views/ExecuteTabView.xaml.cs:84-210 | Any sequence of handlers keeps the controller invariant. |
| ExecuteTabView.AtMostOneMonitor | Views/ExecuteTabView.xaml.cs:88-92 | After any sequence of handlers, at most one monitoring service has a running timer, and it is the held one. |
| ExecuteTabView.LoadedOnce | Views/ExecuteTabView.xaml.cs:37-40 | The Loaded body runs at most once. |
| ExecuteTabView.FirstLoadStartsIffAuto | Views/ExecuteTabView.xaml.cs:46-58 | After the first Loaded, a monitor runs iff `AutoStartMonitoring` is on and the monitor's timer can start. |
| ExecuteTabView.ManualStart | Views/ExecuteTabView.xaml.cs:134-148 | Manual start runs the network launcher on a fresh service. It starts exactly the enabled entries that pass the decision, and the controller state is untouched. |
| NetworkSettingsView.Load | Views/NetworkSettingsView.xaml.cs:29-43 | The combo box selects the stored check type iff it is one of its items. The address text holds no `;`. |
| NetworkSettingsView.FormAddresses | Views/NetworkSettingsView.xaml.cs:55-58 | Every address taken from the text box is non-blank, trimmed and free of CR and LF. |
| NetworkSettingsView.Save | Views/NetworkSettingsView.xaml.cs:48-74 | Settings are persisted iff an item is selected and all four numbers parse. Persisted settings carry the selection, the joined addresses and the four parsed numbers. No selection changes nothing. A bad port leaves every number as it was. |
| NetworkSettingsView.FormAddressesExclude | Views/NetworkSettingsView.xaml.cs:55-58 | A character the text box does not contain is in no saved address. |
| NetworkSettingsView.SavedAddresses | Views/NetworkSettingsView.xaml.cs:55-59 | The saved address string holds no CR or LF. For text without `;`, its `;`-entries are the non-blank lines, trimmed, in order. |
| NetworkSettingsView.LoadSaveAddresses | Views/NetworkSettingsView.xaml.cs:38-59 | A `;`-join of trimmed, non-blank addresses free of `;`, CR and LF comes back unchanged through the text box. |
| NetworkSettingsView.LoadSaveRoundTrip | Views/NetworkSettingsView.xaml.cs:29-74 | Load then an unedited Save persists the settings unchanged, when the check type is a combo item and the address list is in that normal form. |
| NetworkSettingsView.DefaultsRoundTrip | Models/NetworkSettings.cs:9-15 | The factory network settings survive an unedited Load and Save. |
| NetworkSettingsView.TestConnection | Views/NetworkSettingsView.xaml.cs:79-160 | The test aborts iff no item is selected or the timeout or port does not parse. It warns without probing iff no address remains. Otherwise it scans the addresses in order, and `anySuccess` holds iff some address answers. For a known check type, the i-th probe is for the i-th address, every visited address before the last failed, and a success is the last address visited. |
| TriggerSettingsView.Load | Views/TriggerSettingsView.xaml.cs:25-50 | The check box shows the stored flag, and the process text holds no `;`. |
| TriggerSettingsView.FormProcesses | Views/TriggerSettingsView.xaml.cs:62-66 | Every name taken from the text box is non-blank and trimmed, so a trailing CR is gone. |
| TriggerSettingsView.Save | Views/TriggerSettingsView.xaml.cs:55-107 | Settings are persisted iff the interval parses to a positive Int32. Persisted settings carry that interval verbatim, the written name list, and auto-start iff the check box is exactly checked. |
| TriggerSettingsView.SavedNames | Views/TriggerSettingsView.xaml.cs:62-67 | For text without `;`, the saved list reads back as the text box's names. |
| TriggerSettingsView.LoadSaveRoundTrip | Views/TriggerSettingsView.xaml.cs:25-89 | An unedited Load and Save keeps the parsed name list, the interval and the flag, when the stored list has no LF and the interval is positive. |
| TriggerSettingsView.DefaultsRoundTrip | Models/TriggerSettings.cs:14-24 | The factory trigger settings survive an unedited Load and Save exactly. |
| GeneralSettingsView.Load | Views/GeneralSettingsView.xaml.cs:26-42 | The Group radio is checked iff the stored mode is exactly "Group". The check boxes show the stored flags. |
| GeneralSettingsView.Save | Views/GeneralSettingsView.xaml.cs:47-79 | Null check boxes count as false. The mode becomes "Group" iff the Group radio is checked, and "Grid" otherwise. A record is handed to `UpdateSettings` iff items per row parses to 1..20, and it then carries that number. A rejected save keeps the old number. |
| GeneralSettingsView.LoadSaveRoundTrip | Views/GeneralSettingsView.xaml.cs:26-68 | Load then an unedited Save hands `UpdateSettings` the loaded record unchanged, for a "Group"/"Grid" mode and 1..20 items per row. |
| GeneralSettingsView.UnknownModeBecomesGrid | Views/GeneralSettingsView.xaml.cs:34-55 | A loaded mode other than "Group" shows as Grid and is handed back as "Grid". |
| GeneralSettingsView.RejectedSaveOverwrites | Views/GeneralSettingsView.xaml.cs:51-65 | A save rejected on items per row hands nothing to `UpdateSettings`, but the in-memory flags and mode are already overwritten. |
| GeneralSettingsView.DefaultsRoundTrip | Models/GeneralSettings.cs:9-16 | An unedited Load and Save of the factory general settings hands them to `UpdateSettings` unchanged. |
| Numbers.ParseInt32 | Views/TriggerSettingsView.xaml.cs:70 | A successful parse gives an Int32, and the text contains a digit. |
| Numbers.FormatInt32 | Views/NetworkSettingsView.xaml.cs:39-42 | `ToString` writes a non-empty string that ends in a digit and starts with a digit iff the number is not negative. |
| Numbers.ParseInt32Means | Views/TriggerSettingsView.xaml.cs:70 | `int.TryParse` succeeds exactly when the text is white space, an optional '+' or '-', one or more digits and white space, with a value in Int32. Every such text parses to its signed digit value. |
| Numbers.ParseFormat | Views/NetworkSettingsView.xaml.cs:39-64 | Parsing what `ToString` wrote gives the Int32 back. |
| Numbers.IntervalMs | Services/NetworkMonitorService.cs:49 | The timer interval `CheckIntervalSeconds * 1000` is an Int32. It is the true product for 1..2147483 seconds. |
| Numbers.IntervalMsWraps | Services/NetworkMonitorService.cs:49 | 2147484 seconds wraps to a negative interval, so the timer cannot start. |
| Text.Trim | Models/TriggerSettings.cs:33 | `Trim` gives a string with no white space at either end, drawn from the input's characters. The result is empty iff the input is blank. |
| Text.SplitConcat | Models/TriggerSettings.cs:32 | Splitting at a separator splits the two sides independently. |
| Text.SplitJoin | Models/TriggerSettings.cs:32-43 | Splitting a join whose separator is made of separator characters gives back the non-empty entries. |
| Text.ReplaceJoin | Views/NetworkSettingsView.xaml.cs:38 | Replacing every `;` of a `;`-join of entries without `;` by another separator gives the join with that separator (the form shows `Environment.NewLine`). |
| Text.Contains | Helpers/LogColorizer.cs:21 | Ordinal `Contains` holds iff the substring occurs at some index. |

## Left out

- Probes: `TestPingAsync`, `TestHttpAsync` and `TestTcpAsync`, in both the service and the settings view, are network I/O. They are the oracle `probe`.
- Timers and concurrency are not modelled: `System.Timers.Timer`, `Task.Run`, `Task.Delay` (the one-second gap between launches and the retry delay) and `Dispatcher.Invoke`. Each tick and each handler is one atomic step, and overlapping ticks are not modelled.
- The process table and file system are a snapshot for one tick. A program started by a launch sequence does not show up as running to later entries of the same sequence.
- `Process.Start` is modelled as the call and its `ProcessStartInfo`. Whether that call throws changes no state, so its failure is not distinguished.
- The repositories (SQLite) are not modelled. Settings and program lists are plain inputs.
  - A failing settings read is modelled as `None` only where the code catches it and behaves differently (the Execute tab's Loaded and Start handlers).
  - A throwing program-list read inside `StartEnabledPrograms` is caught there, before any program is started. It behaves as an empty list: nothing is attempted, `_isProgramsStarted` is unchanged, and the tick still fires `AllProgramsStarted` (`NetworkMonitor.EmptyListStillSignals` with `programs == []`).
  - A throwing settings read at the start of a tick is caught by the tick's own handler, and the tick changes nothing. The model does not represent it as a separate case.
- Log messages, their wording and levels, and MessageBox texts are not modelled.
- The UI outside the named views is not modelled: `IconExtractor`, `MainWindow`, `App`, `ProgramSettingsView`, and `RefreshExecuteTabLauncher` after a general-settings save.
- AvalonEdit rendering in `ChangeLinePart` is not modelled. The colorizer is modelled per visual element as a brush function.
- The Grid radio button of the general settings screen is not represented. The model takes the XAML radio group to keep the Group and Grid buttons exclusive, so the form carries only the Group button's state. The markup that groups them is not part of this model.
- The initial enabled state of the Start/Stop buttons and the check-type combo items come from XAML markup, which is not part of this model. The buttons' initial state is a parameter, and the items are taken as "Ping", "HTTP" and "TCP".
- Numbers.ParseInt32: accepts `NumberStyles.Integer` input under an invariant-like culture ("+"/"-" signs, ASCII digits, white space U+0009-U+000D and U+0020). It does not model trailing `\0` characters or culture-specific sign symbols.
- Path helpers `Path.GetDirectoryName` and `Path.GetFileName` are oracles in `Env`.
- `Id` fields and `ProgramInfo` properties other than the seven the monitors read are not modelled.
- The monitor services' own `StartMonitoring`/`StopMonitoring`/`Dispose` are modelled only through their effect on the Execute tab's controller: whether the timer starts (`IntervalMs > 0` and a successful settings read) and which service holds a running timer.
- GeneralSettingsView.Save: its `persisted` result is the record handed to `UpdateSettings`, not what storage keeps. The general settings repository reads and writes only AutoStartMonitoring, StartInTray and LauncherItemsPerRow (Data/GeneralSettingsRepository.cs:20 and 53-61), so `LauncherViewMode` is never stored and a later read gives the default "Grid". The same holds for `GeneralSettingsView.LoadSaveRoundTrip`, `UnknownModeBecomesGrid` and `DefaultsRoundTrip`.
- ProcessMonitor.SortByOrder: LINQ's `OrderBy` is modelled as a stable insertion sort and proved permutation, sorted and stable. Those three properties determine the result, but the algorithm itself differs from LINQ's.
- TriggerSettingsView.LoadSaveRoundTrip: states that the parsed name list survives, not the stored string. The stored string is rewritten in normal form, so it can differ textually.
- NetworkSettingsView.LoadSaveRoundTrip: requires the stored address list to be in normal form. Other strings are normalised by the round trip rather than kept.
