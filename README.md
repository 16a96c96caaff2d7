# NubDevManager core, modelled in Dafny

NubDevManager is a desktop manager for development packages on Linux. This project models
the logic behind it, not its Qt front end:

- **the package backend** (`core/package_manager.py`). It picks the native package manager
  (apt, yum, dnf, pacman, zypper) and the privilege tool. It holds the per-backend command
  tables and reads `/etc/os-release` into a distribution record. Its `PackageManager` object
  runs privileged install, update, upgrade, remove and cleanup commands, plus an
  unprivileged installed-query.
- **the AUR manager** (`core/aur_manager.py`). It tracks the active AUR helper (yay, paru,
  trizen). It bootstraps a helper from its AUR recipe, removes one, and runs package
  operations through the active helper. It also parses the output of `<helper> -Ss` and
  `pacman -Qm`.
- **the development-packs page** (`UI/pages/dev_packs_page.py`). Its batch worker installs
  or removes the packages of a pack one by one. It skips those already in the requested
  state, counts successes and failures, and reports progress and a closing message. The
  page also has the to-install and to-remove filters, the install button's label and the
  formatted package list.
- **the activity-log page** (`UI/pages/logs_page.py`). It keeps a list of log entries,
  newest first, and a current filter. Derived from them are the counts, the filtered and
  coloured view, the statistics cards and the export format. Adding an entry prepends it,
  and clearing empties the list. The cards on screen do not follow every change. They are
  built when the page is made, while the list is still empty. Only refresh and a confirmed
  clear rebuild them, so after construction and after `add_log` they show stale counts.
- **the dashboard** (`UI/pages/home_page.py`). It shows the package manager's display name,
  the operating system's pretty name, and package counters read off the standard output of
  pacman, dpkg, rpm and apt.

The outside world is an oracle, the class `Process.Host`:

- `path(n)` is the set of executables `shutil.which` finds once `n` processes have run.
- `respond(n, inv)` is what the `(n+1)`-th `subprocess.run` reports: an exit status with
  its standard output, or an exception (`Raised`).
- `log` records every process launched, in order.

A method that runs processes states exactly which invocations it appended to `log` and what
it made of the responses. A Python exception that escapes a call is an `Outcome.Throw`.
The contents of `/etc/os-release` are a parameter. The backend and the AUR manager take a
`Process.FileRead`: the text, a missing file, or a file that cannot be read. The dashboard
takes an `Option`, with `None` for any failure to read.

Files:

| file | module | models |
|---|---|---|
| `base.dfy` | `Base` | `Option`, `Outcome` |
| `text.dfy` | `Text` | the Python string operations used: `strip`, `split`, `split('\n')`, `startswith`, `replace`, `lower`, `join`, `str(int)` |
| `process.dfy` | `Process` | the host oracle, `check=True`, priority tables |
| `package_manager.dfy` | `PackageBackend` | `core/package_manager.py` |
| `aur_manager.dfy` | `AurManager` | `core/aur_manager.py` |
| `dev_packs.dfy` | `DevPacks` | `PackInstallWorker` and the pack helpers of `UI/pages/dev_packs_page.py` |
| `logs.dfy` | `Logs` | `UI/pages/logs_page.py` |
| `home.dfy` | `Home` | the facts and counters of `UI/pages/home_page.py` |

Three behaviours of the code that the model keeps:

- **Popularity.** The search parser reads popularity only from a token that ends in `%`. A
  helper prints a hit as `aur/<name> <version> (+<votes> <popularity>%)`, so the popularity
  token is `9.87%)`, which ends in `)`. The parsed popularity stays `"0"`
  (`AurManager.SearchExample`).
- **Progress timing.** The batch worker emits a progress event before it handles each
  package.
- **Exceptions stop the batch.** An exception escaping the package manager ends the whole
  batch, which then reports only the exception's text. A non-zero exit status does not
  end it.

## Model

| member | source | states |
|---|---|---|
| `Process.Host.Run` | core/package_manager.py:71 | one `subprocess.run` appends exactly its own invocation to the log and returns the host's response for that moment |
| `Process.Checked` | core/package_manager.py:69-74 | a `check=True` call returns a boolean exactly when the process exited, true iff the status is 0; any other exception escapes |
| `Process.FirstPresent` | core/package_manager.py:30-44 | a priority scan finds the first table entry on PATH, every earlier one being absent, and finds nothing iff no entry is present |
| `PackageBackend.DetectBackend` | core/package_manager.py:30-44 | raises "No supported package manager found." iff none of apt, yum, dnf, pacman, apt-get, zypper is on PATH; otherwise the backend chosen is on PATH, or is apt standing for apt-get |
| `PackageBackend.PrivilegeCommand` | core/package_manager.py:47-57 | raises "No privilege escalation method found." iff none of pkexec, gksudo, kdesudo, sudo is on PATH; otherwise the prefix starts with a privilege tool that is on PATH |
| `PackageBackend.InstallCommand` | core/package_manager.py:61-67 | the install argv starts with the backend's executable, ends with the package and answers yes itself (`-y` or `--noconfirm`) |
| `PackageBackend.UpdateCommand` | core/package_manager.py:79-85 | the refresh argv is the backend's executable and one sub-command |
| `PackageBackend.IsInstalledCommand` | core/package_manager.py:97-103 | the query argv has three words, ends with the package and does not start with a privilege tool |
| `PackageBackend.UpgradeCommand` | core/package_manager.py:113-119 | the upgrade argv starts with the backend's executable, ends with the package and answers yes itself |
| `PackageBackend.RemoveCommand` | core/package_manager.py:131-137 | the remove argv starts with the backend's executable, ends with the package, answers yes itself and is never the install argv |
| `PackageBackend.CleanupCommand` | core/package_manager.py:148-154 | the cleanup argv starts with the backend's executable, ends with the package, answers yes itself and is never the plain remove argv |
| `PackageBackend.DetectBackendFollowsPriority` | core/package_manager.py:30-44 | the backend is the first of apt, yum, dnf, pacman, apt-get (mapped to apt), zypper on PATH; with none it raises "No supported package manager found." |
| `PackageBackend.PrivilegeFollowsPriority` | core/package_manager.py:47-57 | the prefix is the first of pkexec, gksudo --, kdesudo --, sudo on PATH, and starts with the tool found; with none it raises "No privilege escalation method found." |
| `PackageBackend.MutatingCommandsShape` | core/package_manager.py:61-154 | install, upgrade, remove and cleanup argv start with the backend's executable and end with the package; update is the executable and one sub-command |
| `PackageBackend.QueryNeverEscalates` | core/package_manager.py:96-106 | the installed-query differs from the install argv, never starts with a privilege tool, and so differs from every privileged install command |
| `PackageBackend.SplitAtFirst` | core/package_manager.py:18 | `split("=", 1)`: the key holds no `=` and key, `=`, value rebuild the line; without `=` the whole line is the key |
| `PackageBackend.AssignLastWins` | core/package_manager.py:16-19 | a key is in the dictionary iff some assignment sets it, and its value is that of the last assignment setting it |
| `PackageBackend.OsReleaseLastWins` | core/package_manager.py:14-19 | only lines containing `=` define keys; a key is present iff some line defines it, and a later line overrides an earlier one |
| `PackageBackend.DistroDefaults` | core/package_manager.py:20-27 | a missing file gives ("unknown", "Unknown", "", []); an undefined ID gives "unknown" and an undefined ID_LIKE the empty list |
| `PackageBackend.DistroFrom` | core/package_manager.py:11-27 | reading the distribution raises iff the file exists but cannot be read, and then with that error |
| `PackageBackend.OsReleaseStep` | core/package_manager.py:16-19 | reading one more line adds its key and quote-stripped value on top of the earlier entries, and a line without `=` adds nothing |
| `PackageBackend.DetectDistro` | core/package_manager.py:11-27 | the line loop filling `info` builds the same record as the last-wins dictionary with defaults; a missing file gives the defaults and any other read error escapes |
| `PackageBackend.PackageManager.Open` | core/package_manager.py:6-8 | construction raises when no backend is on PATH, and otherwise when the os-release file exists but cannot be read; else the backend and the distribution record are fixed once, and no process runs |
| `PackageBackend.PackageManager.RunPrivileged` | core/package_manager.py:68-75 | the privilege prefix is looked up afresh; with none, nothing runs and the error escapes; otherwise prefix + command runs once and the result is its checked status |
| `PackageBackend.PackageManager.Install` | core/package_manager.py:60-75 | runs the privileged install template of the object's backend, as above |
| `PackageBackend.PackageManager.Update` | core/package_manager.py:78-93 | runs the privileged update template, as above |
| `PackageBackend.PackageManager.Upgrade` | core/package_manager.py:112-127 | runs the privileged upgrade template, as above |
| `PackageBackend.PackageManager.Remove` | core/package_manager.py:130-145 | runs the privileged remove template, as above |
| `PackageBackend.PackageManager.Cleanup` | core/package_manager.py:147-162 | runs the privileged cleanup template, as above |
| `PackageBackend.PackageManager.IsInstalled` | core/package_manager.py:96-109 | runs the backend's query once, without a prefix; true iff it exits 0 |
| `AurManager.Lookup` | core/aur_manager.py:11-30 | a name is supported iff it is yay, paru or trizen; its recipe is `https://aur.archlinux.org/<name>.git` and its dependencies start with git, base-devel |
| `AurManager.DetectHelper` | core/aur_manager.py:45-50 | the detected helper is one of yay, paru, trizen and is on PATH; there is none iff none of the three is |
| `AurManager.InstalledHelpers` | core/aur_manager.py:56-58 | a name is listed iff it is a supported helper on PATH; the list is no longer than the table |
| `AurManager.CheckArchBased` | core/aur_manager.py:36-43 | the check raises iff the os-release file exists but cannot be read; with pacman on PATH the host is always Arch-based |
| `AurManager.FirstInstalled` | core/aur_manager.py:45-50 | the scan gives a listed name that is on PATH, and nothing iff none of the names is |
| `AurManager.Installed` | core/aur_manager.py:56-58 | the comprehension keeps exactly the listed names that are on PATH |
| `AurManager.IsHelperInstalled` | core/aur_manager.py:52-54 | for a supported helper, installed iff it is in the installed-helpers list; a name not on PATH is never installed |
| `AurManager.FirstInstalledIsHead` | core/aur_manager.py:45-58 | the detected helper is the head of the installed list, and none iff the list is empty |
| `AurManager.HelperPriority` | core/aur_manager.py:45-58 | the active helper is the first of yay, paru, trizen on PATH; the installed helpers are listed in that order |
| `AurManager.ArchBasedCases` | core/aur_manager.py:36-43 | an os-release text mentioning "arch" in any case makes the host Arch-based; with the file missing only pacman counts; an unreadable file raises its error |
| `AurManager.DepSteps` | core/aur_manager.py:72-77 | one dependency install per declared dependency |
| `AurManager.BootstrapRunOf` | core/aur_manager.py:70-105 | the bootstrap succeeds iff no step fails, and then every step ran with an empty message; otherwise a non-empty prefix of the steps ran |
| `AurManager.BootstrapPlan` | core/aur_manager.py:70-96 | the dependency installs come first, then the clone in the workspace, then `makepkg -si --noconfirm` in `<workspace>/<name>` |
| `AurManager.BootstrapPlanDeps` | core/aur_manager.py:72-77 | the k-th process is `sudo pacman -S --noconfirm --needed` of the k-th dependency, in table order |
| `AurManager.FirstFailure` | core/aur_manager.py:70-103 | gives the first step that does not exit 0, all earlier ones having succeeded; nothing iff every step succeeds |
| `AurManager.BootstrapRunMeaning` | core/aur_manager.py:70-105 | a bootstrap succeeds iff every step exits 0, and then all steps ran; otherwise the steps up to and including the first failure ran, and the message is that step's error |
| `AurManager.Bootstrap` | core/aur_manager.py:70-105 | the stage loop launches exactly the steps of the bootstrap run and reports its result and message |
| `AurManager.Report` | core/aur_manager.py:182-189 | the exception escapes iff the process raised; otherwise success iff the exit status is 0 |
| `AurManager.ScanStats` | core/aur_manager.py:153-159 | the token loop yields the last `(+` token's votes and the last `%` token's popularity (a `(+` token is never popularity), defaulting to "0" |
| `AurManager.SearchRecords` | core/aur_manager.py:138-168 | at most one record per line, and none when no line starts with `aur/` |
| `AurManager.ParseSearch` | core/aur_manager.py:136-170 | at most one record per line of the stripped output, and none when no line starts with `aur/` |
| `AurManager.ReadLine` | core/aur_manager.py:139-168 | one pass of the while body advances the index by one or two lines and yields at most one record: what the line-by-line parser yields for those lines |
| `AurManager.ParseSearchOutput` | core/aur_manager.py:136-170 | the index-advancing while loop yields exactly the records of the line-by-line search parser |
| `AurManager.HeaderWords` | core/aur_manager.py:141 | `split()` of a printed hit line gives its four tokens back |
| `AurManager.HeaderFields` | core/aur_manager.py:143-159 | from a printed hit line the parser reads the name (marker removed) and votes, and popularity "0" |
| `AurManager.SearchRecordsOfRender` | core/aur_manager.py:138-168 | parsing the printed lines of well-formed hits gives every hit back, in order, with popularity "0" |
| `AurManager.ParseSearchRoundTrip` | core/aur_manager.py:136-170 | parsing the text a helper prints for well-formed hits gives every hit back in order, without its popularity |
| `AurManager.SearchExample` | core/aur_manager.py:136-170 | the two-hit yay output (Visual Studio Code, Discord) parses into two records in order, with popularity "0" |
| `AurManager.ParseSearchBlank` | core/aur_manager.py:136-139 | blank output gives no records |
| `AurManager.ParseForeignOutput` | core/aur_manager.py:226-235 | the line loop yields the name and version of each non-empty line with two tokens, in order |
| `AurManager.ReadForeignLine` | core/aur_manager.py:227-234 | one pass of the loop body yields the package a non-empty line with two tokens names, and nothing for any other line |
| `AurManager.ForeignPackages` | core/aur_manager.py:226-235 | at most one package per line, and none when no line has two tokens |
| `AurManager.ForeignRoundTrip` | core/aur_manager.py:226-235 | parsing pacman's `<name> <version>` listing gives the packages back, in order |
| `AurManager.AURManager.Open` | core/aur_manager.py:32-43 | construction raises iff the os-release file exists but cannot be read; otherwise the active helper and the Arch check are detected once, when the object is made, and no process runs |
| `AurManager.AURManager.InstallHelper` | core/aur_manager.py:60-105 | an unknown name, then a non-Arch host, is refused without running anything; otherwise the bootstrap runs and only a full success re-detects the helper, without checking that it was found |
| `AurManager.AURManager.RemoveHelper` | core/aur_manager.py:107-121 | a helper not on PATH is refused without running anything; otherwise one `sudo pacman -Rns` runs; success re-detects the helper, failure leaves it, and an exception escapes |
| `AurManager.AURManager.SearchAur` | core/aur_manager.py:123-175 | with no active helper nothing runs and nothing is found; otherwise `<helper> -Ss query` runs once, a failure finds nothing, and the output is parsed |
| `AurManager.AURManager.InstallPackage` | core/aur_manager.py:177-189 | refused with "No AUR helper installed" without running anything, else `<helper> -S --noconfirm pkg` runs once and is reported |
| `AurManager.AURManager.RemovePackage` | core/aur_manager.py:191-203 | refused without a helper, else `<helper> -Rns --noconfirm pkg` runs once and is reported |
| `AurManager.AURManager.IsPackageInstalled` | core/aur_manager.py:205-215 | always `pacman -Qi`, whichever helper is active; true iff it exits 0 |
| `AurManager.AURManager.GetInstalledAurPackages` | core/aur_manager.py:217-237 | `pacman -Qm` runs once; its output is parsed into foreign packages, and a failure lists none |
| `DevPacks.PackInstallWorker.constructor` | UI/pages/dev_packs_page.py:18-22 | the package manager, package list and action are fixed and nothing has been emitted |
| `DevPacks.PackInstallWorker.Handle` | UI/pages/dev_packs_page.py:33-48 | one iteration launches exactly the processes of the per-package outcome and returns its verdict |
| `DevPacks.PackInstallWorker.HandleAll` | UI/pages/dev_packs_page.py:30-48 | the loop emits one progress event per package handled and launches exactly their processes; an exception leaves it at once |
| `DevPacks.PackInstallWorker.Turn` | UI/pages/dev_packs_page.py:30-48 | one pass of the loop body emits the package's progress event, launches its processes and returns its verdict, keeping the loop's account of the rest of the run |
| `DevPacks.PackInstallWorker.Run` | UI/pages/dev_packs_page.py:24-60 | `run` launches the run's processes and emits its progress events followed by "Done" and the summary, or the exception's text alone |
| `DevPacks.WalkItems` | UI/pages/dev_packs_page.py:30-48 | the loop from any position is told by the packages it handles: their processes, their progress events and how it ends |
| `DevPacks.RunMeaning` | UI/pages/dev_packs_page.py:24-60 | a run is the handled packages' processes, one progress event each, then the closing events of how the loop ended |
| `DevPacks.ItemMeaning` | UI/pages/dev_packs_page.py:33-48 | the query runs first, unprivileged; a package already in the target state launches nothing more and counts as a success; otherwise exactly one privileged install or remove runs, and its status decides |
| `DevPacks.ItemOutcome` | UI/pages/dev_packs_page.py:33-48 | a package launches at most two processes (the query and one install or remove); an action other than install or remove leaves it unhandled |
| `DevPacks.Message` | UI/pages/dev_packs_page.py:52-57 | with failures the summary starts "Completed with ", otherwise "Successfully " |
| `DevPacks.ItemsShape` | UI/pages/dev_packs_page.py:30-48 | packages are handled in input order, and only an exception stops the loop early |
| `DevPacks.WorkerTally` | UI/pages/dev_packs_page.py:26-48 | without an exception every package is handled and successes + failures == total |
| `DevPacks.OtherActionDoesNothing` | UI/pages/dev_packs_page.py:33-57 | an action other than install or remove runs nothing, counts nothing and reports "Successfully removed 0 packages" |
| `DevPacks.PercentBounds` | UI/pages/dev_packs_page.py:31 | the per-package percentage is below 100 and never decreases along the list |
| `DevPacks.WorkerEvents` | UI/pages/dev_packs_page.py:30-60 | one progress event per handled package, then exactly one final `finished`, which reports success iff no exception escaped and no package failed |
| `DevPacks.ClosingShape` | UI/pages/dev_packs_page.py:50-60 | the loop ends with "Done" and the summary, or with the exception's text alone |
| `DevPacks.EmptyPack` | UI/pages/dev_packs_page.py:26-57 | an empty list runs nothing and emits only "Done" and a success with a count of 0 |
| `DevPacks.InstalledCount` | UI/pages/dev_packs_page.py:259-260 | the installed count never exceeds the pack size |
| `DevPacks.ToInstall` | UI/pages/dev_packs_page.py:307 | the to-install list is no longer than the pack and holds only packages not installed |
| `DevPacks.ToRemove` | UI/pages/dev_packs_page.py:329 | the to-remove list is no longer than the pack and holds only installed packages |
| `DevPacks.FiltersPartition` | UI/pages/dev_packs_page.py:306-331 | to-install and to-remove split the pack (as multisets) into exactly the missing and the installed packages; to-remove has installed-count elements |
| `DevPacks.ToInstallKeepsOrder` | UI/pages/dev_packs_page.py:307 | the to-install filter keeps pack order |
| `DevPacks.ToRemoveKeepsOrder` | UI/pages/dev_packs_page.py:329 | the to-remove filter keeps pack order |
| `DevPacks.ButtonLabelMeaning` | UI/pages/dev_packs_page.py:259-270 | "✓ All Installed" iff nothing is left to install; "Install Pack" iff the pack is non-empty and nothing is installed; otherwise "Install (N remaining)" with N the to-install size |
| `DevPacks.ButtonLabel` | UI/pages/dev_packs_page.py:259-270 | the label is "✓ All Installed", "Install Pack" or "Install (…"; an empty pack counts as all installed |
| `DevPacks.OnInstallPack` | UI/pages/dev_packs_page.py:306-326 | only a notice when every package is installed; otherwise the worker gets exactly the missing packages, in order |
| `DevPacks.OnRemovePack` | UI/pages/dev_packs_page.py:328-348 | only a notice when no package is installed; otherwise the worker gets exactly the installed packages, in order |
| `DevPacks.EntryRoundTrip` | UI/pages/dev_packs_page.py:299-303 | a list entry carries the package name and its installed mark and nothing else |
| `DevPacks.FormatPackagesList` | UI/pages/dev_packs_page.py:297-304 | the loop marks each package ✓ or ○, in pack order, and joins the entries with "  •  " |
| `Logs.CountOf` | UI/pages/logs_page.py:183-187 | the count for a name is the size of the view under that filter: all entries for "All" |
| `Logs.OfType` | UI/pages/logs_page.py:205-207 | the type filter keeps only entries of that type and never adds any |
| `Logs.Filtered` | UI/pages/logs_page.py:205-207 | the view never holds more entries than stored; under a type filter every shown entry has that type |
| `Logs.OfTypeConcat` | UI/pages/logs_page.py:205-207 | the type filter distributes over concatenation, keeping stored order |
| `Logs.OfTypeMembers` | UI/pages/logs_page.py:205-207 | the filtered entries are exactly the stored entries of that type |
| `Logs.FilteredMeaning` | UI/pages/logs_page.py:205-207 | "All" shows every entry; any other filter shows exactly its type's entries in stored order; no count exceeds the total |
| `Logs.KnownKindsBounded` | UI/pages/logs_page.py:87-92 | the per-type counts together never exceed the total |
| `Logs.ColorMeaning` | UI/pages/logs_page.py:214 | only Install, Remove, Update and Error get a colour of their own; Remove and Error share red |
| `Logs.ColorOf` | UI/pages/logs_page.py:214 | every type, known or not, gets a seven-character `#rrggbb` colour |
| `Logs.View` | UI/pages/logs_page.py:201-217 | one paragraph per entry the filter shows |
| `Logs.DisplayLine` | UI/pages/logs_page.py:216-217 | a paragraph ends with a space and its entry's message |
| `Logs.ViewMeaning` | UI/pages/logs_page.py:209-217 | every paragraph ends with its entry's message |
| `Logs.RowRoundTrip` | UI/pages/logs_page.py:261 | an exported line reads back as the entry it was written from |
| `Logs.ExportText` | UI/pages/logs_page.py:259-261 | the exported text is empty iff there are no entries, and otherwise ends with a newline |
| `Logs.ExportRoundTrip` | UI/pages/logs_page.py:259-261 | the exported file has one line per entry and reads back as the entries, in stored order |
| `Logs.SampleCounts` | UI/pages/logs_page.py:189-198 | the sample holds 6 entries: 3 installs, 1 update, 1 removal, 1 error |
| `Logs.SampleLogs` | UI/pages/logs_page.py:191-198 | six sample entries, each of a type that has a colour of its own |
| `Logs.LogsPage.constructor` | UI/pages/logs_page.py:13-18 | a new page filters on "All" and shows the sample entries; its cards were built from the empty list |
| `Logs.LogsPage.LoadSampleLogs` | UI/pages/logs_page.py:189-199 | the entries become the sample and the view is redrawn; the cards stay |
| `Logs.LogsPage.DisplayLogs` | UI/pages/logs_page.py:201-217 | the text area is cleared, then shows the view of the current filter |
| `Logs.LogsPage.OnFilterClicked` | UI/pages/logs_page.py:169-181 | the filter becomes the clicked name, the entries and cards are unchanged and the view is redrawn |
| `Logs.LogsPage.AddLog` | UI/pages/logs_page.py:219-223 | the new entry goes first and the earlier ones follow in their order; the view is redrawn and the cards are not rebuilt |
| `Logs.LogsPage.RefreshLogs` | UI/pages/logs_page.py:225-228 | the view is redrawn and the cards are rebuilt from the entries; nothing else changes |
| `Logs.LogsPage.ClearLogs` | UI/pages/logs_page.py:241-251 | a confirmed clear empties the entries and the view and rebuilds the cards at 0; a refused one changes nothing |
| `Logs.ActivityStats` | UI/pages/logs_page.py:79-99 | four cards; the first counts every entry and the other three together never exceed it |
| `Logs.CardsStaleAtStart` | UI/pages/logs_page.py:13-44 | the cards a new page shows, built in `init_ui` before the samples load, count 0 everywhere and so disagree with the six sample entries |
| `Logs.LogsPage.ExportLogs` | UI/pages/logs_page.py:253-262 | nothing is written without a file name; an error opening or writing the file escapes; otherwise one line per entry, in stored order |
| `Logs.AddLogCounts` | UI/pages/logs_page.py:183-187 | adding an entry adds one to "All" and to its own type, and leaves every other count |
| `Logs.AddLogView` | UI/pages/logs_page.py:205-222 | after adding, every view is the old view, with the new entry first if the filter shows it |
| `Logs.ClearedCounts` | UI/pages/logs_page.py:248-251 | an empty list counts zero for every type |
| `Home.DetectPackageManagerMeaning` | UI/pages/home_page.py:298-304 | "Unknown" iff none of pacman, apt, dnf, yum, zypper, emerge is on PATH; otherwise the display name of the first present |
| `Home.DetectPackageManager` | UI/pages/home_page.py:298-304 | the name shown is "Unknown" or the display name of a listed command that is on PATH |
| `Home.DisplayOrderDiffersFromBackend` | UI/pages/home_page.py:298-304 | with both apt and pacman present, the dashboard shows "Pacman" while the backend drives apt |
| `Home.PrettyLine` | UI/pages/home_page.py:291-292 | the chosen line starts with "PRETTY_NAME=" and is in the file; nothing iff no line does |
| `Home.PrettyLineSkips` | UI/pages/home_page.py:291-292 | lines without the key before the first PRETTY_NAME line do not matter |
| `Home.OsInfoHasNoEquals` | UI/pages/home_page.py:293 | the name is cut at the next `=`: it never contains one |
| `Home.PrettyValue` | UI/pages/home_page.py:293 | the value taken from a PRETTY_NAME line contains no `=` |
| `Home.OsInfo` | UI/pages/home_page.py:288-296 | without a readable file, or when no line starts with PRETTY_NAME=, the name is `platform.system()`; otherwise it is that or a name without `=` |
| `Home.PrettyValueOfQuoted` | UI/pages/home_page.py:293 | a quoted name without `"` or `=` reads back without its quotes |
| `Home.OsInfoOfLine` | UI/pages/home_page.py:288-296 | the OS name comes from the first PRETTY_NAME line of the file |
| `Home.OsInfoRoundTrip` | UI/pages/home_page.py:288-296 | a file whose first PRETTY_NAME line holds a quoted name yields that name |
| `Home.CountLines` | UI/pages/home_page.py:310 | a filtered line count never exceeds the number of lines |
| `Home.NonEmptyCount` | UI/pages/home_page.py:310 | the non-empty-line count never exceeds the number of lines, and blank output counts 0 |
| `Home.GuardedCount` | UI/pages/home_page.py:325 | the guarded count is the plain non-empty-line count |
| `Home.DpkgCount` | UI/pages/home_page.py:313 | the "ii" line count never exceeds the number of lines, and empty output counts 0 |
| `Home.UpgradableCount` | UI/pages/home_page.py:328 | the `/` line count never exceeds the number of lines, and empty output counts 0 |
| `Home.ListingCount` | UI/pages/home_page.py:310-325 | for a listing of one package per line, both the plain and the guarded non-empty-line counts equal the number of packages |
| `Home.DpkgCountMeaning` | UI/pages/home_page.py:313 | `dpkg -l`: exactly the printed lines starting with "ii" count |
| `Home.UpgradableCountMeaning` | UI/pages/home_page.py:328 | `apt list --upgradable`: exactly the printed lines holding `/` count |
| `Home.PacmanInstalledCount` | UI/pages/home_page.py:306-310 | with pacman present, the installed count is the number of packages `pacman -Q` lists |
| `Home.PacmanUpdatesCount` | UI/pages/home_page.py:321-325 | with pacman present, the updates count is the number of packages `pacman -Qu` lists |
| `Home.PacmanAurCount` | UI/pages/home_page.py:333-337 | with pacman present, the AUR count is the number of packages `pacman -Qm` lists |
| `Home.DpkgInstalledCount` | UI/pages/home_page.py:306-313 | without pacman and with dpkg, the installed count is the number of "ii" lines |
| `Home.RpmInstalledCount` | UI/pages/home_page.py:306-316 | without pacman and dpkg and with rpm, the installed count is the number of packages `rpm -qa` lists |
| `Home.AptUpdatesCount` | UI/pages/home_page.py:321-328 | without pacman and with apt, the updates count is the number of printed lines holding `/` |
| `Home.InstalledPackagesCount` | UI/pages/home_page.py:306-319 | without pacman, dpkg and rpm the installed count is 0 |
| `Home.AvailableUpdatesCount` | UI/pages/home_page.py:321-331 | without pacman and apt the updates count is 0 |
| `Home.AurPackagesCount` | UI/pages/home_page.py:333-340 | without pacman the AUR count is 0 |
| `Home.CountersFallBack` | UI/pages/home_page.py:306-340 | without the tools, or when running them raises, every counter is 0 |

## Left out

- The Qt widgets, layouts, style sheets, dialogs, signal wiring and `QThread` are not modelled. The worker's `progress` and `finished` signals are an appended event list (`emitted`). A dialog's answer is a parameter: the confirmation in `ClearLogs`, the save-file name in `ExportLogs`. The button restyling in `on_filter_clicked` is not modelled.
- Process execution, `shutil.which` and file reads are oracles or parameters, as described above. The 30-second search timeout and the catch-all `except` clauses are an exception outcome (`Raised`). `tempfile.TemporaryDirectory` is the abstract working directory `Workspace`; its creation and clean-up are not modelled. Whether the `capture_output`, DEVNULL or inherited output streams are used is not modelled.
- `platform.system()` (the fallback OS name) and the current time in `add_log` are parameters (`system`, `now`).
- `DevPacks.Percent`: the progress percentage is the integer `(i * 100) / total`. Python's `int(i / total * 100)` goes through floating point and can be one lower: `29 / 100 * 100` is 28.999…, which truncates to 28.
- `DevPacks.PackInstallWorker.Run`: the per-package behaviour is passed as a ghost argument `step`, together with a precondition saying it is the worker's loop body for this backend and host. The precondition can always be met (`DevPacks.HandlerImplements`). This keeps the loop's proof independent of the body's cases; it is not a restriction on callers.
- The page helpers (`ToInstall`, `ToRemove`, `InstalledCount`, `ButtonLabel`, `FormatPackagesList`) take a snapshot of which packages are installed. The page calls `is_installed` once per package, and the model does not capture changes between those calls.
- `Text.Lower` lower-cases ASCII letters only, and Python's `lower()` also folds non-ASCII letters. `Text.IsSpace` is Python's `str.isspace` set.
- `str(e)` of a `CalledProcessError` is rendered without escaping quotes inside arguments. Negative (signal) exit statuses are not described separately.
- `for line in f` on os-release is `split('\n')` of the text. Python's universal-newline handling of `\r` is not modelled.
- `AurManager.ParseSearchRoundTrip`: the round trip covers hits with a non-empty description that has no surrounding whitespace. A hit with an empty description prints a line of spaces only, and that case is not covered.
- `Logs.LogsPage.ExportLogs`: the error from opening or writing the export file is a parameter. What a failing write leaves in the file is not modelled.
- `dict.get` defaults in `display_logs` are not modelled: every stored entry has all three keys.
- `get_installed_helpers` is modelled over the helper names, the keys of `SUPPORTED_HELPERS` in declaration order.
- The rest of the application is not part of this model: the AUR installer page (a dispatch to `AURManager`), the settings page, the individual-tools page, the Node installer script, `get_packs_data`, and `update_stats`' widget rebuild. The last is represented by `ActivityStats`.
