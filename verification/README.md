# Vita Moonlight: verified models of the host and client logic

A Dafny project that models the parts of Vita Moonlight in which one thing has to be put
back, kept or read back exactly, and proves that it is. `dafny verify dfyconfig.toml`
checks all of it.

## What is modelled

**Windows host: change, remember, put back.**

- `Displays`, `DisplayChoice`, `DisplaySession`, `SessionOperations`, `EmergencyRecovery`,
  `SessionRuns`: which display a session is meant for, and the display-session transaction. A
  machine has a set of active paths, the mode of each source, an optional recovery record
  and an optional verification record. Every call may fail or be the last one before the
  process stops. A ghost history notes the state after every step, and the invariant is a
  condition on every two neighbouring moments; all operations keep it, so it holds over
  every run (`Serve`).
- `SunshineSettings`, `SunshineUndo`, `SunshineEdits`, `SunshineHooks`,
  `SunshineHookRules`, `SunshineHookRuns`, `SunshineHookStops`, `SunshineHookUndo`,
  `SunshineIntegration`, `SunshineRepeats`, `SunshineLines`, `SunshineReadiness`: the ownership
  journal as a write-ahead undo log over `sunshine.conf` (a list of lines) and `apps.json` (a
  list of applications with preparation commands). An attempt to configure may stop after each of its writes, the user may edit `sunshine.conf`
  between two attempts, and a cleanup may run again with the same journal. `SunshineReadiness`
  is the host's own question whether a file lets Sunshine manage the display.
- `JsonText`, `InventoryScanner`: the scanner for the newest display inventory in
  Sunshine's log, against the grammar of sections 2, 5, 6 and 7 of RFC 8259.
- `DisplayModes`, `VitaModes`, `DriverConfiguration`, `ConfigurationText`: the rewrite of
  the virtual display driver's mode list, as functions on the tree, as the loops that edit
  it in place, and on the text of the file.

**Support log.** `SupportRecords`, `SupportLog`, `SupportRuns`, `SupportCalls` and
`SupportLogger` model the logger: locked sections as functions on the state behind the mutex,
any number of threads as a step machine over those sections, the calls of a run against the
records of its capture, and the sections once more as methods on fields.
`RateLimit` and `RateRuns` are the eight-slot cache, `LogLines` is the Python reader's way
from lines to records and `LogSummary` its account of them.

**Client algorithms.** `WrapText` and `FitText` (text in a buffer), `AppListSort` (a linked
list on the heap), `Utf` (UTF-16 and UTF-8), `XmlQuery`, `XmlLists`, `XmlShapes` and
`XmlAnswers` (parse events), and `ConfigNumbers`, `ClientSettings`, `SettingsProfiles`,
`SettingsRoundTrip` and `SettingsObject` (the settings and their file). `HostText`, `Numerals`
and `Sequences` are shared.

## Where the code does less than it seems to

The model follows the code; each of these is proved, with the condition under which the code
does meet the property.

- A reconfigure that changes a value and stops between the journal and `sunshine.conf` is
  not undone by cleanup: the journal names the new value, the file holds the old one
  (`SunshineUndo.InterruptedReconfigure`, `InterruptedChangeIsNotUndone`,
  `SunshineIntegration.HdrSwitchIsNotUndone`).
- An applied value with outer blanks is not recognised again, since values are trimmed when
  read (`SunshineUndo.CompleteRunsAreUndone`, `SunshineIntegration.BlankDisplayIdIsNotUndone`).
- A file that gives the needed values in another spelling, such as without blanks around the
  sign, is not taken for ready, and is after a Configure and its cleanup
  (`SunshineReadiness.CleanedIsReady`, `OtherSpellingBecomesReady`). Of several lines of one key
  Configure writes the first; later ones still answer the question
  (`SunshineReadiness.NativeConfigureIsReady`, `HookConfigureIsNotReady`).
- A cleanup that runs again because the journal was still there takes out one more line if
  the user has copied the line of an added setting, and drops one more application if
  another one of a created name looks like a created one (`SunshineRepeats.CleanupIsRepeatable`,
  `CopiedLineGoesToo`, `SecondApplicationGoesToo`).
- An empty `prep-cmd`, or one that is not a list, does not survive hook and cleanup
  (`SunshineHookRuns.FirstConfigureListIsUndone`, `SunshineHookUndo.CompleteRunsAreUndone`).
- A torn log write leaves characters that belong to no record
  (`SupportRuns.EveryCaptureIsProper`).
- A field of a log record that is named like a part of the envelope takes its place when the
  line is read, so that the record is counted under another number, session or level
  (`LogLines.LineReadsBack`, `FieldOverridesNumber`).
- The display that is found to show a mode is looked up by device path; another display with
  the same path, or without one beside a virtual display without one, can be found instead
  (`SessionOperations.ShownOnVirtualDisplay`).
- A driver configuration that has everything already, but is not laid out as the XML library
  prints it, counts as changed and loses its verification
  (`ConfigurationText.UnchangedIffPrinted`).
- In a mode or application list a field is given to the record started last, wherever it
  stands, and one with elements in it or without text is not read; then some texts give a
  wrong list
  (`XmlShapes.FittingIsNeeded`, `XmlAnswers.InnerModeTakesNumbers`).
- A Configure that stops between the journal and `apps.json` after one in hook mode leaves
  the old hook to stay behind, unless the new one is the same
  (`SunshineHookStops.InterruptedHookReconfigure`).
- Of a managed virtual display with several active paths one path only is switched off
  (`EmergencyRecovery.DisableManagedVirtualDisplays`, `NoneStaysInAnyOrder`).
- UTF-16 text with a surrogate pair does not survive the two conversions (`Utf.RoundTrip`), and
  most pairs are written as the octets of another character (`Utf.PairIsEncodingIff`,
  `FaceIsWrittenAsTile`).
- The key directory is written to a part of the settings file in which it is not read, a
  bit rate of -1 is replaced when read, the old frame counter without an overlay becomes an
  overlay, key codes of 32 bits are cut, an absent application becomes Steam, and a motion
  scalar comes back as six digits behind the point give it
  (`SettingsRoundTrip.SavedSettingsComeBack`, `SavingOnceSettles`).

## Reading the contracts

- One character is one UTF-16 unit other than a surrogate on the host (`Utf` has units of all
  kinds) and one byte in the client's C strings. Comparisons that ignore case fold ASCII
  letters only; the order of names that a culture gives is an arbitrary total one.
- One file write or deletion is one step, although `WriteAllText` truncates first
  (host/VitaMoonlight.Host/TrustedFileSystem.cs:378-386).
- `ApplyPaths` makes exactly the supplied paths active, in modes that Windows chooses, or
  fails and changes nothing. Windows or the user rearrange displays only between two
  operations. Reloading the driver may leave any layout behind.
- The session lock means that operations run one after another. What needs no lock (the
  verification being discarded, the driver configuration being rewritten) may happen at
  every call. The emergency recovery takes no lock either; it runs between operations that
  do, not inside them.
- `faults` counts the calls that have failed or were the last one. An operation that leaves
  it as it was has had no such call, so what it promises for that case depends on its own
  calls only. `named` are the paths for which Windows gave a name when it was asked, `answered`
  says that it named every display it was asked about, and `listed` is the order in which it
  listed the active paths.
- Clocks, session numbers, file outcomes and the text of the start snapshots are arbitrary.
  The flag test that a logging thread makes without the mutex is a step of its own.
- `norm` is the decimal normaliser of refresh rates; what is used of it is that normal
  forms are stable and that "60" is one. `Markup` is the XML library: it parses what it
  prints, and printing that again gives the same text. `Floats` is how the C library prints
  and reads a float, rounding included. `Width` is the width of drawn text, `readable` the
  reader's test of event names, `atoi` in the mode list the C function: all arbitrary
  functions, with what is assumed of them in the `requires` of the lemma.
- Lemmas carry `{:induction false}`: every induction is written out as a recursive call.

## Model

| member | source | states |
|---|---|---|
| InventoryScanner.FindJsonArrayEnd | host/VitaMoonlight.Host/SunshineConfigurator.cs:607-636 | The depth, in-string and escape loop finds the position that the automaton closes at, which is a `]`, or -1 |
| InventoryScanner.ValueIsNeutral | host/VitaMoonlight.Host/SunshineConfigurator.cs:614-633 | Reading any printed JSON value leaves the automaton where it was, however deep it is nested |
| InventoryScanner.CompleteArrayEndsAtItsBracket | host/VitaMoonlight.Host/SunshineConfigurator.cs:607-636 | For every array of RFC 8259, printed with any whitespace and escapes and followed by anything, the scan ends at exactly its own `]` |
| InventoryScanner.HalfWrittenArrayHasNoEnd | host/VitaMoonlight.Host/SunshineConfigurator.cs:607-636 | Every proper prefix of such a printing has no end |
| InventoryScanner.ArrayTextsArePrefixFree | host/VitaMoonlight.Host/SunshineConfigurator.cs:534-606 | No array text begins another one, so stopping at the first end never cuts an inventory short |
| InventoryScanner.NewestInventory | host/VitaMoonlight.Host/SunshineConfigurator.cs:534-570 | The text from the first bracket behind the last marker to the end that the scan finds, and nothing when there is no marker, bracket or end |
| InventoryScanner.FinishedInventoryIsRead | host/VitaMoonlight.Host/SunshineConfigurator.cs:534-606 | Of a log whose newest inventory is finished the reader returns that inventory, whole, and can return nothing else, whatever stands before and after it |
| InventoryScanner.HalfWrittenInventoryIsNotRead | host/VitaMoonlight.Host/SunshineConfigurator.cs:534-606 | While the newest inventory is half written the reader returns nothing and can return nothing else, however complete an older one is |
| HostText.TrimIsTrimmed | host/VitaMoonlight.Host/SunshineConfigurator.cs:720-734 | Trimming leaves no outer white space, so a trimmed value is stable |
| HostText.TrimTakesBlanks | host/VitaMoonlight.Host/SunshineConfigurator.cs:720-734 | Trimming takes blanks off both ends and nothing else |
| HostText.LastIndexOf | host/VitaMoonlight.Host/SunshineConfigurator.cs:534-570 | The last occurrence, ignoring ASCII case |
| SunshineSettings.AssignmentReadsBack | host/VitaMoonlight.Host/SunshineConfigurator.cs:706-753 | A written assignment is found under its name and reads back as the trimmed value |
| SunshineSettings.ConfigurationLines.FindConfigurationValueIndex | host/VitaMoonlight.Host/SunshineConfigurator.cs:736-753 | The index of the first line that assigns the key, or -1 if no line does |
| SunshineSettings.ConfigurationLines.TryGetConfigurationValue | host/VitaMoonlight.Host/SunshineConfigurator.cs:720-734 | The value the first assignment gives, or none |
| SunshineSettings.ConfigurationLines.SetConfigurationValue | host/VitaMoonlight.Host/SunshineConfigurator.cs:706-718 | The first assignment is replaced in place, or one is appended |
| SunshineSettings.ConfigurationLines.RemoveConfigurationValue | host/VitaMoonlight.Host/SunshineConfigurator.cs:755-762 | The first assignment of the key disappears and every other line stays |
| SunshineSettings.ConfigurationLines.RestoreOwnedConfiguration | host/VitaMoonlight.Host/SunshineConfigurator.cs:363-393 | The result is a function of file and journal alone, so the order in which the dictionary is enumerated does not matter; it reports a change exactly when some key still held its applied value |
| SunshineSettings.CleanedJoin | host/VitaMoonlight.Host/SunshineConfigurator.cs:363-393 | Cleaning two groups of keys one after the other is cleaning them together |
| SunshineSettings.CleanedOne | host/VitaMoonlight.Host/SunshineConfigurator.cs:363-393 | A key that no longer holds its applied value is left alone; one that does gets its original value or loses its line |
| SunshineSettings.CleanedLookupOther | host/VitaMoonlight.Host/SunshineConfigurator.cs:363-393 | A key without an entry in the journal keeps its value |
| SunshineUndo.SetTracks | host/VitaMoonlight.Host/SunshineConfigurator.cs:672-704 | One owned setting keeps the journal true, of the file being edited and of the file still on disk |
| SunshineUndo.EveryRunTracks | host/VitaMoonlight.Host/SunshineConfigurator.cs:145-149 | After any number of attempts, each stopped after any of its writes, the journal holds the original value of every owned key |
| SunshineUndo.OriginalsAreKept | host/VitaMoonlight.Host/SunshineConfigurator.cs:672-704 | A key keeps the original it was first given; a new key gets its present value |
| SunshineUndo.CleanedValue | host/VitaMoonlight.Host/SunshineConfigurator.cs:363-393 | The value of every key after cleanup, in terms of file and journal |
| SunshineUndo.CleanedOthers | host/VitaMoonlight.Host/SunshineConfigurator.cs:363-393 | Cleanup keeps every line of a key it does not own, identical and in order |
| SunshineUndo.CleanupAfterAnyRun | host/VitaMoonlight.Host/SunshineConfigurator.cs:363-393 | After any run cleanup restores a key if and only if the file holds its applied or its original value; other keys and their lines are kept |
| SunshineUndo.CompleteRunsAreUndone | host/VitaMoonlight.Host/SunshineConfigurator.cs:363-393 | After any number of complete Configures cleanup restores a key if and only if its applied value has no outer blanks, or trims to the original |
| SunshineUndo.SettledIsRestored | host/VitaMoonlight.Host/SunshineConfigurator.cs:363-393 | If every owned key holds its applied value or was never written, cleanup gives the original file back, up to the spelling of owned lines |
| SunshineUndo.FirstConfigureIsUndone | host/VitaMoonlight.Host/SunshineConfigurator.cs:145-149 | A first Configure stopped after any of its writes is undone |
| SunshineUndo.InterruptedReconfigure | host/VitaMoonlight.Host/SunshineConfigurator.cs:145-149 | A reconfigure stopped between journal and file is undone for a key if and only if it applies the same value, or the value applied before was the original |
| SunshineUndo.InterruptedChangeIsNotUndone | host/VitaMoonlight.Host/SunshineConfigurator.cs:145-149 | A run in which a changed value stays behind after cleanup |
| SunshineEdits.JournalHoldsClaims | host/VitaMoonlight.Host/SunshineConfigurator.cs:672-704 | In every run with edits by the user in between, the journal owns exactly the keys some attempt has claimed, each with its value at the first claim |
| SunshineEdits.EventsKeep | host/VitaMoonlight.Host/SunshineConfigurator.cs:145-149 | Attempts touch no line of an unclaimed key: those lines are, in order, what the user last left |
| SunshineEdits.CleanupRespectsEdits | host/VitaMoonlight.Host/SunshineConfigurator.cs:363-393 | After any run of attempts, cut anywhere, and edits, cleanup gives back the value at the first claim where the applied one is still there and leaves every other value and line as the user left it |
| SunshineHooks.ManagedHookIsGenerated | host/VitaMoonlight.Host/SunshineConfigurator.cs:330-343 | The hook built for a companion of the product's own name is recognised as generated |
| SunshineHookRules.GeneratedIff | host/VitaMoonlight.Host/SunshineConfigurator.cs:330-343 | A command counts as generated if and only if it is elevated, starts a session of the client mode with the product program of some directory through the shell, and stops it with the program of some directory, case aside |
| SunshineHooks.RemoveCommands | host/VitaMoonlight.Host/SunshineConfigurator.cs:258-314 | The descending loop leaves exactly the commands the rule does not name, in order, and counts the others |
| SunshineHooks.ApplicationList.RemoveHooks | host/VitaMoonlight.Host/SunshineConfigurator.cs:258-314 | One application loses the commands a rule names, and its list when that becomes empty |
| SunshineHooks.ApplicationList.ScrubApplications | host/VitaMoonlight.Host/SunshineConfigurator.cs:55-77 | Every application loses owned and generated hooks, the journal forgets them and adopts an unchanged generated application |
| SunshineHooks.ApplicationList.AddManagedHook | host/VitaMoonlight.Host/SunshineConfigurator.cs:395-414 | The hook is added to one application and returned for the journal |
| SunshineHooks.ApplicationList.Configure | host/VitaMoonlight.Host/SunshineConfigurator.cs:55-107 | The list, the hooks and the created names after one Configure |
| SunshineHooks.ApplicationList.Cleanup | host/VitaMoonlight.Host/SunshineConfigurator.cs:180-212 | The list after cleanup |
| SunshineHooks.ApplicationList.DropCreatedApplication | host/VitaMoonlight.Host/SunshineConfigurator.cs:194-207 | An application the host created is dropped if nothing was added to it |
| SunshineHookRules.WorkedOnIsKept | host/VitaMoonlight.Host/SunshineConfigurator.cs:345-361 | An application with a command, output, preparation command, further key or the common commands back survives the cleanup, as often as it is there |
| SunshineHookRuns.ConfigureKeepsUserCommands | host/VitaMoonlight.Host/SunshineConfigurator.cs:55-107 | One Configure keeps every user command in order and leaves one generated hook, or none in native mode |
| SunshineHookRuns.AnyNumberOfConfigures | host/VitaMoonlight.Host/SunshineConfigurator.cs:55-107 | The same after any number of Configures in any modes, and cleanup keeps the user's commands too |
| SunshineHookRuns.CleanupKeepsUserCommands | host/VitaMoonlight.Host/SunshineConfigurator.cs:180-212 | Cleanup keeps every user command in order |
| SunshineHookRuns.HookIsTakenOut | host/VitaMoonlight.Host/SunshineConfigurator.cs:258-289 | Taking the hook out gives the application back, but for an empty list or a list that was none |
| SunshineHookRuns.UnwrittenListIsKept | host/VitaMoonlight.Host/SunshineConfigurator.cs:145-149 | Stopped before apps.json is written, cleanup leaves the list as it was |
| SunshineHookRuns.FirstConfigureListIsUndone | host/VitaMoonlight.Host/SunshineConfigurator.cs:180-212 | A written first Configure is undone if and only if the application's list was neither empty nor something else than a list |
| SunshineHookStops.CompleteConfiguresLeaveNoHook | host/VitaMoonlight.Host/SunshineConfigurator.cs:180-212 | After any number of complete Configures in any modes cleanup leaves no generated hook |
| SunshineHookStops.InterruptedHookReconfigure | host/VitaMoonlight.Host/SunshineConfigurator.cs:180-212 | If the next Configure stops between journal and apps.json, cleanup removes the hook in the file if and only if the new hook has the same application name and companion path; otherwise exactly that one stays |
| SunshineHookUndo.CompleteRunsAreUndone | host/VitaMoonlight.Host/SunshineConfigurator.cs:180-212 | After any number of complete Configures in any modes and under any names, cleanup gives the original list back if and only if every original application that was given a hook had a list that was neither empty nor something else than a list |
| SunshineHookUndo.AnyTriesKeepUserCommands | host/VitaMoonlight.Host/SunshineConfigurator.cs:55-107 | However many attempts stop after any of their writes, every user command stays in order, there is never more than one generated hook (or as many as at the start), and cleanup adds none |
| SunshineIntegration.Disk.Configure | host/VitaMoonlight.Host/SunshineConfigurator.cs:26-156 | Journal, apps.json and sunshine.conf after an attempt that may stop after each write |
| SunshineIntegration.Disk.RemoveManagedIntegration | host/VitaMoonlight.Host/SunshineConfigurator.cs:158-256 | The three files after a cleanup that may stop after each write; the journal goes last |
| SunshineIntegration.UpdateSettings | host/VitaMoonlight.Host/SunshineConfigurator.cs:433-472 | Setting a list of owned values one after the other |
| SunshineIntegration.SettingsArePlain | host/VitaMoonlight.Host/SunshineConfigurator.cs:433-472 | Every setting the host writes reads back as written, unless a display identifier has outer blanks |
| SunshineIntegration.FirstConfigureThenCleanup | host/VitaMoonlight.Host/SunshineConfigurator.cs:145-149 | Both files are given back after a first Configure stopped anywhere, with the one exception above |
| SunshineIntegration.NativeConfigureOfUntouched | host/VitaMoonlight.Host/SunshineConfigurator.cs:55-107 | A native Configure leaves a list without hooks alone |
| SunshineIntegration.HdrSwitchIsNotUndone | host/VitaMoonlight.Host/SunshineConfigurator.cs:449-472 | Of the settings the host writes: with the force-SDR switch turned off by a Configure that stops between journal and file, cleanup leaves the value it had applied before |
| SunshineIntegration.BlankDisplayIdIsNotUndone | host/VitaMoonlight.Host/SunshineConfigurator.cs:449-472 | A display identifier with outer blanks is left behind, trimmed, by cleanup after a complete Configure |
| SunshineLines.LineIsRead | host/VitaMoonlight.Host/SunshineConfigurator.cs:720-753 | A line is read as the name in front of its first sign and the text behind it, blanks and the case of the name aside |
| SunshineLines.HasAfterSettings | host/VitaMoonlight.Host/SunshineConfigurator.cs:669-718 | After any list of settings a file passes a test of one key if the line written last for it does, or a line behind the first one of the key |
| SunshineReadiness.NativeConfigureIsReady | host/VitaMoonlight.Host/SunshineConfigurator.cs:449-472 | After a complete native Configure, over any file and journal, the host takes the file for ready if and only if the display identifier is not blank or a line behind the first one for the output names another |
| SunshineReadiness.HookConfigureIsNotReady | host/VitaMoonlight.Host/SunshineConfigurator.cs:647-667 | After a complete hook Configure for Sunshine it does so if and only if it did before and lines behind the first ones say that Sunshine manages the display |
| SunshineReadiness.HookReads | host/VitaMoonlight.Host/SunshineConfigurator.cs:130-143 | Sunshine then reads that it manages no display |
| SunshineReadiness.CleanedIsReady | host/VitaMoonlight.Host/SunshineConfigurator.cs:647-667 | A native Configure and its cleanup leave a file that is taken for ready if and only if the original one gives the needed values when it is read; a file that was ready is ready again |
| SunshineReadiness.OtherSpellingBecomesReady | host/VitaMoonlight.Host/SunshineConfigurator.cs:669-670 | A file that gives them in another spelling was not ready and is afterwards |
| SunshineReadiness.EveryConfigureTurnsInputsOn | host/VitaMoonlight.Host/SunshineConfigurator.cs:433-447 | In every mode, over any file, Sunshine reads that every kind of input is on |
| SunshineReadiness.NativeConfigureReads | host/VitaMoonlight.Host/SunshineConfigurator.cs:449-472 | After a native Configure Sunshine reads the given display as the only one, in the stream size at 60 Hz, given back 500 ms after the end |
| SunshineReadiness.RemappingKeepsSessionSizes | host/VitaMoonlight.Host/SunshineConfigurator.cs:19-25 | The remapping keeps the sizes of the modes that sessions support and gives the native size for every other |
| SunshineReadiness.DriverNamesSessionModes | host/VitaMoonlight.Host/VitaDisplayModes.cs:10-17 | The driver configuration names the same modes |
| SunshineRepeats.CleanupIsRepeatable | host/VitaMoonlight.Host/SunshineConfigurator.cs:158-249 | A cleanup repeated with the same journal leaves both files alone if and only if no line taken out uncovers another one that assigns the applied value, and no application that is now the first of a created name looks like a created one |
| SunshineRepeats.SettingsCleanedAgain | host/VitaMoonlight.Host/SunshineConfigurator.cs:363-393 | The condition for sunshine.conf, for every file and journal, edited or not |
| SunshineRepeats.ApplicationsCleanedAgain | host/VitaMoonlight.Host/SunshineConfigurator.cs:180-212 | The condition for apps.json |
| SunshineRepeats.UneditedSettingsCleanedAgain | host/VitaMoonlight.Host/SunshineConfigurator.cs:158-249 | After attempts without edits in between, cut anywhere, a repeated cleanup leaves sunshine.conf alone |
| SunshineRepeats.CopiedLineGoesToo | host/VitaMoonlight.Host/SunshineConfigurator.cs:363-393 | A user copies the line of an added setting: the first cleanup takes one of the two, the repeated one the other |
| SunshineRepeats.SecondApplicationGoesToo | host/VitaMoonlight.Host/SunshineConfigurator.cs:194-207 | Of two applications that look created each cleanup drops one |
| Displays.Describe | host/VitaMoonlight.Host/DisplayTopologyService.cs:77-114 | One entry for every display seen, taken from its first active path or, without one, its first path; active ones first, each group in the order of names that the culture gives |
| Displays.SeenHasChosen | host/VitaMoonlight.Host/DisplayTopologyService.cs:83-105 | Every display seen has a path that stands for it, an active one if it has any |
| Displays.SelectVirtualDisplay | host/VitaMoonlight.Host/DisplayTopologyService.cs:436-450 | With a configured name the first candidate that matches it, or none if none does; without one the first managed candidate, else the first of all |
| Displays.SelectVirtualDisplayForActivation | host/VitaMoonlight.Host/DisplayTopologyService.cs:436-450 | The display to activate is available and likely virtual, and matches the name or is a managed one if there is one; there is none only if no such display matches |
| DisplayChoice.KindsByName | host/VitaMoonlight.Host/DisplayTopologyService.cs:506-526 | A display is managed by one of five names, and virtual by its technology or one of five shorter ones, in its name or device path |
| DisplayChoice.KeysTellDisplays | host/VitaMoonlight.Host/DisplayTopologyService.cs:99-105 | Two paths are of one display if they have one device path, case aside, or none and one target |
| DisplayChoice.SelectedIsPicked | host/VitaMoonlight.Host/DisplayTopologyService.cs:436-478 | For every description in order, the selected entry is the candidate with the configured name, or a managed one or, without one, any, that precedes all others of its kind; there is none only if no listed path is wanted |
| DisplayChoice.PickedSuits | host/VitaMoonlight.Host/DisplayTopologyService.cs:436-450 | What is picked for a session is available, virtual and of the configured name; without a name it is managed if a managed one may be used |
| DisplayChoice.SuitableIsWanted | host/VitaMoonlight.Host/DisplayTopologyService.cs:436-450 | With every display named, a suitable display on the list means that one is picked |
| DisplayChoice.VerificationPaths | host/VitaMoonlight.Host/DisplayTopologyService.cs:290-300 | The paths kept beside the virtual display are one path of each active physical display that was named |
| DisplayChoice.RecoveryPaths | host/VitaMoonlight.Host/DisplayTopologyService.cs:178-185 | The paths of a recovery are one of each available physical display, of the active ones if there are any |
| DisplayChoice.KeptIsFirstListed | host/VitaMoonlight.Host/DisplayTopologyService.cs:77-114 | With every display named, what is kept of the active paths is the first one listed of each named display that is a physical one |
| DisplayChoice.KeptKeepsPhysical | host/VitaMoonlight.Host/DisplayTopologyService.cs:290-300 | So no physical display that was active on one path of its own is lost |
| DisplayChoice.VitaNameIsManaged | host/VitaMoonlight.Host/DisplayTopologyService.cs:506-526 | A display with the name that a prime looks for is a managed one |
| DisplaySession.RecordHoldsTheOriginal | host/VitaMoonlight.Host/SessionManager.cs:105-160 | In every history of kept steps a record holds the layout of the last moment without one |
| DisplaySession.CompanionConservesPaths | host/VitaMoonlight.Host/SessionManager.cs:105-172 | As long as only the companion acts, the active paths at moments without a record never change |
| DisplaySession.EveryConfirmationIsAPrime | host/VitaMoonlight.Host/SessionManager.cs:47-94 | Every moment at which a verification's configuration is read ends a prime: a record written by the companion, the native mode shown beside a physical display under that record, the layout put back and the record removed, and at most one step from outside since |
| DisplaySession.AcceptedConfigurationWasConfirmed | host/VitaMoonlight.Host/DriverNativeModeVerification.cs:97-107 | With a collision-free hash, an accepted verification was made from exactly the present configuration, read at the end of such a prime |
| DisplaySession.OnlyItsOwnMatches | host/VitaMoonlight.Host/DriverNativeModeVerification.cs:97-107 | A verification is accepted for exactly the hash that a prime recorded |
| DisplaySession.Machine.Call | host/VitaMoonlight.Host/SessionManager.cs:237-249 | A call may fail or be the last one, and others may act meanwhile; layout and record stay |
| DisplaySession.Machine.ApplyPaths | host/VitaMoonlight.Host/DisplayTopologyService.cs:299-309 | Exactly the supplied paths become active, or nothing changes |
| DisplaySession.Machine.CaptureRecovery | host/VitaMoonlight.Host/DisplayTopologyService.cs:116-132 | The record to save holds the present layout |
| DisplaySession.Machine.SaveRecovery | host/VitaMoonlight.Host/DisplayTopologyService.cs:187-193 | The stored record is replaced as one step, or not at all |
| DisplaySession.Machine.ClearRecovery | host/VitaMoonlight.Host/DisplayTopologyService.cs:492-495 | The record is deleted, or stays; removing it after the native mode was shown is the step that lets a configuration be recorded |
| DisplaySession.Machine.Restore | host/VitaMoonlight.Host/DisplayTopologyService.cs:484-490 | The layout of the record becomes active, or nothing changes |
| DisplaySession.Machine.RestoreAndClear | host/VitaMoonlight.Host/SessionManager.cs:144-159 | The record goes only after its layout is back, as the last step |
| DisplaySession.Machine.Invalidate | host/VitaMoonlight.Host/DriverNativeModeVerification.cs:26-29 | The verification record is gone, or the call has failed and nothing but interference changed |
| DisplaySession.Machine.RecordCurrent | host/VitaMoonlight.Host/DriverNativeModeVerification.cs:31-39 | Right after a restored prime, the new verification is of a configuration read in this call |
| DisplaySession.Machine.IsCurrent | host/VitaMoonlight.Host/DriverNativeModeVerification.cs:41-81 | Accepted only if the stored record matches the hash of the present configuration, and always if it does and the calls succeed |
| SessionOperations.ActivateVirtualDisplay | host/VitaMoonlight.Host/DisplayTopologyService.cs:210-261 | Done means that the display picked from the listed and named ones for the configured name is active, alone, in the wanted mode; at every moment the old layout is shown or an available virtual display of that name, alone; when its calls succeed and Windows names every display, it is done if and only if there is one to pick |
| SessionOperations.ChangeActiveMode | host/VitaMoonlight.Host/DisplayTopologyService.cs:311-332 | Exactly the mode of a display with the device path changes, or nothing; the active paths never change |
| SessionOperations.ActivateWithRetry | host/VitaMoonlight.Host/SessionManager.cs:200-235 | The same for up to so many tries; with succeeding calls, every display named and a suitable display listed, it is done |
| SessionOperations.Start | host/VitaMoonlight.Host/SessionManager.cs:105-160 | A started session shows, alone and in the wanted mode, the display picked for the configured name, and has a record with its name and the layout before; at every moment only the layout before, the one a driver reload left, or such a display is shown; if no listed display suits, it is not done; with succeeding calls, every display named, a valid mode, no record and a suitable display it is done; it refuses on its own only an invalid mode or a pending record, which it never overwrites |
| SessionOperations.CompleteStart | host/VitaMoonlight.Host/SessionManager.cs:139-159 | The activated display is noted in the record, or the recorded layout is put back and the record removed |
| SessionOperations.BeginTransaction | host/VitaMoonlight.Host/SessionManager.cs:105-130 | The lock is taken and a record of the present layout is written, or nothing has changed |
| SessionOperations.RestoreIfPending | host/VitaMoonlight.Host/SessionManager.cs:162-172 | Done means no record and the recorded layout; the record goes only with its layout restored; it is done unless one of its own calls fails |
| SessionOperations.RestoreTwice | host/VitaMoonlight.Host/SessionManager.cs:162-172 | A second restore changes nothing; both are done unless a call of theirs fails |
| SessionOperations.ChangeMode | host/VitaMoonlight.Host/SessionManager.cs:176-198 | Done means that exactly the mode of the active virtual display picked for the configured name changed, else nothing did; the active paths and the record never change, at any step; when its calls succeed it is done if and only if the mode is supported and provisioned and there is a display to pick |
| SessionOperations.VerifyVirtualDisplayModeSafely | host/VitaMoonlight.Host/DisplayTopologyService.cs:263-348 | If a physical display was active, one is active at every moment of every outcome, and if Windows named every display, each that was active on one path of its own is; success means the mode is shown by a display with the device path of a listed virtual one of the given name, the only path added, and by a virtual display if no other one shares that path; with succeeding calls, every display named, a suitable display and an active physical one it succeeds |
| SessionOperations.ShownOnVirtualDisplay | host/VitaMoonlight.Host/DisplayTopologyService.cs:311-348 | Looking a display up by device path finds the virtual one, in whatever modes, if and only if no other source shows a display with a virtual one's device path |
| SessionOperations.TryModes | host/VitaMoonlight.Host/DisplayTopologyService.cs:311-348 | Trying modes keeps the active paths, so a physical display stays active; success means the mode was set |
| SessionOperations.AddBesidePhysical | host/VitaMoonlight.Host/DisplayTopologyService.cs:290-309 | Exactly the virtual display and one active path of each named, available physical display become active, or nothing changes; when its calls succeed it fails only without such a display |
| SessionOperations.WaitForVirtualDisplay | host/VitaMoonlight.Host/DisplayTopologyService.cs:350-410 | The display found is the one picked from the list for the name; the layout stays; with succeeding calls, every display named and a suitable display it is found |
| SessionOperations.VerifyAndRestore | host/VitaMoonlight.Host/SessionManager.cs:47-94 | Between record and restore a physical display stays active, and with every display named each one on a path of its own; a failure leaves the record of the original layout; verified and restored means the last step removed the record of a transaction in which the native mode was shown on the Vita display |
| SessionOperations.PrimeNativeMode | host/VitaMoonlight.Host/SessionManager.cs:24-103 | If a physical display was active, one is active at every moment; if Windows named every display, each named, available physical display that was active on one path of its own is active at every moment of every outcome; done means the native mode was shown beside them on a listed display of the Vita name, which the record named, the layout is back and, after that moment, the configuration now verified was read; a prime that wrote its record and is not done leaves no verification; with succeeding calls, every display named, a Vita display listed and a physical one active it is done unless a record was pending |
| EmergencyRecovery.RecoverPhysicalDisplays | host/VitaMoonlight.Host/DisplayTopologyService.cs:159-185 | Exactly one path of each named, available physical display is active afterwards, of the active ones if one is; it refuses only if there is none |
| EmergencyRecovery.DisableManagedVirtualDisplays | host/VitaMoonlight.Host/DisplayTopologyService.cs:134-157 | If Windows named every display, exactly the managed paths go that are listed first of their display; others stay in any case, and one path of each display with several; it refuses only if nothing else would be left |
| EmergencyRecovery.NoneStaysInAnyOrder | host/VitaMoonlight.Host/DisplayTopologyService.cs:134-157 | No managed display stays active, in whatever order Windows lists the paths, if and only if no managed one has another active path of the same display |
| EmergencyRecovery.VerifyPhysicalOnlyTopology | host/VitaMoonlight.Host/UninstallManager.cs:71-94 | Done means a physical display is active and, if Windows named every display, no listed display that is managed on all its paths; it refuses only if not just physical displays are |
| EmergencyRecovery.DiscardTransaction | host/VitaMoonlight.Host/UninstallManager.cs:39-58 | Success means the record is gone and, unless protection is set up, the verification; the layout stays |
| EmergencyRecovery.RecoverPhysicalAndDiscardPendingTransaction | host/VitaMoonlight.Host/UninstallManager.cs:26-64 | Done means physical displays only, no record and, unless protection is set up, no verification; the record goes in no other case than with physical displays only; with an available physical display and answering calls it never refuses |
| SessionRuns.Serve | host/VitaMoonlight.Host/SessionManager.cs:12-198 | Any run of all operations, with the user rearranging displays in between, consists of kept steps |
| SessionRuns.ServeAndRestore | host/VitaMoonlight.Host/SessionManager.cs:105-172 | After any such run, with operations failed or stopped anywhere in it, a restore whose own calls succeed brings back the layout of the last moment without a record |
| DisplayModes.CleanKeepsRates | host/VitaMoonlight.Host/DisplayWizardAdapter.cs:717-757 | Normalising a list of rates keeps the set of rates, without blanks, repeats or excluded ones |
| DisplayModes.CleanIsStable | host/VitaMoonlight.Host/DisplayWizardAdapter.cs:717-757 | A normal list is left as it is |
| DisplayModes.NormalizedOffers | host/VitaMoonlight.Host/DisplayWizardAdapter.cs:717-757 | Normalising the tree keeps the modes the driver offers |
| DisplayModes.NormalizedIsStable | host/VitaMoonlight.Host/DisplayWizardAdapter.cs:717-757 | A normal tree is left as it is |
| DisplayModes.FirstSized | host/VitaMoonlight.Host/DisplayWizardAdapter.cs:620-622 | The first resolution of a size, and none before it |
| DisplayModes.WithModeOffers | host/VitaMoonlight.Host/DisplayWizardAdapter.cs:609-640 | The resolutions offer what they did, the mode asked for and, for a new size, the global rates |
| DisplayModes.AddModeChangesExactlyThatMode | host/VitaMoonlight.Host/DisplayWizardAdapter.cs:609-642 | Adding a mode changes the offered modes by exactly that mode (with the global rates if the size is new), and every rate list is normal afterwards |
| VitaModes.ModeAddedAgain | host/VitaMoonlight.Host/DisplayWizardAdapter.cs:609-642 | Adding a mode that is there already changes nothing |
| VitaModes.VitaModesOffered | host/VitaMoonlight.Host/DisplayWizardAdapter.cs:644-679 | The modes offered after the Vita modes are added |
| VitaModes.VitaModesAreAccepted | host/VitaMoonlight.Host/DisplayWizardAdapter.cs:681-696 | The result is always accepted as provisioned |
| VitaModes.AcceptedIffNothingMissing | host/VitaMoonlight.Host/DisplayWizardAdapter.cs:681-696 | A list is accepted if and only if its first resolution gives the native mode and provisioning it would offer no other mode |
| VitaModes.OtherResolutionsKeepTheirOrder | host/VitaMoonlight.Host/DisplayWizardAdapter.cs:656-679 | The other resolutions keep their order |
| VitaModes.AddingVitaModesIsIdempotent | host/VitaMoonlight.Host/DisplayWizardAdapter.cs:644-679 | A second run changes nothing |
| DriverConfiguration.Document.CleanInPlace | host/VitaMoonlight.Host/DisplayWizardAdapter.cs:717-757 | The loop that removes and rewrites rates in the live list leaves the normal list |
| DriverConfiguration.Document.NormalizeRefreshRates | host/VitaMoonlight.Host/DisplayWizardAdapter.cs:717-757 | The document is the normal form of what it was |
| DriverConfiguration.Document.AddMode | host/VitaMoonlight.Host/DisplayWizardAdapter.cs:609-642 | The document with the mode added, normalised |
| DriverConfiguration.Document.MoveVitaModesToFront | host/VitaMoonlight.Host/DisplayWizardAdapter.cs:656-679 | Taking three elements out and putting them in front, last one first, gives the preferred order; it tells whether they were in front already |
| ConfigurationText.ConfigurationFile.AddVitaModes | host/VitaMoonlight.Host/DisplayWizardAdapter.cs:644-679 | The text after parsing, editing and printing it once for every mode and once more to reorder, or none if it holds no document |
| ConfigurationText.ProvisionedTree | host/VitaMoonlight.Host/DisplayWizardAdapter.cs:644-679 | Provisioning a text, printed anew at every step, provisions the tree that it holds |
| ConfigurationText.UnchangedIffPrinted | host/VitaMoonlight.Host/DisplayWizardAdapter.cs:333-345 | A text is left alone if and only if it holds a provisioned tree and is laid out as the XML library prints it |
| ConfigurationText.ProvisionedAgain | host/VitaMoonlight.Host/DisplayWizardAdapter.cs:644-679 | Provisioning a provisioned text changes nothing, and its tree is accepted |
| ConfigurationText.ConfigurationFile.EnsureVitaModes | host/VitaMoonlight.Host/DisplayWizardAdapter.cs:333-345 | The file is rewritten, and the verification discarded, exactly when the text changes; a text without a document stays |
| ConfigurationText.ConfigurationFile.EnsureVitaModesTwice | host/VitaMoonlight.Host/DisplayWizardAdapter.cs:333-345 | A second call finds nothing to change and the result provisioned |
| SupportRecords.SafeToken | src/debug.c:138-155 | The buffer holds the token of the name, cut and made safe |
| SupportRecords.TokenKeepsTheFront | src/debug.c:138-155 | Of any name the front that fits is kept, with an underscore for every character that is not safe |
| SupportRecords.SanitizeFields | src/debug.c:157-166 | Every unsafe character of the fields is overwritten in place, and nothing behind them |
| SupportRecords.SafeFieldsAreKept | src/debug.c:157-166 | Fields of safe characters are written as they are |
| SupportRecords.RecordsAreLines | src/debug.c:168-195 | What is written for a record is one line, even when it is cut to the buffer |
| SupportRecords.OneLineEach | src/debug.c:168-195 | A file of such records has one line for each, in order |
| SupportLog.WriteKeeps | src/debug.c:168-212 | One record, written, torn or lost, keeps the capture numbered without a gap |
| SupportRuns.EndRecordIsTruthful | src/debug.c:623-637 | The numbers in the end record, which counts itself, are those of the whole capture, warnings and errors modulo 2^32 |
| SupportRuns.StepKeeps | src/debug.c:530-684 | Every step of every thread keeps the invariant, with the mutex held by one thread at most; a capture with its end record stays as it is until the next one starts |
| SupportRuns.EveryCaptureIsProper | src/debug.c:530-684 | In every interleaving the capture is numbered 1 to n, of one session, with a truthful end; the file is exactly its lines if and only if no write was torn |
| SupportCalls.CapturesTellTheCalls | src/debug.c:530-575 | In every interleaving the records behind the first four are, in order, exactly those of the calls whose write was complete, each with the level, name and fields asked for, and the end record gives the numbers of warnings, errors and held-back messages among them |
| SupportCalls.CompleteCapturesTellAll | src/debug.c:623-637 | When the file takes everything, they are all the calls made while the capture was on |
| SupportCalls.PerformedAdds | src/debug.c:530-575 | What one call adds to the records |
| SupportLogger.Logger.WriteRecord | src/debug.c:168-212 | The fields after one record |
| SupportLogger.Logger.Event | src/debug.c:554-575 | The locked section of an event: while a capture is on it adds exactly one record, with its level, name and fields made safe, if the write is complete; a settled log afterwards |
| SupportLogger.Logger.LegacyLog | src/debug.c:530-552 | The locked section of a legacy message under its category's hash, held back exactly when the table of categories says so; otherwise it adds exactly one error record of the category; the cache always has room |
| SupportLogger.Logger.TurnOn | src/debug.c:590-622 | A capture is opened with its four records, or given up |
| SupportLogger.Logger.TurnOff | src/debug.c:623-684 | The end record is written and the file closed |
| SupportLogger.TurnOnIsARun | src/debug.c:590-622 | The locked section is a run of the threads model with the same effect |
| SupportLogger.CallIsARun | src/debug.c:530-575 | So are the sections of an event and of a legacy message, with the records that the call adds |
| SupportLogger.TurnOffIsARun | src/debug.c:623-684 | And that of turning capture off |
| LogSummary.SessionBuilder.Add | tools/summarize-vita-log.py:589-621 | The account after one more record |
| LogSummary.NothingWrongIffConsecutive | tools/summarize-vita-log.py:600-611 | Nothing is found missing or out of order if and only if every number follows the one before |
| LogSummary.ReadOrMissing | tools/summarize-vita-log.py:600-611 | Of increasing numbers every one between first and last is read or counted missing |
| LogSummary.FinishedCapture | tools/summarize-vita-log.py:589-621 | Of a finished capture exactly the unreadable lines are missing and nothing is out of order |
| LogSummary.ReaderAgreesWithEnd | tools/summarize-vita-log.py:589-621 | When every line is readable nothing is found missing, even in a capture cut off anywhere, and the numbers in the end record are the reader's own counts, warnings and errors modulo 2^32 |
| LogLines.EnvelopeReadsBack | tools/summarize-vita-log.py:439-525 | Split into shell words, an envelope with anything behind it reads back if and only if the event has a name the reader accepts and no field behind overrides a part of the envelope |
| LogLines.QuotedWordIsRead | tools/summarize-vita-log.py:439-525 | A word in double quotes is read as what stands between them, and counts even if it is empty |
| LogLines.HexHasValue | src/debug.c:168-195 | The written session number has the value it was written for |
| LogLines.LineReadsBack | tools/summarize-vita-log.py:439-525 | The same for the line written for any record, cut to the buffer or not; with a name that is not accepted the line is not read |
| LogLines.FieldOverridesNumber | tools/summarize-vita-log.py:439-525 | A field named like a part of the envelope takes its place: the record is read under another number |
| LogLines.EndLineReadsBack | tools/summarize-vita-log.py:439-525 | The end record reads back with each of its six fields |
| LogLines.FileReadsBack | tools/summarize-vita-log.py:439-525 | A file of such records reads back as the records whose events have accepted names, in order |
| LogLines.ReadingsAreKept | tools/summarize-vita-log.py:439-525 | These are, in number, level and event, the records that the account of the capture is made of |
| RateLimit.Cache.FindSlot | src/debug.c:306-324 | The slot of the hash, else the first free one, else the one written longest ago |
| RateLimit.Cache.Limit | src/debug.c:306-339 | While there is room the slots do exactly what a map from hash to entry does; otherwise the oldest entry is lost; every repeat stays accounted for |
| RateLimit.WithRoom | src/debug.c:306-339 | The slot decides as the map does |
| RateLimit.HeldBack | src/debug.c:326-338 | Held-back repeats equal those reported, pending and dropped, with both counters wrapping at 32 bits |
| RateRuns.AdmittedAreApart | src/debug.c:306-339 | Two admitted messages of one hash are at least ten seconds apart |
| RateRuns.HeldBackHasReason | src/debug.c:306-339 | A message is held back only less than ten seconds after an admitted one of its hash |
| RateRuns.CategoriesHaveRoom | src/debug.c:271-304 | The categories never need more than seven slots, under any hash |
| RateRuns.CategoryIsFirstMentioned | src/debug.c:271-304 | A message belongs to the first category one of whose words it mentions |
| RateRuns.Feed | src/debug.c:306-339 | Fed with the messages of a capture, the slots admit exactly those the table admits, drop nothing, and count every message held back as reported or pending, modulo 2^32 |
| WrapText.CodepointSize | src/gui/guilib.c:58-77 | What the lead byte announces if it is all there, else one byte; never past the end |
| FitText.CharacterIsOne | src/gui/guilib.c:58-77 | Every character of section 4 of RFC 3629 is taken for one code point, whatever stands before and behind it |
| FitText.LongOnesAreLedAndTailed | src/gui/guilib.c:58-77 | Only a lead with its tails is taken for a code point of more than one octet |
| WrapText.Wrap | src/gui/guilib.c:380-439 | Terminates; every line fits or has no blank, ends at a newline or where the next word did not fit, and below the limit the lines reach the end of the text |
| WrapText.WrappingLosesNothing | src/gui/guilib.c:380-439 | The lines with the separators between them are the text |
| FitText.Fit | src/gui/guilib.c:79-133 | The buffer shows the fitted text, and the width returned is its width |
| FitText.ShownTextFits | src/gui/guilib.c:79-133 | What is shown fits buffer and width, and is the text or, if that does not fit, the longest front of whole code points that leaves room for an ellipsis, without blanks at its end, and the ellipsis; nothing is shown exactly when there is no room for an ellipsis, or for anything |
| AppListSort.SwapEntries | src/util.c:9-20 | Contents are exchanged and links stay |
| AppListSort.Sort | src/util.c:22-44 | Terminates without following a null link; links stay; the contents are sorted by name, rearranged stably |
| AppListSort.Pass | src/util.c:31-42 | One pass puts the last name in front of the part already settled |
| AppListSort.NotAfterIsTransitive | src/util.c:35 | The comparison orders names |
| AppListSort.NotAfterIsLexicographic | src/util.c:35 | It is the order of the first octet in which two names differ, a front first |
| Utf.Utf16ToUtf8 | src/gui/ime.c:29-51 | The buffer holds the encoding of the units |
| Utf.Utf8ToUtf16 | src/gui/ime.c:53-69 | The buffer holds the units the octets stand for and a zero, an overlong zero among them or not |
| Utf.SingleIsTheEncoding | src/gui/ime.c:31-49 | What is written for a unit is its encoding by section 3 of RFC 3629, and nothing else is |
| Utf.EncodedIsConcatenation | src/gui/ime.c:29-51 | Without surrogates the output is one such encoding after another |
| Utf.PairIsEncodingIff | src/gui/ime.c:36-41 | What is written for a surrogate pair is its encoding if and only if the number is below 0x100000 and the low two bits of each unit equal bits 8 and 9, with bits 6 and 7 of the second one zero |
| Utf.FaceIsWrittenAsTile | src/gui/ime.c:36-41 | U+1F600 is written as the octets of U+1F000 |
| Utf.RoundTrip | src/gui/ime.c:29-69 | Decoding the encoding gives the units back if and only if they hold no surrogate pair; it is never incomplete |
| XmlQuery.SearchQuery.On | libgamestream/xml.c:35-45 | The handlers of a search on one event |
| XmlQuery.SearchFindsAllText | libgamestream/xml.c:140-165 | A search gives all text under elements of the name, in document order |
| XmlQuery.ChunksDoNotMatter | libgamestream/xml.c:127-138 | The result does not depend on the chunks text is delivered in |
| XmlQuery.ListQuery.On | libgamestream/xml.c:47-111 | The handlers of a list query on one event |
| XmlQuery.ElementIsRead | libgamestream/xml.c:47-111 | What the handlers do with any element in any state: a field without elements goes to the record started last, if there is one, and nothing else is kept |
| XmlLists.ListIsEffect | libgamestream/xml.c:167-209 | For every document, the fields that each node holds, and those that each record owns |
| XmlLists.ListFindsAllRecords | libgamestream/xml.c:167-209 | For every document the list has one node for every record at any depth, last one first; from a document that fits each holds its own fields |
| XmlShapes.ListIsRightIffItFits | libgamestream/xml.c:167-209 | When the texts tell the fields apart, the list is right if and only if the document fits: fields stand in the record started last, and the one that counts has text and no elements |
| XmlShapes.FittingIsNeeded | libgamestream/xml.c:167-209 | A document fits if and only if the list is right for every document of its shape, whatever its texts |
| XmlAnswers.WrittenListComesBack | libgamestream/xml.c:167-209 | Every record of a written list comes back, last one first, with its own fields |
| XmlAnswers.ModeListComesBack | libgamestream/xml.c:190-209 | Every mode of a list comes back, last one first, with its own numbers |
| XmlAnswers.AppListComesBack | libgamestream/xml.c:167-188 | Every application of a list comes back, last one first, with its own title and number |
| XmlAnswers.InnerModeTakesNumbers | libgamestream/xml.c:82-111 | A mode inside a mode does not fit: the numbers after it end up in the inner one |
| ConfigNumbers.IntReadsBack | src/config.c:225-230 | A written number is read back |
| ConfigNumbers.CodeReadsBack | src/config.c:225-230 | A written key code is read back if and only if it fits 31 bits |
| ConfigNumbers.CodesSaturate | src/config.c:225-230 | Whatever the text, a key code is its signed number moved into the range of a 32-bit long, modulo 2^32 |
| ConfigNumbers.BlanksAreSkipped | src/config.c:225-230 | Blanks in front of a number do not matter |
| ClientSettings.SanitizeAxis | src/config.c:361-372 | The margins after the in-place correction |
| ClientSettings.AxisLeavesRoom | src/config.c:357-372 | A pixel stays usable, valid margins are kept, and of others the leading one keeps its proportion, rounded down |
| ClientSettings.SanitizedIsSane | src/config.c:374-439 | Sanitizing makes any settings valid and leaves exactly the valid ones as they are |
| SettingsProfiles.SanitizedKeepsOrResets | src/config.c:374-439 | Every valid field stays, and one that is not gets the value of a missing entry |
| SettingsProfiles.ZonesGoToTheNearest | src/config.c:374-439 | A touch zone stays if it can be, else goes to the nearest one |
| SettingsProfiles.MigrationChangesOldProfiles | src/config.c:610-642 | Settings of an older version get the automatic route if they are an old preset, no motion controls if they are an old profile, and the recommended bit rate for a low one chosen before version 2, and change nowhere else; current ones stay |
| SettingsProfiles.OldEntriesAreRead | src/config.c:225-341 | Entries of old files are still understood |
| ClientSettings.ParsedIsSane | src/config.c:535-677 | Whatever the file says, the settings read are valid, of the current version or a newer one, and name a bit rate and, where the environment suggests one, a key directory |
| SettingsRoundTrip.FileIsRead | src/config.c:441-522 | What a saved file sets, elided entries included |
| SettingsRoundTrip.SavedSettingsComeBack | src/config.c:441-677 | Valid settings of the current version come back if and only if they are storable |
| SettingsRoundTrip.SavingOnceSettles | src/config.c:441-677 | Saving and reading any settings once makes them storable, so that no later round changes them, as long as six digits tell a read float from the others |
| SettingsRoundTrip.MigrationIsKept | src/config.c:610-642 | Settings of an older version, migrated and written back, are read again as they were used if and only if they are storable |
| SettingsRoundTrip.ReadingSettles | src/config.c:535-677 | Settings once read, if storable, are stable under saving and reading |
| SettingsObject.Configuration.Sanitize | src/config.c:374-439 | The structure after sanitizing |
| SettingsObject.Configuration.Save | src/config.c:441-522 | The entries written, in order, and the structure sanitized |
| SettingsObject.Configuration.Handle | src/config.c:225-341 | The structure after one entry |
| SettingsObject.Configuration.Parse | src/config.c:535-677 | The structure after defaults, file, migration and sanitizing, and the file that a migration writes back |
| SettingsObject.SaveAndRead | src/config.c:441-677 | Saving one structure and reading into another gives the settings back |
| SettingsObject.Configuration.ApplyPreset | src/config.c:121-164 | The structure after a preset, field by field |
| SettingsObject.Configuration.ApplyProfile | src/config.c:197-216 | The structure after a controller profile |
| SettingsProfiles.PresetIsDetected | src/config.c:92-164 | A preset is detected exactly when applying it changes nothing, and always after it was applied |
| SettingsProfiles.ProfileIsDetected | src/config.c:176-216 | The same for controller profiles |
| SettingsProfiles.EmptyFileIsRecommended | src/config.c:535-677 | A file that sets nothing gives the recommended preset and, unless the shoulder buttons were swapped before, the compatible controller profile |
| SettingsProfiles.RecommendedGrows | src/config.c:58-74 | The recommended bit rate grows with size and rate, between 1000 and 30000, and presets name rates of that kind |

## Left out

- Win32, registry, service, task and process calls, installers, TrustedFileSystem and the trust checks: only "write, read and delete a stored value" is kept of them.
- A failed SetDisplayConfig that leaves a third layout behind, and Windows rearranging displays in the middle of an operation.
- Interleaving the emergency recovery with an operation that holds the session lock: the claims about records are for recoveries between such operations.
- JSON and XML as text outside the inventory scanner: trees, entries and events stand for the documents; for the driver's configuration file printing and parsing are two functions that fit together.
- Parsing and formatting decimals in refresh rates: an arbitrary normaliser with stable normal forms.
- The display candidates inside a parsed inventory, the fallback for logs without one, waiting for a log to grow, and the backup file.
- Several configuration directories in one journal: one location is modelled.
- Setting values with line breaks.
- DisplaySession.Machine.QueryAllPaths: the catalogue of paths does not change during a run.
- SupportLog: the 64-bit record number does not wrap, the rotation of the previous log file and flushing are not modelled, and a configuration snapshot on request is an event like any other.
- RateLimit: message_hash is any function with values above zero; two categories of one hash would share a slot.
- LogSummary.SessionBuilder.Add: leaves out the reader's other counters, its lists of the latest and of notable events and its network averages, each of which copies or counts one field of a record and would add easy members only.
- LogLines: the tables of field values that are safe to repeat, timestamps, oversized lines and the counts of unknown fields and malformed words.
- WrapText.Wrap: a buffer that could not be allocated gives no lines.
- FitText.ShownTextFits: what is shown can be wider than allowed for other widths; it assumes a width that does not shrink with more text and is at most the sum of its parts.
- Utf.Utf8ToUtf16: requires octets in which no lead octet announces more than there is, because the loop reads what it announces.
- XmlQuery.ListQuery.On: notes that a field had no text, where the code keeps the byte that it allocated and never wrote; XmlAnswers reads it as an arbitrary text.
- XmlQuery: allocation failures, parse errors and xml_status.
- SettingsObject.Configuration.Save: a file that cannot be opened ends the client.
- The constant settings of a stream, and reading settings when there is no file.
- ConfigNumbers.IntReadsBack: numbers beyond 32 bits, for which atoi is not defined, are read as they are.
- The ini library's trimming, comments and line length.
- Turning HDR off after a mode was set: the call may fail, and the model has no state for it.
- connection.c, menus, drawing, pairing, curl, sockets, mDNS, wake-on-LAN and the input dialog itself: finite tables, user interface or foreign libraries.
