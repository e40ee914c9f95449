# DNsight core, modelled in Dafny

DNsight is a desktop utility that switches the DNS resolvers of the active
network adapter. The user picks one of five built-in providers (Electro,
Radar, Shekan, Bogzar, Quad9), a Custom pair typed by hand, or a Saved
entry persisted in a JSON file. The application sets or clears the adapter's
resolvers or tests them on a worker thread, and it can monitor latency to a
reference host. This project models the application's state machine and the
small algorithms around it:

- `domain.dfy` (module `Domain`): the provider variant set with its fixed
  constructors, `get_servers`, `display_name` and the defaults; the
  operation, result, application-state and DNS-state enums.
- `app.dfy` (module `App`): the worker's result as a pure function of the
  operation, the resolved adapter and the gateway's answers; the derivation
  of the DNS state; the bounded latency history; the add-entry validation.
  It also holds the class `MyApp`, whose methods update the application's
  fields in place: dispatch, result drain, ping start/stop and sample drain,
  list clicks, the custom window, the add window's save path and the delete
  path.
- `ui.dfy` (module `Ui`): `is_valid_ip` (a loop over the dotted parts,
  proved against the predicate `ValidIp`), Rust's `u8` parsing, the flag of
  the address input, the provider list, its selected index, highlighting
  and click callbacks.
- `storage.dfy` (module `Storage`): loading, saving, adding and deleting
  saved entries. The file is abstracted as a `FileState`, and the outcome
  of each write is a parameter.
- `text.dfy` (module `Text`): the parts of Rust's `str` API the core uses
  (`trim`, `split`, `join`, `contains`, `eq_ignore_ascii_case`).
- `base.dfy` (module `Base`): `Option` and a `Result<(), String>` stand-in.

The worker thread and its channel pair become the field `pending`. Dispatch
fills it with the result the worker will send, and the drain empties it.
Only one operation can therefore be in flight: a second dispatch replaces
the first result. The operating-system gateway (`get_active_adapter`,
`get_current_dns`, `set_dns_with_result`, `clear_dns_with_result`) is not
part of this model. Its answers arrive as parameters: the resolved adapter
and a `Gateway` value of three functions.

Behaviour of the program that is easy to miss:

- Every `Success` re-reads the adapter's servers and recomputes the DNS
  state, the result of a Test included (src/app.rs:136-141).
- The DHCP state is a single server whose text *contains* "dhcp"
  (case-sensitive), not a fixed marker address (src/app.rs:155).
- The add and delete paths overwrite the application state even while an
  operation is `Processing`. The result drain later overwrites it again.
- The duplicate-name check runs before the check that the name is non-empty.
- The store itself never checks names for uniqueness. Uniqueness holds only
  because the add path checks it (`App.AcceptedKeepsNamesDistinct`).

## Model

| member | source | states |
|---|---|---|
| `Text.Trim` | src/app.rs:347-353 | a trimmed string neither starts nor ends with whitespace and is no longer than the input |
| `Text.TrimIdempotent` | src/app.rs:347-353 | trimming twice is trimming once |
| `Text.Split` | src/ui.rs:95 | at least one piece, none containing the separator |
| `Text.JoinSplit` | src/ui.rs:95 | joining the pieces of a split with the separator gives back the string |
| `Text.SplitJoin` | src/ui.rs:95 | splitting a join of separator-free pieces gives back the pieces |
| `Text.Join` | src/app.rs:119 | every part fits in the join and the first part starts it |
| `Text.JoinHasPart` | src/app.rs:119 | every part occurs in the join |
| `Text.Contains` | src/app.rs:155 | a found pattern is no longer than the text, and a prefix is always found |
| `Text.ContainsAt` | src/app.rs:155 | the text contains the pattern iff the pattern occurs at some offset |
| `Text.EqIgnoreAsciiCase` | src/app.rs:357 | equal texts compare equal ignoring ASCII case |
| `Domain.Tag` | src/ui.rs:213-216 | the variant of a provider with its data dropped; Saved and Custom are told apart from every other variant |
| `Domain.ElectroDns` | src/domain.rs:44-49 | Electro is ("78.157.42.100", "78.157.42.101") |
| `Domain.RadarDns` | src/domain.rs:51-56 | Radar is ("10.202.10.10", "10.202.10.11") |
| `Domain.ShekanDns` | src/domain.rs:58-63 | Shekan is ("178.22.122.100", "185.51.200.2") |
| `Domain.BogzarDns` | src/domain.rs:65-70 | Bogzar is ("185.55.226.26", "185.55.225.25") |
| `Domain.Quad9Dns` | src/domain.rs:72-77 | Quad9 is ("9.9.9.9", "149.112.112.112") |
| `Domain.CustomDns` | src/domain.rs:79-81 | a Custom provider gives back exactly the addresses it was built with |
| `Domain.SavedDns` | src/domain.rs:83-89 | a Saved provider gives back its name as label and its addresses as servers |
| `Domain.EntryProvider` | src/ui.rs:197-205 | the provider built for a saved entry carries the entry's name and addresses |
| `Domain.GetServers` | src/domain.rs:91-103 | the stored (primary, secondary) of every variant; a Saved name plays no part |
| `Domain.DisplayName` | src/domain.rs:105-115 | the fixed label of the five built-ins and Custom, the own name of a Saved entry |
| `Domain.DisplayNameSeparatesFixedVariants` | src/domain.rs:105-115 | two non-Saved providers have the same label iff they are the same variant |
| `Domain.DefaultProvider` | src/domain.rs:150-154 | the default provider is Electro, labelled "Electro" |
| `Ui.ParseU8` | src/ui.rs:100 | an accepted part is an optional '+' then one or more digits; the result is the digits' value, at most 255 |
| `Ui.AboveByteRefused` | src/ui.rs:100 | every run of digits whose value exceeds 255 is refused, with or without a leading '+' |
| `Ui.ParseU8Decimal` | src/ui.rs:100 | every byte value is accepted in decimal, with or without a leading '+' |
| `Ui.LeadingZeroAccepted` | src/ui.rs:100 | leading zeros do not change whether or to what a part parses |
| `Ui.ParseU8Overflow` | src/ui.rs:100 | "256" is refused |
| `Ui.ValidIp` | src/ui.rs:94-105 | four '.'-separated parts, each accepted by `ParseU8`; a valid address is never empty |
| `Ui.IsValidIp` | src/ui.rs:94-105 | the loop with early returns answers exactly `ValidIp`: four '.'-separated parts, each accepted |
| `Ui.ValidIpOfOctets` | src/ui.rs:94-105 | four accepted parts joined by dots are always valid |
| `Ui.OctetsOfValidIp` | src/ui.rs:94-105 | every valid address is four accepted parts joined by dots |
| `Ui.WrongPartCountRejected` | src/ui.rs:95-98 | "1.2.3", "1.2.3.4.5" and "" are refused |
| `Ui.OutOfRangePartRejected` | src/ui.rs:99-103 | "256.0.0.1" is refused |
| `Ui.EmptyPartRejected` | src/ui.rs:99-103 | "1..2.3" is refused |
| `Ui.LeadingSpaceRejected` | src/ui.rs:99-103 | an untrimmed " 1.2.3.4" is refused |
| `Ui.MinusSignRejected` | src/ui.rs:99-103 | a '-' sign is refused |
| `Ui.ValidIpCharacters` | src/ui.rs:94-105 | a valid address holds only digits, '+' and dots |
| `Ui.AddPathAddressCheck` | src/app.rs:348-351 | the add path's "non-empty after trim and valid" is plain validity, and a valid address is its own trim |
| `Ui.IpInputAccepted` | src/ui.rs:90 | the input flag is true iff the field is empty or holds a valid address |
| `Ui.IpInputAgreesWithAddPath` | src/ui.rs:90 | for a non-empty field the input flag and the add path's check agree |
| `Ui.ElectroAddressesValid` | src/domain.rs:44-49 | both Electro addresses are valid |
| `Ui.RadarAddressesValid` | src/domain.rs:51-56 | both Radar addresses are valid |
| `Ui.ShekanAddressesValid` | src/domain.rs:58-63 | both Shekan addresses are valid |
| `Ui.BogzarAddressesValid` | src/domain.rs:65-70 | both Bogzar addresses are valid |
| `Ui.Quad9AddressesValid` | src/domain.rs:72-77 | both Quad9 addresses are valid |
| `Ui.FixedItems` | src/ui.rs:184-194 | six rows labelled with their providers' display names, row i of the variant at position i, Custom last with the typed pair |
| `Ui.AddNewItem` | src/ui.rs:209 | the "+" row, carrying an empty Custom pair |
| `Ui.ProviderList` | src/ui.rs:184-209 | 7 + n rows: Electro, Radar, Shekan, Bogzar and Quad9 with their fixed pairs, Custom at row 5 with the typed pair, the saved entries in order, "+" last; every other row is labelled with its provider's display name |
| `Ui.BuildProviderList` | src/ui.rs:184-209 | the push loop builds exactly that list |
| `Ui.Matches` | src/ui.rs:213-216 | a match is always of the same variant; two Saved providers match iff their names are equal; any two Custom providers match |
| `Ui.FirstMatch` | src/ui.rs:211-216 | the first row whose provider matches the selection, or the list length |
| `Ui.SelectedIndex` | src/ui.rs:211-217 | the first matching row when one exists, else row 0 |
| `Ui.CurrentIndex` | src/ui.rs:211-217 | the search loop returns that index |
| `Ui.SelectedIndexOfFixed` | src/ui.rs:211-217 | a non-Saved selection is shown at its variant's row, so any Custom selection is row 5 |
| `Ui.SelectedIndexOfSaved` | src/ui.rs:211-217 | a Saved selection is shown at the first saved entry of that name, or row 0 when no entry has it |
| `Ui.Highlighted` | src/ui.rs:279-295 | a "+" row is never highlighted; the Custom row is highlighted for any Custom selection; for a Saved selection a row is highlighted iff its label is the saved name |
| `Ui.HighlightAgreesWithIndex` | src/ui.rs:286-295 | when labels cannot be confused, a row is highlighted iff it is the selected row |
| `Ui.RowEvents` | src/ui.rs:297-318 | a click on a selectable row changes the provider first, then opens the custom window iff the row is Custom, and raises nothing else |
| `Ui.ClickEventsAsWritten` | src/ui.rs:277-303 | a click opens the add window iff the row's label is "+"; any other row first changes the provider to its own |
| `Ui.ClickEvents` | src/ui.rs:277-303 | a click opens the add window iff the row is the last one; any other row first changes the provider to its own |
| `Ui.ClickOnProviderList` | src/ui.rs:277-318 | the last row only opens the add window; Custom selects the typed pair and opens the custom window; any other row only selects its provider |
| `Ui.ClickRulesAgree` | src/ui.rs:277-284 | when no saved entry is named "+", recognising the add row by label or by position is the same |
| `Ui.PlusNamedEntryOpensAddWindow` | src/ui.rs:279-284 | as written, clicking a saved entry named "+" opens the add window instead of selecting it |
| `Storage.LoadSavedDns` | src/storage.rs:18-32 | the stored list, or the empty list when the file is missing, unreadable or not parseable |
| `Storage.AfterSave` | src/storage.rs:35-44 | a successful write replaces the list; a failed one leaves the file as it was |
| `Storage.SaveResult` | src/storage.rs:35-44 | `Err` exactly when serialising or writing fails, prefixed "Failed to serialize: " or "Failed to write file: " |
| `Storage.WithoutName` | src/storage.rs:56 | keeps exactly the entries whose name differs from the argument |
| `Storage.WithoutNameAppend` | src/storage.rs:56 | filtering a concatenation filters each part |
| `Storage.WithoutAbsentName` | src/storage.rs:54-58 | deleting an absent name rewrites an identical list |
| `Storage.WithoutNameIdempotent` | src/storage.rs:56 | deleting a name twice removes nothing more |
| `Storage.WithoutNameLength` | src/storage.rs:56 | the list shrinks by exactly the number of entries with that name |
| `Storage.AddThenDeleteRestores` | src/storage.rs:47-58 | adding an entry under a fresh name and deleting that name gives back the list |
| `Storage.Retain` | src/storage.rs:56 | the retain loop keeps the other entries in their original order |
| `Storage.Store.SaveDnsEntries` | src/storage.rs:35-44 | reports the write's outcome and replaces the file only on success |
| `Storage.Store.AddSavedDns` | src/storage.rs:47-51 | writes the loaded list with the entry appended last, without a duplicate check |
| `Storage.Store.DeleteSavedDns` | src/storage.rs:54-58 | writes the loaded list without every entry named exactly so |
| `Storage.AddAppendsEvenDuplicates` | src/storage.rs:47-51 | a successful add stores the old list plus the entry last, even if its name is taken |
| `Storage.AddOverDamagedFile` | src/storage.rs:47-51 | adding over a damaged file keeps only the new entry |
| `Storage.AddThenDeleteLeavesNoEntryOfThatName` | src/storage.rs:47-58 | after a successful add of e and a successful delete of its name, no stored entry has that name |
| `Storage.DeleteIsCaseSensitive` | src/storage.rs:56 | deleting "home" keeps an entry named "Home" |
| `App.TestResult` | src/app.rs:111-121 | a test never errs; Warning("No DNS servers configured") iff the list is empty; otherwise a success message starting "DNS test successful: " |
| `App.TestReportsEveryServer` | src/app.rs:117-120 | a successful test's message mentions every reported server |
| `App.TestMessageOfTwoServers` | src/app.rs:117-120 | two servers are reported as "DNS test successful: a, b" |
| `App.WorkerResult` | src/app.rs:95-126 | without an adapter Error("No Internet Connection Found"); otherwise the gateway's set or clear answer for the provider's two addresses, or the test result of the reported servers |
| `App.NoAdapterIgnoresGateway` | src/app.rs:97-125 | without an adapter the result is an error that no gateway answer can change |
| `App.TestNeverErrs` | src/app.rs:111-121 | a test with an adapter never yields an error |
| `App.SetUsesOnlyAddresses` | src/app.rs:96-99 | setting a Saved entry and a Custom pair with the same addresses gives the same result |
| `App.DeriveDnsState` | src/app.rs:152-160 | None iff no servers; Dhcp iff exactly one server containing "dhcp"; otherwise Static with the list unchanged |
| `App.SeveralServersAreStatic` | src/app.rs:152-160 | two or more servers are always Static |
| `App.DhcpMarkerIsCaseSensitive` | src/app.rs:155 | "dhcp" alone is Dhcp, "DHCP" alone is Static |
| `App.FoldedState` | src/app.rs:134-150 | a result becomes the terminal state of the same kind with the same message |
| `App.PushSample` | src/app.rs:465-468 | the sample is appended last and a bounded history stays within 15 |
| `App.PushSampleKeepsWindow` | src/app.rs:465-468 | one push keeps exactly the newest 15 samples of the old history plus the sample |
| `App.Feed` | src/app.rs:462-471 | samples received one by one keep the history within 15 |
| `App.FeedKeepsWindow` | src/app.rs:462-471 | however many samples arrive, the history is the newest 15 of all received, in arrival order |
| `App.ClashFoundIsNameTaken` | src/app.rs:353-357 | the front-to-back `any` scan finds a clash iff some trimmed saved name equals the name ignoring ASCII case |
| `App.NameTaken` | src/app.rs:353-357 | some saved entry's trimmed name equals the name up to ASCII case; an empty list takes no name |
| `App.ExactNameTaken` | src/app.rs:353-357 | a saved entry whose trimmed name is exactly the name makes it taken |
| `App.NameTakenByFirstOrRest` | src/app.rs:353-357 | a name is taken iff the first entry clashes with it or the rest of the list takes it |
| `App.ClashFound` | src/app.rs:353-357 | the front-to-back scan of `any`: a clash at the first entry is found, and nothing is found in an empty list |
| `App.Judge` | src/app.rs:346-390 | a duplicate reports the trimmed name; an accepted entry has the non-empty trimmed name and two valid addresses |
| `App.JudgeCases` | src/app.rs:346-390 | a clashing trimmed name is reported as a duplicate; otherwise the inputs are accepted iff the trimmed name is non-empty and both addresses are valid, and the entry stores the trimmed name and the addresses |
| `App.AcceptedKeepsNamesDistinct` | src/app.rs:353-375 | an accepted entry keeps saved names distinct up to trimming and ASCII case |
| `App.AcceptedEntryIsClean` | src/app.rs:364-370 | an accepted entry has a non-empty trimmed name and valid, trimmed addresses |
| `App.DuplicateReportedFirst` | src/app.rs:359-363 | a clashing name is reported even when the addresses are invalid |
| `App.ClashIgnoresCaseAndSpaces` | src/app.rs:353-357 | "Home" clashes with a saved " home " |
| `App.MyApp.constructor` | src/app.rs:61-79 | every field at its default, the saved entries as loaded from the store |
| `App.MyApp.HandleOperation` | src/app.rs:81-132 | state Processing, the freshly resolved adapter recorded, and a new pending result replacing any earlier one |
| `App.MyApp.OverlappingDispatches` | src/app.rs:81-89 | two dispatches before a drain: only the second operation's result is folded |
| `App.MyApp.UpdateDnsState` | src/app.rs:152-160 | the DNS state becomes the derivation of the server list |
| `App.MyApp.HandleOperationResult` | src/app.rs:134-150 | the state takes the result; only a success with a recorded adapter re-reads the servers and the DNS state |
| `App.MyApp.PollOperation` | src/app.rs:451-460 | an arrived result is folded (a success with a recorded adapter re-reads the servers) and the channel cleared; otherwise nothing changes and a repaint is asked while Processing |
| `App.MyApp.PollPing` | src/app.rs:462-471 | while the sampler runs, a sample becomes the ping value and is pushed into the bounded history; otherwise nothing changes |
| `App.MyApp.RequestPing` | src/app.rs:630-632 | the monitor button raises the request flag |
| `App.MyApp.ServicePingRequest` | src/app.rs:635-652 | a raised flag is cleared, a sampler is spawned only if none runs, and the monitor is shown |
| `App.MyApp.MonitorFrame` | src/app.rs:204-210 | closing the monitor stops the sampler, empties the history and zeroes the ping value |
| `App.MyApp.ApplyListEvents` | src/app.rs:530-561 | the add window opens, the last provider change is taken, then the custom window opens |
| `App.MyApp.ClickProviderRow` | src/app.rs:527-561 | the last row opens the add window; rows 0-4 select the fixed Electro, Radar, Shekan, Bogzar or Quad9 provider; Custom selects the typed pair and opens the custom window; a saved row selects its entry |
| `App.MyApp.CustomWindowFrame` | src/app.rs:264-277 | the typed or cleared pair is kept, and a Custom selection follows it |
| `App.MyApp.NameExists` | src/app.rs:353-357 | the scan answers exactly whether the trimmed name clashes |
| `App.MyApp.ClearInputs` | src/app.rs:382-384 | the three add inputs are emptied |
| `App.MyApp.JudgeInputs` | src/app.rs:346-370 | the checks, made in the source's order, give the add path's verdict |
| `App.MyApp.ApplyVerdict` | src/app.rs:359-390 | the store is written first; list, selection, state and inputs change only when that write succeeds |
| `App.MyApp.SaveNewEntry` | src/app.rs:346-391 | the save button judges the inputs and acts on the verdict |
| `App.MyApp.FinishAddWindow` | src/app.rs:393-404 | a stored entry closes the window; a closed window forgets its inputs and error |
| `App.MyApp.TypeAndSave` | src/app.rs:310-391 | the typed inputs are kept unless the entry is stored; a pressed save button sets the duplicate, invalid or failed-save error, writes the store only for an accepted entry, and on success appends and selects the entry, sets Success("DNS saved successfully!") and empties the inputs; nothing pressed leaves the error, state and store alone |
| `App.MyApp.AddWindowFrame` | src/app.rs:280-405 | a hidden window changes nothing; an open one judges a pressed save as above, closes on a stored entry or on dismissal (forgetting inputs and error), and otherwise keeps the typed inputs and the save button's error |
| `App.MyApp.DeleteEntry` | src/app.rs:595-613 | on a failed write, Error("Failed to delete DNS: ...") with list and selection unchanged; on success, every entry of that name removed, a Saved selection of it reset to Electro, and Success("DNS entry deleted") |

## Left out

- Threads and `mpsc` channels are not modelled. The worker's result is computed when the operation is dispatched and held in `pending` until a drain delivers it. `arrived` says whether it has arrived in a given frame. The gateway's answers are functions, so the worker's timing cannot change them.
- The operating-system gateway in `crate::system` is not part of this model. The resolved adapter and the `Gateway` functions are parameters.
- `get_ping` (ICMP, the wall clock, the `0.0` sentinel) is not modelled. Each sample is a parameter of `PollPing`, a `real` that is never computed with.
- The `PING_REQUEST` atomic is a boolean field. `THEME_CONFIGURED` is left out.
- File I/O, `serde_json` and the storage path are abstracted. The file is a `FileState` and each write's outcome is a parameter. A failed write leaves the file as it was; a partial write is not modelled.
- The clear confirmation dialog (src/app.rs:620-622, 658-711) only gates the Clear dispatch. A confirmed Clear is `HandleOperation(Clear, ...)`.
- The Ctrl+T shortcut and the status section's test button (src/app.rs:492-506) are not modelled. Each only dispatches a Test.
- Rendering, theming, styling, textures, viewports, window chrome (src/windows.rs, src/textures.rs) and repaint scheduling are not modelled. The ping chart's colours, scaling and average are floating-point drawing and are left out.
- `Text.Trim` follows Rust's `char::is_whitespace` (the Unicode White_Space property). `Text.EqIgnoreAsciiCase` compares characters rather than UTF-8 bytes, which gives the same answer.
- `Ui.HighlightAgreesWithIndex` holds only when no saved entry is named "Custom", and a Saved selection's name is carried by exactly one saved entry and is neither a built-in label nor "+". Outside those conditions the source can highlight no row or several rows.
- `App.MyApp.ClickProviderRow` follows the corrected click rule of the Findings row: the add row is recognised by its position. The program recognises it by the label "+" (src/ui.rs:279), so for a saved entry named "+" the program opens the add window and keeps the selection, while this method selects that entry. `Ui.ClickRulesAgree` proves the two rules agree whenever no saved entry is named "+".

## Findings

| source | as written | input that shows it | evidently intended | confidence | as-written member | corrected member |
|---|---|---|---|---|---|---|
| src/ui.rs:277-284 | the "Add New" row is recognised by its label "+", so a saved entry whose name is "+" is treated as the add row | save an entry named "+" (the add path accepts it) and click its row | only the final row added at src/ui.rs:209 opens the add window; a saved entry named "+" is selectable like any other | medium, not executed | `Ui.PlusNamedEntryOpensAddWindow` | `Ui.ClickOnProviderList` |
