# A verified model of the edge device core agent

This project models the hard core of the AITRIOS edge device core repository in Dafny and proves what its
code does on every input and every run:

- the **ELog status machine**: notifications drive two bit-packed status bytes, a saturating reconnect
  counter and four flags, on top of a 128-slot event-log table (`notifications.c`, `log.c`);
- the **blue-green over-the-air update**: a shell script that switches two links between two deployment
  directories and may be cut off anywhere (`edc_system_update.sh`);
- the **log chunker** (`log.c`), the **agent thread** with its clients (`evp-agent.c`), the **native symbol
  queue** (`evp-agent.c`), the **proxy cache** (`esf.c`) and the **status LED** (`notifications.c`).

`dafny verify dfyconfig.toml` checks everything.

## How the pieces fit

| file | content |
|---|---|
| `Common.dfy`, `CStrings.dfy`, `Decimal.dfy` | sequences, masks as arithmetic, bytes as bit-vectors, C string buffers, `%d` |
| `ElogTable.dfy` | the table as an array class, the map it refines, the emission trace of any call sequence |
| `ElogStatus.dfy`, `ElogMasks.dfy` | the handlers as one step function; the C masks on eight bits, equal to its arithmetic on all bytes |
| `ElogHistory.dfy` | what a history calls for: the two streams, the intervals between MQTT_OKs, the memories |
| `ElogBytes.dfy`, `ElogTheorems.dfy` | the step function computes exactly that, for every history; decoders; interleaving |
| `ElogReadings.dfy` | the status machine in literals: reasons, years, result codes, event ids, unreadable codes |
| `Notifications.dfy` | the handlers as a class with in-place state, computing with the masks and proved against the step function |
| `StatusLed.dfy` | the `agent/status` handler and runs of it |
| `OtaVersionFile.dfy`, `OtaModel.dfy`, `OtaTheorems.dfy`, `OtaDevice.dfy` | version file, update commands and cut-off runs, the theorems, the script as a class |
| `DlogChunks.dfy` | the log handler |
| `AgentThreads.dfy`, `AgentThread.dfy` | the agent as interleaved steps, and as sequential code whose trace the steps allow |
| `NativeSymbols.dfy`, `ProxyCache.dfy` | the symbol queue and the proxy cache |

External calls (logger, LED manager, allocator, EVP, WAMR, clock, network manager) are inputs: each may
succeed or fail at every call. Table operations run under the table's mutex, so each is one step, and
handlers run one at a time. `g_tcp_timer_error_timeout` is raised by an environment event, since nothing in
the modelled files sets it. Components 0xf0 and 0xf1 are written by these handlers only. An update run is cut
off after any number of commands; a command cut short leaves arbitrary contents in the target directory, and
runs come one at a time. "Active" means what `/opt/edc` names. The sensor package writes under `opt/` only.

## What turned out otherwise than documented

- The errno numbers in the ELog comment (notifications.c:69-79) are not those of Linux; the code tests
  symbolic names, so the model does too.
- The two buffer bits of the MQTT byte latch: at every MQTT_OK they report every such failure since the run
  began, and they go out only in an outage whose first failure is of their own kind
  (`ElogTheorems.BufferBitsAfterOk`, `ElogTheorems.ReportedSnoc`).
- samples/ota/README.md:127 calls the switch of the links atomic. It is not: `/opt/edc` is missing exactly when
  the run stops after 13 or 14 commands (`OtaTheorems.LinkWindow`).
- `/opt/senscord` can be left naming a directory that is gone (`OtaTheorems.SenscordLinkMayDangle`). A run may
  do this exactly when it starts with `/opt/edc` missing and `/opt/senscord` on slot A
  (`OtaTheorems.SenscordSafeExactly`), and the link dangles only while `/opt/edc` is missing
  (`OtaTheorems.DanglesOnlyWithoutEdc`).
- A run without `--force` restores both links except when the active version is the released one and
  `/opt/senscord` is missing: it then changes nothing, and the link stays missing as long as that version is
  the released one (`OtaTheorems.UnforcedRunRecoversUnless`, `OtaTheorems.MissingSenscordStaysMissing`).
- An installing run without faults succeeds exactly when neither `/opt/edc` nor `/opt/senscord` is something
  other than a link (`OtaTheorems.InstallsExactlyWhenLinkable`); a real directory at `/opt/senscord` makes it
  remove `/opt/edc` and stop (`OtaTheorems.RefusedSenscordPathUnlinksEdc`).
- Because of `set -e` and `pipefail`, a version file found through `/opt/edc` ends the unforced script, instead
  of counting as unknown (edc_system_update.sh:541-549), exactly when no line of it begins with `Version:`
  (`OtaTheorems.GivesUpExactly`, `OtaTheorems.UnlabelledFileEndsScript`). The script's own runs never lead
  there (`OtaTheorems.ReachableNeverGivesUp`).
- The truncation notice of the log handler counts the prefix, which is never stored, so it also appears when
  nothing was lost (`DlogChunks.NoticeIsSpuriousExactly`).
- A failed proxy initialisation can leave the port readable (`ProxyCache.ReadBack`, `ProxyCache.StalePortExample`),
  and an initialisation that finds values cached overwrites their pointers without freeing them (`ProxyCache.Cache.Init`).
- A refused LED update can leave two statuses enabled, or none, until a later call completes
  (`StatusLed.RefusalMayLeaveTwoEnabled`, `StatusLed.RefusalMayLeaveNoneEnabled`,
  `StatusLed.ExclusiveAfterCompletion`). From one enabled status, exactly one remains if and only if the manager
  accepts the updates of both the old and the new status, or of neither (`StatusLed.ExclusiveExactly`).
- When the watchdog cannot be started the agent thread exits with 0, as after a requested shutdown
  (`AgentThread.ZeroExitExactly`).

## Model

| member | source | states |
|---|---|---|
| `ElogTable.EventIdSplits` | src/evp-agent/src/log.c:144-146 | on 16 bits, component shifted and or-ed with code is the event id of the model, and every such id splits back into the two |
| `ElogTable.EmissionTrace` | src/evp-agent/src/log.c:116-174 | after any register/set/get calls, each component's emitted codes are its first effective registration and later sets with adjacent repeats removed; the table holds the last of them; used slots are the registrations, capped at 128 |
| `ElogTable.CodesAtFirstMatch` | src/evp-agent/src/log.c:42-55 | the first matching slot alone decides what a component reads, and writing it updates the map at that component only |
| `ElogTable.CodesAppend` | src/evp-agent/src/log.c:119-125 | a registration is visible only if its component had no slot: the first one wins |
| `ElogTable.Table.ComponentToEntry` | src/evp-agent/src/log.c:42-55 | the linear search finds the first match, or the component is not in the map |
| `ElogTable.Table.SystemRegElog` | src/evp-agent/src/log.c:116-130 | registration on the array is registration on the map; a full table changes nothing |
| `ElogTable.Table.SystemSetELog` | src/evp-agent/src/log.c:132-159 | a set changes the map and emits an id exactly on change, whether or not the logger accepts it; -ENOENT for unknown components and refused writes |
| `ElogTable.Table.SystemGetELog` | src/evp-agent/src/log.c:161-174 | a read gives the mapped code, or 0xFF for an unknown component |
| `ElogTable.Table.Execute` | src/evp-agent/src/log.c:116-174 | any call sequence on the array ends where the map does, and each read answers with the end of its component's trail so far |
| `ElogMasks.MaskedResultIsReplace` | src/evp-agent/src/notifications.c:109-114 | for all bytes, the 0xFC/0x3 masks put the result in bits 7-2 and keep bits 1-0 |
| `ElogMasks.MaskedClassIsSum` | src/evp-agent/src/notifications.c:127-176 | class and cause shifted and or-ed are the sum the model uses |
| `ElogMasks.MaskedRecoveryIsRecovered` | src/evp-agent/src/notifications.c:310-325 | for all bytes, the masks at MQTT_OK compute the model's recovered code |
| `ElogMasks.MaskedOutageIsOutage` | src/evp-agent/src/notifications.c:376-387 | for all bytes, the masks at an outage's first failure compute the model's code |
| `ElogMasks.MaskedFollowIsFollow` | src/evp-agent/src/notifications.c:320-333 | for all bytes, bit 1 is set or cleared with its flag |
| `ElogMasks.SuccessCode` | src/evp-agent/src/notifications.c:103-114 | likewise for a blob success: result 1, bit 0 cleared, bit 1 kept |
| `ElogMasks.FailureCode` | src/evp-agent/src/notifications.c:127-241 | likewise for both kinds of blob failure |
| `ElogMasks.SslTimeoutCode` | src/evp-agent/src/notifications.c:438-459 | likewise for an ssl_timeout |
| `ElogMasks.TcpTimeoutCode` | src/evp-agent/src/notifications.c:327-333 | likewise for the blob byte at MQTT_OK |
| `ElogMasks.RecoveryCode` | src/evp-agent/src/notifications.c:310-325 | likewise for the MQTT byte at MQTT_OK |
| `ElogMasks.OutageCode` | src/evp-agent/src/notifications.c:376-387 | from the byte read to the byte written at an outage's first failure, on eight bits: the model's code |
| `ElogHistory.Intervals` | src/evp-agent/src/notifications.c:404-415 | any MQTT stream is what had settled, the last MQTT_OK, and the open interval, which holds no MQTT_OK |
| `ElogBytes.StepFollows` | src/evp-agent/src/notifications.c:103-459 | every handler keeps bytes, counter and flags equal to what the advanced memory calls for |
| `ElogTheorems.ReportedSnoc` | src/evp-agent/src/notifications.c:376-387 | during an outage a buffer bit goes out exactly at a first failure of its own kind |
| `ElogTheorems.HistoryExplainsRun` | src/evp-agent/src/notifications.c:103-459 | after every history, both bytes, the counter and the four flags are the closed forms of its two streams |
| `ElogTheorems.MqttByteHistory` | src/evp-agent/src/notifications.c:298-402 | decoded MQTT byte for every history: failures of the interval closed by the last MQTT_OK (at most 15, 0 once an outage is on), latched buffer bits, invalid clock in the closed interval, bit 0 never |
| `ElogTheorems.BufferBitsAfterOk` | src/evp-agent/src/notifications.c:310-319 | just after MQTT_OK the buffer bits tell of every such failure in the whole run, the count of the outage just ended |
| `ElogTheorems.BlobByteHistory` | src/evp-agent/src/notifications.c:48-81 | the specification's decoder recovers from the blob byte the last result, whether a TCP timeout fell in the closed interval, and whether an ssl_timeout came since the last success |
| `ElogTheorems.SentinelNeverReached` | src/evp-agent/src/notifications.c:127-241 | no reachable code is 0xFF, so no bail-out fires and the counter misses no failure |
| `ElogTheorems.OtherComponentsKept` | src/evp-agent/src/notifications.c:103-459 | the handlers leave every other component of the table as it was |
| `ElogTheorems.InterleavingIndependent` | src/evp-agent/src/notifications.c:103-459 | all interleavings of the blob/network stream and the MQTT/timer stream end in the same codes, counter and flags |
| `ElogTheorems.RunEmissions` | src/evp-agent/src/log.c:132-159 | over any run, the logger receives a component's code after each event with repeats removed |
| `ElogReadings.StartsWithExactly` | src/evp-agent/src/notifications.c:422-427 | the prefix test accepts exactly the reasons that are the wording followed by anything |
| `ElogReadings.SyncItemsInWords` | src/evp-agent/src/notifications.c:266-436 | what a sync notification adds to every history: recovery, or a failure with its buffer kinds and a clock that failed or shows a year before 2001, in the wordings of the library |
| `ElogReadings.BlobItemsInWords` | src/evp-agent/src/notifications.c:438-459 | a network error counts exactly when it begins with ssl_timeout; a NULL blob event not at all |
| `ElogReadings.FirstSyncCounts` | src/evp-agent/src/notifications.c:417-436 | a first notification counts 1 exactly when it does not begin with MQTT_OK |
| `ElogReadings.ReconnectingCounts` | src/evp-agent/src/notifications.c:417-436 | MQTT_ERROR_RECONNECTING is a failure |
| `ElogReadings.SendFullThenOk` | src/evp-agent/src/notifications.c:298-402 | a full send buffer and the recovery give 0x14 and the event id 0xf114 |
| `ElogReadings.RecvTooSmallThenOk` | src/evp-agent/src/notifications.c:298-402 | a receive buffer too small in the year 2000 and the recovery give 0x1a and 0xf11a |
| `ElogReadings.UnreadableSync` | src/evp-agent/src/notifications.c:298-362 | a sync notification that finds a code it needs reading 0xFF changes nothing |
| `ElogReadings.UnreadableBlob` | src/evp-agent/src/notifications.c:103-241 | failures and network errors likewise; a success overwrites a stored 0xFF with 0x42 |
| `ElogReadings.WithoutMqttSlot` | src/evp-agent/src/notifications.c:350-402 | without a slot for the MQTT status no run counts a failure or raises a sync flag |
| `ElogReadings.HttpCodes` | src/evp-agent/src/notifications.c:127-181 | the byte for success, for each of the eight HTTP statuses and for any other |
| `ElogReadings.ErrnoCodes` | src/evp-agent/src/notifications.c:190-241 | the byte for each of the ten errnos and for any other; results outside the enumeration count as errors |
| `ElogReadings.SampleRunFromEmptyTable` | src/evp-agent/src/notifications.c:103-459 | one run over two outages, an ssl_timeout and a 404, with all five event ids |
| `Notifications.Handlers.constructor` | src/evp-agent/src/notifications.c:645-651 | the three registrations, on whatever table there is |
| `Notifications.RegistrationIsFresh` | src/evp-agent/src/notifications.c:645-651 | the registrations give the state the theorems start from exactly when each of the two components either already reads its initial code or finds a free slot |
| `Notifications.Handlers.ElogHandlerBlobResult` | src/evp-agent/src/notifications.c:103-263 | the blob/result handler, NULL included, keeps the state equal to the run over its history |
| `Notifications.Handlers.ElogHandlerNetworkError` | src/evp-agent/src/notifications.c:438-459 | the network/error handler, likewise |
| `Notifications.Handlers.ElogHandlerMqttSyncResult` | src/evp-agent/src/notifications.c:417-436 | the mqtt/sync/err handler, likewise |
| `Notifications.Handlers.ElogHandlerMqttSyncSuccess` | src/evp-agent/src/notifications.c:298-348 | MQTT_OK: codes recomputed, counter and flags cleared, nothing at all on a sentinel |
| `Notifications.Handlers.ElogHandlerMqttSyncFail` | src/evp-agent/src/notifications.c:350-402 | a failure: clock check, reason flags, outage code, saturating counter |
| `Notifications.Handlers.CountFailure` | src/evp-agent/src/notifications.c:376-399 | the byte is rewritten only at an outage's first failure, and the counter goes up by one until it is full |
| `Notifications.Handlers.CheckSysTime` | src/evp-agent/src/notifications.c:266-292 | the flag rises exactly when the clock fails or the year is before 2001 |
| `Notifications.Handlers.Report` | src/evp-agent/src/notifications.c:48-101 | at any moment, reading and decoding the two bytes yields the closed forms of the history |
| `StatusLed.LedShowsLastReached` | src/evp-agent/src/notifications.c:571-643 | after any run an LED shows what the last call that reached it wanted |
| `StatusLed.ExclusiveAfterCompletion` | src/evp-agent/src/notifications.c:602-643 | once a call completes, and while only calls that show nothing follow, exactly its status is enabled, whatever was left half done |
| `StatusLed.CallOnSingle` | src/evp-agent/src/notifications.c:602-640 | the four outcomes by where the manager stops: the new status, the old one, both, none |
| `StatusLed.ExclusiveExactly` | src/evp-agent/src/notifications.c:602-640 | from one enabled status, one enabled status results if and only if the updates of the old and of the new one are both accepted or both not |
| `StatusLed.RefusalLeavesPrefix` | src/evp-agent/src/notifications.c:631-640 | a call refused at update k leaves its wishes before k and the old states from k |
| `StatusLed.RefusalMayLeaveTwoEnabled` | src/evp-agent/src/notifications.c:631-640 | a refused call can leave two statuses enabled |
| `StatusLed.RefusalMayLeaveNoneEnabled` | src/evp-agent/src/notifications.c:602-640 | a refused call can leave no status enabled |
| `StatusLed.AgentStatusHandler` | src/evp-agent/src/notifications.c:571-643 | in the notification's own words: which of the four LEDs each of connected and disconnected enables with and without TLS, as far as updates are accepted; nothing and 0 for connected in enrolment mode; nothing and -1 for other or NULL arguments |
| `StatusLed.HandleIsPromised` | src/evp-agent/src/notifications.c:571-643 | the run model does that and nothing else |
| `OtaVersionFile.PrintParse` | samples/ota/edc_system_update.sh:395-399 | every non-empty, blank-free version v survives: the file `Version: v` is read back as v |
| `OtaVersionFile.PrintFormat` | samples/ota/edc_system_update.sh:397 | the file written is `Version: `, the version and a newline |
| `OtaVersionFile.LinesOfJoined` | samples/ota/edc_system_update.sh:541-543 | the lines of every text, with or without a final newline |
| `OtaVersionFile.ParseForeignFile` | samples/ota/edc_system_update.sh:541-543 | a file not written by the script: tab after the label, trailing words, unlabelled lines, two versions |
| `OtaVersionFile.ParseFailsExactly` | samples/ota/edc_system_update.sh:541-543 | reading a version file fails exactly when no line of it begins with `Version:` |
| `OtaVersionFile.PrintIsLabelled` | samples/ota/edc_system_update.sh:395-399 | whatever the version, the file written is one in which a version is found |
| `OtaTheorems.PopulateFrame` | samples/ota/edc_system_update.sh:326-473 | before the links are switched nothing outside the target directory changes |
| `OtaTheorems.PopulateResult` | samples/ota/edc_system_update.sh:326-473 | populating ends with the release deployed in full, or the run stops with the links untouched |
| `OtaTheorems.SwitchResult` | samples/ota/edc_system_update.sh:476-513 | the five link states a switch can be cut off in |
| `OtaTheorems.SwitchNeedsSenscord` | samples/ota/edc_system_update.sh:501-504 | without a senscord tree in the target the switch ends with /opt/edc linked and /opt/senscord missing |
| `OtaTheorems.UpdateResult` | samples/ota/edc_system_update.sh:516-578 | a whole installing run as one formula in the number of commands completed |
| `OtaTheorems.EveryStateIsSound` | samples/ota/edc_system_update.sh:305-578 | from a clean system, after any runs cut off anywhere: /opt/edc, when a link, names a complete deployment whose version file is its binary's version, and two links agree |
| `OtaTheorems.CompleteDeploymentSurvives` | samples/ota/edc_system_update.sh:305-578 | once /opt/edc has named a deployment, no later runs leave the device without a complete one |
| `OtaTheorems.CurrentDeploymentKept` | samples/ota/edc_system_update.sh:290-342 | no run changes the deployment it started from, and none changes a link before switching |
| `OtaTheorems.LinkWindow` | samples/ota/edc_system_update.sh:481-508 | from any sound state with /opt/edc in place, each link is missing exactly when the run stops inside its window (or, for /opt/senscord, was missing and the run never got to creating it) |
| `OtaTheorems.ForcedRunRecovers` | samples/ota/edc_system_update.sh:476-578 | from any state without a non-link at the two paths, one fault-free forced run puts both links on one complete deployment of the release and keeps the other directory |
| `OtaTheorems.SkipsExactlyWhenActive` | samples/ota/edc_system_update.sh:534-553 | in a sound state the version check skips exactly when the active version is the release's, and never ends the script |
| `OtaTheorems.UnforcedRunRecoversUnless` | samples/ota/edc_system_update.sh:534-578 | an unforced fault-free run recovers if and only if it is not the case that the version is active and /opt/senscord missing |
| `OtaTheorems.SecondRunChangesNothing` | samples/ota/edc_system_update.sh:538-547 | a second unforced run against the same release changes nothing |
| `OtaTheorems.SlotsAlternate` | samples/ota/edc_system_update.sh:305-324 | n fault-free installing runs leave A active for odd n, B for even n |
| `OtaTheorems.SenscordLinkMayDangle` | samples/ota/edc_system_update.sh:481-493 | three runs that leave /opt/senscord naming a missing directory |
| `OtaTheorems.SenscordSafeExactly` | samples/ota/edc_system_update.sh:305-513 | from a sound state, no run leaves /opt/senscord dangling if and only if it is not the case that /opt/edc is missing and /opt/senscord names slot A |
| `OtaTheorems.DanglesOnlyWithoutEdc` | samples/ota/edc_system_update.sh:305-513 | after any runs, a linked /opt/senscord names a complete deployment, except that with /opt/edc missing it may dangle on slot A |
| `OtaTheorems.SenscordLinkSoundWithEdc` | samples/ota/edc_system_update.sh:495-508 | as long as /opt/edc is a link, a linked /opt/senscord names a complete deployment |
| `OtaTheorems.MissingSenscordStaysMissing` | samples/ota/edc_system_update.sh:538-547 | two runs after which /opt/senscord is missing although the second is fault-free |
| `OtaTheorems.RefusedSenscordPathUnlinksEdc` | samples/ota/edc_system_update.sh:481-493 | a real directory at /opt/senscord makes a fault-free run remove /opt/edc and stop |
| `OtaTheorems.StrangePathDecides` | samples/ota/edc_system_update.sh:305-324 | behind a foreign link or a real directory the version file alone decides between skipping and installing, and the target is slot A |
| `OtaTheorems.NoVersionNoUpdate` | samples/ota/edc_system_update.sh:527-532 | packages without a version change nothing |
| `OtaTheorems.InstallsExactlyWhenLinkable` | samples/ota/edc_system_update.sh:476-513 | a fault-free installing run ends with the release active if and only if neither path is a non-link |
| `OtaTheorems.GivesUpExactly` | samples/ota/edc_system_update.sh:534-553 | an unforced script ends at the version check exactly when the file found through /opt/edc has no labelled line |
| `OtaTheorems.UnlabelledFileEndsScript` | samples/ota/edc_system_update.sh:541-543 | a file behind a foreign link that ends the script |
| `OtaTheorems.ReachableNeverGivesUp` | samples/ota/edc_system_update.sh:534-553 | after any runs from a clean system, the version check never ends the script, whatever the versions |
| `OtaDevice.Device.ChooseTarget` | samples/ota/edc_system_update.sh:290-324 | the target is never the active slot |
| `OtaDevice.Device.NeedsUpdate` | samples/ota/edc_system_update.sh:527-553 | the version check, with its exits and its skip |
| `OtaDevice.Device.CreateDeploymentStructure` | samples/ota/edc_system_update.sh:327-342 | with budget for it the target ends up bare whatever it held; cut off, it holds the wreck; nothing else changes |
| `OtaDevice.Device.InstallCorePackages` | samples/ota/edc_system_update.sh:345-403 | succeeds exactly when binary and library are in the package and the budget suffices; then the binary is executable, and binary, library and version file are the release's |
| `OtaDevice.Device.CopyBinaryToTarget` | samples/ota/edc_system_update.sh:387-389 | the binary, executable whatever its mode in the package |
| `OtaDevice.Device.CopyLibraryAndVersion` | samples/ota/edc_system_update.sh:391-399 | library and version file, in place |
| `OtaDevice.Device.InstallSensorPackage` | samples/ota/edc_system_update.sh:406-437 | succeeds exactly when the package has a version and a senscord tree and the budget suffices; then the tree with its version file is in place |
| `OtaDevice.Device.ValidateInstallation` | samples/ota/edc_system_update.sh:440-473 | accepts exactly a directory with binary, library, senscord tree and executable bit, and changes nothing |
| `OtaDevice.Device.UpdateSymbolicLink` | samples/ota/edc_system_update.sh:476-513 | the in-place removals and creations of the links are the modelled commands, cut off anywhere |
| `OtaDevice.Device.PerformUpdate` | samples/ota/edc_system_update.sh:516-578 | a run of the script is the modelled update, and keeps a sound device sound |
| `DlogChunks.FileName` | src/evp-agent/src/log.h:23 | what follows the last slash |
| `DlogChunks.PrefixReadsBack` | src/evp-agent/src/log.c:204-205 | every prefix is `[name:text] ` with the part of the file after its last slash and a decimal text that reads back as the line |
| `DlogChunks.PrefixIsUnambiguous` | src/evp-agent/src/log.c:204-205 | equal prefixes stand for the same line of files of the same name |
| `DlogChunks.PrefixExample` | src/evp-agent/src/log.c:204-205 | the prefix of line 7 of src/log.c is `[log.c:7] ` |
| `DlogChunks.ChunkCount` | src/evp-agent/src/log.c:245-252 | a text has one possible number of chunks |
| `DlogChunks.WriteChunks` | src/evp-agent/src/log.c:243-252 | the chunks make up the buffer's text, each of 1 to 256 characters, all but the last of 256 |
| `DlogChunks.WriteMessage` | src/evp-agent/src/log.c:218-263 | the chunks make up the message's first 4095 characters (up to a NUL), at most 16 are written, and a notice follows exactly when prefix, message and NUL exceed the buffer |
| `DlogChunks.DlogHandler` | src/evp-agent/src/log.c:203-264 | chunks and notice as in `WriteMessage`, with the prefix of file and line; formatting or allocation failure writes nothing of the message |
| `DlogChunks.ShownInNumbers` | src/evp-agent/src/log.c:218-263 | in numbers: the first 4095 characters in chunks of 256, how many, and a notice with its counts exactly above 4096 |
| `DlogChunks.LossIsNoticed` | src/evp-agent/src/log.c:254-261 | lost text is always noticed, and the count is the loss plus the prefix length |
| `DlogChunks.NoticeIsSpuriousExactly` | src/evp-agent/src/log.c:218-226 | a notice without loss comes exactly for messages that fit the buffer but not with the prefix |
| `DlogChunks.SpuriousNoticeExample` | src/evp-agent/src/log.c:218-226 | such a message |
| `AgentThreads.RunKeepsBrackets` | src/evp-agent/src/evp-agent.c:226-317 | at every point of every interleaving, acquisitions are a climb of the ladder and releases a descent from its top |
| `AgentThreads.ExitReleasesInReverse` | src/evp-agent/src/evp-agent.c:244-316 | an exited thread released exactly what it acquired, once each, in reverse |
| `AgentThreads.PublishedMeansReady` | src/evp-agent/src/evp-agent.c:93-129 | until unwinding, a published context has context, proxy cache, agent, connection and watchdog acquired, nothing released and the symbols flushed |
| `AgentThreads.PublishedAfterStartup` | src/evp-agent/src/evp-agent.c:226-287 | whenever a context has been published, the thread's first seven acts were the five acquisitions, the flush and the publication in the order of the code |
| `AgentThreads.NoNullContextUsed` | src/evp-agent/src/evp-agent.c:142-152 | the double read never hands on a NULL context |
| `AgentThreads.HandedOnExactly` | src/evp-agent/src/evp-agent.c:142-152 | under any interleaving a context is handed on exactly by a client past both reads, and that client once read a published context as not INIT |
| `AgentThreads.UndeployExactly` | src/evp-agent/src/evp-agent.c:142-152 | a client acts exactly on a published context whose status is not INIT |
| `AgentThreads.LoopsAreKeptAlive` | src/evp-agent/src/evp-agent.c:289-298 | every evp_agent_loop call comes right after its own keepalive |
| `AgentThreads.ShutdownBoundsLoops` | src/evp-agent/src/evp-agent.c:289-323 | after shutdown is requested at most one more loop call begins, none if one is running |
| `AgentThreads.FailedLoopIsLast` | src/evp-agent/src/evp-agent.c:289-298 | after a failed call no other begins, whatever happens |
| `AgentThreads.SuccessfulLoopGoesOn` | src/evp-agent/src/evp-agent.c:289-298 | a successful call without shutdown leads to the next keepalive and call |
| `AgentThreads.SymbolsNeverLost` | src/evp-agent/src/evp-agent.c:154-224 | under interleaving every inserted entry is freed once or still queued, in order; before the flush none is freed; after it the runtime was asked for the freed ones up to and including the first refusal |
| `AgentThreads.FlushHandsOver` | src/evp-agent/src/evp-agent.c:204-224 | the machine's flush is the queue's flush for all answers with that first refusal |
| `AgentThreads.LateRegistrationRefused` | src/evp-agent/src/evp-agent.c:187-202 | once `started` is true, over any run every insertion belongs to a client that had read it as false before |
| `AgentThreads.StartedExactly` | src/evp-agent/src/evp-agent.c:226-231 | the flag is up exactly once the thread has taken a step |
| `AgentThreads.InsertedWereAskedInTime` | src/evp-agent/src/evp-agent.c:187-202 | over every run, whatever is inserted or may still be was asked for before the thread's first step |
| `AgentThread.ReachIsAllowed` | src/evp-agent/src/evp-agent.c:226-317 | for everything the sequential thread does there is an interleaving that does the same, point and trace |
| `AgentThread.ZeroExitExactly` | src/evp-agent/src/evp-agent.c:283-316 | the thread exits with 0 exactly after a loop ended by the signal with a last call of 0, or when only the watchdog failed to start |
| `AgentThread.ExitIsFirstFailure` | src/evp-agent/src/evp-agent.c:236-316 | the exit value is that of the first failing call in call order, or the last loop call's, or 0 when the watchdog did not start |
| `AgentThread.MainLoop` | src/evp-agent/src/evp-agent.c:289-298 | the loop makes exactly the turns up to the first failure or signal and returns the last call's value |
| `AgentThread.EvpAgentThread` | src/evp-agent/src/evp-agent.c:226-317 | for all outcomes: the rungs climbed, their release in reverse, the loop calls made, the exit value |
| `NativeSymbols.HandedOverOneWay` | src/evp-agent/src/evp-agent.c:204-224 | the runtime's answers settle the calls made and the result |
| `NativeSymbols.Symbols.Add` | src/evp-agent/src/evp-agent.c:154-185 | -22 exactly for invalid arguments and -12 for a failed allocation, adding nothing; otherwise the entry goes to the tail |
| `NativeSymbols.Symbols.RegisterNatives` | src/evp-agent/src/evp-agent.c:187-202 | refused once the agent has started |
| `NativeSymbols.Symbols.Flush` | src/evp-agent/src/evp-agent.c:204-224 | entries handed over in order up to and including the first refusal, all freed once, the queue left empty, -1 exactly on a refusal |
| `ProxyCache.Cache.Deinit` | src/evp-agent/src/esf.c:78-92 | pointers cleared and freed once each |
| `ProxyCache.Cache.Init` | src/evp-agent/src/esf.c:94-170 | from any cache: success condition and the three error numbers, cached values (an empty parameter leaves the old one), every pointer NULL after failure, accounting of every allocation including the blocks whose pointers are overwritten, and what the port buffer holds on every path |
| `ProxyCache.Cache.ReadConfig` | src/evp-agent/src/esf.c:257-317 | a key gives its value cut to the buffer and NUL-terminated, or NULL exactly when unset or out of memory |
| `ProxyCache.BoundedCopy` | src/evp-agent/src/esf.c:269-283 | calloc, strncpy and the forced NUL keep the first max_size-1 characters |
| `ProxyCache.ReadBack` | src/evp-agent/src/esf.c:78-170 | from static storage through initialisation to a read: the loaded parameter on success; on failure nothing is allocated and an already written port, cut to both buffers, is all that can be read |
| `ProxyCache.ReadEveryKey` | src/evp-agent/src/esf.c:257-317 | with room for them, both families of keys give host, port number, user name and password |
| `ProxyCache.PortReadsBack` | src/evp-agent/src/esf.c:133-141 | the port text reads back as the loaded number |
| `ProxyCache.StalePortExample` | src/evp-agent/src/esf.c:144-167 | a failed initialisation followed by a read that yields the abandoned port |
| `Decimal.PrintRead` | src/evp-agent/src/esf.c:134-135 | every number's %d text reads back as the number |

## Left out

- Downloading, JSON parsing, the OS update, logging and option parsing of the update script: the packages are inputs.
- Concurrent update runs and the running process: the script takes no lock, and the model takes one run at a time.
- Internals of EVP, ESF, WAMR, mbedTLS and the LED manager: each call is modelled by its outcome.
- Certificate discovery and file reads, and the system-manager keys of `evp_agent_esf_read_config`: foreign calls.
- `config.c`, `SystemDlog` and the log-level switches: single-branch facts.
- The published context after `evp_agent_free`, which is never reset: publication claims stop where unwinding begins.
- Insertions racing the unlocked flush loop: the flush is one step.
- The `updated` field of a table entry has no reader; it is set and cleared as in the code, and nothing is claimed of it.
- File modes other than the executable bit, and the contents of files beyond version and integrity, in the update model.
- DlogChunks.DlogHandler: prefix and message must fit an int together with the NUL, as the code's own sum does.
- AgentThread.MainLoop: covers loops that end; a loop that never ends is covered by `AgentThreads`.
- `evp_agent_startup`, `script/` and the build files.
