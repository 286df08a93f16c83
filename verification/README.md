# Verified models of the AVSession service's algorithms

This project models the parts of the AVSession repository that hold algorithms and state machines of
their own, and proves what they are for. Everything is Dafny 4.11; `dafny verify dfyconfig.toml` checks
all of it.

Code that changes objects step by step is modelled by classes and loops with the source's fields and
branches. Each such method is proved equal to a function on values (the `*Spec` modules), and the theorems
are lemmas about those functions, so they hold of the methods. The lemmas named `...Exactly`, `...Does` and
`...ByUpdate` state what such a function does without its helpers: constants, offsets, messages and paths are
written out.

| subject | modules | main results |
|---|---|---|
| Streaming SHA-256 (`utils/src/hash_calculator.cpp`) | `Sha256Spec`, `Sha256Properties`, `Sha256KnownAnswer`, `Sponges`, `HashCalculator` | from any earlier state of the context, any chunking gives the digest of FIPS 180-4, whose known answer for "abc" is computed |
| Home-music room controller (`avpicker/avpicker.js`) | `PickerSpec`, `PickerInvariants`, `PickerSelection`, `PickerEffects`, `Picker` | in every run both locks have an event to come that releases them, and what is shown agrees with the room list |
| Storage-record index (`utils/src/avsession_storage_event.cpp`) | `MapSums`, `Sequences`, `StorageSpec`, `StorageReport`, `UserSets`, `Storage`, `StoragePaths` | the index stays bounded, the summaries of all reports and the records still held add up to the net writes, and exactly how many files each report drops |
| Metadata parcel (`frameworks/common/src/avmeta_data.cpp`) | `Parcels`, `MetaDataSpec`, `MetaDataRoundTrip`, `MetaDataWire`, `MetaData` | what comes back from a parcel is what was sent, if and only if it was sendable |
| Pixel buffer (`frameworks/common/src/avsession_pixel_map_adapter.cpp`) | `PixelBuffer` | row copying is dense packing; packing and parsing undo each other |
| WantParams converters (`frameworks/cj/src/cj_avsession_utils.cpp`) | `StringOrder`, `WantParamsSpec`, `WantParamsRoundTrip`, `WantParamsArray`, `WantParamsConverter` | what is kept at any depth, and exactly when that is everything |
| Shared memory (`frameworks/common/src/av_shared_memory_base.cpp`) | `SharedMemory` | appends concatenate up to the capacity; reads return what was written |
| Playback-state deltas (`frameworks/common/src/avplayback_state.cpp`) | `PlaybackStateSpec`, `PlaybackState` | when a delta makes two states agree, field by field |
| Playing-state logs (`utils/src/avsession_sysevent.cpp`) | `PlayingLogsSpec`, `PlayingLogsRuns`, `PlayingLogsWritten`, `PlayingLogsReports`, `PlayingLogs` | logs are bounded and free of stutter, and exactly when what is written over many reports are the changes among all updates |
| Name masking (`utils/include/avsession_utils.h`) | `Utf8`, `NameMasking`, `NamesInBytes` | masks replace whole characters; exactly which titles are cut inside one, and of which names and titles nothing is hidden |

## Where the code does less than one would expect

Each of these is stated exactly: among the members named is one that says when it happens and when not.

- Where the platform's memset_s does not accept that there is nothing to set in no room, GetResult fails for
  a message whose length is 63 modulo 64, and for no other (`HashCalculator.DigestOfChunks`).
- A session-type message decides whether house music is selected without looking at room faults, unlike a
  refresh (`PickerSelection.SessionTypeIgnoresFaults`, `PickerSelection.AFaultyRoomIsTakenForSelected`).
- The scan lock does not hold the rooms for its whole length. The select lock ends under it exactly when a
  click timer fires (`PickerInvariants.SelectionOpensExactly`); such a timer appears exactly with a click on
  a playing device, on a checkbox, or, once the select lock is off, on any room
  (`PickerInvariants.ClickTimerAppearsExactly`); and a longer room list brings rooms that are not pending.
  Every listed room is pending throughout exactly if neither happens
  (`PickerInvariants.PendingThroughoutTheScan`).
- With 99 known users every file write causes a report (`StorageSpec.ManyUsersReportEveryWrite`); with fewer
  it does exactly if users and records reach 100 (`StorageReport.WriteLosesExactly`). A report
  clears all records but has lines only for those that fit beside its summaries into 100 strings
  (`StorageReport.ReportCounts`). So a write that fills the index drops a file when a new user writes at 99
  users and records, and more when the disk knows further users (`StorageReport.FillingWriteLoses`,
  `StorageReport.LostBeyondTheLimit`), and over a run the file lines fall short by what the reports drop
  (`Storage.Replay`).
- A report starts a bundle's logs anew from their sentinels. A change back to the sentinel across a report
  is in no report, and a value that has not changed is reported again (`PlayingLogsWritten.AChangeNobodyReports`,
  `PlayingLogsWritten.AValueReportedTwice`). What is written are the changes exactly if no report boundary is
  of either kind (`PlayingLogsWritten.WrittenLogsAreChanges`).
- Metadata does not survive a parcel with more than ten DRM schemes (which are silently not written), with a
  null bundle icon whose bit is set, with an empty image, with images over 10 MiB together, or with an
  avqueue image alone after an earlier send has left a media length behind
  (`MetaDataRoundTrip.RoundTripExactly`).
- Converting WantParams to the C array and back drops, without an error, every entry whose key is greater
  than that of the first nested map (`WantParamsRoundTrip.SetsWhatIsKept`, `WantParamsRoundTrip.RoundTripsExactly`,
  and a map to which it happens, `WantParamsRoundTrip.EntriesBehindAMapAreLost`).
- A write to the shared memory at a negative position other than the append marker is not turned down. The
  used size leaves the memory exactly if the write ends before it (`SharedMemory.BoundSurvivesExactly`,
  `SharedMemory.AUsedSizeBelowZero`).
- A playback speed that is not a number is reported as changed for ever
  (`PlaybackStateSpec.NothingLeftToSync`).
- Device names with one or three characters are shown in full beside or around their stars
  (`NameMasking.NamesShownInFull`). So are titles with one character, with two in at most three bytes, and
  with three of which the first has not three bytes (`NameMasking.TitlesShownInFull`). A title with two
  characters can be cut inside the first or the second one (`NameMasking.MaskedTitleIsValid`,
  `NameMasking.ATitleCutShort`).

## Model

| member | source | states |
|---|---|---|
| `HashCalculator.DigestOfChunks` | utils/src/hash_calculator.cpp:89-114 | for any earlier contents of the thread's context and any list of chunks below 2^64 bits in all, Init, one Update per chunk and GetResult give SHA-256 of the concatenation; GetResult succeeds if and only if memset_s accepts setting no bytes in no room or the length is not 63 modulo 64 |
| `Sha256KnownAnswer.Sha256OfAbc` | utils/src/hash_calculator.cpp:27-182 | SHA-256 of the bytes 0x61, 0x62, 0x63 is the 32 bytes that the standard gives for its first example, through all 64 schedule words and rounds |
| `Sha256Properties.ChChooses` | utils/src/hash_calculator.cpp:27-27 | where x has a one Ch has the bit of y, and where it has a zero that of z |
| `Sha256Properties.MajTakesTheMajority` | utils/src/hash_calculator.cpp:28-28 | Maj has the bit of x and y where they agree, and that of z where they differ |
| `Sha256Properties.RoundIsInjective` | utils/src/hash_calculator.cpp:152-172 | different working variables are still different after a round |
| `Sha256Properties.CompressAdds` | utils/src/hash_calculator.cpp:174-182 | compressing adds the variables after 64 rounds to the hash value word by word |
| `HashCalculator.HashCalculator.Init` | utils/src/hash_calculator.cpp:89-93 | makes any context, wiped or left half-way, the empty state of the standard |
| `HashCalculator.HashCalculator.Update` | utils/src/hash_calculator.cpp:95-102 | the context afterwards has absorbed the old bytes followed by the chunk, and counts eight bits a byte |
| `HashCalculator.HashCalculator.GetResult` | utils/src/hash_calculator.cpp:104-114 | gives the closing digest of what has been absorbed, or, exactly with 63 pending bytes where memset_s refuses to set nothing in no room, fails and keeps what has been absorbed |
| `HashCalculator.AlgoCtx.AlgoInit` | utils/src/hash_calculator.cpp:116-130 | the hash value is that of section 5.3.3 of FIPS 180-4 and nothing is buffered |
| `HashCalculator.AlgoCtx.AlgoTransform` | utils/src/hash_calculator.cpp:132-182 | the in-place schedule and rounds compress one block as section 6.2.2 of FIPS 180-4 does |
| `HashCalculator.FillSchedule` | utils/src/hash_calculator.cpp:135-150 | the array holds the recursive message schedule of the block |
| `HashCalculator.RunRounds` | utils/src/hash_calculator.cpp:152-172 | 64 passes of the register loop are the recursive rounds |
| `HashCalculator.FiveTermsFit` | utils/src/hash_calculator.cpp:161-171 | the 64-bit sum of five 32-bit terms does not overflow |
| `HashCalculator.AddFive` | utils/src/hash_calculator.cpp:161-171 | its cast is the sum modulo 2^32 |
| `HashCalculator.AlgoCtx.AlgoUpdate` | utils/src/hash_calculator.cpp:184-220 | filling the buffer, compressing whole blocks directly and keeping the rest is the same as feeding byte by byte |
| `HashCalculator.AlgoCtx.AlgoFinal` | utils/src/hash_calculator.cpp:222-273 | writes the digest of the closed state and wipes the context, through either padding path; fails exactly with a count over the buffer or at that memset_s, and then changes nothing |
| `HashCalculator.AlgoCtx.PadTail` | utils/src/hash_calculator.cpp:222-244 | after the pending bytes, the marker and the zeros, the last block is complete but for the length, unless there are 63 pending bytes and memset_s refuses |
| `Sponges.FeedConcat` | utils/src/hash_calculator.cpp:184-220 | feeding a concatenation is feeding its parts in turn |
| `Sponges.ChunkingDoesNotMatter` | utils/src/hash_calculator.cpp:184-220 | any list of chunks, empty ones included, leaves the state that their concatenation leaves |
| `Sponges.FeedFoldsBlocks` | utils/src/hash_calculator.cpp:184-220 | the hash value is the fold of compression over the complete blocks and the buffer is the remainder, below 64 bytes |
| `Sponges.CloseInOneBlock` | utils/src/hash_calculator.cpp:222-260 | with at most 55 pending bytes the last block holds them, the marker, zeros and the bit count |
| `Sponges.CloseInTwoBlocks` | utils/src/hash_calculator.cpp:222-260 | with 56 to 63 pending bytes two blocks do, the second being zeros and the bit count |
| `Sponges.CloseCompletesPadding` | utils/src/hash_calculator.cpp:222-260 | absorbed and closing blocks together are the padded message of section 5.1.1 of FIPS 180-4 |
| `Sponges.FeedThenCloseIsSha256` | utils/src/hash_calculator.cpp:184-273 | feeding a message and closing is the standard's digest |
| `Sha256Properties.ZeroCountIsLeast` | utils/src/hash_calculator.cpp:222-260 | the padding is the shortest that makes the length a multiple of the block |
| `Sha256Properties.LengthFieldRoundTrip` | utils/src/hash_calculator.cpp:246-257 | the eight big-endian bytes read back as the bit count, for every 64-bit count |
| `Sha256Properties.DigestReadsBack` | utils/src/hash_calculator.cpp:262-268 | each word of the hash value can be read back from its four big-endian bytes in the digest |
| `Sha256Properties.DigestIsInjective` | utils/src/hash_calculator.cpp:262-268 | different hash values have different digests |
| `Sha256Properties.PaddingIsInjective` | utils/src/hash_calculator.cpp:222-260 | two messages with the same padded form are the same message |
| `Sha256Properties.InitialHashFromSquareRoots` | utils/src/hash_calculator.cpp:116-130 | the initial words are the first 32 fraction bits of the square roots of the first eight primes |
| `Sha256Properties.RoundConstantsFromCubeRoots0` | utils/src/hash_calculator.cpp:56-73 | the first sixteen round constants are the first 32 fraction bits of the cube roots of their primes |
| `Sha256Properties.RoundConstantsFromCubeRoots16` | utils/src/hash_calculator.cpp:56-73 | the same for the next sixteen |
| `Sha256Properties.RoundConstantsFromCubeRoots32` | utils/src/hash_calculator.cpp:56-73 | the same for the next sixteen |
| `Sha256Properties.RoundConstantsFromCubeRoots48` | utils/src/hash_calculator.cpp:56-73 | the same for the last sixteen |
| `PickerInvariants.RunsKeep` | avpicker/avpicker.js:843-1121 | in every run from mounting on: the scan timer is armed exactly when the scan lock is on and not delayed, a delayed lock means the scan runs, a select lock has a click timer or a scan lock, without locks no listed room is pending, every timer can be cleared, and what is shown agrees with the list |
| `PickerInvariants.StepKeeps` | avpicker/avpicker.js:2330-2432 | each message, click and timer firing keeps that invariant |
| `PickerInvariants.UnmountedIsSilent` | avpicker/avpicker.js:854-860 | after aboutToDisappear no timer is left to fire |
| `PickerInvariants.ScanLockIsReleased` | avpicker/avpicker.js:947-973 | whatever else happens before the next scan starts, the scan lock holds until its 13 s timer has fired and the end of the scan has been announced, in either order, and the event that completes the two releases both locks and every room |
| `PickerInvariants.DelayedScanLockIsReleased` | avpicker/avpicker.js:947-973 | after the timer only the announcement is missing |
| `PickerInvariants.SelectLockIsReleased` | avpicker/avpicker.js:1015-1030 | a select lock without a scan lock has a click timer, and any click timer releases it |
| `PickerInvariants.ClickTimerOpensSelectionDuringScan` | avpicker/avpicker.js:1297-1311 | one such run: a device click during a scan arms a click timer whose firing frees the rooms while the scan lock is on |
| `PickerInvariants.SelectionOpensExactly` | avpicker/avpicker.js:1015-1030 | for every event: while the scan lock stays on, the select lock ends if and only if a click timer fires |
| `PickerInvariants.ClickTimerAppearsExactly` | avpicker/avpicker.js:1100-1121 | for every event during a scan without a click timer: one appears if and only if the event is a click on a playing device, on a clickable checkbox, or on a room or all rooms without the select lock |
| `PickerInvariants.RoomsStayPendingExactly` | avpicker/avpicker.js:893-906 | for every event: while the scan lock stays on, all listed rooms stay pending if and only if no click timer fires on a non-empty list and no list arrives with a room whose flag is not set |
| `PickerInvariants.PendingThroughoutTheScan` | avpicker/avpicker.js:893-973 | in every run under the scan lock all listed rooms are pending throughout if and only if no such event comes |
| `PickerInvariants.ScanStartsPending` | avpicker/avpicker.js:947-966 | a scan starts with both locks on and all listed rooms pending |
| `PickerEffects.AllSelectDoes` | avpicker/avpicker.js:1100-1121 | an accepted click on all rooms: exactly two messages, the whole list and true if the list is empty or a room of it is not selected, the null room and false otherwise; all rooms wait and a click timer is armed; nothing else changes |
| `PickerEffects.RefusedClicks` | avpicker/avpicker.js:1737-1760 | clicks under the select lock and on faulty or unlisted rooms change nothing |
| `PickerEffects.CheckboxDoes` | avpicker/avpicker.js:1854-1874 | a click on a checkbox in a reachable state: that room waits, the symmetric difference is remembered and sent as one message, the null room if it is empty, and nothing else changes |
| `PickerEffects.DeviceDoes` | avpicker/avpicker.js:1297-1311 | a click on a device: the null room is sent exactly if house music is selected, and then all rooms wait; a device that is not connected is asked for; nothing else changes |
| `PickerEffects.SliderDoes` | avpicker/avpicker.js:1045-1062 | a slider sets the volume of its room alone; exactly its end sends the numbered room and then the greatest volume of the selected rooms |
| `PickerEffects.KeyDoes` | avpicker/avpicker.js:1063-1099 | a volume key moves the selected rooms one level, up for key code 16, and sends every room with its number in list order and then the greatest volume |
| `PickerEffects.LevelsAreNearest` | avpicker/avpicker.js:1063-1091 | the level of a volume is the whole number nearest to 0.15 of it, and the volume of a level that nearest to 20/3 of it, halves up |
| `PickerEffects.MenuDoes` | avpicker/avpicker.js:862-869 | a change of the menu flag sends both menu flags and whether house music is picked, in this order |
| `PickerEffects.SubMenuDoes` | avpicker/avpicker.js:862-869 | so does one of the submenu flag |
| `PickerEffects.SessionTypeDoes` | avpicker/avpicker.js:879-892 | house music is selected exactly outside the two kinds of calls when a listed room plays the task; a change is sent |
| `PickerEffects.ListAndTaskDo` | avpicker/avpicker.js:893-940 | a list and a task: every flag, volume and aggregate is that of the rooms, waiting rooms are let go and timers cleared unless the scan lock is on, a change of house music and then the greatest volume are sent |
| `PickerEffects.ScanStatusDoes` | avpicker/avpicker.js:947-973 | the scan status: 0 locks all rooms, arms the scan timer and asks for the rooms; another lets all go exactly if the scan timer has fired, and otherwise only is remembered |
| `PickerEffects.TimersDo` | avpicker/avpicker.js:953-1021 | a click timer lets all rooms go, the scan timer does so exactly if the scan is over, and otherwise leaves it to the announcement; neither sends |
| `PickerEffects.UnmountingDoes` | avpicker/avpicker.js:854-860 | unmounting clears every timer and both locks and nothing else |
| `PickerEffects.SilentWithoutProxy` | avpicker/avpicker.js:862-1121 | without a proxy no event sends anything |
| `PickerEffects.MountedExactly` | avpicker/avpicker.js:150-200 | the component before the first event: no room, no lock, no timer, scan status -1, session type "audio" |
| `PickerEffects.SelectedExactly` | avpicker/avpicker.js:990-996 | a room is selected exactly if it plays the task, there is a task, and its fault code is not 1 |
| `PickerSelection.RefreshAgrees` | avpicker/avpicker.js:893-934 | after a refresh every flag, the all-selected flag, the maximum and the visible sliders agree with the room list |
| `PickerSelection.MaxVolumeIsGreatest` | avpicker/avpicker.js:979-988 | the maximum bounds every selected volume and is one of them unless it is zero |
| `PickerSelection.SessionTypeIgnoresFaults` | avpicker/avpicker.js:879-892 | a session-type message and a refresh disagree exactly when, outside a call, only faulty rooms play the task |
| `PickerSelection.AFaultyRoomIsTakenForSelected` | avpicker/avpicker.js:879-892 | one faulty room that plays the task and the message "audio": such a disagreement from mounting on |
| `PickerSelection.ChosenIsSymmetricDifference` | avpicker/avpicker.js:1031-1044 | a room is in the choice of a click exactly when it is selected or the clicked one but not both |
| `PickerSelection.ChosenIsOrdered` | avpicker/avpicker.js:1031-1044 | the choice lists each room once and in list order |
| `PickerSelection.ChosenAreTheRoomsThere` | avpicker/avpicker.js:1031-1044 | the rooms sent are the rooms at those positions, when the clicked room is not faulty |
| `PickerSelection.RoomClickSendsTheDifference` | avpicker/avpicker.js:1737-1760 | in a reachable state an accepted click sends exactly that choice, or the null room when it is empty |
| `PickerSelection.LevelSurvivesRounding` | avpicker/avpicker.js:1063-1091 | a level of 0 to 15 is recovered from the volume it is stored as, which lies in 0 to 100 |
| `PickerSelection.KeyMovesLevel` | avpicker/avpicker.js:1063-1091 | one key moves the level by one within 0 to 15 |
| `PickerSelection.KeysAreACounter` | avpicker/avpicker.js:1063-1091 | any sequence of keys acts on a selected room as a clamped counter and leaves the others alone |
| `PickerSelection.UpsSaturate` | avpicker/avpicker.js:1063-1091 | k ups give the level plus k, up to 15 |
| `PickerSelection.KeysKeepRoomOrder` | avpicker/avpicker.js:1063-1091 | no sequence of keys puts a quieter selected room above a louder one |
| `PickerSelection.OnKeyStepsTheList` | avpicker/avpicker.js:2410-2417 | the key message applies that step to the list, and numbers the rooms it sends |
| `PickerSelection.KeyRunIsACounter` | avpicker/avpicker.js:2410-2417 | any run of key messages acts on the component's selected rooms as a clamped counter, keeps their volumes in 0 to 100 and leaves other volumes alone |
| `PickerSelection.KeyRunKeepsRoomOrder` | avpicker/avpicker.js:2410-2417 | and never puts a quieter selected room above a louder one |
| `Picker.AVCastPicker.RefreshRoomList` | avpicker/avpicker.js:893-934 | the loop over the rooms and what follows it are the specified refresh |
| `Picker.AVCastPicker.HomeMusicScanStatusChange` | avpicker/avpicker.js:947-966 | its branches, with the watch they trigger, are the specified scan transition |
| `Picker.AVCastPicker.ScanDelayWatch` | avpicker/avpicker.js:967-973 | its branch is the specified transition |
| `Picker.AVCastPicker.ClearTimer` | avpicker/avpicker.js:1009-1014 | the loop clears every timeout it knows of |
| `Picker.AVCastPicker.RoomSelectStatusPendingInit` | avpicker/avpicker.js:1015-1021 | no listed room is pending and the select lock is off |
| `Picker.AVCastPicker.SetAllRoomSelectStatusPending` | avpicker/avpicker.js:1022-1030 | every listed room is pending and the select lock is on |
| `Picker.AVCastPicker.FindRoomMaxVolume` | avpicker/avpicker.js:979-988 | the loop finds the specified maximum |
| `Picker.AVCastPicker.GetCurrIsAllSelectStatus` | avpicker/avpicker.js:997-1008 | the loop with its early exit tells whether all rooms are selected |
| `Picker.AVCastPicker.GetCurrSelectRoom` | avpicker/avpicker.js:1031-1044 | the loop collects the specified choice |
| `Picker.AVCastPicker.SyncToRoomVolume` | avpicker/avpicker.js:1063-1091 | the loop with its six branches moves every selected volume by one level |
| `Picker.AVCastPicker.SendAllRoomVolumeToController` | avpicker/avpicker.js:1092-1099 | numbers the rooms and sends each |
| `Picker.AVCastPicker.AllSelectOnClickEven` | avpicker/avpicker.js:1100-1121 | is the specified click on all rooms |
| `Picker.AVCastPicker.RoomOnClick` | avpicker/avpicker.js:1737-1760 | is the specified click on a room, refused under the lock |
| `Picker.AVCastPicker.CheckboxOnClick` | avpicker/avpicker.js:1854-1874 | is the specified click on a checkbox |
| `Picker.AVCastPicker.DeviceOnClick` | avpicker/avpicker.js:1297-1311 | is the specified click on a device |
| `Picker.AVCastPicker.SliderOnChange` | avpicker/avpicker.js:1045-1062 | is the specified slider movement, reported at its end |
| `Picker.AVCastPicker.Handle` | avpicker/avpicker.js:2330-2432 | any event takes the component to the specified next state |
| `Picker.AVCastPicker.AboutToDisappear` | avpicker/avpicker.js:854-860 | is the specified unmounting |
| `Picker.Live` | avpicker/avpicker.js:843-1121 | the component itself, run on any events, is in the specified state and keeps the invariant |
| `StorageSpec.RunsStayBounded` | utils/src/avsession_storage_event.cpp:199-224 | after every operation users and records are below 100 together, or there are no records |
| `StorageSpec.RecordsAreConserved` | utils/src/avsession_storage_event.cpp:199-224 | the records counted in the summaries of reports and those still held add up to the net writes of the run |
| `StorageSpec.RecordedExactly` | utils/src/avsession_storage_event.cpp:199-204 | a write puts in its record, in place of an older one of the same file, and leaves every other record alone |
| `StorageSpec.DeletedExactly` | utils/src/avsession_storage_event.cpp:216-224 | a deletion takes out that record and leaves every other alone |
| `StorageSpec.EmptiedExactly` | utils/src/avsession_storage_event.cpp:425-428 | a report takes out every record and no user |
| `Storage.Replay` | utils/src/avsession_storage_event.cpp:199-429 | any calls on the object: the record counts of all summaries it has emitted, with the records it still holds, add up to the net writes; so do the file lines of all its events, the records that each report dropped for lack of room and those still held; and the index is bounded |
| `StorageSpec.ManyUsersReportEveryWrite` | utils/src/avsession_storage_event.cpp:199-214 | with 99 users or more every write reports at once and users are never forgotten |
| `StorageReport.SummariesAddUp` | utils/src/avsession_storage_event.cpp:383-429 | the counts and sizes in the summaries add up to those of the whole index |
| `StorageReport.ListingsHoldEveryRecord` | utils/src/avsession_storage_event.cpp:383-429 | the listings hold as many lines as there are records, each user's files once |
| `StorageReport.StringsInOrder` | utils/src/avsession_storage_event.cpp:383-423 | an event begins with all summaries, goes on with the listings and breaks off at 100 strings; without users it is one summary of user -1 with zeros |
| `StorageReport.ReportIsCompleteWhenItFits` | utils/src/avsession_storage_event.cpp:383-429 | an event has at most 100 strings or one per user, and holds every record exactly when users and records fit into 100 |
| `StorageReport.ReportCounts` | utils/src/avsession_storage_event.cpp:383-429 | every record is counted in its report's summaries; it has file lines for all of them, or for what is left of 100 strings beside the summaries |
| `StorageReport.FillingWriteLoses` | utils/src/avsession_storage_event.cpp:199-214 | the write that fills a non-full index leaves 101 users and records if the writer is new and there were 99, and 100 otherwise; with no further users on the disk its report drops one file in the first case and none in the other |
| `StorageReport.LostBeyondTheLimit` | utils/src/avsession_storage_event.cpp:383-429 | the records of an index exceed the file lines of its event, which erases them, if and only if there are some and users, those of the disk included, and records make more than 100, and then by as many as are beyond, or by all with more than 100 users |
| `StorageReport.WriteLosesExactly` | utils/src/avsession_storage_event.cpp:199-214 | any write, in terms of the index before it and the users of the disk: it reports if and only if users and records reach 100, and the report drops exactly what the users of index and disk and the records have beyond 100 |
| `Storage.ClassesPartitionTheTotal` | utils/src/avsession_storage_event.cpp:241-281 | local, cast and history files are the counted files, in number and in size |
| `StoragePaths.ClassesExactly` | utils/src/avsession_storage_event.cpp:259-276 | a path with ".image.dat" in it is counted: as cast exactly if it has "/cache/" in it and its name, behind the last slash, begins with "cast_", as local exactly in the cache without this, as history exactly outside the cache |
| `StoragePaths.MeasuresExactly` | utils/src/avsession_storage_event.cpp:241-281 | the counts and sizes of a scan are the numbers of the files of these classes and the sums of their sizes |
| `StoragePaths.TwoFilesOfTheCache` | utils/src/avsession_storage_event.cpp:259-276 | counting one file of a cache directory: a name that begins with "cast_" adds to cast and total, another to local and total |
| `StoragePaths.DiskAnswers` | utils/src/avsession_storage_event.cpp:33-40 | a file that cannot be examined counts as empty |
| `Storage.StorageUserData.GetTotalStorageBytes` | utils/src/avsession_storage_event.cpp:163-171 | the loop sums the sizes of the recorded files |
| `Storage.StorageUserData.AppendFileInfoStrings` | utils/src/avsession_storage_event.cpp:173-187 | appends a listing of the files, cut at the limit, whatever the order of the map |
| `Storage.AVSessionStorageEvent.GetOrCreateStorageUserData` | utils/src/avsession_storage_event.cpp:189-197 | gives the user's own object and leaves all records as they were |
| `Storage.AVSessionStorageEvent.RecordFileWrite` | utils/src/avsession_storage_event.cpp:199-214 | records the file and, when that fills the index, emits one report, which counts every record and has as many file lines as fit beside the users of disk and index, and empties it |
| `Storage.AVSessionStorageEvent.RecordFileDelete` | utils/src/avsession_storage_event.cpp:216-224 | forgets exactly that record |
| `Storage.AVSessionStorageEvent.ScanStorageStatistics` | utils/src/avsession_storage_event.cpp:241-281 | the statistics measure the files of the index and of the user's directories, each once |
| `Storage.AVSessionStorageEvent.CollectAllUsers` | utils/src/avsession_storage_event.cpp:321-330 | the loop inserts the users of the index among those of the disk: exactly these will have a summary |
| `Storage.AVSessionStorageEvent.ReportStorageStatistics` | utils/src/avsession_storage_event.cpp:383-429 | emits one event made of ascending summaries and then listings cut at 100 strings, and empties every user's records |
| `MetaData.SendAndReceive` | frameworks/common/src/avmeta_data.cpp:21-115 | through a parcel carrying other things before and behind, the received object equals the sender's and reading ends where writing ended, if and only if the metadata was sendable; it then is what the sender was before, with the lengths of the images that are there |
| `MetaDataWire.MeasuredExactly` | frameworks/common/src/avmeta_data.cpp:31-53 | sending sets the length of each image that is there, 0 for one over 10 MiB, and changes nothing else |
| `MetaDataWire.EncodeStart` | frameworks/common/src/avmeta_data.cpp:54-177 | the parcel token by token: the size of both images, the 28 characters of the mask with the highest bit first, the 26 fields each in its place, the bundle icon |
| `MetaDataWire.EncodeEnd` | frameworks/common/src/avmeta_data.cpp:59-244 | then a count of at most ten schemes and the schemes, or neither, and the media image followed by the avqueue image exactly if they make 1 byte to 10 MiB |
| `MetaDataWire.ReadFieldsExactly` | frameworks/common/src/avmeta_data.cpp:199-225 | from any stream: each field takes the token in its place, up to the first that is not of its type, where reading stops; the fields from there on keep their values |
| `MetaDataWire.MaskReadExactly` | frameworks/common/src/avmeta_data.cpp:193-197 | a mask of at most 28 characters is read from its last character on |
| `MetaDataWire.ReadDrmExactly` | frameworks/common/src/avmeta_data.cpp:277-292 | from any stream: a count of 0 to 10 and so many strings are read; another count and a missing string are failures, and where each ends |
| `MetaDataWire.DecodeExactly` | frameworks/common/src/avmeta_data.cpp:80-231 | from any stream: what ends the reading early, what is turned down, what is taken, and where the cursor is left |
| `MetaDataWire.NewIsEmpty` | interfaces/inner_api/native/session/include/avmeta_data.h:237-266 | a new object has an empty mask, a skip interval of 15 s, filter 2 and otherwise nothing |
| `MetaDataRoundTrip.RoundTripExactly` | frameworks/common/src/avmeta_data.cpp:26-231 | decode(encode(x) + rest) is (x, rest) if and only if: at most ten DRM schemes, no announced but missing icon, display tags in range, present images non-empty, announced and at most 10 MiB together, and no stale media length beside a lone avqueue image |
| `MetaDataRoundTrip.SendableRoundTrips` | frameworks/common/src/avmeta_data.cpp:26-231 | sendable metadata comes back with every field, the mask and both images |
| `MetaDataRoundTrip.OnlySendableRoundTrips` | frameworks/common/src/avmeta_data.cpp:26-231 | nothing else does |
| `MetaDataRoundTrip.MaskRoundTrip` | frameworks/common/src/avmeta_data.cpp:148-197 | a mask printed high bit first and parsed by flips is the same mask |
| `MetaDataRoundTrip.FieldsRoundTrip` | frameworks/common/src/avmeta_data.cpp:150-225 | the 26 plain fields are read back in their order |
| `MetaDataRoundTrip.DrmRoundTrip` | frameworks/common/src/avmeta_data.cpp:233-292 | up to ten schemes are read back |
| `MetaDataRoundTrip.ExceptImagesRoundTrip` | frameworks/common/src/avmeta_data.cpp:148-231 | everything but the images: what a lost icon or too many schemes do to the reader |
| `MetaDataRoundTrip.LostIconStopsTheReader` | frameworks/common/src/avmeta_data.cpp:226-230 | an icon whose bit is set but that is null keeps metadata from coming back |
| `MetaDataRoundTrip.TooManySchemesAreLost` | frameworks/common/src/avmeta_data.cpp:233-244 | so do more than ten schemes, whatever follows in the parcel |
| `MetaDataRoundTrip.ImagesRoundTrip` | frameworks/common/src/avmeta_data.cpp:117-146 | cutting the blob at the media length gives both images back |
| `MetaData.AVMetaData.WriteToParcel` | frameworks/common/src/avmeta_data.cpp:26-78 | appends the encoding and changes nothing of the sender but its two image lengths |
| `MetaData.AVMetaData.MarshallingExceptImg` | frameworks/common/src/avmeta_data.cpp:148-181 | appends the mask, the fields, the icon and the schemes in their order, and succeeds whatever the schemes' result |
| `MetaData.AVMetaData.WriteDrmSchemes` | frameworks/common/src/avmeta_data.cpp:233-244 | writes a count and that many strings, or nothing for more than ten |
| `MetaData.AVMetaData.UnmarshallingExceptImg` | frameworks/common/src/avmeta_data.cpp:183-231 | reads what the decoder reads, also from streams that end early or hold other things, and returns true for a failure |
| `MetaData.AVMetaData.FlipBits` | frameworks/common/src/avmeta_data.cpp:193-197 | the loop flips the bits printed as ones |
| `MetaData.AVMetaData.ReadDrmSchemes` | frameworks/common/src/avmeta_data.cpp:277-292 | reads a count of at most ten and that many strings, or fails without changing the schemes |
| `MetaData.AVMetaData.ReadFromParcel` | frameworks/common/src/avmeta_data.cpp:117-146 | splits the blob at the media length, or fails when it is out of range |
| `MetaData.AVMetaData.Unmarshalling` | frameworks/common/src/avmeta_data.cpp:80-115 | gives the decoded object or null, and leaves the cursor where the decoder does, for every stream |
| `PixelBuffer.FilledIsDense` | frameworks/common/src/avsession_pixel_map_adapter.cpp:120-147 | after the row copy, row i and column j of the source are at i rows and j bytes of the destination, and bytes behind the rows are untouched |
| `PixelBuffer.RowsAreDense` | frameworks/common/src/avsession_pixel_map_adapter.cpp:134-146 | concatenated rows are the dense packing |
| `PixelBuffer.RemainingCoversTheRow` | frameworks/common/src/avsession_pixel_map_adapter.cpp:138-139 | the 32-bit remaining size never wraps and always covers a row |
| `PixelBuffer.CopyPixMapToDst` | frameworks/common/src/avsession_pixel_map_adapter.cpp:120-155 | copies exactly when its checks pass, and otherwise changes nothing |
| `PixelBuffer.CopyRows` | frameworks/common/src/avsession_pixel_map_adapter.cpp:122-147 | the loop with the advancing destination fills the rows |
| `PixelBuffer.SizeRoundTrip` | frameworks/common/src/avsession_pixel_map_adapter.cpp:172-177 | decoding what the shifting mask encodes gives every 32-bit size back |
| `PixelBuffer.SizeBytesRoundTrip` | frameworks/common/src/avsession_pixel_map_adapter.cpp:98-102 | encoding what the sum of shifts decodes gives any four bytes back |
| `PixelBuffer.PackThenParse` | frameworks/common/src/avsession_pixel_map_adapter.cpp:73-105 | a packed picture is accepted and comes back with its six fields and all pixels exactly when its pixels are as many as its fields announce and the buffer size fits an int32_t |
| `PixelBuffer.ParsedIsPacked` | frameworks/common/src/avsession_pixel_map_adapter.cpp:73-105 | every accepted buffer starts with the packing of what it is accepted for, and is exactly that if and only if its pixels are below 4 GiB |
| `PixelBuffer.PackExactly` | frameworks/common/src/avsession_pixel_map_adapter.cpp:157-188 | a packed buffer byte by byte: 0 and 48, the 48 bytes of the image information, the number of pixel bytes with its highest byte first, the pixels |
| `PixelBuffer.AcceptedExactly` | frameworks/common/src/avsession_pixel_map_adapter.cpp:73-105 | any buffer: it is accepted if and only if its size as an int32_t is over 50 and it has 54 bytes, begins with 0 and 48, and the bytes behind the size are, modulo 2^32, as many as the size says and as the image library computes |
| `PixelBuffer.ParsedExactly` | frameworks/common/src/avsession_pixel_map_adapter.cpp:73-105 | the picture has the fields at byte 2 and so many bytes from byte 54 on |
| `PixelBuffer.FieldsExactly` | frameworks/common/src/avsession_pixel_map_adapter.cpp:46-71 | width, height, pixel format, colour space, alpha type and density lie in this order four bytes apart |
| `PixelBuffer.FieldExactly` | frameworks/common/src/avsession_pixel_map_adapter.cpp:46-71 | a field is four bytes with the lowest first |
| `PixelBuffer.DmaExactly` | frameworks/common/src/avsession_pixel_map_adapter.cpp:128-133 | the checks pass exactly for a height and a stride that are not negative, a positive width, and height times width within the buffer |
| `PixelBuffer.ConvertAndSetInnerImgBuffer` | frameworks/common/src/avsession_pixel_map_adapter.cpp:157-188 | builds the packing |
| `PixelBuffer.ConvertFromInner` | frameworks/common/src/avsession_pixel_map_adapter.cpp:73-105 | accepts and reads what the parser does, with its 16-bit and 32-bit arithmetic, for any byte count of the image library; only a buffer that ends within its size bytes must not be announced as that short by a negative count |
| `PixelBuffer.ConvertImageInfoFromInner` | frameworks/common/src/avsession_pixel_map_adapter.cpp:46-71 | reads the six fields at their offsets |
| `WantParamsConverter.ThereAndBack` | frameworks/cj/src/cj_avsession_utils.cpp:238-298 | at any depth: conversion fails exactly on empty or foreign arrays, the way back gives exactly what is kept, and the same map without an error comes back exactly when it was clean and not empty |
| `WantParamsRoundTrip.RoundTripsExactly` | frameworks/cj/src/cj_avsession_utils.cpp:472-626 | there and back is the identity if and only if the map is not empty and, recursively, has no 64-bit values, unknown interfaces, empty arrays or empty maps, maps with a type are descriptors, and any other map is under the greatest key |
| `WantParamsRoundTrip.SetsWhatIsKept` | frameworks/cj/src/cj_avsession_utils.cpp:238-298 | in general the entries in key order up to and including the first map are kept, recursively, with an error at the first 64-bit value |
| `WantParamsRoundTrip.ConvertsExactly` | frameworks/cj/src/cj_avsession_utils.cpp:577-626 | the way there succeeds if and only if no array is empty and other arrays hold maps |
| `WantParamsArray.ArrayCarriesTheMap` | frameworks/cj/src/cj_avsession_utils.cpp:300-626 | at any depth the array has one item per entry, in order and under its key, holding that very value: plain values, 64-bit ones included, and lists of them, the number of a descriptor, the items of a map, the numbers of an array of maps |
| `WantParamsArray.GetParamExactly` | frameworks/cj/src/cj_avsession_utils.cpp:472-626 | a key is found exactly with the value of its entry |
| `WantParamsArray.BoxedCarries` | frameworks/cj/src/cj_avsession_utils.cpp:238-279 | what is set for a C value of another type is the value that it carries, and descriptors become maps with type and value |
| `WantParamsArray.PassingItemsAreSet` | frameworks/cj/src/cj_avsession_utils.cpp:238-279 | any array without maps and 64-bit values: each key has the value of its last item that is not null, and other keys keep theirs |
| `WantParamsArray.OtherItemsStop` | frameworks/cj/src/cj_avsession_utils.cpp:255-298 | any array: the first 64-bit value ends it with an error, the first map ends it after being set, and nothing behind either counts |
| `WantParamsRoundTrip.KeptIsIdentity` | frameworks/cj/src/cj_avsession_utils.cpp:238-279 | all is kept exactly of clean maps |
| `WantParamsRoundTrip.FdArrayIsKept` | frameworks/cj/src/cj_avsession_utils.cpp:516-551 | an array of maps is kept exactly when each holds a descriptor under the array's own key |
| `WantParamsRoundTrip.FdIsKept` | frameworks/cj/src/cj_avsession_utils.cpp:472-509 | a map with a type is kept exactly when it is a descriptor |
| `WantParamsRoundTrip.SetThenGet` | frameworks/cj/src/cj_avsession_utils.cpp:238-279 | setting a key is a map update |
| `WantParamsRoundTrip.SetKeepsOrder` | frameworks/cj/src/cj_avsession_utils.cpp:238-279 | and keeps the order of the keys |
| `StringOrder.LessExactly` | frameworks/cj/src/cj_avsession_utils.cpp:577-626 | the order in which the keys of a map are walked: the first difference decides, and a proper beginning is less |
| `WantParamsRoundTrip.EntriesBehindAMapAreLost` | frameworks/cj/src/cj_avsession_utils.cpp:261-262 | a concrete map that comes back shorter without an error |
| `WantParamsConverter.SetDataParameters` | frameworks/cj/src/cj_avsession_utils.cpp:238-279 | the loop sets what the specification sets, from any array and into any map; a null array is an error |
| `WantParamsConverter.InnerSetWantParamsHashMap` | frameworks/cj/src/cj_avsession_utils.cpp:281-298 | sets the nested map, or nothing when it has an error |
| `WantParamsConverter.InnerSetWantParamsArrayFD` | frameworks/cj/src/cj_avsession_utils.cpp:222-234 | sets an array of descriptor maps |
| `WantParamsConverter.ParseParameters` | frameworks/cj/src/cj_avsession_utils.cpp:577-626 | one parameter per entry, carrying its value, null for an empty map, null and an error when any entry fails |
| `WantParamsConverter.GetValue` | frameworks/cj/src/cj_avsession_utils.cpp:472-509 | tells descriptors from maps and recurs |
| `WantParamsConverter.InnerWrapWantParamsArrayFd` | frameworks/cj/src/cj_avsession_utils.cpp:516-551 | the loop collects the descriptors, leaving slots without one as they were allocated |
| `WantParamsConverter.GetFDValue` | frameworks/cj/src/cj_avsession_utils.cpp:432-449 | finds the integer under the value key of the map under a key |
| `SharedMemory.AppendsConcatenate` | frameworks/common/src/av_shared_memory_base.cpp:210-246 | any appends hold the concatenation cut at the capacity, and the returned lengths add up to the used size |
| `SharedMemory.RunsStayBounded` | frameworks/common/src/av_shared_memory_base.cpp:195-246 | in every run the used size stays within the capacity, which only closing changes |
| `SharedMemory.BoundSurvivesExactly` | frameworks/common/src/av_shared_memory_base.cpp:219-244 | for any position, the used size left by a write stays within the capacity if and only if it is the append marker, not negative, or negative with a write that reaches the memory |
| `SharedMemory.Place` | frameworks/common/src/av_shared_memory_base.cpp:219-244 | for any size, capacity, size to write and position: where the write starts, how much it copies and the used size of that lemma; it never passes the capacity, so the test for this refuses nothing |
| `SharedMemory.AUsedSizeBelowZero` | frameworks/common/src/av_shared_memory_base.cpp:219-244 | three bytes at position -5 of an empty memory of ten: the used size left is -2 |
| `SharedMemory.WrittenUses` | frameworks/common/src/av_shared_memory_base.cpp:219-244 | at the positions of the specified write it leaves that same used size |
| `SharedMemory.WriteThenRead` | frameworks/common/src/av_shared_memory_base.cpp:210-281 | what was written can be read back where it was written, appended or placed |
| `SharedMemory.ReadsContents` | frameworks/common/src/av_shared_memory_base.cpp:248-281 | a read at p returns the used bytes from p on, at most n of them |
| `SharedMemory.WriteInside` | frameworks/common/src/av_shared_memory_base.cpp:221-246 | a write inside what is used keeps what is before it and drops what is behind it |
| `SharedMemory.WrittenExactly` | frameworks/common/src/av_shared_memory_base.cpp:210-246 | any write byte by byte: where it starts, how much of the data it puts there, what is used afterwards, and that every other byte stays |
| `SharedMemory.ReadExactly` | frameworks/common/src/av_shared_memory_base.cpp:248-281 | any read byte by byte |
| `SharedMemory.ClearAndClose` | frameworks/common/src/av_shared_memory_base.cpp:195-286 | clearing uses nothing and keeps the bytes; closing leaves none |
| `SharedMemory.AVSharedMemoryBase.Write` | frameworks/common/src/av_shared_memory_base.cpp:210-246 | stores and returns what the specification says, also for null input and a memory that is closed or not mapped |
| `SharedMemory.AVSharedMemoryBase.Read` | frameworks/common/src/av_shared_memory_base.cpp:248-281 | copies and returns what the specification says |
| `SharedMemory.AVSharedMemoryBase.ClearUsedSize` | frameworks/common/src/av_shared_memory_base.cpp:283-286 | nothing is used and the bytes stay |
| `SharedMemory.AVSharedMemoryBase.Close` | frameworks/common/src/av_shared_memory_base.cpp:195-208 | no bytes are left |
| `SharedMemory.AppendAll` | frameworks/common/src/av_shared_memory_base.cpp:210-281 | a fresh mapping, appended to and read, gives the concatenation cut at the capacity |
| `PlaybackStateSpec.SyncMakesFilteredFieldsEqual` | frameworks/common/src/avplayback_state.cpp:259-298 | after a delta the filtered fields agree with the sender's if and only if its mask covers the filtered fields that differed |
| `PlaybackStateSpec.SyncLeavesTheRest` | frameworks/common/src/avplayback_state.cpp:259-298 | fields and bits outside the filter stay as they were |
| `PlaybackStateSpec.NothingLeftToSync` | frameworks/common/src/avplayback_state.cpp:274-284 | the changed mask is then empty if and only if the sender had set all that was reported and no filtered speed is NaN |
| `PlaybackStateSpec.SyncedField` | frameworks/common/src/avplayback_state.cpp:259-298 | field by field: what is taken over and what is not |
| `PlaybackStateSpec.SyncedFieldsByName` | frameworks/common/src/avplayback_state.cpp:259-450 | the fourteen fields by name: each is taken over exactly under its own key of filter and mask |
| `PlaybackStateSpec.NothingIsSet` | interfaces/inner_api/native/session/include/avplayback_state.h:156-171 | a new object has an empty mask, speed 1 and otherwise zeros |
| `PlaybackStateSpec.CopiedField` | frameworks/common/src/avplayback_state.cpp:259-298 | copying by a mask takes the masked fields, sets their bits and leaves the rest |
| `PlaybackStateSpec.CopyToSelf` | frameworks/common/src/avplayback_state.cpp:259-298 | copying a state onto itself changes nothing |
| `PlaybackStateSpec.CloneSetsOneField` | frameworks/common/src/avplayback_state.cpp:382-450 | the k-th clone action sets the k-th field and no other |
| `PlaybackStateSpec.ChangedIsDifferent` | frameworks/common/src/avplayback_state.cpp:305-380 | the k-th check sees exactly the differences in the k-th field, and a NaN speed |
| `PlaybackState.Sync` | frameworks/common/src/avplayback_state.cpp:259-298 | the three steps on objects do all of this and leave the sender alone |
| `PlaybackState.AVPlaybackState.CopyToByMask` | frameworks/common/src/avplayback_state.cpp:259-271 | copies the fields that are set and asked for, also onto itself, and tells whether there were any |
| `PlaybackState.AVPlaybackState.GetChangedStateMask` | frameworks/common/src/avplayback_state.cpp:274-284 | the loop over the check actions gives the changed mask |
| `PlaybackState.AVPlaybackState.CopyFrom` | frameworks/common/src/avplayback_state.cpp:286-298 | takes over all that is set, also from itself |
| `PlaybackState.AVPlaybackState.Clone` | frameworks/common/src/avplayback_state.cpp:382-450 | the table of clone actions |
| `PlaybackState.AVPlaybackState.Check` | frameworks/common/src/avplayback_state.cpp:305-380 | the table of check actions |
| `PlayingLogsRuns.UpdatesAreConserved` | utils/src/avsession_sysevent.cpp:196-333 | the updates from which a bundle's reports and its live logs are made are, one after the other, all its updates in order |
| `PlayingLogsWritten.WrittenLogsAreChanges` | utils/src/avsession_sysevent.cpp:196-317 | in every run a bundle's reported logs followed by its live log are the changes among all its inputs, even as to the values alone, if and only if at every report boundary the first input equals the sentinel just when it equals the last one; meta quality is always complete |
| `PlayingLogsWritten.BoundaryExactly` | utils/src/avsession_sysevent.cpp:473-519 | two logs started from the sentinel are the log of all inputs if and only if the boundary between them is of that kind |
| `PlayingLogsWritten.CountsExactly` | utils/src/avsession_sysevent.cpp:473-519 | what is written lacks exactly one change for each boundary where the first input is the sentinel and the last was not, and has exactly one entry too many for each where another value is repeated |
| `PlayingLogsWritten.AChangeNobodyReports` | utils/src/avsession_sysevent.cpp:196-222 | command quality 5, a report, 0, a report: the change back to 0 is in neither |
| `PlayingLogsWritten.AValueReportedTwice` | utils/src/avsession_sysevent.cpp:196-222 | command quality 5, a report, 5, a report: both hold it |
| `PlayingLogs.Replay` | utils/src/avsession_sysevent.cpp:196-333 | any updates and reports on the object: it keeps the bounds, and the lists it has written and holds for a bundle are the changes among the bundle's inputs exactly as just said |
| `PlayingLogsRuns.RunsKeepBounds` | utils/src/avsession_sysevent.cpp:245-317 | in every run live logs have fewer than 100 entries and reported ones at most 100 |
| `PlayingLogsRuns.ReportAllEmptiesTheMap` | utils/src/avsession_sysevent.cpp:224-234 | reporting all emits each live bundle exactly once, in key order, and empties the map |
| `PlayingLogsSpec.LogsAreChanges` | utils/src/avsession_sysevent.cpp:473-519 | every log but meta quality holds exactly the inputs that differ from the input right before them, starting from its sentinel |
| `PlayingLogsSpec.LogsAreStutterFree` | utils/src/avsession_sysevent.cpp:473-519 | such a log has no two equal neighbours and does not begin with its sentinel |
| `PlayingLogsReports.LogsByUpdate` | utils/src/avsession_sysevent.cpp:473-519 | one update, log by log: its own log grows by its value and time, for control with the caller, unless it repeats the last value or the initial 2, 0, 0 or 18; meta quality always grows; the other logs stay |
| `PlayingLogsReports.ReportColumns` | utils/src/avsession_sysevent.cpp:196-222 | a report has under each name the values of that log, and under its time name the times of the same entries |
| `PlayingLogsReports.DetailsByUpdate` | utils/src/avsession_sysevent.cpp:255-333 | version, type, intent and avqueue are those of the last update that sets them |
| `PlayingLogsReports.UpdateExactly` | utils/src/avsession_sysevent.cpp:255-333 | an update is added to its bundle alone, and the bundle is reported with it and forgotten if and only if the log of the update then has 100 entries |
| `PlayingLogsReports.ReportExactly` | utils/src/avsession_sysevent.cpp:196-222 | a report writes exactly what is live of its bundle and forgets it |
| `PlayingLogs.PlayingStateInfo.UpdateState` | utils/src/avsession_sysevent.cpp:473-481 | the state log and its times hold the logged inputs including this one |
| `PlayingLogs.PlayingStateInfo.UpdateMetaQuality` | utils/src/avsession_sysevent.cpp:483-488 | likewise; nothing is left out |
| `PlayingLogs.PlayingStateInfo.UpdateCommandQuality` | utils/src/avsession_sysevent.cpp:490-498 | likewise |
| `PlayingLogs.PlayingStateInfo.UpdatePlaybackState` | utils/src/avsession_sysevent.cpp:500-508 | likewise |
| `PlayingLogs.PlayingStateInfo.UpdateControl` | utils/src/avsession_sysevent.cpp:510-519 | likewise, with the callers |
| `PlayingLogs.PlayingStateInfo.ReportsItsHistory` | utils/src/avsession_sysevent.cpp:204-219 | what is written for a bundle is a function of its updates since the last report, list by list |
| `PlayingLogs.AVSessionSysEvent.GetPlayingStateInfo` | utils/src/avsession_sysevent.cpp:245-253 | gives the bundle's own object, made empty when there was none |
| `PlayingLogs.AVSessionSysEvent.UpdateState` | utils/src/avsession_sysevent.cpp:255-269 | records the update, and reports and forgets the bundle when its log is full |
| `PlayingLogs.AVSessionSysEvent.UpdateMetaQuality` | utils/src/avsession_sysevent.cpp:271-281 | likewise |
| `PlayingLogs.AVSessionSysEvent.UpdateCommandQuality` | utils/src/avsession_sysevent.cpp:283-293 | likewise |
| `PlayingLogs.AVSessionSysEvent.UpdatePlaybackState` | utils/src/avsession_sysevent.cpp:295-307 | likewise |
| `PlayingLogs.AVSessionSysEvent.UpdateControl` | utils/src/avsession_sysevent.cpp:309-317 | likewise |
| `PlayingLogs.AVSessionSysEvent.UpdateSupportIntent` | utils/src/avsession_sysevent.cpp:319-325 | records the update and never reports |
| `PlayingLogs.AVSessionSysEvent.UpdateSupportAvqueue` | utils/src/avsession_sysevent.cpp:327-333 | records the update and never reports |
| `PlayingLogs.AVSessionSysEvent.ReportPlayingState` | utils/src/avsession_sysevent.cpp:196-222 | writes the bundle's report and forgets it; nothing for an unknown bundle |
| `PlayingLogs.AVSessionSysEvent.ReportPlayingStateAll` | utils/src/avsession_sysevent.cpp:224-234 | the two loops are the specified step |
| `Utf8.PositionsAreBoundaries` | utils/include/avsession_utils.h:363-368 | in valid UTF-8 the bytes that do not continue a character are the character starts, one each |
| `NamesInBytes.PositionsExactly` | utils/include/avsession_utils.h:363-368 | in any bytes the positions are those of the bytes that are not 10xxxxxx, in order |
| `NameMasking.MaskedDeviceNameIsValid` | utils/include/avsession_utils.h:417-465 | masking any valid device name gives valid UTF-8 |
| `NameMasking.LongDeviceName` | utils/include/avsession_utils.h:448-464 | with at least three characters exactly the inner ones become four stars, and there are some exactly from four characters on |
| `NameMasking.ShortDeviceName` | utils/include/avsession_utils.h:438-447 | with one or two characters the first is shown, then four stars |
| `NameMasking.MaskOfLongName` | utils/include/avsession_utils.h:448-464 | any bytes with at least three positions: both ends that are kept, with four stars between them |
| `NamesInBytes.DeviceKeepExactly` | utils/include/avsession_utils.h:448-461 | 2 and 1 of three to five, 2 and 2 of six to eight, 3 and 2 of nine to fifteen, 4 and 3 of sixteen or more |
| `NamesInBytes.ShortNameInBytes` | utils/include/avsession_utils.h:417-447 | any bytes with fewer than three positions: the first position up to the second one or the end, and four stars |
| `NameMasking.MaskedTitleIsValid` | utils/include/avsession_utils.h:356-415 | masking a valid title gives valid UTF-8 if and only if it is not a two-character title over three bytes whose first character has not three, nor a 4 to 7 character title beginning with more than one byte under a ratio that is not positive |
| `NameMasking.LongTitle` | utils/include/avsession_utils.h:388-415 | with at least four characters exactly the inner ones become three stars, for a positive ratio or beyond seven characters |
| `NameMasking.DefaultTitleKeep` | utils/include/avsession_utils.h:388-408 | at the default ratio four characters keep 1 and 1, five 1 and 2, more 2 and 2 |
| `NameMasking.TitleKeepFits` | utils/include/avsession_utils.h:388-409 | something is hidden exactly for a positive ratio or beyond seven characters |
| `NameMasking.TwoCharacterTitleIsValid` | utils/include/avsession_utils.h:372-386 | two characters are cut between characters exactly when the first has three bytes or both have at most three |
| `NameMasking.OtherShortTitle` | utils/include/avsession_utils.h:372-386 | one character, and three unless the first has three bytes, are shown in full |
| `NameMasking.MaskOfLongTitle` | utils/include/avsession_utils.h:388-415 | any bytes with at least four positions: both ends that are kept, with three stars between them, or the first byte and three stars |
| `NamesInBytes.TitleKeepExactly` | utils/include/avsession_utils.h:388-409 | with m characters to hide of four to seven, half of the others are kept in front and the rest behind, one at least; two and two of eight or more |
| `NamesInBytes.ShortTitleInBytes` | utils/include/avsession_utils.h:356-386 | any bytes with at most three positions: which become stars, the first three bytes and stars, or all between stars |
| `NameMasking.ATitleCutShort` | utils/include/avsession_utils.h:372-386 | a letter and a three-byte character give text that is not UTF-8 |
| `NameMasking.NameHidesExactly` | utils/include/avsession_utils.h:417-465 | stars aside, the mask of a device name shows the whole name if and only if the second of two characters, or the inner ones of at least four, are stars themselves |
| `NameMasking.NamesShownInFull` | utils/include/avsession_utils.h:417-465 | of the names without stars, those with no, one or three characters are shown in full and no others |
| `NameMasking.TitleHidesExactly` | utils/include/avsession_utils.h:356-415 | the same for titles at any ratio, with the bytes their mask leaves out |
| `NameMasking.TitlesShownInFull` | utils/include/avsession_utils.h:356-415 | of the titles without stars, those with at most one character, two in at most three bytes, or three of which the first has not three bytes are shown in full and no others |
| `NameMasking.GetAnonyDeviceName` | utils/include/avsession_utils.h:417-465 | computes that mask for any bytes, valid or not |
| `NameMasking.GetAnonyTitle` | utils/include/avsession_utils.h:356-415 | computes that mask for any bytes and any ratio |
| `NameMasking.CharPositions` | utils/include/avsession_utils.h:363-368 | the loop finds the bytes that do not continue a character |

## Left out

- Calls of the securec library succeed whenever the count fits the room, also for the copy of an empty pixel
  buffer. Where the shared memory copies no bytes, and where the padding of 63 pending bytes sets none in no
  room, a parameter says whether they succeed, and every result holds for both answers.
- Memory allocation always succeeds, and each method is one step: locks are not modelled. The hash context
  is thread-local, so one context stands for one thread.
- The picker's rendering, accessibility, `isShowHomeAudio`, menu geometry and device list; the initial
  properties have their declared values; `setTimeout` returns a number. A message with several fields is
  the events of its fields in the order in which they are handled. Checkbox clicks are allowed also where
  the page does not show the checkbox, which gives more runs than there are.
- Volumes are real numbers: the rounding of floating point products is not modelled, that of Math.round is.
- The file system and the clock of the storage index are parameters; a listed user's directories hold an
  arbitrary set of files. The texts of summaries and file lines are kept as structured values, so their
  formatting and path anonymisation are not modelled; nor are the timer and the session table.
- A parcel is a stream of typed tokens. A read of a token of another type fails and moves nothing, and the
  field being read keeps its value: the library's behaviour on foreign bytes is not part of this model. Raw
  data is one token, given back at the size it was written with. Images are values, not shared objects. The
  26 plain fields are kept in seven records of the object, in the order in which they are written.
- Image scaling, ASTC conversion, the creation of the final pixel map and the 24 further bytes of an
  ImageInfo that are packed but not read back. The byte count is whatever the image library computes from
  the six fields.
- WantParams values, keys and C strings hold no null characters, and arrays have no unset elements. Slots
  left as malloc gave them hold an arbitrary fixed number.
- The mapping of the shared memory and its descriptor.
- SharedMemory.RunsStayBounded: not for negative positions other than the append marker, which the code does
  not turn down; `SharedMemory.BoundSurvivesExactly` says for which of them the used size stays in bounds.
- SharedMemory.Place: computes on integers; where capacity less a position passes the int32_t range, that is
  for positions below capacity less 2^31 - 1, the subtraction of the source has no defined result.
  `SharedMemory.BoundSurvivesExactly` is about the same integers.
- SharedMemory.AVSharedMemoryBase.Write: not at negative positions other than the append marker, nor inside a
  memory that is not mapped, where bytes outside the mapping would be written, which the model does not have.
- SharedMemory.AVSharedMemoryBase.Read: not at negative positions other than the append marker, for the same
  reason.
- PixelBuffer.ConvertFromInner: not for a buffer of 51 to 53 bytes whose byte count is its size less 54, where
  the size bytes behind its end would be read.
- Doubles of the playback state are compared as numbers: the two zeros are one value. Extras are compared by
  what they hold, and copied as values. Setters, getters and the parcel form of the playback state.
- Of the system events only the playing-state logs: counts, life cycles, low quality and cast control
  records have no logs to keep. `PLAYING_AVSESSION_STATS` reports for certificates share nothing with them.
- PlayingLogsRuns.UpdatesAreConserved: about the updates that reports are made from, not the values written,
  which lack or repeat some; those are what `PlayingLogsWritten` is about.
- The title ratio is a real number, so that rounding of the product with the length is not modelled.
- Other parcel codecs of the repository (descriptors, call data, commands, queues), which have the token
  pattern of the metadata with fewer conditions.
- IPC proxies and stubs, foreign-function forwarding, radar reports, permissions and event handlers, which
  hold no algorithm.
