# Photofission event builder — a Dafny model

This project models the core of an offline event builder for a photofission
experiment. The builder reads digitizer hits from ROOT files. Each hit has
a module, a channel, a timestamp and two energies.

For each input file the program:

- repairs a timestamp-counter overflow and sorts the hits by time;
- builds one event around every event-trigger hit, taking in the hits
  within a time window on both sides;
- aborts an event when a trigger of higher priority (larger detector id)
  lies in reach;
- classifies each event by counting its hits per detector role (silicon
  front, silicon back, gamma, neutron) and flagging it as a fission event;
- hands the events to a writer, which flattens each event into one tree
  row.

Around this core the model also covers the following:

- the per-channel settings grid, which is read from JSON and has a
  template generator;
- the selection of one input file per run version from a directory
  listing;
- the worker count, and the shared queue of files that the worker threads
  pop from;
- the macro that clears every time offset and makes module 2, channel 0
  the only trigger.

The program's exceptions, its dereferences of a null `unique_ptr` and its
reads of a missing JSON key are modelled as `Err` values (`Results.Error`),
so no precondition excludes an input the program accepts. Timestamps are integers. Integer fields keep the widths
they have in the program (`u8`, `u16`, `u32`, `i32`), and every narrowing
assignment is written out as a modular conversion (`EventData.ToU8`).

The overflow repair is modelled as `CheckHitData` writes it, not as a
simpler rule such as "shift every hit below half the range by one range".
When the last hit is more than one counter range (2^47 − 1) after the
first, the repair walks the hits in load order. It shifts modules 0 and 1
by four ranges and the other modules by two, and stops after the first
step that jumps by more than one range. `TimestampRepair` models that
walk. The fission threshold is the literal 1500 of
src/TEventBuilder.cpp:231, a constant (`Classification.FissionThreshold`).

Files:

| file | module | what it holds |
|---|---|---|
| results.dfy | Results | `Option`, `Result` and the error taxonomy |
| event_data.dfy | EventData | hits, events and the integer-width conversions |
| hit_type.dfy | HitTypes | the module-to-role map |
| classification.dfy | Classification | multiplicities, ADC values and the fission flag |
| ch_settings.dfy | ChannelSettings | channel settings, their JSON form, the template and the reader |
| timestamp_repair.dfy | TimestampRepair | the overflow repair and the sort |
| event_builder.dfy | EventBuilding | the window scans, event building and the builder's API |
| file_writer.dfy | FileWriting | the writer's buffer and the flattening into rows |
| run_files.dfy | RunFiles | the file list, the worker count and the queue |
| worker.dfy | Worker | one worker thread's loop |
| no_time_offset.dfy | NoTimeOffset | the time-offset reset macro |

## Model

| member | source | states |
|---|---|---|
| EventData.ToU8 | src/TEventBuilder.cpp:157 | storing an int in a `uint8_t` keeps its value modulo 256, and keeps it exactly when it is in 0..255 |
| EventData.ToU32 | include/TChSettings.hpp:115 | reading a JSON integer into a `uint32_t` field keeps it modulo 2^32, and keeps it exactly in range |
| EventData.ToI32 | include/TChSettings.hpp:116 | reading a JSON integer into the `int32_t` detector id keeps it modulo 2^32, and keeps it exactly within the signed 32-bit range |
| EventData.MakeHit | include/TEventData.hpp:16-22 | the five-argument hit constructor stores each argument in its own field, whatever the initializer order |
| EventData.DefaultEvent | include/TEventData.hpp:30-39 | a new event is not a fission event, has trigger id 0, all multiplicities 0 and no hits |
| EventData.Rebase | src/TEventBuilder.cpp:139-140 | a hit taken into an event has its time measured from the trigger (adding the trigger time gives back the original) and keeps every other field |
| HitTypes.GetHitType | src/TEventBuilder.cpp:100-114 | module 0 is silicon front, 1 is silicon back, 2–4 gamma, 5–9 neutron, 10 and above unknown; each as an if-and-only-if |
| Classification.CountRolePositive | src/TEventBuilder.cpp:143-155 | a role counter is non-zero exactly when some hit of the event has that role |
| Classification.RoleCountsBounded | src/TEventBuilder.cpp:176-189 | each hit is counted in at most one role, so the four counts sum to at most the number of hits |
| Classification.AdcFromAnchor | src/TEventBuilder.cpp:180-184 | with the update as written, a side's ADC is the trigger hit's energy as soon as any hit of that side is counted, and 0 otherwise |
| Classification.AdcFromMember | src/TEventBuilder.cpp:146-150 | with each hit's own energy, a side's ADC is at least every energy of that side and equal to one of them (or 0 when there are none) |
| Classification.Classify | src/TEventBuilder.cpp:129-157 | an event carries the trigger's id and exactly the hits it was built from |
| Classification.SiMultiplicitySum | src/TEventBuilder.cpp:143-150 | the silicon counter is front plus back, less 256 when the 8-bit counter wraps |
| Classification.RoleMultiplicitiesBounded | src/TEventBuilder.cpp:131-135 | the four 8-bit role counters together never exceed the number of hits in the event |
| Classification.MultiplicitiesExact | src/TEventBuilder.cpp:143-155 | for fewer than 256 hits each counter is the exact number of hits of its role, and the silicon counter is front plus back |
| Classification.FissionAsWritten | src/TEventBuilder.cpp:228-231 | as the code computes it, an event is flagged fission exactly when both silicon counters are non-zero and the trigger hit's own energy exceeds 1500 |
| Classification.FissionIntended | src/TEventBuilder.cpp:228-231 | with the ADC of each side taken from its silicon hits, an event is fission exactly when both counters are non-zero and some front hit and some back hit exceed 1500 |
| Classification.AnchorEnergyMissesFission | src/TEventBuilder.cpp:180 | a gamma trigger of energy 100 with front and back silicon hits of 2000 is not flagged by the code but is flagged by the intended rule |
| ChannelSettings.DefaultChSettings | include/TChSettings.hpp:16-39 | a default channel is no trigger and has no anticoincidence partner; it has zero ids, offsets, geometry and threshold, and calibration p1 = 1 with the other coefficients 0 |
| ChannelSettings.Encode | include/TChSettings.hpp:66-85 | a channel object holds exactly the twenty setting keys, each with the value of its field |
| ChannelSettings.TemplateEntry | include/TChSettings.hpp:65-85 | a template channel object holds exactly the twenty setting keys |
| ChannelSettings.TemplateEntryValues | include/TChSettings.hpp:66-85 | a template channel at (i, j) is no trigger and has no anticoincidence; it has module i, channel j, detector id, coincidence id and threshold 0, partner 128/128, offset 0, and calibration p1 = 1 with the other coefficients 0 |
| ChannelSettings.GenerateTemplate | include/TChSettings.hpp:59-90 | the template has nMods rows of nChs channel objects, row i made of the objects for module i |
| ChannelSettings.TemplateRow | include/TChSettings.hpp:62-87 | row i of the template holds nChs objects, the j-th being the object for module i, channel j |
| ChannelSettings.GenerateDefaultTemplate | include/TChSettings.hpp:59 | called without arguments, the generator makes 10 modules of 16 channels |
| ChannelSettings.TruncateTowardZero | include/TChSettings.hpp:115-125 | a JSON floating value stored in an integer field is truncated toward zero, for negative values as well |
| ChannelSettings.GetBool | include/TChSettings.hpp:114 | a flag reads successfully exactly when the key is present with a boolean, and then it is that boolean |
| ChannelSettings.GetU32 | include/TChSettings.hpp:115 | an unsigned field reads exactly when the key holds a number or a boolean; an integer is stored modulo 2^32, and a boolean as 1 or 0 |
| ChannelSettings.GetI32 | include/TChSettings.hpp:116 | the detector id reads exactly when the key holds a number or a boolean; an integer is stored as a signed 32-bit value, and a boolean as 1 or 0 |
| ChannelSettings.GetReal | include/TChSettings.hpp:119 | a floating field reads exactly when the key holds an integer or a floating value, which it keeps (a boolean is a type error) |
| ChannelSettings.BooleanInFloatingFieldRejected | include/TChSettings.hpp:119-133 | a channel object with a boolean in any of the eleven floating fields does not read |
| ChannelSettings.Decode | include/TChSettings.hpp:113-133 | a channel object that reads successfully has all twenty keys; a failure is a missing key or a value of the wrong type |
| ChannelSettings.DecodeEncode | include/TChSettings.hpp:113-133 | reading back the object written for any channel settings gives those settings |
| ChannelSettings.DecodeReadsAs | include/TChSettings.hpp:113-133 | an object reads as settings s exactly when each of its twenty keys reads as the matching field of s |
| ChannelSettings.EncodeStores | include/TChSettings.hpp:66-85 | the object written for s stores every field of s under its key |
| ChannelSettings.StoredReadsAs | include/TChSettings.hpp:114-133 | an object that stores each field of s reads back, key by key, as s |
| ChannelSettings.DecodeRow | include/TChSettings.hpp:111-136 | a module reads exactly when all of its channel objects read, giving one settings record per object, in order |
| ChannelSettings.DecodeGrid | include/TChSettings.hpp:110-138 | the grid reads exactly when every module reads, giving one row per module, in order |
| ChannelSettings.GetChSettings | include/TChSettings.hpp:96-141 | a settings file that cannot be opened gives an empty grid; otherwise reading succeeds exactly when every channel object reads, and the grid then has the document's shape with each record its object read back |
| ChannelSettings.TemplateEntryReadsBack | include/TChSettings.hpp:65-85 | a template channel object reads back as the template record of its module and channel |
| ChannelSettings.DecodeRowEach | include/TChSettings.hpp:111-136 | a module whose objects each read as a given record reads as the sequence of those records |
| ChannelSettings.TemplateReadsBack | include/TChSettings.hpp:59-94 | reading a generated template gives an nMods × nChs grid of template records |
| ChannelSettings.Lookup | src/TEventBuilder.cpp:128 | a module/channel lookup succeeds exactly when both indices are inside the grid, and then gives that channel's settings |
| TimestampRepair.ShiftEnd | src/TEventBuilder.cpp:80-91 | the shifting loop stops just after the first hit whose successor jumps by more than one range, or before the last hit if none does |
| TimestampRepair.ShiftLoop | src/TEventBuilder.cpp:80-91 | the loop shifts exactly the hits from its start up to its stop point, and leaves every other hit as it was |
| TimestampRepair.Repair | src/TEventBuilder.cpp:72-92 | without an overflow the hits are unchanged; with one, the prefix up to the first big jump is shifted (4 ranges for modules 0/1, 2 otherwise) and the rest is kept; the last hit is never shifted; only timestamps change |
| TimestampRepair.InsertByTime | src/TEventBuilder.cpp:94-97 | inserting a hit into a time-sorted list keeps it sorted and adds exactly that hit |
| TimestampRepair.SortByTime | src/TEventBuilder.cpp:94-97 | the sort gives a time-ordered permutation of its input |
| TimestampRepair.CheckHitData | src/TEventBuilder.cpp:70-98 | the prepared hits are time-ordered and are a permutation of the repaired hits, so they are a permutation of the loaded hits when there was no overflow |
| TimestampRepair.TimesPermutation | src/TEventBuilder.cpp:94-97 | two permutations of the same hits have permuted timestamps |
| TimestampRepair.SortedIntsUnique | src/TEventBuilder.cpp:94-97 | there is only one sorted arrangement of a multiset of timestamps |
| TimestampRepair.SortedHitsUnique | src/TEventBuilder.cpp:94-97 | when no two hits share a timestamp, there is only one time-ordered arrangement of them |
| TimestampRepair.CheckHitDataAnySort | src/TEventBuilder.cpp:94-97 | without equal timestamps, any time-ordered permutation of the repaired hits, whatever sort produced it, is the prepared vector |
| TimestampRepair.CheckHitDataIdempotent | src/TEventBuilder.cpp:70-98 | preparing hits that are already sorted and not overflowed gives the same timestamps in the same order |
| EventBuilding.ScanForward | src/TEventBuilder.cpp:160-192 | the forward scan never takes more hits than remain after the trigger |
| EventBuilding.ScanForwardTaken | src/TEventBuilder.cpp:171-191 | the forward members are the hits right after the trigger, in order, each timed from the trigger and not past the window |
| EventBuilding.ScanForwardClear | src/TEventBuilder.cpp:162-169 | no hit the forward scan looked at, including the one it stopped at, is a trigger of higher priority |
| EventBuilding.ScanForwardStop | src/TEventBuilder.cpp:171-174 | the forward scan ends at the last hit or at the first hit past the window |
| EventBuilding.ScanBackward | src/TEventBuilder.cpp:194-226 | the backward scan never takes more hits than precede the trigger |
| EventBuilding.ScanBackwardTaken | src/TEventBuilder.cpp:205-225 | the backward members are the hits right before the trigger, nearest first, each timed from the trigger and not before the window |
| EventBuilding.ScanBackwardClear | src/TEventBuilder.cpp:196-203 | no hit the backward scan looked at, including the one it stopped at, is a trigger of higher priority |
| EventBuilding.ScanBackwardStop | src/TEventBuilder.cpp:205-208 | the backward scan ends at the first hit or at the first hit before the window |
| EventBuilding.ForwardAbortIff | src/TEventBuilder.cpp:160-192 | the forward scan aborts the event exactly when it reaches a higher-priority trigger before leaving the window |
| EventBuilding.BackwardAbortIff | src/TEventBuilder.cpp:194-226 | the backward scan aborts the event exactly when it reaches a higher-priority trigger before leaving the window |
| EventBuilding.ForwardStopsForGood | src/TEventBuilder.cpp:171-174 | on time-ordered hits, every hit after the forward stop point is past the window too |
| EventBuilding.BackwardStopsForGood | src/TEventBuilder.cpp:205-208 | on time-ordered hits, every hit before the backward stop point is before the window too |
| EventBuilding.TriggerIdOf | src/TEventBuilder.cpp:157 | an event's trigger id is the trigger channel's detector id modulo 256 |
| EventBuilding.AnchorEvent | src/TEventBuilder.cpp:126-241 | only a hit on a trigger channel starts an event |
| EventBuilding.AnchorEventShape | src/TEventBuilder.cpp:139-157 | an event starts with its trigger hit at time 0, carries the trigger's 8-bit id, is the classification of its own hits, and is a fission event whenever only fission events are kept |
| EventBuilding.AnchorEventKeptIff | src/TEventBuilder.cpp:158-240 | with every event kept, a hit yields an event exactly when it is a trigger and neither scan reaches a higher-priority trigger |
| EventBuilding.AnchorEventFissionFilter | src/TEventBuilder.cpp:233-239 | keeping only fission events drops exactly the non-fission events and changes no other event |
| EventBuilding.AnchorEventParts | src/TEventBuilder.cpp:139-226 | an event's hits are the trigger, then the forward members, then the backward members |
| EventBuilding.ScansWithinWindow | src/TEventBuilder.cpp:160-226 | on time-ordered hits, everything both scans take lies within ±window of the trigger |
| EventBuilding.ScansCoverWindow | src/TEventBuilder.cpp:160-226 | on time-ordered hits, both scans together take every hit within ±window of the trigger |
| EventBuilding.AnchorEventWithinWindow | src/TEventBuilder.cpp:171-208 | on time-ordered hits, every hit of an event is within ±window of its trigger |
| EventBuilding.AnchorEventCoversWindow | src/TEventBuilder.cpp:160-226 | on time-ordered hits, an event holds every hit within ±window of its trigger |
| EventBuilding.TieOrderChangesEvent | src/TEventBuilder.cpp:160-174 | two time-ordered arrangements of the same hits can yield different events: a higher-priority trigger and a plain hit at the same time past the window veto the event or not depending on which comes first |
| EventBuilding.BuildFrom | src/TEventBuilder.cpp:126-242 | there are never more events than hits |
| EventBuilding.EventsAt | src/TEventBuilder.cpp:127-241 | each hit yields at most one event |
| EventBuilding.AnchorsFrom | src/TEventBuilder.cpp:126-128 | the hits that start an event are listed in strictly increasing order, within range |
| EventBuilding.AnchorsFromComplete | src/TEventBuilder.cpp:126-241 | every hit that yields an event is in that list |
| EventBuilding.AnchorTable | src/TEventBuilder.cpp:126-241 | the table has one entry per hit: the event that hit would start, if any |
| EventBuilding.BuildFromAnchors | src/TEventBuilder.cpp:126-242 | the k-th built event is the event of the k-th anchor hit, in hit order |
| EventBuilding.FissionOnly | src/TEventBuilder.cpp:233-236 | the fission-only selection keeps only fission events |
| EventBuilding.FissionOnlyAppend | src/TEventBuilder.cpp:233-239 | the fission-only selection distributes over concatenation |
| EventBuilding.EventsAtFission | src/TEventBuilder.cpp:233-239 | per hit, the fission-only build is the fission selection of the full build |
| EventBuilding.BuildFissionFilter | src/TEventBuilder.cpp:233-239 | the fission-only event list is exactly the full event list with the non-fission events removed, in order |
| EventBuilding.FirstUnknown | src/TEventBuilder.cpp:56-61 | the first hit whose channel is not in the grid; all hits before it are configured |
| EventBuilding.NewBuilder | src/TEventBuilder.cpp:9-18 | a new builder stores its four arguments and has no hits and no event list |
| EventBuilding.SetTimeWindow | include/TEventBuilder.hpp:36 | setting the window changes the window and nothing else |
| EventBuilding.GetEventData | include/TEventBuilder.hpp:31-34 | taking the event list hands over what the builder held and leaves it holding none |
| EventBuilding.GetEventDataTwice | include/TEventBuilder.hpp:31-34 | a second take in a row yields a null list |
| EventBuilding.EventBuild | src/TEventBuilder.cpp:116-245 | with no hits the builder is left as it was (its event list possibly null) and 0 is returned; otherwise building fails exactly when some hit's channel is not configured, and else the installed list is the events of the anchor hits in order (`BuildFrom`, characterised by `BuildFromAnchors`) and its size is returned |
| EventBuilding.LoadHits | src/TEventBuilder.cpp:22-68 | an unreadable file gives no hits and count 0; a readable one fails exactly when some channel is not configured or the tree is empty; otherwise the hits are time-ordered, a permutation of the repaired hits, and the count is their number |
| EventBuilding.LoadHitsGuarded | src/TEventBuilder.cpp:22-68 | with an emptiness guard before the repair, loading fails only on an unconfigured channel, and an empty tree loads no hits |
| EventBuilding.EmptyTreeFails | src/TEventBuilder.cpp:73 | an empty tree makes the loader fail, while the guarded loader gives no hits |
| EventBuilding.EventBuildGuarded | src/TEventBuilder.cpp:118-123 | with an empty-list result in place of the early return, building always installs an event list and fails only on an unconfigured channel |
| FileWriting.PushHitsSpec | src/TFileWriter.cpp:93-99 | pushing hits keeps the five columns aligned, keeps what they held, and puts hit k's fields at the k-th new index |
| FileWriting.FillRows | src/TFileWriter.cpp:79-101 | one row is filled per drained event |
| FileWriting.Flatten | src/TFileWriter.cpp:80-99 | an event's row copies its flag, trigger id and multiplicities, and holds its hits field by field in aligned columns |
| FileWriting.UnflattenFlatten | src/TFileWriter.cpp:80-99 | an event can be rebuilt from its row: flattening loses nothing |
| FileWriting.FlattenAll | src/TFileWriter.cpp:79-101 | the rows of a batch are the rows of its events, in order |
| FileWriting.FlattenAllAppend | src/TFileWriter.cpp:79-101 | the rows of two batches are the rows of each, one after the other |
| FileWriting.FillRowsFlatten | src/TFileWriter.cpp:79-101 | because the columns are cleared before each event, the rows filled from reused branch variables are the events' own rows |
| FileWriting.NewWriter | src/TFileWriter.cpp:5-27 | a new writer has nothing pending and nothing written |
| FileWriting.SetData | src/TFileWriter.cpp:34-39 | a batch is appended to the pending events in order, and nothing written changes; a null batch is an error |
| FileWriting.DrainStep | src/TFileWriter.cpp:67-101 | one pass empties the buffer and appends the rows of everything that was pending, in order |
| FileWriting.StepLedger | src/TFileWriter.cpp:34-101 | each submission or drain keeps "written rows, then the rows of pending events" equal to the rows of everything submitted |
| FileWriting.ApplyLedger | src/TFileWriter.cpp:34-101 | over any sequence of non-null submissions and drains, no event is lost, duplicated or reordered |
| FileWriting.WrittenAfterFinish | src/TFileWriter.cpp:41-61 | after the final drain, the written rows are exactly the rows of all submitted events, in submission order |
| RunFiles.DecimalString | main.cpp:28 | a version renders as a non-empty string of decimal digits with no leading zero |
| RunFiles.DecimalRoundTrip | main.cpp:28 | the rendered digits denote the number rendered |
| RunFiles.DecimalInjective | main.cpp:28 | different numbers render as different digit strings |
| RunFiles.SearchKeyInjective | main.cpp:27-28 | within one run, different versions give different search keys |
| RunFiles.ContainsIff | main.cpp:30 | a path matches exactly when the key occurs in it at some offset |
| RunFiles.FirstMatch | main.cpp:29-34 | the chosen listing entry contains the key and no earlier entry does; none is chosen when no entry contains it |
| RunFiles.FilesFrom | main.cpp:26-35 | the version loop selects at most one file per version |
| RunFiles.GetFileList | main.cpp:16-37 | a missing directory or an empty version range gives no files; otherwise at most one file per version |
| RunFiles.MatchedVersions | main.cpp:26-35 | the versions with a match, ascending, and every version in range that has a match |
| RunFiles.FilesFromVersions | main.cpp:26-35 | the selected files are, in ascending version order, one per matched version: the file chosen for that version |
| RunFiles.FileForVersionSpec | main.cpp:27-34 | a chosen file is the first listing entry containing the version's key; no file is chosen only when no entry contains it |
| RunFiles.PlanRun | main.cpp:117-131 | no files ends the run, then an empty settings grid ends it; otherwise the worker count is the hardware thread count capped at the number of files |
| RunFiles.PopFront | main.cpp:147-154 | a worker takes the head of the queue and leaves the rest, or stops on an empty queue |
| RunFiles.DispatchInOrder | main.cpp:146-154 | whatever the lock order, files are handed out in queue order, each once, the k-th lock holder getting the k-th file |
| RunFiles.DispatchTakesAll | main.cpp:146-154 | with enough lock acquisitions every queued file is taken and the queue ends empty |
| Worker.Deliver | main.cpp:168-169 | handing over a batch appends it to the writer's pending events and adds its size to the event total |
| Worker.DeliverTwice | main.cpp:168-169 | handing over two batches is handing over their concatenation |
| Worker.PreparedHitsKnown | src/TEventBuilder.cpp:80-97 | the repair and the sort only move timestamps, so every prepared hit's channel is still configured |
| Worker.ProcessFileAsWritten | main.cpp:156-169 | the loop body as written succeeds only on a readable, non-empty file whose channels are all configured |
| Worker.HandOver | main.cpp:164-169 | handing over fails exactly when the builder holds no event list, and the failure is a null batch |
| Worker.HandOverDelivers | main.cpp:164-169 | a builder holding n events hands exactly those to the writer and adds n to the total |
| Worker.MissingFileNullBatch | main.cpp:156-169 | as written, a file that cannot be opened reaches the writer as a null batch |
| Worker.EmptyTreeStopsWorker | main.cpp:157 | as written, an empty tree makes the loop body fail in the loader |
| Worker.ProcessFileAsWrittenEvents | main.cpp:156-169 | as written, a readable non-empty file with configured channels delivers its events built with the trigger-energy ADC |
| Worker.FileEventsAnySort | src/TEventBuilder.cpp:94-97 | without equal timestamps after the repair, the events built from any time-ordered arrangement of a file's hits are the file's events |
| Worker.LoadsPrepared | src/TEventBuilder.cpp:22-68 | a readable non-empty file with configured channels loads as its repaired, sorted hits |
| Worker.BuildsFileEvents | src/TEventBuilder.cpp:116-245 | a non-empty, configured hit list builds exactly the events of its anchors |
| Worker.ProcessFile | main.cpp:156-169 | the corrected loop body fails exactly when a readable file has an unconfigured channel; otherwise it delivers that file's events, built with each member's own energy |
| Worker.UnreadableFileSkipped | main.cpp:156-169 | the corrected loop body leaves the worker unchanged on a missing file or an empty tree |
| Worker.RunWorkerOkIff | main.cpp:146-171 | the corrected worker loop (missing files and empty trees skipped) fails exactly when one of its files has an unconfigured channel |
| Worker.RunWorkerDelivers | main.cpp:146-171 | the corrected worker loop, on files that are all configured, delivers the events of all its files (built with each member's own energy) in the order it took them, and counts them |
| Worker.WorkerWritesAllEvents | main.cpp:146-176 | with the corrected worker loop, after the final write a worker's output holds the rows of all events of its files, in the order taken, and its total is their number |
| NoTimeOffset.ResetEntry | macro/gen_no_timeoffset.cpp:18-22 | each channel object gets time offset 0 and is a trigger exactly at module 2, channel 0; every other key and value is kept |
| NoTimeOffset.ResetGrid | macro/gen_no_timeoffset.cpp:16-24 | the rewritten document has the same shape |
| NoTimeOffset.GenNoTimeOffset | macro/gen_no_timeoffset.cpp:7-28 | a file that cannot be opened is left absent; an existing one is rewritten |
| NoTimeOffset.ResetGridEntries | macro/gen_no_timeoffset.cpp:16-24 | every object of the rewritten document has offset 0, is a trigger only at (2, 0), and keeps its other keys and values |
| NoTimeOffset.ResetEntryIdempotent | macro/gen_no_timeoffset.cpp:18-22 | resetting a channel object twice is resetting it once |
| NoTimeOffset.GenNoTimeOffsetIdempotent | macro/gen_no_timeoffset.cpp:16-24 | running the macro twice leaves the file as running it once |
| NoTimeOffset.ResetEntryDecodes | macro/gen_no_timeoffset.cpp:18-22 | a channel object that read as settings s reads, after the reset, as s with offset 0 and the trigger flag set only at (2, 0) |
| NoTimeOffset.ResetReadsAs | macro/gen_no_timeoffset.cpp:18-22 | an object that differs from another only in offset and trigger flag reads as the other's settings with those two fields replaced |
| NoTimeOffset.GenNoTimeOffsetSettings | macro/gen_no_timeoffset.cpp:16-24 | reading the rewritten file gives the original grid with every offset 0 and module 2, channel 0 the only trigger |

## Left out

- File and ROOT I/O are not modelled. Opening the input file and its `ELIADE_Tree`, reading branches, writing the output tree and the file, and reading and writing JSON files are all left out. An input file is its hit list (`None` when it or its tree cannot be opened), and a settings file is its parsed document.
- JSON text parsing and `dump` are left out. The document is a grid of key-to-value maps. Of nlohmann's conversions, the model keeps these: an integer field accepts an integer, a floating value (truncated toward zero) or a boolean (1 or 0); a floating field accepts an integer or a floating value; a flag accepts only a boolean. Any other value is `Err(WrongType)`, which is nlohmann's `type_error`.
- ChannelSettings.Decode: `Err(MissingKey)` stands for undefined behaviour, not an exception. The program reads with `operator[]` on a `const` JSON object (include/TChSettings.hpp:114-133), and a missing key there hits nlohmann's assertion. The model reports an error instead of continuing with whatever that behaviour produces.
- EventBuilding.LoadHits: the ps-to-ns division and the addition of the channel time offset to each timestamp (src/TEventBuilder.cpp:58-59) are not modelled. The loaded hits already carry converted timestamps. Only the settings lookup that line performs, which can throw, is kept.
- EventData.Hit: timestamps, the time window and the counter range are integers, not `double`s. Rounding in floating-point addition is not modelled.
- Threads and mutexes are not modelled. The shared queue is a sequential schedule of lock acquisitions (`RunFiles.Dispatch`). Each worker's writer is a sequence of submissions and drains (`FileWriting.Apply`). `Write`'s busy-wait loop and the join of the writing thread are modelled as one final drain.
- `eveCount` in main.cpp is shared by all workers and updated under the lock. The model proves each worker's own contribution only. The sum over workers is not modelled.
- Worker.Deliver: the event total is unbounded. The program's `auto eveCount = 0` is an `int` and could overflow past 2^31 − 1 events.
- EventBuilding.BuildFrom: the number of hits is unbounded. The program converts it to `int32_t nHits` (src/TEventBuilder.cpp:125), which is not modelled for 2^31 hits or more.
- RunFiles.GetFileList: versions are unbounded. With `endVersion == 2^32 − 1` the program's `uint32_t` loop counter wraps and the loop never ends; the model stops after the last version.
- The `TriggerTime` branch of the writer is not modelled. It copies `event.TriggerTime` (src/TFileWriter.cpp:82), which `TEventData` does not declare, so a row holds every other branch.
- main.cpp builds `TEventBuilder` with three arguments (fileName, timeWindow, settings), but the constructor takes four. `onlyFissionEvents` is a parameter of the run (`Worker.RunParams`).
- Worker.ProcessFileAsWrittenEvents: the delivered events are those of the model's tie order (an insertion sort, stable). `std::sort` leaves the order of equal timestamps open. When equal timestamps meet a window edge or a priority check, the program's events can differ (`EventBuilding.TieOrderChangesEvent`). Without equal timestamps the events are determined (`Worker.FileEventsAnySort`).
- Worker.ProcessFile: the same tie-order caveat as the line above.
- Worker.RunWorkerDelivers: the same tie-order caveat.
- Worker.WorkerWritesAllEvents: the same tie-order caveat.
- Worker.LoadsPrepared: the loaded vector is the model's sort of the repaired hits; the program's agrees with it when no two timestamps are equal (`TimestampRepair.CheckHitDataAnySort`).
- TimestampRepair.SortByTime: `std::sort` is not stable. The contract gives sorted order and a permutation, and does not fix the order of hits with equal timestamps. An insertion sort stands in for it.
- `std::thread::hardware_concurrency()` is an input (`hardwareThreads`). When it is 0, no worker is started; `RunFiles.PlanRun` returns 0 workers in that case.
- Console output (hit and event counts, diagnostics, `TChSettings::Print`), the interactive prompt and command-line parsing are left out, as are the progress and timing reports.
- `settings.json` reading in main.cpp (directory, run number, versions, time window) is left out. Its values are inputs of `RunFiles.GetFileList` and `Worker.RunParams`.
- Classification.Classify: the `uint16_t` ADC accumulators are compared as integers. Their values are already `u16` energies, so no wrap-around can occur.

## Findings

| source | as written | input that shows it | evidently intended | confidence | as-written member | corrected member |
|---|---|---|---|---|---|---|
| src/TEventBuilder.cpp:73 | `CheckHitData` reads `fHitData.at(0)` even when the tree has no entries, so `LoadHits` throws `std::out_of_range` | an input file whose `ELIADE_Tree` has zero entries | an empty tree yields no hits and no events, and the worker goes on | not executed | EventBuilding.EmptyTreeFails | EventBuilding.LoadHitsGuarded |
| main.cpp:157-169 | when a file cannot be opened, `LoadHits` returns 0 and `EventBuild` returns before creating the event list; `GetEventData` then yields a null `unique_ptr`, and `SetData` dereferences it (src/TFileWriter.cpp:37) | a listed file that cannot be opened, or whose tree is missing | the file contributes no events | not executed | Worker.MissingFileNullBatch | Worker.UnreadableFileSkipped |
| src/TEventBuilder.cpp:180 | the forward and backward scans update `frontADC`/`backADC` with `hit.Energy`, the trigger hit's energy, instead of the member's (also lines 184, 214, 218) | a gamma trigger (module 2) of energy 100 with a front (module 0) and a back (module 1) silicon hit of energy 2000 each: not flagged as fission | each side's ADC is the largest energy among its silicon hits, and the event is flagged fission | not executed | Classification.AnchorEnergyMissesFission | Classification.FissionIntended |
