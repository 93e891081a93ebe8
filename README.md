# Pikmin client-side location checks

This project models the client-side logic of the Pikmin worlds of an
Archipelago fork. That logic reads counters and flags from the memory of
the Dolphin emulator and turns them into location checks sent to the
Archipelago server. The repository has several independent versions of it,
and each becomes one Dafny module:

- `ShipPartMonitor` (`ship_part_monitor.dfy`): the stand-alone Pikmin client.
  - It waits until the game identifier at 0x80000000 is `GPIP01`.
  - It then compares bit 0 of 30 ship-part flag bytes with the previous snapshot.
  - It reports every flag that rose as location `5000000 + i`.
- `Pikmin1Client` (`pikmin1_client.dfy`): the Pikmin 1 client.
  - It reads the red Pikmin byte on every connected call.
  - It evaluates the milestones only when the count changed, and reports the "Pikmin Rouge 10" and "Pikmin Rouge 20" milestones, each once.
- `SyncClient` (`sync_client.dfy`): the Pikmin 1 GameCube PAL client.
  - It maintains the received-items list and the slot data.
  - It reports location 0x1000001 once, when the red count crosses 10.
- `DolphinInterface` (`dolphin_interface.dfy`): the Pikmin 1 Dolphin interface.
  - It has a memory engine whose reads and writes are guarded by a connection flag.
  - It reads and writes big-endian integers.
  - It has a game-state cache whose `update_state` records `{old, new}` for each counter that changed.
  - It evaluates the location conditions over the cache.
- `DolphinMemory` (`dolphin_memory.dfy`): the Pikmin 1 process-memory reader.
  - It translates GameCube addresses to host addresses.
  - A read returns data only when every byte asked for was read.
  - It has 8-, 16- and 32-bit big-endian readers, plus the Pikmin counter getters.
- `PartTracker` (`part_tracker.dfy`): the client of the `pikmin` world.
  - It folds game-state reports into the day, the area and the set of collected ship parts.
  - It announces each newly collected part once.
  - It provides the `collect` command.

Two modules are shared:

- `Bytes` (`bytes.dfy`) holds the big-endian decoding and encoding and their round trips.
- `Options` (`options.dfy`) holds `Option`.

The effects become parameters of the model:

- Emulator memory is a function from an address (and a size) to what the read returns, `None` when the read raises.
- Hooking is a flag or a `HookState` value.
- The process scan is an optional pid.
- Whether a send to the server returns normally is a `sendOk` flag, and so is the presence of a server socket.
- The random draw of the simulated read is a `raise` flag.

Each method returns the location ids it hands to the server. An exception
that the source catches is modelled by the state change it leaves behind.

## Model

| member | source | states |
|---|---|---|
| Bytes.DecodeEncode | worlds/pikmin1/dolphin_interface.py:100-103 | decoding the big-endian encoding of a value below 256^width gives the value back |
| Bytes.EncodeDecode | worlds/pikmin1/dolphin_memory.py:135-140 | encoding a decoded byte string at its own width gives the bytes back, so a decoded value has exactly one encoding |
| ShipPartMonitor.RisenIdsMembership | PikminClient.py:56-59 | id is reported over the first n flags iff id = 5000000 + i with i < n, bit 0 of the current byte set and bit 0 of the previous byte clear |
| ShipPartMonitor.RisenIdsAscending | PikminClient.py:56-59 | every reported id lies in [5000000, 5000000 + n) and the ids are strictly ascending, so there are no duplicates |
| ShipPartMonitor.NothingRisesWithoutChange | PikminClient.py:54-63 | comparing a snapshot with itself reports nothing, so once the snapshot has advanced, polling the same bytes again reports nothing |
| ShipPartMonitor.InitialFlags | PikminClient.py:18 | the first previous snapshot is 30 bytes with no flag set |
| ShipPartMonitor.Monitor.constructor | PikminClient.py:16-18 | the context starts in the identity loop with the all-zero snapshot |
| ShipPartMonitor.FirstPollReportsSetFlags | PikminClient.py:56-58 | on the first poll, part i is reported iff its flag is already set |
| ShipPartMonitor.ReportedAgainAfterClear | PikminClient.py:56-63 | there is no persistent reported set: a flag that goes 1, 0, 1 is reported on the first and the last poll but not when cleared |
| ShipPartMonitor.CollectNewParts | PikminClient.py:55-59 | the loop's list equals the specification: exactly the risen flags as 5000000 + i, in ascending order |
| ShipPartMonitor.Monitor.HookAttempt | PikminClient.py:33-44 | monitoring starts iff hook() succeeds and the 6 bytes read at 0x80000000 are GPIP01; another identifier unhooks and retries; a failed hook or read only retries; the snapshot is kept |
| ShipPartMonitor.Monitor.Poll | PikminClient.py:46-66 | a lost hook returns to the identity loop keeping the snapshot; an unchanged, missing or short read sends nothing and keeps the snapshot; otherwise the batch sent is the risen ids of the 30 bytes read at 0x8042321C, send_msgs is called only when it is non-empty, and the snapshot advances unless the send raised |
| Pikmin1Client.Milestones | worlds/pikmin1/Pikmin1Client.py:95-104 | "Pikmin Rouge 10" is due iff count >= 10 and it is not checked yet, "Pikmin Rouge 20" likewise for 20; no checked name is due again; at most two names, and both come in the order 10 then 20 |
| Pikmin1Client.MilestonesAtMostOnce | worlds/pikmin1/Pikmin1Client.py:98-104 | once a milestone is recorded as checked, no later evaluation at any count emits it again |
| Pikmin1Client.LocationCodes | worlds/pikmin1/Pikmin1Client.py:108 | the codes are looked up in order; the lookup fails (KeyError) iff some name is missing from the table |
| Pikmin1Client.ShippedLocationTable | worlds/pikmin1/Locations.py:22-36 | the shipped table has "10 Red Pikmin" at code 0x1000001 and neither "Pikmin Rouge 10" nor "Pikmin Rouge 20" |
| Pikmin1Client.Pikmin1Context.CheckPikminMilestones | worlds/pikmin1/Pikmin1Client.py:93-112 | due milestones are added to the checked set before the lookup; nothing is sent when none is due; a missing name raises before sending; otherwise their codes go in one message |
| Pikmin1Client.Pikmin1Context.constructor | worlds/pikmin1/Pikmin1Client.py:27-32 | both counts 0, nothing checked, not connected |
| Pikmin1Client.Pikmin1Context.ReadDolphinMemory | worlds/pikmin1/Pikmin1Client.py:57-91 | an unhooked emulator returns with nothing changed; the count is the byte at 0x803D6CF7, read on every connected call; a failed read clears dolphin_connected; milestones are evaluated only when the count changed, and the last count then takes the new value; an exception from the milestone check clears dolphin_connected |
| Pikmin1Client.ShippedTableNeverSends | worlds/pikmin1/Pikmin1Client.py:93-112 | with the location table the world ships, for every count and checked set, a non-empty batch of due milestones fails its lookup (KeyError), so the batch read_dolphin_memory sends is always empty and the connection is dropped exactly when a milestone falls due |
| SyncClient.AfterReceivedItems | worlds/pikmin1/client.py:94-101 | index 0 gives exactly the incoming items; any other index appends them in order after the existing list, with no gap or order check |
| SyncClient.ReceivedItemsReplay | worlds/pikmin1/client.py:94-101 | replaying a package at index 0 is idempotent; replaying one at another index appends its items twice |
| SyncClient.RaisedCount | worlds/pikmin1/client.py:155-156 | a raising step adds one below 100 and stays at 100 from there |
| SyncClient.PikminContext.constructor | worlds/pikmin1/client.py:43-57 | no process, both counts 0, address 0x803D6CF7, nothing checked, no items |
| SyncClient.PikminContext.OnConnected | worlds/pikmin1/client.py:87-92 | the slot data is kept (empty when absent); the red Pikmin address is its entry, 0x803D6CF7 when absent |
| SyncClient.PikminContext.OnReceivedItems | worlds/pikmin1/client.py:94-102 | the item list after the package is AfterReceivedItems of the old list |
| SyncClient.PikminContext.ReadMemory | worlds/pikmin1/client.py:147-163 | the count increases by at most one and never above 100 |
| SyncClient.PikminContext.CheckLocations | worlds/pikmin1/client.py:165-183 | 0x1000001 is sent iff red >= 10, last < 10 and it is not checked yet; it is recorded before the send, so it is sent at most once; the last count takes the count unless the send raised |
| SyncClient.PikminContext.SyncStep | worlds/pikmin1/client.py:104-125 | the process scan runs only while no process is known; without a process nothing else changes; with one, the count takes the capped step and the sent batch, checked set and last count are those of check_locations on the new count; the checked set only grows; items, address and slot data are untouched |
| DolphinInterface.Unpack | worlds/pikmin1/dolphin_interface.py:79-98 | missing or empty data gives None; data of the format's width gives the value whose big-endian encoding it is; any other length raises |
| DolphinInterface.DolphinMemoryEngine.constructor | worlds/pikmin1/dolphin_interface.py:11-14 | disconnected, no process id, base 0x80000000 |
| DolphinInterface.DolphinMemoryEngine.Connect | worlds/pikmin1/dolphin_interface.py:16-36 | the simulated connection succeeds with process id 12345 |
| DolphinInterface.DolphinMemoryEngine.Disconnect | worlds/pikmin1/dolphin_interface.py:38-42 | afterwards the engine is disconnected and has no process id |
| DolphinInterface.DolphinMemoryEngine.ReadUint32 | worlds/pikmin1/dolphin_interface.py:44-84 | disconnected gives None (read_memory's guard); connected, the result is the decoding of the device's answer (None, the value, or struct.error for another length); a value is below 2^32 and its 4-byte big-endian encoding is what the device holds |
| DolphinInterface.DolphinMemoryEngine.ReadUint16 | worlds/pikmin1/dolphin_interface.py:86-91 | disconnected gives None; connected, the result is the 2-byte decoding of the device's answer; a value is below 2^16 and its 2-byte big-endian encoding is what the device holds |
| DolphinInterface.DolphinMemoryEngine.ReadUint8 | worlds/pikmin1/dolphin_interface.py:93-98 | disconnected gives None; connected, the result is the 1-byte decoding of the device's answer; a value is the single byte the device holds |
| DolphinInterface.DolphinMemoryEngine.WriteUint32 | worlds/pikmin1/dolphin_interface.py:65-103 | packing succeeds iff 0 <= value < 2^32; the 4 bytes written decode back to the value, and the write succeeds iff connected |
| DolphinInterface.NarrowReadsRaise | worlds/pikmin1/dolphin_interface.py:52-98 | against the simulated read_memory, which answers 4 bytes whatever size is asked, a connected read_uint32 gives a value while every read_uint16 and read_uint8 raises struct.error |
| DolphinInterface.WriteThenReadUint32 | worlds/pikmin1/dolphin_interface.py:79-103 | reading back the bytes write_uint32 produced gives the value written |
| DolphinInterface.Address | worlds/pikmin1/dolphin_interface.py:116-124 | every counter update_state reads lies at or above 0x803D6CF7 and below game_state's address 0x803D6D0C |
| DolphinInterface.AddressesDistinct | worlds/pikmin1/dolphin_interface.py:116-124 | distinct counters are read at distinct addresses |
| DolphinInterface.TrackFrame | worlds/pikmin1/dolphin_interface.py:145-203 | a counter whose block is not run keeps its cached value and its change entry, and game_state is untouched |
| DolphinInterface.TrackAt | worlds/pikmin1/dolphin_interface.py:145-203 | the i-th counter is in the change map iff no earlier read raised, its read gave a value, and the value differs from the cache; the entry holds the cached and the read value; the cache takes every value read |
| DolphinInterface.UpdateOutcomeField | worlds/pikmin1/dolphin_interface.py:145-203 | the same for each counter of update_state, by its position in the reading order, with game_state never touched |
| DolphinInterface.TrackGameState | worlds/pikmin1/dolphin_interface.py:145-198 | update_state never changes game_state |
| DolphinInterface.UpdateTwiceNoChange | worlds/pikmin1/dolphin_interface.py:145-203 | a second update over the same memory records no change |
| DolphinInterface.SelectProperties | worlds/pikmin1/dolphin_interface.py:218-242 | the append-only list keeps exactly the ids whose condition holds, in their order |
| DolphinInterface.ConditionIdsAscending | worlds/pikmin1/dolphin_interface.py:223-240 | the candidate ids 11100..11103, 11200..11202 are strictly ascending |
| DolphinInterface.LocationConditions | worlds/pikmin1/dolphin_interface.py:218-242 | every id reported is one of the seven condition ids, and the list is strictly ascending, so it has no duplicates |
| DolphinInterface.LocationConditionsCases | worlds/pikmin1/dolphin_interface.py:223-240 | 11100..11103 are reported iff red >= 10, 25, 50, 100; 11200 iff day >= 2; 11201 iff yellow > 0; 11202 iff blue > 0 |
| DolphinInterface.LocationConditionsMonotoneInRed | worlds/pikmin1/dolphin_interface.py:223-230 | raising the red count never removes a reported id |
| DolphinInterface.PikminGameState.constructor | worlds/pikmin1/dolphin_interface.py:112-136 | the cache starts at zero counts, day 1 |
| DolphinInterface.PikminGameState.GetCurrentState | worlds/pikmin1/dolphin_interface.py:205-216 | the view repeats all seven cached fields and total_pikmin is red + yellow + blue |
| DolphinInterface.PikminGameState.UpdateField | worlds/pikmin1/dolphin_interface.py:146-153 | one block: a read that raises changes nothing; a value that differs from the cache is recorded with old and new and cached |
| DolphinInterface.PikminGameState.UpdateState | worlds/pikmin1/dolphin_interface.py:138-203 | a disconnected engine gives an empty change map and an unchanged cache; otherwise the new cache and change map are those of the six blocks in order, stopping at a read that raises and keeping what was done before it |
| DolphinMemory.DolphinMemoryReader.Connect | worlds/pikmin1/dolphin_memory.py:43-86 | connecting succeeds iff on Windows the process opens with a handle and the MEM1 lookup gives its fixed 0x10000000; off Windows nothing is set |
| DolphinMemory.DolphinMemoryReader.ReadMemory | worlds/pikmin1/dolphin_memory.py:88-119 | no handle or no base gives None; data comes back iff on Windows the call at base + (address - 0x80000000) succeeds with exactly size bytes read, and it is the host bytes there; a raising call gives None |
| DolphinMemory.ReadMemoryBytes | worlds/pikmin1/dolphin_memory.py:95-110 | byte k of a successful read at GameCube address a is the host byte behind GameCube address a + k, and translation keeps distinct addresses distinct |
| DolphinMemory.DolphinMemoryReader.ReadU8 | worlds/pikmin1/dolphin_memory.py:121-126 | a value iff the 1-byte read succeeds, below 256 and equal to the host byte |
| DolphinMemory.DolphinMemoryReader.ReadU16 | worlds/pikmin1/dolphin_memory.py:128-133 | a value iff the 2-byte read succeeds, below 2^16, whose big-endian encoding is the host bytes |
| DolphinMemory.DolphinMemoryReader.ReadU32 | worlds/pikmin1/dolphin_memory.py:135-140 | a value iff the 4-byte read succeeds, below 2^32, whose big-endian encoding is the host bytes |
| DolphinMemory.DolphinMemoryReader.Disconnect | worlds/pikmin1/dolphin_memory.py:149-154 | afterwards no handle is set and every read returns None |
| DolphinMemory.DolphinMemoryReader.constructor | worlds/pikmin1/dolphin_memory.py:37-41 | no handle and no base for the given pid |
| DolphinMemory.PikminMemoryReader.constructor | worlds/pikmin1/dolphin_memory.py:172-173 | the reader wraps the given process reader |
| DolphinMemory.PikminMemoryReader.GetRedPikminCount | worlds/pikmin1/dolphin_memory.py:175-177 | the single byte at 0x803D6CF7 |
| DolphinMemory.PikminMemoryReader.GetYellowPikminCount | worlds/pikmin1/dolphin_memory.py:179-181 | the single byte at 0x803D6CF8 |
| DolphinMemory.PikminMemoryReader.GetBluePikminCount | worlds/pikmin1/dolphin_memory.py:183-185 | the single byte at 0x803D6CF9 |
| DolphinMemory.PikminMemoryReader.GetDayCounter | worlds/pikmin1/dolphin_memory.py:197-199 | the big-endian 32-bit value at 0x803D6D10 |
| DolphinMemory.PikminMemoryReader.GetShipPartsCollected | worlds/pikmin1/dolphin_memory.py:201-203 | the big-endian 32-bit value at 0x803D6D20 |
| PartTracker.ReplayedReportIsQuiet | worlds/pikmin/PikminClient.py:203-209 | once a report's new parts (the reported parts not collected yet) are added, the same report brings nothing new |
| PartTracker.PikminContext.constructor | worlds/pikmin/PikminClient.py:50-58 | no part collected, no area, day 1, and each of the three Pikmin counts at 0 |
| PartTracker.PikminContext.OnPartCollected | worlds/pikmin/PikminClient.py:207-218 | the part is added whatever happens; a check is sent only when a server socket exists |
| PartTracker.PikminContext.ProcessGameState | worlds/pikmin/PikminClient.py:185-205 | an empty report changes nothing; day and area take a reported value; the collected set becomes old plus reported; the parts announced are exactly the reported parts not collected before, each once; checks go out only with a socket |
| PartTracker.PikminContext.CmdCollect | worlds/pikmin/PikminClient.py:85-97 | a name is added and a check scheduled iff it is non-empty and a known ship part; otherwise the set is unchanged |

## Left out

- Networking, asyncio task creation, cancellation, the sleeps (0.5 s, 1 s, 5 s), `exit_event`, `server_loop` and the GUI and command-line launchers are concurrency and plumbing. The model takes one loop step at a time, and a send is reduced to whether it returned normally.
- The foreign calls are not modelled; their results are parameters. These are `dolphin_memory_engine` (`hook`, `is_hooked`, `read_bytes`, `read_byte`, `un_hook`), Windows `OpenProcess`, `ReadProcessMemory` and `CloseHandle`, and the psutil process scan (`connect_to_dolphin`, `_find_mem1_base`).
- The simulated sources are left out. These are the `time.time()` values of `DolphinMemoryEngine.read_memory` and the `random.random()` draw of `read_memory` in `worlds/pikmin1/client.py`. The first becomes an arbitrary device, the second a flag; only the cap at 100 is kept.
- DolphinInterface.DolphinMemoryEngine.ReadMemory: the simulated `read_memory` ignores the size asked for and always answers with 4 bytes. The model's device may answer any length. `DolphinInterface.NarrowReadsRaise` states what the 4-byte answer implies: every connected `read_uint16` and `read_uint8` raises `struct.error`.
- Floating-point reads (`read_float`, `get_player_position`), `PikminMemoryReader.get_game_state`, and the time-based rate limit of `MemoryReader.read_game_state` in `worlds/pikmin/PikminClient.py` are not modelled.
- The `hash(part_name) % 2**53` location ids of `worlds/pikmin/PikminClient.py` vary from process to process. The model records which parts a check goes out for, not their ids.
- Log lines are left out, including the item- and player-name lookups in the `on_package` handlers.
- SyncClient.PikminContext.OnReceivedItems: in `worlds/pikmin1/client.py` a name lookup for the log line that raises ends the handler after that item was appended, so the items after it are not appended. The model always appends every item of the package.
- `on_package` of `PikminClient.py` and of `worlds/pikmin1/Pikmin1Client.py`, and `server_auth`, only log or set the game name, so they are not modelled.
- ShipPartMonitor.Monitor.HookAttempt: an exception other than RuntimeError is not modelled; a failed hook or read is the caught RuntimeError. In the first identity loop such an exception ends the monitor task. In an identity loop re-entered from the polling loop (`PikminClient.py` lines 47-50), it is caught by the polling loop's handler, and polling goes on without a hook.
- ShipPartMonitor.Monitor.Poll: an exception from `is_hooked` is not distinguished from a failed read. Both leave the snapshot as it was.
- PartTracker.PikminContext.ProcessGameState: a send that raises would stop announcing the remaining new parts. This is not modelled; every send returns. The order of the announcements is whatever order the set iteration gives, and the model fixes none.
- SyncClient.PikminContext.OnConnected: slot data that is not a mapping from names to integers is not modelled.
- DolphinInterface.DolphinMemoryEngine.Connect: the branch where `connect` raises cannot be reached in the simulated code, so it is not modelled.
- PartTracker.PikminContext.constructor: `worlds/pikmin/PikminClient.py` line 145 passes the server address and port positionally to the dataclass, which binds them to `collected_parts` and `current_area`. The constructor models the declared defaults of lines 50-58, not that call.
- The game-data tables, options, regions, rules and world classes are static configuration for the generator. They are not part of this model, except the Pikmin 1 location table that the milestone lookup uses (`worlds/pikmin1/Locations.py`), which `Pikmin1Client.ShippedLocationTable` copies.
