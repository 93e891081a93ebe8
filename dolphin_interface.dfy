/** The Dolphin interface of the Pikmin 1 world: a memory engine that
    guards reads and writes by its connection flag, big-endian integer
    reads and writes, and a game-state cache that records which counters
    changed since the last update. */
module DolphinInterface {
  import opened Options
  import opened Bytes
  import opened Sequences

  const SimulatedProcessId: int := 12345
  const GameCubeMemoryBase: int := 0x8000_0000

  /** What `read_uint8/16/32` give: `None` (no data), a value, or the
      `struct.error` raised when the data has another length than the format. */
  datatype Decoded = Absent | Value(n: nat) | Raised

  /** Decode a read of a `width`-byte big-endian integer. Empty or missing
      data is `Absent` (Python's falsy `if data`). */
  function Unpack(data: Option<seq<byte>>, width: nat): (r: Decoded)
    ensures r.Absent? <==> data.None? || data.value == []
    ensures r.Value? <==> data.Some? && data.value != [] && |data.value| == width
    ensures r.Value? ==> r.n < Pow256(width) && EncodeBE(r.n, width) == data.value
  {
    if data.None? || data.value == [] then Absent
    else if |data.value| == width then
      EncodeDecode(data.value);
      Value(DecodeBE(data.value))
    else Raised
  }

  /** Outcome of `write_uint32`: `struct.pack('>I', v)` raises for a value
      outside [0, 2^32); otherwise the 4 bytes handed to `write_memory`
      and what it returned. */
  datatype WriteOutcome = PackError | Written(data: seq<byte>, ok: bool)

  /** The underlying emulator read: the bytes found for `size` bytes at an
      address, or `None`. */
  type Device = (int, nat) -> Option<seq<byte>>

  class DolphinMemoryEngine {
    var connected: bool
    var processId: Option<int>
    const baseAddress: int

    constructor ()
      ensures !connected && processId.None? && baseAddress == GameCubeMemoryBase
    {
      connected := false;
      processId := None;
      baseAddress := GameCubeMemoryBase;
    }

    /** The simulated connection always succeeds. */
    method Connect() returns (ok: bool)
      modifies this
      ensures ok && connected && processId == Some(SimulatedProcessId)
    {
      connected := true;
      processId := Some(SimulatedProcessId);
      ok := true;
    }

    method Disconnect()
      modifies this
      ensures !connected && processId.None?
    {
      connected := false;
      processId := None;
    }

    /** `read_memory`: nothing when disconnected, the device's answer otherwise. */
    function ReadMemory(address: int, size: nat, device: Device): (r: Option<seq<byte>>)
      reads this
      ensures !connected ==> r.None?
      ensures connected ==> r == device(address, size)
    {
      if !connected then None else device(address, size)
    }

    /** `write_memory`: fails (false) exactly when disconnected. */
    function WriteMemory(address: int, data: seq<byte>): (ok: bool)
      reads this
      ensures ok <==> connected
    {
      connected
    }

    /** `read_uint32`: the value whose 4-byte big-endian encoding was read. */
    function ReadUint32(address: int, device: Device): (r: Decoded)
      reads this
      ensures !connected ==> r.Absent?
      ensures connected ==> r == Unpack(device(address, 4), 4)
      ensures r.Value? ==> r.n < Pow256(4) && device(address, 4) == Some(EncodeBE(r.n, 4))
    {
      Unpack(ReadMemory(address, 4, device), 4)
    }

    /** `read_uint16`: the value whose 2-byte big-endian encoding was read. */
    function ReadUint16(address: int, device: Device): (r: Decoded)
      reads this
      ensures !connected ==> r.Absent?
      ensures connected ==> r == Unpack(device(address, 2), 2)
      ensures r.Value? ==> r.n < Pow256(2) && device(address, 2) == Some(EncodeBE(r.n, 2))
    {
      Unpack(ReadMemory(address, 2, device), 2)
    }

    /** `read_uint8`: the byte read. */
    function ReadUint8(address: int, device: Device): (r: Decoded)
      reads this
      ensures !connected ==> r.Absent?
      ensures connected ==> r == Unpack(device(address, 1), 1)
      ensures r.Value? ==> r.n < 256 && device(address, 1) == Some([r.n])
    {
      Unpack(ReadMemory(address, 1, device), 1)
    }

    /** `write_uint32`: pack big-endian in 4 bytes, then write. */
    function WriteUint32(address: int, value: int): (r: WriteOutcome)
      reads this
      ensures r.Written? <==> 0 <= value < Pow256(4)
      ensures r.Written? ==> r.ok == connected && |r.data| == 4 && Unpack(Some(r.data), 4) == Value(value)
    {
      if 0 <= value < Pow256(4) then
        DecodeEncode(value, 4);
        Written(EncodeBE(value, 4), WriteMemory(address, EncodeBE(value, 4)))
      else PackError
    }
  }

  /** The simulated emulator answers every read with `struct.pack('>I', v)`,
      4 bytes whatever size was asked for. */
  ghost predicate AnswersFourBytes(device: Device)
  {
    forall address: int, size: nat :: device(address, size).Some? && |device(address, size).value| == 4
  }

  /** Against such a device, a connected engine decodes 32-bit reads, while
      every 16- and 8-bit read raises `struct.error`. */
  lemma NarrowReadsRaise(e: DolphinMemoryEngine, address: int, device: Device)
    requires e.connected && AnswersFourBytes(device)
    ensures e.ReadUint32(address, device).Value?
    ensures e.ReadUint16(address, device).Raised?
    ensures e.ReadUint8(address, device).Raised?
  {
  }

  /** Reading back the bytes `write_uint32` produced gives the value written. */
  lemma WriteThenReadUint32(e: DolphinMemoryEngine, address: int, value: int, device: Device)
    requires e.connected && e.WriteUint32(address, value).Written?
    requires device(address, 4) == Some(e.WriteUint32(address, value).data)
    ensures e.ReadUint32(address, device) == Value(value)
  {
  }

  /** The counters the game state caches. */
  datatype Field = RedPikmin | YellowPikmin | BluePikmin | CurrentDay | ShipPartsCollected | CurrentArea

  /** The order in which `update_state` reads the counters. */
  const TrackedOrder: seq<Field> := [RedPikmin, YellowPikmin, BluePikmin, CurrentDay, ShipPartsCollected, CurrentArea]

  /** The address of `game_state`, which `update_state` never reads. */
  const GameStateAddress: int := 0x803D_6D0C

  /** The GameCube address of each counter: all below that of `game_state`. */
  function Address(f: Field): (a: int)
    ensures 0x803D_6CF7 <= a < GameStateAddress
  {
    match f
    case RedPikmin => 0x803D_6CF7
    case YellowPikmin => 0x803D_6CF8
    case BluePikmin => 0x803D_6CF9
    case CurrentDay => 0x803D_6D00
    case ShipPartsCollected => 0x803D_6D04
    case CurrentArea => 0x803D_6D08
  }

  /** Distinct counters are read at distinct addresses. */
  lemma AddressesDistinct(f: Field, g: Field)
    ensures f != g ==> Address(f) != Address(g)
  {
  }

  /** The `{'old', 'new'}` entry of the change map. */
  datatype Change = Change(before: int, after: int)

  /** The cached game state, `game_state` included. */
  datatype Counts = Counts(red: int, yellow: int, blue: int, day: int, shipParts: int, area: int, gameState: int)
  {
    function Get(f: Field): int
    {
      match f
      case RedPikmin => red
      case YellowPikmin => yellow
      case BluePikmin => blue
      case CurrentDay => day
      case ShipPartsCollected => shipParts
      case CurrentArea => area
    }

    function Set(f: Field, v: int): (c: Counts)
      ensures c.Get(f) == v && c.gameState == gameState
      ensures forall g :: g != f ==> c.Get(g) == Get(g)
    {
      match f
      case RedPikmin => this.(red := v)
      case YellowPikmin => this.(yellow := v)
      case BluePikmin => this.(blue := v)
      case CurrentDay => this.(day := v)
      case ShipPartsCollected => this.(shipParts := v)
      case CurrentArea => this.(area := v)
    }
  }

  /** A cache and the change map built so far. */
  datatype Outcome = Outcome(counts: Counts, changes: map<Field, Change>)

  /** The counter `f` as `update_state` reads it (while connected). */
  function ReadField(f: Field, device: Device): (r: Decoded)
  {
    Unpack(device(Address(f), 4), 4)
  }

  /** One block of `update_state`: `None` when the read raises; otherwise a
      value that differs from the cache is recorded and cached. */
  function Step(o: Outcome, f: Field, device: Device): (r: Option<Outcome>)
  {
    match ReadField(f, device)
    case Raised => None
    case Absent => Some(o)
    case Value(v) =>
      if v != o.counts.Get(f) then Some(Outcome(o.counts.Set(f, v), o.changes[f := Change(o.counts.Get(f), v)]))
      else Some(o)
  }

  /** The blocks for `fs` in order; the first read that raises ends the
      update, keeping what was done before it. */
  function Track(o: Outcome, fs: seq<Field>, device: Device): (r: Outcome)
    decreases |fs|
  {
    if fs == [] then o
    else match Step(o, fs[0], device)
      case None => o
      case Some(next) => Track(next, fs[1..], device)
  }

  /** No read among the first `i` of `fs` raised: the `i`-th block is reached. */
  predicate Reached(fs: seq<Field>, device: Device, i: nat)
    requires i <= |fs|
  {
    forall j :: 0 <= j < i ==> !ReadField(fs[j], device).Raised?
  }

  /** A counter outside `fs` keeps its cached value and its change entry. */
  lemma {:induction false} TrackFrame(o: Outcome, fs: seq<Field>, device: Device, g: Field)
    requires g !in fs
    ensures Track(o, fs, device).counts.Get(g) == o.counts.Get(g)
    ensures Track(o, fs, device).counts.gameState == o.counts.gameState
    ensures g in Track(o, fs, device).changes <==> g in o.changes
    ensures g in o.changes ==> Track(o, fs, device).changes[g] == o.changes[g]
    decreases |fs|
  {
    if fs != [] {
      match Step(o, fs[0], device)
      case None =>
      case Some(next) =>
        TrackFrame(next, fs[1..], device, g);
    }
  }

  /** The `i`-th counter of `fs` appears in the change map iff its block is
      reached, its read gives a value, and that value differs from the cache;
      the entry holds the cached and the read value, and the cache ends up
      holding the read value whenever one was read. */
  lemma {:induction false} TrackAt(o: Outcome, fs: seq<Field>, device: Device, i: nat)
    requires Distinct(fs) && i < |fs| && fs[i] !in o.changes
    ensures var t := Track(o, fs, device);
            var f, d := fs[i], ReadField(fs[i], device);
            && (f in t.changes <==> Reached(fs, device, i) && d.Value? && d.n != o.counts.Get(f))
            && (f in t.changes ==> t.changes[f] == Change(o.counts.Get(f), d.n))
            && t.counts.Get(f) == (if Reached(fs, device, i) && d.Value? then d.n else o.counts.Get(f))
    decreases |fs|
  {
    var f := fs[i];
    match Step(o, fs[0], device)
    case None =>
      if i > 0 {
        assert !Reached(fs, device, i) by { assert ReadField(fs[0], device).Raised?; }
      }
    case Some(next) =>
      if i == 0 {
        assert fs[0] !in fs[1..];
        TrackFrame(next, fs[1..], device, f);
      } else {
        assert Distinct(fs[1..]);
        assert f != fs[0];
        assert next.counts.Get(f) == o.counts.Get(f);
        TrackAt(next, fs[1..], device, i - 1);
        assert Reached(fs, device, i) <==> Reached(fs[1..], device, i - 1) by {
          if Reached(fs[1..], device, i - 1) {
            forall j | 0 <= j < i ensures !ReadField(fs[j], device).Raised? {
              if j > 0 { assert fs[j] == fs[1..][j - 1]; }
            }
          }
          if Reached(fs, device, i) {
            forall j | 0 <= j < i - 1 ensures !ReadField(fs[1..][j], device).Raised? {
              assert fs[1..][j] == fs[j + 1];
            }
          }
        }
      }
  }

  /** The whole of `update_state` on a connected engine, from the cache `c`. */
  function UpdateOutcome(c: Counts, device: Device): (r: Outcome)
  {
    Track(Outcome(c, map[]), TrackedOrder, device)
  }

  /** The counter `f` is recorded as changed iff no earlier read raised, its
      read gave a value, and the value differs from the cache; the entry
      holds old and new value, the cache takes every value read, and
      `game_state` is never touched. */
  lemma UpdateOutcomeField(c: Counts, device: Device, f: Field)
    ensures var i := IndexOf(f);
            var t := UpdateOutcome(c, device);
            var d := ReadField(f, device);
            && (f in t.changes <==> Reached(TrackedOrder, device, i) && d.Value? && d.n != c.Get(f))
            && (f in t.changes ==> t.changes[f] == Change(c.Get(f), d.n))
            && t.counts.Get(f) == (if Reached(TrackedOrder, device, i) && d.Value? then d.n else c.Get(f))
            && t.counts.gameState == c.gameState
  {
    TrackAt(Outcome(c, map[]), TrackedOrder, device, IndexOf(f));
    TrackGameState(Outcome(c, map[]), TrackedOrder, device);
  }

  lemma {:induction false} TrackGameState(o: Outcome, fs: seq<Field>, device: Device)
    ensures Track(o, fs, device).counts.gameState == o.counts.gameState
    decreases |fs|
  {
    if fs != [] {
      match Step(o, fs[0], device)
      case None =>
      case Some(next) => TrackGameState(next, fs[1..], device);
    }
  }

  /** The position of `f` in the reading order. */
  function IndexOf(f: Field): (i: nat)
    ensures i < |TrackedOrder| && TrackedOrder[i] == f
  {
    match f
    case RedPikmin => 0
    case YellowPikmin => 1
    case BluePikmin => 2
    case CurrentDay => 3
    case ShipPartsCollected => 4
    case CurrentArea => 5
  }

  /** A second update over the same memory finds nothing to change. */
  lemma UpdateTwiceNoChange(c: Counts, device: Device)
    ensures UpdateOutcome(UpdateOutcome(c, device).counts, device).changes == map[]
  {
    var c1 := UpdateOutcome(c, device).counts;
    var t2 := UpdateOutcome(c1, device);
    forall f: Field | f in t2.changes ensures false {
      UpdateOutcomeField(c, device, f);
      UpdateOutcomeField(c1, device, f);
    }
  }

  /** What `get_current_state` reports. */
  datatype StateView = StateView(
    redPikmin: int, yellowPikmin: int, bluePikmin: int, currentDay: int,
    shipPartsCollected: int, currentArea: int, gameState: int, totalPikmin: int)

  /** The location ids `check_location_conditions` may report, in its order. */
  const ConditionIds: seq<int> := [11100, 11101, 11102, 11103, 11200, 11201, 11202]

  /** Which of `ConditionIds` hold for the cache: red >= 10, 25, 50, 100,
      day >= 2, some yellow, some blue. */
  function ConditionsMet(c: Counts): (r: seq<bool>)
    ensures |r| == |ConditionIds|
  {
    [c.red >= 10, c.red >= 25, c.red >= 50, c.red >= 100, c.day >= 2, c.yellow > 0, c.blue > 0]
  }

  /** The ids whose flag holds, in order: the append-only list of the source. */
  function Select(ids: seq<int>, met: seq<bool>): (r: seq<int>)
    requires |ids| == |met|
    decreases |ids|
  {
    if ids == [] then []
    else (if met[0] then [ids[0]] else []) + Select(ids[1..], met[1..])
  }

  /** An id is selected iff its flag holds; from ascending ids the selection ascends. */
  lemma {:induction false} SelectProperties(ids: seq<int>, met: seq<bool>)
    requires |ids| == |met|
    requires forall j, k :: 0 <= j < k < |ids| ==> ids[j] < ids[k]
    ensures forall k :: 0 <= k < |ids| ==> (ids[k] in Select(ids, met) <==> met[k])
    ensures forall x :: x in Select(ids, met) ==> x in ids
    ensures forall j, k :: 0 <= j < k < |Select(ids, met)| ==> Select(ids, met)[j] < Select(ids, met)[k]
    decreases |ids|
  {
    if ids != [] {
      SelectProperties(ids[1..], met[1..]);
      var rest := Select(ids[1..], met[1..]);
      assert forall x :: x in rest ==> ids[0] < x;
      var r := Select(ids, met);
      forall j, k | 0 <= j < k < |r| ensures r[j] < r[k] {
        if met[0] {
          assert r == [ids[0]] + rest;
          if j == 0 { assert r[k] == rest[k - 1] && rest[k - 1] in rest; }
          else { assert r[j] == rest[j - 1] && r[k] == rest[k - 1]; }
        } else {
          assert r == rest;
        }
      }
      forall k | 0 <= k < |ids| ensures ids[k] in Select(ids, met) <==> met[k] {
        if k > 0 { assert ids[k] == ids[1..][k - 1]; }
      }
    }
  }

  lemma ConditionIdsAscending()
    ensures forall j, k :: 0 <= j < k < |ConditionIds| ==> ConditionIds[j] < ConditionIds[k]
  {
  }

  /** `check_location_conditions`: the completed location ids, read off
      the cached counters, in a fixed ascending order without duplicates. */
  function LocationConditions(c: Counts): (r: seq<int>)
    ensures forall x :: x in r ==> x in ConditionIds
    ensures forall j, k :: 0 <= j < k < |r| ==> r[j] < r[k]
  {
    ConditionIdsAscending();
    SelectProperties(ConditionIds, ConditionsMet(c));
    Select(ConditionIds, ConditionsMet(c))
  }

  /** Which ids are reported: 11100..11103 for at least 10, 25, 50 and 100
      red Pikmin, 11200 from day 2, 11201 once a yellow Pikmin is counted,
      11202 once a blue one is. */
  lemma LocationConditionsCases(c: Counts)
    ensures 11100 in LocationConditions(c) <==> c.red >= 10
    ensures 11101 in LocationConditions(c) <==> c.red >= 25
    ensures 11102 in LocationConditions(c) <==> c.red >= 50
    ensures 11103 in LocationConditions(c) <==> c.red >= 100
    ensures 11200 in LocationConditions(c) <==> c.day >= 2
    ensures 11201 in LocationConditions(c) <==> c.yellow > 0
    ensures 11202 in LocationConditions(c) <==> c.blue > 0
  {
    var met := ConditionsMet(c);
    ConditionIdsAscending();
    SelectProperties(ConditionIds, met);
    var r := LocationConditions(c);
    assert ConditionIds[0] == 11100 && (ConditionIds[0] in r <==> met[0]);
    assert ConditionIds[1] == 11101 && (ConditionIds[1] in r <==> met[1]);
    assert ConditionIds[2] == 11102 && (ConditionIds[2] in r <==> met[2]);
    assert ConditionIds[3] == 11103 && (ConditionIds[3] in r <==> met[3]);
    assert ConditionIds[4] == 11200 && (ConditionIds[4] in r <==> met[4]);
    assert ConditionIds[5] == 11201 && (ConditionIds[5] in r <==> met[5]);
    assert ConditionIds[6] == 11202 && (ConditionIds[6] in r <==> met[6]);
  }

  /** More red Pikmin, all else equal, never un-completes a location. */
  lemma LocationConditionsMonotoneInRed(c: Counts, red: int)
    requires c.red <= red
    ensures forall id :: id in LocationConditions(c) ==> id in LocationConditions(c.(red := red))
  {
    LocationConditionsCases(c);
    LocationConditionsCases(c.(red := red));
    forall id | id in LocationConditions(c) ensures id in LocationConditions(c.(red := red)) {
      assert id in ConditionIds;
    }
  }

  class PikminGameState {
    const dolphin: DolphinMemoryEngine
    var redPikminCount: int
    var yellowPikminCount: int
    var bluePikminCount: int
    var currentDay: int
    var shipPartsCollected: int
    var currentArea: int
    var gameState: int

    constructor (engine: DolphinMemoryEngine)
      ensures dolphin == engine
      ensures Snapshot() == Counts(0, 0, 0, 1, 0, 0, 0)
    {
      dolphin := engine;
      redPikminCount, yellowPikminCount, bluePikminCount := 0, 0, 0;
      currentDay, shipPartsCollected, currentArea, gameState := 1, 0, 0, 0;
    }

    /** The cached fields as one value. */
    function Snapshot(): (r: Counts)
      reads this
    {
      Counts(redPikminCount, yellowPikminCount, bluePikminCount, currentDay, shipPartsCollected, currentArea, gameState)
    }

    /** `get_current_state`: the cache, with the total of the three Pikmin counts. */
    function GetCurrentState(): (r: StateView)
      reads this
      ensures r.totalPikmin == r.redPikmin + r.yellowPikmin + r.bluePikmin
      ensures r.redPikmin == redPikminCount && r.yellowPikmin == yellowPikminCount && r.bluePikmin == bluePikminCount
      ensures r.currentDay == currentDay && r.gameState == gameState
      ensures r.shipPartsCollected == shipPartsCollected && r.currentArea == currentArea
    {
      StateView(redPikminCount, yellowPikminCount, bluePikminCount, currentDay,
                shipPartsCollected, currentArea, gameState,
                redPikminCount + yellowPikminCount + bluePikminCount)
    }

    /** Cache a freshly read value. */
    method Store(f: Field, v: int)
      modifies this
      ensures Snapshot() == old(Snapshot()).Set(f, v)
    {
      match f
      case RedPikmin => redPikminCount := v;
      case YellowPikmin => yellowPikminCount := v;
      case BluePikmin => bluePikminCount := v;
      case CurrentDay => currentDay := v;
      case ShipPartsCollected => shipPartsCollected := v;
      case CurrentArea => currentArea := v;
    }

    /** One block of `update_state`: read the counter through the engine;
        a value that differs from the cache is recorded and cached. */
    method UpdateField(f: Field, device: Device, changes: map<Field, Change>)
      returns (changes': map<Field, Change>, raised: bool)
      requires dolphin.connected
      modifies this
      ensures raised <==> Step(Outcome(old(Snapshot()), changes), f, device).None?
      ensures !raised ==> Step(Outcome(old(Snapshot()), changes), f, device) == Some(Outcome(Snapshot(), changes'))
      ensures raised ==> Snapshot() == old(Snapshot()) && changes' == changes
    {
      changes', raised := changes, false;
      var read := dolphin.ReadUint32(Address(f), device);
      match read
      case Raised => raised := true;
      case Absent =>
      case Value(v) =>
        var cached := Snapshot().Get(f);
        if v != cached {
          changes' := changes[f := Change(cached, v)];
          Store(f, v);
        }
    }

    /** `update_state`: nothing when the engine is disconnected; otherwise
        the six blocks in order, stopping at a read that raises. */
    method UpdateState(device: Device) returns (changes: map<Field, Change>)
      modifies this
      ensures !dolphin.connected ==> changes == map[] && Snapshot() == old(Snapshot())
      ensures dolphin.connected ==>
                Outcome(Snapshot(), changes) == UpdateOutcome(old(Snapshot()), device)
    {
      changes := map[];
      if !dolphin.connected {
        return;
      }
      ghost var goal := UpdateOutcome(Snapshot(), device);
      var raised: bool;
      changes, raised := UpdateField(RedPikmin, device, changes);
      if raised { return; }
      assert goal == Track(Outcome(Snapshot(), changes), TrackedOrder[1..], device);
      changes, raised := UpdateField(YellowPikmin, device, changes);
      if raised { return; }
      assert goal == Track(Outcome(Snapshot(), changes), TrackedOrder[2..], device);
      changes, raised := UpdateField(BluePikmin, device, changes);
      if raised { return; }
      assert goal == Track(Outcome(Snapshot(), changes), TrackedOrder[3..], device);
      changes, raised := UpdateField(CurrentDay, device, changes);
      if raised { return; }
      assert goal == Track(Outcome(Snapshot(), changes), TrackedOrder[4..], device);
      changes, raised := UpdateField(ShipPartsCollected, device, changes);
      if raised { return; }
      assert goal == Track(Outcome(Snapshot(), changes), TrackedOrder[5..], device);
      changes, raised := UpdateField(CurrentArea, device, changes);
      if raised { return; }
      assert goal == Track(Outcome(Snapshot(), changes), TrackedOrder[6..], device);
    }
  }
}
