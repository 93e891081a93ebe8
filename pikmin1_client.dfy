/** The Pikmin 1 client that watches the red Pikmin count and reports the
    "Pikmin Rouge 10" and "Pikmin Rouge 20" milestones, each once. */
module Pikmin1Client {
  import opened Options
  import opened Bytes

  const RedPikminAddress: int := 0x803D_6CF7
  const Rouge10: string := "Pikmin Rouge 10"
  const Rouge20: string := "Pikmin Rouge 20"

  /** The milestones newly reached at `count`, in the order 10 then 20:
      those whose threshold is met and that are not yet checked. */
  function Milestones(count: int, checked: set<string>): (r: seq<string>)
    ensures Rouge10 in r <==> count >= 10 && Rouge10 !in checked
    ensures Rouge20 in r <==> count >= 20 && Rouge20 !in checked
    ensures forall k :: 0 <= k < |r| ==> r[k] !in checked && (r[k] == Rouge10 || r[k] == Rouge20)
    ensures |r| <= 2
    ensures |r| == 2 ==> r == [Rouge10, Rouge20]
  {
    (if count >= 10 && Rouge10 !in checked then [Rouge10] else [])
    + (if count >= 20 && Rouge20 !in checked then [Rouge20] else [])
  }

  /** Once the milestones of one evaluation are recorded, no later
      evaluation, at any count, emits any of them again. */
  lemma MilestonesAtMostOnce(count: int, later: int, checked: set<string>)
    ensures forall n :: n in Milestones(count, checked) ==>
              n !in Milestones(later, checked + set m | m in Milestones(count, checked))
  {
  }

  /** The location codes of `names`, looked up in order in the location
      table; `None` when a name is missing (Python's KeyError). */
  function LocationCodes(names: seq<string>, table: map<string, int>): (r: Option<seq<int>>)
    ensures r.Some? <==> forall k :: 0 <= k < |names| ==> names[k] in table
    ensures r.Some? ==> |r.value| == |names|
    ensures r.Some? ==> forall k :: 0 <= k < |names| ==> r.value[k] == table[names[k]]
  {
    if names == [] then Some([])
    else if names[0] !in table then None
    else match LocationCodes(names[1..], table)
      case None =>
        assert !(forall k :: 0 <= k < |names[1..]| ==> names[1..][k] in table);
        None
      case Some(rest) => Some([table[names[0]]] + rest)
  }

  /** The location table the Pikmin 1 world ships (name -> code). It has
      the "10 Red Pikmin" location but neither milestone name. */
  function ShippedLocationTable(): (r: map<string, int>)
    ensures "10 Red Pikmin" in r && r["10 Red Pikmin"] == 0x100_0001
    ensures Rouge10 !in r && Rouge20 !in r
  {
    var base := 0x100_0000;
    map[
      "10 Red Pikmin" := base + 1, "First Pellet" := base + 2,
      "Yellow Pikmin Discovery" := base + 3, "Blue Pikmin Discovery" := base + 4,
      "Pellet Posy 1" := base + 5, "Pellet Posy 2" := base + 6,
      "Nectar Drop" := base + 7, "Ship Part 1" := base + 8,
      "Ship Part 2" := base + 9, "Ship Part 3" := base + 10
    ]
  }

  /** What `dolphin_memory_engine` reports when the client is not yet
      connected: whether it is already hooked, and whether `hook()` then
      succeeds. */
  datatype HookState = HookState(alreadyHooked: bool, hookedAfterHook: bool)

  class Pikmin1Context {
    var redPikminCount: int
    var lastRedPikminCount: int
    var checkedLocations: set<string>
    var dolphinConnected: bool

    constructor ()
      ensures redPikminCount == 0 && lastRedPikminCount == 0
      ensures checkedLocations == {} && !dolphinConnected
    {
      redPikminCount := 0;
      lastRedPikminCount := 0;
      checkedLocations := {};
      dolphinConnected := false;
    }

    /** Record the newly reached milestones, then send their codes in one
        message. A name the table lacks raises before anything is sent, as
        does a failing send: `ok` is false and the names stay recorded. */
    method CheckPikminMilestones(table: map<string, int>, sendOk: bool) returns (sent: seq<int>, ok: bool)
      modifies this`checkedLocations
      ensures var names := Milestones(redPikminCount, old(checkedLocations));
              checkedLocations == old(checkedLocations) + (set n | n in names) &&
              (names == [] ==> sent == [] && ok) &&
              (names != [] && LocationCodes(names, table).None? ==> sent == [] && !ok) &&
              (names != [] && LocationCodes(names, table).Some? ==>
                 sent == LocationCodes(names, table).value && ok == sendOk)
    {
      var locationsToCheck: seq<string> := [];
      if redPikminCount >= 10 && Rouge10 !in checkedLocations {
        locationsToCheck := locationsToCheck + [Rouge10];
        checkedLocations := checkedLocations + {Rouge10};
      }
      if redPikminCount >= 20 && Rouge20 !in checkedLocations {
        locationsToCheck := locationsToCheck + [Rouge20];
        checkedLocations := checkedLocations + {Rouge20};
      }
      assert locationsToCheck == Milestones(redPikminCount, old(checkedLocations));
      sent, ok := [], true;
      if locationsToCheck != [] {
        var codes := LocationCodes(locationsToCheck, table);
        if codes.None? {
          ok := false;
          return;
        }
        sent, ok := codes.value, sendOk;
      }
    }

    /** One call of `read_dolphin_memory`. When not connected it connects
        if the emulator is, or becomes after `hook()`, hooked, and returns
        otherwise. `memory` gives the byte `read_byte` returns at an
        address (`None` when the read raised); the count is read at the red
        Pikmin address on every connected call. Milestones are evaluated
        only when the count changed; any exception on the way clears
        `dolphinConnected`. */
    method ReadDolphinMemory(hook: HookState, memory: int -> Option<byte>, table: map<string, int>, sendOk: bool)
      returns (sent: seq<int>)
      modifies this
      ensures !old(dolphinConnected) && !hook.alreadyHooked && !hook.hookedAfterHook ==>
                sent == [] && !dolphinConnected &&
                redPikminCount == old(redPikminCount) && lastRedPikminCount == old(lastRedPikminCount) &&
                checkedLocations == old(checkedLocations)
      ensures (old(dolphinConnected) || hook.alreadyHooked || hook.hookedAfterHook) && memory(RedPikminAddress).None? ==>
                sent == [] && !dolphinConnected &&
                redPikminCount == old(redPikminCount) && lastRedPikminCount == old(lastRedPikminCount) &&
                checkedLocations == old(checkedLocations)
      ensures (old(dolphinConnected) || hook.alreadyHooked || hook.hookedAfterHook) && memory(RedPikminAddress).Some? ==>
                redPikminCount == memory(RedPikminAddress).value && lastRedPikminCount == memory(RedPikminAddress).value &&
                if memory(RedPikminAddress).value == old(lastRedPikminCount) then
                  sent == [] && dolphinConnected && checkedLocations == old(checkedLocations)
                else
                  var names := Milestones(memory(RedPikminAddress).value, old(checkedLocations));
                  checkedLocations == old(checkedLocations) + (set n | n in names) &&
                  sent == (if names == [] then [] else LocationCodes(names, table).GetOr([])) &&
                  dolphinConnected == (names == [] || (LocationCodes(names, table).Some? && sendOk))
    {
      sent := [];
      if !dolphinConnected {
        if hook.alreadyHooked {
          dolphinConnected := true;
        } else if hook.hookedAfterHook {
          dolphinConnected := true;
        } else {
          return;
        }
      }
      var read := memory(RedPikminAddress);
      if read.None? {
        dolphinConnected := false;
        return;
      }
      redPikminCount := read.value;
      if redPikminCount != lastRedPikminCount {
        lastRedPikminCount := redPikminCount;
        var ok;
        sent, ok := CheckPikminMilestones(table, sendOk);
        if !ok {
          dolphinConnected := false;
        }
      }
    }
  }

  /** With the shipped location table, every batch of due milestones
      fails its lookup, so `read_dolphin_memory` never sends anything and
      drops the connection whenever a milestone falls due; the names stay
      recorded, so neither milestone is ever reported. */
  lemma ShippedTableNeverSends(count: int, checked: set<string>)
    ensures var names := Milestones(count, checked);
            && (names != [] ==> LocationCodes(names, ShippedLocationTable()).None?)
            && (if names == [] then [] else LocationCodes(names, ShippedLocationTable()).GetOr([])) == []
            && ((names == [] || LocationCodes(names, ShippedLocationTable()).Some?) <==> names == [])
  {
  }
}
