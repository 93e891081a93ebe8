/** The Pikmin 1 (GameCube PAL) client that finds the Dolphin process,
    follows the red Pikmin count and reports the "10 Red Pikmin" location
    once; it also keeps the list of items received from the server. */
module SyncClient {
  import opened Options

  const DefaultRedPikminAddress: int := 0x803D_6CF7
  /** The location "10 Red Pikmin". */
  const TenRedPikmin: int := 0x100_0001
  const RedPikminCap: int := 100

  /** One item as the server sends it in a ReceivedItems package. */
  datatype NetworkItem = NetworkItem(item: int, location: int, player: int, flags: int)

  /** The list after a ReceivedItems package: index 0 restarts the list,
      any other index appends after what is there. No gap or order check. */
  function AfterReceivedItems(received: seq<NetworkItem>, index: int, items: seq<NetworkItem>): (r: seq<NetworkItem>)
    ensures index == 0 ==> r == items
    ensures index != 0 ==> |r| == |received| + |items| && r[..|received|] == received && r[|received|..] == items
  {
    (if index == 0 then [] else received) + items
  }

  /** Replaying a complete package from index 0 is idempotent, whereas
      replaying a package at a non-zero index appends its items a second time. */
  lemma ReceivedItemsReplay(received: seq<NetworkItem>, index: int, items: seq<NetworkItem>)
    ensures AfterReceivedItems(AfterReceivedItems(received, 0, items), 0, items) == items
    ensures index != 0 ==>
              AfterReceivedItems(AfterReceivedItems(received, index, items), index, items)
                == received + items + items
  {
    assert received + items + items == (received + items) + items;
  }

  /** The red Pikmin address named by the slot data, 0x803D6CF7 by default. */
  function RedPikminAddressFrom(slotData: map<string, int>): (r: int)
    ensures "red_pikmin_address" in slotData ==> r == slotData["red_pikmin_address"]
    ensures "red_pikmin_address" !in slotData ==> r == DefaultRedPikminAddress
  {
    if "red_pikmin_address" in slotData then slotData["red_pikmin_address"] else DefaultRedPikminAddress
  }

  /** The simulated read: a step that raises the count adds one, capped at 100. */
  function RaisedCount(count: int): (r: int)
    ensures count < RedPikminCap ==> r == count + 1
    ensures count >= RedPikminCap ==> r == RedPikminCap
  {
    if count + 1 < RedPikminCap then count + 1 else RedPikminCap
  }

  /** The red-count milestone is crossed: at least 10 now, fewer before. */
  predicate CrossesTen(count: int, lastCount: int)
  {
    count >= 10 && lastCount < 10
  }

  /** `check_locations` reports "10 Red Pikmin": the count crosses 10 and
      the location is not checked yet. */
  predicate Fires(count: int, lastCount: int, checked: set<int>)
  {
    CrossesTen(count, lastCount) && TenRedPikmin !in checked
  }

  class PikminContext {
    /** The Dolphin process found by the process scan, by pid; `None` until found. */
    var dolphinProcess: Option<int>
    var redPikminCount: int
    var lastRedPikminCount: int
    var redPikminAddress: int
    var checkedLocations: set<int>
    var itemsReceived: seq<NetworkItem>
    var slotData: map<string, int>

    ghost predicate Valid()
      reads this
    {
      checkedLocations <= {TenRedPikmin}
    }

    constructor ()
      ensures Valid()
      ensures dolphinProcess.None? && redPikminCount == 0 && lastRedPikminCount == 0
      ensures redPikminAddress == DefaultRedPikminAddress && checkedLocations == {} && itemsReceived == []
    {
      dolphinProcess := None;
      redPikminCount := 0;
      lastRedPikminCount := 0;
      redPikminAddress := DefaultRedPikminAddress;
      checkedLocations := {};
      itemsReceived := [];
      slotData := map[];
    }

    /** The Connected package: keep the slot data (empty when the package
        has none) and take the red Pikmin address from it. */
    method OnConnected(packageSlotData: Option<map<string, int>>)
      requires Valid()
      modifies this`slotData, this`redPikminAddress
      ensures Valid()
      ensures slotData == packageSlotData.GetOr(map[])
      ensures redPikminAddress == RedPikminAddressFrom(slotData)
    {
      slotData := packageSlotData.GetOr(map[]);
      redPikminAddress := RedPikminAddressFrom(slotData);
    }

    /** The ReceivedItems package: reset on index 0, then append each item in order. */
    method OnReceivedItems(index: int, items: seq<NetworkItem>)
      requires Valid()
      modifies this`itemsReceived
      ensures Valid()
      ensures itemsReceived == AfterReceivedItems(old(itemsReceived), index, items)
    {
      if index == 0 {
        itemsReceived := [];
      }
      ghost var before := itemsReceived;
      for k := 0 to |items|
        invariant itemsReceived == before + items[..k]
      {
        itemsReceived := itemsReceived + [items[k]];
      }
      assert items[..|items|] == items;
    }

    /** The simulated memory read; `raise` stands for the random draw below 0.1. */
    method ReadMemory(raise: bool)
      requires Valid()
      modifies this`redPikminCount
      ensures Valid()
      ensures redPikminCount == if raise then RaisedCount(old(redPikminCount)) else old(redPikminCount)
      ensures old(redPikminCount) <= RedPikminCap ==>
                old(redPikminCount) <= redPikminCount <= old(redPikminCount) + 1 && redPikminCount <= RedPikminCap
    {
      if raise {
        redPikminCount := if redPikminCount + 1 < RedPikminCap then redPikminCount + 1 else RedPikminCap;
      }
    }

    /** Report "10 Red Pikmin" when the count crosses 10 and it is not yet
        checked. The id is recorded before the send, so a failing send
        (`sendOk` false) never leads to a second report; that failure
        skips the update of the last count. */
    method CheckLocations(sendOk: bool) returns (sent: seq<int>)
      requires Valid()
      modifies this`checkedLocations, this`lastRedPikminCount
      ensures Valid()
      ensures var fires := Fires(redPikminCount, old(lastRedPikminCount), old(checkedLocations));
              sent == (if fires then [TenRedPikmin] else []) &&
              checkedLocations == old(checkedLocations) + (if fires then {TenRedPikmin} else {}) &&
              lastRedPikminCount == (if fires && !sendOk then old(lastRedPikminCount) else redPikminCount)
    {
      sent := [];
      if redPikminCount >= 10 && lastRedPikminCount < 10 {
        var locationId := TenRedPikmin;
        if locationId !in checkedLocations {
          checkedLocations := checkedLocations + {locationId};
          sent := [locationId];
          if !sendOk {
            return;
          }
        }
      }
      lastRedPikminCount := redPikminCount;
    }

    /** One pass of the `dolphin_sync` loop: look for Dolphin while no
        process is known (`scan` is the pid the process scan finds, if
        any); once one is known, read memory and check locations. */
    method SyncStep(scan: Option<int>, raise: bool, sendOk: bool) returns (sent: seq<int>)
      requires Valid()
      modifies this
      ensures Valid()
      ensures old(dolphinProcess).Some? ==> dolphinProcess == old(dolphinProcess)
      ensures old(dolphinProcess).None? ==> dolphinProcess == scan
      ensures dolphinProcess.None? ==>
                sent == [] && redPikminCount == old(redPikminCount) &&
                lastRedPikminCount == old(lastRedPikminCount) && checkedLocations == old(checkedLocations)
      ensures dolphinProcess.Some? ==>
                var count := if raise then RaisedCount(old(redPikminCount)) else old(redPikminCount);
                var fires := Fires(count, old(lastRedPikminCount), old(checkedLocations));
                && redPikminCount == count
                && sent == (if fires then [TenRedPikmin] else [])
                && checkedLocations == old(checkedLocations) + (if fires then {TenRedPikmin} else {})
                && lastRedPikminCount == (if fires && !sendOk then old(lastRedPikminCount) else count)
      ensures old(checkedLocations) <= checkedLocations
      ensures TenRedPikmin in sent ==> TenRedPikmin !in old(checkedLocations) && TenRedPikmin in checkedLocations
      ensures itemsReceived == old(itemsReceived) && redPikminAddress == old(redPikminAddress)
      ensures slotData == old(slotData)
    {
      sent := [];
      if dolphinProcess.None? {
        dolphinProcess := scan;
      }
      if dolphinProcess.Some? {
        ReadMemory(raise);
        sent := CheckLocations(sendOk);
      }
    }
  }
}
