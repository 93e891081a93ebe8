/** The Pikmin ship-part client: it waits until the emulator runs the
    game whose identifier is GPIP01, then polls the 30 ship-part flag
    bytes and reports every flag that rose since the previous poll as a
    location check. */
module ShipPartMonitor {
  import opened Options
  import opened Bytes

  /** The 6-byte game identifier "GPIP01", read at `GameIdAddress`. */
  const PikminGameId: seq<byte> := [0x47, 0x50, 0x49, 0x50, 0x30, 0x31]
  const GameIdAddress: int := 0x8000_0000
  const ShipPartCount: nat := 30
  /** The first of the `ShipPartCount` flag bytes, one per ship part. */
  const ShipPartFlagStart: int := 0x8042_321C
  const LocationIdBase: int := 5000000

  /** Bit 0 of a flag byte: the part is collected. The other bits are ignored. */
  predicate Collected(b: byte)
  {
    b % 2 == 1
  }

  /** Flag `i` rose: set in the current snapshot, clear in the previous one. */
  predicate Rose(current: seq<byte>, last: seq<byte>, i: nat)
    requires i < |current| && i < |last|
  {
    Collected(current[i]) && !Collected(last[i])
  }

  /** The location ids of the flags among the first `n` that rose, in index order. */
  function RisenIds(current: seq<byte>, last: seq<byte>, n: nat): (r: seq<int>)
    requires n <= |current| && n <= |last|
  {
    if n == 0 then []
    else RisenIds(current, last, n - 1) + (if Rose(current, last, n - 1) then [LocationIdBase + n - 1] else [])
  }

  /** The ids one poll reports. */
  function NewlyCollected(current: seq<byte>, last: seq<byte>): (r: seq<int>)
    requires ShipPartCount <= |current| && ShipPartCount <= |last|
  {
    RisenIds(current, last, ShipPartCount)
  }

  /** An id is reported iff it is `LocationIdBase + i` for a flag `i` that rose. */
  lemma {:induction false} RisenIdsMembership(current: seq<byte>, last: seq<byte>, n: nat, id: int)
    requires n <= |current| && n <= |last|
    ensures id in RisenIds(current, last, n) <==>
              LocationIdBase <= id < LocationIdBase + n && Rose(current, last, id - LocationIdBase)
  {
    if n > 0 {
      RisenIdsMembership(current, last, n - 1, id);
    }
  }

  /** The reported ids strictly ascend (so they hold no duplicate) and lie in
      [LocationIdBase, LocationIdBase + n). */
  lemma {:induction false} RisenIdsAscending(current: seq<byte>, last: seq<byte>, n: nat)
    requires n <= |current| && n <= |last|
    ensures forall k :: 0 <= k < |RisenIds(current, last, n)| ==>
              LocationIdBase <= RisenIds(current, last, n)[k] < LocationIdBase + n
    ensures forall j, k :: 0 <= j < k < |RisenIds(current, last, n)| ==>
              RisenIds(current, last, n)[j] < RisenIds(current, last, n)[k]
  {
    if n > 0 {
      RisenIdsAscending(current, last, n - 1);
    }
  }

  /** Polling a snapshot equal to the previous one reports nothing. */
  lemma {:induction false} NothingRisesWithoutChange(s: seq<byte>, n: nat)
    requires n <= |s|
    ensures RisenIds(s, s, n) == []
  {
    if n > 0 {
      NothingRisesWithoutChange(s, n - 1);
    }
  }

  /** The snapshot the client starts with: 30 zero bytes. */
  function InitialFlags(): (r: seq<byte>)
    ensures |r| == ShipPartCount
    ensures forall i :: 0 <= i < |r| ==> !Collected(r[i])
  {
    seq(ShipPartCount, _ => 0)
  }

  /** On the first poll every flag already set is reported. */
  lemma FirstPollReportsSetFlags(current: seq<byte>, i: nat)
    requires ShipPartCount <= |current| && i < ShipPartCount
    ensures LocationIdBase + i in NewlyCollected(current, InitialFlags()) <==> Collected(current[i])
  {
    RisenIdsMembership(current, InitialFlags(), ShipPartCount, LocationIdBase + i);
  }

  /** There is no persistent reported set: a flag that goes 1, 0, 1 across
      three polls is reported on the first and on the third. */
  lemma ReportedAgainAfterClear(set1: seq<byte>, cleared: seq<byte>, i: nat)
    requires ShipPartCount <= |set1| && ShipPartCount <= |cleared| && i < ShipPartCount
    requires Collected(set1[i]) && !Collected(cleared[i])
    ensures LocationIdBase + i in NewlyCollected(set1, InitialFlags())
    ensures LocationIdBase + i !in NewlyCollected(cleared, set1)
    ensures LocationIdBase + i in NewlyCollected(set1, cleared)
  {
    RisenIdsMembership(set1, InitialFlags(), ShipPartCount, LocationIdBase + i);
    RisenIdsMembership(cleared, set1, ShipPartCount, LocationIdBase + i);
    RisenIdsMembership(set1, cleared, ShipPartCount, LocationIdBase + i);
  }

  /** The diff loop of one poll: walks the 30 flags and appends the id of
      every flag that rose. */
  method CollectNewParts(current: seq<byte>, last: seq<byte>) returns (newlyCollected: seq<int>)
    requires ShipPartCount <= |current| && ShipPartCount <= |last|
    ensures newlyCollected == NewlyCollected(current, last)
    ensures forall id :: id in newlyCollected <==>
              LocationIdBase <= id < LocationIdBase + ShipPartCount && Rose(current, last, id - LocationIdBase)
    ensures forall j, k :: 0 <= j < k < |newlyCollected| ==> newlyCollected[j] < newlyCollected[k]
  {
    newlyCollected := [];
    for i := 0 to ShipPartCount
      invariant newlyCollected == RisenIds(current, last, i)
    {
      if Collected(current[i]) && !Collected(last[i]) {
        newlyCollected := newlyCollected + [LocationIdBase + i];
      }
    }
    forall id | true
      ensures id in newlyCollected <==>
                LocationIdBase <= id < LocationIdBase + ShipPartCount && Rose(current, last, id - LocationIdBase)
    {
      RisenIdsMembership(current, last, ShipPartCount, id);
    }
    RisenIdsAscending(current, last, ShipPartCount);
  }

  /** The two loops of the monitor task: waiting for the right game, then polling. */
  datatype Phase = Hooking | Monitoring

  /** What `read_bytes(address, size)` returns on the hooked emulator;
      `None` when it raises. */
  type ReadBytes = (int, nat) -> Option<seq<byte>>

  /** The client context and the position of the monitor task. */
  class Monitor {
    var lastCheckedFlags: seq<byte>
    var phase: Phase

    ghost predicate Valid()
      reads this
    {
      ShipPartCount <= |lastCheckedFlags|
    }

    constructor ()
      ensures Valid()
      ensures lastCheckedFlags == InitialFlags() && phase == Hooking
    {
      lastCheckedFlags := InitialFlags();
      phase := Hooking;
    }

    /** One attempt of the identity loop. `hookOk` is false when `hook()`
        raised. Monitoring starts only when the 6 bytes at `GameIdAddress`
        are GPIP01; another identifier unhooks (`unhook` is true) and the
        loop retries; a read that raises only retries. The snapshot is
        never touched. */
    method HookAttempt(hookOk: bool, memory: ReadBytes) returns (unhook: bool)
      requires Valid() && phase == Hooking
      modifies this
      ensures Valid() && lastCheckedFlags == old(lastCheckedFlags)
      ensures phase == Monitoring <==> hookOk && memory(GameIdAddress, 6) == Some(PikminGameId)
      ensures unhook <==> hookOk && memory(GameIdAddress, 6).Some? && memory(GameIdAddress, 6) != Some(PikminGameId)
    {
      unhook := false;
      if !hookOk {
        return;
      }
      var gameId := memory(GameIdAddress, 6);
      if gameId.None? {
        return;
      }
      if gameId.value == PikminGameId {
        phase := Monitoring;
      } else {
        unhook := true;
      }
    }

    /** One iteration of the polling loop. `hooked` is `is_hooked()`,
        `memory` the emulator's `read_bytes`, asked for the 30 flag bytes,
        `sendOk` whether `send_msgs` returned normally. `sent` is the batch
        handed to `send_msgs`, empty when it is not called.
        A lost hook returns to the identity loop with the snapshot kept; a
        read or send that raises leaves the snapshot unchanged, so the same
        parts are detected again on the next poll. */
    method Poll(hooked: bool, memory: ReadBytes, sendOk: bool) returns (sent: seq<int>)
      requires Valid() && phase == Monitoring
      modifies this
      ensures Valid()
      ensures phase == (if hooked then Monitoring else Hooking)
      ensures var read := memory(ShipPartFlagStart, ShipPartCount);
              !hooked || read.None? || read.value == old(lastCheckedFlags) ==>
                sent == [] && lastCheckedFlags == old(lastCheckedFlags)
      ensures var read := memory(ShipPartFlagStart, ShipPartCount);
              hooked && read.Some? && read.value != old(lastCheckedFlags) && |read.value| < ShipPartCount ==>
                sent == [] && lastCheckedFlags == old(lastCheckedFlags)
      ensures var read := memory(ShipPartFlagStart, ShipPartCount);
              hooked && read.Some? && read.value != old(lastCheckedFlags) && ShipPartCount <= |read.value| ==>
                sent == NewlyCollected(read.value, old(lastCheckedFlags)) &&
                lastCheckedFlags == (if sent == [] || sendOk then read.value else old(lastCheckedFlags))
    {
      sent := [];
      if !hooked {
        phase := Hooking;
        return;
      }
      var read := memory(ShipPartFlagStart, ShipPartCount);
      if read.None? {
        return;
      }
      var currentFlags := read.value;
      if currentFlags != lastCheckedFlags {
        if |currentFlags| < ShipPartCount {
          // the diff loop indexes past the end of the read: IndexError, caught
          return;
        }
        var newlyCollected := CollectNewParts(currentFlags, lastCheckedFlags);
        if newlyCollected != [] {
          sent := newlyCollected;
          if !sendOk {
            return;
          }
        }
        lastCheckedFlags := currentFlags;
      }
    }
  }
}
