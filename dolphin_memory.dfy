/** Reading the memory of the Dolphin process for Pikmin 1 (GameCube PAL):
    a GameCube address is translated into the emulator's address space,
    a read succeeds only when every byte asked for was read, and counters
    are decoded big-endian. */
module DolphinMemory {
  import opened Options
  import opened Bytes

  const Mem1Base: int := 0x8000_0000
  /** The MEM1 base the lookup reports (it returns this fixed address). */
  const FoundMem1Base: int := 0x1000_0000

  /** Outcome of the Windows `ReadProcessMemory` call: it raised, or it
      returned its success flag and the number of bytes read. */
  datatype ReadCall = CallRaised | Returned(success: bool, bytesRead: nat)

  /** The emulator process's memory, byte by byte, at host addresses. */
  type HostMemory = int -> byte
  /** What `ReadProcessMemory` does when asked for `size` bytes at a host address. */
  type ReadProcess = (int, nat) -> ReadCall

  /** Python truthiness of an optional handle or address: set and non-zero. */
  predicate Truthy(o: Option<int>)
  {
    o.Some? && o.value != 0
  }

  /** The `size` bytes of host memory starting at `at`. */
  function HostBytes(host: HostMemory, at: int, size: nat): (r: seq<byte>)
    ensures |r| == size
    ensures forall k :: 0 <= k < size ==> r[k] == host(at + k)
  {
    seq(size, k => host(at + k))
  }

  class DolphinMemoryReader {
    const pid: int
    const win32: bool
    var processHandle: Option<int>
    var baseAddress: Option<int>

    /** A handle is only ever opened on Windows. */
    ghost predicate Valid()
      reads this
    {
      Truthy(processHandle) ==> win32
    }

    constructor (pid: int, win32: bool)
      ensures Valid()
      ensures this.pid == pid && this.win32 == win32
      ensures processHandle.None? && baseAddress.None?
    {
      this.pid := pid;
      this.win32 := win32;
      processHandle := None;
      baseAddress := None;
    }

    /** Open the process (`openResult` is what `OpenProcess` returned) and look
        up the MEM1 base, which is the fixed 0x10000000 unless the lookup
        raises (`lookupOk` false). Connecting succeeds only on Windows, with
        a handle and a base. */
    method Connect(openResult: Option<int>, lookupOk: bool) returns (ok: bool)
      requires Valid()
      modifies this
      ensures Valid()
      ensures !win32 ==> !ok && processHandle == old(processHandle) && baseAddress == old(baseAddress)
      ensures win32 ==> processHandle == openResult
      ensures win32 && Truthy(openResult) ==> baseAddress == (if lookupOk then Some(FoundMem1Base) else None)
      ensures win32 && !Truthy(openResult) ==> baseAddress == old(baseAddress)
      ensures ok <==> win32 && Truthy(openResult) && lookupOk
    {
      if !win32 {
        return false;
      }
      processHandle := openResult;
      if !Truthy(processHandle) {
        return false;
      }
      baseAddress := if lookupOk then Some(FoundMem1Base) else None;
      if !Truthy(baseAddress) {
        return false;
      }
      return true;
    }

    /** The emulator address of a GameCube address. */
    function HostAddress(address: int): (h: int)
      reads this
      requires baseAddress.Some?
      ensures h - baseAddress.value == address - Mem1Base
    {
      baseAddress.value + (address - Mem1Base)
    }

    /** `read_memory`: the `size` bytes at the translated address, only when
        a handle and a base are set, on Windows, and the call reports
        success with exactly `size` bytes read; `None` otherwise,
        including when the call raises. */
    function ReadMemory(address: int, size: nat, host: HostMemory, call: ReadProcess): (r: Option<seq<byte>>)
      reads this
      ensures !Truthy(processHandle) || !Truthy(baseAddress) ==> r.None?
      ensures r.Some? <==> Truthy(processHandle) && Truthy(baseAddress) && win32 &&
                           call(HostAddress(address), size) == Returned(true, size)
      ensures r.Some? ==> r.value == HostBytes(host, HostAddress(address), size)
    {
      if !Truthy(processHandle) || !Truthy(baseAddress) then None
      else
        var at := HostAddress(address);
        if !win32 then None
        else match call(at, size)
          case CallRaised => None
          case Returned(success, bytesRead) =>
            if success && bytesRead == size then Some(HostBytes(host, at, size)) else None
    }

    /** `read_u8`: the byte at the translated address. */
    function ReadU8(address: int, host: HostMemory, call: ReadProcess): (r: Option<nat>)
      reads this
      ensures r.Some? <==> ReadMemory(address, 1, host, call).Some?
      ensures r.Some? ==> r.value < 256 && r.value == host(HostAddress(address))
    {
      var data := ReadMemory(address, 1, host, call);
      if data.Some? && data.value != [] then
        DecodeSingle(data.value[0]);
        assert data.value == [data.value[0]];
        Some(DecodeBE(data.value))
      else None
    }

    /** `read_u16`: the big-endian value of the two bytes at the translated address. */
    function ReadU16(address: int, host: HostMemory, call: ReadProcess): (r: Option<nat>)
      reads this
      ensures r.Some? <==> ReadMemory(address, 2, host, call).Some?
      ensures r.Some? ==> r.value < Pow256(2)
      ensures r.Some? ==> EncodeBE(r.value, 2) == HostBytes(host, HostAddress(address), 2)
    {
      var data := ReadMemory(address, 2, host, call);
      if data.Some? && data.value != [] then
        EncodeDecode(data.value);
        Some(DecodeBE(data.value))
      else None
    }

    /** `read_u32`: the big-endian value of the four bytes at the translated address. */
    function ReadU32(address: int, host: HostMemory, call: ReadProcess): (r: Option<nat>)
      reads this
      ensures r.Some? <==> ReadMemory(address, 4, host, call).Some?
      ensures r.Some? ==> r.value < Pow256(4)
      ensures r.Some? ==> EncodeBE(r.value, 4) == HostBytes(host, HostAddress(address), 4)
    {
      var data := ReadMemory(address, 4, host, call);
      if data.Some? && data.value != [] then
        EncodeDecode(data.value);
        Some(DecodeBE(data.value))
      else None
    }

    /** Close the handle (on Windows, when one is open). Afterwards no read
        returns data. */
    method Disconnect()
      requires Valid()
      modifies this`processHandle
      ensures Valid()
      ensures !Truthy(processHandle)
      ensures Truthy(old(processHandle)) ==> processHandle.None?
      ensures forall a: int, n: nat, host: HostMemory, call: ReadProcess :: ReadMemory(a, n, host, call).None?
    {
      if Truthy(processHandle) && win32 {
        processHandle := None;
      }
    }
  }

  /** Translation preserves offsets: byte `k` of a successful read at
      GameCube address `a` is the host byte behind GameCube address `a + k`,
      and distinct GameCube addresses stay distinct. */
  lemma ReadMemoryBytes(reader: DolphinMemoryReader, a: int, size: nat, host: HostMemory, call: ReadProcess)
    requires reader.ReadMemory(a, size, host, call).Some?
    ensures forall k :: 0 <= k < size ==>
              reader.ReadMemory(a, size, host, call).value[k] == host(reader.HostAddress(a + k))
    ensures forall b :: b != a ==> reader.HostAddress(b) != reader.HostAddress(a)
  {
  }

  /** The counters of Pikmin 1 (GameCube PAL), read through a `DolphinMemoryReader`. */
  const RedPikminAddress: int := 0x803D_6CF7
  const YellowPikminAddress: int := 0x803D_6CF8
  const BluePikminAddress: int := 0x803D_6CF9
  const DayCounterAddress: int := 0x803D_6D10
  const ShipPartsAddress: int := 0x803D_6D20

  class PikminMemoryReader {
    const dolphinReader: DolphinMemoryReader

    constructor (reader: DolphinMemoryReader)
      ensures dolphinReader == reader
    {
      dolphinReader := reader;
    }

    /** Red Pikmin: the single byte at 0x803D6CF7. */
    function GetRedPikminCount(host: HostMemory, call: ReadProcess): (r: Option<nat>)
      reads dolphinReader
      ensures r.Some? <==> dolphinReader.ReadMemory(RedPikminAddress, 1, host, call).Some?
      ensures r.Some? ==> r.value < 256 && r.value == host(dolphinReader.HostAddress(RedPikminAddress))
    {
      dolphinReader.ReadU8(RedPikminAddress, host, call)
    }

    /** Yellow Pikmin: the single byte at 0x803D6CF8. */
    function GetYellowPikminCount(host: HostMemory, call: ReadProcess): (r: Option<nat>)
      reads dolphinReader
      ensures r.Some? <==> dolphinReader.ReadMemory(YellowPikminAddress, 1, host, call).Some?
      ensures r.Some? ==> r.value < 256 && r.value == host(dolphinReader.HostAddress(YellowPikminAddress))
    {
      dolphinReader.ReadU8(YellowPikminAddress, host, call)
    }

    /** Blue Pikmin: the single byte at 0x803D6CF9. */
    function GetBluePikminCount(host: HostMemory, call: ReadProcess): (r: Option<nat>)
      reads dolphinReader
      ensures r.Some? <==> dolphinReader.ReadMemory(BluePikminAddress, 1, host, call).Some?
      ensures r.Some? ==> r.value < 256 && r.value == host(dolphinReader.HostAddress(BluePikminAddress))
    {
      dolphinReader.ReadU8(BluePikminAddress, host, call)
    }

    /** The day counter: a big-endian 32-bit read at 0x803D6D10. */
    function GetDayCounter(host: HostMemory, call: ReadProcess): (r: Option<nat>)
      reads dolphinReader
      ensures r.Some? <==> dolphinReader.ReadMemory(DayCounterAddress, 4, host, call).Some?
      ensures r.Some? ==> r.value < Pow256(4)
      ensures r.Some? ==> EncodeBE(r.value, 4) == HostBytes(host, dolphinReader.HostAddress(DayCounterAddress), 4)
    {
      dolphinReader.ReadU32(DayCounterAddress, host, call)
    }

    /** The ship parts collected: a big-endian 32-bit read at 0x803D6D20. */
    function GetShipPartsCollected(host: HostMemory, call: ReadProcess): (r: Option<nat>)
      reads dolphinReader
      ensures r.Some? <==> dolphinReader.ReadMemory(ShipPartsAddress, 4, host, call).Some?
      ensures r.Some? ==> r.value < Pow256(4)
      ensures r.Some? ==> EncodeBE(r.value, 4) == HostBytes(host, dolphinReader.HostAddress(ShipPartsAddress), 4)
    {
      dolphinReader.ReadU32(ShipPartsAddress, host, call)
    }
  }
}
