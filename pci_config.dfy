/**
 * PCI configuration space: the register offsets and constants a root port
 * uses, little-endian 16-bit access to a byte buffer, half-open range overlap,
 * and the configuration-space object with its write masks.
 *
 * The offsets are those of the Type 1 (PCI-to-PCI bridge) header in section
 * 3.2 of the PCI-to-PCI Bridge Architecture Specification 1.2 and of the
 * common header in section 6.2 of the PCI Local Bus Specification 3.0.
 * pci/src/config.rs and pci/src/lib.rs, which define them together with the
 * helpers below, are not part of this model.
 */
module PciConfig {
  import opened Wrappers
  import AddressSpace

  /** Size of a PCI Express configuration space. */
  const PCIE_CONFIG_SPACE_SIZE: nat := 4096
  /** Size of one configuration register (a BAR, for instance). */
  const REG_SIZE: nat := 4

  const VENDOR_ID: nat := 0x00
  const DEVICE_ID: nat := 0x02
  const COMMAND: nat := 0x04
  const SUB_CLASS_CODE: nat := 0x0a
  const HEADER_TYPE: nat := 0x0e
  const BAR_0: nat := 0x10
  const IO_BASE: nat := 0x1c
  const MEMORY_BASE: nat := 0x20
  const PREF_MEMORY_BASE: nat := 0x24
  const PREF_MEMORY_LIMIT: nat := 0x26

  /** Command register bit 0: the device responds to I/O Space accesses. */
  const COMMAND_IO_SPACE: bv16 := 0x0001
  /** Command register bit 1: the device responds to Memory Space accesses. */
  const COMMAND_MEMORY_SPACE: bv16 := 0x0002

  const PCI_VENDOR_ID_REDHAT: bv16 := 0x1b36
  /** Base class 0x06 (bridge), sub-class 0x04 (PCI-to-PCI). */
  const CLASS_CODE_PCI_BRIDGE: bv16 := 0x0604
  const HEADER_TYPE_BRIDGE: bv8 := 0x01
  /** The prefetchable base/limit registers decode 64-bit addresses. */
  const PREF_MEM_RANGE_64BIT: bv8 := 0x01

  // ---------------------------------------------------------------------
  // Little-endian 16-bit values

  /** The value whose low byte is `lo` and high byte is `hi`. */
  function U16Of(lo: bv8, hi: bv8): (r: bv16)
  {
    (lo as bv16) | ((hi as bv16) << 8)
  }

  /** The two bytes of `v`, least significant first. */
  function U16Bytes(v: bv16): (r: seq<bv8>)
    ensures |r| == 2 && U16Of(r[0], r[1]) == v
  {
    [(v & 0xff) as bv8, (v >> 8) as bv8]
  }

  /** A value is determined by its two bytes, and the bytes by the value. */
  lemma U16BytesOf(lo: bv8, hi: bv8)
    ensures U16Bytes(U16Of(lo, hi)) == [lo, hi]
  {}

  datatype BufferError = OutOfBounds(offset: nat, length: nat)

  /** `le_read_u16(buf, offset)`: fails when the two bytes do not both lie in `buf`. */
  function LeReadU16(buf: seq<bv8>, offset: nat): (r: Result<bv16, BufferError>)
    ensures r.Failure? <==> offset + 2 > |buf|
    ensures r.Success? ==> U16Bytes(r.value) == buf[offset..offset + 2]
  {
    if offset + 2 > |buf| then Failure(OutOfBounds(offset, |buf|))
    else
      U16BytesOf(buf[offset], buf[offset + 1]);
      Success(U16Of(buf[offset], buf[offset + 1]))
  }

  /**
   * `le_write_u16(buf, offset, value)`: stores `value` at `offset`, least
   * significant byte first, and leaves every other byte alone; fails, writing
   * nothing, when the two bytes do not both lie in `buf`.
   */
  function LeWriteU16(buf: seq<bv8>, offset: nat, value: bv16): (r: Result<seq<bv8>, BufferError>)
    ensures r.Failure? <==> offset + 2 > |buf|
    ensures r.Success? ==>
              && |r.value| == |buf|
              && LeReadU16(r.value, offset) == Success(value)
              && forall i :: 0 <= i < |buf| && i != offset && i != offset + 1 ==> r.value[i] == buf[i]
  {
    if offset + 2 > |buf| then Failure(OutOfBounds(offset, |buf|))
    else
      var b := U16Bytes(value);
      Success(buf[offset := b[0]][offset + 1 := b[1]])
  }

  /** Writing back the value just read leaves the buffer as it was. */
  lemma LeWriteWhatWasRead(buf: seq<bv8>, offset: nat)
    requires offset + 2 <= |buf|
    ensures LeWriteU16(buf, offset, LeReadU16(buf, offset).value) == Success(buf)
  {
    var w := LeWriteU16(buf, offset, LeReadU16(buf, offset).value).value;
    assert w[offset..offset + 2] == buf[offset..offset + 2];
    assert w[offset] == buf[offset] && w[offset + 1] == buf[offset + 1];
    assert w == buf;
  }

  // ---------------------------------------------------------------------
  // Ranges

  /** `start <= i < end`. */
  predicate InRange(i: nat, start: nat, end: nat)
  {
    start <= i < end
  }

  /**
   * `ranges_overlap(start, end, rangeStart, rangeEnd)`, taken to mean that the
   * half-open ranges `[start, end)` and `[rangeStart, rangeEnd)` intersect (an
   * empty range overlaps nothing).
   */
  predicate RangesOverlap(start: nat, end: nat, rangeStart: nat, rangeEnd: nat)
  {
    start < end && rangeStart < rangeEnd && start < rangeEnd && rangeStart < end
  }

  /** Two half-open ranges overlap exactly when some position lies in both. */
  lemma RangesOverlapMeans(start: nat, end: nat, rangeStart: nat, rangeEnd: nat)
    ensures RangesOverlap(start, end, rangeStart, rangeEnd)
        <==> exists i :: InRange(i, start, end) && InRange(i, rangeStart, rangeEnd)
  {
    if RangesOverlap(start, end, rangeStart, rangeEnd) {
      var i := if start < rangeStart then rangeStart else start;
      assert InRange(i, start, end) && InRange(i, rangeStart, rangeEnd);
    }
  }

  // ---------------------------------------------------------------------
  // The configuration space object

  /**
   * `PciConfig`: the configuration bytes, the masks of bits software may write
   * and may clear by writing 1, and the ends of the capability lists built so
   * far.
   *
   * Its operations live in config.rs and msix.rs, which are not part of this
   * model: each is given by a contract stating only what the root port relies
   * on (the buffers keep their lengths, the bytes the operation does not own
   * are untouched); the bodies are stand-ins that meet those contracts.
   */
  class Config {
    var config: seq<bv8>
    var writeMask: seq<bv8>
    var writeClearMask: seq<bv8>
    var lastCapEnd: bv16
    var lastExtCapOffset: bv16
    var lastExtCapEnd: bv16
    /** The configuration bytes each call of `update_bar_mapping` saw, oldest first. */
    ghost var remaps: seq<seq<bv8>>
    /** Every `(offset, data)` handed to `write`, oldest first. */
    ghost var writes: seq<(nat, seq<bv8>)>
    /** The configuration bytes each call of `init_multifunction` was given, oldest first. */
    ghost var multifunctionInputs: seq<seq<bv8>>

    /** The masks describe the configuration bytes one for one. */
    ghost predicate Valid()
      reads this
    {
      |writeMask| == |config| && |writeClearMask| == |config|
    }

    /** `PciConfig::new(size, bar_num)`: `size` bytes of configuration space. */
    constructor (size: nat, barNum: nat)
      ensures Valid() && |config| == size
    {
      config := seq(size, _ => 0);
      writeMask := seq(size, _ => 0);
      writeClearMask := seq(size, _ => 0);
      lastCapEnd, lastExtCapOffset, lastExtCapEnd := 0, 0, 0;
      remaps := [];
      writes := [];
      multifunctionInputs := [];
    }

    /** `PciConfig::read`: copies the addressed bytes into `data`. */
    method Read(offset: nat, data: array<bv8>)
      requires offset + data.Length <= |config|
      modifies data
      ensures data[..] == config[offset..offset + data.Length]
    {
      forall i | 0 <= i < data.Length {
        data[i] := config[offset + i];
      }
    }

    /**
     * `PciConfig::write`: the call is recorded in `writes`; it may change only
     * the addressed bytes, and the masks, the capability cursors and the
     * length of the space stay as they are. The masked update in the body is
     * one admissible stand-in and is not part of the model: no formula for
     * the new bytes is promised.
     */
    method Write(offset: nat, data: seq<bv8>, devId: bv16)
      requires Valid() && offset + |data| <= |config|
      modifies this
      ensures Valid() && |config| == |old(config)|
      ensures forall i :: 0 <= i < |config| && !InRange(i, offset, offset + |data|) ==> config[i] == old(config[i])
      ensures writeMask == old(writeMask) && writeClearMask == old(writeClearMask)
      ensures lastCapEnd == old(lastCapEnd) && lastExtCapOffset == old(lastExtCapOffset)
      ensures lastExtCapEnd == old(lastExtCapEnd) && remaps == old(remaps)
      ensures writes == old(writes) + [(offset, data)] && multifunctionInputs == old(multifunctionInputs)
    {
      writes := writes + [(offset, data)];
      var bytes, wm, wcm := config, writeMask, writeClearMask;
      config := seq(|bytes|, i requires 0 <= i < |bytes| && |wm| == |wcm| == |bytes| =>
        if InRange(i, offset, offset + |data|)
        then ((bytes[i] & !wm[i]) | (data[i - offset] & wm[i])) & !(data[i - offset] & wcm[i])
        else bytes[i]);
    }

    /**
     * `update_bar_mapping`: re-maps the BARs into the device's own I/O and
     * memory containers. The call is logged in `remaps` with the
     * configuration bytes it reads the BARs and COMMAND from; besides, only the
     * two containers may change (the subregions it asks them to install and
     * those they do install), so the configuration bytes, the masks and the
     * cursors are kept.
     */
    method UpdateBarMapping(io: AddressSpace.Region, mem: AddressSpace.Region) returns (ok: bool)
      modifies this`remaps, io`subregions, io`adds, mem`subregions, mem`adds
      ensures remaps == old(remaps) + [config]
    {
      remaps := remaps + [config];
      ok := true;
    }

    /** `init_common_write_mask` and `init_bridge_write_mask`: only the masks change. */
    method InitWriteMask() returns (ok: bool)
      requires Valid()
      modifies this
      ensures Valid() && config == old(config)
      ensures multifunctionInputs == old(multifunctionInputs)
    {
      ok := true;
    }

    /** `init_common_write_clear_mask` and `init_bridge_write_clear_mask`: only the masks change. */
    method InitWriteClearMask() returns (ok: bool)
      requires Valid()
      modifies this
      ensures Valid() && config == old(config)
      ensures multifunctionInputs == old(multifunctionInputs)
    {
      ok := true;
    }

    /**
     * `init_multifunction`: may set the multi-function bit of the header type.
     * The call is logged in `multifunctionInputs` with the configuration bytes
     * it is given.
     */
    method InitMultifunction(multifunction: bool, devfn: bv8) returns (ok: bool)
      requires Valid()
      modifies this
      ensures Valid() && |config| == |old(config)|
      ensures multifunctionInputs == old(multifunctionInputs) + [old(config)]
    {
      multifunctionInputs := multifunctionInputs + [config];
      ok := true;
    }

    /** `add_pcie_cap`: appends the PCI Express capability. */
    method AddPcieCap(devfn: bv8, portNum: bv8, devType: bv8) returns (ok: bool)
      requires Valid()
      modifies this
      ensures Valid() && |config| == |old(config)|
      ensures multifunctionInputs == old(multifunctionInputs)
    {
      ok := true;
    }

    /** `init_msix`: appends the MSI-X capability. */
    method InitMsix(barId: nat, vectorNr: nat) returns (ok: bool)
      requires Valid()
      modifies this
      ensures Valid() && |config| == |old(config)|
      ensures multifunctionInputs == old(multifunctionInputs)
    {
      ok := true;
    }
  }
}
