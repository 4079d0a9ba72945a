/**
 * A PCI Express root port (pci/src/root_port.rs): a PCI-to-PCI bridge whose
 * secondary bus hangs below a parent bus.
 *
 * The model covers the configuration-space front end (the access guard of
 * `read_config` and `write_config` and the side effects a write triggers),
 * `realize` (header programming and plugging into the parent bus) and the
 * migration codec of `RootPortState`. It follows the x86_64 build, where the
 * port also owns an I/O container.
 */
module PciRootPort {
  import opened Wrappers
  import opened PciConfig
  import AddressSpace
  import PciBus

  /** The device id of the root port. */
  const DEVICE_ID_RP: bv16 := 0x000c
  /** `PcieDevType::RootPort`: device/port type 0100b of the PCI Express Capabilities register. */
  const PCIE_DEV_TYPE_ROOT_PORT: bv8 := 4
  /** Size of the I/O container, `1 << 16`. */
  const IO_CONTAINER_SIZE: nat := 0x1_0000
  /** Size of the memory container, `u64::max_value()`. */
  const MEM_CONTAINER_SIZE: nat := 0xffff_ffff_ffff_ffff

  // ---------------------------------------------------------------------
  // Migration state

  /** Where each field of `RootPortState` starts in its byte image, in declaration order. */
  const WRITE_MASK_AT: nat := PCIE_CONFIG_SPACE_SIZE
  const WRITE_CLEAR_MASK_AT: nat := 2 * PCIE_CONFIG_SPACE_SIZE
  const LAST_CAP_END_AT: nat := 3 * PCIE_CONFIG_SPACE_SIZE
  const LAST_EXT_CAP_OFFSET_AT: nat := LAST_CAP_END_AT + 2
  const LAST_EXT_CAP_END_AT: nat := LAST_CAP_END_AT + 4
  /** The size of the byte image: three 4096-byte arrays and three `u16`s, with no padding. */
  const STATE_SIZE: nat := LAST_CAP_END_AT + 6

  /** `RootPortState`: what is migrated of a root port. */
  datatype RootPortState = RootPortState(
    configSpace: seq<bv8>,
    writeMask: seq<bv8>,
    writeClearMask: seq<bv8>,
    lastCapEnd: bv16,
    lastExtCapOffset: bv16,
    lastExtCapEnd: bv16)

  /** The three arrays have their fixed length. */
  predicate WellFormed(s: RootPortState)
  {
    && |s.configSpace| == PCIE_CONFIG_SPACE_SIZE
    && |s.writeMask| == PCIE_CONFIG_SPACE_SIZE
    && |s.writeClearMask| == PCIE_CONFIG_SPACE_SIZE
  }

  /** `as_bytes`: the fields in declaration order, each `u16` least significant byte first. */
  function AsBytes(s: RootPortState): (r: seq<bv8>)
    requires WellFormed(s)
    ensures |r| == STATE_SIZE
  {
    s.configSpace + s.writeMask + s.writeClearMask
      + U16Bytes(s.lastCapEnd) + U16Bytes(s.lastExtCapOffset) + U16Bytes(s.lastExtCapEnd)
  }

  /** `from_bytes`: fails exactly when the image does not have the size of the state. */
  function FromBytes(b: seq<bv8>): (r: Option<RootPortState>)
    ensures r.Some? <==> |b| == STATE_SIZE
    ensures r.Some? ==> WellFormed(r.value)
  {
    if |b| != STATE_SIZE then None
    else
      Some(RootPortState(
        b[..WRITE_MASK_AT],
        b[WRITE_MASK_AT..WRITE_CLEAR_MASK_AT],
        b[WRITE_CLEAR_MASK_AT..LAST_CAP_END_AT],
        U16Of(b[LAST_CAP_END_AT], b[LAST_CAP_END_AT + 1]),
        U16Of(b[LAST_EXT_CAP_OFFSET_AT], b[LAST_EXT_CAP_OFFSET_AT + 1]),
        U16Of(b[LAST_EXT_CAP_END_AT], b[LAST_EXT_CAP_END_AT + 1])))
  }

  /** Decoding an encoded state gives the state back. */
  lemma FromBytesAsBytes(s: RootPortState)
    requires WellFormed(s)
    ensures FromBytes(AsBytes(s)) == Some(s)
  {
    var b := AsBytes(s);
    var head := s.configSpace + s.writeMask + s.writeClearMask;
    var tail := U16Bytes(s.lastCapEnd) + U16Bytes(s.lastExtCapOffset) + U16Bytes(s.lastExtCapEnd);
    assert b == head + tail;
    assert b[..LAST_CAP_END_AT] == head && b[LAST_CAP_END_AT..] == tail;
    assert head[..WRITE_MASK_AT] == s.configSpace;
    assert head[WRITE_MASK_AT..WRITE_CLEAR_MASK_AT] == s.writeMask;
    assert head[WRITE_CLEAR_MASK_AT..] == s.writeClearMask;
    var u1, u2, u3 := U16Bytes(s.lastCapEnd), U16Bytes(s.lastExtCapOffset), U16Bytes(s.lastExtCapEnd);
    assert tail[0] == u1[0] && tail[1] == u1[1];
    assert tail[2] == u2[0] && tail[3] == u2[1];
    assert tail[4] == u3[0] && tail[5] == u3[1];
    assert b[..WRITE_MASK_AT] == head[..WRITE_MASK_AT];
    assert b[WRITE_MASK_AT..WRITE_CLEAR_MASK_AT] == head[WRITE_MASK_AT..WRITE_CLEAR_MASK_AT];
    assert b[WRITE_CLEAR_MASK_AT..LAST_CAP_END_AT] == head[WRITE_CLEAR_MASK_AT..];
    var t := FromBytes(b).value;
    assert t.configSpace == s.configSpace && t.writeMask == s.writeMask && t.writeClearMask == s.writeClearMask;
    assert t.lastCapEnd == s.lastCapEnd;
    assert t.lastExtCapOffset == s.lastExtCapOffset;
    assert t.lastExtCapEnd == s.lastExtCapEnd;
  }

  /** Encoding a decoded image gives the image back: every image of the right size is some state. */
  lemma AsBytesFromBytes(b: seq<bv8>)
    requires |b| == STATE_SIZE
    ensures AsBytes(FromBytes(b).value) == b
  {
    var s := FromBytes(b).value;
    U16BytesOf(b[LAST_CAP_END_AT], b[LAST_CAP_END_AT + 1]);
    U16BytesOf(b[LAST_EXT_CAP_OFFSET_AT], b[LAST_EXT_CAP_OFFSET_AT + 1]);
    U16BytesOf(b[LAST_EXT_CAP_END_AT], b[LAST_EXT_CAP_END_AT + 1]);
    assert b == b[..WRITE_MASK_AT] + b[WRITE_MASK_AT..WRITE_CLEAR_MASK_AT] + b[WRITE_CLEAR_MASK_AT..LAST_CAP_END_AT]
      + b[LAST_CAP_END_AT..LAST_EXT_CAP_OFFSET_AT] + b[LAST_EXT_CAP_OFFSET_AT..LAST_EXT_CAP_END_AT]
      + b[LAST_EXT_CAP_END_AT..];
  }

  // ---------------------------------------------------------------------
  // Configuration access

  /** The guard of `read_config` and `write_config`: at most four bytes, all inside the space. */
  predicate AccessAllowed(offset: nat, size: nat)
  {
    offset + size <= PCIE_CONFIG_SPACE_SIZE && size <= 4
  }

  /** The accesses of the source's tests: four bytes at the last byte are refused, one is not. */
  lemma GuardExamples()
    ensures !AccessAllowed(PCIE_CONFIG_SPACE_SIZE - 1, 4)
    ensures AccessAllowed(PCIE_CONFIG_SPACE_SIZE - 1, 1)
  {}

  /** The Command register, read as `le_read_u16(config, COMMAND)`. */
  function Command(cfg: seq<bv8>): (r: bv16)
    requires COMMAND + 2 <= |cfg|
    ensures U16Bytes(r) == cfg[COMMAND..COMMAND + 2]
  {
    LeReadU16(cfg, COMMAND).value
  }

  /** `command & COMMAND_IO_SPACE != 0`. */
  predicate IoSpaceEnabled(command: bv16)
  {
    command & COMMAND_IO_SPACE != 0
  }

  /** `command & COMMAND_MEMORY_SPACE != 0`. */
  predicate MemorySpaceEnabled(command: bv16)
  {
    command & COMMAND_MEMORY_SPACE != 0
  }

  /**
   * Both enable bits are in the low byte of the Command register: I/O Space
   * is bit 0 and Memory Space bit 1 of the byte at COMMAND.
   */
  lemma CommandEnableBits(cfg: seq<bv8>)
    requires COMMAND + 2 <= |cfg|
    ensures IoSpaceEnabled(Command(cfg)) <==> cfg[COMMAND] & 0x01 == 0x01
    ensures MemorySpaceEnabled(Command(cfg)) <==> cfg[COMMAND] & 0x02 == 0x02
  {
    var c := Command(cfg);
    assert cfg[COMMAND] == U16Bytes(c)[0] == (c & 0xff) as bv8;
  }

  /** A write to `[offset, end)` touching the low byte of COMMAND or the two BARs re-maps the BARs. */
  predicate RemapTriggered(offset: nat, end: nat)
  {
    || RangesOverlap(offset, end, COMMAND, COMMAND + 1)
    || RangesOverlap(offset, end, BAR_0, BAR_0 + REG_SIZE * 2)
  }

  /**
   * A write to `[offset, end)` touching the low byte of COMMAND, the I/O base
   * and limit, or the memory, prefetchable and upper I/O window registers
   * (20 bytes from MEMORY_BASE) re-installs the bridge windows.
   */
  predicate WindowTriggered(offset: nat, end: nat)
  {
    || RangesOverlap(offset, end, COMMAND, COMMAND + 1)
    || RangesOverlap(offset, end, IO_BASE, IO_BASE + 2)
    || RangesOverlap(offset, end, MEMORY_BASE, MEMORY_BASE + 20)
  }

  /** The BAR re-mapping trigger, byte by byte: the write covers COMMAND or a byte of BAR 0 or BAR 1. */
  lemma RemapTriggeredBytes(offset: nat, end: nat)
    ensures RemapTriggered(offset, end)
        <==> exists i :: InRange(i, offset, end) && (i == COMMAND || InRange(i, BAR_0, BAR_0 + 8))
  {
    RangesOverlapMeans(offset, end, COMMAND, COMMAND + 1);
    RangesOverlapMeans(offset, end, BAR_0, BAR_0 + REG_SIZE * 2);
    if exists i :: InRange(i, offset, end) && (i == COMMAND || InRange(i, BAR_0, BAR_0 + 8)) {
      var i :| InRange(i, offset, end) && (i == COMMAND || InRange(i, BAR_0, BAR_0 + 8));
      assert InRange(i, COMMAND, COMMAND + 1) || InRange(i, BAR_0, BAR_0 + REG_SIZE * 2);
    }
  }

  /** The window trigger, byte by byte. */
  lemma WindowTriggeredBytes(offset: nat, end: nat)
    ensures WindowTriggered(offset, end)
        <==> exists i :: InRange(i, offset, end)
                      && (i == COMMAND || InRange(i, IO_BASE, IO_BASE + 2) || InRange(i, MEMORY_BASE, MEMORY_BASE + 20))
  {
    RangesOverlapMeans(offset, end, COMMAND, COMMAND + 1);
    RangesOverlapMeans(offset, end, IO_BASE, IO_BASE + 2);
    RangesOverlapMeans(offset, end, MEMORY_BASE, MEMORY_BASE + 20);
    if exists i :: InRange(i, offset, end)
                && (i == COMMAND || InRange(i, IO_BASE, IO_BASE + 2) || InRange(i, MEMORY_BASE, MEMORY_BASE + 20)) {
      var i :| InRange(i, offset, end)
            && (i == COMMAND || InRange(i, IO_BASE, IO_BASE + 2) || InRange(i, MEMORY_BASE, MEMORY_BASE + 20));
      assert InRange(i, COMMAND, COMMAND + 1) || InRange(i, IO_BASE, IO_BASE + 2) || InRange(i, MEMORY_BASE, MEMORY_BASE + 20);
    }
  }

  /** The side effects a configuration write can trigger, in the order `write_config` attempts them. */
  datatype Action = RemapBars | AddIoWindow | AddMemWindow

  function Rank(a: Action): (r: nat)
  {
    match a
    case RemapBars => 0
    case AddIoWindow => 1
    case AddMemWindow => 2
  }

  /**
   * The side effects `write_config(offset, data)` attempts, given `size =
   * |data|` and the Command register as it reads after the write itself.
   */
  function WriteActions(offset: nat, size: nat, command: bv16): (r: seq<Action>)
    ensures RemapBars in r <==> AccessAllowed(offset, size) && RemapTriggered(offset, offset + size)
    ensures AddIoWindow in r
        <==> AccessAllowed(offset, size) && WindowTriggered(offset, offset + size) && IoSpaceEnabled(command)
    ensures AddMemWindow in r
        <==> AccessAllowed(offset, size) && WindowTriggered(offset, offset + size) && MemorySpaceEnabled(command)
    ensures forall i :: 0 < i < |r| ==> Rank(r[i - 1]) < Rank(r[i])
  {
    if AccessAllowed(offset, size)
    then RemapActions(offset, offset + size) + WindowActions(offset, offset + size, command)
    else []
  }

  /** An accepted write re-maps first and then installs windows; each window action comes from the second step. */
  lemma WriteActionsSteps(offset: nat, size: nat, command: bv16)
    requires AccessAllowed(offset, size)
    ensures WriteActions(offset, size, command)
         == RemapActions(offset, offset + size) + WindowActions(offset, offset + size, command)
    ensures AddIoWindow in WriteActions(offset, size, command)
        <==> AddIoWindow in WindowActions(offset, offset + size, command)
    ensures AddMemWindow in WriteActions(offset, size, command)
        <==> AddMemWindow in WindowActions(offset, offset + size, command)
  {}

  /** The BAR re-mapping step of an accepted write to `[offset, end)`. */
  function RemapActions(offset: nat, end: nat): (r: seq<Action>)
    ensures AddIoWindow !in r && AddMemWindow !in r
  {
    if RemapTriggered(offset, end) then [RemapBars] else []
  }

  /** The window step of an accepted write to `[offset, end)`. */
  function WindowActions(offset: nat, end: nat, command: bv16): (r: seq<Action>)
    ensures RemapBars !in r
    ensures forall i :: 0 < i < |r| ==> Rank(r[i - 1]) < Rank(r[i])
  {
    if WindowTriggered(offset, end)
    then (if IoSpaceEnabled(command) then [AddIoWindow] else [])
       + (if MemorySpaceEnabled(command) then [AddMemWindow] else [])
    else []
  }

  // ---------------------------------------------------------------------
  // Header programming

  /** The bytes `realize` programs: vendor id, device id, class code, header type, prefetchable base and limit. */
  predicate IsHeaderByte(i: nat)
  {
    || i == VENDOR_ID || i == VENDOR_ID + 1
    || i == DEVICE_ID || i == DEVICE_ID + 1
    || i == SUB_CLASS_CODE || i == SUB_CLASS_CODE + 1
    || i == HEADER_TYPE || i == PREF_MEMORY_BASE || i == PREF_MEMORY_LIMIT
  }

  /**
   * The header programming of `realize`: a Red Hat PCI-to-PCI bridge with the
   * root port's device id, a Type 1 header and 64-bit prefetchable windows.
   */
  function BridgeHeader(cfg: seq<bv8>): (r: seq<bv8>)
    requires PREF_MEMORY_LIMIT < |cfg|  // indexing the header type and the windows panics otherwise
    ensures |r| == |cfg|
    ensures LeReadU16(r, VENDOR_ID) == Success(PCI_VENDOR_ID_REDHAT)
    ensures LeReadU16(r, DEVICE_ID) == Success(DEVICE_ID_RP)
    ensures LeReadU16(r, SUB_CLASS_CODE) == Success(CLASS_CODE_PCI_BRIDGE)
    ensures r[HEADER_TYPE] == HEADER_TYPE_BRIDGE
    ensures r[PREF_MEMORY_BASE] == PREF_MEM_RANGE_64BIT && r[PREF_MEMORY_LIMIT] == PREF_MEM_RANGE_64BIT
    ensures forall i :: 0 <= i < |cfg| && !IsHeaderByte(i) ==> r[i] == cfg[i]
  {
    var withVendor := LeWriteU16(cfg, VENDOR_ID, PCI_VENDOR_ID_REDHAT).value;
    var withDevice := LeWriteU16(withVendor, DEVICE_ID, DEVICE_ID_RP).value;
    var withClass := LeWriteU16(withDevice, SUB_CLASS_CODE, CLASS_CODE_PCI_BRIDGE).value;
    var r := withClass[HEADER_TYPE := HEADER_TYPE_BRIDGE]
                      [PREF_MEMORY_BASE := PREF_MEM_RANGE_64BIT]
                      [PREF_MEMORY_LIMIT := PREF_MEM_RANGE_64BIT];
    assert r[VENDOR_ID..VENDOR_ID + 2] == withVendor[VENDOR_ID..VENDOR_ID + 2];
    assert r[DEVICE_ID..DEVICE_ID + 2] == withDevice[DEVICE_ID..DEVICE_ID + 2];
    assert r[SUB_CLASS_CODE..SUB_CLASS_CODE + 2] == withClass[SUB_CLASS_CODE..SUB_CLASS_CODE + 2];
    r
  }

  // ---------------------------------------------------------------------
  // The root port

  datatype RealizeError =
    | WriteMaskInit
    | WriteClearMaskInit
    | Multifunction
    | PcieCap
    | Msix
    | IoSubregion
    | MemSubregion
    | DevfnInUse(devfn: bv8)

  datatype MigrationError = FromBytesError(device: string)

  class RootPort {
    const name: string
    const devfn: bv8
    const portNum: bv8
    const config: PciConfig.Config
    /** `parent_bus`, assumed alive whenever it is used. */
    const parentBus: PciBus.Bus
    const secBus: PciBus.Bus
    const ioRegion: AddressSpace.Region
    const memRegion: AddressSpace.Region
    var devId: bv16
    const multifunction: bool
    /**
     * The configuration space has its PCI Express size; the secondary bus
     * shares the port's containers; the port's containers are not the
     * parent's, and no two of the four coincide.
     */
    ghost predicate Valid()
      reads this, config
    {
      && config.Valid() && |config.config| == PCIE_CONFIG_SPACE_SIZE
      && secBus.ioRegion == ioRegion && secBus.memRegion == memRegion
      && secBus != parentBus
      && ioRegion != memRegion && parentBus.ioRegion != parentBus.memRegion
      && ioRegion != parentBus.ioRegion && ioRegion != parentBus.memRegion
      && memRegion != parentBus.ioRegion && memRegion != parentBus.memRegion
    }

    /** `RootPort::new`: fresh containers, a fresh secondary bus and an empty configuration space. */
    constructor (name: string, devfn: bv8, portNum: bv8, parentBus: PciBus.Bus, multifunction: bool)
      requires parentBus.ioRegion != parentBus.memRegion
      ensures Valid()
      ensures fresh(config) && fresh(secBus) && fresh(ioRegion) && fresh(memRegion)
      ensures this.name == name && this.devfn == devfn && this.portNum == portNum
      ensures this.parentBus == parentBus && this.multifunction == multifunction
      ensures devId == 0
      ensures ioRegion.size == IO_CONTAINER_SIZE && ioRegion.subregions == []
      ensures memRegion.size == MEM_CONTAINER_SIZE && memRegion.subregions == []
      ensures secBus.name == name && secBus.devices == map[] && secBus.childBuses == []
      ensures secBus.parentBridge == None
    {
      var io := new AddressSpace.Region.InitContainer(IO_CONTAINER_SIZE);
      var mem := new AddressSpace.Region.InitContainer(MEM_CONTAINER_SIZE);
      this.name := name;
      this.devfn := devfn;
      this.portNum := portNum;
      this.config := new PciConfig.Config(PCIE_CONFIG_SPACE_SIZE, 2);
      this.parentBus := parentBus;
      this.secBus := new PciBus.Bus(name, io, mem);
      this.ioRegion := io;
      this.memRegion := mem;
      this.devId := 0;
      this.multifunction := multifunction;
    }

    /** `read_config`: an access the guard refuses leaves `data` untouched. */
    method ReadConfig(offset: nat, data: array<bv8>)
      requires Valid()
      modifies data
      ensures !AccessAllowed(offset, data.Length) ==> data[..] == old(data[..])
      ensures AccessAllowed(offset, data.Length) ==> data[..] == config.config[offset..offset + data.Length]
    {
      var size := data.Length;
      if offset + size > PCIE_CONFIG_SPACE_SIZE || size > 4 {
        return;
      }
      config.Read(offset, data);
    }

    /**
     * `write_config`: a refused access changes nothing. An accepted one
     * changes only the addressed bytes, then makes exactly the calls
     * `WriteActions` names for the Command register as it now reads: one
     * `update_bar_mapping` for `RemapBars`, and one `add_subregion` of the
     * port's container in the parent's for each window. A window that
     * fails to install leaves the parent's container as it was.
     */
    method WriteConfig(offset: nat, data: seq<bv8>)
      requires Valid()
      modifies config, ioRegion`subregions, ioRegion`adds, memRegion`subregions, memRegion`adds
      modifies parentBus.ioRegion, parentBus.memRegion
      ensures Valid()
      ensures config.writes == old(config.writes) + (if AccessAllowed(offset, |data|) then [(offset, data)] else [])
      ensures !AccessAllowed(offset, |data|) ==> config.config == old(config.config)
      ensures forall i :: 0 <= i < |config.config| && !InRange(i, offset, offset + |data|)
                ==> config.config[i] == old(config.config[i])
      ensures config.writeMask == old(config.writeMask) && config.writeClearMask == old(config.writeClearMask)
      ensures config.lastCapEnd == old(config.lastCapEnd) && config.lastExtCapOffset == old(config.lastExtCapOffset)
      ensures config.lastExtCapEnd == old(config.lastExtCapEnd)
      ensures config.remaps
           == old(config.remaps) + (if RemapBars in WriteActions(offset, |data|, Command(config.config)) then [config.config] else [])
      ensures RemapBars !in WriteActions(offset, |data|, Command(config.config)) ==>
                && ioRegion.subregions == old(ioRegion.subregions) && ioRegion.adds == old(ioRegion.adds)
                && memRegion.subregions == old(memRegion.subregions) && memRegion.adds == old(memRegion.adds)
      ensures parentBus.ioRegion.adds
           == old(parentBus.ioRegion.adds)
              + (if AddIoWindow in WriteActions(offset, |data|, Command(config.config)) then [(ioRegion, 0)] else [])
      ensures parentBus.memRegion.adds
           == old(parentBus.memRegion.adds)
              + (if AddMemWindow in WriteActions(offset, |data|, Command(config.config)) then [(memRegion, 0)] else [])
      ensures AddIoWindow !in WriteActions(offset, |data|, Command(config.config)) ==>
                parentBus.ioRegion.subregions == old(parentBus.ioRegion.subregions)
      ensures AddIoWindow in WriteActions(offset, |data|, Command(config.config)) ==>
                parentBus.ioRegion.subregions in
                      {old(parentBus.ioRegion.subregions), old(parentBus.ioRegion.subregions) + [(ioRegion, 0)]}
      ensures AddMemWindow !in WriteActions(offset, |data|, Command(config.config)) ==>
                parentBus.memRegion.subregions == old(parentBus.memRegion.subregions)
      ensures AddMemWindow in WriteActions(offset, |data|, Command(config.config)) ==>
                parentBus.memRegion.subregions in
                      {old(parentBus.memRegion.subregions), old(parentBus.memRegion.subregions) + [(memRegion, 0)]}
    {
      var size := |data|;
      var end := offset + size;
      if end > PCIE_CONFIG_SPACE_SIZE || size > 4 {
        assert WriteActions(offset, size, Command(config.config)) == [];
        return;
      }

      ApplyAcceptedWrite(offset, data);
      WriteActionsSteps(offset, size, Command(config.config));
    }

    /**
     * The accepted path of `write_config`: hand the bytes to `PciConfig::write`,
     * then re-map the BARs from the bytes as written, then install the windows.
     */
    method ApplyAcceptedWrite(offset: nat, data: seq<bv8>)
      requires Valid() && AccessAllowed(offset, |data|)
      modifies config, ioRegion`subregions, ioRegion`adds, memRegion`subregions, memRegion`adds
      modifies parentBus.ioRegion, parentBus.memRegion
      ensures Valid()
      ensures config.writes == old(config.writes) + [(offset, data)]
      ensures forall i :: 0 <= i < |config.config| && !InRange(i, offset, offset + |data|)
                ==> config.config[i] == old(config.config[i])
      ensures config.writeMask == old(config.writeMask) && config.writeClearMask == old(config.writeClearMask)
      ensures config.lastCapEnd == old(config.lastCapEnd) && config.lastExtCapOffset == old(config.lastExtCapOffset)
      ensures config.lastExtCapEnd == old(config.lastExtCapEnd)
      ensures config.remaps
           == old(config.remaps) + (if RemapBars in RemapActions(offset, offset + |data|) then [config.config] else [])
      ensures RemapBars !in RemapActions(offset, offset + |data|) ==>
                && ioRegion.subregions == old(ioRegion.subregions) && ioRegion.adds == old(ioRegion.adds)
                && memRegion.subregions == old(memRegion.subregions) && memRegion.adds == old(memRegion.adds)
      ensures parentBus.ioRegion.adds
           == old(parentBus.ioRegion.adds)
              + (if AddIoWindow in WindowActions(offset, offset + |data|, Command(config.config))
                 then [(ioRegion, 0)] else [])
      ensures parentBus.memRegion.adds
           == old(parentBus.memRegion.adds)
              + (if AddMemWindow in WindowActions(offset, offset + |data|, Command(config.config))
                 then [(memRegion, 0)] else [])
      ensures AddIoWindow !in WindowActions(offset, offset + |data|, Command(config.config)) ==>
                parentBus.ioRegion.subregions == old(parentBus.ioRegion.subregions)
      ensures AddIoWindow in WindowActions(offset, offset + |data|, Command(config.config)) ==>
                parentBus.ioRegion.subregions in
                      {old(parentBus.ioRegion.subregions), old(parentBus.ioRegion.subregions) + [(ioRegion, 0)]}
      ensures AddMemWindow !in WindowActions(offset, offset + |data|, Command(config.config)) ==>
                parentBus.memRegion.subregions == old(parentBus.memRegion.subregions)
      ensures AddMemWindow in WindowActions(offset, offset + |data|, Command(config.config)) ==>
                parentBus.memRegion.subregions in
                      {old(parentBus.memRegion.subregions), old(parentBus.memRegion.subregions) + [(memRegion, 0)]}
    {
      config.Write(offset, data, devId);
      RemapIfTouched(offset, offset + |data|);
      InstallWindowsIfTouched(offset, offset + |data|);
    }

    /**
     * The first side effect of `write_config`: call `update_bar_mapping` on the
     * current configuration bytes when COMMAND or a BAR was written.
     */
    method RemapIfTouched(offset: nat, end: nat)
      requires Valid()
      modifies config`remaps, ioRegion`subregions, ioRegion`adds, memRegion`subregions, memRegion`adds
      ensures config.remaps == old(config.remaps) + (if RemapBars in RemapActions(offset, end) then [config.config] else [])
      ensures RemapBars !in RemapActions(offset, end) ==>
                && ioRegion.subregions == old(ioRegion.subregions) && ioRegion.adds == old(ioRegion.adds)
                && memRegion.subregions == old(memRegion.subregions) && memRegion.adds == old(memRegion.adds)
    {
      if RangesOverlap(offset, end, COMMAND, COMMAND + 1)
         || RangesOverlap(offset, end, BAR_0, BAR_0 + REG_SIZE * 2)
      {
        var _ := config.UpdateBarMapping(ioRegion, memRegion);
      }
    }

    /**
     * The second side effect of `write_config`: when COMMAND or a window
     * register was written, read the Command register and ask the parent's
     * containers to install each window it enables.
     */
    method InstallWindowsIfTouched(offset: nat, end: nat)
      requires Valid()
      modifies parentBus.ioRegion, parentBus.memRegion
      ensures parentBus.ioRegion.adds
           == old(parentBus.ioRegion.adds)
              + (if AddIoWindow in WindowActions(offset, end, Command(config.config)) then [(ioRegion, 0)] else [])
      ensures parentBus.memRegion.adds
           == old(parentBus.memRegion.adds)
              + (if AddMemWindow in WindowActions(offset, end, Command(config.config)) then [(memRegion, 0)] else [])
      ensures AddIoWindow !in WindowActions(offset, end, Command(config.config)) ==>
                parentBus.ioRegion.subregions == old(parentBus.ioRegion.subregions)
      ensures AddIoWindow in WindowActions(offset, end, Command(config.config)) ==>
                parentBus.ioRegion.subregions in
                      {old(parentBus.ioRegion.subregions), old(parentBus.ioRegion.subregions) + [(ioRegion, 0)]}
      ensures AddMemWindow !in WindowActions(offset, end, Command(config.config)) ==>
                parentBus.memRegion.subregions == old(parentBus.memRegion.subregions)
      ensures AddMemWindow in WindowActions(offset, end, Command(config.config)) ==>
                parentBus.memRegion.subregions in
                      {old(parentBus.memRegion.subregions), old(parentBus.memRegion.subregions) + [(memRegion, 0)]}
    {
      if || RangesOverlap(offset, end, COMMAND, COMMAND + 1)
         || RangesOverlap(offset, end, IO_BASE, IO_BASE + 2)
         || RangesOverlap(offset, end, MEMORY_BASE, MEMORY_BASE + 20)
      {
        var command := LeReadU16(config.config, COMMAND).value;
        if command & COMMAND_IO_SPACE != 0 {
          var _ := parentBus.ioRegion.AddSubregion(ioRegion, 0);
        }
        if command & COMMAND_MEMORY_SPACE != 0 {
          var _ := parentBus.memRegion.AddSubregion(memRegion, 0);
        }
      }
    }

    /**
     * `realize`: sets up the masks and the header, then installs the
     * secondary bus's containers in the parent's, then plugs the port into the
     * parent bus at `devfn` unless that slot is taken. It is not atomic: a
     * taken slot is only found after both containers were installed, and
     * they stay installed.
     */
    method Realize() returns (r: Result<(), RealizeError>)
      requires Valid()
      modifies config, parentBus, parentBus.ioRegion, parentBus.memRegion, secBus
      ensures Valid()
      ensures devfn in old(parentBus.devices) ==> r.Failure?
      ensures r == Failure(DevfnInUse(devfn)) ==> devfn in old(parentBus.devices)
      ensures parentBus.parentBridge == old(parentBus.parentBridge)
      ensures secBus.devices == old(secBus.devices) && secBus.childBuses == old(secBus.childBuses)
      ensures r.Failure? ==>
                && parentBus.devices == old(parentBus.devices)
                && parentBus.childBuses == old(parentBus.childBuses)
      ensures r.Success? ==>
                && parentBus.devices == old(parentBus.devices)[devfn := this]
                && parentBus.childBuses == old(parentBus.childBuses) + [secBus]
                && secBus.parentBridge == Some(this)
      ensures (r.Success? || r == Failure(DevfnInUse(devfn))) ==>
                && parentBus.ioRegion.subregions == old(parentBus.ioRegion.subregions) + [(ioRegion, 0)]
                && parentBus.memRegion.subregions == old(parentBus.memRegion.subregions) + [(memRegion, 0)]
                && secBus.parentBridge == Some(this)
      ensures parentBus.ioRegion.subregions == old(parentBus.ioRegion.subregions) + [(ioRegion, 0)]
              && parentBus.memRegion.subregions == old(parentBus.memRegion.subregions) + [(memRegion, 0)]
              ==> (r.Success? <==> devfn !in old(parentBus.devices))
      ensures (&& parentBus.ioRegion.subregions == old(parentBus.ioRegion.subregions) + [(ioRegion, 0)]
               && parentBus.memRegion.subregions == old(parentBus.memRegion.subregions) + [(memRegion, 0)]
               && r.Failure?)
              ==> r == Failure(DevfnInUse(devfn))
      ensures r.Success? || r.error in {IoSubregion, MemSubregion, DevfnInUse(devfn)} ==>
                parentBus.ioRegion.adds == old(parentBus.ioRegion.adds) + [(ioRegion, 0)]
      ensures r.Success? || r.error in {MemSubregion, DevfnInUse(devfn)} ==>
                parentBus.memRegion.adds == old(parentBus.memRegion.adds) + [(memRegion, 0)]
      ensures (r.Success? || r.error !in {WriteMaskInit, WriteClearMaskInit}) ==>
                && |config.multifunctionInputs| == |old(config.multifunctionInputs)| + 1
                && config.multifunctionInputs[|old(config.multifunctionInputs)|] == BridgeHeader(old(config.config))
      ensures r.Failure? && r.error in {WriteMaskInit, WriteClearMaskInit} ==>
                config.multifunctionInputs == old(config.multifunctionInputs)
      ensures r.Failure? && r.error in {WriteMaskInit, WriteClearMaskInit, Multifunction, PcieCap, Msix} ==>
                && parentBus.ioRegion.adds == old(parentBus.ioRegion.adds)
                && parentBus.ioRegion.subregions == old(parentBus.ioRegion.subregions)
      ensures r.Failure? && r.error in {WriteMaskInit, WriteClearMaskInit, Multifunction, PcieCap, Msix, IoSubregion} ==>
                && parentBus.memRegion.adds == old(parentBus.memRegion.adds)
                && parentBus.memRegion.subregions == old(parentBus.memRegion.subregions)
    {
      var ok := config.InitWriteMask();
      if !ok { return Failure(WriteMaskInit); }
      ok := config.InitWriteClearMask();
      if !ok { return Failure(WriteClearMaskInit); }

      config.config := BridgeHeader(config.config);
      ok := config.InitMultifunction(multifunction, devfn);
      if !ok { return Failure(Multifunction); }
      ok := config.AddPcieCap(devfn, portNum, PCIE_DEV_TYPE_ROOT_PORT);
      if !ok { return Failure(PcieCap); }
      ok := config.InitMsix(0, 1);
      if !ok { return Failure(Msix); }

      ok := parentBus.ioRegion.AddSubregion(secBus.ioRegion, 0);
      if !ok { return Failure(IoSubregion); }
      ok := parentBus.memRegion.AddSubregion(secBus.memRegion, 0);
      if !ok { return Failure(MemSubregion); }

      secBus.parentBridge := Some(this);
      if devfn in parentBus.devices {
        return Failure(DevfnInUse(devfn));
      }
      parentBus.childBuses := parentBus.childBuses + [secBus];
      parentBus.devices := parentBus.devices[devfn := this];
      r := Success(());
    }

    /** The state `get_state_vec` saves. */
    function Snapshot(): (s: RootPortState)
      reads this, config
      requires Valid()
      ensures WellFormed(s)
    {
      RootPortState(config.config, config.writeMask, config.writeClearMask,
                    config.lastCapEnd, config.lastExtCapOffset, config.lastExtCapEnd)
    }

    /** `get_state_vec`: the byte image of the configuration space, both masks and the cursors. */
    method GetStateVec() returns (bytes: seq<bv8>)
      requires Valid()
      ensures bytes == AsBytes(Snapshot())
    {
      var configSpace := new bv8[PCIE_CONFIG_SPACE_SIZE](_ => 0);
      var writeMask := new bv8[PCIE_CONFIG_SPACE_SIZE](_ => 0);
      var writeClearMask := new bv8[PCIE_CONFIG_SPACE_SIZE](_ => 0);

      for idx := 0 to |config.config|
        invariant forall k :: 0 <= k < idx ==> configSpace[k] == config.config[k]
        invariant forall k :: 0 <= k < idx ==> writeMask[k] == config.writeMask[k]
        invariant forall k :: 0 <= k < idx ==> writeClearMask[k] == config.writeClearMask[k]
      {
        configSpace[idx] := config.config[idx];
        writeMask[idx] := config.writeMask[idx];
        writeClearMask[idx] := config.writeClearMask[idx];
      }
      assert configSpace[..] == config.config;
      assert writeMask[..] == config.writeMask;
      assert writeClearMask[..] == config.writeClearMask;
      var state := RootPortState(configSpace[..], writeMask[..], writeClearMask[..],
                                 config.lastCapEnd, config.lastExtCapOffset, config.lastExtCapEnd);
      assert state == Snapshot();
      bytes := AsBytes(state);
    }

    /**
     * `set_state_mut`: an image that does not decode changes nothing; one that
     * does replaces the configuration space and masks (cut to their current
     * length) and the three cursors. Restoring the image of the current state
     * changes nothing.
     */
    method SetStateMut(state: seq<bv8>) returns (r: Result<(), MigrationError>)
      requires Valid()
      modifies config
      ensures Valid()
      ensures r.Failure? <==> FromBytes(state).None?
      ensures r.Failure? ==> unchanged(config)
      ensures r.Success? ==>
                var s := FromBytes(state).value;
                && config.config == s.configSpace[..|old(config.config)|]
                && config.writeMask == s.writeMask[..|old(config.config)|]
                && config.writeClearMask == s.writeClearMask[..|old(config.config)|]
                && config.lastCapEnd == s.lastCapEnd
                && config.lastExtCapOffset == s.lastExtCapOffset
                && config.lastExtCapEnd == s.lastExtCapEnd
      ensures state == old(AsBytes(Snapshot())) ==> Snapshot() == old(Snapshot())
    {
      var decoded := FromBytes(state);
      if decoded.None? {
        return Failure(FromBytesError("ROOT_PORT"));
      }
      var s := decoded.value;
      var length := |config.config|;
      config.config := s.configSpace[..length];
      config.writeMask := s.writeMask[..length];
      config.writeClearMask := s.writeClearMask[..length];
      config.lastCapEnd := s.lastCapEnd;
      config.lastExtCapEnd := s.lastExtCapEnd;
      config.lastExtCapOffset := s.lastExtCapOffset;
      r := Success(());
      if state == old(AsBytes(Snapshot())) {
        FromBytesAsBytes(old(Snapshot()));
      }
    }
  }
}
