# StratoVirt: word arithmetic and the PCIe root port

This project is a Dafny model of two parts of the StratoVirt virtual machine monitor, with proofs about the model.

- **Alignment and bit-field helpers** (`util/src/num_ops.rs`).
  - `round_up` and `round_down` align a `u64`.
  - `read_u32` and `write_u32` select or place one 32-bit half of a `u64`.
  - `extract_u32` and `extract_u64` read a bit field.
  - `deposit_u32` writes a bit field.
- **The PCI Express root port** (`pci/src/root_port.rs`). This is the PCI-to-PCI bridge that a guest sees at the top of a PCIe hierarchy. The model covers:
  - the configuration-space front end: the access guard of `read_config` and `write_config`, and the side effects a configuration write triggers;
  - `realize`: header programming, and plugging the port into its parent bus;
  - the migration codec of `RootPortState`.

Modules:

- `Bits`: Rust's unsigned `>>`, `<<`, `!`, `&` and `|` on naturals.
  - `&` and `|` have digit-by-digit lemmas (`AndBit`, `OrBit`), and `>>` is tied to digits by `BitHalf` and `ShrShr`.
  - `!` and `<<` are related only to the high/field/low split of a word, for the masks and shifted values the bit-field helpers build (`NotFieldMaskParts`, `ShiftedFieldParts`).
- `NumOps`: the seven helpers, each written with the source's own expression over `Bits`.
  - Contracts state what each result means: the least or greatest multiple, the high/field/low decomposition of a word, and which bits a deposit keeps.
  - Lemmas give the round trips: extract after deposit, deposit of a word's own field, and reading back a written half.
- `PciConfig`: the register offsets and constants the root port uses, little-endian 16-bit access to a byte buffer, half-open range overlap, and the configuration-space object. The offsets are those of:
  - the common header in section 6.2 of the PCI Local Bus Specification 3.0;
  - the Type 1 header in section 3.2 of the PCI-to-PCI Bridge Architecture Specification 1.2.
- `AddressSpace` and `PciBus`: the container regions and the bus object, reduced to what the root port reads and changes.
- `PciRootPort`: `RootPortState` with its byte codec, the write side-effect function `WriteActions`, the header programming `BridgeHeader`, and the class `RootPort`.
  - `WriteConfig` is proved to make exactly the calls `WriteActions` names. Each stand-in operation records its own calls: `write` logs its arguments in the ghost field `writes`, `update_bar_mapping` logs the configuration bytes it sees in `remaps`, `init_multifunction` logs the bytes it is given in `multifunctionInputs`, and `add_subregion` logs each request in `adds`.
  - `GetStateVec` is proved to produce `AsBytes` of the current state.
  - `SetStateMut` is proved to restore that state from its own image.

## Model

| member | source | states |
|---|---|---|
| NumOps.CheckedAdd | util/src/num_ops.rs:34 | `checked_add` on `u64` is `Some(a + b)` exactly when the sum fits in 64 bits |
| NumOps.CheckedSub | util/src/num_ops.rs:57 | `checked_sub` on `u64` is `Some(a - b)` exactly when `b <= a` |
| NumOps.RoundUp | util/src/num_ops.rs:31-36 | the result is `Some(origin)` iff `origin` is already aligned; any `Some` result is a multiple of `align` in `[origin, origin + align)`; the result is `None` iff the next multiple exceeds `u64::MAX` |
| NumOps.RoundUpIsLeast | util/src/num_ops.rs:31-36 | no multiple of `align` at least `origin` is smaller than `round_up`'s result |
| NumOps.RoundDown | util/src/num_ops.rs:54-59 | never `None`; `Some(origin)` iff aligned; the result is a multiple of `align` in `(origin - align, origin]` |
| NumOps.RemainderBelow | util/src/num_ops.rs:55-57 | `origin - origin % align` cannot underflow and is a multiple of `align` |
| NumOps.RoundDownIsGreatest | util/src/num_ops.rs:54-59 | no multiple of `align` at most `origin` is larger than `round_down`'s result |
| NumOps.RoundingExamples | util/src/num_ops.rs:28-29 | the doc and test examples: 1003 and 10001 round up to 1004 and 10100, and down to 1000 and 10000 (also lines 51-52 and 216-225) |
| NumOps.ReadU32 | util/src/num_ops.rs:77-83 | any page other than 0 or 1 reads 0 |
| NumOps.WriteU32 | util/src/num_ops.rs:102-108 | any page other than 0 or 1 gives 0 |
| NumOps.WriteHighHalf | util/src/num_ops.rs:105 | page 1 places `value` in the high half with nothing lost: the result is `value * 2^32` |
| NumOps.U32Halves | util/src/num_ops.rs:77-83 | a word is its page-1 half times 2^32 plus its page-0 half |
| NumOps.ReadWriteU32 | util/src/num_ops.rs:77-108 | for pages 0 and 1, reading back the half just written gives the written value |
| NumOps.WriteU32OtherHalf | util/src/num_ops.rs:102-108 | writing one half leaves the other half zero |
| NumOps.U32HalvesJoin | util/src/num_ops.rs:77-108 | or-ing the two written halves of a word rebuilds the word |
| NumOps.HalvesExamples | util/src/num_ops.rs:74-75 | the doc and test examples of `read_u32` and `write_u32`, including page 2 giving 0 (also lines 99-100 and 227-240) |
| NumOps.Decompose | util/src/num_ops.rs:110-113 | every word is the composition of its bits above the field, the field, and its bits below the field |
| NumOps.ComposeParts | util/src/num_ops.rs:110-113 | the decomposition is unique: each part of a composition is recovered by shifting and masking |
| NumOps.ComposeBelow | util/src/num_ops.rs:110-113 | parts that fit their widths compose to a word of the given width |
| NumOps.AndCompose | util/src/num_ops.rs:139 | `&` of two composed words acts on the high parts, the fields and the low parts separately |
| NumOps.OrCompose | util/src/num_ops.rs:208 | bitwise or of two composed words acts on the three parts separately |
| NumOps.ExtractIsField | util/src/num_ops.rs:139 | `(value >> start) & (!0 >> (w - length))` is the low `length` bits of `value >> start` |
| NumOps.Extract32 | util/src/num_ops.rs:130-140 | `None` iff `length > 32 - start`; otherwise a value below `2^length` that is exactly the field of `value` between its high and low parts |
| NumOps.Extract64 | util/src/num_ops.rs:162-172 | the same contract at width 64 |
| NumOps.ExtractIsLowOfShift | util/src/num_ops.rs:130-140 | a valid extract is `(value >> start) mod 2^length` |
| NumOps.ExtractExamples | util/src/num_ops.rs:127-128 | `extract_u32(0xfffa, 0, 8)` is `0xfa`, and `extract_u64(0xfbfba0a0ffff5a5a, 16, 16)` is `0xffff` (also lines 159-160) |
| NumOps.FieldMask | util/src/num_ops.rs:207 | the mask `(!0 >> (w - length)) << start` fits the word |
| NumOps.FieldMaskParts | util/src/num_ops.rs:207 | the mask has `length` one bits from `start` and zeros elsewhere |
| NumOps.NotFieldMaskParts | util/src/num_ops.rs:208 | `!mask` has ones outside the field and zeros within it |
| NumOps.ShiftedFieldParts | util/src/num_ops.rs:208 | `fieldval << start` keeps the low bits of `fieldval` at the field and drops bits past the word |
| NumOps.KeptParts | util/src/num_ops.rs:208 | `value & !mask` keeps `value`'s high and low parts and clears the field |
| NumOps.PlacedParts | util/src/num_ops.rs:208 | `(fieldval << start) & mask` is the low `length` bits of `fieldval`, placed at the field |
| NumOps.DepositIsReplace | util/src/num_ops.rs:207-208 | the deposit expression replaces the field and keeps everything else |
| NumOps.Deposit32 | util/src/num_ops.rs:198-209 | `None` iff `length > 32 - start`; otherwise `value` with its field replaced by the low `length` bits of `fieldval` |
| NumOps.DepositKeepsOutside | util/src/num_ops.rs:174-180 | bits of `value` outside the field are not modified |
| NumOps.ExtractAfterDeposit | util/src/num_ops.rs:130-209 | extracting a just-deposited field gives `fieldval mod 2^length` |
| NumOps.DepositOwnField | util/src/num_ops.rs:130-209 | depositing a word's own field back gives the word |
| NumOps.DepositExample | util/src/num_ops.rs:195-196 | `deposit_u32(0xffff, 0, 8, 0xbaba)` is `0xffba` |
| Bits.AndBit | util/src/num_ops.rs:139 | bit `i` of `x & y` is set iff it is set in both |
| Bits.OrBit | util/src/num_ops.rs:208 | bit `i` of `x or y` is set iff it is set in either |
| PciConfig.U16Bytes | pci/src/root_port.rs:122-124 | a `u16` is stored as two bytes, low byte first, that read back as the value |
| PciConfig.LeReadU16 | pci/src/root_port.rs:223 | fails iff the two bytes are not both in the buffer; on success its value is stored as exactly those two bytes |
| PciConfig.LeWriteU16 | pci/src/root_port.rs:122-124 | fails iff out of bounds; on success the length is kept, the value reads back, and every other byte is unchanged |
| PciConfig.LeWriteWhatWasRead | pci/src/root_port.rs:122-124 | writing back the value just read leaves the buffer unchanged |
| PciConfig.RangesOverlapMeans | pci/src/root_port.rs:203-204 | `ranges_overlap` holds iff some position lies in both half-open ranges (it is also used at lines 214-221) |
| PciConfig.Config.constructor | pci/src/root_port.rs:94 | a configuration space of the given size with masks of the same length |
| PciConfig.Config.Read | pci/src/root_port.rs:188 | `data` receives the configuration bytes at `offset` |
| PciConfig.Config.Write | pci/src/root_port.rs:202 | each call is logged with its offset and data; only the addressed bytes may change; the masks, the cursors, the length and the other logs are kept |
| PciConfig.Config.UpdateBarMapping | pci/src/root_port.rs:206-212 | each call is logged with the configuration bytes it reads the BARs and the Command register from; besides, only the port's two containers may change (the subregions requested of them and those installed), so the configuration bytes, masks and cursors are kept |
| PciConfig.Config.InitWriteMask | pci/src/root_port.rs:107-110 | the configuration bytes and the `init_multifunction` log are not changed |
| PciConfig.Config.InitWriteClearMask | pci/src/root_port.rs:112-115 | the configuration bytes and the `init_multifunction` log are not changed |
| PciConfig.Config.InitMultifunction | pci/src/root_port.rs:128-133 | each call is logged with the configuration bytes it is given; the space keeps its length and mask lengths |
| PciConfig.Config.AddPcieCap | pci/src/root_port.rs:134-135 | the space keeps its length and mask lengths; the `init_multifunction` log is not changed |
| PciConfig.Config.InitMsix | pci/src/root_port.rs:137 | the space keeps its length and mask lengths; the `init_multifunction` log is not changed |
| AddressSpace.Region.InitContainer | pci/src/root_port.rs:81-82 | an empty container of the given size |
| AddressSpace.Region.AddSubregion | pci/src/root_port.rs:142-149 | every request is logged in `adds`; on success the `(child, offset)` entry is appended to the installed entries; on failure they are unchanged (also called at lines 226-247) |
| PciBus.Bus.constructor | pci/src/root_port.rs:83-88 | the secondary bus has the port's name and containers, no devices, no child buses and no parent bridge |
| PciRootPort.AsBytes | pci/src/root_port.rs:39-47 | the state's image has 3 * 4096 + 6 bytes |
| PciRootPort.FromBytes | pci/src/root_port.rs:278-279 | decoding succeeds iff the image has the size of the state, and gives arrays of 4096 bytes |
| PciRootPort.FromBytesAsBytes | pci/src/root_port.rs:39-47 | decoding an encoded state gives the state back |
| PciRootPort.AsBytesFromBytes | pci/src/root_port.rs:39-47 | encoding a decoded image gives the image back |
| PciRootPort.GuardExamples | pci/src/root_port.rs:308-343 | the tests' accesses: four bytes at offset 4095 are refused, one byte is accepted |
| PciRootPort.Command | pci/src/root_port.rs:223 | the Command register is the `u16` stored at bytes 4 and 5 |
| PciRootPort.CommandEnableBits | pci/src/root_port.rs:224-239 | the I/O Space and Memory Space enables are bits 0 and 1 of the byte at COMMAND |
| PciRootPort.RemapTriggeredBytes | pci/src/root_port.rs:203-204 | a write re-maps the BARs iff it covers the low Command byte or a byte of BAR 0 or BAR 1 |
| PciRootPort.WindowTriggeredBytes | pci/src/root_port.rs:214-222 | a write re-installs windows iff it covers the low Command byte, the I/O base or limit byte, or one of the 20 bytes from MEMORY_BASE |
| PciRootPort.WriteActions | pci/src/root_port.rs:191-253 | an accepted write re-maps the BARs iff it triggers a re-map; it installs the I/O or memory window iff it triggers windows and that enable bit is set in the Command register as it reads after the write; a refused write does nothing; the attempts come in source order |
| PciRootPort.WriteActionsSteps | pci/src/root_port.rs:203-253 | an accepted write re-maps first and then installs windows |
| PciRootPort.RemapActions | pci/src/root_port.rs:203-213 | the re-map step installs no window |
| PciRootPort.WindowActions | pci/src/root_port.rs:214-253 | the window step does not re-map; the I/O window comes before the memory window |
| PciRootPort.BridgeHeader | pci/src/root_port.rs:121-127 | after programming, the header reads vendor Red Hat, device 0x000c, class PCI-to-PCI bridge and header type 1, with 64-bit prefetchable base and limit; every other byte is unchanged |
| PciRootPort.RootPort.constructor | pci/src/root_port.rs:73-103 | fresh containers of sizes 2^16 and `u64::MAX`, a fresh empty secondary bus sharing them, a 4096-byte configuration space, and device id 0 |
| PciRootPort.RootPort.ReadConfig | pci/src/root_port.rs:178-189 | a refused access leaves `data` untouched; an accepted one fills it with the addressed configuration bytes |
| PciRootPort.RootPort.WriteConfig | pci/src/root_port.rs:191-254 | a refused write changes nothing; an accepted one is handed to `PciConfig::write` exactly once, changes only the addressed bytes and never the masks or cursors; it calls `update_bar_mapping` once, on the configuration bytes as written, if `WriteActions` names `RemapBars` and not at all otherwise; it asks the parent's I/O (memory) container to add the port's I/O (memory) container exactly when `WriteActions` names that window; the port's containers change only with a re-map; a parent container gains only the requested window, or stays as it was if installing it fails |
| PciRootPort.RootPort.RemapIfTouched | pci/src/root_port.rs:203-213 | `update_bar_mapping` is called once, on the current configuration bytes, iff the write overlaps the low Command byte or the BARs; otherwise the port's containers and their request logs are unchanged |
| PciRootPort.RootPort.ApplyAcceptedWrite | pci/src/root_port.rs:202-253 | an accepted write is handed to `PciConfig::write`; the BARs are re-mapped from the bytes as written iff `RemapActions` says so, and requests each window iff `WindowActions` names it for the Command register as it now reads |
| PciRootPort.RootPort.InstallWindowsIfTouched | pci/src/root_port.rs:214-253 | `add_subregion` is called on the parent's container for a window exactly when `WindowActions` names it, and a failed addition leaves the container unchanged |
| PciRootPort.RootPort.Realize | pci/src/root_port.rs:117-176 | Unless a mask helper fails first, `init_multifunction` is called once, on the configuration bytes as the header programming (`BridgeHeader`) leaves them. A taken devfn always makes `realize` fail, and a `DevfnInUse` failure means the devfn was taken. Once both containers are installed, it succeeds iff the devfn was free, and any failure is `DevfnInUse`. A failure leaves the parent's devices and child buses unchanged. Success plugs the port in at its devfn and appends the secondary bus. On success and on a devfn conflict, both containers have been installed in the parent's and the secondary bus points back at the port, so realization is not atomic. Each earlier failure stops before the container requests that follow it. The parent's own parent bridge and the secondary bus's devices and child buses are untouched |
| PciRootPort.RootPort.Snapshot | pci/src/root_port.rs:263-272 | the state the port saves has arrays of 4096 bytes |
| PciRootPort.RootPort.GetStateVec | pci/src/root_port.rs:262-275 | the copy loop produces the image of the current configuration, masks and cursors |
| PciRootPort.RootPort.SetStateMut | pci/src/root_port.rs:277-290 | fails iff the image does not decode, and then changes nothing; otherwise it replaces the configuration and masks (cut to the current length) and the three cursors; restoring the port's own image gives back the same state |

## Left out

- **Integer model.** Rust's fixed-width integers are modelled as bounded naturals, and the bitwise operators as arithmetic on them (module `Bits`). Width truncation is written out where the source shifts left.
- **Panics as preconditions.** Where the source would panic, the model has a precondition instead:
  - `RoundUp` and `RoundDown` require `align > 0`, because `origin % 0` panics.
  - `Extract32`, `Extract64` and `Deposit32` require `start <= width`, because `32 - start` (or `64 - start`) underflows.
  - They also require `length > 0`, because `!0 >> 32` overflows the shift. A release build would mask that shift; that behaviour is not modelled.
- **`error!` logging.** The messages logged by the helpers and by the root port are not modelled.
- **`usize` overflow.** The model does not capture overflow of `offset + size` in `read_config` and `write_config`; offsets are unbounded naturals.
- **`RootPort::name` and `get_device_alias`.** These return the stored name and a `MigrationManager` registry lookup. There is nothing to state about them beyond the stored field, and the registry is global state outside this model.
- **Registration with `MigrationManager`** at the end of `realize` is not modelled.
- **`Arc`, `Mutex` and `Weak`.** Shared and locked references are plain object references. `parent_bus.upgrade().unwrap()` is assumed to succeed, and the lock/drop ordering of `realize` is not modelled.
- **Other architectures.** The model follows the x86_64 build, where the port owns an I/O container; the other configuration has none.
- **Operations defined elsewhere.** pci/src/config.rs, pci/src/msix.rs, pci/src/lib.rs, pci/src/bus.rs and the address_space crate are not part of this model.
  - Their operations have contracts limited to what the root port relies on, and their bodies are stand-ins.
  - This covers `PciConfig::read`, `PciConfig::write`, `update_bar_mapping`, the `init_*_mask` helpers, `init_multifunction`, `add_pcie_cap`, `init_msix`, `Region::add_subregion`, `le_read_u16`, `le_write_u16` and `ranges_overlap`.
  - No masking formula is claimed for `write`. When `add_subregion` fails is not assumed, and neither is whether re-installing a region is harmless.
  - Failures of the stand-ins are exposed as boolean results, so the error paths of `realize` through them are kept.
  - The three `le_write_u16` calls of the header programming can fail only on a buffer shorter than the header. The root port's space always has 4096 bytes, so `BridgeHeader` has no error path.
- **`ranges_overlap`** is assumed to mean that the half-open ranges intersect; an empty range overlaps nothing.
- **`RootPortState` layout.** `ByteCode::as_bytes` and `from_bytes` are assumed to lay the fields out in declaration order, with no padding and little-endian `u16`s. `from_bytes` is assumed to succeed exactly when the length is 3 * 4096 + 6.
- **Configuration space size.** `GetStateVec` and `SetStateMut` assume the configuration space has its PCI Express size of 4096 bytes, which `RootPort::new` gives it. A longer space makes the source's copy loop panic and is not modelled.
- **Capability cursors.** The initial cursor values that `PciConfig::new` sets are not modelled; the stand-in constructor zeroes them.
- `PciConfig.Config.UpdateBarMapping`: states only that the call is logged with the bytes it sees. The model assumes it changes nothing but the port's own two containers (what it asks them to install and what they install): the configuration bytes, masks and cursors are kept. The BAR bookkeeping inside `PciConfig` that the source updates is not modelled, and neither is which entries it installs.
- **Order of calls in `write_config`.** `WriteActions` lists the side effects in source order: re-mapping first, then the I/O window, then the memory window. The `update_bar_mapping` log records the bytes each call sees, so the write is proved to come before the re-map. The re-map and the window requests are logged on different objects, so the model does not prove that the re-map comes before the window requests.
- `PciRootPort.BridgeHeader`: requires the space to reach `PREF_MEMORY_LIMIT`, where the source would panic on a shorter buffer. The root port's space is always 4096 bytes.
- `PciConfig.Config.InitMultifunction`: states only that the call is logged with its input and that lengths are kept. The multi-function bit it may set lives in pci/src/config.rs, which is not part of this model. The same holds for `PciConfig.Config.AddPcieCap` and `PciConfig.Config.InitMsix`.
- `PciRootPort.RootPort.Realize`: does not state the header bytes after realization, because the later stand-ins (`init_multifunction`, the capability setup) may change the header. `BridgeHeader` states what the header programming itself writes, and `Realize` states that those bytes are what `init_multifunction` receives.
