/**
 * The parts of a PCI bus that a root port reads and changes: the devices
 * plugged into it by device/function number, the buses behind its bridges,
 * the bridge it hangs from, and its I/O and memory containers.
 *
 * pci/src/bus.rs is not part of this model; the reference-counted, locked
 * sharing of buses is reduced to plain object references.
 */
module PciBus {
  import opened Wrappers
  import AddressSpace

  class Bus {
    const name: string
    const ioRegion: AddressSpace.Region
    const memRegion: AddressSpace.Region
    /** `devices`: the device plugged in at each devfn (device << 3 | function). */
    var devices: map<bv8, object>
    /** `child_buses`: the secondary buses of the bridges on this bus. */
    var childBuses: seq<Bus>
    /** `parent_bridge`: the bridge this bus sits behind, if any. */
    var parentBridge: Option<object>

    /** `PciBus::new(name, io_region, mem_region)`: an empty bus. */
    constructor (name: string, ioRegion: AddressSpace.Region, memRegion: AddressSpace.Region)
      ensures this.name == name && this.ioRegion == ioRegion && this.memRegion == memRegion
      ensures devices == map[] && childBuses == [] && parentBridge == None
    {
      this.name := name;
      this.ioRegion := ioRegion;
      this.memRegion := memRegion;
      devices := map[];
      childBuses := [];
      parentBridge := None;
    }
  }
}
