/**
 * The part of the address-space tree that a PCIe root port touches: container
 * regions and the subregions installed in them.
 *
 * The address_space crate is not part of this model. A region is reduced to
 * its size and the list of `(child, offset)` entries installed in it, and
 * `add_subregion` to its contract: it either installs the entry or fails and
 * leaves the region as it was. Nothing is assumed about when it fails, and
 * installing the same child twice is not assumed to be harmless.
 */
module AddressSpace {

  class Region {
    /** The size given when the container was created. */
    const size: nat
    /** The `(child, offset)` entries installed so far, oldest first. */
    var subregions: seq<(Region, nat)>
    /** Every `(child, offset)` that `add_subregion` was asked to install, successful or not. */
    ghost var adds: seq<(Region, nat)>

    /** `Region::init_container_region(size)`: an empty container. */
    constructor InitContainer(size: nat)
      ensures this.size == size && subregions == [] && adds == []
    {
      this.size := size;
      subregions := [];
      adds := [];
    }

    /**
     * `add_subregion(child, offset)`: the request is recorded in `adds`; on
     * success the entry is appended, on failure the installed entries are
     * unchanged.
     */
    method AddSubregion(child: Region, offset: nat) returns (ok: bool)
      modifies this
      ensures adds == old(adds) + [(child, offset)]
      ensures ok ==> subregions == old(subregions) + [(child, offset)]
      ensures !ok ==> subregions == old(subregions)
    {
      adds := adds + [(child, offset)];
      subregions := subregions + [(child, offset)];
      ok := true;
    }
  }
}
