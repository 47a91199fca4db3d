/** Names shared by the carrier modules. */
module Tasks {

  /** A slab slot; owned and borrowed tasks live in separate slabs. */
  datatype TaskKey = TaskKey(index: nat, borrowed: bool)
}
