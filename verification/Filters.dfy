/** What several of the base classes share. */
module Filters {
  /** The time that stands for never. */
  const MAX_TIME: int := 0x7FFF_FFFF_FFFF_FFFF

  datatype FilterState = Stopped | Paused | Running
}
