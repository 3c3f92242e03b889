/** The buffer policy of a captured stream. */
module OutputPolicy {
  import opened Wrappers

  datatype OverflowMode = DropOldest | DropNewest | Error

  datatype Policy = Policy(maxLines: Option<nat>, maxBytes: Option<nat>, overflow: OverflowMode)
}
