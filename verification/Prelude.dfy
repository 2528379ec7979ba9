/**
 What several parts of the model share.
 */
module Prelude {

  /** `VIDEO_MAX_PLANES` of the V4L2 interface. */
  const VIDEO_MAX_PLANES: nat := 8
  const PAGE_SIZE: nat := 0x1000
  const U32_END: nat := 0x1_0000_0000

  datatype Option<T> = None | Some(value: T)
  {
    predicate IsFailure() {
      None?
    }

    function PropagateFailure<U>(): (r: Option<U>)
      requires None?
    {
      None
    }

    function Extract(): (r: T)
      requires Some?
    {
      value
    }
  }
}
