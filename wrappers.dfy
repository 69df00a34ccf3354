/** Small value wrappers shared by the modules of this model. */
module Wrappers {

  /** PHP `null` versus a present value. */
  datatype Option<+T> = None | Some(value: T)

  /**
   * A memo slot whose "known absent" state is distinct from "not yet computed":
   * the PHP source stores `false` for `Absent` and leaves the property `null`
   * (so that `isset` is false) for `Unset`.
   */
  datatype Cached<+T> = Unset | Absent | Present(value: T)
}
