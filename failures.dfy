/** Error values for the exceptions the helper can raise, and the wrappers that carry them. */
module Failures {

  datatype Option<T> = None | Some(value: T)

  /** The failures the helper surfaces, each standing for a Python exception it lets escape. */
  datatype Error =
    | UnparsableName     // float() raised ValueError on a filename's scale-factor field
    | EmptyIndex         // argmin over the keys of an empty dict (ValueError)
    | MissingKey         // a dict lookup raised KeyError
    | MissingEntry       // sim_data[halo_id][model][0] raised IndexError
    | EmptyMainBranch    // no main branch to match: TypeError on the default list [], or argmin's ValueError on an empty array
    | DivisionByZero     // 1.0 / (1.0 + z) with z == -1
    | BinsNotMonotonic   // np.histogram rejects bin edges that decrease

  datatype Result<T> = Ok(value: T) | Err(error: Error)

  datatype Outcome = Pass | Fail(error: Error)
}
