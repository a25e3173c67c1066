/** Values shared by the builders, the search and the report: a problem instance,
    and the Option/Result wrappers that carry the builders' error paths. */
module Instances {

  /** A subset-sum problem: the candidate integers, in the order the search visits
      them, and the sum a selection must reach. */
  datatype Instance = Instance(elements: seq<int>, target: int)

  datatype Option<T> = None | Some(value: T)

  datatype Result<T, E> = Ok(value: T) | Err(error: E)

  /** Why a builder refused its input. */
  datatype BuildError =
    | NonPositiveSize   // random size n <= 0 ("SSP size cannot be nonpositive")
    | SizeTooSmall      // random size 0 < n <= 2 ("SSP size is too small")
    | Malformed         // instance text fails a line, size, target or element check
    | NotANumber        // a JavaScript parse whose value would be NaN
}
