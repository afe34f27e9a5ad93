/** The usual present-or-absent wrapper, used for `safe_root: Path | None`. */
module Wrappers {

  datatype Option<+T> = None | Some(value: T)
}
