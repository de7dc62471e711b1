/** Small result types shared by every module. */
module Wrappers {

  datatype Option<+T> = None | Some(value: T)

  /** What a read statement answers: a row, no row, or an infrastructure error. */
  datatype Lookup<+T> = Hit(value: T) | Miss | Down
}
