/** The optional-value datatype shared by the MIDI and countdown models. */
module Wrappers {

  /** `None` stands for Python's `None` (or "no event"); `Some` carries a value. */
  datatype Option<+T> = None | Some(value: T)
}
