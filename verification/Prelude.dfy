/** Small datatypes shared by the models. */
module Prelude {

  /** A value that may be absent: the program's `undefined` or `null`. */
  datatype Option<+T> = None | Some(value: T) {
    /** JavaScript's `value ?? default`. */
    function GetOr(default: T): T {
      match this
      case Some(v) => v
      case None => default
    }
  }

  /** The characters JavaScript's trim() and \s treat as white space. */
  predicate Space(c: char) {
    c in {' ', '\t', '\n', '\r', '\U{000B}', '\U{000C}', '\U{00A0}', '\U{FEFF}', '\U{1680}', '\U{2028}', '\U{2029}',
          '\U{202F}', '\U{205F}', '\U{3000}'} || '\U{2000}' <= c <= '\U{200A}'
  }

  /** Nothing is left after trimming. */
  predicate Blank(s: string) { forall c | c in s :: Space(c) }
}
