/** SQL values: nullable columns and three-valued truth. */
module Sql {
  datatype Option<+T> = None | Some(value: T)

  /** The result of a comparison that may meet NULL. */
  datatype Truth = True | False | Unknown {
    function And(that: Truth): Truth {
      if this.False? || that.False? then False
      else if this.True? && that.True? then True
      else Unknown
    }

    function Or(that: Truth): Truth {
      if this.True? || that.True? then True
      else if this.False? && that.False? then False
      else Unknown
    }

    function Not(): Truth {
      match this
      case True => False
      case False => True
      case Unknown => Unknown
    }

    /** A CHECK constraint rejects a row only when its condition is definitely false. */
    predicate Passes() { this != False }

    /** An `if` or `where` acts only when its condition is definitely true. */
    predicate Holds() { this == True }
  }

  function Of(b: bool): Truth { if b then True else False }

  /** `a = b` */
  function Eq<T(==)>(a: Option<T>, b: Option<T>): Truth {
    if a.None? || b.None? then Unknown else Of(a.value == b.value)
  }
}
