/** SQL's three-valued logic, as far as the trigger conditions of migration 019 use it. */
module Sql {
  import opened Texts

  datatype Dialect = Postgres | Sqlite

  datatype Truth = True | False | Unknown

  function Of(b: bool): Truth { if b then True else False }

  function Not(a: Truth): Truth { match a case True => False case False => True case Unknown => Unknown }

  /** `a AND b`. */
  function Both(a: Truth, b: Truth): Truth
  {
    if a == False || b == False then False else if a == Unknown || b == Unknown then Unknown else True
  }

  /** `a OR b`. */
  function Either(a: Truth, b: Truth): Truth { Not(Both(Not(a), Not(b))) }

  /** `a = b`. */
  function Eq<T(==)>(a: Option<T>, b: Option<T>): Truth { if a.None? || b.None? then Unknown else Of(a == b) }

  /** `a <> b`, `a != b`. */
  function Ne<T(==)>(a: Option<T>, b: Option<T>): Truth { Not(Eq(a, b)) }

  /** `a IS DISTINCT FROM b` in PostgreSQL, `a IS NOT b` in SQLite. */
  function Differs<T(==)>(a: Option<T>, b: Option<T>): Truth { Of(a != b) }

  function IsNull<T(==)>(a: Option<T>): Truth { Of(a.None?) }

  /** A boolean column as a condition; booleans are stored as integers. */
  function Flag(a: Option<int>): Truth { if a.None? then Unknown else Of(a.value != 0) }
}
