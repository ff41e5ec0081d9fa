/** Optional values and results, and the Python exceptions that the program raises. */
module Wrappers {

  datatype Option<+T> = None | Some(value: T)

  datatype Result<+R, +E> = Success(value: R) | Failure(error: E)

  /** The exceptions that can end (or, for the input checks, be caught by) a run. */
  datatype Error =
    | InvalidLiteral(token: string)  // ValueError from int(): the token is not an integer literal
    | WrongCount(count: nat)        // ValueError raised by the input check: not exactly six values
    | IndexOutOfRange               // IndexError: the last row of an empty table was asked for
    | ZeroDivision                  // ZeroDivisionError: the average of an empty column
    | Overflow                      // OverflowError: an average or forecast too large for a float
    | EndOfInput                    // EOFError: the console closed before a valid line was read

  function Min(a: int, b: int): int
  {
    if a <= b then a else b
  }

  /** s[-1] */
  function Last<T>(s: seq<T>): T
    requires |s| > 0
  {
    s[|s| - 1]
  }
}
