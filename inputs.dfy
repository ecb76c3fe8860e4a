/** Values that cross the input boundary of the two widgets. */
module Inputs {

  /** A piece of state that holds either a number or the empty string `""`. */
  datatype Option<T> = None | Some(value: T)

  /** What converting the text of a numeric input field yields (`Number(...)` in the
      countdown timer, `parseInt(...)` in the guessing game), restricted to integers:
      either `NaN` or an integer. The empty field converts to `Num(0)` under `Number`
      and to `NaN` under `parseInt`. */
  datatype Parsed = NaN | Num(n: int)
}
