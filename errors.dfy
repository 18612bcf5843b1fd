/** The exceptions raised by the HEALPix operators. */
module Errors {

  datatype Error =
      /** `TypeError`: the convention argument is not a string; `given` is its
          `str()`, which the message quotes. */
    | ConventionNotAString(given: string)
      /** `ValueError`: the convention, once normalised, is none of the legal
          values; the message quotes the argument as given and enumerates
          `expected`. */
    | InvalidConvention(given: string, expected: seq<string>)
      /** `ValueError` raised by a shape validator, with its message. */
    | InvalidShape(message: string)
}
