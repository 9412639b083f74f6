/** The outcome shared by the model validators of the main backend: each
    either returns the record it was given or raises `BadRequestError` with a
    message. The error module those validators import defines no such class,
    so that error is modelled abstractly, by its message. `Raised` is any
    other exception the checks themselves raise. */
module Validation {

  datatype Checked<+T> = Valid(value: T) | Rejected(message: string) | Raised(exception: string)
}
