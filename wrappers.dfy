/** Error results for the operations that Python would abort with an
    exception. */
module Wrappers {

  /** The only exception the modelled code can raise on valid input. */
  datatype Error = ZeroDivision

  datatype Result<T> = Ok(value: T) | Err(error: Error)

}
