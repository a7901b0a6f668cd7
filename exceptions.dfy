/** The Python exceptions the policy container can raise, and a result
    type that carries either a value or one of them. */
module Exceptions {

  /** Exceptions raised by the container or by the library calls it makes. */
  datatype Error =
    | KeyError(key: string)   // `self.augmentations[item]` with an unregistered name
    | ZeroDivisionError       // a YOLO coordinate divided by an image side of length 0
    | IndexError              // `random.choice` on an empty list of policies

  datatype Result<+T> = Ok(value: T) | Err(error: Error)
}
