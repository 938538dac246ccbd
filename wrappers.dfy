/** Values shared by every part of the model: an optional value, and the errors that
    Go functions return instead of `nil`. */
module Wrappers {

  datatype Option<+T> = None | Some(value: T)

  /** A Go `error`. `Failed` is an error reported by a collaborator outside the model
      (GitHub, the permission service, an effect); `Wrapped` is an error re-created
      with `fmt.Errorf` around a cause. */
  datatype Error = Failed(message: string) | Wrapped(context: string, cause: Error)
}
