/** Option and result types shared by every module of the project. */
module Prelude {

  datatype Option<+T> = None | Some(value: T)

  datatype Result<+T> = Failure(error: string) | Success(value: T)
}
