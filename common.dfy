/** Small value types shared by the modules of the model. */
module Common {

  /** An optional value: Swift's `T?`. */
  datatype Option<T> = None | Some(value: T)

  /** The SwiftUI colours the views assign to status and feedback text, kept as tags only. */
  datatype Color = Clear | Red | Orange | Yellow | Green
}
