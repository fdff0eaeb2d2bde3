/** Small value types shared by the modules of the model. */
module Common {

  /** Kotlin's nullable `T?`: `None` stands for `null`. */
  datatype Option<+T> = None | Some(value: T)

  /** The connection states a peripheral reports through its `state` flow. */
  datatype ConnectionState = Connecting | Connected | Disconnecting | Disconnected
}
