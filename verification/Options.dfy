/** Optional values, and how a storage operation ends. */
module Options {

  datatype Option<T> = None | Some(value: T)

  /** `Failed` stands for any storage error. */
  datatype Outcome = Done | Failed
}
