/** Optional values: an argument the caller may omit, or a result that may be missing. */
module Optional {

  /** `Absent` stands for an omitted (undefined) argument or a missing result. */
  datatype Maybe<T> = Absent | Present(value: T)
}
