/** Kotlin's nullable types (`Card?`, `Long?`) as an explicit option. */
module Options {

  datatype Option<T> = None | Some(value: T)
}
