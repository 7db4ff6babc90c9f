/** The optional value the collision step uses for "no floor / no ceiling
    selected yet" (the source's None). */
module Options {
  datatype Option<T> = None | Some(value: T)
}
