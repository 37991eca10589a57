/** The optional result of a cast: the distance to a wall, or nothing within range. */
module Options {
  datatype Option<+T> = None | Some(value: T)
}
