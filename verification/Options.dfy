/** The optional value returned wherever the program uses `std::optional` or a null pointer. */
module Options {
  datatype Option<+T> = None | Some(value: T)
}
