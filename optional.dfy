/** The `Option` type that Rust's `Iterator::next` and `size_hint` return. */
module Optional {

  datatype Option<+T> = None | Some(value: T)
}
