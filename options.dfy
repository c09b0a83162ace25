/** An optional value; `None` stands for the C# `null` of a reference or a `Nullable<T>`. */
module Options {
  datatype Option<+T> = None | Some(value: T)
}
