/** A value that may be absent: a null field, a NaN price, a failed lookup. */
module Optional {

  datatype Option<+T> = None | Some(value: T)
}
