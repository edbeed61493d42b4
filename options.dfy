/** The optional value returned by the decoders of the stream numbering scheme. */
module Options {

  datatype Option<+T> = None | Some(value: T)
}
