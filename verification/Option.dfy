/** The absent-or-present results that LLVM's Optional stands for in the source. */
module Option {
  datatype Option<+T> = None | Some(value: T)
}
