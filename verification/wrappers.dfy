/** The optional value used wherever the pipeline may come back empty-handed:
    a file that could not be loaded, a name that is not a column, an upload
    batch that yielded no usable rows. */
module Wrappers {

  datatype Option<+T> = None | Some(value: T)

}
