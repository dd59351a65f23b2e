/** Optional values, used wherever the kernel returns NULL or a read may fail. */
module Wrappers {

  datatype Option<+T> = None | Some(value: T)

}
