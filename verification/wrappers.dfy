/** Optional values, used for results that the source reports through a
    nullable or `expected`-style return. */
module Wrappers {

  datatype Option<+T> = None | Some(value: T)
}
