/** Optional values: the models use None where the C code returns a NULL pointer
    (an empty pop, a lookup miss) or the sentinel -1 (a failed match). */
module Options {

  datatype Option<+T> = None | Some(value: T)
}
