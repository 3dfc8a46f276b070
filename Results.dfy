/** Optional values: the model's stand-in for `undefined`, `null` and for
    operations of the browser platform that may throw. */
module Results {

  datatype Option<+T> = None | Some(value: T)

}
