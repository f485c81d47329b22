/** Optional values: the model's stand-in for the JavaScript `null` that some
    fields of the gallery hold before anything has been loaded or clicked. */
module Wrappers {

  datatype Option<+T> = None | Some(value: T)
}
