/** Optional values: PHP's nullable results (`?string`, a missing array key,
    an absent header) are modelled as `Option`. */
module Wrappers {

  datatype Option<+T> = None | Some(value: T)

}
