/** Optional values and results that carry a raised exception, used across the model. */
module Wrappers {

  /** Python's `None` versus a present value. */
  datatype Option<+T> = None | Some(value: T)

  /** The Python exceptions the sweep can raise; each one aborts the whole call. */
  datatype Raised =
    | UnboundLocalError  // a linear `==` scan found no match, so its index variable stays unbound
    | KeyError           // `SortedSet.remove` of a value that is not in the set
    | ValueError         // a sorted-list lookup by key found no `==` entry in the key's run
    | IndexError         // `next()` past the end of the event queue

  /** A value, or the exception that was raised instead. */
  datatype Result<+T> = Ok(value: T) | Err(raised: Raised)
}
