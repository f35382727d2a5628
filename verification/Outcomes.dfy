/** Results shared by the models. */
module Outcomes {
  datatype Option<+T> = None | Some(value: T)

  datatype Errno =
    EINVAL | ENOMEM | EACCES | ENOENT | EEXIST | EISDIR | ENOTDIR | ENOTEMPTY | ENOSPC | ENAMETOOLONG

  datatype Result<+T> = Ok(value: T) | Err(error: Errno)

  /** Nothing but `x`. */
  ghost function Only<T(!new)>(x: T): iset<T> {
    iset y | Same(x, y)
  }

  ghost predicate Same<T>(x: T, y: T) {
    x == y
  }
}
