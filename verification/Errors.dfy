/** Error numbers of the source, and results that may fail. */
module Errors {
  datatype Errno =
    | EINVAL | EIO | EBUSY | ESTALE | EPERM | EALREADY | EUCLEAN | E2BIG | ENOSPC | EOVERFLOW
    | ENOENT | ENOTDIR | EISDIR | EFBIG | EEXIST | ENAMETOOLONG | ENOTSUP | EACCES | EMFILE

  datatype Result<+T> = Success(value: T) | Failure(errno: Errno)
}
