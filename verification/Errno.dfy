// Error returns of the runtime: the negative errno values of the C code become
// constructors, and a call that returns a value or an error returns a Result.
module Errno {

  datatype Errno =
    | EPERM
    | ENOENT
    | EINTR
    | EIO
    | ENOEXEC
    | EAGAIN
    | ENOMEM
    | EACCES
    | EBUSY
    | EINVAL
    | EFBIG
    | ENOSPC
    | ENOTSUP
    | EALREADY
    | EILSEQ
    | ETIMEDOUT
    | EMSGSIZE
    | ENODATA
    | ENODEV
    | ECANCELED

  datatype Result<+T> = Ok(value: T) | Err(error: Errno)

  datatype Option<+T> = None | Some(value: T)
}
