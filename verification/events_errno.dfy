/** The description table of `Errno` in src/events/errno.rs: the same
    numbering and descriptions as the first 34 arms of src/io/errno.rs,
    and a `fmt` that writes the description alone. */
module EventsErrno {
  import opened Sys
  import IoErrno

  /** The numbers the `match` has an arm for: `EPERM` (1) to `ERANGE` (34). */
  predicate Known(code: int)
  {
    1 <= code <= 34
  }

  /** The `match` of `fmt`; the constants of the file's private `consts`
      have the values of the namesakes in `IoErrno`. */
  function Describe(code: int): (r: string)
    ensures r == IoErrno.UNKNOWN <==> !Known(code)
  {
    if code == IoErrno.EPERM then "Operation not permitted"
    else if code == IoErrno.ENOENT then "No such file or directory"
    else if code == IoErrno.ESRCH then "No such process"
    else if code == IoErrno.EINTR then "Interrupted system call"
    else if code == IoErrno.EIO then "I/O error"
    else if code == IoErrno.ENXIO then "No such device or address"
    else if code == IoErrno.E2BIG then "Argument list too long"
    else if code == IoErrno.ENOEXEC then "Exec format error"
    else if code == IoErrno.EBADF then "Bad file number"
    else if code == IoErrno.ECHILD then "No child processes"
    else if code == IoErrno.EAGAIN then "Try again"
    else if code == IoErrno.ENOMEM then "Out of memory"
    else if code == IoErrno.EACCESS then "Permission denied"
    else if code == IoErrno.EFAULT then "Bad address"
    else if code == IoErrno.ENOTBLK then "Block device required"
    else if code == IoErrno.EBUSY then "Device or resource busy"
    else if code == IoErrno.EEXIST then "File exists"
    else if code == IoErrno.EXDEV then "Cross-device link"
    else if code == IoErrno.ENODEV then "No such device"
    else if code == IoErrno.ENOTDIR then "Not a directory"
    else if code == IoErrno.EISDIR then "Is a directory"
    else if code == IoErrno.EINVAL then "Invalid argument"
    else if code == IoErrno.ENFILE then "File table overflow"
    else if code == IoErrno.EMFILE then "Too many open files"
    else if code == IoErrno.ENOTTY then "Not a typewriter"
    else if code == IoErrno.ETXTBSY then "Text file busy"
    else if code == IoErrno.EFBIG then "File too large"
    else if code == IoErrno.ENOSPC then "No space left on device"
    else if code == IoErrno.ESPIPE then "Illegal seek"
    else if code == IoErrno.EROFS then "Read-only file system"
    else if code == IoErrno.EMLINK then "Too many links"
    else if code == IoErrno.EPIPE then "Broken pipe"
    else if code == IoErrno.EDOM then "Math argument out of domain of func"
    else if code == IoErrno.ERANGE then "Math result not representable"
    else IoErrno.UNKNOWN
  }

  /** `Show` for `Errno`: the description only, without the number. */
  function Format(e: Errno): (s: string)
    ensures s == IoErrno.UNKNOWN <==> !Known(e.code)
  {
    Describe(e.code)
  }

  /** The two tables agree on every number this one names; numbers 35 and
      up, which the other table still describes, are unknown here. */
  lemma AgreesWithIo(code: int)
    ensures Known(code) ==> Describe(code) == IoErrno.Describe(code)
    ensures IoErrno.Known(code) && !Known(code) ==>
      Describe(code) == IoErrno.UNKNOWN != IoErrno.Describe(code)
  {
  }

  /** For a number both tables name, the line the other `fmt` writes is
      this line prefixed with the number and `": "`. */
  lemma FormatIsSuffixOfIoFormat(e: Errno)
    requires Known(e.code)
    ensures IoErrno.Format(e) == IoErrno.Render(e.code, Format(e))
  {
    AgreesWithIo(e.code);
  }
}
