/** Shared vocabulary of the reactor model: the Rust `Result`/`Option`
    shapes, descriptors, error numbers and the abstract outcome of one
    system call. */
module Sys {

  /** Rust's `Result<T, E>`. */
  datatype Result<+T, +E> = Ok(value: T) | Err(error: E)

  /** Rust's `Option<T>`. */
  datatype Option<+T> = None | Some(value: T)

  /** A raw descriptor (`fd_t`, a C `int`). */
  type Fd = int

  /** Rust's `u64`. */
  type U64 = x: int | 0 <= x < 0x1_0000_0000_0000_0000

  /** `Errno(int)`: the wrapped value of the C `errno` variable. */
  datatype Errno = Errno(code: int)

  /** What one system call did: its return value and the value `errno`
      held right after it (read only when the return value says so). */
  datatype Syscall = Syscall(ret: int, errno: int)

  /** `Errno::current()` read right after the call `c`. */
  function Current(c: Syscall): Errno
  {
    Errno(c.errno)
  }
}
