/** The description table of `Errno` in src/io/errno.rs: Linux error
    numbers with their fixed descriptions, two alias names, and the
    "Unknown errno code" fallback, plus the `{}: {}` rendering. */
module IoErrno {
  import opened Sys
  import Decimal

  /** The constants of `consts`; `EWOULDBLOCK` and `EDEADLOCK` are aliases
      of `EAGAIN` and `EDEADLK`. */
  const EPERM: int := 1
  const ENOENT: int := 2
  const ESRCH: int := 3
  const EINTR: int := 4
  const EIO: int := 5
  const ENXIO: int := 6
  const E2BIG: int := 7
  const ENOEXEC: int := 8
  const EBADF: int := 9
  const ECHILD: int := 10
  const EAGAIN: int := 11
  const ENOMEM: int := 12
  const EACCESS: int := 13
  const EFAULT: int := 14
  const ENOTBLK: int := 15
  const EBUSY: int := 16
  const EEXIST: int := 17
  const EXDEV: int := 18
  const ENODEV: int := 19
  const ENOTDIR: int := 20
  const EISDIR: int := 21
  const EINVAL: int := 22
  const ENFILE: int := 23
  const EMFILE: int := 24
  const ENOTTY: int := 25
  const ETXTBSY: int := 26
  const EFBIG: int := 27
  const ENOSPC: int := 28
  const ESPIPE: int := 29
  const EROFS: int := 30
  const EMLINK: int := 31
  const EPIPE: int := 32
  const EDOM: int := 33
  const ERANGE: int := 34
  const EDEADLK: int := 35
  const ENAMETOOLONG: int := 36
  const ENOLCK: int := 37
  const ENOSYS: int := 38
  const ENOTEMPTY: int := 39
  const ELOOP: int := 40
  const EWOULDBLOCK: int := EAGAIN
  const ENOMSG: int := 42
  const EIDRM: int := 43
  const ECHRNG: int := 44
  const EL2NSYNC: int := 45
  const EL3HLT: int := 46
  const EL3RST: int := 47
  const ELNRNG: int := 48
  const EUNATCH: int := 49
  const ENOCSI: int := 50
  const EL2HLT: int := 51
  const EBADE: int := 52
  const EBADR: int := 53
  const EXFULL: int := 54
  const ENOANO: int := 55
  const EBADRQC: int := 56
  const EBADSLT: int := 57
  const EDEADLOCK: int := EDEADLK
  const EBFONT: int := 59
  const ENOSTR: int := 60
  const ENODATA: int := 61
  const ETIME: int := 62
  const ENOSR: int := 63
  const ENONET: int := 64
  const ENOPKG: int := 65
  const EREMOTE: int := 66
  const ENOLINK: int := 67
  const EADV: int := 68
  const ESRMNT: int := 69
  const ECOMM: int := 70
  const EPROTO: int := 71
  const EMULTIHOP: int := 72
  const EDOTDOT: int := 73
  const EINPROGRESS: int := 115

  /** The description of a number no arm names. */
  const UNKNOWN: string := "Unknown errno code"

  /** The numbers the `match` has an arm for: 1 to 73 except 41 and 58
      (which only the aliases would take), and 115. */
  predicate Known(code: int)
  {
    (EPERM <= code <= EDOTDOT && code != 41 && code != 58) || code == EINPROGRESS
  }

  /** The `match` of `fmt`: the arms are tried in source order against the
      constants, the first equal one gives the description. The arms are
      grouped into runs of twelve consecutive numbers. */
  function Describe(code: int): (r: string)
    ensures r == UNKNOWN <==> !Known(code)
  {
    if code < EACCESS then Arms1(code)
    else if code < ENOTTY then Arms2(code)
    else if code < ENOLCK then Arms3(code)
    else if code < ENOCSI then Arms4(code)
    else if code < ENOSR then Arms5(code)
    else Arms6(code)
  }

  /** The arms `EPERM` to `ENOMEM`. */
  function Arms1(code: int): (r: string)
    ensures r == UNKNOWN <==> !(code < EACCESS && Known(code))
  {
    if code == EPERM then "Operation not permitted"
    else if code == ENOENT then "No such file or directory"
    else if code == ESRCH then "No such process"
    else if code == EINTR then "Interrupted system call"
    else if code == EIO then "I/O error"
    else if code == ENXIO then "No such device or address"
    else if code == E2BIG then "Argument list too long"
    else if code == ENOEXEC then "Exec format error"
    else if code == EBADF then "Bad file number"
    else if code == ECHILD then "No child processes"
    else if code == EAGAIN then "Try again"
    else if code == ENOMEM then "Out of memory"
    else UNKNOWN
  }

  /** The arms `EACCESS` to `EMFILE`. */
  function Arms2(code: int): (r: string)
    ensures r == UNKNOWN <==> !(EACCESS <= code && code < ENOTTY && Known(code))
  {
    if code == EACCESS then "Permission denied"
    else if code == EFAULT then "Bad address"
    else if code == ENOTBLK then "Block device required"
    else if code == EBUSY then "Device or resource busy"
    else if code == EEXIST then "File exists"
    else if code == EXDEV then "Cross-device link"
    else if code == ENODEV then "No such device"
    else if code == ENOTDIR then "Not a directory"
    else if code == EISDIR then "Is a directory"
    else if code == EINVAL then "Invalid argument"
    else if code == ENFILE then "File table overflow"
    else if code == EMFILE then "Too many open files"
    else UNKNOWN
  }

  /** The arms `ENOTTY` to `ENAMETOOLONG`. */
  function Arms3(code: int): (r: string)
    ensures r == UNKNOWN <==> !(ENOTTY <= code && code < ENOLCK && Known(code))
  {
    if code == ENOTTY then "Not a typewriter"
    else if code == ETXTBSY then "Text file busy"
    else if code == EFBIG then "File too large"
    else if code == ENOSPC then "No space left on device"
    else if code == ESPIPE then "Illegal seek"
    else if code == EROFS then "Read-only file system"
    else if code == EMLINK then "Too many links"
    else if code == EPIPE then "Broken pipe"
    else if code == EDOM then "Math argument out of domain of func"
    else if code == ERANGE then "Math result not representable"
    else if code == EDEADLK then "Resource deadlock would occur"
    else if code == ENAMETOOLONG then "File name too long"
    else UNKNOWN
  }

  /** The arms `ENOLCK` to `EUNATCH`. */
  function Arms4(code: int): (r: string)
    ensures r == UNKNOWN <==> !(ENOLCK <= code && code < ENOCSI && Known(code))
  {
    if code == ENOLCK then "No record locks available"
    else if code == ENOSYS then "Function not implemented"
    else if code == ENOTEMPTY then "Directory not empty"
    else if code == ELOOP then "Too many symbolic links encountered"
    else if code == ENOMSG then "No message of desired type"
    else if code == EIDRM then "Identifier removed"
    else if code == ECHRNG then "Channel number out of range"
    else if code == EL2NSYNC then "Level 2 not synchronized"
    else if code == EL3HLT then "Level 3 halted"
    else if code == EL3RST then "Level 3 reset"
    else if code == ELNRNG then "Link number out of range"
    else if code == EUNATCH then "Protocol driver not attached"
    else UNKNOWN
  }

  /** The arms `ENOCSI` to `ETIME`. */
  function Arms5(code: int): (r: string)
    ensures r == UNKNOWN <==> !(ENOCSI <= code && code < ENOSR && Known(code))
  {
    if code == ENOCSI then "No CSI structure available"
    else if code == EL2HLT then "Level 2 halted"
    else if code == EBADE then "Invalid exchange"
    else if code == EBADR then "Invalid request descriptor"
    else if code == EXFULL then "Exchange full"
    else if code == ENOANO then "No anode"
    else if code == EBADRQC then "Invalid request code"
    else if code == EBADSLT then "Invalid slot"
    else if code == EBFONT then "Bad font file format"
    else if code == ENOSTR then "Device not a stream"
    else if code == ENODATA then "No data available"
    else if code == ETIME then "Timer expired"
    else UNKNOWN
  }

  /** The arms `ENOSR` to `EINPROGRESS`. */
  function Arms6(code: int): (r: string)
    ensures r == UNKNOWN <==> !(ENOSR <= code && Known(code))
  {
    if code == ENOSR then "Out of streams resources"
    else if code == ENONET then "Machine is not on the network"
    else if code == ENOPKG then "Package not installed"
    else if code == EREMOTE then "Object is remote"
    else if code == ENOLINK then "Link has been severed"
    else if code == EADV then "Advertise error"
    else if code == ESRMNT then "Srmount error"
    else if code == ECOMM then "Communication error on send"
    else if code == EPROTO then "Protocol error"
    else if code == EMULTIHOP then "Multihop attempted"
    else if code == EDOTDOT then "RFS specific error"
    else if code == EINPROGRESS then "Operation now in progress"
    else UNKNOWN
  }

  /** The `"{}: {}"` template of `fmt`: the number in decimal, a colon and
      a space, then the description. */
  function Render(code: int, desc: string): string
  {
    Decimal.IntToString(code) + ": " + desc
  }

  /** `Show` for `Errno`. */
  function Format(e: Errno): string
  {
    Render(e.code, Describe(e.code))
  }

  /** `value()` hands back the wrapped number. */
  function Value(e: Errno): (v: int)
    ensures Errno(v) == e
  {
    e.code
  }

  /** A rendered line splits at the first `": "` into a number that parses
      back to the code and the description. */
  lemma RenderSplits(code: int, desc: string)
    ensures var n := |Decimal.IntToString(code)|;
      var s := Render(code, desc);
      && |s| == n + 2 + |desc|
      && Decimal.ParseInt(s[..n]) == code
      && s[n..n + 2] == ": "
      && s[n + 2..] == desc
  {
    var n := |Decimal.IntToString(code)|;
    assert Render(code, desc)[..n] == Decimal.IntToString(code);
    Decimal.ParseIntToString(code);
  }

  /** Lines rendered for different numbers differ, whatever the
      descriptions. */
  lemma RenderIsInjective(m: int, n: int, dm: string, dn: string)
    ensures Render(m, dm) == Render(n, dn) ==> m == n && dm == dn
  {
    if Render(m, dm) == Render(n, dn) {
      var u, v := ": " + dm, ": " + dn;
      assert Render(m, dm) == Decimal.IntToString(m) + u;
      assert Render(n, dn) == Decimal.IntToString(n) + v;
      Decimal.NumberBeforeSeparator(m, n, u, v);
      RenderSplits(m, dm);
      RenderSplits(n, dn);
    }
  }

  /** The line `fmt` writes for an error gives back its number and its
      description; two errors print alike exactly when they are equal. */
  lemma FormatRoundTrip(a: Errno, b: Errno)
    ensures var n := |Decimal.IntToString(a.code)|;
      && Decimal.ParseInt(Format(a)[..n]) == a.code
      && Format(a)[n + 2..] == Describe(a.code)
    ensures Format(a) == Format(b) <==> a == b
  {
    RenderSplits(a.code, Describe(a.code));
    RenderIsInjective(a.code, b.code, Describe(a.code), Describe(b.code));
  }

  /** The aliases share the description of the number they stand for,
      and the two numbers the tests of callers rely on read as expected. */
  lemma Descriptions()
    ensures Describe(EWOULDBLOCK) == Describe(EAGAIN) == "Try again"
    ensures Describe(EDEADLOCK) == Describe(EDEADLK) == "Resource deadlock would occur"
    ensures Describe(EINPROGRESS) == "Operation now in progress"
    ensures Describe(41) == Describe(58) == Describe(0) == Describe(-1) == UNKNOWN
  {
  }
}
