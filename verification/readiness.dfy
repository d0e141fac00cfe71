/** The two readiness bit sets of src/io.rs and their translation: the
    reactor's own `IoFlag` (`POLL_IN`, `POLL_OUT`) and epoll's
    `EpollEventKind` (a `u32` of kernel event bits). */
module Readiness {

  /** `IoFlag`: a `bitflags!` set over the bits 0x1 and 0x2, so one of the
      four values 0..3. */
  type IoFlag = f: bv32 | f <= 3

  const POLL_IN: IoFlag := 0x1
  const POLL_OUT: IoFlag := 0x2
  const POLL_STOP: IoFlag := 0x3

  /** `EpollEventKind`: any `u32`, since the kernel fills it in. */
  type EpollBits = bv32

  const EPOLLIN: EpollBits := 0x001
  const EPOLLPRI: EpollBits := 0x002
  const EPOLLOUT: EpollBits := 0x004
  const EPOLLERR: EpollBits := 0x008
  const EPOLLHUP: EpollBits := 0x010
  const EPOLLRDNORM: EpollBits := 0x040
  const EPOLLRDBAND: EpollBits := 0x080
  const EPOLLWRNORM: EpollBits := 0x100
  const EPOLLWRBAND: EpollBits := 0x200
  const EPOLLMSG: EpollBits := 0x400
  const EPOLLRDHUP: EpollBits := 0x2000
  const EPOLLWAKEUP: EpollBits := 1 << 29
  const EPOLLONESHOT: EpollBits := 1 << 30
  const EPOLLET: EpollBits := 1 << 31

  /** `bitflags` `contains`: every bit of `other` is set in `s`. */
  predicate Contains(s: bv32, other: bv32)
  {
    s & other == other
  }

  /** `bitflags` `toggle`. */
  function Toggle(s: bv32, other: bv32): bv32
  {
    s ^ other
  }

  /** `POLL_STOP` is the union of the two readiness bits. */
  lemma PollStopIsInAndOut()
    ensures POLL_STOP == POLL_IN | POLL_OUT
    ensures Contains(POLL_STOP, POLL_IN) && Contains(POLL_STOP, POLL_OUT)
  {
  }

  /** `to_io_flags`: `POLL_IN` exactly when EPOLLIN is reported and
      `POLL_OUT` exactly when EPOLLOUT is; every other epoll bit (error,
      hang-up, edge trigger, ...) is dropped. */
  function ToIoFlags(k: EpollBits): (f: IoFlag)
    ensures Contains(f, POLL_IN) <==> Contains(k, EPOLLIN)
    ensures Contains(f, POLL_OUT) <==> Contains(k, EPOLLOUT)
  {
    var f0: bv32 := 0;
    var f1 := if Contains(k, EPOLLIN) then Toggle(f0, POLL_IN) else f0;
    var f2 := if Contains(k, EPOLLOUT) then Toggle(f1, POLL_OUT) else f1;
    f2
  }

  /** `from_io_flags`: EPOLLIN exactly when `POLL_IN` is set and EPOLLOUT
      exactly when `POLL_OUT` is; no other epoll bit is ever produced. */
  function FromIoFlags(f: IoFlag): (k: EpollBits)
    ensures Contains(k, EPOLLIN) <==> Contains(f, POLL_IN)
    ensures Contains(k, EPOLLOUT) <==> Contains(f, POLL_OUT)
    ensures k & !(EPOLLIN | EPOLLOUT) == 0
  {
    var k0: bv32 := 0;
    var k1 := if Contains(f, POLL_IN) then Toggle(k0, EPOLLIN) else k0;
    var k2 := if Contains(f, POLL_OUT) then Toggle(k1, EPOLLOUT) else k1;
    k2
  }

  /** Both translations start from the empty set and toggle each bit at
      most once, so every toggle acts as an insertion: the result is the
      union of the bits whose counterpart is set. */
  lemma TogglesActAsInsertions(f: IoFlag, k: EpollBits)
    ensures FromIoFlags(f) ==
      (if Contains(f, POLL_IN) then EPOLLIN else 0) | (if Contains(f, POLL_OUT) then EPOLLOUT else 0)
    ensures ToIoFlags(k) as bv32 ==
      (if Contains(k, EPOLLIN) then POLL_IN else 0) | (if Contains(k, EPOLLOUT) then POLL_OUT else 0)
  {
  }

  /** Encoding then decoding gives back each of the four `IoFlag` values. */
  lemma DecodeEncode(f: IoFlag)
    ensures ToIoFlags(FromIoFlags(f)) == f
  {
  }

  /** Decoding then encoding keeps exactly the readable/writable bits. */
  lemma EncodeDecode(k: EpollBits)
    ensures FromIoFlags(ToIoFlags(k)) == k & (EPOLLIN | EPOLLOUT)
  {
  }

  /** The translation is a bijection between `IoFlag` and the subsets of
      {EPOLLIN, EPOLLOUT}. */
  lemma TranslationIsBijective(f: IoFlag, g: IoFlag)
    ensures FromIoFlags(f) == FromIoFlags(g) <==> f == g
  {
    DecodeEncode(f);
    DecodeEncode(g);
  }
}
