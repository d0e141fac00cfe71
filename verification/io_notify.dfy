/** `Notify` of src/io/notify.rs: an eventfd-backed provider whose
    `notify` adds one to the kernel counter and whose `process` drains the
    counter, running the callback once per read. */
module IoNotify {
  import opened Sys
  import opened Readiness
  import ReadLoop

  const EFD_NONBLOCK: int := 0x800

  /** The callback, by identity. */
  type Callback = nat

  datatype Notify = Notify(callback: Callback, active: bool, fd: Fd, events: IoFlag)

  /** The `eventfd(initval, flags)` call `new` makes. */
  datatype EventfdCall = EventfdCall(initVal: nat, flags: int)

  /** The `write(fd, buf, count)` call `notify` makes, with the value the
      buffer holds. */
  datatype WriteCall = WriteCall(fd: Fd, value: U64, count: nat)

  /** The one `eventfd` call of `new`: a zero counter, non-blocking. */
  const EVENTFD: EventfdCall := EventfdCall(0, EFD_NONBLOCK)

  /** `Notify::new`, given what the `eventfd` call returned: the call
      made, a zero counter that does not block, and the result; a negative
      descriptor is `Err(Errno::current())`, otherwise an inactive provider
      on that descriptor interested in reading. */
  function New(callback: Callback, eventfd: Syscall): (r: (EventfdCall, Result<Notify, Errno>))
    ensures r.0 == EventfdCall(0, EFD_NONBLOCK)
    ensures r.1.Err? <==> eventfd.ret < 0
    ensures r.1.Err? ==> r.1.error == Errno(eventfd.errno)
    ensures r.1.Ok? ==> r.1.value == Notify(callback, false, eventfd.ret, POLL_IN)
  {
    (EVENTFD, if eventfd.ret < 0 then Err(Current(eventfd)) else Ok(Notify(callback, false, eventfd.ret, POLL_IN)))
  }

  /** `notify`, given what the `write` returned: the call issued, and
      `Err(Errno::current())` exactly when the write returned -1. */
  function DoNotify(n: Notify, write: Syscall): (r: (WriteCall, Result<(), Errno>))
    ensures r.0 == WriteCall(n.fd, 1, 8)
    ensures r.1.Err? <==> write.ret == -1
    ensures r.1.Err? ==> r.1.error == Errno(write.errno)
  {
    (WriteCall(n.fd, 1, 8), if write.ret == -1 then Err(Current(write)) else Ok(()))
  }

  /** `poll_fd()`. */
  function PollFd(n: Notify): Fd
  {
    n.fd
  }

  /** `flags()`. */
  function Flags(n: Notify): IoFlag
  {
    n.events
  }

  /** `process`: the drain loop; the callback, which gets the provider and
      not the counter, runs once per full read, recorded by the counter of
      the read it follows. */
  method Process(n: Notify, rs: seq<ReadLoop.Read>) returns (out: ReadLoop.Outcome)
    ensures var k := ReadLoop.FullPrefix(rs);
      && |out.calls| == k
      && (forall i :: 0 <= i < k ==> rs[i].ret == 8)
      && (out.end.Returned? <==> k < |rs| && rs[k].ret == -1 && rs[k].errno == ReadLoop.IoErrno.EAGAIN)
      && (out.end.Starved? <==> k == |rs|)
      && (out.end.Panicked? ==> k < |rs| && out.end == ReadLoop.Stop(rs[k]))
  {
    out := ReadLoop.Drain(rs);
  }

  /** What a new `Notify` presents to an event loop: the eventfd
      descriptor, and an interest that registers as EPOLLIN alone. */
  lemma NewNotifyProvider(callback: Callback, eventfd: Syscall)
    requires eventfd.ret >= 0
    ensures var n := New(callback, eventfd).1.value;
      && PollFd(n) == eventfd.ret && Flags(n) == POLL_IN && !n.active
      && FromIoFlags(Flags(n)) == EPOLLIN
  {
  }
}
