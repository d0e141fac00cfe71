/** `Notify` of src/events/notify.rs: the same eventfd provider as
    src/io/notify.rs without the `active` flag and the stored interest. */
module EventsNotify {
  import opened Sys
  import ReadLoop
  import IoNotify

  datatype Notify = Notify(callback: IoNotify.Callback, fd: Fd)

  /** `Notify::new`, given what the `eventfd` call returned: the call made
      and the result. */
  function New(callback: IoNotify.Callback, eventfd: Syscall): (r: (IoNotify.EventfdCall, Result<Notify, Errno>))
    ensures r.0 == IoNotify.EventfdCall(0, IoNotify.EFD_NONBLOCK)
    ensures r.1.Err? <==> eventfd.ret < 0
    ensures r.1.Err? ==> r.1.error == Errno(eventfd.errno)
    ensures r.1.Ok? ==> r.1.value == Notify(callback, eventfd.ret)
  {
    (IoNotify.EVENTFD, if eventfd.ret < 0 then Err(Current(eventfd)) else Ok(Notify(callback, eventfd.ret)))
  }

  /** `notify`, given what the `write` returned. */
  function DoNotify(n: Notify, write: Syscall): (r: (IoNotify.WriteCall, Result<(), Errno>))
    ensures r.0 == IoNotify.WriteCall(n.fd, 1, 8)
    ensures r.1.Err? <==> write.ret == -1
    ensures r.1.Err? ==> r.1.error == Errno(write.errno)
  {
    (IoNotify.WriteCall(n.fd, 1, 8), if write.ret == -1 then Err(Current(write)) else Ok(()))
  }

  /** `poll_fd()`. */
  function PollFd(n: Notify): Fd
  {
    n.fd
  }

  /** `process`: the callback takes no argument; it runs once per full
      read, recorded by the counter of the read it follows, and the first
      read that is not full decides the end. */
  method Process(n: Notify, rs: seq<ReadLoop.Read>) returns (out: ReadLoop.Outcome)
    ensures var k := ReadLoop.FullPrefix(rs);
      && (forall i :: 0 <= i < |out.calls| ==> i < k && out.calls[i] == rs[i].value)
      && (k < |rs| ==> |out.calls| == k && out.end == ReadLoop.Stop(rs[k]))
      && (k == |rs| ==> |out.calls| == |rs| && out.end.Starved?)
  {
    out := ReadLoop.Drain(rs);
  }

  /** Both `Notify` types are built and notified alike: the two `new`s
      make the same `eventfd` call and fail together with the same error or
      succeed on the same descriptor, and the two `notify`s issue the same
      write and agree on the result. */
  lemma SameAsIoNotify(callback: IoNotify.Callback, eventfd: Syscall, write: Syscall)
    ensures New(callback, eventfd).0 == IoNotify.New(callback, eventfd).0
    ensures New(callback, eventfd).1.Err? <==> IoNotify.New(callback, eventfd).1.Err?
    ensures New(callback, eventfd).1.Err? ==> New(callback, eventfd).1.error == IoNotify.New(callback, eventfd).1.error
    ensures New(callback, eventfd).1.Ok? ==>
      PollFd(New(callback, eventfd).1.value) == IoNotify.PollFd(IoNotify.New(callback, eventfd).1.value)
      && DoNotify(New(callback, eventfd).1.value, write) == IoNotify.DoNotify(IoNotify.New(callback, eventfd).1.value, write)
  {
  }
}
