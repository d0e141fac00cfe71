/** The `Epoll` poller of src/io.rs: the control requests it hands to
    `epoll_ctl` and the conversion of an `epoll_wait` buffer into the
    reactor's `IoEvent`s. The kernel is not modelled; the one property of
    it used here is that an event reports the `data` payload stored by the
    last `epoll_ctl` for that descriptor, unchanged. */
module Epoll {
  import opened Sys
  import opened Readiness

  /** Size of the buffer handed to `epoll_wait`. */
  const EVENT_BUFFER_SIZE: nat := 256

  /** `EpollEvent`: the kernel's bit set and the payload. */
  datatype EpollEvent = EpollEvent(events: EpollBits, data: int)

  /** `IoEvent`: a ready descriptor and its readiness in `IoFlag` terms. */
  datatype IoEvent = IoEvent(fd: Fd, flags: IoFlag)

  /** `EpollControl`. */
  datatype EpollControl = Add | Del | Mod

  /** The `op` argument passed to `epoll_ctl`. */
  function ControlCode(op: EpollControl): int
  {
    match op
    case Add => 1
    case Del => 2
    case Mod => 3
  }

  /** One `epoll_ctl(epfd, op, fd, event)` call; `None` is a null event. */
  datatype CtlRequest = CtlRequest(op: EpollControl, fd: Fd, event: Option<EpollEvent>)

  /** The `Epoll` value: the epoll instance's descriptor. */
  datatype Epoll = Epoll(fd: Fd)

  /** `Epoll::new`: `None` when `epoll_create` fails. */
  function NewEpoll(create: Syscall): (r: Option<Epoll>)
    ensures r.None? <==> create.ret < 0
    ensures r.Some? ==> r.value.fd == create.ret
  {
    if create.ret < 0 then None else Some(Epoll(create.ret))
  }

  /** `Poller::add`: the interest encoded with `from_io_flags` and the
      descriptor itself as payload. */
  function AddRequest(fd: Fd, flags: IoFlag): CtlRequest
  {
    CtlRequest(Add, fd, Some(EpollEvent(FromIoFlags(flags), fd)))
  }

  /** `Poller::modify` as written: the interest encoded with
      `from_io_flags` and the payload 0. */
  function ModifyRequest(fd: Fd, flags: IoFlag): CtlRequest
  {
    CtlRequest(Mod, fd, Some(EpollEvent(FromIoFlags(flags), 0)))
  }

  /** `Poller::modify` with the payload the rest of the poller relies on:
      the descriptor itself, as `add` stores it. */
  function ModifyRequestKeepingFd(fd: Fd, flags: IoFlag): CtlRequest
  {
    CtlRequest(Mod, fd, Some(EpollEvent(FromIoFlags(flags), fd)))
  }

  /** `Poller::remove`: a delete request with a null event. */
  function RemoveRequest(fd: Fd): CtlRequest
  {
    CtlRequest(Del, fd, None)
  }

  /** What `epoll_wait` reports for a descriptor registered with `req`
      once the bits `ready` hold: those bits and the stored payload. */
  function Report(req: CtlRequest, ready: EpollBits): EpollEvent
    requires req.event.Some?
  {
    EpollEvent(ready, req.event.value.data)
  }

  /** One buffer entry as an `IoEvent`. */
  function ToIoEvent(e: EpollEvent): IoEvent
  {
    IoEvent(e.data, ToIoFlags(e.events))
  }

  function Min(a: int, b: int): int
  {
    if a < b then a else b
  }

  /** `Epoll::poll` after `epoll_wait` returned `res` into `buf`: `None` on
      a negative result, otherwise one `IoEvent` for each of the first
      `res` entries, in buffer order, with the payload as descriptor and
      the bits translated by `to_io_flags`. */
  method Poll(res: int, buf: seq<EpollEvent>) returns (r: Option<seq<IoEvent>>)
    ensures r.None? <==> res < 0
    ensures r.Some? ==> |r.value| == Min(res, |buf|)
    ensures r.Some? ==> forall i :: 0 <= i < |r.value| ==>
      r.value[i].fd == buf[i].data && r.value[i].flags == ToIoFlags(buf[i].events)
  {
    if res < 0 {
      return None;
    }
    var count := Min(res, |buf|);
    var events: seq<IoEvent> := [];
    var i := 0;
    while i < count
      invariant 0 <= i <= count
      invariant |events| == i
      invariant forall j :: 0 <= j < i ==> events[j] == ToIoEvent(buf[j])
    {
      events := events + [ToIoEvent(buf[i])];
      i := i + 1;
    }
    return Some(events);
  }

  /** An `add` request carries the descriptor and exactly the requested
      interest: decoding its event gives back `(fd, flags)`. */
  lemma AddRequestEncodes(fd: Fd, flags: IoFlag)
    ensures AddRequest(fd, flags).op == Add && ControlCode(AddRequest(fd, flags).op) == 1
    ensures AddRequest(fd, flags).fd == fd
    ensures ToIoEvent(AddRequest(fd, flags).event.value) == IoEvent(fd, flags)
  {
    DecodeEncode(flags);
  }

  /** The three requests name their operation by the codes of
      `EpollControl`, target the given descriptor, and only `remove`
      passes a null event. */
  lemma ControlRequests(fd: Fd, flags: IoFlag)
    ensures ControlCode(AddRequest(fd, flags).op) == 1
    ensures ControlCode(RemoveRequest(fd).op) == 2
    ensures ControlCode(ModifyRequest(fd, flags).op) == 3
    ensures AddRequest(fd, flags).fd == ModifyRequest(fd, flags).fd == RemoveRequest(fd).fd == fd
    ensures RemoveRequest(fd).event.None?
    ensures AddRequest(fd, flags).event.Some? && ModifyRequest(fd, flags).event.Some?
    ensures AddRequest(fd, flags).event.value.events == ModifyRequest(fd, flags).event.value.events
  {
  }

  /** After `add`, every event the kernel reports for the descriptor is
      converted back to that descriptor with the ready bits translated. */
  lemma AddedDescriptorIsReported(fd: Fd, flags: IoFlag, ready: EpollBits)
    ensures ToIoEvent(Report(AddRequest(fd, flags), ready)) == IoEvent(fd, ToIoFlags(ready))
  {
  }

  /** As written, `modify` makes every later event of a non-zero
      descriptor report descriptor 0 instead: fd 5 re-armed for reading
      comes back as fd 0. */
  lemma ModifyReportsDescriptorZero(fd: Fd, flags: IoFlag, ready: EpollBits)
    ensures ToIoEvent(Report(ModifyRequest(fd, flags), ready)).fd == 0
    ensures ToIoEvent(Report(ModifyRequest(5, POLL_IN), EPOLLIN)) == IoEvent(0, POLL_IN)
  {
  }

  /** With the descriptor kept as payload, a modified registration is
      reported under its own descriptor, exactly like an added one, and
      carries exactly the new interest. */
  lemma ModifyKeepingFdIsReported(fd: Fd, flags: IoFlag, ready: EpollBits)
    ensures ToIoEvent(Report(ModifyRequestKeepingFd(fd, flags), ready)) == IoEvent(fd, ToIoFlags(ready))
    ensures ModifyRequestKeepingFd(fd, flags).event == AddRequest(fd, flags).event
    ensures ToIoEvent(ModifyRequestKeepingFd(fd, flags).event.value) == IoEvent(fd, flags)
  {
    DecodeEncode(flags);
  }
}
