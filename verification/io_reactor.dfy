/** The `EventLoop` of src/io.rs: providers join directly (no staging
    queue), each join arms the poller with an `add` request, and every
    polled event is handed to the provider registered for its descriptor;
    an event for an unknown descriptor panics. One pass of the endless
    `run` loop is modelled. */
module IoReactor {
  import opened Sys
  import opened Readiness
  import opened Epoll
  import opened Directory

  /** The loop's provider map and the `epoll_ctl` requests issued so far. */
  datatype Reactor = Reactor(poller: Epoll, providers: Directory, ctl: seq<CtlRequest>)

  /** One `process_event(flags, handler)` call on a provider. */
  datatype Delivery = Delivery(provider: Provider, flags: IoFlag)

  /** Why a pass panicked. */
  datatype Panic = PollFailed | UnknownProvider(fd: Fd)

  /** What one pass of `run` did: the deliveries made, and the panic that
      ended it, if any. */
  datatype Pass = Pass(delivered: seq<Delivery>, panic: Option<Panic>)

  /** `EventLoop::new`: `None` when `Epoll::new` fails and `unwrap` panics. */
  function NewReactor(epollCreate: Syscall): (r: Option<Reactor>)
    ensures r.None? <==> epollCreate.ret < 0
    ensures r.Some? ==> r.value.providers == map[] && r.value.ctl == []
  {
    match NewEpoll(epollCreate)
    case None => None
    case Some(p) => Some(Reactor(p, map[], []))
  }

  /** `join`: arms the poller for `poll_fd` with `poll_flags` (the result
      of `add` is ignored) and records the provider under `poll_fd`. */
  function Join(r: Reactor, p: Provider): Reactor
  {
    r.(providers := r.providers[p.fd := p], ctl := r.ctl + [AddRequest(p.fd, p.flags)])
  }

  /** `process_event`: the provider registered for the event's descriptor
      receives the event's flags; an unknown descriptor panics. */
  function ProcessEvent(r: Reactor, ev: IoEvent): (res: Result<Delivery, Panic>)
    ensures res.Ok? <==> ev.fd in r.providers
    ensures res.Ok? ==> res.value == Delivery(r.providers[ev.fd], ev.flags)
    ensures res.Err? ==> res.error == UnknownProvider(ev.fd)
  {
    if ev.fd in r.providers then Ok(Delivery(r.providers[ev.fd], ev.flags))
    else Err(UnknownProvider(ev.fd))
  }

  /** The `for` loop of `run` over the polled events: delivers them in
      order and stops at the first event whose descriptor is unknown. */
  function DeliverAll(r: Reactor, evs: seq<IoEvent>): (p: Pass)
    ensures |p.delivered| <= |evs|
    ensures forall i :: 0 <= i < |p.delivered| ==>
      evs[i].fd in r.providers && p.delivered[i] == Delivery(r.providers[evs[i].fd], evs[i].flags)
    ensures p.panic.None? ==> |p.delivered| == |evs|
    ensures p.panic.Some? ==>
      |p.delivered| < |evs| && evs[|p.delivered|].fd !in r.providers
      && p.panic.value == UnknownProvider(evs[|p.delivered|].fd)
    decreases |evs|
  {
    if evs == [] then Pass([], None)
    else match ProcessEvent(r, evs[0])
      case Err(e) => Pass([], Some(e))
      case Ok(d) =>
        var rest := DeliverAll(r, evs[1..]);
        Pass([d] + rest.delivered, rest.panic)
  }

  /** One pass of `run` given what `poll(0)` returned: `None` panics in
      `unwrap` before anything is delivered. */
  function RunOnce(r: Reactor, polled: Option<seq<IoEvent>>): Pass
  {
    match polled
    case None => Pass([], Some(PollFailed))
    case Some(evs) => DeliverAll(r, evs)
  }

  /** A pass completes without panicking exactly when the poll succeeded
      and every polled descriptor has a provider; it then delivers every
      event, in order, to its provider. */
  lemma RunOnceCompletes(r: Reactor, polled: Option<seq<IoEvent>>)
    ensures RunOnce(r, polled).panic.None? <==>
      polled.Some? && forall i :: 0 <= i < |polled.value| ==> polled.value[i].fd in r.providers
    ensures RunOnce(r, polled).panic.None? ==>
      |RunOnce(r, polled).delivered| == |polled.value|
  {
  }

  /** `join` arms the poller with the provider's own descriptor and flags,
      so whatever the kernel then reports for it is routed back to it:
      after polling, `process_event` delivers to the joined provider with
      the ready bits translated. */
  lemma JoinedProviderReceivesItsEvents(r: Reactor, p: Provider, ready: EpollBits)
    ensures var r' := Join(r, p);
      && r'.ctl[|r'.ctl| - 1] == AddRequest(p.fd, p.flags)
      && ToIoEvent(r'.ctl[|r'.ctl| - 1].event.value) == IoEvent(p.fd, p.flags)
      && ProcessEvent(r', ToIoEvent(Report(r'.ctl[|r'.ctl| - 1], ready)))
         == Ok(Delivery(p, ToIoFlags(ready)))
  {
    AddRequestEncodes(p.fd, p.flags);
    AddedDescriptorIsReported(p.fd, p.flags, ready);
  }

  /** A second join on the same descriptor replaces the directory entry
      (while both `add` requests are issued); other entries are untouched. */
  lemma RejoinReplaces(r: Reactor, p: Provider, p2: Provider)
    requires p2.fd == p.fd
    ensures Join(Join(r, p), p2).providers == r.providers[p.fd := p2]
    ensures |Join(Join(r, p), p2).ctl| == |r.ctl| + 2
  {
  }
}
