/** `EventLoop` of src/io/event_loop.rs: providers are staged in a bounded
    queue by `add_event` and admitted into the `watchers` directory at the
    start of the next tick; the tick then waits on epoll and runs
    `process` for each readable entry whose descriptor is watched. One
    tick of the endless `run` loop is modelled. */
module IoEventLoop {
  import opened Sys
  import opened Readiness
  import opened Epoll
  import opened Directory
  import opened Dispatch
  import Q = BoundedQueue

  /** Usable slots of the staging queue (`1 << 8`). */
  const QUEUE_SLOTS: nat := 256
  /** `consts::POLL_TIMEOUT`, in milliseconds. */
  const POLL_TIMEOUT_MS: nat := 1000

  datatype EventLoop = EventLoop(
    poller: Epoll,
    watchers: Directory,
    eventsQueue: Q.Queue<Provider>)

  /** A registration issued while draining: the descriptor and the
      interest it is armed with. */
  datatype Registration = Registration(fd: Fd, events: EpollBits)

  /** The `epoll_wait` call of a tick. */
  datatype WaitRequest = WaitRequest(timeoutMs: nat, maxEvents: nat)

  /** What one tick did: the loop after the drain, the registrations,
      the wait it issued, and the providers whose `process` ran, or the
      poll error on which `unwrap` panicked. */
  datatype TickOutcome = TickOutcome(
    after: EventLoop,
    registered: seq<Registration>,
    wait: WaitRequest,
    dispatched: Result<seq<Provider>, Errno>)

  /** `EventLoop::default`: `None` when `Epoll::new` fails and `unwrap`
      panics; otherwise an empty directory and an empty staging queue
      with room for exactly `QUEUE_SLOTS` providers. */
  function Default(epollCreate: Syscall): (r: Option<EventLoop>)
    ensures r.None? <==> epollCreate.ret < 0
    ensures r.Some? ==>
      && r.value.poller.fd == epollCreate.ret
      && r.value.watchers == map[]
      && Q.Valid(r.value.eventsQueue)
      && Q.Capacity(r.value.eventsQueue) == 256
      && Q.Contents(r.value.eventsQueue) == []
  {
    var p := NewEpoll(epollCreate);
    if p.None? then None else Some(EventLoop(p.value, map[], Q.New(QUEUE_SLOTS)))
  }

  /** `add_event`: stages the provider at the back of the queue, or fails
      loudly (`Err(Full)`, the `fail!`) when the queue is full; it never
      drops a provider silently. */
  function AddEvent(lp: EventLoop, p: Provider): (r: Result<EventLoop, Q.State>)
    requires Q.Valid(lp.eventsQueue)
    ensures r.Err? <==> |Q.Contents(lp.eventsQueue)| == Q.Capacity(lp.eventsQueue)
    ensures r.Err? ==> r.error == Q.Full
    ensures r.Ok? ==>
      && Q.Valid(r.value.eventsQueue)
      && Q.Contents(r.value.eventsQueue) == Q.Contents(lp.eventsQueue) + [p]
      && r.value.watchers == lp.watchers
      && r.value.eventsQueue.size == lp.eventsQueue.size
  {
    var (q, res) := Q.Push(lp.eventsQueue, p);
    match res
    case Err(_) => Err(Q.Full)
    case Ok(_) => Ok(lp.(eventsQueue := q))
  }

  /** The registration a drained provider gets. */
  function RegistrationOf(p: Provider): Registration
  {
    Registration(p.fd, FromIoFlags(p.flags))
  }

  /** The drain phase of `run`: pops until the queue is empty, registering
      each provider with the poller and inserting it under its `poll_fd`.
      The directory ends up as the staged providers inserted in FIFO order
      (the last staged provider for a descriptor wins) and one registration
      is issued per staged provider, in order. */
  method Drain(watchers: Directory, queue: Q.Queue<Provider>)
    returns (w: Directory, q: Q.Queue<Provider>, registered: seq<Registration>)
    requires Q.Valid(queue)
    ensures Q.Valid(q) && Q.IsEmpty(q) && q.size == queue.size
    ensures w == InsertAll(watchers, Q.Contents(queue))
    ensures |registered| == |Q.Contents(queue)|
    ensures forall i :: 0 <= i < |registered| ==>
      registered[i] == RegistrationOf(Q.Contents(queue)[i])
  {
    w, q, registered := watchers, queue, [];
    ghost var drained: seq<Provider> := [];
    Q.CursorsAgreeWithLen(q);
    while !Q.IsEmpty(q)
      invariant Q.Valid(q) && q.size == queue.size
      invariant Q.Contents(queue) == drained + Q.Contents(q)
      invariant InsertAll(w, Q.Contents(q)) == InsertAll(watchers, Q.Contents(queue))
      invariant |registered| == |drained|
      invariant forall i :: 0 <= i < |drained| ==> registered[i] == RegistrationOf(drained[i])
      decreases q.len
    {
      var (q', res) := Q.Pop(q);
      var p := res.value;
      ghost var rest := Q.Contents(q');
      assert Q.Contents(q) == [p] + rest;
      InsertFront(w, p, rest);
      assert drained + ([p] + rest) == (drained + [p]) + rest;
      registered := registered + [RegistrationOf(p)];
      w := w[p.fd := p];
      drained := drained + [p];
      q := q';
      Q.CursorsAgreeWithLen(q);
    }
    Q.CursorsAgreeWithLen(q);
    assert Q.Contents(queue) == drained + [];
  }

  /** One tick of `run`: drain, wait with the fixed timeout on the
      256-entry buffer, then dispatch the first `readyCount` entries
      through the EPOLLIN filter. A failed wait panics in `unwrap`. */
  method Tick(lp: EventLoop, ready: Result<nat, Errno>, buffer: seq<EpollEvent>)
    returns (out: TickOutcome)
    requires Q.Valid(lp.eventsQueue)
    requires |buffer| == EVENT_BUFFER_SIZE
    ensures Q.Valid(out.after.eventsQueue) && Q.IsEmpty(out.after.eventsQueue)
    ensures Q.Contents(out.after.eventsQueue) == []
    ensures out.after.watchers == InsertAll(lp.watchers, Q.Contents(lp.eventsQueue))
    ensures |out.registered| == |Q.Contents(lp.eventsQueue)|
    ensures forall i :: 0 <= i < |out.registered| ==>
      out.registered[i] == RegistrationOf(Q.Contents(lp.eventsQueue)[i])
    ensures out.wait == WaitRequest(POLL_TIMEOUT_MS, 256)
    ensures ready.Err? ==> out.dispatched == Err(ready.error)
    ensures ready.Ok? ==>
      out.dispatched == Ok(Dispatched(buffer[..Min(ready.value, |buffer|)], out.after.watchers))
  {
    var w, q, registered := Drain(lp.watchers, lp.eventsQueue);
    Q.CursorsAgreeWithLen(q);
    var after := lp.(watchers := w, eventsQueue := q);
    var wait := WaitRequest(POLL_TIMEOUT_MS, |buffer|);
    match ready {
      case Err(e) =>
        out := TickOutcome(after, registered, wait, Err(e));
      case Ok(readyCount) =>
        var ran := DispatchPrefix(buffer, Min(readyCount, |buffer|), w);
        out := TickOutcome(after, registered, wait, Ok(ran));
    }
  }

  /** After a tick the directory holds exactly the old descriptors plus
      the staged ones; a staged descriptor is watched by the provider
      staged last for it. */
  lemma TickDirectory(lp: EventLoop)
    requires Q.Valid(lp.eventsQueue)
    ensures var staged := Q.Contents(lp.eventsQueue);
      var w := InsertAll(lp.watchers, staged);
      && w.Keys == lp.watchers.Keys + Fds(staged)
      && forall fd :: fd in Fds(staged) ==> exists i :: LastFor(staged, fd, i) && w[fd] == staged[i]
  {
    InsertAllSpec(lp.watchers, Q.Contents(lp.eventsQueue));
  }

  /** A loop whose staging queue has room for `ps` accepts every one of
      them, staged after the providers already waiting, in order. */
  lemma {:induction false} AddEventAcceptsCapacity(lp: EventLoop, ps: seq<Provider>)
    requires Q.Valid(lp.eventsQueue)
    requires |Q.Contents(lp.eventsQueue)| + |ps| <= Q.Capacity(lp.eventsQueue)
    ensures AddAll(lp, ps).Ok?
    ensures Q.Contents(AddAll(lp, ps).value.eventsQueue) == Q.Contents(lp.eventsQueue) + ps
    decreases |ps|
  {
    if ps != [] {
      var next := AddEvent(lp, ps[0]).value;
      AddEventAcceptsCapacity(next, ps[1..]);
      assert Q.Contents(lp.eventsQueue) + [ps[0]] + ps[1..] == Q.Contents(lp.eventsQueue) + ps;
    }
  }

  /** `add_event` applied to each provider in turn, stopping at the first
      failure. */
  function AddAll(lp: EventLoop, ps: seq<Provider>): (r: Result<EventLoop, Q.State>)
    requires Q.Valid(lp.eventsQueue)
    ensures r.Ok? ==> Q.Valid(r.value.eventsQueue) && r.value.eventsQueue.size == lp.eventsQueue.size
    decreases |ps|
  {
    if ps == [] then Ok(lp)
    else match AddEvent(lp, ps[0])
      case Err(e) => Err(e)
      case Ok(next) => AddAll(next, ps[1..])
  }

  /** From `default`, 256 `add_event` calls succeed and the 257th fails. */
  lemma DefaultQueueHolds256(epollCreate: Syscall, ps: seq<Provider>, extra: Provider)
    requires epollCreate.ret >= 0 && |ps| == 256
    ensures var lp := Default(epollCreate).value;
      && AddAll(lp, ps).Ok?
      && AddEvent(AddAll(lp, ps).value, extra) == Err(Q.Full)
  {
    var lp := Default(epollCreate).value;
    AddEventAcceptsCapacity(lp, ps);
    assert Q.Contents(AddAll(lp, ps).value.eventsQueue) == [] + ps;
    assert AddAll(lp, ps).value.eventsQueue.size == lp.eventsQueue.size;
  }
}
