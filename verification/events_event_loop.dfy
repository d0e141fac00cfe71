/** `EventLoop` of src/events/event_loop.rs: no staging queue; each tick
    waits on epoll and runs `process` for each readable entry among the
    first `readyCount` whose descriptor is in the directory. One tick of
    the endless `run` loop is modelled. */
module EventsEventLoop {
  import opened Readiness
  import opened Epoll
  import opened Directory
  import opened Dispatch

  /** Timeout of each wait, in milliseconds. */
  const POLL_TIMEOUT_MS: nat := 1000

  /** One tick after `epoll_wait` returned `readyCount` into `buffer`
      (the kernel never reports more entries than the buffer holds).
      A count of zero or below, which includes an error return, dispatches
      nothing; otherwise entries `0 .. readyCount - 1` go through the
      EPOLLIN filter in order, and the entries past `readyCount` are never
      looked at. */
  method Tick(d: Directory, readyCount: int, buffer: seq<EpollEvent>) returns (ran: seq<Provider>)
    requires |buffer| == EVENT_BUFFER_SIZE && readyCount <= |buffer|
    ensures readyCount <= 0 ==> ran == []
    ensures readyCount > 0 ==> ran == Dispatched(buffer[..readyCount], d)
  {
    ran := [];
    if readyCount > 0 {
      ran := DispatchPrefix(buffer, readyCount, d);
    }
  }

  /** Per entry: a readable entry for a watched descriptor runs that
      provider exactly once, any other entry runs nothing, and the tick's
      dispatch list is the concatenation over the entries in order. */
  lemma TickIsPerEntry(d: Directory, buffer: seq<EpollEvent>, n: nat)
    requires 0 < n <= |buffer|
    ensures Dispatched(buffer[..n], d) == Dispatched(buffer[..n - 1], d) +
      (if Contains(buffer[n - 1].events, EPOLLIN) && buffer[n - 1].data in d
       then [d[buffer[n - 1].data]] else [])
  {
    assert buffer[..n] == buffer[..n - 1] + [buffer[n - 1]];
    DispatchedAppend(buffer[..n - 1], [buffer[n - 1]], d);
    DispatchedSingle(buffer[n - 1], d);
  }
}
