/** `Timer` of src/events/timer.rs: a repeating timerfd provider whose
    `process` retries failed reads until one succeeds. */
module EventsTimer {
  import opened Sys
  import opened TimerFd
  import ReadLoop
  import IoTimer

  datatype Timer = Timer(callback: IoTimer.Callback, interval: U64, fd: Fd)

  /** The spec of `Timer::new`: the first expiry and the re-arm period
      are both `interval` seconds. */
  function SpecFor(interval: U64): (s: TimerSpec)
    ensures s.itValue == s.itInterval == Seconds(interval)
  {
    TimerSpec(Seconds(interval), Seconds(interval))
  }

  /** `Timer::new`, given what its three calls returned. */
  function New(callback: IoTimer.Callback, interval: U64, create: Syscall, clock: Syscall, settime: Syscall)
    : (r: (seq<Call>, Result<Timer, Errno>))
    ensures r.1.Ok? <==> create.ret >= 0 && clock.ret >= 0 && settime.ret >= 0
    ensures r.1.Ok? ==>
      r.1.value == Timer(callback, interval, create.ret) && |r.0| == 3 && r.0[2] == TimerfdSettime(create.ret, 0, SpecFor(interval))
    ensures create.ret < 0 ==> r.1 == Err(Errno(create.errno))
    ensures create.ret >= 0 && clock.ret < 0 ==> r.1 == Err(Errno(clock.errno))
    ensures create.ret >= 0 && clock.ret >= 0 && settime.ret < 0 ==> r.1 == Err(Errno(settime.errno))
  {
    var (calls, fd) := Arm(SpecFor(interval), create, clock, settime);
    (calls, match fd
            case Ok(fd) => Ok(Timer(callback, interval, fd))
            case Err(errno) => Err(errno))
  }

  /** This timer is the repeating timer of src/io/timer.rs: the same calls
      with the same spec, and the same outcome. */
  lemma SameAsRepeatingIoTimer(callback: IoTimer.Callback, interval: U64, create: Syscall, clock: Syscall, settime: Syscall)
    ensures SpecFor(interval) == IoTimer.SpecFor(interval, false)
    ensures New(callback, interval, create, clock, settime).0 == IoTimer.New(callback, interval, create, clock, settime).0
    ensures New(callback, interval, create, clock, settime).1.Err? <==> IoTimer.New(callback, interval, create, clock, settime).1.Err?
    ensures New(callback, interval, create, clock, settime).1.Err? ==>
      New(callback, interval, create, clock, settime).1.error == IoTimer.New(callback, interval, create, clock, settime).1.error
  {
  }

  /** `process`: every `-1` read is retried; the first other read either
      is a full read, which runs the callback once and returns, or is a
      short read, which fails. The read stores into the counter, so the
      callback is handed the count that read stored; the source passes the
      counter's value as the buffer address instead and so always hands on
      0 (`ReadLoop.NullBufferPassesZero`). */
  method Process(t: Timer, rs: seq<ReadLoop.Read>) returns (out: ReadLoop.Outcome)
    ensures |out.calls| <= 1
    ensures out.end.Returned? <==> |out.calls| == 1
    ensures out.end.Panicked? ==> out.end.cause.ShortRead? && out.calls == []
    ensures out.end.Panicked? ==>
      ReadLoop.Retries(rs) < |rs| && out.end == ReadLoop.Panicked(ReadLoop.ShortRead(rs[ReadLoop.Retries(rs)].ret))
    ensures var j := ReadLoop.Retries(rs);
      && (out.end.Starved? <==> j == |rs|)
      && (out.end.Returned? <==> j < |rs| && rs[j].ret == 8)
      && (out.end.Returned? ==> out.calls == [rs[j].value])
  {
    out := ReadLoop.Retry(rs, ReadLoop.Counter);
  }
}
