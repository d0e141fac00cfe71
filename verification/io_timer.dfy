/** `Timer` of src/io/timer.rs: a timerfd provider, repeating or single
    shot, whose `process` makes one read of the expiry counter. */
module IoTimer {
  import opened Sys
  import opened Readiness
  import opened TimerFd
  import ReadLoop

  /** The callback, by identity. */
  type Callback = nat

  datatype Timer = Timer(callback: Callback, interval: U64, active: bool, fd: Fd, events: IoFlag)

  /** The spec of `create_timerfd`: the first expiry `interval` seconds
      away; then every `interval` seconds, or never again when single
      shot. */
  function SpecFor(interval: U64, singleShot: bool): (s: TimerSpec)
    ensures s.itValue == Seconds(interval)
    ensures singleShot ==> s.itInterval == TimeSpec(0, 0)
    ensures !singleShot ==> s.itInterval == s.itValue
  {
    var secInterval: U64 := if singleShot then 0 else interval;
    TimerSpec(Seconds(secInterval), Seconds(interval))
  }

  /** `create_timerfd`, given what its three calls returned. */
  function CreateTimerfd(interval: U64, singleShot: bool, create: Syscall, clock: Syscall, settime: Syscall)
    : (r: (seq<Call>, Result<Fd, Errno>))
    ensures r.1.Ok? <==> create.ret >= 0 && clock.ret >= 0 && settime.ret >= 0
    ensures r.1.Ok? ==>
      r.1.value == create.ret && |r.0| == 3 && r.0[2] == TimerfdSettime(create.ret, 0, SpecFor(interval, singleShot))
    ensures create.ret < 0 ==> r.1 == Err(Errno(create.errno))
    ensures create.ret >= 0 && clock.ret < 0 ==> r.1 == Err(Errno(clock.errno))
    ensures create.ret >= 0 && clock.ret >= 0 && settime.ret < 0 ==> r.1 == Err(Errno(settime.errno))
  {
    Arm(SpecFor(interval, singleShot), create, clock, settime)
  }

  /** The `Timer` built around a created descriptor. */
  function Wrap(callback: Callback, interval: U64, r: Result<Fd, Errno>): (t: Result<Timer, Errno>)
    ensures t.Err? <==> r.Err?
    ensures t.Err? ==> t.error == r.error
    ensures t.Ok? ==> t.value == Timer(callback, interval, false, r.value, POLL_IN)
  {
    match r
    case Ok(fd) => Ok(Timer(callback, interval, false, fd, POLL_IN))
    case Err(errno) => Err(errno)
  }

  /** `Timer::new`: a repeating timer. */
  function New(callback: Callback, interval: U64, create: Syscall, clock: Syscall, settime: Syscall)
    : (r: (seq<Call>, Result<Timer, Errno>))
    ensures r.0 == CreateTimerfd(interval, false, create, clock, settime).0
    ensures r.1.Ok? <==> create.ret >= 0 && clock.ret >= 0 && settime.ret >= 0
    ensures r.1.Ok? ==> r.1.value == Timer(callback, interval, false, create.ret, POLL_IN)
    ensures r.1.Err? ==> r.1.error == CreateTimerfd(interval, false, create, clock, settime).1.error
  {
    var (calls, fd) := CreateTimerfd(interval, false, create, clock, settime);
    (calls, Wrap(callback, interval, fd))
  }

  /** `Timer::single_shot`. */
  function SingleShot(callback: Callback, interval: U64, create: Syscall, clock: Syscall, settime: Syscall)
    : (r: (seq<Call>, Result<Timer, Errno>))
    ensures r.0 == CreateTimerfd(interval, true, create, clock, settime).0
    ensures r.1.Ok? <==> create.ret >= 0 && clock.ret >= 0 && settime.ret >= 0
    ensures r.1.Ok? ==> r.1.value == Timer(callback, interval, false, create.ret, POLL_IN)
    ensures r.1.Err? ==> r.1.error == CreateTimerfd(interval, true, create, clock, settime).1.error
  {
    var (calls, fd) := CreateTimerfd(interval, true, create, clock, settime);
    (calls, Wrap(callback, interval, fd))
  }

  /** `new` and `single_shot` succeed and fail together, with the same
      error or the same `Timer`; their calls differ only in the spec's
      re-arm period, which is zero for the single shot. */
  lemma NewAndSingleShotDifferInPeriod(callback: Callback, interval: U64, create: Syscall, clock: Syscall, settime: Syscall)
    ensures var (c1, t1) := New(callback, interval, create, clock, settime);
      var (c2, t2) := SingleShot(callback, interval, create, clock, settime);
      && t1 == t2
      && |c1| == |c2|
      && (forall i :: 0 <= i < |c1| && !c1[i].TimerfdSettime? ==> c1[i] == c2[i])
      && (t1.Ok? ==>
           && t1.value.events == POLL_IN && !t1.value.active
           && t1.value.callback == callback && t1.value.interval == interval
           && c1[2].spec == SpecFor(interval, false) && c2[2].spec == SpecFor(interval, true)
           && c1[2].spec.itValue == c2[2].spec.itValue
           && c2[2].spec.itInterval == TimeSpec(0, 0))
  {
    ArmOutcomeIgnoresSpec(SpecFor(interval, false), SpecFor(interval, true), create, clock, settime);
  }

  /** An interval of 2^63 seconds or more is armed with a negative number
      of seconds, which the kernel rejects; below that the seconds are the
      interval itself. */
  lemma LargeIntervalWraps(interval: U64)
    ensures interval < 0x8000_0000_0000_0000 ==> SpecFor(interval, false).itValue.tvSec == interval
    ensures interval >= 0x8000_0000_0000_0000 ==> SpecFor(interval, false).itValue.tvSec < 0
  {
  }

  /** `poll_fd()`. */
  function PollFd(t: Timer): Fd
  {
    t.fd
  }

  /** `flags()`. */
  function Flags(t: Timer): IoFlag
  {
    t.events
  }

  /** What a new timer presents to an event loop: the timerfd descriptor
      and an interest that registers as EPOLLIN alone. */
  lemma NewTimerProvider(callback: Callback, interval: U64, singleShot: bool, create: Syscall, clock: Syscall, settime: Syscall)
    requires create.ret >= 0 && clock.ret >= 0 && settime.ret >= 0
    ensures var t := if singleShot then SingleShot(callback, interval, create, clock, settime).1
                     else New(callback, interval, create, clock, settime).1;
      && t.Ok?
      && PollFd(t.value) == create.ret && Flags(t.value) == POLL_IN
      && FromIoFlags(Flags(t.value)) == EPOLLIN
  {
  }

  /** `process`: one read. `-1`/`EAGAIN` returns without a callback, any
      other failure or short read panics, and a full read runs the
      callback once with the expiry count it read. */
  function Process(t: Timer, rs: seq<ReadLoop.Read>): (out: ReadLoop.Outcome)
    ensures |out.calls| <= 1
    ensures out.end.Returned? && rs != [] && rs[0].ret == 8 ==> out.calls == [rs[0].value]
    ensures out.end.Returned? <==> rs != [] && (rs[0].ret == 8 || (rs[0].ret == -1 && rs[0].errno == ReadLoop.IoErrno.EAGAIN))
    ensures |out.calls| == 1 <==> rs != [] && rs[0].ret == 8
    ensures out.end.Panicked? ==>
      rs != [] && rs[0].ret != 8 && out.calls == [] && out.end == ReadLoop.Stop(rs[0])
    ensures rs != [] && rs[0].ret != 8 ==> out == ReadLoop.Outcome([], ReadLoop.Stop(rs[0]))
    ensures rs == [] ==> out.end.Starved?
  {
    ReadLoop.ReadOnce(rs)
  }
}
