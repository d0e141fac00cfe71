/** The timerfd set-up shared by `create_timerfd` in src/io/timer.rs and
    `Timer::new` in src/events/timer.rs: create a non-blocking monotonic
    timer descriptor, read the clock, arm the descriptor with a spec, and
    give up with `errno` at the first step that fails. */
module TimerFd {
  import opened Sys

  const CLOCK_MONOTONIC: int := 1
  const TFD_NONBLOCK: int := 0x800

  /** `timespec`: seconds (`time_t`) and nanoseconds. */
  datatype TimeSpec = TimeSpec(tvSec: int, tvNsec: int)

  /** `TimerSpec`: the re-arm period and the first expiry. */
  datatype TimerSpec = TimerSpec(itInterval: TimeSpec, itValue: TimeSpec)

  /** The system calls of the set-up, with their arguments. */
  datatype Call =
    | TimerfdCreate(clockId: int, flags: int)
    | ClockGettime(clockId: int)
    | TimerfdSettime(fd: Fd, flags: int, spec: TimerSpec)

  /** `x as time_t`: a `u64` reinterpreted as the 64-bit signed `time_t`,
      so values from 2^63 up wrap to negative seconds. */
  function AsTimeT(x: U64): (t: int)
    ensures -0x8000_0000_0000_0000 <= t < 0x8000_0000_0000_0000
    ensures t == x || t == x - 0x1_0000_0000_0000_0000
    ensures x < 0x8000_0000_0000_0000 <==> t == x
  {
    if x < 0x8000_0000_0000_0000 then x else x - 0x1_0000_0000_0000_0000
  }

  /** A whole number of seconds. */
  function Seconds(x: U64): TimeSpec
  {
    TimeSpec(AsTimeT(x), 0)
  }

  /** The set-up given the spec and what each call returned (with `errno`
      after it): the calls actually made and either the armed descriptor
      or the error of the first failing call. */
  function Arm(spec: TimerSpec, create: Syscall, clock: Syscall, settime: Syscall)
    : (r: (seq<Call>, Result<Fd, Errno>))
    ensures |r.0| >= 1 && r.0[0] == TimerfdCreate(CLOCK_MONOTONIC, TFD_NONBLOCK)
    ensures create.ret < 0 ==> r == ([r.0[0]], Err(Errno(create.errno)))
    ensures create.ret >= 0 && clock.ret < 0 ==>
      r == ([r.0[0], ClockGettime(CLOCK_MONOTONIC)], Err(Errno(clock.errno)))
    ensures create.ret >= 0 && clock.ret >= 0 ==>
      |r.0| == 3 && r.0[2] == TimerfdSettime(create.ret, 0, spec)
    ensures create.ret >= 0 && clock.ret >= 0 && settime.ret < 0 ==> r.1 == Err(Errno(settime.errno))
    ensures r.1.Ok? <==> create.ret >= 0 && clock.ret >= 0 && settime.ret >= 0
    ensures r.1.Ok? ==> r.1.value == create.ret
  {
    var c0 := TimerfdCreate(CLOCK_MONOTONIC, TFD_NONBLOCK);
    if create.ret < 0 then ([c0], Err(Current(create)))
    else
      var c1 := ClockGettime(CLOCK_MONOTONIC);
      if clock.ret < 0 then ([c0, c1], Err(Current(clock)))
      else
        var c2 := TimerfdSettime(create.ret, 0, spec);
        if settime.ret < 0 then ([c0, c1, c2], Err(Current(settime)))
        else ([c0, c1, c2], Ok(create.ret))
  }

  /** The spec only reaches the settime call: it never decides whether the
      set-up fails, and a successful set-up arms the created descriptor
      with it. */
  lemma ArmOutcomeIgnoresSpec(s1: TimerSpec, s2: TimerSpec, create: Syscall, clock: Syscall, settime: Syscall)
    ensures Arm(s1, create, clock, settime).1 == Arm(s2, create, clock, settime).1
    ensures Arm(s1, create, clock, settime).1.Ok? ==>
      Arm(s1, create, clock, settime).0 ==
        [TimerfdCreate(CLOCK_MONOTONIC, TFD_NONBLOCK), ClockGettime(CLOCK_MONOTONIC), TimerfdSettime(create.ret, 0, s1)]
  {
  }
}
