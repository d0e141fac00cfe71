/** The read loops of the providers' `process` methods. Each `read(fd,
    &counter, 8)` is replaced by its outcome, and a `process` call is run
    over the finite list of outcomes the kernel would hand out; when the
    list runs out before the loop stops, the call has not finished yet
    (the source would go on reading). */
module ReadLoop {
  import opened Sys
  import IoErrno

  /** One `read` of the 8-byte counter: its return value, `errno` after
      it, and the counter it stored. */
  datatype Read = Read(ret: int, errno: int, value: U64)

  /** What a read means to the loops of src/io/notify.rs,
      src/events/notify.rs and src/io/timer.rs. */
  datatype Step = WouldBlock | Failed(errno: int) | Short(count: int) | Full(value: U64)

  /** Why a `process` call panicked. */
  datatype Fatal = ReadError(errno: int) | ShortRead(count: int)

  /** How a `process` call ended: it returned, it panicked, or the reads ran
      out first. */
  datatype End = Returned | Panicked(cause: Fatal) | Starved

  /** The counters read before each callback, in order, and the end. */
  datatype Outcome = Outcome(calls: seq<U64>, end: End)

  /** `-1` with `EAGAIN` is the drained descriptor; any other `-1` is an
      error; any other count than 8 is a short read. */
  function Classify(r: Read): (s: Step)
    ensures s.WouldBlock? <==> r.ret == -1 && r.errno == IoErrno.EAGAIN
    ensures s.Failed? <==> r.ret == -1 && r.errno != IoErrno.EAGAIN
    ensures s.Short? <==> r.ret != -1 && r.ret != 8
    ensures s.Full? <==> r.ret == 8
    ensures s.Failed? ==> s.errno == r.errno
    ensures s.Short? ==> s.count == r.ret
    ensures s.Full? ==> s.value == r.value
  {
    if r.ret == -1 then
      if r.errno == IoErrno.EAGAIN then WouldBlock else Failed(r.errno)
    else if r.ret != 8 then Short(r.ret)
    else Full(r.value)
  }

  /** How a read that is not a full read ends the loop. */
  function Stop(r: Read): (e: End)
    requires !Classify(r).Full?
    ensures e.Returned? <==> Classify(r).WouldBlock?
    ensures r.ret == -1 && r.errno != IoErrno.EAGAIN ==> e == Panicked(ReadError(r.errno))
    ensures r.ret != -1 ==> e == Panicked(ShortRead(r.ret))
    ensures e != Starved
  {
    match Classify(r)
    case WouldBlock => Returned
    case Failed(errno) => Panicked(ReadError(errno))
    case Short(count) => Panicked(ShortRead(count))
  }

  /** The number of full reads before the first read that is not one. */
  function FullPrefix(rs: seq<Read>): (k: nat)
    ensures k <= |rs|
    ensures forall i :: 0 <= i < k ==> rs[i].ret == 8
    ensures k < |rs| ==> rs[k].ret != 8
    decreases |rs|
  {
    if rs == [] || rs[0].ret != 8 then 0 else 1 + FullPrefix(rs[1..])
  }

  /** The counters of the first `k` reads. */
  function Values(rs: seq<Read>, k: nat): (vs: seq<U64>)
    requires k <= |rs|
    ensures |vs| == k && forall i :: 0 <= i < k ==> vs[i] == rs[i].value
  {
    seq(k, i requires 0 <= i < k => rs[i].value)
  }

  /** The drain loop of `Notify::process`: a callback per full read, until
      the first read that is not one; that read decides the end. */
  method Drain(rs: seq<Read>) returns (out: Outcome)
    ensures var k := FullPrefix(rs);
      && out.calls == Values(rs, k)
      && out.end == (if k == |rs| then Starved else Stop(rs[k]))
  {
    var calls: seq<U64> := [];
    var i := 0;
    while i < |rs|
      invariant 0 <= i <= FullPrefix(rs)
      invariant calls == Values(rs, i)
    {
      var step := Classify(rs[i]);
      match step {
        case WouldBlock =>
          return Outcome(calls, Returned);
        case Failed(errno) =>
          return Outcome(calls, Panicked(ReadError(errno)));
        case Short(count) =>
          return Outcome(calls, Panicked(ShortRead(count)));
        case Full(value) =>
          calls := calls + [value];
      }
      i := i + 1;
    }
    out := Outcome(calls, Starved);
  }

  /** Reads after the one that stops the drain are never made. */
  lemma {:induction false} DrainIgnoresLaterReads(rs: seq<Read>, more: seq<Read>)
    requires FullPrefix(rs) < |rs|
    ensures FullPrefix(rs + more) == FullPrefix(rs)
    ensures (rs + more)[FullPrefix(rs)] == rs[FullPrefix(rs)]
    ensures Values(rs + more, FullPrefix(rs)) == Values(rs, FullPrefix(rs))
    decreases |rs|
  {
    if rs[0].ret == 8 {
      assert (rs + more)[1..] == rs[1..] + more;
      DrainIgnoresLaterReads(rs[1..], more);
    }
  }

  /** The single read of the `Timer::process` of src/io/timer.rs: the loop
      body always leaves after its first read, so at most one callback. */
  function ReadOnce(rs: seq<Read>): (out: Outcome)
    ensures |out.calls| <= 1
    ensures rs == [] ==> out == Outcome([], Starved)
    ensures rs != [] && rs[0].ret == 8 ==> out == Outcome([rs[0].value], Returned)
    ensures rs != [] && rs[0].ret != 8 ==> out == Outcome([], Stop(rs[0]))
  {
    if rs == [] then Outcome([], Starved)
    else match Classify(rs[0])
      case WouldBlock => Outcome([], Returned)
      case Failed(errno) => Outcome([], Panicked(ReadError(errno)))
      case Short(count) => Outcome([], Panicked(ShortRead(count)))
      case Full(value) => Outcome([value], Returned)
  }

  /** The timer's read is the drain's first step with the loop cut after
      the first callback: the two agree on how they end when the first read
      is not full, and on the first callback when it is. */
  lemma ReadOnceIsFirstDrainStep(rs: seq<Read>)
    ensures var k := FullPrefix(rs);
      && (k == 0 && rs != [] ==> ReadOnce(rs).end == Stop(rs[0]))
      && (k > 0 ==> ReadOnce(rs).calls == Values(rs, k)[..1])
  {
  }

  /** The index of the first read that did not return `-1`, or the number of
      reads when all of them did. */
  function Retries(rs: seq<Read>): (j: nat)
    ensures j <= |rs|
    ensures forall i :: 0 <= i < j ==> rs[i].ret == -1
    ensures j < |rs| ==> rs[j].ret != -1
    decreases |rs|
  {
    if rs == [] || rs[0].ret != -1 then 0 else 1 + Retries(rs[1..])
  }

  /** Where the retrying `process` of src/events/timer.rs has `read` store
      the counter. `Counter` is `&numTimeouts`. `NullPointer` is
      `transmute(numTimeouts)`, the counter's value taken as an address,
      which is 0 because the counter starts at 0 and is never written. */
  datatype Buffer = Counter | NullPointer

  /** The count the callback is handed after a full read: what the read
      stored when it stored into the counter, and the untouched 0
      otherwise. */
  function Delivered(r: Read, buffer: Buffer): (v: U64)
    ensures buffer == Counter ==> v == r.value
    ensures buffer == NullPointer ==> v == 0
  {
    if buffer == Counter then r.value else 0
  }

  /** The retrying `process`, one read at a time: a `-1` is retried
      whatever `errno` says; the first other read either is a full read,
      which runs the callback once and returns, or is short and fails. */
  function Retried(rs: seq<Read>, buffer: Buffer): (out: Outcome)
    ensures out.end.Returned? <==> |out.calls| == 1
    ensures out.end.Panicked? ==> out.end.cause.ShortRead? && out.calls == []
    ensures out.end.Starved? <==> forall i :: 0 <= i < |rs| ==> rs[i].ret == -1
    ensures buffer == NullPointer ==> forall i :: 0 <= i < |out.calls| ==> out.calls[i] == 0
    decreases |rs|
  {
    if rs == [] then Outcome([], Starved)
    else if rs[0].ret == -1 then
      var out := Retried(rs[1..], buffer);
      assert forall i :: 1 <= i < |rs| ==> rs[i] == rs[1..][i - 1];
      out
    else if rs[0].ret != 8 then Outcome([], Panicked(ShortRead(rs[0].ret)))
    else Outcome([Delivered(rs[0], buffer)], Returned)
  }

  /** The retry loop, storing each read's counter into `buffer`: it ends
      at the first read that is not `-1`. */
  method Retry(rs: seq<Read>, buffer: Buffer) returns (out: Outcome)
    ensures var j := Retries(rs);
      out == (if j == |rs| then Outcome([], Starved)
              else if rs[j].ret == 8 then Outcome([Delivered(rs[j], buffer)], Returned)
              else Outcome([], Panicked(ShortRead(rs[j].ret))))
  {
    var i := 0;
    while i < |rs|
      invariant 0 <= i <= Retries(rs)
    {
      var r := rs[i];
      if r.ret != -1 {
        if r.ret != 8 {
          return Outcome([], Panicked(ShortRead(r.ret)));
        }
        return Outcome([Delivered(r, buffer)], Returned);
      }
      i := i + 1;
    }
    out := Outcome([], Starved);
  }

  /** The loop and the read-at-a-time definition agree on every list of
      reads and either buffer. */
  lemma {:induction false} RetryIsRetried(rs: seq<Read>, buffer: Buffer)
    ensures var j := Retries(rs);
      Retried(rs, buffer) == (if j == |rs| then Outcome([], Starved)
                              else if rs[j].ret == 8 then Outcome([Delivered(rs[j], buffer)], Returned)
                              else Outcome([], Panicked(ShortRead(rs[j].ret))))
    decreases |rs|
  {
    if rs != [] && rs[0].ret == -1 {
      RetryIsRetried(rs[1..], buffer);
      var j := Retries(rs[1..]);
      if j < |rs[1..]| {
        assert rs[j + 1] == rs[1..][j];
      }
    }
  }

  /** As written the callback is always handed 0: after a full read
      storing 42, the source calls back with 0 where reading into the
      counter calls back with 42. */
  lemma NullBufferPassesZero(rs: seq<Read>)
    ensures Retried(rs, NullPointer).end.Returned? ==> Retried(rs, NullPointer).calls == [0]
    ensures Retried([Read(8, 0, 42)], NullPointer) == Outcome([0], Returned)
    ensures Retried([Read(8, 0, 42)], Counter) == Outcome([42], Returned)
  {
  }

  /** Reading into the counter hands the callback the count stored by the
      first read that is not `-1`, whatever came before it; when that read
      comes first, this is the single read of the io `Timer::process`. */
  lemma {:induction false} CounterReachesCallback(rs: seq<Read>, retried: nat)
    requires retried <= |rs|
    requires forall i :: 0 <= i < retried ==> rs[i].ret == -1
    requires retried < |rs| && rs[retried].ret == 8
    ensures Retried(rs, Counter) == Outcome([rs[retried].value], Returned)
    ensures rs[0].ret == 8 ==> Retried(rs, Counter) == ReadOnce(rs)
    decreases retried
  {
    if retried > 0 {
      CounterReachesCallback(rs[1..], retried - 1);
    }
  }
}
