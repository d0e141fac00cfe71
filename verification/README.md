# lys reactor model

A Dafny model of lys, an early single-threaded epoll reactor written in pre-1.0 Rust. It covers
the parts of the reactor that decide something:

- **Bounded staging queue.** The circular buffer `BoundedQueue` has one reserved slot, modular
  cursors and a separate length counter. It is modelled as an immutable value with a validity
  invariant and an abstract contents sequence. The model shows that it is a FIFO of exactly `n`
  usable slots.
- **Readiness translation.** The two-bit `IoFlag` set is translated to and from the epoll bit
  set, and the two translations round-trip.
- **Epoll poller (`src/io.rs`).** The model covers the `epoll_ctl` requests it builds and the
  conversion of an `epoll_wait` buffer into `IoEvent`s.
- **Three event loops, one tick each.**
  - The loop of `src/io/event_loop.rs` drains its staging queue into the fd-keyed directory,
    waits, and dispatches readable entries of watched descriptors.
  - The loop of `src/events/event_loop.rs` dispatches in the same way, without a queue.
  - The loop of `src/io.rs` joins providers directly and panics on an unknown descriptor.
- **Providers.**
  - eventfd notifiers, in both variants.
  - timerfd timers: the io variant (repeating or single shot) and the events variant (always
    repeating, and it retries failed reads).
  - The TCP client helpers: IPv4 packing, socket creation, and `connect`, where `EINPROGRESS`
    counts as success.
- **Errno tables.** Both description tables, the aliases and the unknown fallback. The io table
  formats as `"<code>: <description>"`; the events table formats as the description only.

Every system call is replaced by a parameter: what it returned and the `errno` value right after
it (`Sys.Syscall`). A `process` read loop runs over a finite list of read outcomes. When the list
runs out before the loop stops, the outcome is `Starved`, because the real loop would keep
reading. Panics (`unwrap`, `panic!`, `fail!`, `unimplemented!`) become explicit error values.
Callbacks are identities, and a call is recorded as the counter it follows. Each endless `run`
loop is modelled as one tick.

Where the source does not type-check, the model follows the evident intent:

- `self.poller.register(fd)` in `src/io/event_loop.rs` passes no interest. It is modelled as
  registering the descriptor with `from_io_flags` of the provider's flags.
- `src/events/notify.rs` calls `Errno::current()` at lines 32, 54 and 70, but the events `Errno`
  has only a static `value()`. The failing `new` and `notify` paths are modelled as returning the
  `errno` of the failing call. The `process` path (`Errno::current().value()`) is modelled as
  reading `errno` and comparing it with `EAGAIN`, which is 11 in both tables.

## Model

| member | source | states |
|---|---|---|
| BoundedQueue.New | src/utils/bounded_queue.rs:20-30 | `new(n)` gives a valid queue with `n + 1` slots, all `None`, so `n` usable slots, with nothing in it and `len` 0 |
| BoundedQueue.Len | src/utils/bounded_queue.rs:63-65 | the `len` counter equals the number of elements the queue holds |
| BoundedQueue.CursorsAgreeWithLen | src/utils/bounded_queue.rs:59-69 | for a valid queue, `len == (write_index - read_index) mod size`; `is_empty` holds iff `len` is 0 iff the queue holds nothing; `is_full` holds iff `len` equals the capacity |
| BoundedQueue.Push | src/utils/bounded_queue.rs:32-43 | `push` fails with `Full` iff the queue is at capacity, and then leaves it unchanged; otherwise it returns the old write cursor, stores the value there, advances the cursor modulo `size`, increments `len`, and appends the value to the contents; validity is kept |
| BoundedQueue.PushKeepsValid | src/utils/bounded_queue.rs:37-40 | the slot write, cursor advance and `len` increment keep the invariant and add the value at the back |
| BoundedQueue.Pop | src/utils/bounded_queue.rs:45-57 | `pop` fails with `Empty` iff the queue holds nothing, and then changes nothing; otherwise it returns the front value, clears its slot, advances the read cursor modulo `size`, decrements `len` and drops the front of the contents |
| BoundedQueue.PopKeepsValid | src/utils/bounded_queue.rs:50-53 | taking the front slot and advancing the read cursor keep the invariant and remove exactly the front element |
| BoundedQueue.Clear | src/utils/bounded_queue.rs:71-78 | after `clear` the queue is valid and empty, keeps its size, both cursors and `len` are 0, and every slot is `None` |
| BoundedQueue.PushAllWithinCapacity | src/utils/bounded_queue.rs:32-43 | pushes that fit in the remaining capacity all succeed and append their values in order |
| BoundedQueue.NewAdmitsExactlyCapacity | src/utils/bounded_queue.rs:20-35 | on `new(n)`, `n` pushes succeed and the next one returns `Err(Full)` with the queue unchanged |
| BoundedQueue.PopAllYieldsContents | src/utils/bounded_queue.rs:45-57 | popping until empty yields the contents in order and leaves the queue empty |
| BoundedQueue.PushThenPopAllIsFifo | src/utils/bounded_queue.rs:32-57 | values pushed within capacity are popped in push order, after what was already queued |
| BoundedQueue.BasicScenario | src/utils/bounded_queue.rs:88-111 | the unit test's sequence: a queue of 8 takes 0..7 and refuses 9; the first pop gives 0 and leaves 7; after `clear` the queue is empty and `pop` fails |
| Readiness.PollStopIsInAndOut | src/io.rs:18-25 | `POLL_STOP` is `POLL_IN \| POLL_OUT` |
| Readiness.ToIoFlags | src/io.rs:100-113 | `to_io_flags` sets `POLL_IN` iff EPOLLIN is present and `POLL_OUT` iff EPOLLOUT is present |
| Readiness.FromIoFlags | src/io.rs:115-128 | `from_io_flags` sets EPOLLIN iff `POLL_IN` and EPOLLOUT iff `POLL_OUT`, and never sets any other epoll bit |
| Readiness.TogglesActAsInsertions | src/io.rs:100-128 | the toggles of both translations act as insertions: each result is the union of the bits whose counterpart is set in the input |
| Readiness.DecodeEncode | src/io.rs:100-128 | `to_io_flags(from_io_flags(f)) == f` for every `IoFlag` |
| Readiness.EncodeDecode | src/io.rs:100-128 | `from_io_flags(to_io_flags(k))` keeps exactly the EPOLLIN and EPOLLOUT bits of `k` |
| Readiness.TranslationIsBijective | src/io.rs:115-128 | two flag sets encode alike iff they are equal |
| Epoll.NewEpoll | src/io.rs:135-143 | `Epoll::new` is `None` iff `epoll_create` returned a negative value; otherwise it holds that descriptor |
| Epoll.Poll | src/io.rs:181-203 | `poll` is `None` iff the wait result is negative; otherwise it returns one `IoEvent` per buffer entry among the first `res`, in order, with `fd = data` and `flags = to_io_flags(events)` |
| Epoll.ControlRequests | src/io.rs:146-179 | `add`, `remove` and `modify` pass the `EpollControl` codes 1, 2 and 3 for the given descriptor; only `remove` passes a null event; `add` and `modify` encode the interest the same way |
| Epoll.AddRequestEncodes | src/io.rs:147-151 | an `add` request carries the descriptor as payload and the interest encoded so that it decodes back to `(fd, flags)` |
| Epoll.AddedDescriptorIsReported | src/io.rs:147-158 | a descriptor armed by `add` is reported back under its own number, with the ready bits translated |
| Epoll.ModifyReportsDescriptorZero | src/io.rs:160-164 | as written, a descriptor re-armed by `modify` is reported as descriptor 0 (fd 5 re-armed for reading comes back as `IoEvent(0, POLL_IN)`) |
| Epoll.ModifyKeepingFdIsReported | src/io.rs:160-164 | with the descriptor as payload, a modified registration is reported under its own number, stores the same event as `add`, and decodes to exactly the new interest |
| Directory.InsertAllSpec | src/io/event_loop.rs:50-56 | inserting providers in order gives the old keys plus the new descriptors; a key not among the new ones keeps its provider; a new descriptor maps to the last provider inserted for it |
| Directory.InsertAllAppend | src/io/event_loop.rs:50-56 | inserting two batches one after the other is inserting their concatenation |
| Dispatch.DispatchedAppend | src/io/event_loop.rs:62-70 | the dispatch of a buffer is the dispatch of its parts, in order |
| Dispatch.DispatchedSingle | src/io/event_loop.rs:63-69 | one entry runs its watcher's `process` exactly once when it has EPOLLIN and a watched descriptor, and runs nothing otherwise |
| Dispatch.SkippedEntryIsInvisible | src/io/event_loop.rs:63-68 | an entry without EPOLLIN, or for an unwatched descriptor, can be removed without changing what is dispatched |
| Dispatch.DispatchedFromDirectory | src/io/event_loop.rs:62-70 | there are never more dispatches than entries, and every dispatched provider is the watcher of some readable entry's descriptor |
| Dispatch.DispatchPrefix | src/events/event_loop.rs:48-56 | the index loop over entries `0 .. count - 1` produces exactly the dispatch of that prefix |
| IoEventLoop.Default | src/io/event_loop.rs:38-46 | `default` panics iff `Epoll::new` fails; otherwise it gives an empty directory and an empty staging queue with exactly 256 usable slots |
| IoEventLoop.AddEvent | src/io/event_loop.rs:74-79 | `add_event` fails with `Full` iff the queue is at capacity; otherwise it appends the provider at the back and leaves the directory alone |
| IoEventLoop.Drain | src/io/event_loop.rs:50-56 | the drain loop ends with an empty queue; the directory becomes the staged providers inserted in FIFO order; one registration is issued per staged provider, in order, with its descriptor and encoded interest |
| IoEventLoop.Tick | src/io/event_loop.rs:48-72 | a tick drains first, issuing one registration per staged provider in FIFO order, then waits 1000 ms on 256 entries; a failed wait passes the error on (the `unwrap` panic); otherwise the first `readyCount` entries are dispatched through the EPOLLIN filter against the drained directory |
| IoEventLoop.TickDirectory | src/io/event_loop.rs:50-56 | after a tick the directory keys are the old keys plus the staged descriptors, and each staged descriptor is watched by the provider staged last for it |
| IoEventLoop.AddEventAcceptsCapacity | src/io/event_loop.rs:74-79 | `add_event` calls within capacity all succeed and stage the providers in order |
| IoEventLoop.DefaultQueueHolds256 | src/io/event_loop.rs:38-79 | on a default loop, 256 `add_event` calls succeed and the 257th fails with `Full` |
| EventsEventLoop.Tick | src/events/event_loop.rs:41-59 | a ready count of zero or below dispatches nothing; otherwise entries `0 .. readyCount - 1` are dispatched through the EPOLLIN filter, and missing keys are skipped; entries past `readyCount` are never looked at |
| EventsEventLoop.TickIsPerEntry | src/events/event_loop.rs:48-56 | each examined entry adds its watcher exactly once when it is readable and watched, and adds nothing otherwise |
| IoReactor.NewReactor | src/io.rs:360-367 | `EventLoop::new` panics iff `Epoll::new` fails; otherwise it has no providers and has issued no requests |
| IoReactor.ProcessEvent | src/io.rs:388-396 | `process_event` delivers the event's flags to the provider registered for its descriptor, and panics with that descriptor iff none is registered |
| IoReactor.DeliverAll | src/io.rs:382-384 | events are delivered in order, each to its registered provider, until the first event with an unknown descriptor, which panics |
| IoReactor.RunOnceCompletes | src/io.rs:378-386 | a pass ends without panicking iff the poll succeeded and every polled descriptor has a provider, and then every event is delivered |
| IoReactor.JoinedProviderReceivesItsEvents | src/io.rs:369-376 | `join` issues an `add` for the provider's own descriptor and flags, so an event the kernel reports for it reaches that provider with the ready bits translated |
| IoReactor.RejoinReplaces | src/io.rs:369-376 | a second `join` on the same descriptor replaces the provider, and both `add` requests are issued |
| Decimal.ParseIntToString | src/io/errno.rs:92 | the decimal rendering of an `int` parses back to the same number |
| Decimal.NumberBeforeSeparator | src/io/errno.rs:92 | a printed number followed by a non-digit separator determines the number |
| IoErrno.Describe | src/io/errno.rs:16-90 | the description is "Unknown errno code" iff the code has no arm: it is outside 1..73 and not 115, or it is 41 or 58 |
| IoErrno.Value | src/io/errno.rs:101-105 | `value()` returns the wrapped code unchanged |
| IoErrno.RenderSplits | src/io/errno.rs:92 | the `"{}: {}"` line splits into a prefix that parses back to the code, then `": "`, then the description |
| IoErrno.RenderIsInjective | src/io/errno.rs:92 | two lines are equal only when both code and description are equal |
| IoErrno.FormatRoundTrip | src/io/errno.rs:12-93 | the formatted error gives back its code and description, and two errors format alike iff they are equal |
| IoErrno.Descriptions | src/io/errno.rs:108-183 | `EWOULDBLOCK` and `EAGAIN` both read "Try again"; `EDEADLOCK` and `EDEADLK` share their text; 115 reads "Operation now in progress"; 0, -1, 41 and 58 are unknown |
| EventsErrno.Describe | src/events/errno.rs:16-52 | the description is "Unknown errno code" iff the code is outside 1..34 |
| EventsErrno.Format | src/events/errno.rs:54 | the formatted error is the description alone, so it is the fallback iff the code is outside 1..34 |
| EventsErrno.AgreesWithIo | src/events/errno.rs:16-51 | on 1..34 the two tables give the same text; codes the io table knows beyond 34 are unknown here |
| EventsErrno.FormatIsSuffixOfIoFormat | src/events/errno.rs:12-55 | for codes 1..34 the io line is this line with the number and `": "` in front |
| ReadLoop.Classify | src/io/notify.rs:68-81 | a read is a would-block iff it returned -1 with `EAGAIN`, an error iff -1 with another errno, short iff neither -1 nor 8, and full iff 8 |
| ReadLoop.Stop | src/io/notify.rs:72-81 | a read that is not full ends the loop normally iff it is the `EAGAIN` case; any other -1 panics with its errno, and any other count panics with that count |
| ReadLoop.FullPrefix | src/io/notify.rs:67-84 | the count of leading full reads: all of those returned 8, and the read after them did not |
| ReadLoop.Drain | src/io/notify.rs:65-85 | the drain runs the callback once per full read before the first read that is not full; that read decides the end; when every read is full the loop has not finished |
| ReadLoop.DrainIgnoresLaterReads | src/io/notify.rs:67-84 | reads after the one that stops the drain change neither the callbacks nor the end |
| ReadLoop.ReadOnce | src/io/timer.rs:119-142 | the io timer makes one read: a full read runs the callback once with the counter and returns; `EAGAIN` returns with no callback; anything else panics |
| ReadLoop.ReadOnceIsFirstDrainStep | src/io/timer.rs:122-140 | that single read is the drain loop cut after its first callback |
| ReadLoop.Retries | src/events/timer.rs:85-92 | the count of leading -1 reads: all of those returned -1, and the read after them did not |
| ReadLoop.Delivered | src/events/timer.rs:84-97 | the callback gets what the read stored when the buffer is the counter, and the counter's initial 0 when it is not |
| ReadLoop.Retried | src/events/timer.rs:83-101 | the retrying loop returns iff its callback ran exactly once; its only failure is a short read, with no callback; it runs out of reads iff every read was -1; with the null buffer every count handed on is 0 |
| ReadLoop.Retry | src/events/timer.rs:83-101 | every -1 read is retried whatever errno says; the first other read either is full, so one callback with the count the buffer holds and a return, or is short, so a panic |
| ReadLoop.RetryIsRetried | src/events/timer.rs:83-101 | the loop and the read-at-a-time definition give the same outcome for every list of reads and either buffer |
| ReadLoop.NullBufferPassesZero | src/events/timer.rs:84-97 | as written, a returning `process` calls back with 0; one full read storing 42 gives a callback with 0, where reading into the counter gives 42 |
| ReadLoop.CounterReachesCallback | src/events/timer.rs:84-97 | reading into the counter, the callback gets the count of the first full read after any number of -1 reads; when that read comes first this is the io timer's single read |
| IoNotify.New | src/io/notify.rs:32-47 | `new` calls `eventfd(0, EFD_NONBLOCK)`; it fails with the current errno iff eventfd returned a negative descriptor; otherwise it gives an inactive notifier on that descriptor with interest `POLL_IN` and the given callback |
| IoNotify.DoNotify | src/io/notify.rs:49-61 | `notify` writes the value 1 as 8 bytes to its descriptor, and fails with the current errno iff the write returned -1 |
| IoNotify.Process | src/io/notify.rs:65-85 | one callback per full read before the first read that is not full; the loop returns iff that read is -1/`EAGAIN`; any other such read panics |
| IoNotify.NewNotifyProvider | src/io/notify.rs:32-91 | a new notifier reports the eventfd descriptor from `poll_fd()` and `POLL_IN` from `flags()`, which registers as EPOLLIN alone |
| EventsNotify.New | src/events/notify.rs:26-36 | `new` calls `eventfd(0, EFD_NONBLOCK)`; it fails with the current errno iff eventfd returned a negative descriptor; otherwise it holds that descriptor and the callback |
| EventsNotify.DoNotify | src/events/notify.rs:46-58 | `notify` writes the value 1 as 8 bytes, and fails iff the write returned -1 |
| EventsNotify.Process | src/events/notify.rs:62-82 | the argument-less callback runs once per full read before the first read that is not full, each call recorded by the counter of the read it follows; that read decides the end (return at -1/`EAGAIN`, panic otherwise) |
| EventsNotify.SameAsIoNotify | src/events/notify.rs:26-58 | construction and `notify` behave exactly as in the io variant: same `eventfd` call, same failures and errors, same descriptor, same write |
| TimerFd.AsTimeT | src/io/timer.rs:52 | `interval as time_t` keeps values below 2^63 and wraps larger ones to negative |
| TimerFd.Arm | src/io/timer.rs:34-70 | the setup issues create, then clock read, then settime on the new descriptor with the spec; it stops with that call's errno at the first call that returns a negative value; it returns the descriptor only when all three succeed |
| TimerFd.ArmOutcomeIgnoresSpec | src/io/timer.rs:61-69 | the spec never decides whether setup fails; a successful setup issued exactly the three calls, arming the created descriptor with that spec |
| IoTimer.SpecFor | src/io/timer.rs:48-59 | `it_value` is `(interval, 0)`; `it_interval` is `(0, 0)` for a single shot and equals `it_value` otherwise |
| IoTimer.CreateTimerfd | src/io/timer.rs:34-70 | `create_timerfd` returns `Ok(fd)` iff all three calls succeed, then having armed `fd` with the spec for `(interval, single_shot)`; otherwise it returns the errno of the first call that failed |
| IoTimer.Wrap | src/io/timer.rs:85-94 | a created descriptor becomes an inactive timer with interest `POLL_IN`, the callback and the interval; an error passes through unchanged |
| IoTimer.New | src/io/timer.rs:84-95 | `Timer::new` succeeds iff all three calls succeed, giving the inactive `POLL_IN` timer on the new descriptor; otherwise it returns the setup's error |
| IoTimer.SingleShot | src/io/timer.rs:97-108 | `single_shot` behaves like `new`, with the single-shot spec |
| IoTimer.NewAndSingleShotDifferInPeriod | src/io/timer.rs:84-108 | `new` and `single_shot` give the same result and the same calls, except that the settime spec of `single_shot` has a zero re-arm period |
| IoTimer.LargeIntervalWraps | src/io/timer.rs:50-59 | intervals below 2^63 are armed with exactly that many seconds; larger ones with negative seconds |
| IoTimer.NewTimerProvider | src/io/timer.rs:144-148 | a new timer reports the timerfd descriptor from `poll_fd()` and `POLL_IN` from `flags()`, which registers as EPOLLIN alone |
| IoTimer.Process | src/io/timer.rs:119-142 | at most one callback per `process`; exactly one iff the first read is full, with the counter it read; `EAGAIN` returns silently; any other first read that is not full ends as `Stop` decides (an errno panic for another -1, a count panic for a short read) with no callback; with no reads the call has not finished |
| EventsTimer.SpecFor | src/events/timer.rs:55-64 | both `it_value` and `it_interval` are `(interval, 0)`, so the timer always repeats |
| EventsTimer.New | src/events/timer.rs:42-75 | `new` returns the timer on the created descriptor, armed with the repeating spec, iff all three calls succeed; otherwise it returns the errno of the first call that failed |
| EventsTimer.SameAsRepeatingIoTimer | src/events/timer.rs:55-64 | this setup is the io `Timer::new`: same spec, same calls, failing on the same inputs with the same errno |
| EventsTimer.Process | src/events/timer.rs:83-101 | with the read storing into the counter (see Findings), `process` returns iff its callback ran exactly once, with the count of the first read that did not return -1; never more than one callback; a short read fails with its count; it never gives up on -1 |
| IoTcp.IpAddrToInAddr | src/io/tcp.rs:32-40 | packing is defined exactly for IPv4 addresses; IPv6 reaches `unimplemented!()` |
| IoTcp.OctetsRecovered | src/io/tcp.rs:34-35 | each octet of `(a<<24)\|(b<<16)\|(c<<8)\|d` is recovered by shift and mask |
| IoTcp.PackingIsBijective | src/io/tcp.rs:32-40 | two IPv4 addresses pack alike iff they are equal, and every 32-bit word is the packing of its octets |
| IoTcp.CreateSocket | src/io/tcp.rs:42-52 | `create_socket` fails with the current errno iff `socket` returned a negative value, and otherwise returns that descriptor |
| IoTcp.DoConnect | src/io/tcp.rs:56-98 | a failed name resolution is returned before any socket is made; a failed socket comes before any connect; the result is `Ok` iff both succeeded and `connect` succeeded or failed with `EINPROGRESS`; a success gives a `Tcp` on the socket with `POLL_IN \| POLL_OUT`; any other connect failure returns its errno |
| IoTcp.InProgressIsConnected | src/io/tcp.rs:86-96 | a connect still in progress gives the same `Tcp` as an immediate one; it reports the socket and `POLL_STOP`, registered as EPOLLIN and EPOLLOUT |

## Left out

- System calls and the kernel are not modelled: epoll_create/ctl/wait, eventfd, timerfd_*,
  clock_gettime, read, write, close, socket, getaddrinfo, connect, and reading `errno`. Each is a
  `Syscall` parameter or a list of read outcomes. Kernel semantics are left out as well: counter
  coalescing, timer expiry, level triggering, and which descriptor an event names. The one kernel
  property used is that an event carries the payload stored by `epoll_ctl`.
- The epoll backend wrappers `src/io/backend/epoll.rs` and `src/events/backend/epoll.rs` only
  map a negative return to an error. The model takes the wait result directly and uses the same
  bit constants. The trait files `src/io/backend/poller.rs` and `src/io/backend/mod.rs` declare
  interfaces only.
- `src/libstd/async/epoll.rs` is an unfinished draft that does not parse.
- `src/main.rs`, `src/lib.rs`, `src/io/mod.rs` and `src/events/lib.rs` are demo code and crate
  wiring.
- The `tcp` submodule of `src/io.rs` (`Endpoint::bind/listen/accept`, `IncomingConnections`) is
  socket plumbing over raw structs. Its bind result is computed but never checked.
- `mem::transmute`, `mem::uninitialized` and byte layouts are left out, except for the
  null read buffer of src/events/timer.rs, which is under Findings. A buffer entry past the
  ready count is an arbitrary value, never an uninitialised one.
- Each infinite `run` loop is modelled as one tick. Read loops stop at the end of the given
  outcomes (`Starved`).
- `BoundedQueue.New`: the `size + 1` overflow of `uint` at the largest `size` is not modelled;
  sizes are unbounded naturals.
- The `println!` calls are left out (`join`, and Tcp `process`, which only prints).
- Timer, Notify and Tcp `stop`, which only closes the descriptor, are left out.
- The three `attach_to` methods are left out. The body of the io timer's (src/io/timer.rs:110) is
  commented out. The events notifier's (src/events/notify.rs:38) calls `register(fd)`, which does
  not match the backend's `register(fd, data)` at src/events/backend/epoll.rs:56. The events
  timer's (src/events/timer.rs:77) does match it, and registers the `Timer`'s own address as
  the epoll payload rather than its descriptor. The events loop looks each payload up as a
  descriptor (src/events/event_loop.rs:50-51), so it would not find a timer registered this way.
  That registration is not part of the model.
- The `epoll_create` size hints (`1 << 16` and 1024) are not modelled, because the kernel only
  checks them for being positive. The `poll(0)` timeout of `run` in src/io.rs is not modelled
  either, because the wait result is a parameter there.
- `EventsErrno`: the events `Errno::value()` only reads `errno`, as `Sys.Current` does.
- `IoTcp.IpAddrToInAddr`: the contract states the packing through octet recovery and injectivity.
  It does not restate the word as an arithmetic sum.
- `IoTcp.DoConnect`: the `port` argument is unused in the source and is not modelled. Host-name
  encoding is not modelled either.
- `EventsTimer.Process` models the corrected read into `&numTimeouts` (see Findings), so its callback
  gets the count the read stored. The code as written is `ReadLoop.Retry(rs, NullPointer)`, whose
  callback always gets 0 (`ReadLoop.NullBufferPassesZero`).
- `EventsEventLoop.Tick` requires `readyCount` to be at most 256, the buffer length the kernel
  is given. Above that the source would index out of bounds.
- `IoEventLoop.Drain` models `register(fd)`, which does not compile, as registering `fd` with
  `from_io_flags` of the provider's flags.
- `IoReactor.RunOnce` carries no contract of its own. Its properties are stated by
  `IoReactor.RunOnceCompletes`.

## Findings

| source | as written | input that shows it | evidently intended | confidence | as-written member | corrected member |
|---|---|---|---|---|---|---|
| src/io.rs:160-164 | `modify` stores the payload `0`, while `add` stores the descriptor, and events are routed by payload | `modify(5, POLL_IN)` followed by readiness EPOLLIN is reported as `IoEvent { fd: 0, flags: POLL_IN }`, which `process_event` routes to the provider of fd 0 or panics on | store the descriptor as payload, as `add` does | medium, not executed | Epoll.ModifyReportsDescriptorZero | Epoll.ModifyKeepingFdIsReported |
| src/events/timer.rs:84-97 | `read` is given `transmute(numTimeouts)`, the counter's value 0 taken as an address, so the counter is never written and the callback is always handed 0 | one read returning 8 having stored 42: the callback is handed 0, not 42 (on Linux a read into address 0 fails with `EFAULT`, a -1 that the loop retries) | read into `&numTimeouts`, as src/io/timer.rs:124 does | high, not executed | ReadLoop.NullBufferPassesZero | ReadLoop.CounterReachesCallback |
