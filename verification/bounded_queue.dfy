/** `BoundedQueue<T>` of src/utils/bounded_queue.rs: a circular buffer of
    `size` slots, one of which is always left free so that a full queue
    (`(write_index + 1) % size == read_index`) and an empty one
    (`write_index == read_index`) can be told apart. The queue is a value;
    each mutating operation returns the new queue beside its result. */
module BoundedQueue {
  import opened Sys

  /** Why `push` or `pop` refused: the `State` enum. */
  datatype State = Full | Empty

  /** `QueueResult<T>`. */
  type QueueResult<+R> = Result<R, State>

  datatype Queue<T> = Queue(
    data: seq<Option<T>>,
    size: nat,
    readIndex: nat,
    writeIndex: nat,
    len: nat)

  /** Slot holding the `i`-th oldest element (`0 <= i <= len`): the read
      cursor moved `i` steps forward around the ring. */
  function Slot<T>(q: Queue<T>, i: int): int
  {
    if q.readIndex + i < q.size then q.readIndex + i else q.readIndex + i - q.size
  }

  /** The representation invariant: cursors inside the buffer, at most
      `size - 1` elements, the write cursor `len` slots past the read
      cursor, and every live slot occupied. */
  ghost predicate Valid<T>(q: Queue<T>)
  {
    && q.size > 0
    && |q.data| == q.size
    && q.readIndex < q.size
    && q.writeIndex < q.size
    && q.len < q.size
    && q.writeIndex == Slot(q, q.len)
    && forall i :: 0 <= i < q.len ==> 0 <= Slot(q, i) < q.size && q.data[Slot(q, i)].Some?
  }

  /** The queued elements, oldest first. */
  ghost function Contents<T>(q: Queue<T>): (s: seq<T>)
    requires Valid(q)
    ensures |s| == q.len
  {
    seq(q.len, i requires 0 <= i < q.len => q.data[Slot(q, i)].value)
  }

  /** Number of usable slots. */
  function Capacity<T>(q: Queue<T>): nat
  {
    if q.size == 0 then 0 else q.size - 1
  }

  lemma MulAtLeast(n: int, d: int)
    requires n > 0 && d >= 1
    ensures n * d >= n
  {
  }

  /** Euclidean remainders are unique. */
  lemma UniqueRemainder(n: int, qx: int, rx: int, qy: int, ry: int)
    requires n > 0 && 0 <= rx < n && 0 <= ry < n
    requires n * qx + rx == n * qy + ry
    ensures rx == ry
  {
    var d := qx - qy;
    assert n * d == ry - rx;
    if d >= 1 {
      MulAtLeast(n, d);
    } else if d <= -1 {
      MulAtLeast(n, -d);
    }
  }

  /** A remainder is known once the quotient is: `x == n * k + r`. */
  lemma ModOf(x: int, n: int, k: int, r: int)
    requires n > 0 && 0 <= r < n && x == n * k + r
    ensures x % n == r
  {
    UniqueRemainder(n, x / n, x % n, k, r);
  }

  /** A cursor advanced with `(i + 1) % n` wraps to 0 after the last slot. */
  lemma Advance(i: int, n: int)
    requires 0 <= i < n
    ensures (i + 1) % n == if i + 1 == n then 0 else i + 1
  {
    if i + 1 == n {
      ModOf(i + 1, n, 1, 0);
    } else {
      ModOf(i + 1, n, 0, i + 1);
    }
  }

  /** `BoundedQueue::new(n)`: `n + 1` empty slots, so `n` usable ones. */
  function New<T>(n: nat): (q: Queue<T>)
    ensures Valid(q)
    ensures q.size == n + 1 && Capacity(q) == n
    ensures Contents(q) == [] && q.len == 0
    ensures forall j :: 0 <= j < q.size ==> q.data[j] == None
  {
    Queue(seq(n + 1, _ => None), n + 1, 0, 0, 0)
  }

  /** `is_full`: the slot after the write cursor is the read cursor. */
  predicate IsFull<T>(q: Queue<T>)
    requires q.size > 0
  {
    (q.writeIndex + 1) % q.size == q.readIndex
  }

  /** `is_empty`: both cursors coincide. */
  predicate IsEmpty<T>(q: Queue<T>)
  {
    q.writeIndex == q.readIndex
  }

  /** `len`. */
  function Len<T>(q: Queue<T>): (n: nat)
    requires Valid(q)
    ensures n == |Contents(q)|
  {
    q.len
  }

  /** What the cursors say about the contents: `len` is the cursor
      distance modulo `size`; the queue is empty exactly when it holds no
      element and full exactly when all `size - 1` usable slots hold one. */
  lemma CursorsAgreeWithLen<T>(q: Queue<T>)
    requires Valid(q)
    ensures q.len == (q.writeIndex - q.readIndex) % q.size
    ensures IsEmpty(q) <==> q.len == 0
    ensures IsEmpty(q) <==> Contents(q) == []
    ensures IsFull(q) <==> q.len == Capacity(q)
  {
    if q.readIndex + q.len < q.size {
      ModOf(q.writeIndex - q.readIndex, q.size, 0, q.len);
    } else {
      ModOf(q.writeIndex - q.readIndex, q.size, -1, q.len);
    }
    Advance(q.writeIndex, q.size);
  }

  /** `push`: refuses with `Full` and changes nothing when the queue is
      full; otherwise stores the value in the write slot, returns that
      slot's index, advances the write cursor modulo `size` and grows
      `len` by one, so the value joins the back of the queue. */
  function Push<T>(q: Queue<T>, value: T): (res: (Queue<T>, QueueResult<nat>))
    requires Valid(q)
    ensures Valid(res.0) && res.0.size == q.size
    ensures res.1.Err? <==> q.len == Capacity(q)
    ensures res.1.Err? ==> res.1 == Err(Full) && res.0 == q
    ensures res.1.Ok? ==>
      && res.1.value == q.writeIndex
      && res.0.data[q.writeIndex] == Some(value)
      && res.0.writeIndex == (q.writeIndex + 1) % q.size
      && res.0.len == q.len + 1
      && Contents(res.0) == Contents(q) + [value]
  {
    CursorsAgreeWithLen(q);
    if IsFull(q) then
      (q, Err(Full))
    else
      var index := q.writeIndex;
      var q' := q.(data := q.data[index := Some(value)],
                   writeIndex := (q.writeIndex + 1) % q.size,
                   len := q.len + 1);
      PushKeepsValid(q, q', value);
      (q', Ok(index))
  }

  lemma PushKeepsValid<T>(q: Queue<T>, q': Queue<T>, value: T)
    requires Valid(q) && q.len < Capacity(q)
    requires q' == q.(data := q.data[q.writeIndex := Some(value)],
                      writeIndex := (q.writeIndex + 1) % q.size,
                      len := q.len + 1)
    ensures Valid(q')
    ensures Contents(q') == Contents(q) + [value]
  {
    Advance(q.writeIndex, q.size);
    assert forall i :: 0 <= i < q.len ==> Slot(q, i) != q.writeIndex;
    assert forall i :: 0 <= i < q.len ==> Slot(q', i) == Slot(q, i);
    assert Contents(q') == Contents(q) + [value];
  }

  /** `pop`: refuses with `Empty` and changes nothing when the queue is
      empty; otherwise takes the oldest element out of its slot (leaving
      `None`), advances the read cursor modulo `size` and shrinks `len`. */
  function Pop<T>(q: Queue<T>): (res: (Queue<T>, QueueResult<T>))
    requires Valid(q)
    ensures Valid(res.0) && res.0.size == q.size
    ensures res.1.Err? <==> Contents(q) == []
    ensures res.1.Err? ==> res.1 == Err(Empty) && res.0 == q
    ensures res.1.Ok? ==>
      && res.1.value == Contents(q)[0]
      && Contents(res.0) == Contents(q)[1..]
      && res.0.len == q.len - 1
      && res.0.data[q.readIndex] == None
      && res.0.readIndex == (q.readIndex + 1) % q.size
  {
    CursorsAgreeWithLen(q);
    if IsEmpty(q) then
      (q, Err(Empty))
    else
      assert Slot(q, 0) == q.readIndex;
      var value := q.data[q.readIndex].value;
      var q' := q.(data := q.data[q.readIndex := None],
                   readIndex := (q.readIndex + 1) % q.size,
                   len := q.len - 1);
      PopKeepsValid(q, q');
      (q', Ok(value))
  }

  lemma PopKeepsValid<T>(q: Queue<T>, q': Queue<T>)
    requires Valid(q) && q.len > 0
    requires q' == q.(data := q.data[q.readIndex := None],
                      readIndex := (q.readIndex + 1) % q.size,
                      len := q.len - 1)
    ensures Valid(q')
    ensures Contents(q') == Contents(q)[1..]
  {
    Advance(q.readIndex, q.size);
    assert forall i :: 0 <= i <= q'.len ==> Slot(q', i) == Slot(q, i + 1);
    assert forall i :: 0 <= i < q'.len ==> Slot(q', i) != q.readIndex;
    assert Contents(q') == Contents(q)[1..];
  }

  /** `clear`: every slot back to `None`, both cursors and `len` to 0. */
  function Clear<T>(q: Queue<T>): (q': Queue<T>)
    requires Valid(q)
    ensures Valid(q') && q'.size == q.size
    ensures Contents(q') == [] && IsEmpty(q')
    ensures q'.readIndex == 0 && q'.writeIndex == 0 && q'.len == 0
    ensures forall j :: 0 <= j < q'.size ==> q'.data[j] == None
  {
    Queue(seq(q.size, _ => None), q.size, 0, 0, 0)
  }

  /** Pushes `xs` in order, stopping at the first refusal; also reports
      whether every push succeeded. */
  function PushAll<T>(q: Queue<T>, xs: seq<T>): (res: (Queue<T>, bool))
    requires Valid(q)
    ensures Valid(res.0) && res.0.size == q.size
    decreases |xs|
  {
    if xs == [] then (q, true)
    else
      var (q', r) := Push(q, xs[0]);
      if r.Err? then (q', false) else PushAll(q', xs[1..])
  }

  /** Pops until the queue is empty and returns what came out, in order. */
  function PopAll<T>(q: Queue<T>): (res: (Queue<T>, seq<T>))
    requires Valid(q)
    ensures Valid(res.0)
    decreases q.len
  {
    var (q', r) := Pop(q);
    if r.Err? then (q', []) else
      var rest := PopAll(q');
      (rest.0, [r.value] + rest.1)
  }

  /** Pushes succeed exactly while there is room: pushing `xs` onto a queue
      with at least `|xs|` free slots succeeds every time and appends `xs`
      to the contents. */
  lemma {:induction false} PushAllWithinCapacity<T>(q: Queue<T>, xs: seq<T>)
    requires Valid(q) && q.len + |xs| <= Capacity(q)
    ensures PushAll(q, xs).1
    ensures Contents(PushAll(q, xs).0) == Contents(q) + xs
    decreases |xs|
  {
    if xs != [] {
      var (q', r) := Push(q, xs[0]);
      PushAllWithinCapacity(q', xs[1..]);
      assert Contents(q) + [xs[0]] + xs[1..] == Contents(q) + xs;
    }
  }

  /** `new(n)` admits exactly `n` pushes: the next one is refused with
      `Full` and leaves the queue as it was. */
  lemma NewAdmitsExactlyCapacity<T>(n: nat, xs: seq<T>, extra: T)
    requires |xs| == n
    ensures PushAll(New<T>(n), xs).1
    ensures var q := PushAll(New<T>(n), xs).0;
      Contents(q) == xs && Push(q, extra) == (q, Err(Full))
  {
    PushAllWithinCapacity(New<T>(n), xs);
  }

  /** FIFO: draining the queue yields its contents in order and leaves it
      empty. */
  lemma {:induction false} PopAllYieldsContents<T>(q: Queue<T>)
    requires Valid(q)
    ensures PopAll(q).1 == Contents(q)
    ensures Contents(PopAll(q).0) == []
    decreases q.len
  {
    var (q', r) := Pop(q);
    if r.Ok? {
      PopAllYieldsContents(q');
    }
  }

  /** Everything pushed within capacity comes back out in push order. */
  lemma PushThenPopAllIsFifo<T>(q: Queue<T>, xs: seq<T>)
    requires Valid(q) && q.len + |xs| <= Capacity(q)
    ensures PopAll(PushAll(q, xs).0).1 == Contents(q) + xs
  {
    PushAllWithinCapacity(q, xs);
    PopAllYieldsContents(PushAll(q, xs).0);
  }

  /** The scenario of the module's unit test: a queue of 8 takes the values
      0..7, refuses 9, pops 0 leaving 7 elements, and after `clear` is empty
      and refuses `pop`. */
  lemma BasicScenario()
    ensures var q0 := New<int>(8);
      && IsEmpty(q0) && Len(q0) == 0
      && var (q1, ok) := PushAll(q0, [0, 1, 2, 3, 4, 5, 6, 7]);
      && ok
      && Push(q1, 9).1 == Err(Full)
      && !IsEmpty(q1) && Len(q1) == 8
      && var (q2, v) := Pop(q1);
      && v == Ok(0)
      && Len(q2) == 7 && !IsEmpty(q2)
      && var q3 := Clear(q2);
      && IsEmpty(q3) && Pop(q3).1.Err?
  {
    var q0 := New<int>(8);
    CursorsAgreeWithLen(q0);
    var xs := [0, 1, 2, 3, 4, 5, 6, 7];
    NewAdmitsExactlyCapacity(8, xs, 9);
    var q1 := PushAll(q0, xs).0;
    CursorsAgreeWithLen(q1);
    var q2 := Pop(q1).0;
    CursorsAgreeWithLen(q2);
  }
}
