/** The dispatch filter shared by the loops of src/io/event_loop.rs and
    src/events/event_loop.rs: a buffer entry reaches a provider when its
    bits contain EPOLLIN and its payload is a watched descriptor; every
    other entry is skipped without error. */
module Dispatch {
  import opened Readiness
  import opened Epoll
  import opened Directory

  /** Entry `e` is delivered to a provider. */
  predicate Delivers(e: EpollEvent, d: Directory)
  {
    Contains(e.events, EPOLLIN) && e.data in d
  }

  /** The providers whose `process` runs, in order, one per delivering
      entry. */
  function Dispatched(es: seq<EpollEvent>, d: Directory): seq<Provider>
    decreases |es|
  {
    if es == [] then []
    else (if Delivers(es[0], d) then [d[es[0].data]] else []) + Dispatched(es[1..], d)
  }

  /** Entries are handled independently and in order. */
  lemma {:induction false} DispatchedAppend(a: seq<EpollEvent>, b: seq<EpollEvent>, d: Directory)
    ensures Dispatched(a + b, d) == Dispatched(a, d) + Dispatched(b, d)
    decreases |a|
  {
    if a == [] {
      assert a + b == b;
    } else {
      assert (a + b)[1..] == a[1..] + b;
      DispatchedAppend(a[1..], b, d);
    }
  }

  /** One entry runs its provider's `process` exactly once when it
      delivers and runs nothing otherwise. */
  lemma DispatchedSingle(e: EpollEvent, d: Directory)
    ensures Dispatched([e], d) == if Delivers(e, d) then [d[e.data]] else []
  {
    assert [e][1..] == [];
  }

  /** A write-only entry, or one for an unwatched descriptor, can be
      removed from the buffer without changing what is dispatched. */
  lemma SkippedEntryIsInvisible(a: seq<EpollEvent>, e: EpollEvent, b: seq<EpollEvent>, d: Directory)
    requires !Contains(e.events, EPOLLIN) || e.data !in d
    ensures Dispatched(a + [e] + b, d) == Dispatched(a + b, d)
  {
    DispatchedAppend(a + [e], b, d);
    DispatchedAppend(a, [e], d);
    DispatchedSingle(e, d);
    DispatchedAppend(a, b, d);
  }

  /** Every dispatched provider is the one watched under a delivering
      entry's descriptor, and there are never more than entries. */
  lemma {:induction false} DispatchedFromDirectory(es: seq<EpollEvent>, d: Directory)
    ensures |Dispatched(es, d)| <= |es|
    ensures forall p :: p in Dispatched(es, d) ==>
      exists i :: 0 <= i < |es| && Delivers(es[i], d) && p == d[es[i].data]
    decreases |es|
  {
    if es != [] {
      DispatchedFromDirectory(es[1..], d);
      forall p | p in Dispatched(es, d)
        ensures exists i :: 0 <= i < |es| && Delivers(es[i], d) && p == d[es[i].data]
      {
        if Delivers(es[0], d) && p == d[es[0].data] {
          assert Delivers(es[0], d) && p == d[es[0].data];
        } else {
          var i :| 0 <= i < |es[1..]| && Delivers(es[1..][i], d) && p == d[es[1..][i].data];
          assert es[i + 1] == es[1..][i];
        }
      }
    }
  }

  /** The loop over buffer indices of both event loops: walks entries
      `0 .. count - 1` and collects the provider of each delivering entry. */
  method DispatchPrefix(buf: seq<EpollEvent>, count: nat, d: Directory) returns (out: seq<Provider>)
    requires count <= |buf|
    ensures out == Dispatched(buf[..count], d)
  {
    out := [];
    var i := 0;
    while i < count
      invariant 0 <= i <= count
      invariant out == Dispatched(buf[..i], d)
    {
      var e := buf[i];
      assert buf[..i + 1] == buf[..i] + [e];
      DispatchedAppend(buf[..i], [e], d);
      DispatchedSingle(e, d);
      if Contains(e.events, EPOLLIN) {
        if e.data in d {
          out := out + [d[e.data]];
        }
      }
      i := i + 1;
    }
  }
}
