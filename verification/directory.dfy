/** The providers an event loop watches and the fd-keyed directory that
    holds them (`watchers` in src/io/event_loop.rs, `events` in
    src/events/event_loop.rs, `providers` in src/io.rs). */
module Directory {
  import opened Sys
  import opened Readiness

  /** An event source as the loops see it: an identity standing for the
      provider object (and its callback), the descriptor it reports from
      `poll_fd()` and the interest it reports from `flags()`. */
  datatype Provider = Provider(id: nat, fd: Fd, flags: IoFlag)

  type Directory = map<Fd, Provider>

  /** Inserts the providers in order, each under its own descriptor. */
  function InsertAll(d: Directory, ps: seq<Provider>): Directory
    decreases |ps|
  {
    if ps == [] then d else InsertAll(d[ps[0].fd := ps[0]], ps[1..])
  }

  /** The descriptors of `ps`. */
  function Fds(ps: seq<Provider>): set<Fd>
  {
    set i | 0 <= i < |ps| :: ps[i].fd
  }

  /** `i` is the last position of `ps` holding a provider for `fd`. */
  ghost predicate LastFor(ps: seq<Provider>, fd: Fd, i: int)
  {
    0 <= i < |ps| && ps[i].fd == fd && forall j :: i < j < |ps| ==> ps[j].fd != fd
  }

  /** Inserting in order keeps the old keys and adds the new descriptors;
      a descriptor not among the new ones keeps its old provider, and one
      that is gets the provider inserted last for it. */
  lemma {:induction false} InsertAllSpec(d: Directory, ps: seq<Provider>)
    ensures InsertAll(d, ps).Keys == d.Keys + Fds(ps)
    ensures forall fd :: fd in d && fd !in Fds(ps) ==> InsertAll(d, ps)[fd] == d[fd]
    ensures forall fd :: fd in Fds(ps) ==> exists i :: LastFor(ps, fd, i) && InsertAll(d, ps)[fd] == ps[i]
    decreases |ps|
  {
    if ps != [] {
      var d' := d[ps[0].fd := ps[0]];
      var rest := ps[1..];
      InsertAllSpec(d', rest);
      assert Fds(ps) == {ps[0].fd} + Fds(rest) by {
        forall fd | fd in Fds(ps) ensures fd in {ps[0].fd} + Fds(rest) {
          var i :| 0 <= i < |ps| && ps[i].fd == fd;
          if i > 0 { assert rest[i - 1].fd == fd; }
        }
      }
      forall fd | fd in Fds(ps)
        ensures exists i :: LastFor(ps, fd, i) && InsertAll(d, ps)[fd] == ps[i]
      {
        if fd in Fds(rest) {
          var k :| LastFor(rest, fd, k) && InsertAll(d', rest)[fd] == rest[k];
          assert LastFor(ps, fd, k + 1);
        } else {
          assert fd == ps[0].fd;
          forall j | 0 < j < |ps| ensures ps[j].fd != fd {
            assert ps[j] == rest[j - 1];
          }
          assert LastFor(ps, fd, 0);
        }
      }
    }
  }

  /** Inserting a sequence is inserting its parts one after the other. */
  lemma {:induction false} InsertAllAppend(d: Directory, ps: seq<Provider>, qs: seq<Provider>)
    ensures InsertAll(d, ps + qs) == InsertAll(InsertAll(d, ps), qs)
    decreases |ps|
  {
    if ps != [] {
      assert (ps + qs)[1..] == ps[1..] + qs;
      InsertAllAppend(d[ps[0].fd := ps[0]], ps[1..], qs);
    } else {
      assert ps + qs == qs;
    }
  }

  /** Inserting a provider in front of a batch is one map update
      followed by the batch. */
  lemma InsertFront(d: Directory, p: Provider, rest: seq<Provider>)
    ensures InsertAll(d, [p] + rest) == InsertAll(d[p.fd := p], rest)
  {
    assert ([p] + rest)[1..] == rest;
  }
}
