/** connect(), accept() and close() on the queues of pending connections (net/socket.c, net/ipv4.c). */
module Listeners {
  import opened Links
  import opened Chains
  import opened Backlog

  datatype State = Unconnected | Connecting | Connected | Disconnecting

  class Sockets {
    var f: Fields
    var limit: map<Ptr, int>
    var state: map<Ptr, State>
    var peer: map<Ptr, Ptr>
    ghost var qs: Queues

    ghost predicate Valid()
      reads this
    {
      Matches(f, qs) && limit.Keys == state.Keys == peer.Keys == qs.Keys
    }

    constructor ()
      ensures Valid() && qs == map[]
    {
      f := Fields(map[], map[], map[], map[]);
      limit, state, peer, qs := map[], map[], map[], map[];
    }

    /** A socket is created. */
    method Open(s: Ptr, st: State)
      requires Valid() && s !in qs && s != NULL
      modifies this
      ensures Valid() && qs == old(qs)[s := []] && state == old(state)[s := st] && limit == old(limit)[s := 0]
      ensures peer == old(peer)[s := NULL]
    {
      hide Chained;
      hide Backed;
      OpenedMatches(f, qs, s);
      f := With(f, s);
      limit := limit[s := 0];
      state := state[s := st];
      peer := peer[s := NULL];
      qs := qs[s := []];
    }

    lemma NotWaiting(s: Ptr)
      requires Valid() && s in qs && forall t :: t in qs ==> s !in qs[t]
      ensures s in f.pending && f.pending[s] == NULL
    {
      PendingIs(f, qs, s);
    }

    /** ipv4_listen(), on a stream socket that is bound: nobody is turned away, and there is room for one at least. */
    method Listen(s: Ptr, backlog: int)
      requires Valid() && s in qs
      modifies this`limit, this`state
      ensures Valid() && limit == old(limit)[s := if backlog > 0 then backlog else 1]
      ensures state == old(state)[s := Unconnected]
    {
      hide Matches;
      limit := limit[s := if backlog > 0 then backlog else 1];
      state := state[s := Unconnected];
    }

    /** get_socket_from_queue(): the one that has waited longest; NULL when nobody waits. */
    method GetSocketFromQueue(ss: Ptr) returns (sc: Ptr)
      requires Valid() && ss in qs
      modifies this
      ensures Valid() && state == old(state) && limit == old(limit) && peer == old(peer)
      ensures sc == NULL <==> old(qs)[ss] == []
      ensures sc == NULL ==> qs == old(qs)
      ensures sc != NULL ==>
        sc in qs && sc == old(qs)[ss][0] && qs == old(qs)[ss := old(qs)[ss][1..]] && sc in f.next && f.next[sc] == NULL
      ensures f.pending == if sc == NULL then old(f.pending) else old(f.pending)[sc := NULL]
    {
      hide Matches;
      hide Path;
      Facts(f, qs, ss);
      sc := f.head[ss];
      if sc != NULL {
        PoppedMatches(f, qs, ss);
        f := f.(head := f.head[ss := f.next[sc]], len := f.len[ss := f.len[ss] - 1]);
        f := f.(next := f.next[sc := NULL]);
        f := f.(pending := f.pending[sc := NULL]);
        qs := qs[ss := qs[ss][1..]];
      }
    }

    /** The last in a queue, or NULL. */
    method Tail(ss: Ptr) returns (t: Ptr)
      requires Valid() && ss in qs
      ensures t == Last(qs[ss])
    {
      hide Chained;
      hide Backed;
      hide Path;
      Facts(f, qs, ss);
      ghost var q, i := qs[ss], 0;
      t := f.head[ss];
      if t == NULL {
        return;
      }
      PathStep(q, f.head[ss], f.next, NULL, 0);
      while f.next[t] != NULL
        invariant 0 <= i < |q| && t == q[i] && t in f.next && f.next[t] == Links.At(q, i + 1, NULL)
        decreases |q| - i
      {
        assert q[i + 1] in q;
        t := f.next[t];
        i := i + 1;
        PathStep(q, f.head[ss], f.next, NULL, i);
      }
      NotNull(q, i);
    }

    /** insert_socket_to_queue(): refused when the backlog is full. */
    method InsertSocketToQueue(ss: Ptr, sc: Ptr) returns (ok: bool)
      requires Valid() && ss in qs && sc in qs
      modifies this`f
      ensures ok <==> |old(qs)[ss]| < limit[ss]
      ensures f == if ok then Appended(old(f), ss, Last(old(qs)[ss]), sc) else old(f)
    {
      hide Chained;
      hide Backed;
      Facts(f, qs, ss);
      if f.len[ss] + 1 > limit[ss] {
        return false;
      }
      var t := Tail(ss);
      if t != NULL {
        f := f.(next := f.next[t := sc]);
      } else {
        f := f.(head := f.head[ss := sc]);
      }
      f := f.(next := f.next[sc := NULL]);
      f := f.(pending := f.pending[sc := ss]);
      f := f.(len := f.len[ss := f.len[ss] + 1]);
      return true;
    }

    /**
      * ipv4_connect(), to a listener that was found: the socket waits at the end of the queue, unless the backlog is
      * full. What is left is a proper state exactly when it was refused or waited nowhere before.
      */
    method Connect(sc: Ptr, ss: Ptr) returns (ok: bool)
      requires Valid() && ss in qs && sc in qs
      modifies this
      ensures (ok <==> |old(qs)[ss]| < old(limit)[ss]) && limit == old(limit) && peer == old(peer)
      ensures state == old(state)[sc := if ok then Connecting else Unconnected]
      ensures Proper(f) <==> !ok || old(f.pending[sc]) == NULL
      ensures !ok ==> Valid() && qs == old(qs)
      ensures ok && old(f.pending[sc]) == NULL ==> Valid() && qs == old(qs)[ss := old(qs)[ss] + [sc]]
    {
      hide Matches;
      hide Last;
      hide Appended;
      hide Proper;
      Facts(f, qs, sc);
      ProperBy(f, qs);
      AppendedProperIff(f, qs, ss, sc);
      ok := InsertSocketToQueue(ss, sc);
      state := state[sc := if ok then Connecting else Unconnected];
      if ok && old(f.pending[sc]) == NULL {
        AppendedMatches(old(f), qs, ss, sc);
        qs := qs[ss := qs[ss] + [sc]];
      }
    }

    /**
      * ipv4_accept(): the longest waiting client gets the new socket `nss` for its peer; without one it is left out in
      * the cold. Peers still name each other exactly when the client had no peer before.
      */
    method Accept(ss: Ptr, nss: Ptr) returns (sc: Ptr)
      requires Valid() && ss in qs && nss !in qs
      modifies this
      ensures Valid() && (sc == NULL <==> old(qs)[ss] == [])
      ensures sc == NULL ==> qs == old(qs) && state == old(state) && peer == old(peer)
      ensures sc != NULL ==> sc == old(qs)[ss][0] && sc in old(peer)
      ensures limit == if sc != NULL && nss != NULL then old(limit)[nss := 0] else old(limit)
      ensures sc != NULL && nss != NULL ==>
        qs == old(qs)[ss := old(qs)[ss][1..]][nss := []] && state == old(state)[nss := Connected][sc := Connected]
      ensures sc != NULL && nss != NULL ==> peer == old(peer)[nss := NULL][sc := nss][nss := sc]
      ensures sc != NULL && nss != NULL && Paired(old(peer)) ==> (Paired(peer) <==> old(peer)[sc] == NULL)
      ensures sc != NULL && nss == NULL ==>
        qs == old(qs)[ss := old(qs)[ss][1..]] && state == old(state) && peer == old(peer)
    {
      hide Matches;
      hide Paired;
      QueuedOpen(f, qs, ss);
      sc := GetSocketFromQueue(ss);
      if sc == NULL || nss == NULL {
        return;
      }
      PairedMore(peer, sc, nss);
      Open(nss, Connected);
      Pair(sc, nss);
    }

    method Pair(sc: Ptr, nss: Ptr)
      requires Valid() && sc in qs && nss in qs
      modifies this`peer, this`state
      ensures Valid() && peer == old(peer)[sc := nss][nss := sc] && state == old(state)[sc := Connected]
    {
      hide Matches;
      peer := peer[sc := nss];
      peer := peer[nss := sc];
      state := state[sc := Connected];
    }

    /**
      * remove_socket_from_queue(), of a socket that may be there or not. Who was there waits no longer, but still names
      * the listener: its caller sees to that.
      */
    method RemoveSocketFromQueue(ss: Ptr, sc: Ptr)
      requires Valid() && ss in qs
      modifies this`f, this`qs
      ensures qs == old(qs)[ss := Without(old(qs)[ss], sc)] && f.pending == old(f.pending)
      ensures sc !in old(qs)[ss] ==> Valid() && qs == old(qs) && f == old(f)
      ensures sc in old(qs)[ss] ==> Matches(f.(pending := f.pending[sc := NULL]), qs) && qs.Keys == old(qs).Keys
    {
      hide Chained;
      hide Backed;
      hide Path;
      hide Without;
      Facts(f, qs, ss);
      ghost var q := qs[ss];
      ghost var k := 0;
      var prev, s := NULL, f.head[ss];
      while s != NULL
        invariant 0 <= k <= |q| && s == Links.At(q, k, NULL) && (k < |q| ==> prev == Prev(q, k)) && sc !in q[..k]
        decreases |q| - k
        modifies {}
      {
        if s == sc {
          break;
        }
        PathStep(q, f.head[ss], f.next, NULL, k);
        assert q[..k + 1] == q[..k] + [q[k]];
        prev, s := s, f.next[s];
        k := k + 1;
      }
      if s != NULL {
        WithoutAt(q, k);
        Unlink(ss, prev, sc, k);
      } else {
        NobodyLeft(q, k, sc);
        assert qs[ss := q] == qs;
      }
    }

    method Unlink(ss: Ptr, prev: Ptr, sc: Ptr, ghost k: nat)
      requires Valid() && ss in qs && k < |qs[ss]| && sc == qs[ss][k] && prev == Prev(qs[ss], k)
      modifies this`f, this`qs
      ensures Matches(f.(pending := f.pending[sc := NULL]), qs) && f.pending == old(f.pending)
      ensures qs == old(qs)[ss := old(qs)[ss][..k] + old(qs)[ss][k + 1..]]
    {
      hide Matches;
      hide Path;
      hide Prev;
      Facts(f, qs, ss);
      UnlinkedMatches(f, qs, ss, k);
      UnlinkFields(ss, prev, sc);
      qs := qs[ss := qs[ss][..k] + qs[ss][k + 1..]];
    }

    method UnlinkFields(ss: Ptr, prev: Ptr, sc: Ptr)
      requires ss in f.head && ss in f.len && f.len[ss] > 0 && sc in f.next
      modifies this`f
      ensures f == Spliced(old(f), ss, prev, sc)
    {
      if prev != NULL {
        f := f.(next := f.next[prev := f.next[sc]]);
      } else {
        f := f.(head := f.head[ss := f.next[sc]]);
      }
      if f.len[ss] > 0 {
        f := f.(len := f.len[ss := f.len[ss] - 1]);
      }
    }

    /** One turn of the drain in ipv4_free(). */
    method TurnAway(s: Ptr) returns (sc: Ptr)
      requires Valid() && s in qs
      modifies this
      ensures Valid() && (sc == NULL <==> old(qs)[s] == []) && limit == old(limit) && peer == old(peer)
      ensures sc == NULL ==> qs == old(qs) && state == old(state) && f.pending == old(f.pending)
      ensures sc != NULL ==>
        && sc == old(qs)[s][0] && qs == old(qs)[s := old(qs)[s][1..]] && state == old(state)[sc := Disconnecting]
        && f.pending == old(f.pending)[sc := NULL]
    {
      hide Matches;
      sc := GetSocketFromQueue(s);
      if sc != NULL {
        assert f.(pending := f.pending[sc := NULL]) == f;
        f := f.(pending := f.pending[sc := NULL]);
        state := state[sc := Disconnecting];
      }
    }

    /** Whoever waits in the queue of a listener that closes is disconnected. */
    method Drain(s: Ptr)
      requires Valid() && s in qs
      modifies this
      ensures Valid() && qs == old(qs)[s := []] && limit == old(limit) && peer == old(peer)
      ensures Turned(old(qs)[s], old(f.pending), f.pending, old(state), state)
    {
      hide Matches;
      hide Turned;
      ghost var q, n := qs[s], 0;
      TurnedNone(f.pending, state);
      assert q[..0] == [];
      while true
        invariant Valid() && n <= |q| && qs == old(qs)[s := q[n..]] && limit == old(limit) && peer == old(peer)
        invariant Turned(q[..n], old(f.pending), f.pending, old(state), state)
        decreases |q| - n
      {
        ghost var p, st := f.pending, state;
        var sc := TurnAway(s);
        if sc == NULL {
          assert q[..n] == q;
          return;
        }
        TurnedMore(q, n, old(f.pending), p, old(state), st);
        n := n + 1;
      }
    }

    /** A socket leaves the queue it waits in, if it waits in one. */
    method Leave(s: Ptr)
      requires Valid() && s in qs
      modifies this
      ensures Valid() && state == old(state) && limit == old(limit) && peer == old(peer)
      ensures f.pending == old(f.pending)[s := NULL] && Left(old(qs), qs, s)
    {
      hide Matches;
      hide Without;
      hide Left;
      PendingIs(f, qs, s);
      if f.pending[s] != NULL {
        ghost var ss, before := f.pending[s], qs;
        RemoveSocketFromQueue(f.pending[s], s);
        f := f.(pending := f.pending[s := NULL]);
        LeftOne(before, ss, s);
      } else {
        LeftNone(qs, s);
      }
    }

    /** The peer of a socket that closes, if it has one, is disconnected; `stray` tells that the peer is gone itself. */
    method HangUp(s: Ptr) returns (stray: bool)
      requires Valid() && s in qs
      modifies this`peer, this`state
      ensures Valid() && peer == HungUp(old(peer), s) && (stray <==> Astray(old(peer), s))
      ensures state == if stray || old(peer)[s] == NULL then old(state) else old(state)[old(peer)[s] := Disconnecting]
    {
      hide Matches;
      var p := peer[s];
      stray := p != NULL && p !in peer;
      if p != NULL && !stray {
        peer := peer[p := NULL];
        state := state[p := Disconnecting];
      }
    }

    /**
      * ipv4_free(): the socket leaves the queue it waits in, turns away whoever waits in its own, disconnects its peer,
      * and is gone from all of them. With `stray` the last of this was written where a socket used to be.
      */
    method Free(s: Ptr) returns (stray: bool)
      requires Valid() && s in qs
      modifies this
      ensures Valid() && qs == Leaving(old(qs), s) && limit == old(limit) - {s} && peer == HungUp(old(peer), s) - {s}
      ensures stray <==> Astray(old(peer), s)
      ensures forall x :: x in qs && x in old(qs)[s] ==> f.pending[x] == NULL
      ensures forall x :: x in qs ==>
        state[x] == if x in old(qs)[s] || x == old(peer)[s] then Disconnecting else old(state)[x]
    {
      hide Matches;
      hide Left;
      hide Turned;
      hide Leaving;
      hide HungUp;
      hide Astray;
      ghost var qs0, p, st := qs, f.pending, state;
      Domain(f, qs);
      Leave(s);
      ghost var qs1 := qs;
      Drain(s);
      Closing(qs0, qs1, s, p, f.pending, st, state);
      stray := CloseDown(s);
    }

    /** The last part: the peer is disconnected, and nothing is left. */
    method CloseDown(s: Ptr) returns (stray: bool)
      requires Valid() && s in qs && qs[s] == [] && s in f.pending && f.pending[s] == NULL
      modifies this
      ensures Valid() && qs == old(qs) - {s} && limit == old(limit) - {s} && peer == HungUp(old(peer), s) - {s}
      ensures f.pending == old(f.pending) - {s} && (stray <==> Astray(old(peer), s))
      ensures forall x :: x in qs ==> state[x] == if x == old(peer)[s] then Disconnecting else old(state)[x]
    {
      hide Matches;
      hide HungUp;
      Domain(f, qs);
      stray := HangUp(s);
      Gone(s);
    }

    method Gone(s: Ptr)
      requires Valid() && s in qs && qs[s] == [] && s in f.pending && f.pending[s] == NULL
      modifies this
      ensures Valid() && qs == old(qs) - {s} && state == old(state) - {s} && limit == old(limit) - {s}
      ensures peer == old(peer) - {s} && f.pending == old(f.pending) - {s}
    {
      hide Matches;
      ClosedMatches(f, qs, s);
      f := Forgotten(f, s);
      limit := limit - {s};
      state := state - {s};
      peer := peer - {s};
      qs := qs - {s};
    }
  }

  /** Every peer is open and names the socket that it is the peer of. */
  ghost predicate Paired(peer: map<Ptr, Ptr>) {
    NULL !in peer && forall x :: x in peer && peer[x] != NULL ==> peer[x] in peer && peer[x] != x && peer[peer[x]] == x
  }

  /** connect() and accept() while nobody else waits. */
  method ConnectAccepted(x: Sockets, listener: Ptr, client: Ptr, nss: Ptr)
    requires x.Valid() && listener in x.qs && client in x.qs && nss !in x.qs && nss != NULL && x.limit[listener] > 0
    requires Idle(x.qs)
    modifies x
    ensures x.Valid() && x.qs == old(x.qs)[nss := []] && Idle(x.qs) && x.limit == old(x.limit)[nss := 0]
    ensures x.peer == old(x.peer)[nss := NULL][client := nss][nss := client]
  {
    hide Matches;
    hide Proper;
    hide Paired;
    x.NotWaiting(client);
    ghost var qs := x.qs;
    var ok := x.Connect(client, listener);
    assert x.qs[listener] == [client] && x.qs[listener][1..] == [];
    var sc := x.Accept(listener, nss);
    assert x.qs == qs[nss := []];
  }

  /** Nobody waits for anybody. */
  ghost predicate Idle(qs: Queues) {
    forall t :: t in qs ==> qs[t] == []
  }

  method ListenerAndClient() returns (x: Sockets)
    ensures fresh(x) && x.Valid() && x.qs.Keys == {1, 2} && Idle(x.qs) && x.limit[1] == 1
    ensures x.peer == map[1 := NULL, 2 := NULL]
  {
    hide Matches;
    x := new Sockets();
    x.Open(1, Unconnected);
    x.Open(2, Unconnected);
    x.Listen(1, 1);
  }

  /**
    * A socket that is connected already connects again, and is accepted again: its first peer still names it, while it
    * names the second.
    */
  method AcceptedTwice() returns (peer: map<Ptr, Ptr>)
    ensures peer.Keys == {1, 2, 3, 4} && peer[2] == 4 && peer[3] == 2 && peer[4] == 2 && !Paired(peer)
  {
    hide Matches;
    hide Paired;
    hide Idle;
    var x := ListenerAndClient();
    ConnectAccepted(x, 1, 2, 3);
    ConnectAccepted(x, 1, 2, 4);
    peer := x.peer;
    Unpaired(peer, 3);
  }

  /**
    * Then the client closes, and after it the peer that it did not name: that one's own peer is gone, and what
    * ipv4_free() writes through it goes astray.
    */
  method ClosedAfterItsPeer() returns (first: bool, second: bool)
    ensures !first && second
  {
    hide Matches;
    hide Idle;
    hide Without;
    var x := ListenerAndClient();
    ConnectAccepted(x, 1, 2, 3);
    ConnectAccepted(x, 1, 2, 4);
    first := x.Free(2);
    second := x.Free(3);
  }

  lemma Unpaired(peer: map<Ptr, Ptr>, x: Ptr)
    requires x in peer && peer[x] != NULL && peer[x] in peer && peer[peer[x]] != x
    ensures !Paired(peer)
  {
  }

  lemma QueuedOpen(f: Fields, qs: Queues, ss: Ptr)
    requires Matches(f, qs) && ss in qs
    ensures qs[ss] != [] ==> qs[ss][0] in qs
  {
    Facts(f, qs, ss);
  }

  lemma PairedMore(peer: map<Ptr, Ptr>, sc: Ptr, nss: Ptr)
    requires sc in peer && nss !in peer && sc != NULL && nss != NULL
    ensures Paired(peer) ==> (Paired(peer[nss := NULL][sc := nss][nss := sc]) <==> peer[sc] == NULL)
  {
    var next := peer[nss := NULL][sc := nss][nss := sc];
    if Paired(peer) && peer[sc] != NULL {
      assert next[peer[sc]] == sc && next[sc] == nss;
    }
  }

  /** The peer of a socket is closed already. */
  predicate Astray(peer: map<Ptr, Ptr>, s: Ptr)
    requires s in peer
  {
    peer[s] != NULL && peer[s] !in peer
  }

  /** The peer, if there is one and it is open, has none any more. */
  function HungUp(peer: map<Ptr, Ptr>, s: Ptr): map<Ptr, Ptr>
    requires s in peer
  {
    if peer[s] == NULL || peer[s] !in peer then peer else peer[peer[s] := NULL]
  }

  lemma HungUpPaired(peer: map<Ptr, Ptr>, s: Ptr)
    requires Paired(peer) && s in peer
    ensures Paired(HungUp(peer, s) - {s})
  {
    var next := HungUp(peer, s) - {s};
    forall x | x in next && next[x] != NULL ensures next[x] in next && next[x] != x && next[next[x]] == x {
      assert peer[x] == next[x] && peer[peer[x]] == x;
    }
  }

  /** The sockets of `q`, and no others, no longer wait and are disconnected. */
  ghost predicate Turned(q: seq<Ptr>, pending: map<Ptr, Ptr>, pending': map<Ptr, Ptr>, state: map<Ptr, State>,
                         state': map<Ptr, State>) {
    && (forall x :: x in pending ==> x in pending' && pending'[x] == if x in q then NULL else pending[x])
    && (forall x :: x in state ==> x in state' && state'[x] == if x in q then Disconnecting else state[x])
  }

  lemma TurnedNone(pending: map<Ptr, Ptr>, state: map<Ptr, State>)
    ensures Turned([], pending, pending, state, state)
  {
  }

  lemma TurnedMore(q: seq<Ptr>, n: nat, pending: map<Ptr, Ptr>, pending': map<Ptr, Ptr>, state: map<Ptr, State>,
                   state': map<Ptr, State>)
    requires n < |q| && Turned(q[..n], pending, pending', state, state')
    ensures Turned(q[..n + 1], pending, pending'[q[n] := NULL], state, state'[q[n] := Disconnecting])
  {
    assert q[..n + 1] == q[..n] + [q[n]];
  }

  /** Every queue is as it was, without `s`. */
  ghost predicate Left(qs: Queues, qs': Queues, s: Ptr) {
    && qs'.Keys == qs.Keys
    && forall t :: t in qs ==> qs'[t] == Without(qs[t], s) && (forall x :: x in qs'[t] <==> x in qs[t] && x != s)
  }

  lemma Domain(f: Fields, qs: Queues)
    requires Matches(f, qs)
    ensures f.pending.Keys == qs.Keys && NULL !in qs
  {
  }

  /** The queues without `s`, in them or among them. */
  ghost function Leaving(qs: Queues, s: Ptr): (r: Queues)
    ensures forall t :: t in r <==> t in qs && t != s
  {
    map t | t in qs && t != s :: Without(qs[t], s)
  }

  lemma Closing(qs: Queues, qs': Queues, s: Ptr, pending: map<Ptr, Ptr>, pending': map<Ptr, Ptr>,
                state: map<Ptr, State>, state': map<Ptr, State>)
    requires s in qs && pending.Keys == qs.Keys && state.Keys == qs.Keys
    requires Left(qs, qs', s) && Turned(qs'[s], pending[s := NULL], pending', state, state')
    ensures qs'[s := []] - {s} == Leaving(qs, s) && s in pending' && pending'[s] == NULL
    ensures forall x :: x in qs && x in qs[s] && x != s ==> x in pending' && pending'[x] == NULL
    ensures forall x :: x in qs && x != s ==> x in state' && state'[x] == if x in qs[s] then Disconnecting else state[x]
  {
    hide Without;
    assert s !in qs'[s];
    assert forall x :: x != s ==> (x in qs'[s] <==> x in qs[s]);
  }

  lemma LeftOne(qs: Queues, ss: Ptr, s: Ptr)
    requires ss in qs && Distinct(qs[ss]) && (forall t :: t in qs && s in qs[t] ==> t == ss)
    ensures Left(qs, qs[ss := Without(qs[ss], s)], s)
  {
    hide Without;
    WithoutMembers(qs[ss], s);
    forall t | t in qs && t != ss ensures s !in qs[t] && Without(qs[t], s) == qs[t] {
    }
  }

  lemma LeftNone(qs: Queues, s: Ptr)
    requires forall t :: t in qs ==> s !in qs[t]
    ensures Left(qs, qs, s)
  {
    hide Without;
    forall t | t in qs ensures Without(qs[t], s) == qs[t] {
    }
  }

  lemma PendingIs(f: Fields, qs: Queues, x: Ptr)
    requires Matches(f, qs) && x in qs
    ensures x in f.pending && (f.pending[x] != NULL ==> f.pending[x] in qs && x in qs[f.pending[x]])
    ensures forall ss :: ss in qs && x in qs[ss] ==> f.pending[x] == ss && ss != NULL
    ensures f.pending[x] != NULL ==> Distinct(qs[f.pending[x]])
    ensures f.pending[x] == NULL ==> f.pending == f.pending[x := NULL]
  {
    if f.pending[x] != NULL {
      Facts(f, qs, f.pending[x]);
    }
  }

  lemma NobodyLeft(q: seq<Ptr>, k: nat, x: Ptr)
    requires k <= |q| && NULL !in q && Links.At(q, k, NULL) == NULL && x !in q[..k]
    ensures x !in q && Without(q, x) == q
  {
    assert forall j :: 0 <= j < |q| ==> q[j] in q;
    assert k == |q|;
    assert q[..k] == q;
  }

  lemma NotNull(q: seq<Ptr>, i: nat)
    requires i < |q| && NULL !in q && Links.At(q, i + 1, NULL) == NULL
    ensures q[i] == Last(q)
  {
    assert forall j :: 0 <= j < |q| ==> q[j] in q;
  }
}
