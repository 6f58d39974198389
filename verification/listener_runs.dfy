/** Whole runs of socket calls against the queues of pending connections (net/socket.c, net/ipv4.c). */
module ListenerRuns {
  import opened Links
  import opened Chains
  import opened Backlog
  import opened Listeners

  datatype Call =
    | Opening(s: Ptr, st: State)
    | Listening(s: Ptr, backlog: int)
    | Connecting(sc: Ptr, ss: Ptr)
    | Accepting(ss: Ptr, nss: Ptr)
    | Closing(s: Ptr)

  /** Who waits where, how many may, and who is connected to whom. */
  datatype View = View(qs: Queues, limit: map<Ptr, int>, peer: map<Ptr, Ptr>)

  /** The pointers name open sockets, new ones are new, and who connects does not wait already. */
  ghost predicate May(v: View, c: Call) {
    && v.limit.Keys == v.peer.Keys == v.qs.Keys
    && match c
       case Opening(s, _) => s != NULL && s !in v.qs
       case Listening(s, _) => s in v.qs
       case Connecting(sc, ss) => sc in v.qs && ss in v.qs && forall t :: t in v.qs ==> sc !in v.qs[t]
       case Accepting(ss, nss) => ss in v.qs && nss !in v.qs
       case Closing(s) => s in v.qs
  }

  ghost function After(v: View, c: Call): View
    requires May(v, c)
  {
    match c
    case Opening(s, _) => View(v.qs[s := []], v.limit[s := 0], v.peer[s := NULL])
    case Listening(s, backlog) => v.(limit := v.limit[s := if backlog > 0 then backlog else 1])
    case Connecting(sc, ss) => if |v.qs[ss]| < v.limit[ss] then v.(qs := v.qs[ss := v.qs[ss] + [sc]]) else v
    case Accepting(ss, nss) =>
      if v.qs[ss] == [] then v
      else if nss == NULL then v.(qs := v.qs[ss := v.qs[ss][1..]])
      else
        var sc := v.qs[ss][0];
        View(v.qs[ss := v.qs[ss][1..]][nss := []], v.limit[nss := 0], v.peer[nss := NULL][sc := nss][nss := sc])
    case Closing(s) => View(Leaving(v.qs, s), v.limit - {s}, HungUp(v.peer, s) - {s})
  }

  ghost predicate MayAll(v: View, calls: seq<Call>)
    decreases |calls|
  {
    calls == [] || (May(v, calls[0]) && MayAll(After(v, calls[0]), calls[1..]))
  }

  ghost function AfterAll(v: View, calls: seq<Call>): View
    requires MayAll(v, calls)
    decreases |calls|
  {
    if calls == [] then v else AfterAll(After(v, calls[0]), calls[1..])
  }

  /** Who joins the queue of `ss` by a call. */
  ghost function Joined(v: View, c: Call, ss: Ptr): seq<Ptr>
    requires May(v, c)
  {
    if c.Connecting? && c.ss == ss && |v.qs[ss]| < v.limit[ss] then [c.sc] else []
  }

  /** Whom accept() takes from the queue of `ss`. */
  ghost function Taken(v: View, c: Call, ss: Ptr): seq<Ptr>
    requires May(v, c)
  {
    if c.Accepting? && c.ss == ss && v.qs[ss] != [] then [v.qs[ss][0]] else []
  }

  /** Who closes while waiting for `ss`. */
  ghost function Quit(v: View, c: Call, ss: Ptr): seq<Ptr>
    requires May(v, c)
  {
    if c.Closing? && ss in v.qs && c.s in v.qs[ss] then [c.s] else []
  }

  ghost function Joins(v: View, calls: seq<Call>, ss: Ptr): seq<Ptr>
    requires MayAll(v, calls)
    decreases |calls|
  {
    if calls == [] then []
    else Joined(v, calls[0], ss) + Joins(After(v, calls[0]), calls[1..], ss)
  }

  ghost function Takes(v: View, calls: seq<Call>, ss: Ptr): seq<Ptr>
    requires MayAll(v, calls)
    decreases |calls|
  {
    if calls == [] then []
    else Taken(v, calls[0], ss) + Takes(After(v, calls[0]), calls[1..], ss)
  }

  ghost function Quits(v: View, calls: seq<Call>, ss: Ptr): seq<Ptr>
    requires MayAll(v, calls)
    decreases |calls|
  {
    if calls == [] then []
    else Quit(v, calls[0], ss) + Quits(After(v, calls[0]), calls[1..], ss)
  }

  /** `a` is what is left of `b` when some of it is crossed out. */
  ghost predicate Within(a: seq<Ptr>, b: seq<Ptr>)
    decreases |b|
  {
    a == [] || (b != [] && ((a[0] == b[0] && Within(a[1..], b[1..])) || Within(a, b[1..])))
  }

  lemma {:induction false} WithinSelf(a: seq<Ptr>)
    ensures Within(a, a)
    decreases |a|
  {
    if a != [] {
      WithinSelf(a[1..]);
    }
  }

  /** What is within a sequence with one crossed out is within the sequence. */
  lemma {:induction false} WithinMore(a: seq<Ptr>, b: seq<Ptr>, k: nat)
    requires k < |b| && Within(a, b[..k] + b[k + 1..])
    ensures Within(a, b)
    decreases |b|
  {
    var c := b[..k] + b[k + 1..];
    if k == 0 {
      assert c == b[1..];
    } else if a != [] {
      assert c[0] == b[0] && c[1..] == b[1..][..k - 1] + b[1..][k..];
      if a[0] == c[0] && Within(a[1..], c[1..]) {
        WithinMore(a[1..], b[1..], k - 1);
      } else {
        WithinMore(a, b[1..], k - 1);
      }
    }
  }

  lemma WithinUncrossed(a: seq<Ptr>, q: seq<Ptr>, x: Ptr, j: seq<Ptr>)
    requires Within(a, Without(q, x) + j)
    ensures Within(a, q + j)
  {
    hide Within;
    hide IndexOf;
    if x in q {
      var k := IndexOf(q, x);
      CrossedOut(q, j, k);
      WithinMore(a, q + j, k);
    }
  }

  lemma CrossedOut(q: seq<Ptr>, j: seq<Ptr>, k: nat)
    requires k < |q|
    ensures (q + j)[..k] + (q + j)[k + 1..] == q[..k] + q[k + 1..] + j
  {
  }

  lemma Served(q: seq<Ptr>, t: seq<Ptr>, j: seq<Ptr>, left: seq<Ptr>)
    requires q != [] && Within(t + left, q[1..] + j)
    ensures Within(([q[0]] + t) + left, q + j)
    ensures t + left == q[1..] + j ==> ([q[0]] + t) + left == q + j
  {
    var a, b := ([q[0]] + t) + left, q + j;
    assert a[0] == b[0] && a[1..] == t + left && b[1..] == q[1..] + j;
    assert q == [q[0]] + q[1..];
  }

  /** One call, in front of a run that takes `t`, lets `j` join and leaves `left` waiting. */
  lemma OneServed(v: View, c: Call, ss: Ptr, t: seq<Ptr>, j: seq<Ptr>, left: seq<Ptr>)
    requires May(v, c) && ss in v.qs && c != Closing(ss) && ss in After(v, c).qs
    requires Within(t + left, After(v, c).qs[ss] + j)
    ensures Within((Taken(v, c, ss) + t) + left, v.qs[ss] + (Joined(v, c, ss) + j))
    ensures Quit(v, c, ss) == [] && t + left == After(v, c).qs[ss] + j ==>
              (Taken(v, c, ss) + t) + left == v.qs[ss] + (Joined(v, c, ss) + j)
  {
    hide Within;
    hide Without;
    var q := v.qs[ss];
    assert [] + t == t && [] + j == j;
    if c.Connecting? && c.ss == ss && |q| < v.limit[ss] {
      assert q + [c.sc] + j == q + ([c.sc] + j);
    } else if c.Accepting? && c.ss == ss && q != [] {
      Served(q, t, j, left);
    } else if c.Closing? {
      WithinUncrossed(t + left, q, c.s, j);
    }
  }

  lemma StaysOpen(v: View, c: Call, ss: Ptr)
    requires May(v, c) && ss in v.qs && c != Closing(ss)
    ensures ss in After(v, c).qs
  {
    hide Without;
  }

  /**
    * First come, first served: whom accept() takes and who still waits at the end are those who
    * waited at the start and those who joined, in that order, but for the ones who closed meanwhile.
    */
  lemma {:induction false} ServedInOrder(v: View, calls: seq<Call>, ss: Ptr)
    requires MayAll(v, calls) && ss in v.qs && Closing(ss) !in calls
    ensures ss in AfterAll(v, calls).qs
    ensures Within(Takes(v, calls, ss) + AfterAll(v, calls).qs[ss], v.qs[ss] + Joins(v, calls, ss))
    ensures Quits(v, calls, ss) == [] ==>
      Takes(v, calls, ss) + AfterAll(v, calls).qs[ss] == v.qs[ss] + Joins(v, calls, ss)
    decreases |calls|
  {
    hide Within;
    hide May;
    hide After;
    hide Taken;
    hide Joined;
    hide Quit;
    if calls == [] {
      WithinSelf(v.qs[ss]);
      assert [] + v.qs[ss] == v.qs[ss] && v.qs[ss] + [] == v.qs[ss];
    } else {
      var c, rest := calls[0], calls[1..];
      StaysOpen(v, c, ss);
      var w := After(v, c);
      ServedInOrder(w, rest, ss);
      OneServed(v, c, ss, Takes(w, rest, ss), Joins(w, rest, ss), AfterAll(w, rest).qs[ss]);
    }
  }

  lemma WithoutCount(q: seq<Ptr>, x: Ptr)
    ensures multiset(q) == multiset(Without(q, x)) + if x in q then multiset{x} else multiset{}
  {
    if x in q {
      var k := IndexOf(q, x);
      assert q == q[..k] + [q[k]] + q[k + 1..];
    }
  }

  lemma OneAccounted(v: View, c: Call, ss: Ptr)
    requires May(v, c) && ss in v.qs && c != Closing(ss) && ss in After(v, c).qs
    ensures multiset(v.qs[ss]) + multiset(Joined(v, c, ss)) == multiset(Taken(v, c, ss)) + multiset(After(v, c).qs[ss])
      + multiset(Quit(v, c, ss))
  {
    hide Without;
    var q := v.qs[ss];
    if c.Accepting? && c.ss == ss && q != [] {
      assert q == [q[0]] + q[1..];
    } else if c.Closing? {
      WithoutCount(q, c.s);
    }
  }

  lemma Telescope(q: multiset<Ptr>, j: multiset<Ptr>, t: multiset<Ptr>, u: multiset<Ptr>, q': multiset<Ptr>,
                  js: multiset<Ptr>, ts: multiset<Ptr>, us: multiset<Ptr>, end: multiset<Ptr>)
    requires q + j == t + q' + u && q' + js == ts + end + us
    ensures q + (j + js) == (t + ts) + end + (u + us)
  {
    forall x: Ptr
      ensures (q + (j + js))[x] == ((t + ts) + end + (u + us))[x]
    {
      assert (q + j)[x] == (t + q' + u)[x] && (q' + js)[x] == (ts + end + us)[x];
    }
  }

  /** Nobody is lost or served twice: whoever waited or joined was taken, closed, or still waits. */
  lemma {:induction false} NobodyLost(v: View, calls: seq<Call>, ss: Ptr)
    requires MayAll(v, calls) && ss in v.qs && Closing(ss) !in calls
    ensures ss in AfterAll(v, calls).qs
    ensures multiset(v.qs[ss]) + multiset(Joins(v, calls, ss))
         == multiset(Takes(v, calls, ss)) + multiset(AfterAll(v, calls).qs[ss]) + multiset(Quits(v, calls, ss))
    decreases |calls|
  {
    hide May;
    hide After;
    hide Taken;
    hide Joined;
    hide Quit;
    if calls != [] {
      var c, rest := calls[0], calls[1..];
      StaysOpen(v, c, ss);
      var w := After(v, c);
      OneAccounted(v, c, ss);
      NobodyLost(w, rest, ss);
      Telescope(multiset(v.qs[ss]), multiset(Joined(v, c, ss)), multiset(Taken(v, c, ss)), multiset(Quit(v, c, ss)),
        multiset(w.qs[ss]),
        multiset(Joins(w, rest, ss)), multiset(Takes(w, rest, ss)), multiset(Quits(w, rest, ss)),
          multiset(AfterAll(w, rest).qs[ss]));
      assert multiset(Joins(v, calls, ss)) == multiset(Joined(v, c, ss)) + multiset(Joins(w, rest, ss));
      assert multiset(Takes(v, calls, ss)) == multiset(Taken(v, c, ss)) + multiset(Takes(w, rest, ss));
      assert multiset(Quits(v, calls, ss)) == multiset(Quit(v, c, ss)) + multiset(Quits(w, rest, ss));
    }
  }

  // ---- who is connected to whom ----

  /** Whoever waits is open and waits once, in one place. */
  ghost predicate Orderly(qs: Queues) {
    && (forall ss :: ss in qs ==> Distinct(qs[ss]))
    && (forall ss, x {:trigger x in qs[ss]} :: ss in qs && x in qs[ss] ==> x in qs)
    && (forall ss, tt, x {:trigger x in qs[ss], x in qs[tt]} :: ss in qs && tt in qs && x in qs[ss] && x in qs[tt] ==>
         ss == tt)
  }

  /** Besides, whoever waits is connected to nobody yet, and peers name each other. */
  ghost predicate Sound(v: View) {
    && v.limit.Keys == v.peer.Keys == v.qs.Keys && NULL !in v.qs && Orderly(v.qs) && Paired(v.peer)
    && (forall ss, x {:trigger x in v.qs[ss]} :: ss in v.qs && x in v.qs[ss] ==> v.peer[x] == NULL)
  }

  lemma SoundPeers(v: View, c: Call)
    requires Sound(v) && May(v, c)
    ensures Paired(After(v, c).peer) && After(v, c).limit.Keys == After(v, c).peer.Keys == After(v, c).qs.Keys
    ensures NULL !in After(v, c).qs
  {
    hide Without;
    match c
    case Accepting(ss, nss) =>
      if v.qs[ss] != [] && nss != NULL {
        assert v.qs[ss][0] in v.qs[ss];
        PairedMore(v.peer, v.qs[ss][0], nss);
      }
    case Closing(s) =>
      HungUpPaired(v.peer, s);
    case _ =>
  }

  /** Who waits after a call waited in the same place before, or has just connected. */
  lemma WaitedBefore(v: View, c: Call, ss: Ptr, x: Ptr)
    requires May(v, c) && Orderly(v.qs) && ss in After(v, c).qs && x in After(v, c).qs[ss]
    ensures (ss in v.qs && x in v.qs[ss]) || (c.Connecting? && x == c.sc && ss == c.ss)
    ensures c.Closing? ==> x != c.s
    ensures c.Accepting? && v.qs[c.ss] != [] ==> x != v.qs[c.ss][0]
  {
    hide Without;
    match c
    case Closing(s) =>
      WithoutMembers(v.qs[ss], s);
    case Accepting(t, _) =>
      if v.qs[t] != [] {
        var q := v.qs[t];
        assert q[0] in q;
        if t == ss {
          var i :| 0 <= i < |q[1..]| && q[1..][i] == x;
          assert q[i + 1] == x;
        }
      }
    case _ =>
  }

  lemma StaysDistinct(v: View, c: Call, ss: Ptr)
    requires May(v, c) && Orderly(v.qs) && ss in After(v, c).qs
    ensures Distinct(After(v, c).qs[ss])
  {
    hide Without;
    match c
    case Closing(s) =>
      WithoutMembers(v.qs[ss], s);
    case _ =>
  }

  lemma StaysOrderly(v: View, c: Call)
    requires Orderly(v.qs) && May(v, c)
    ensures Orderly(After(v, c).qs)
  {
    hide Without;
    var qs := After(v, c).qs;
    forall ss | ss in qs ensures Distinct(qs[ss]) {
      StaysDistinct(v, c, ss);
    }
    hide Distinct;
    forall ss, x {:trigger x in qs[ss]} | ss in qs && x in qs[ss] ensures x in qs {
      WaitedBefore(v, c, ss, x);
    }
    forall ss, tt, x {:trigger x in qs[ss], x in qs[tt]} | ss in qs && tt in qs && x in qs[ss] && x in qs[tt]
      ensures ss == tt
    {
      WaitedBefore(v, c, ss, x);
      WaitedBefore(v, c, tt, x);
    }
  }

  /** Who connects is connected to nobody yet. */
  ghost predicate Lone(v: View, c: Call)
    requires May(v, c)
  {
    c.Connecting? ==> v.peer[c.sc] == NULL
  }

  ghost predicate AllLone(v: View, calls: seq<Call>)
    requires MayAll(v, calls)
    decreases |calls|
  {
    calls == [] || (Lone(v, calls[0]) && AllLone(After(v, calls[0]), calls[1..]))
  }

  lemma StaysLonely(v: View, c: Call, ss: Ptr, x: Ptr)
    requires Sound(v) && May(v, c) && Lone(v, c)
    requires ss in After(v, c).qs && x in After(v, c).qs[ss] && x in After(v, c).peer
    ensures After(v, c).peer[x] == NULL
  {
    hide Without;
    hide Paired;
    WaitedBefore(v, c, ss, x);
    hide Orderly;
    if c.Accepting? && v.qs[c.ss] != [] && c.nss != NULL {
      Newcomer(v, c.nss, ss, x);
    }
  }

  lemma Newcomer(v: View, nss: Ptr, ss: Ptr, x: Ptr)
    requires Orderly(v.qs) && ss in v.qs && x in v.qs[ss] && nss !in v.qs
    ensures x != nss
  {
  }

  lemma SoundStep(v: View, c: Call)
    requires Sound(v) && May(v, c) && Lone(v, c)
    ensures Sound(After(v, c))
  {
    hide Without;
    hide Orderly;
    hide Paired;
    var w := After(v, c);
    SoundPeers(v, c);
    StaysOrderly(v, c);
    hide Lone;
    OpenWaiters(w.qs);
    hide After;
    forall ss, x {:trigger x in w.qs[ss]} | ss in w.qs && x in w.qs[ss] ensures w.peer[x] == NULL {
      StaysLonely(v, c, ss, x);
    }
  }

  lemma OpenWaiters(qs: Queues)
    requires Orderly(qs)
    ensures forall ss, x {:trigger x in qs[ss]} :: ss in qs && x in qs[ss] ==> x in qs
  {
  }

  /** In every run in which only such connect, peers are open and name each other, and no one waits who is connected. */
  lemma {:induction false} PeersPair(v: View, calls: seq<Call>)
    requires Sound(v) && MayAll(v, calls) && AllLone(v, calls)
    ensures Sound(AfterAll(v, calls))
    decreases |calls|
  {
    hide Sound;
    hide May;
    hide After;
    hide Lone;
    if calls != [] {
      SoundStep(v, calls[0]);
      PeersPair(After(v, calls[0]), calls[1..]);
    }
  }

  // ---- closing a socket whose peer is gone ----

  ghost predicate Strays(v: View, c: Call)
    requires May(v, c)
  {
    c.Closing? && Astray(v.peer, c.s)
  }

  /** Some socket of the run is closed after its peer. */
  ghost predicate AnyStrays(v: View, calls: seq<Call>)
    requires MayAll(v, calls)
    decreases |calls|
  {
    calls != [] && (Strays(v, calls[0]) || AnyStrays(After(v, calls[0]), calls[1..]))
  }

  lemma SoundNoStray(v: View, c: Call)
    requires Sound(v) && May(v, c)
    ensures !Strays(v, c)
  {
    hide Orderly;
  }

  /** In such runs none is. */
  lemma {:induction false} NoneStrays(v: View, calls: seq<Call>)
    requires Sound(v) && MayAll(v, calls) && AllLone(v, calls)
    ensures !AnyStrays(v, calls)
    decreases |calls|
  {
    hide Sound;
    hide May;
    hide After;
    hide Lone;
    hide Strays;
    if calls != [] {
      SoundNoStray(v, calls[0]);
      SoundStep(v, calls[0]);
      NoneStrays(After(v, calls[0]), calls[1..]);
    }
  }

  /** Nobody's peer is gone. */
  ghost predicate NoneGone(peer: map<Ptr, Ptr>) {
    forall x :: x in peer ==> !Astray(peer, x)
  }

  /** A close leaves no one with a peer that is gone exactly when nobody names the socket but the one it names. */
  lemma CloseLeavesNoneIff(v: View, s: Ptr)
    requires May(v, Closing(s)) && NULL !in v.peer && NoneGone(v.peer)
    ensures NoneGone(After(v, Closing(s)).peer) <==>
      forall x :: x in v.peer && x != s && v.peer[x] == s ==> v.peer[s] == x
  {
    hide Leaving;
    var peer, next := v.peer, After(v, Closing(s)).peer;
    assert next == HungUp(peer, s) - {s};
    forall x | x in next ensures Astray(next, x) <==> peer[x] == s && peer[s] != x {
      assert !Astray(peer, x);
    }
  }

  // ---- how many wait ----

  function Room(backlog: int): int {
    if backlog > 0 then backlog else 1
  }

  lemma WithoutShorter(q: seq<Ptr>, x: Ptr)
    ensures |Without(q, x)| <= |q|
  {
  }

  lemma RoomStep(v: View, c: Call, ss: Ptr, bound: int)
    requires May(v, c) && ss in v.qs && c != Closing(ss) && v.limit[ss] <= bound && |v.qs[ss]| <= bound
    requires c.Listening? && c.s == ss ==> Room(c.backlog) <= bound
    ensures ss in After(v, c).qs && ss in After(v, c).limit && After(v, c).limit[ss] <= bound
    ensures |After(v, c).qs[ss]| <= bound
  {
    hide Without;
    if c.Closing? {
      WithoutShorter(v.qs[ss], c.s);
    }
  }

  /** No more ever wait for a listener than the largest backlog it has asked for, or one. */
  lemma {:induction false} BacklogBounded(v: View, calls: seq<Call>, ss: Ptr, bound: int)
    requires MayAll(v, calls) && ss in v.qs && Closing(ss) !in calls && v.limit.Keys == v.qs.Keys
    requires v.limit[ss] <= bound && |v.qs[ss]| <= bound
    requires forall i :: 0 <= i < |calls| && calls[i].Listening? && calls[i].s == ss ==> Room(calls[i].backlog) <= bound
    ensures ss in AfterAll(v, calls).qs && |AfterAll(v, calls).qs[ss]| <= bound
    decreases |calls|
  {
    hide After;
    if calls != [] {
      RoomStep(v, calls[0], ss, bound);
      assert calls[1..] != [] ==> May(After(v, calls[0]), calls[1..][0]);
      assert After(v, calls[0]).limit.Keys == After(v, calls[0]).qs.Keys by {
        KeysAgree(v, calls[0]);
      }
      BacklogBounded(After(v, calls[0]), calls[1..], ss, bound);
    }
  }

  lemma KeysAgree(v: View, c: Call)
    requires May(v, c)
    ensures After(v, c).limit.Keys == After(v, c).qs.Keys
  {
    hide Without;
    if c.Accepting? && v.qs[c.ss] != [] {
      assert v.qs[c.ss := v.qs[c.ss][1..]].Keys == v.qs.Keys;
    }
  }

  // ---- the linked queues ----

  ghost function ViewOf(o: Sockets): View
    reads o
  {
    View(o.qs, o.limit, o.peer)
  }

  /** One call, on the linked queues. */
  method Do(o: Sockets, c: Call) returns (stray: bool)
    requires o.Valid() && May(ViewOf(o), c)
    modifies o
    ensures o.Valid() && ViewOf(o) == After(old(ViewOf(o)), c) && (stray <==> Strays(old(ViewOf(o)), c))
  {
    hide Matches;
    hide Without;
    hide HungUp;
    hide Leaving;
    stray := false;
    match c
    case Opening(s, st) => o.Open(s, st);
    case Listening(s, backlog) => o.Listen(s, backlog);
    case Connecting(sc, ss) =>
      PendingIs(o.f, o.qs, sc);
      var ok := o.Connect(sc, ss);
    case Accepting(ss, nss) => var sc := o.Accept(ss, nss);
    case Closing(s) => stray := o.Free(s);
  }

  /** Any run of calls leaves proper queues, those of the abstract run, and tells whether a call of it strayed. */
  method Execute(o: Sockets, calls: seq<Call>) returns (stray: bool)
    requires o.Valid() && MayAll(ViewOf(o), calls)
    modifies o
    ensures o.Valid() && ViewOf(o) == AfterAll(old(ViewOf(o)), calls)
    ensures stray <==> AnyStrays(old(ViewOf(o)), calls)
  {
    hide May;
    hide After;
    hide Strays;
    ghost var v := ViewOf(o);
    var i := 0;
    stray := false;
    assert calls[0..] == calls;
    while i < |calls|
      invariant 0 <= i <= |calls| && o.Valid() && MayAll(ViewOf(o), calls[i..])
      invariant AfterAll(ViewOf(o), calls[i..]) == AfterAll(v, calls)
      invariant AnyStrays(v, calls) <==> stray || AnyStrays(ViewOf(o), calls[i..])
    {
      assert calls[i..][0] == calls[i] && calls[i..][1..] == calls[i + 1..];
      var astray := Do(o, calls[i]);
      stray := stray || astray;
      i := i + 1;
    }
  }
}
