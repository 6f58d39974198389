/** The stream of a loopback connection over a queue of packets (net/ipv4.c, net/packet.c). */
module Loopback {
  import opened Prelude
  import opened Links
  import opened Chains

  type Bytes = seq<bv8>

  datatype Packet = Packet(data: Bytes, offset: nat)

  ghost predicate Sound(q: seq<Packet>) {
    forall i :: 0 <= i < |q| ==> q[i].offset <= |q[i].data|
  }

  /** What is still to be read. */
  ghost function Rest(q: seq<Packet>): Bytes
    requires Sound(q)
  {
    if q == [] then [] else q[0].data[q[0].offset..] + Rest(q[1..])
  }

  /**
    * How much a read takes from the first packet, and the queue after it; a packet read to its end goes, unless it
    * was peeked at.
    */
  function Taken(q: seq<Packet>, count: nat): nat
    requires q != [] && q[0].offset <= |q[0].data|
  {
    Min(|q[0].data| - q[0].offset, count)
  }

  function Received(q: seq<Packet>, count: nat, peek: bool): seq<Packet>
    requires q != [] && q[0].offset <= |q[0].data|
  {
    var p := q[0].(offset := q[0].offset + Taken(q, count));
    if !peek && p.offset >= |p.data| then q[1..] else [p] + q[1..]
  }

  lemma {:induction false} RestAppended(q: seq<Packet>, s: Bytes)
    requires Sound(q)
    ensures Sound(q + [Packet(s, 0)]) && Rest(q + [Packet(s, 0)]) == Rest(q) + s
  {
    var r := q + [Packet(s, 0)];
    if q == [] {
      assert r[1..] == [];
      assert Rest(r) == s + Rest([]);
    } else {
      assert r[1..] == q[1..] + [Packet(s, 0)];
      RestAppended(q[1..], s);
    }
  }

  /** A read takes the next bytes of the stream; what is left is the rest of it. Peeking takes them too. */
  lemma ReceivedNext(q: seq<Packet>, count: nat, peek: bool)
    requires Sound(q) && q != []
    ensures var n := Taken(q, count); n <= |Rest(q)| && q[0].data[q[0].offset..q[0].offset + n] == Rest(q)[..n]
    ensures Sound(Received(q, count, peek)) && Rest(Received(q, count, peek)) == Rest(q)[Taken(q, count)..]
  {
    hide Rest;
    hide Received;
    FirstOf(q);
    CutFront(q[0].data, q[0].offset, Taken(q, count), Rest(q[1..]));
    ReceivedRest(q, count, peek);
  }

  lemma ReceivedRest(q: seq<Packet>, count: nat, peek: bool)
    requires Sound(q) && q != []
    ensures Sound(Received(q, count, peek))
    ensures Rest(Received(q, count, peek)) == q[0].data[q[0].offset + Taken(q, count)..] + Rest(q[1..])
  {
    hide Rest;
    var p := q[0].(offset := q[0].offset + Taken(q, count));
    if !peek && p.offset >= |p.data| {
      assert p.data[p.offset..] == [];
      assert p.data[p.offset..] + Rest(q[1..]) == Rest(q[1..]);
    } else {
      var r := [p] + q[1..];
      assert r[1..] == q[1..] && Sound(r);
      FirstOf(r);
    }
  }

  lemma FirstOf(q: seq<Packet>)
    requires Sound(q) && q != []
    ensures Sound(q[1..]) && Rest(q) == q[0].data[q[0].offset..] + Rest(q[1..])
  {
  }

  lemma CutFront(data: Bytes, offset: nat, n: nat, rest: Bytes)
    requires offset + n <= |data|
    ensures var all := data[offset..] + rest;
      all[..n] == data[offset..offset + n] && all[n..] == data[offset + n..] + rest && n <= |all|
  {
  }

  /**
    * A look that is not to take anything leaves the stream as it was exactly when nothing was asked for or there was
    * nothing.
    */
  lemma PeekKeepsIff(q: seq<Packet>, count: nat)
    requires Sound(q) && q != []
    ensures Sound(Received(q, count, true))
    ensures (Rest(Received(q, count, true)) == Rest(q) <==> count == 0 || q[0].offset == |q[0].data|)
  {
    hide Rest;
    ReceivedNext(q, count, true);
    assert Rest(q)[0..] == Rest(q);
    if Taken(q, count) > 0 {
      assert |Rest(q)[Taken(q, count)..]| < |Rest(q)|;
    }
  }

  /** Every packet has something left to read. */
  ghost predicate Unfinished(q: seq<Packet>) {
    forall i :: 0 <= i < |q| ==> q[i].offset < |q[i].data|
  }

  lemma UnfinishedKept(q: seq<Packet>, count: nat)
    requires Unfinished(q) && q != []
    ensures Unfinished(Received(q, count, false))
  {
  }

  // ---- what a read returns ----

  /**
    * `End` and `Got([])` are both a return of 0; `Sleep` is for a caller that goes to sleep. `Sent` is what a write
    * returns: whether there was memory for its packet.
    */
  datatype Outcome = Got(data: Bytes) | End | Again | Sleep | Sent(ok: bool)
  {
    predicate Zero() { this == End || this == Got([]) }
  }

  function Answer(q: seq<Packet>, closed: bool, count: nat, nonblock: bool): Outcome
    requires q != [] ==> q[0].offset <= |q[0].data|
  {
    if q != [] then Got(q[0].data[q[0].offset..q[0].offset + Taken(q, count)])
    else if closed then End
    else if nonblock then Again
    else Sleep
  }

  /**
    * A read returns 0 at the end of a closed stream, or when nothing was asked for or the first packet has nothing
    * left.
    */
  lemma ZeroReadIff(q: seq<Packet>, closed: bool, count: nat, nonblock: bool)
    requires q != [] ==> q[0].offset <= |q[0].data|
    ensures Answer(q, closed, count, nonblock).Zero() <==>
      if q == [] then closed else count == 0 || q[0].offset == |q[0].data|
  {
    if q != [] {
      var n := Taken(q, count);
      assert |q[0].data[q[0].offset..q[0].offset + n]| == n;
    }
  }

  // ---- every run of writes, reads and the close ----

  /** `Close` is by the peer, who is also the one that writes. A write without memory for its packet fails. */
  datatype Event = Write(s: Bytes, memory: bool) | Read(count: nat, peek: bool, nonblock: bool) | Close

  datatype World = World(queue: seq<Packet>, closed: bool, written: Bytes, read: Bytes)

  const START := World([], false, [], [])

  /** Who has closed writes no more. */
  ghost predicate May(x: World, e: Event) {
    Sound(x.queue) && (e.Read? || !x.closed)
  }

  ghost function After(x: World, e: Event): World
    requires May(x, e)
  {
    match e
    case Write(s, memory) => if memory then x.(queue := x.queue + [Packet(s, 0)], written := x.written + s) else x
    case Read(count, peek, _) =>
      if x.queue == [] then x
      else
        var q := x.queue;
        x.(queue := Received(q, count, peek), read := x.read + q[0].data[q[0].offset..q[0].offset + Taken(q, count)])
    case Close => x.(closed := true)
  }

  ghost predicate MayAll(x: World, es: seq<Event>)
    decreases |es|
  {
    es == [] || (May(x, es[0]) && MayAll(After(x, es[0]), es[1..]))
  }

  ghost function AfterAll(x: World, es: seq<Event>): World
    requires MayAll(x, es)
    decreases |es|
  {
    if es == [] then x else AfterAll(After(x, es[0]), es[1..])
  }

  /** The bytes written are those read and those in the packets, in this order. */
  ghost predicate Stream(x: World) {
    Sound(x.queue) && x.written == x.read + Rest(x.queue)
  }

  lemma StepStream(x: World, e: Event)
    requires Stream(x) && May(x, e)
    ensures Stream(After(x, e))
  {
    hide Rest;
    hide Received;
    hide Sound;
    match e
    case Write(s, _) =>
      RestAppended(x.queue, s);
    case Read(count, peek, _) =>
      if x.queue != [] {
        ReceivedNext(x.queue, count, peek);
        Joined(x.read, Rest(x.queue), Taken(x.queue, count));
      }
    case Close =>
  }

  lemma Joined(a: Bytes, b: Bytes, n: nat)
    requires n <= |b|
    ensures a + b == a + b[..n] + b[n..]
  {
  }

  /** What has been read is a prefix of what was written, and the packets hold the rest. */
  lemma {:induction false} RunStream(x: World, es: seq<Event>)
    requires MayAll(x, es) && Stream(x)
    ensures Stream(AfterAll(x, es))
    decreases |es|
  {
    hide Stream;
    hide May;
    hide After;
    if es != [] {
      StepStream(x, es[0]);
      RunStream(After(x, es[0]), es[1..]);
    }
  }

  /** No empty writes, no empty reads, no peeking. */
  predicate Plain(e: Event) {
    match e
    case Write(s, _) => s != []
    case Read(count, peek, _) => count > 0 && !peek
    case Close => true
  }

  lemma StepUnfinished(x: World, e: Event)
    requires May(x, e) && Unfinished(x.queue) && Plain(e)
    ensures Unfinished(After(x, e).queue)
  {
    if e.Read? && x.queue != [] {
      UnfinishedKept(x.queue, e.count);
    }
  }

  lemma {:induction false} RunUnfinished(x: World, es: seq<Event>)
    requires MayAll(x, es) && Unfinished(x.queue) && forall i :: 0 <= i < |es| ==> Plain(es[i])
    ensures Unfinished(AfterAll(x, es).queue)
    decreases |es|
  {
    hide Unfinished;
    hide May;
    hide After;
    if es != [] {
      StepUnfinished(x, es[0]);
      RunUnfinished(After(x, es[0]), es[1..]);
    }
  }

  /**
    * After any run without empty writes, empty reads or peeking, a read of a positive count returns 0 exactly when the
    * queue is drained and the peer has closed; and then all that was written has been read.
    */
  lemma ZeroIffDrainedAndClosed(es: seq<Event>, count: nat, nonblock: bool)
    requires MayAll(START, es) && (forall i :: 0 <= i < |es| ==> Plain(es[i])) && count > 0
    ensures var x := AfterAll(START, es);
      && Sound(x.queue)
      && (Answer(x.queue, x.closed, count, nonblock).Zero() <==> x.queue == [] && x.closed)
      && (Answer(x.queue, x.closed, count, nonblock).Zero() ==> x.read == x.written)
  {
    hide Plain;
    hide Answer;
    hide May;
    hide After;
    var x := AfterAll(START, es);
    assert Stream(START) && Unfinished(START.queue);
    RunStream(START, es);
    RunUnfinished(START, es);
    ZeroReadIff(x.queue, x.closed, count, nonblock);
    if x.queue != [] {
      assert x.queue[0].offset < |x.queue[0].data|;
    }
  }

  /** Once the end has been reported nothing changes any more, and every later read reports it too. */
  lemma {:induction false} EndIsFinal(x: World, es: seq<Event>)
    requires MayAll(x, es) && x.queue == [] && x.closed
    ensures AfterAll(x, es) == x
    decreases |es|
  {
    if es != [] {
      EndIsFinal(After(x, es[0]), es[1..]);
    }
  }

  /** An empty write is read as the end of a stream that is open. */
  lemma EmptyWriteReadsAsEnd()
    ensures MayAll(START, [Write([], true)])
    ensures var x := AfterAll(START, [Write([], true)]);
      !x.closed && Sound(x.queue) && Answer(x.queue, x.closed, 1, false).Zero()
  {
    var es := [Write([], true)];
    assert es[1..] == [] && May(START, es[0]);
    assert MayAll(After(START, es[0]), []);
    assert AfterAll(START, es) == After(START, es[0]);
    assert After(START, es[0]).queue == [Packet([], 0)];
  }

  /** A byte that was peeked at is gone: the read that follows returns 0 on an open stream. */
  lemma PeekLosesTheByte(b: bv8)
    ensures MayAll(START, [Write([b], true), Read(1, true, false)])
    ensures var x := AfterAll(START, [Write([b], true), Read(1, true, false)]);
      !x.closed && Sound(x.queue) && Answer(x.queue, x.closed, 1, false).Zero()
  {
    var es := [Write([b], true), Read(1, true, false)];
    var x1 := After(START, es[0]);
    assert x1.queue == [Packet([b], 0)];
    var x2 := After(x1, es[1]);
    assert x2.queue == [Packet([b], 1)];
    assert es[1..][0] == es[1] && es[1..][1..] == [];
    assert MayAll(x2, []) && MayAll(x1, es[1..]);
    assert AfterAll(x1, es[1..]) == x2;
  }

  // ---- the packets as a linked list ----

  datatype State = Connected | Disconnecting

  class Inbox {
    var head: Ptr
    var next: map<Ptr, Ptr>
    var packets: map<Ptr, Packet>
    var top: Ptr
    ghost var list: seq<Ptr>

    ghost predicate Valid()
      reads this
    {
      && Path(list, head, next, NULL) && top > 0
      && (forall x :: x in list ==> x in packets && x < top)
      && Sound(Queue())
    }

    ghost function Queue(): seq<Packet>
      requires forall x :: x in list ==> x in packets
      reads this
    {
      Listed(list, packets)
    }

    constructor ()
      ensures Valid() && Queue() == []
    {
      head, next, packets, top, list := NULL, map[], map[], 1, [];
    }

    /** The walk to the last packet. */
    method LastPacket() returns (h: Ptr)
      requires Valid() && head != NULL
      ensures list != [] && h == list[|list| - 1]
    {
      hide Path;
      PathStart(list, head, next, NULL);
      ghost var i := 0;
      h := head;
      PathStep(list, head, next, NULL, 0);
      while next[h] != NULL
        invariant 0 <= i < |list| && h == list[i] && h in next && next[h] == Links.At(list, i + 1, NULL)
        decreases |list| - i
      {
        h := next[h];
        i := i + 1;
        PathStep(list, head, next, NULL, i);
      }
      LastOne(list, i);
    }

    /** append_packet_to_queue(): behind the last packet. */
    method Append(p: Ptr)
      requires Valid() && p in packets && p !in list && p != NULL && p < top && packets[p].offset <= |packets[p].data|
      modifies this
      ensures Valid() && packets == old(packets) && top == old(top) && list == old(list) + [p]
      ensures Queue() == old(Queue()) + [packets[p]]
    {
      hide Path;
      PathStart(list, head, next, NULL);
      ListedInserted(list, packets, |list|, p);
      assert list[..|list|] + [p] + list[|list|..] == list + [p];
      if head == NULL {
        var links := next[p := NULL];
        AppendedPath(list, head, next, NULL, p, p, links);
        next := links;
        head := p;
      } else {
        var h := LastPacket();
        var links := next[h := p][p := NULL];
        AppendedPath(list, head, next, h, p, head, links);
        next := links;
      }
      list := list + [p];
      assert forall x :: x in list ==> x in packets && x < top;
    }

    /** loopback_deliver(): the bytes go behind all others in a packet of their own. */
    method Deliver(s: Bytes, memory: bool) returns (ok: bool)
      requires Valid()
      modifies this
      ensures Valid() && ok == memory
      ensures Queue() == if ok then old(Queue()) + [Packet(s, 0)] else old(Queue())
      ensures Rest(Queue()) == if ok then old(Rest(Queue())) + s else old(Rest(Queue()))
    {
      hide Path;
      if !memory {
        return false;
      }
      RestAppended(Queue(), s);
      var p := top;
      top := top + 1;
      ListedFrame(list, packets, p, Packet(s, 0));
      packets := packets[p := Packet(s, 0)];
      Append(p);
      return true;
    }

    /** remove_packet_from_queue() */
    method RemoveFirst()
      requires Valid() && list != []
      modifies this
      ensures Valid() && Queue() == old(Queue())[1..]
    {
      hide Path;
      PathStart(list, head, next, NULL);
      PathStep(list, head, next, NULL, 0);
      PathPop(list, head, next, NULL, next[head], next);
      ListedRemoved(list, packets, 0);
      assert list[..0] + list[1..] == list[1..];
      assert forall x :: x in list[1..] ==> x in list;
      head := next[head];
      list := list[1..];
    }

    /** ipv4_recvfrom(), for a connection over the loopback: the next bytes of the stream. */
    method Recvfrom(count: nat, state: State, nonblock: bool, peek: bool) returns (r: Outcome)
      requires Valid()
      modifies this
      ensures Valid()
      ensures r == Answer(old(Queue()), state == Disconnecting, count, nonblock)
      ensures Queue() == if old(Queue()) == [] then [] else Received(old(Queue()), count, peek)
      ensures r.Got? ==> r.data == old(Rest(Queue()))[..|r.data|] && Rest(Queue()) == old(Rest(Queue()))[|r.data|..]
    {
      hide Path;
      hide Rest;
      hide Sound;
      HeadOf(list, head, next);
      if head == NULL {
        return if state == Disconnecting then End else if nonblock then Again else Sleep;
      }
      ReceivedNext(Queue(), count, peek);
      SoundFirst(Queue());
      var p := packets[head];
      var size := Min(|p.data| - p.offset, count);
      r := Got(p.data[p.offset..p.offset + size]);
      Advance(size);
      if !peek && p.offset + size >= |p.data| {
        RemoveFirst();
      }
    }

    /** The first packet has been read this far. */
    method Advance(size: nat)
      requires Valid() && list != [] && head == list[0] && packets[head].offset + size <= |packets[head].data|
      modifies this`packets
      ensures Valid()
      ensures Queue() == [old(packets[head]).(offset := old(packets[head]).offset + size)] + old(Queue())[1..]
    {
      hide Path;
      Apart(list, head, next);
      var p := packets[head].(offset := packets[head].offset + size);
      ListedUpdated(list, packets, 0, p);
      SoundAgain(Queue(), p);
      packets := packets[head := p];
    }
  }

  lemma HeadOf(list: seq<Ptr>, head: Ptr, next: map<Ptr, Ptr>)
    requires Path(list, head, next, NULL)
    ensures if list == [] then head == NULL else head == list[0] && head != NULL
  {
    PathStart(list, head, next, NULL);
  }

  lemma Apart(list: seq<Ptr>, head: Ptr, next: map<Ptr, Ptr>)
    requires Path(list, head, next, NULL)
    ensures Distinct(list)
  {
    PathStart(list, head, next, NULL);
  }

  lemma SoundFirst(q: seq<Packet>)
    requires Sound(q) && q != []
    ensures q[0].offset <= |q[0].data|
  {
  }

  lemma SoundAgain(q: seq<Packet>, p: Packet)
    requires Sound(q) && q != [] && p.offset <= |p.data|
    ensures Sound([p] + q[1..])
  {
  }

  // ---- runs on the linked list ----

  /** What an event returns. */
  ghost function Told(x: World, e: Event): seq<Outcome>
    requires May(x, e)
  {
    match e
    case Write(_, memory) => [Sent(memory)]
    case Read(count, _, nonblock) => [Answer(x.queue, x.closed, count, nonblock)]
    case Close => []
  }

  /** What the writes and reads of a run return. */
  ghost function Answers(x: World, es: seq<Event>): seq<Outcome>
    requires MayAll(x, es)
    decreases |es|
  {
    if es == [] then [] else Told(x, es[0]) + Answers(After(x, es[0]), es[1..])
  }

  lemma MayFirst(x: World, es: seq<Event>)
    requires es != [] && MayAll(x, es)
    ensures May(x, es[0]) && MayAll(After(x, es[0]), es[1..])
  {
  }

  lemma AnswersMore(x: World, es: seq<Event>, rs: seq<Outcome>)
    requires es != [] && MayAll(x, es)
    ensures May(x, es[0])
    ensures rs + Answers(x, es) == rs + Told(x, es[0]) + Answers(After(x, es[0]), es[1..])
  {
    hide Told;
    hide May;
    hide After;
    hide MayAll;
    MayFirst(x, es);
    var r := Told(x, es[0]);
    var more := Answers(After(x, es[0]), es[1..]);
    assert Answers(x, es) == r + more;
    assert rs + (r + more) == rs + r + more;
  }

  /** One event, on the packets of an inbox: what it returns. */
  method Do(box: Inbox, e: Event, state: State, ghost x: World) returns (r: seq<Outcome>, state': State)
    requires box.Valid() && May(x, e) && x.queue == box.Queue() && (state == Disconnecting <==> x.closed)
    modifies box
    ensures box.Valid() && box.Queue() == After(x, e).queue && (state' == Disconnecting <==> After(x, e).closed)
    ensures r == Told(x, e)
  {
    hide Answer;
    hide Received;
    hide Path;
    hide Rest;
    r, state' := [], state;
    match e
    case Write(s, memory) =>
      var ok := box.Deliver(s, memory);
      r := [Sent(ok)];
    case Read(count, peek, nonblock) =>
      var got := box.Recvfrom(count, state, nonblock, peek);
      r := [got];
    case Close =>
      state' := Disconnecting;
  }

  /** Any run, on the packets of an inbox: writes and reads return what the plain run says. */
  method Execute(box: Inbox, es: seq<Event>, ghost x: World) returns (rs: seq<Outcome>)
    requires box.Valid() && MayAll(x, es) && x.queue == box.Queue() && !x.closed
    modifies box
    ensures box.Valid() && box.Queue() == AfterAll(x, es).queue && rs == Answers(x, es)
  {
    hide Told;
    hide May;
    hide After;
    rs := [];
    var state := Connected;
    ghost var y := x;
    var i := 0;
    assert es[0..] == es;
    while i < |es|
      invariant 0 <= i <= |es| && box.Valid() && MayAll(y, es[i..]) && y.queue == box.Queue()
      invariant (state == Disconnecting <==> y.closed)
      invariant AfterAll(y, es[i..]) == AfterAll(x, es) && rs + Answers(y, es[i..]) == Answers(x, es)
    {
      assert es[i..][0] == es[i] && es[i..][1..] == es[i + 1..];
      AnswersMore(y, es[i..], rs);
      var r;
      r, state := Do(box, es[i], state, y);
      rs := rs + r;
      y := After(y, es[i]);
      i := i + 1;
    }
  }

  lemma LastOne(list: seq<Ptr>, i: nat)
    requires i < |list| && NULL !in list && Links.At(list, i + 1, NULL) == NULL
    ensures i == |list| - 1
  {
    assert forall j :: 0 <= j < |list| ==> list[j] in list;
  }

  lemma AppendedPath(list: seq<Ptr>, head: Ptr, next: map<Ptr, Ptr>, last: Ptr, p: Ptr, head': Ptr,
                     next': map<Ptr, Ptr>)
    requires Path(list, head, next, NULL) && p !in list && p != NULL
    requires last == (if list == [] then NULL else list[|list| - 1]) && head' == if list == [] then p else head
    requires next' == if list == [] then next[p := NULL] else next[last := p][p := NULL]
    ensures Path(list + [p], head', next', NULL)
  {
    PathStart(list, head, next, NULL);
    hide Path;
    PathAppend(list, head, next, NULL, p, head', next');
  }
}
