/** The callout queue of kernel/timer.c as a list of expiries, each relative to the one before it. */
module DeltaQueue {

  datatype Request = Request(fn: nat, arg: nat)

  /** A pending callout: `expires` ticks after the one before it in the queue. */
  datatype Callout = Callout(req: Request, expires: int)

  /** The same callout by the absolute tick it is due at. */
  datatype Alarm = Alarm(req: Request, due: int)

  ghost predicate NonNegative(q: seq<Callout>) {
    forall i :: 0 <= i < |q| ==> q[i].expires >= 0
  }

  /** The absolute deadlines of a queue whose relative expiries count from `now`. */
  ghost function Deadlines(q: seq<Callout>, now: int): (r: seq<Alarm>)
    ensures |r| == |q|
  {
    if q == [] then [] else [Alarm(q[0].req, now + q[0].expires)] + Deadlines(q[1..], now + q[0].expires)
  }

  ghost predicate Ordered(a: seq<Alarm>) {
    forall i, j :: 0 <= i < j < |a| ==> a[i].due <= a[j].due
  }

  lemma {:induction false} DeadlinesOrdered(q: seq<Callout>, now: int)
    requires NonNegative(q)
    ensures Ordered(Deadlines(q, now))
    ensures forall i :: 0 <= i < |q| ==> Deadlines(q, now)[i].due >= now
  {
    if q != [] {
      DeadlinesOrdered(q[1..], now + q[0].expires);
    }
  }

  // ---- arming ----

  /** add_callout()'s walk: past everything not due later, taking its expiry off the new one's. */
  ghost function Inserted(q: seq<Callout>, c: Callout): (r: seq<Callout>)
    ensures |r| == |q| + 1
  {
    if q == [] then [c]
    else if q[0].expires > c.expires then [c, q[0].(expires := q[0].expires - c.expires)] + q[1..]
    else [q[0]] + Inserted(q[1..], c.(expires := c.expires - q[0].expires))
  }

  /** Where an alarm due at `due` goes: before the first one due later, so behind its equals. */
  ghost function Slot(a: seq<Alarm>, due: int): (k: nat)
    ensures k <= |a|
    ensures forall i :: 0 <= i < k ==> a[i].due <= due
    ensures k < |a| ==> a[k].due > due
  {
    if a == [] || a[0].due > due then 0 else 1 + Slot(a[1..], due)
  }

  ghost function Scheduled(a: seq<Alarm>, x: Alarm): seq<Alarm> {
    a[..Slot(a, x.due)] + [x] + a[Slot(a, x.due)..]
  }

  lemma DeadlinesCons(c: Callout, q: seq<Callout>, now: int)
    ensures Deadlines([c] + q, now) == [Alarm(c.req, now + c.expires)] + Deadlines(q, now + c.expires)
  {
    assert ([c] + q)[1..] == q;
  }

  lemma ScheduledCons(a0: Alarm, a: seq<Alarm>, x: Alarm)
    ensures Scheduled([a0] + a, x) == if a0.due > x.due then [x, a0] + a else [a0] + Scheduled(a, x)
  {
    var b := [a0] + a;
    assert b[1..] == a;
    if a0.due <= x.due {
      var k := Slot(a, x.due);
      assert Slot(b, x.due) == k + 1;
      assert b[..k + 1] == [a0] + a[..k] && b[k + 1..] == a[k..];
    }
  }

  lemma InsertedFront(c0: Callout, q: seq<Callout>, c: Callout)
    requires c0.expires > c.expires
    ensures Inserted([c0] + q, c) == [c] + ([c0.(expires := c0.expires - c.expires)] + q)
  {
    assert ([c0] + q)[1..] == q;
  }

  lemma InsertedBack(c0: Callout, q: seq<Callout>, c: Callout)
    requires c0.expires <= c.expires
    ensures Inserted([c0] + q, c) == [c0] + Inserted(q, c.(expires := c.expires - c0.expires))
  {
    assert ([c0] + q)[1..] == q;
  }

  /** The new callout goes in front of the queue. */
  lemma InsertedFirst(c0: Callout, q: seq<Callout>, c: Callout, now: int)
    requires c0.expires > c.expires
    ensures Deadlines(Inserted([c0] + q, c), now) == Scheduled(Deadlines([c0] + q, now), Alarm(c.req, now + c.expires))
  {
    hide Inserted;
    hide Deadlines;
    hide Scheduled;
    var x, a0, tail := Alarm(c.req, now + c.expires), Alarm(c0.req, now + c0.expires), Deadlines(q, now + c0.expires);
    var follower := c0.(expires := c0.expires - c.expires);
    InsertedFront(c0, q, c);
    DeadlinesCons(c0, q, now);
    DeadlinesCons(c, [follower] + q, now);
    DeadlinesCons(follower, q, now + c.expires);
    ScheduledCons(a0, tail, x);
    assert [x, a0] + tail == [x] + ([a0] + tail);
  }

  /** The new callout goes somewhere behind `c0`. */
  lemma InsertedLater(c0: Callout, q: seq<Callout>, c: Callout, now: int)
    requires c0.expires <= c.expires
    requires var c' := c.(expires := c.expires - c0.expires);
             Deadlines(Inserted(q, c'), now + c0.expires)
               == Scheduled(Deadlines(q, now + c0.expires), Alarm(c.req, now + c.expires))
    ensures Deadlines(Inserted([c0] + q, c), now) == Scheduled(Deadlines([c0] + q, now), Alarm(c.req, now + c.expires))
  {
    hide Inserted;
    hide Deadlines;
    hide Scheduled;
    var c' := c.(expires := c.expires - c0.expires);
    InsertedBack(c0, q, c);
    DeadlinesCons(c0, q, now);
    DeadlinesCons(c0, Inserted(q, c'), now);
    ScheduledCons(Alarm(c0.req, now + c0.expires), Deadlines(q, now + c0.expires), Alarm(c.req, now + c.expires));
  }

  /** Arming one callout gives it its deadline and leaves every other deadline alone. */
  lemma {:induction false} InsertedDeadlines(q: seq<Callout>, c: Callout, now: int)
    ensures Deadlines(Inserted(q, c), now) == Scheduled(Deadlines(q, now), Alarm(c.req, now + c.expires))
  {
    hide Inserted;
    hide Deadlines;
    hide Scheduled;
    if q == [] {
      InsertedNone(c, now);
    } else {
      assert q == [q[0]] + q[1..];
      if q[0].expires > c.expires {
        InsertedFirst(q[0], q[1..], c, now);
      } else {
        InsertedDeadlines(q[1..], c.(expires := c.expires - q[0].expires), now + q[0].expires);
        InsertedLater(q[0], q[1..], c, now);
      }
    }
  }

  lemma DeadlinesNone(now: int)
    ensures Deadlines([], now) == []
  {
  }

  lemma InsertedNone(c: Callout, now: int)
    ensures Deadlines(Inserted([], c), now) == Scheduled(Deadlines([], now), Alarm(c.req, now + c.expires))
  {
  }

  lemma {:induction false} InsertedNonNegative(q: seq<Callout>, c: Callout)
    requires NonNegative(q) && c.expires >= 0
    ensures NonNegative(Inserted(q, c))
  {
    if q != [] && q[0].expires <= c.expires {
      InsertedNonNegative(q[1..], c.(expires := c.expires - q[0].expires));
    }
  }

  // ---- disarming ----

  /** do_del_callout(): the follower inherits what was left of the deleted callout's expiry. */
  ghost function Deleted(q: seq<Callout>, k: nat): (r: seq<Callout>)
    requires k < |q|
    ensures |r| == |q| - 1
  {
    if k + 1 < |q| then q[..k] + [q[k + 1].(expires := q[k + 1].expires + q[k].expires)] + q[k + 2..]
    else q[..k]
  }

  /** Disarming one callout leaves every other deadline alone. */
  lemma {:induction false} DeletedDeadlines(q: seq<Callout>, k: nat, now: int)
    requires k < |q|
    ensures Deadlines(Deleted(q, k), now) == Deadlines(q, now)[..k] + Deadlines(q, now)[k + 1..]
  {
    hide Deadlines;
    hide Deleted;
    var tail := Deadlines(q[1..], now + q[0].expires);
    assert q == [q[0]] + q[1..];
    DeadlinesCons(q[0], q[1..], now);
    if k > 0 {
      DeletedDeadlines(q[1..], k - 1, now + q[0].expires);
      DeletedCons(q, k);
      DeadlinesCons(q[0], Deleted(q[1..], k - 1), now);
      WithoutCons(Deadlines(q, now)[0], tail, k);
    } else {
      DeletedFirst(q, now);
    }
  }

  lemma DeletedFirst(q: seq<Callout>, now: int)
    requires q != []
    ensures Deadlines(Deleted(q, 0), now) == Deadlines(q, now)[..0] + Deadlines(q, now)[1..]
  {
    hide Deadlines;
    assert q == [q[0]] + q[1..];
    DeadlinesCons(q[0], q[1..], now);
    assert Deadlines(q, now)[..0] + Deadlines(q, now)[1..] == Deadlines(q[1..], now + q[0].expires);
    if |q| > 1 {
      var follower := q[1].(expires := q[1].expires + q[0].expires);
      assert q[1..] == [q[1]] + q[2..];
      assert Deleted(q, 0) == [follower] + q[2..];
      DeadlinesCons(q[1], q[2..], now + q[0].expires);
      DeadlinesCons(follower, q[2..], now);
    } else {
      DeadlinesNone(now);
    }
  }

  lemma DeletedCons(q: seq<Callout>, k: nat)
    requires 0 < k < |q|
    ensures Deleted(q, k) == [q[0]] + Deleted(q[1..], k - 1)
  {
    var t := q[1..];
    assert q[..k] == [q[0]] + t[..k - 1];
    if k + 1 < |q| {
      assert t[k - 1] == q[k] && t[k] == q[k + 1] && t[k + 1..] == q[k + 2..];
    }
  }

  lemma WithoutCons<T>(x: T, s: seq<T>, k: nat)
    requires 0 < k <= |s|
    ensures ([x] + s)[..k] + ([x] + s)[k + 1..] == [x] + (s[..k - 1] + s[k..])
  {
  }

  /** The position of the callout for `req`, or `|q|`. */
  ghost function Position(q: seq<Callout>, req: Request): (k: nat)
    ensures k <= |q|
    ensures k < |q| ==> q[k].req == req
    ensures forall i :: 0 <= i < k ==> q[i].req != req
  {
    if q == [] || q[0].req == req then 0 else 1 + Position(q[1..], req)
  }

  /** The queue once nothing is pending for `req`. */
  ghost function Disarmed(q: seq<Callout>, req: Request): seq<Callout> {
    if Position(q, req) < |q| then Deleted(q, Position(q, req)) else q
  }

  // ---- counting down ----

  /** The queue one tick later: only the first expiry is counted down, and not below zero. */
  ghost function Counted(q: seq<Callout>): seq<Callout> {
    if q == [] || q[0].expires <= 0 then q else [q[0].(expires := q[0].expires - 1)] + q[1..]
  }

  /** A tick leaves every deadline alone, unless the first callout was already due and not fired. */
  lemma CountedDeadlines(q: seq<Callout>, now: int)
    requires q == [] || q[0].expires > 0
    ensures Deadlines(Counted(q), now + 1) == Deadlines(q, now)
  {
    if q != [] {
      assert Counted(q)[1..] == q[1..];
    }
  }

  /** Firing the first callout when it is due leaves the other deadlines alone. */
  lemma FiredDeadlines(q: seq<Callout>, now: int)
    requires q != [] && q[0].expires == 0
    ensures Deadlines(q, now)[0].due == now
    ensures Deadlines(q[1..], now) == Deadlines(q, now)[1..]
  {
  }

  // ---- no deadline lies further ahead than an int can count ----

  ghost predicate Within(q: seq<Callout>, limit: int) {
    forall i :: 0 <= i < |q| ==> Deadlines(q, 0)[i].due <= limit
  }

  lemma InsertedWithin(q: seq<Callout>, c: Callout, limit: int)
    requires Within(q, limit) && c.expires <= limit
    ensures Within(Inserted(q, c), limit)
  {
    hide Deadlines;
    hide Inserted;
    InsertedDeadlines(q, c, 0);
  }

  lemma DeletedWithin(q: seq<Callout>, k: nat, limit: int)
    requires k < |q| && Within(q, limit)
    ensures Within(Deleted(q, k), limit)
  {
    hide Deadlines;
    hide Deleted;
    DeletedDeadlines(q, k, 0);
  }

  lemma {:induction false} DeadlinesShift(q: seq<Callout>, now: int, shift: int)
    ensures forall i :: 0 <= i < |q| ==> Deadlines(q, now + shift)[i].due == Deadlines(q, now)[i].due + shift
  {
    if q != [] {
      DeadlinesShift(q[1..], now + q[0].expires, shift);
    }
  }
}
