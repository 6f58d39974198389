/** The callout table of kernel/timer.c: a pool of slots, and the active ones linked in expiry order. */
module CalloutTable {
  import opened Links
  import opened Chains
  import opened DeltaQueue

  const NR_CALLOUTS := 1024
  const INT_MAX := 0x7fff_ffff
  const UNSIGNED := 0x1_0000_0000

  /** What an int holds after an unsigned int is stored in it. */
  function AsInt(ticks: nat): int {
    if ticks <= INT_MAX then ticks else ticks - UNSIGNED
  }

  lemma StoredAt(s: seq<Ptr>, slot: map<Ptr, Callout>)
    requires forall x :: x in s ==> x in slot
    ensures forall i :: 0 <= i < |s| ==> Listed(s, slot)[i] == slot[s[i]]
  {
  }

  lemma FirstApart(s: seq<Ptr>)
    requires Distinct(s)
    ensures s != [] ==> s[0] !in s[1..] && forall x :: x in s <==> x == s[0] || x in s[1..]
  {
    assert s != [] ==> s == [s[0]] + s[1..];
  }

  lemma StoredFrame(s: seq<Ptr>, slot: map<Ptr, Callout>, slot': map<Ptr, Callout>)
    requires forall x :: x in s ==> x in slot && x in slot' && slot'[x] == slot[x]
    ensures Listed(s, slot') == Listed(s, slot)
  {
  }

  lemma StoredHead(s: seq<Ptr>, slot: map<Ptr, Callout>, c: Callout)
    requires Distinct(s) && s != [] && forall x :: x in s ==> x in slot
    ensures Listed(s, slot[s[0] := c]) == [c] + Listed(s, slot)[1..]
    ensures Listed(s[1..], slot) == Listed(s, slot)[1..]
  {
  }

  ghost predicate Unique(q: seq<Callout>) {
    forall i, j :: 0 <= i < j < |q| ==> q[i].req != q[j].req
  }

  lemma InsertedSkips(q: seq<Callout>, c: Callout, i: nat, now: Callout)
    requires i < |q| && Inserted(q, c) == q[..i] + Inserted(q[i..], now) && q[i].expires <= now.expires
    ensures Inserted(q, c) == q[..i + 1] + Inserted(q[i + 1..], now.(expires := now.expires - q[i].expires))
  {
    assert q[i..][1..] == q[i + 1..];
    assert q[..i + 1] == q[..i] + [q[i]];
  }

  lemma InsertedStops(q: seq<Callout>, c: Callout, i: nat, now: Callout)
    requires i <= |q| && Inserted(q, c) == q[..i] + Inserted(q[i..], now)
    ensures i == |q| ==> Inserted(q, c) == q + [now]
    ensures i < |q| && q[i].expires > now.expires ==>
              Inserted(q, c) == q[..i] + [now, q[i].(expires := q[i].expires - now.expires)] + q[i + 1..]
  {
    if i < |q| {
      assert q[i..][1..] == q[i + 1..];
    }
  }

  /** Storing a callout at position `i` of the list stores it at position `i` of the queue. */
  lemma StoredInsert(s: seq<Ptr>, slot: map<Ptr, Callout>, i: nat, c: Ptr, slot': map<Ptr, Callout>)
    requires Distinct(s) && i <= |s| && c !in s && c in slot
    requires forall x :: x in s ==> x in slot
    requires slot'
      == if i == |s| then slot else slot[s[i] := slot[s[i]].(expires := slot[s[i]].expires - slot[c].expires)]
    ensures forall x :: x in s[..i] + [c] + s[i..] ==> x in slot'
    ensures var q, n := Listed(s, slot), slot[c];
      Listed(s[..i] + [c] + s[i..], slot')
        == if i == |s| then q + [n] else q[..i] + [n, q[i].(expires := q[i].expires - n.expires)] + q[i + 1..]
  {
  }

  /** Unlinking the node at position `k` and passing its expiry on deletes entry `k` of the queue. */
  lemma StoredDelete(s: seq<Ptr>, slot: map<Ptr, Callout>, k: nat, slot': map<Ptr, Callout>)
    requires Distinct(s) && k < |s| && forall x :: x in s ==> x in slot
    requires slot' == if k + 1 == |s| then slot
      else slot[s[k + 1] := slot[s[k + 1]].(expires := slot[s[k + 1]].expires + slot[s[k]].expires)]
    ensures forall x :: x in s[..k] + s[k + 1..] ==> x in slot'
    ensures Listed(s[..k] + s[k + 1..], slot') == Deleted(Listed(s, slot), k)
  {
  }

  /** No expiry is negative, no request is pending twice, and no sum of expiries exceeds an int. */
  ghost predicate Healthy(q: seq<Callout>) {
    NonNegative(q) && Unique(q) && Within(q, INT_MAX)
  }

  lemma InsertedHealthy(q: seq<Callout>, c: Callout)
    requires Healthy(q) && 0 <= c.expires <= INT_MAX && Position(q, c.req) == |q|
    ensures Healthy(Inserted(q, c))
  {
    InsertedNonNegative(q, c);
    InsertedRequests(q, c);
    InsertedWithin(q, c, INT_MAX);
  }

  /** Insertion adds one request and keeps the order of the others. */
  lemma {:induction false} InsertedRequests(q: seq<Callout>, c: Callout)
    requires Unique(q) && Position(q, c.req) == |q|
    ensures Unique(Inserted(q, c))
    ensures Requests(Inserted(q, c)) <= Requests(q) + {c.req}
  {
    if q != [] && q[0].expires <= c.expires {
      var c' := c.(expires := c.expires - q[0].expires);
      InsertedRequests(q[1..], c');
      RequestsOf(q);
      UniqueMore(q[0], Inserted(q[1..], c'));
    } else if q != [] {
      RequestsOf(q);
      var d := q[0].(expires := q[0].expires - c.expires);
      assert Inserted(q, c) == [c] + ([d] + q[1..]);
      UniqueMore(d, q[1..]);
      PositionPast(q, c.req);
      UniqueMore(c, [d] + q[1..]);
    } else {
      UniqueMore(c, []);
    }
  }

  ghost function Requests(q: seq<Callout>): set<Request> {
    set i | 0 <= i < |q| :: q[i].req
  }

  lemma RequestsMore(c: Callout, q: seq<Callout>)
    ensures Requests([c] + q) == {c.req} + Requests(q)
  {
    var r := [c] + q;
    assert r[0] == c;
    forall x | x in {c.req} + Requests(q) ensures x in Requests(r) {
      if x != c.req {
        var i :| 0 <= i < |q| && q[i].req == x;
        assert r[i + 1].req == x;
      }
    }
    forall x | x in Requests(r) ensures x in {c.req} + Requests(q) {
      var i :| 0 <= i < |r| && r[i].req == x;
      assert i > 0 ==> r[i] == q[i - 1];
    }
  }

  lemma UniqueAnd(c: Callout, q: seq<Callout>)
    requires Unique(q) && c.req !in Requests(q)
    ensures Unique([c] + q)
  {
    var r := [c] + q;
    forall i, j | 0 <= i < j < |r| ensures r[i].req != r[j].req {
      assert r[j] == q[j - 1] && r[j].req in Requests(q);
      assert i > 0 ==> r[i] == q[i - 1];
    }
  }

  lemma UniqueMore(c: Callout, q: seq<Callout>)
    ensures Requests([c] + q) == {c.req} + Requests(q)
    ensures Unique(q) && c.req !in Requests(q) ==> Unique([c] + q)
  {
    RequestsMore(c, q);
    if Unique(q) && c.req !in Requests(q) {
      UniqueAnd(c, q);
    }
  }

  lemma RequestsOf(q: seq<Callout>)
    requires q != []
    ensures Requests(q) == {q[0].req} + Requests(q[1..])
    ensures Unique(q) ==> q[0].req !in Requests(q[1..]) && Unique(q[1..])
  {
    UniqueMore(q[0], q[1..]);
    assert [q[0]] + q[1..] == q;
  }

  lemma {:induction false} PositionPast(q: seq<Callout>, req: Request)
    requires Position(q, req) == |q|
    ensures req !in Requests(q)
  {
    if q != [] {
      PositionPast(q[1..], req);
      UniqueMore(q[0], q[1..]);
      assert [q[0]] + q[1..] == q;
    }
  }

  lemma DisarmedHealthy(q: seq<Callout>, req: Request)
    requires Healthy(q)
    ensures Healthy(Disarmed(q, req))
    ensures Position(Disarmed(q, req), req) == |Disarmed(q, req)|
  {
    var k := Position(q, req);
    var r := Disarmed(q, req);
    if k < |q| {
      DeletedWithin(q, k, INT_MAX);
      assert forall i :: 0 <= i < |r| ==> r[i].req == q[if i < k then i else i + 1].req;
    }
  }

  lemma PositionIs(q: seq<Callout>, req: Request, i: nat)
    requires i <= |q| && (forall j :: 0 <= j < i ==> q[j].req != req) && (i < |q| ==> q[i].req == req)
    ensures Position(q, req) == i
  {
  }

  lemma CountedHealthy(q: seq<Callout>)
    requires Healthy(q)
    ensures Healthy(Counted(q))
  {
    if q != [] && q[0].expires > 0 {
      CountedDeadlines(q, -1);
      DeadlinesShift(q, -1, 1);
    }
  }

  lemma FiredHealthy(q: seq<Callout>)
    requires q != [] && q[0].expires == 0 && Healthy(q)
    ensures Healthy(q[1..])
  {
    FiredDeadlines(q, 0);
  }

  lemma DisarmedKeeps(q: seq<Callout>, req: Request)
    ensures Healthy(q) ==> Healthy(Disarmed(q, req))
  {
    if Healthy(q) {
      DisarmedHealthy(q, req);
    }
  }

  lemma CountedKeeps(q: seq<Callout>)
    ensures Healthy(q) ==> Healthy(Counted(q))
  {
    if Healthy(q) {
      CountedHealthy(q);
    }
  }

  lemma FiredKeeps(q: seq<Callout>)
    requires q != [] && q[0].expires == 0
    ensures Healthy(q) ==> Healthy(q[1..])
  {
    if Healthy(q) {
      FiredHealthy(q);
    }
  }

  lemma NotYet(list: seq<Ptr>, i: nat, c: Ptr)
    requires i <= |list| && c in list && c !in list[..i] && NULL !in list
    requires (At(list, i, NULL) == NULL || At(list, i, NULL) == c)
    ensures i < |list| && list[i] == c
  {
    assert list == list[..i] + list[i..];
    assert i < |list| ==> list[i] in list;
  }

  class Callouts {
    var head: Ptr
    var free: Ptr
    var next: map<Ptr, Ptr>
    var slot: map<Ptr, Callout>
    ghost var active: seq<Ptr>
    ghost var pool: seq<Ptr>

    /** The pool and the active list partition the slots. */
    ghost predicate Shape()
      reads this
    {
      && Path(active, head, next, NULL)
      && Path(pool, free, next, NULL)
      && (forall x :: x in active ==> x !in pool)
      && (forall x :: x in slot <==> x in active || x in pool)
      && (forall x :: x in next <==> x in slot)
    }

    ghost function Queue(): (q: seq<Callout>)
      requires Shape()
      reads this
    {
      Listed(active, slot)
    }

    ghost predicate Valid()
      reads this
    {
      Shape() && Healthy(Queue())
    }

    /** timer_init(): every slot is free. */
    constructor ()
      ensures Valid() && Queue() == [] && |pool| == NR_CALLOUTS
    {
      head, free := NULL, NULL;
      active, pool := [], [];
      next, slot := map[], map[];
      new;
      hide Path;
      PathNone(next, NULL);
      var n := NR_CALLOUTS;
      while n > 0
        invariant 0 <= n <= NR_CALLOUTS && |pool| == NR_CALLOUTS - n
        invariant Path(active, head, next, NULL) && Path(pool, free, next, NULL)
        invariant active == [] && head == NULL && (forall x :: x in pool <==> n < x <= NR_CALLOUTS)
        invariant forall x :: x in next <==> x in pool
        invariant forall x :: x in slot <==> x in pool
      {
        n := n - 1;
        PathStart(pool, free, next, NULL);
        PathFrame(pool, free, next, NULL, next[n + 1 := NULL]);
        PathNone(next[n + 1 := NULL], NULL);
        next := next[n + 1 := NULL];
        slot := slot[n + 1 := Callout(Request(0, 0), 0)];
        PutFree(n + 1);
      }
    }

    method GetFree() returns (c: Ptr)
      requires Shape()
      modifies this`free, this`next, this`pool
      ensures Path(active, head, next, NULL) && Path(pool, free, next, NULL)
      ensures next.Keys == old(next.Keys)
      ensures old(pool) == [] ==> c == NULL && pool == []
      ensures old(pool) != [] ==> c == old(pool)[0] && pool == old(pool)[1..] && next[c] == NULL
      ensures old(pool) != [] ==> c != NULL && c !in pool && forall x :: x in old(pool) <==> x == c || x in pool
    {
      hide Path;
      PathStart(pool, free, next, NULL);
      FirstApart(pool);
      c := NULL;
      if free != NULL {
        ghost var n := next;
        c := free;
        PathStep(pool, free, next, NULL, 0);
        free := next[free];
        next := next[c := NULL];
        PathRemove(pool, c, n, NULL, 0, free, next);
        assert pool[..0] + pool[1..] == pool[1..];
        PathStart(active, head, n, NULL);
        PathFrame(active, head, n, NULL, next);
        pool := pool[1..];
      }
    }

    method PutFree(c: Ptr)
      requires Path(active, head, next, NULL) && Path(pool, free, next, NULL)
      requires c != NULL && c !in active && c !in pool && c in next
      modifies this`free, this`next, this`pool
      ensures Path(active, head, next, NULL) && Path(pool, free, next, NULL)
      ensures pool == [c] + old(pool) && next.Keys == old(next.Keys)
    {
      hide Path;
      ghost var n := next;
      PathStart(pool, free, n, NULL);
      PathStart(active, head, n, NULL);
      next := next[c := free];
      PathInsert(pool, free, n, NULL, 0, c, c, next);
      assert pool[..0] + [c] + pool[0..] == [c] + pool;
      free := c;
      PathFrame(active, head, n, NULL, next);
      pool := [c] + pool;
    }

    /** The walk of add_callout(): how far the new callout `c` goes, and what is left of its expiry there. */
    method Place(c: Ptr) returns (before: Ptr, cur: Ptr, ghost i: nat)
      requires Path(active, head, next, NULL) && c in slot && c !in active
      requires forall x :: x in active ==> x in slot
      modifies this`slot
      ensures slot.Keys == old(slot.Keys) && slot[c].req == old(slot[c].req)
      ensures forall x :: x in slot && x != c ==> slot[x] == old(slot)[x]
      ensures i <= |active| && cur == At(active, i, NULL) && before == At(active, i - 1, NULL)
      ensures Inserted(Listed(active, slot), old(slot[c])) == Listed(active, slot)[..i]
        + Inserted(Listed(active, slot)[i..], slot[c])
      ensures i < |active| ==> Listed(active, slot)[i].expires > slot[c].expires
      ensures Listed(active, slot) == old(Listed(active, slot)) && |Listed(active, slot)| == |active|
    {
      hide Path;
      hide Inserted;
      PathStart(active, head, next, NULL);
      ghost var q, c0 := Listed(active, slot), slot[c];
      before, cur, i := NULL, head, 0;
      assert q[..0] + Inserted(q[0..], c0) == Inserted(q, c0) by { assert q[0..] == q; }
      while cur != NULL
        invariant i <= |active| && cur == At(active, i, NULL) && before == At(active, i - 1, NULL)
        invariant slot.Keys == old(slot.Keys) && slot[c].req == c0.req
        invariant forall x :: x in slot && x != c ==> slot[x] == old(slot)[x]
        invariant Listed(active, slot) == q
        invariant Inserted(q, c0) == q[..i] + Inserted(q[i..], slot[c])
        decreases |active| - i
      {
        if slot[cur].expires > slot[c].expires {
          break;
        }
        InsertedSkips(q, c0, i, slot[c]);
        PathStep(active, head, next, NULL, i);
        slot := slot[c := slot[c].(expires := slot[c].expires - slot[cur].expires)];
        before := cur;
        cur := next[cur];
        i := i + 1;
      }
    }

    /** Links `c` between `before` and `cur`, which gives up what `c` now counts off for it. */
    method Link(c: Ptr, before: Ptr, cur: Ptr, ghost i: nat)
      requires Path(active, head, next, NULL) && Path(pool, free, next, NULL)
      requires c != NULL && c in slot && c in next && next[c] == NULL && c !in active && c !in pool
      requires forall x :: x in active ==> x in slot && x !in pool
      requires i <= |active| && cur == At(active, i, NULL) && before == At(active, i - 1, NULL)
      modifies this`head, this`next, this`slot, this`active
      ensures Path(active, head, next, NULL) && Path(pool, free, next, NULL)
      ensures next.Keys == old(next.Keys)
      ensures active == old(active)[..i] + [c] + old(active)[i..]
      ensures cur == NULL ==> slot == old(slot)
      ensures cur != NULL ==>
        slot == old(slot)[cur := old(slot)[cur].(expires := old(slot)[cur].expires - old(slot)[c].expires)]
    {
      hide Path;
      ghost var n, h := next, head;
      PathStart(active, h, n, NULL);
      PathStart(pool, free, n, NULL);
      if cur != NULL {
        slot := slot[cur := slot[cur].(expires := slot[cur].expires - slot[c].expires)];
        next := next[c := cur];
      }
      if before == NULL {
        head := c;
      } else {
        next := next[before := c];
      }
      PathInsert(active, h, n, NULL, i, c, head, next);
      PathFrame(pool, free, n, NULL, next);
      active := active[..i] + [c] + active[i..];
    }

    /** Inserts the callout in slot `c` by its expiry. */
    method Insert(c: Ptr)
      requires Path(active, head, next, NULL) && Path(pool, free, next, NULL) && (forall x :: x in next <==> x in slot)
      requires c != NULL && c in slot && next[c] == NULL && c !in active && c !in pool
      requires forall x :: x in active ==> x in slot && x !in pool
      modifies this`head, this`next, this`slot, this`active
      ensures Path(active, head, next, NULL) && Path(pool, free, next, NULL)
      ensures next.Keys == old(next.Keys) && slot.Keys == old(slot.Keys)
      ensures forall x :: x in active <==> x == c || x in old(active)
      ensures Listed(active, slot) == Inserted(old(Listed(active, slot)), old(slot[c]))
    {
      hide Path;
      hide Inserted;
      hide Listed;
      PathStart(active, head, next, NULL);
      ghost var a, q, c0 := active, Listed(active, slot), slot[c];
      var before, cur;
      ghost var i;
      before, cur, i := Place(c);
      assert Listed(a, slot) == q;
      InsertedStops(q, c0, i, slot[c]);
      ghost var placed := slot;
      Link(c, before, cur, i);
      StoredInsert(a, placed, i, c, slot);
    }

    /** Unlinks node `c` found at `cur`, behind `before`; its follower inherits its expiry. */
    method Unlink(c: Ptr, before: Ptr, ghost k: nat)
      requires Path(active, head, next, NULL) && Path(pool, free, next, NULL)
      requires k < |active| && c == active[k] && before == At(active, k - 1, NULL)
      requires forall x :: x in active ==> x in slot && x !in pool
      modifies this`head, this`next, this`slot, this`active
      ensures Path(active, head, next, NULL) && Path(pool, free, next, NULL)
      ensures next.Keys == old(next.Keys) && slot.Keys == old(slot.Keys)
      ensures active == old(active)[..k] + old(active)[k + 1..] && c !in active
      ensures forall x :: x in active ==> x in old(active)
      ensures Listed(active, slot) == Deleted(old(Listed(active, slot)), k)
    {
      hide Path;
      ghost var n, h, a, s := next, head, active, slot;
      PathStart(a, h, n, NULL);
      PathStart(pool, free, n, NULL);
      PathStep(a, h, n, NULL, k);
      var follower := next[c];
      if before == NULL {
        head := follower;
      } else {
        next := next[before := follower];
      }
      if follower != NULL {
        slot := slot[follower := slot[follower].(expires := slot[follower].expires + slot[c].expires)];
      }
      PathRemove(a, h, n, NULL, k, head, next);
      PathFrame(pool, free, n, NULL, next);
      StoredDelete(a, s, k, slot);
      active := a[..k] + a[k + 1..];
    }

    /** do_del_callout(): finds the slot in the active list, unlinks it and returns it to the pool. */
    method DoDel(c: Ptr)
      requires Shape() && c in active
      modifies this
      ensures Shape() && slot.Keys == old(slot.Keys)
      ensures Queue() == Deleted(old(Queue()), IndexOf(old(active), c))
      ensures pool == [c] + old(pool)
    {
      hide Path;
      hide Deleted;
      hide Listed;
      hide IndexOf;
      hide Distinct;
      var before, i := FindSlot(c);
      ghost var a := active;
      Apart(i);
      Unlink(c, before, i);
      assert forall x :: x in a <==> x == c || x in active by { assert a == a[..i] + [c] + a[i + 1..]; }
      PutFree(c);
    }

    lemma Apart(i: nat)
      requires Shape() && i < |active|
      ensures active[i] != NULL && active[i] in next && active[i] !in pool && IndexOf(active, active[i]) == i
    {
      PathStart(active, head, next, NULL);
      IndexIs(active, i);
    }

    /** The walk to a slot: the one before it, or NULL. */
    method FindSlot(c: Ptr) returns (before: Ptr, ghost i: nat)
      requires Shape() && c in active
      ensures i < |active| && active[i] == c && before == At(active, i - 1, NULL)
    {
      hide Path;
      PathStart(active, head, next, NULL);
      before, i := NULL, 0;
      var cur := head;
      while cur != NULL && cur != c
        invariant i <= |active| && cur == At(active, i, NULL) && before == At(active, i - 1, NULL)
        invariant c !in active[..i]
        decreases |active| - i
      {
        PathStep(active, head, next, NULL, i);
        assert active[..i + 1] == active[..i] + [active[i]];
        before := cur;
        cur := next[cur];
        i := i + 1;
      }
      NotYet(active, i, c);
    }

    /** The walk to the first callout of a request; NULL when there is none. */
    method FindRequest(req: Request) returns (c: Ptr, ghost i: nat)
      requires Shape()
      ensures i == Position(Queue(), req) && c == At(active, i, NULL) && (c == NULL <==> i == |Queue()|)
      ensures |Queue()| == |active|
      ensures c != NULL ==> c in active
    {
      hide Path;
      hide Listed;
      PathStart(active, head, next, NULL);
      StoredAt(active, slot);
      c, i := head, 0;
      while c != NULL && slot[c].req != req
        invariant i <= |active| && c == At(active, i, NULL)
        invariant forall j :: 0 <= j < i ==> Queue()[j].req != req
        decreases |active| - i
      {
        PathStep(active, head, next, NULL, i);
        c := next[c];
        i := i + 1;
      }
      assert i < |active| ==> active[i] in active;
      PositionIs(Queue(), req, i);
    }

    /** del_callout(). */
    method Del(req: Request) returns (ghost found: bool)
      requires Shape()
      modifies this
      ensures Shape() && slot.Keys == old(slot.Keys)
      ensures Queue() == Disarmed(old(Queue()), req) && (Healthy(old(Queue())) ==> Healthy(Queue()))
      ensures found <==> Position(old(Queue()), req) < |old(Queue())|
      ensures |pool| == |old(pool)| + if found then 1 else 0
    {
      hide Shape;
      hide Deleted;
      hide Healthy;
      DisarmedKeeps(Queue(), req);
      var c, i := FindRequest(req);
      found := c != NULL;
      if c != NULL {
        Apart(i);
        DoDel(c);
      }
    }

    /**
      * add_callout(): `armed` is false only when every slot is taken by another request. A request for more ticks than
      * an int holds is put in the queue with a negative expiry.
      */
    method Add(req: Request, ticks: nat) returns (armed: bool)
      requires Shape() && ticks < UNSIGNED
      modifies this
      ensures Shape() && slot.Keys == old(slot.Keys)
      ensures Healthy(old(Queue())) && (ticks <= INT_MAX || !armed) ==> Healthy(Queue())
      ensures armed <==> old(pool) != [] || Position(old(Queue()), req) < |old(Queue())|
      ensures Queue() == if armed then Inserted(Disarmed(old(Queue()), req), Callout(req, AsInt(ticks)))
        else Disarmed(old(Queue()), req)
    {
      hide Shape;
      hide Inserted;
      hide Healthy;
      hide Disarmed;
      hide Position;
      ghost var q := Disarmed(Queue(), req);
      if Healthy(Queue()) {
        DisarmedHealthy(Queue(), req);
      }
      ghost var _ := Del(req);
      if free == NULL {
        NoneFree();
        return false;
      }
      NoneFree();
      if ticks <= INT_MAX && Healthy(q) && Position(q, req) == |q| {
        InsertedHealthy(q, Callout(req, AsInt(ticks)));
      }
      Put(req, AsInt(ticks));
      armed := true;
    }

    lemma NoneFree()
      requires Shape()
      ensures free == NULL <==> pool == []
    {
      PathStart(pool, free, next, NULL);
    }

    /** A free slot is filled in and put in its place. */
    method Put(req: Request, ticks: int)
      requires Shape() && pool != []
      modifies this
      ensures Shape() && slot.Keys == old(slot.Keys)
      ensures Queue() == Inserted(old(Queue()), Callout(req, ticks))
    {
      hide Path;
      hide Inserted;
      hide Listed;
      hide Distinct;
      var c := GetFree();
      ghost var before := slot;
      slot := slot[c := Callout(req, ticks)];
      StoredFrame(active, before, slot);
      Insert(c);
    }

    /** The callout part of a timer tick: `expired` asks for the bottom half. */
    method Tick() returns (expired: bool)
      requires Shape()
      modifies this`slot
      ensures Shape() && slot.Keys == old(slot.Keys)
      ensures Queue() == Counted(old(Queue())) && (Healthy(old(Queue())) ==> Healthy(Queue()))
      ensures expired <==> Queue() != [] && Queue()[0].expires <= 0
    {
      hide Shape;
      hide Healthy;
      First();
      CountedKeeps(Queue());
      expired := false;
      if head != NULL {
        if slot[head].expires > 0 {
          CountDown();
          First();
          if slot[head].expires == 0 {
            expired := true;
          }
        } else {
          expired := true;
        }
      }
    }

    lemma First()
      requires Shape()
      ensures head == NULL <==> Queue() == []
      ensures head != NULL ==> head in slot && slot[head] == Queue()[0]
    {
      PathStart(active, head, next, NULL);
    }

    method CountDown()
      requires Shape() && head != NULL && head in slot
      modifies this`slot
      ensures Shape() && slot.Keys == old(slot.Keys) && old(Queue()) != []
      ensures Queue() == [old(Queue())[0].(expires := old(Queue())[0].expires - 1)] + old(Queue())[1..]
    {
      hide Path;
      hide Listed;
      PathStart(active, head, next, NULL);
      StoredAt(active, slot);
      var c := slot[head].(expires := slot[head].expires - 1);
      StoredHead(active, slot, c);
      slot := slot[head := c];
    }

    /** Takes the first slot off the active list. */
    method PopHead() returns (c: Ptr)
      requires Path(active, head, next, NULL) && active != [] && forall x :: x in active ==> x in slot
      modifies this`head, this`active
      ensures Path(active, head, next, NULL) && active == old(active)[1..] && c == old(active)[0]
      ensures forall x :: x in old(active) <==> x == c || x in active
      ensures c != NULL && c !in active
    {
      hide Path;
      ghost var a := active;
      PathStart(a, head, next, NULL);
      PathStep(a, head, next, NULL, 0);
      c := head;
      head := next[c];
      PathRemove(a, c, next, NULL, 0, head, next);
      assert a[..0] + a[1..] == a[1..];
      assert a == [c] + a[1..];
      active := a[1..];
    }

    /** One turn of do_callouts_bh(): the first callout, when its time has come, leaves the queue. */
    method Fire() returns (fired: bool, req: Request)
      requires Shape()
      modifies this
      ensures Shape() && slot.Keys == old(slot.Keys) && (Healthy(old(Queue())) ==> Healthy(Queue()))
      ensures fired <==> old(Queue()) != [] && old(Queue())[0].expires == 0
      ensures fired ==> req == old(Queue())[0].req && Queue() == old(Queue())[1..]
      ensures !fired ==> Queue() == old(Queue())
    {
      hide Path;
      hide Listed;
      hide Healthy;
      PathStart(active, head, next, NULL);
      StoredAt(active, slot);
      fired, req := false, Request(0, 0);
      if head == NULL || slot[head].expires != 0 {
        return;
      }
      fired, req := true, slot[head].req;
      StoredHead(active, slot, slot[head]);
      FiredKeeps(Queue());
      var c := PopHead();
      PutFree(c);
    }
  }
}
