/** sync_buffers(): the walk over the dirty lists that changes the lists it walks, and whole runs of the cache. */
module BufferSync {
  import opened Links
  import opened Chains
  import opened BufferState
  import opened BufferCache
  import Ropes

  /** Device 0 stands for all devices. */
  predicate Wanted(dev: nat, d: nat) {
    dev == 0 || d == dev
  }

  /** The listed buffers of devices that are not to be written. */
  ghost function Kept(pool: Pool, s: seq<Ptr>, dev: nat): seq<Ptr>
    requires forall x :: x in s ==> x in pool
  {
    if s == [] then []
    else
      var x := s[|s| - 1];
      Kept(pool, s[..|s| - 1], dev) + (if Wanted(dev, pool[x].dev) then [] else [x])
  }

  lemma {:induction false} KeptMember(pool: Pool, s: seq<Ptr>, dev: nat, x: Ptr)
    requires forall y :: y in s ==> y in pool
    ensures x in Kept(pool, s, dev) <==> x in s && !Wanted(dev, pool[x].dev)
  {
    if s != [] {
      assert s == s[..|s| - 1] + [s[|s| - 1]];
      KeptMember(pool, s[..|s| - 1], dev, x);
    }
  }

  /** One place further on. */
  ghost function Rotated(s: seq<Ptr>): seq<Ptr> {
    if s == [] then [] else s[1..] + [s[0]]
  }

  /** Nothing has changed but that some dirty buffers of the device are now clean. */
  ghost predicate Flushed(pool: Pool, pool': Pool, dev: nat) {
    && (forall x :: x in pool' <==> x in pool)
    && (forall x :: x in pool ==>
         pool'[x] == pool[x] || (pool[x].dirty && Wanted(dev, pool[x].dev) && pool'[x] == pool[x].(dirty := false)))
  }

  lemma FlushedMore(pool: Pool, pool': Pool, dev: nat, x: Ptr)
    requires Flushed(pool, pool', dev) && x in pool' && pool'[x].dirty && Wanted(dev, pool'[x].dev)
    ensures Flushed(pool, Cleaned(pool', x), dev)
  {
  }

  lemma FlushedThen(p0: Pool, p1: Pool, p2: Pool, dev: nat)
    requires Flushed(p0, p1, dev) && Flushed(p1, p2, dev)
    ensures Flushed(p0, p2, dev)
  {
  }

  /** No buffer of `dev` on the lists of sizes below `size` is dirty. */
  ghost predicate CleanBelow(pool: Pool, dev: nat, size: nat) {
    forall x :: x in pool && pool[x].dirty && Wanted(dev, pool[x].dev) ==> pool[x].size >= size
  }

  ghost predicate Unlocked(pool: Pool) {
    forall x :: x in pool && pool[x].dirty ==> !pool[x].locked
  }

  lemma FlushedUnlocked(pool: Pool, pool': Pool, dev: nat)
    requires Flushed(pool, pool', dev) && Unlocked(pool)
    ensures Unlocked(pool')
  {
  }

  lemma FlushedClean(pool: Pool, pool': Pool, dev: nat, size: nat)
    requires Flushed(pool, pool', dev) && CleanBelow(pool, dev, size) && Sized(pool) && IsSize(size)
    requires forall x :: x in pool' && pool'[x].dirty && pool'[x].size == size ==> !Wanted(dev, pool'[x].dev)
    ensures CleanBelow(pool', dev, 2 * size)
  {
    forall x | x in pool' && pool'[x].dirty && Wanted(dev, pool'[x].dev) ensures pool'[x].size >= 2 * size {
      assert pool'[x] == pool[x] && IsSize(pool[x].size);
    }
  }

  lemma RestDropped(s: seq<Ptr>, kept: seq<Ptr>, n: nat)
    requires n < |s| && Distinct(s[n..] + kept)
    ensures Without(s[n..] + kept, s[n]) == s[n + 1..] + kept
  {
    var r := s[n..] + kept;
    assert r[0] == s[n];
    assert Without(r, s[n]) == r[1..];
    assert r[1..] == s[n + 1..] + kept;
  }

  /** After `n` steps of the walk the list holds what is still to come and then what was kept. */
  ghost predicate Walked(pool: Pool, list: seq<Ptr>, dev: nat, n: nat, pool': Pool, list': seq<Ptr>, first: Ptr) {
    && n <= |list| && Distinct(list) && NULL !in list && (forall x :: x in list ==> x in pool && pool[x].dirty)
    && list' == list[n..] + Kept(pool, list[..n], dev) && Distinct(list')
    && first == At(Kept(pool, list[..n], dev), 0, NULL)
    && Flushed(pool, pool', dev)
    && (forall x :: x in list[..n] && Wanted(dev, pool[x].dev) ==> !pool'[x].dirty)
  }

  /** The buffer at the head of the list and whether it is the one the walk put back first. */
  lemma WalkedHead(pool: Pool, list: seq<Ptr>, dev: nat, n: nat, pool': Pool, list': seq<Ptr>, first: Ptr)
    requires Walked(pool, list, dev, n, pool', list', first)
    ensures list' != [] ==> list'[0] in pool' && pool'[list'[0]].dev == pool[list'[0]].dev
    ensures list' != [] ==> (list'[0] == first <==> n == |list|)
    ensures list' == [] ==> n == |list|
  {
    var kept := Kept(pool, list[..n], dev);
    forall x ensures x in kept <==> x in list[..n] && !Wanted(dev, pool[x].dev) {
      KeptMember(pool, list[..n], dev, x);
    }
    if n < |list| {
      assert list'[0] == list[n];
      assert list[n] !in list[..n];
    } else if list' != [] {
      assert list' == kept;
      assert list'[0] in kept;
    }
  }

  lemma WalkedKeep(pool: Pool, list: seq<Ptr>, dev: nat, n: nat, pool': Pool, list': seq<Ptr>, first: Ptr)
    requires Walked(pool, list, dev, n, pool', list', first) && n < |list| && !Wanted(dev, pool[list[n]].dev)
    ensures Walked(pool, list, dev, n + 1, pool', Without(list', list[n]) + [list[n]], if first == NULL then list[n]
      else first)
  {
    var kept := Kept(pool, list[..n], dev);
    assert list[..n + 1][..n] == list[..n];
    assert Kept(pool, list[..n + 1], dev) == kept + [list[n]];
    RestDropped(list, kept, n);
    WithoutMembers(list', list[n]);
    if kept != [] {
      KeptMember(pool, list[..n], dev, kept[0]);
    }
    assert list[n + 1..] + (kept + [list[n]]) == Without(list', list[n]) + [list[n]];
  }

  lemma WalkedFlush(pool: Pool, list: seq<Ptr>, dev: nat, n: nat, pool': Pool, list': seq<Ptr>, first: Ptr)
    requires Walked(pool, list, dev, n, pool', list', first) && n < |list| && Wanted(dev, pool[list[n]].dev)
    requires list[n] in pool' && pool'[list[n]].dirty
    ensures Walked(pool, list, dev, n + 1, Cleaned(pool', list[n]), Without(list', list[n]), first)
  {
    var kept := Kept(pool, list[..n], dev);
    assert list[..n + 1][..n] == list[..n];
    assert Kept(pool, list[..n + 1], dev) == kept;
    RestDropped(list, kept, n);
    WithoutMembers(list', list[n]);
    FlushedMore(pool, pool', dev, list[n]);
  }

  /** Only list `i` has changed. */
  ghost predicate OnlyList(lists: seq<seq<Ptr>>, lists': seq<seq<Ptr>>, i: nat) {
    |lists'| == |lists| && forall j :: 0 <= j < |lists| && j != i ==> lists'[j] == lists[j]
  }

  lemma DirtyList(pool: Pool, dirt: seq<seq<Ptr>>, size: nat, dev: nat)
    requires DirtyMatches(pool, dirt) && IsSize(size)
    ensures Walked(pool, dirt[Index(size)], dev, 0, pool, dirt[Index(size)], NULL)
  {
    hide Index;
  }

  lemma DirtyHead(pool: Pool, dirt: seq<seq<Ptr>>, size: nat)
    requires DirtyMatches(pool, dirt) && IsSize(size) && dirt[Index(size)] != []
    ensures var x := dirt[Index(size)][0]; x in pool && pool[x].dirty && pool[x].size == size && x != NULL
  {
    var x := dirt[Index(size)][0];
    assert x in dirt[Index(size)];
    IndexSize(pool[x].size, size);
  }

  /** At the end of the walk nothing wanted is left on the list. */
  lemma WalkedDone(pool: Pool, list: seq<Ptr>, dev: nat, pool': Pool, list': seq<Ptr>, first: Ptr, dirt: seq<seq<Ptr>>,
                   size: nat)
    requires Walked(pool, list, dev, |list|, pool', list', first) && DirtyMatches(pool', dirt) && IsSize(size)
    requires list' == dirt[Index(size)]
    ensures list' == Kept(pool, list, dev)
    ensures forall x :: x in pool' && pool'[x].dirty && pool'[x].size == size ==> !Wanted(dev, pool'[x].dev)
  {
    assert list[..|list|] == list;
    forall x | x in pool' && pool'[x].dirty && pool'[x].size == size ensures !Wanted(dev, pool'[x].dev) {
      assert x in list';
      KeptMember(pool, list, dev, x);
    }
  }

  /** One turn of the inner loop, for a buffer at the head of the list that is not the one put back first. */
  method SyncStep(c: Cache, dev: nat, size: nat, first: Ptr, ghost pool: Pool, ghost list: seq<Ptr>, ghost n: nat)
    returns (first': Ptr)
    requires c.Valid() && IsSize(size) && n < |list|
    requires Walked(pool, list, dev, n, c.pool, c.dirt.lists[Index(size)], first)
    modifies c`pool, c`disk, c`nrDirty, c`dirtyUnits, c.dirt
    ensures c.Valid() && OnlyList(old(c.dirt.lists), c.dirt.lists, Index(size))
    ensures Walked(pool, list, dev, n + 1, c.pool, c.dirt.lists[Index(size)], first')
  {
    hide Index;
    hide FreeMatches;
    hide DirtyMatches;
    hide HashMatches;
    hide Hashed;
    hide Coherent;
    hide Total;
    hide Units;
    hide Without;
    hide Table.Valid;
    hide Ropes.Table.Valid;
    hide Flushed;
    hide Kept;
    hide Walked;
    var i := Index(size);
    WalkedHead(pool, list, dev, n, c.pool, c.dirt.lists[i], first);
    c.dirt.First(i);
    var x := c.dirt.heads[i];
    WalkedNext(pool, list, dev, n, c.pool, c.dirt.lists[i], first);
    DirtyHead(c.pool, c.dirt.lists, size);
    first' := first;
    if Wanted(dev, c.pool[x].dev) {
      WalkedFlush(pool, list, dev, n, c.pool, c.dirt.lists[i], first);
      c.WriteBack(x);
    } else {
      WalkedKeep(pool, list, dev, n, c.pool, c.dirt.lists[i], first);
      if first == NULL {
        first' := x;
      }
      c.Requeue(x);
    }
  }

  /** The walk over one dirty list; `done` is false when it meets a buffer that somebody holds. */
  method SyncSize(c: Cache, dev: nat, size: nat) returns (done: bool)
    requires c.Valid() && IsSize(size)
    modifies c`pool, c`disk, c`nrDirty, c`dirtyUnits, c.dirt
    ensures c.Valid() && Flushed(old(c.pool), c.pool, dev) && OnlyList(old(c.dirt.lists), c.dirt.lists, Index(size))
    ensures done ==>
      forall x :: x in c.pool && c.pool[x].dirty && c.pool[x].size == size ==> !Wanted(dev, c.pool[x].dev)
    ensures done ==>
      && (forall x :: x in old(c.dirt.lists[Index(size)]) ==> x in old(c.pool))
      && c.dirt.lists[Index(size)] == Rotated(Kept(old(c.pool), old(c.dirt.lists[Index(size)]), dev))
    ensures Unlocked(old(c.pool)) ==> done
  {
    hide Index;
    hide FreeMatches;
    hide DirtyMatches;
    hide HashMatches;
    hide Hashed;
    hide Coherent;
    hide Total;
    hide Units;
    hide Without;
    hide Table.Valid;
    hide Ropes.Table.Valid;
    hide Flushed;
    hide Kept;
    hide Walked;
    hide OnlyList;
    hide Unlocked;
    var i := Index(size);
    ghost var pool, list, n := c.pool, c.dirt.lists[i], 0;
    DirtyList(pool, c.dirt.lists, size, dev);
    WalkedFacts(pool, list, dev, 0, pool, list, NULL);
    OnlyListSelf(c.dirt.lists, i);
    var first := NULL;
    while true
      invariant c.Valid() && OnlyList(old(c.dirt.lists), c.dirt.lists, i)
      invariant Walked(pool, list, dev, n, c.pool, c.dirt.lists[i], first)
      decreases |list| - n
    {
      WalkedFacts(pool, list, dev, n, c.pool, c.dirt.lists[i], first);
      WalkedHead(pool, list, dev, n, c.pool, c.dirt.lists[i], first);
      c.dirt.First(i);
      var x := c.dirt.heads[i];
      if x == NULL {
        WalkedDone(pool, list, dev, c.pool, c.dirt.lists[i], first, c.dirt.lists, size);
        return true;
      }
      DirtyHead(c.pool, c.dirt.lists, size);
      if c.pool[x].locked {
        LockedHead(pool, c.pool, dev, x);
        return false;
      }
      if x == first {
        WalkedDone(pool, list, dev, c.pool, c.dirt.lists[i], first, c.dirt.lists, size);
        ghost var lists := c.dirt.lists;
        c.Requeue(x);
        HeadRotated(lists[i]);
        OnlyListThen(old(c.dirt.lists), lists, c.dirt.lists, i);
        return true;
      }
      ghost var lists := c.dirt.lists;
      first := SyncStep(c, dev, size, first, pool, list, n);
      OnlyListThen(old(c.dirt.lists), lists, c.dirt.lists, i);
      n := n + 1;
    }
  }

  lemma OnlyListSelf(a: seq<seq<Ptr>>, i: nat)
    ensures OnlyList(a, a, i)
  {
  }

  lemma OnlyListThen(a: seq<seq<Ptr>>, b: seq<seq<Ptr>>, c: seq<seq<Ptr>>, i: nat)
    requires OnlyList(a, b, i) && |c| == |b| && (OnlyList(b, c, i) || (i < |b| && c == b[i := c[i]]))
    ensures OnlyList(a, c, i)
  {
  }

  lemma HeadRotated(s: seq<Ptr>)
    requires s != [] && Distinct(s)
    ensures Without(s, s[0]) + [s[0]] == Rotated(s)
  {
    assert s == s[0..] + [];
    RestDropped(s, [], 0);
    assert s[1..] + [] == s[1..];
  }

  lemma LockedHead(pool: Pool, pool': Pool, dev: nat, x: Ptr)
    requires Flushed(pool, pool', dev) && x in pool' && pool'[x].dirty && pool'[x].locked
    ensures !Unlocked(pool)
  {
    assert x in pool && pool'[x] == pool[x];
  }

  lemma WalkedFacts(pool: Pool, list: seq<Ptr>, dev: nat, n: nat, pool': Pool, list': seq<Ptr>, first: Ptr)
    requires Walked(pool, list, dev, n, pool', list', first)
    ensures n <= |list| && Flushed(pool, pool', dev) && Distinct(list') && forall x :: x in list ==> x in pool
  {
  }

  lemma WalkedNext(pool: Pool, list: seq<Ptr>, dev: nat, n: nat, pool': Pool, list': seq<Ptr>, first: Ptr)
    requires Walked(pool, list, dev, n, pool', list', first) && n < |list|
    ensures list' != [] && list'[0] == list[n]
  {
  }

  /**
    * sync_buffers(): no buffer of the device is left dirty and its blocks are on the disk as they read; buffers of
    * other devices keep their dirty mark. `done` is false when a held buffer has to be waited for.
    */
  method SyncBuffers(c: Cache, dev: nat) returns (done: bool)
    requires c.Settled()
    modifies c`pool, c`disk, c`nrDirty, c`dirtyUnits, c.dirt
    ensures c.Settled() && Flushed(old(c.pool), c.pool, dev)
    ensures done ==> forall x :: x in c.pool && c.pool[x].dirty ==> !Wanted(dev, c.pool[x].dev)
    ensures done ==> forall k: Key :: Wanted(dev, k.0) ==> Contents(c.disk, k) == Contents(c.view, k)
    ensures Unlocked(old(c.pool)) ==> done
  {
    hide Index;
    hide FreeMatches;
    hide DirtyMatches;
    hide HashMatches;
    hide Hashed;
    hide Coherent;
    hide Total;
    hide Units;
    hide Without;
    hide Table.Valid;
    hide Ropes.Table.Valid;
    hide Flushed;
    hide Kept;
    hide CleanBelow;
    hide Unlocked;
    hide HeldHashed;
    FlushedSelf(c.pool, c.free.lists, dev);
    ghost var p := c.pool;
    var size := 512;
    while size <= PAGE_SIZE
      invariant c.Valid() && Flushed(p, c.pool, dev) && CleanBelow(c.pool, dev, size)
      invariant IsSize(size) || size == 8192
      decreases 8192 - size
    {
      ghost var q := c.pool;
      FlushedSelf(q, c.free.lists, dev);
      if Unlocked(p) {
        FlushedUnlocked(p, q, dev);
      }
      done := SyncSize(c, dev, size);
      FlushedThen(p, q, c.pool, dev);
      if !done {
        FlushedHeld(p, c.hash.lists, c.bucket, c.pool, dev);
        return;
      }
      FlushedClean(q, c.pool, dev, size);
      size := 2 * size;
    }
    FlushedHeld(p, c.hash.lists, c.bucket, c.pool, dev);
    SyncedClean(c.pool, c.free.lists, c.disk, c.view, dev);
    done := true;
  }

  lemma FlushedSelf(pool: Pool, free: seq<seq<Ptr>>, dev: nat)
    requires FreeMatches(pool, free)
    ensures Flushed(pool, pool, dev) && CleanBelow(pool, dev, 512) && Sized(pool)
  {
  }

  lemma FlushedHeld(pool: Pool, buckets: seq<seq<Ptr>>, bucket: Key -> nat, pool': Pool, dev: nat)
    requires HeldHashed(pool, buckets, bucket, NULL) && Flushed(pool, pool', dev)
    ensures HeldHashed(pool', buckets, bucket, NULL)
  {
    HeldFrame(pool, buckets, bucket, NULL, pool', NULL);
  }

  lemma SyncedClean(pool: Pool, free: seq<seq<Ptr>>, disk: Blocks, view: Blocks, dev: nat)
    requires CleanBelow(pool, dev, 8192) && FreeMatches(pool, free) && Coherent(pool, disk, view)
    ensures forall x :: x in pool && pool[x].dirty ==> !Wanted(dev, pool[x].dev)
    ensures forall k: Key :: Wanted(dev, k.0) ==> Contents(disk, k) == Contents(view, k)
  {
    forall x | x in pool && pool[x].dirty ensures !Wanted(dev, pool[x].dev) {
      assert IsSize(pool[x].size);
    }
    forall k: Key | Wanted(dev, k.0) ensures Contents(disk, k) == Contents(view, k) {
      CleanDiskIsView(pool, disk, view, k);
    }
  }
}
