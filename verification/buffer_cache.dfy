/** The buffer cache of fs/buffer.c: one pool of buffers, a hash index, and a free and a dirty list per size. */
module BufferCache {
  import opened Links
  import opened Chains
  import opened BufferState
  import Ropes

  /** `x` put at the end of list `b` unless it is on a list. */
  ghost function OnDirtyList(lists: seq<seq<Ptr>>, b: nat, x: Ptr): seq<seq<Ptr>> {
    if b < |lists| && Ropes.Off(lists, x) then Ropes.Appended(lists, b, x) else lists
  }

  /** `x` put on the free list of its size: in front when it holds nothing, else at the end. */
  ghost function Queued(lists: seq<seq<Ptr>>, b: Buffer, x: Ptr): seq<seq<Ptr>> {
    if !IsSize(b.size) || Index(b.size) >= |lists| then lists
    else if lists[Index(b.size)] != [] && !b.valid then Pushed(lists, Index(b.size), x)
    else Ropes.Appended(lists, Index(b.size), x)
  }

  /** How many buffers the dirty lists hold, and in units of 512 bytes. */
  ghost function Total(lists: seq<seq<Ptr>>): int
    requires |lists| == NR_SIZES
  {
    |lists[0]| + |lists[1]| + |lists[2]| + |lists[3]| + |lists[4]| + |lists[5]| + |lists[6]| + |lists[7]|
  }

  ghost function Units(lists: seq<seq<Ptr>>): int
    requires |lists| == NR_SIZES
  {
    |lists[0]| + 2 * |lists[1]| + 3 * |lists[2]| + 4 * |lists[3]| + 5 * |lists[4]| + 6 * |lists[5]| + 7 * |lists[6]|
      + 8 * |lists[7]|
  }

  lemma CountAppended(lists: seq<seq<Ptr>>, b: nat, x: Ptr)
    requires |lists| == NR_SIZES && b < NR_SIZES
    ensures Total(Ropes.Appended(lists, b, x)) == Total(lists) + 1
    ensures Units(Ropes.Appended(lists, b, x)) == Units(lists) + b + 1
  {
  }

  lemma CountDropped(lists: seq<seq<Ptr>>, b: nat, x: Ptr)
    requires |lists| == NR_SIZES && b < NR_SIZES && Distinct(lists[b]) && x in lists[b]
    ensures Total(Dropped(lists, b, x)) == Total(lists) - 1
    ensures Units(Dropped(lists, b, x)) == Units(lists) - b - 1
  {
  }

  lemma NoBuffers(buckets: seq<seq<Ptr>>, free: seq<seq<Ptr>>, dirt: seq<seq<Ptr>>, bucket: Key -> nat, disk: Blocks)
    requires |free| == |dirt| == NR_SIZES && (forall i :: 0 <= i < NR_SIZES ==> free[i] == [] && dirt[i] == [])
    requires forall b :: 0 <= b < |buckets| ==> buckets[b] == []
    ensures HashMatches(map[], buckets, bucket) && FreeMatches(map[], free) && DirtyMatches(map[], dirt)
    ensures Coherent(map[], disk, disk)
    ensures Total(dirt) == 0 && Units(dirt) == 0
  {
  }

  lemma PerPage(size: nat)
    requires IsSize(size)
    ensures size > 0 && PAGE_SIZE / size > 0
  {
  }

  /** The link fields are those of the buffers in the pool, all of them handed out before. */
  ghost predicate Covers(pool: Pool, free: map<Ptr, Ptr>, dirt: map<Ptr, Ptr>, top: Ptr) {
    free.Keys == pool.Keys && dirt.Keys == pool.Keys && (forall x :: x in pool ==> x < top) && top > 0
  }

  lemma Positive(pool: Pool, free: map<Ptr, Ptr>, dirt: map<Ptr, Ptr>, top: Ptr)
    requires Covers(pool, free, dirt, top)
    ensures top > 0
  {
  }

  lemma CoversChanged(pool: Pool, free: map<Ptr, Ptr>, dirt: map<Ptr, Ptr>, top: Ptr, pool': Pool)
    requires Covers(pool, free, dirt, top) && pool'.Keys == pool.Keys
    ensures Covers(pool', free, dirt, top)
  {
  }

  lemma SameKeys(pool: Pool, x: Ptr, b: Buffer)
    requires x in pool
    ensures pool[x := b].Keys == pool.Keys
  {
  }

  lemma CoversNew(pool: Pool, free: map<Ptr, Ptr>, dirt: map<Ptr, Ptr>, top: Ptr, b: Buffer, free': map<Ptr, Ptr>,
                  dirt': map<Ptr, Ptr>)
    requires Covers(pool, free, dirt, top)
    ensures top !in pool && top !in free && top !in dirt
    ensures free'.Keys == free.Keys + {top} && dirt'.Keys == dirt.Keys + {top} ==>
      Covers(pool[top := b], free', dirt', top + 1)
  {
  }

  lemma Rebinding(pool: Pool, x: Ptr, k: Key)
    requires x in pool && k.2 == pool[x].size
    ensures Rebound(pool, x, k).Keys == pool.Keys
    ensures var b := pool[x].(dev := k.0, block := k.1);
      pool[x := b][x := b.(valid := false)] == Rebound(pool, x, k) && b.Key() == k
  {
  }

  class Cache {
    var pool: Pool
    const hash: Table
    const free: Ropes.Table
    const dirt: Ropes.Table
    const bucket: Key -> nat
    var disk: Blocks
    ghost var view: Blocks
    var nrDirty: int
    var dirtyUnits: int
    var top: Ptr

    /** The tables are well linked over the pool's buffers. */
    ghost predicate Shape()
      reads this, hash, free, dirt
    {
      && free != dirt
      && hash.Valid() && |hash.lists| == |hash.heads| && (forall k :: bucket(k) < |hash.lists|)
      && free.Valid() && |free.lists| == |free.heads| == NR_SIZES
      && dirt.Valid() && |dirt.lists| == |dirt.heads| == NR_SIZES
      && Covers(pool, free.next, dirt.next, top)
    }

    ghost predicate Valid()
      reads this, hash, free, dirt
    {
      && Shape()
      && HashMatches(pool, hash.lists, bucket)
      && FreeMatches(pool, free.lists)
      && DirtyMatches(pool, dirt.lists)
      && Coherent(pool, disk, view)
      && Counted()
    }

    ghost predicate Counted()
      reads this`nrDirty, this`dirtyUnits, dirt`lists
    {
      |dirt.lists| == NR_SIZES && nrDirty == Total(dirt.lists) && dirtyUnits == Units(dirt.lists)
    }

    /** buffer_init(): no buffers, every list empty. */
    constructor (buckets: nat, bucket: Key -> nat, disk: Blocks)
      requires forall k :: bucket(k) < buckets
      ensures Valid() && pool == map[] && this.disk == view == disk
      ensures fresh(hash) && fresh(free) && fresh(dirt)
    {
      hide FreeMatches;
      hide DirtyMatches;
      hide HashMatches;
      hide Coherent;
      hide Total;
      hide Units;
      hide Table.Valid;
      hide Ropes.Table.Valid;
      pool := map[];
      hash := new Table(buckets, {});
      free := new Ropes.Table(NR_SIZES);
      dirt := new Ropes.Table(NR_SIZES);
      this.bucket := bucket;
      this.disk := disk;
      view := disk;
      nrDirty, dirtyUnits, top := 0, 0, 1;
      new;
      NoBuffers(hash.lists, free.lists, dirt.lists, bucket, disk);
    }

    method RemoveFromDirtyList(x: Ptr)
      requires Shape() && Counted() && x in pool && IsSize(pool[x].size)
      requires x in dirt.lists[Index(pool[x].size)] && Distinct(dirt.lists[Index(pool[x].size)])
      modifies dirt, this`nrDirty, this`dirtyUnits
      ensures Shape() && Counted() && nrDirty == old(nrDirty) - 1
      ensures dirt.lists == Dropped(old(dirt.lists), Index(pool[x].size), x)
    {
      hide Index;
      hide Total;
      hide Units;
      hide Without;
      hide Ropes.Table.Valid;
      hide Table.Valid;
      var i := Index(pool[x].size);
      CountDropped(dirt.lists, i, x);
      dirt.Remove(i, x);
      dirtyUnits := dirtyUnits - (i + 1);
      nrDirty := nrDirty - 1;
    }

    /** Nothing happens to a buffer that is on its dirty list already. */
    method InsertOnDirtyList(x: Ptr)
      requires Shape() && Counted() && x in pool && pool[x].dirty && IsSize(pool[x].size)
      requires DirtyMatches(pool, dirt.lists) || DirtyMatches(Cleaned(pool, x), dirt.lists)
      modifies dirt, this`nrDirty, this`dirtyUnits
      ensures dirt.lists == old(OnDirtyList(dirt.lists, Index(pool[x].size), x))
      ensures Shape() && Counted() && DirtyMatches(pool, dirt.lists)
    {
      hide Index;
      hide Total;
      hide Units;
      hide DirtyMatches;
      hide Table.Valid;
      hide Ropes.Table.Valid;
      dirt.OnList(x);
      ghost var listed := DirtyMatches(pool, dirt.lists);
      if listed {
        DirtyMember(pool, dirt.lists, x);
      } else {
        DirtyAdd(pool, dirt.lists, x);
      }
      if dirt.prev[x] != NULL || dirt.next[x] != NULL {
        return;
      }
      var i := Index(pool[x].size);
      CountAppended(dirt.lists, i, x);
      dirt.Append(i, x);
      dirtyUnits := dirtyUnits + (i + 1);
      nrDirty := nrDirty + 1;
    }

    /** A buffer without valid contents goes to the front of its free list, to be used first. */
    method InsertOnFreeList(x: Ptr)
      requires Shape() && x in pool && pool[x].locked && FreeMatches(pool, free.lists)
      modifies free
      ensures Shape() && FreeMatches(Locked(pool, x, false), free.lists)
      ensures free.lists == old(Queued(free.lists, pool[x], x))
    {
      hide Index;
      hide FreeMatches;
      hide Table.Valid;
      hide Ropes.Table.Valid;
      FreeMember(pool, free.lists, x);
      var i := Index(pool[x].size);
      free.First(i);
      FreeGive(pool, free.lists, x, true);
      FreeGive(pool, free.lists, x, false);
      var h := free.heads[i];
      if h != NULL && !pool[x].valid {
        free.Push(i, x);
      } else {
        free.Append(i, x);
      }
    }

    /** Takes a buffer that is not locked off its free list and locks it. */
    method Lock(x: Ptr)
      requires Valid() && x in pool && !pool[x].locked
      modifies this`pool, free
      ensures Valid() && pool == Locked(old(pool), x, true)
    {
      hide Index;
      hide FreeMatches;
      hide DirtyMatches;
      hide HashMatches;
      hide Hashed;
      hide Coherent;
      hide Total;
      hide Units;
      hide Without;
      hide Table.Valid;
      hide Ropes.Table.Valid;
      FreeMember(pool, free.lists, x);
      FreeTake(pool, free.lists, x);
      free.Remove(Index(pool[x].size), x);
      var b := pool[x].(locked := true);
      HashKeeps(pool, hash.lists, bucket, x);
      HashFrame(pool, hash.lists, bucket, x, b);
      DirtyFrame(pool, dirt.lists, x, b);
      CoherentFrame(pool, disk, view, x, b);
      pool := pool[x := b];
    }

    /** A dirty buffer is written to its device and leaves the dirty list. */
    method WriteBack(x: Ptr)
      requires Valid() && x in pool && pool[x].dirty
      modifies this`pool, this`disk, this`nrDirty, this`dirtyUnits, dirt
      ensures Valid() && pool == Cleaned(old(pool), x)
      ensures disk == old(disk)[old(pool)[x].Key() := old(pool)[x].data]
      ensures nrDirty == old(nrDirty) - 1
      ensures Distinct(old(dirt.lists)[Index(old(pool)[x].size)])
      ensures dirt.lists == Dropped(old(dirt.lists), Index(old(pool)[x].size), x)
    {
      hide Index;
      hide FreeMatches;
      hide DirtyMatches;
      hide HashMatches;
      hide Hashed;
      hide Coherent;
      hide Total;
      hide Units;
      hide Without;
      hide Table.Valid;
      hide Ropes.Table.Valid;
      DirtyMember(pool, dirt.lists, x);
      DirtyDrop(pool, dirt.lists, x);
      CoherentSync(pool, disk, view, x);
      var b := pool[x].(dirty := false);
      HashKeeps(pool, hash.lists, bucket, x);
      HashFrame(pool, hash.lists, bucket, x, b);
      FreeFrame(pool, free.lists, x, b);
      disk := disk[pool[x].Key() := pool[x].data];
      pool := pool[x := b];
      RemoveFromDirtyList(x);
    }

    /** A dirty buffer goes from its place to the end of its dirty list. */
    method Requeue(x: Ptr)
      requires Valid() && x in pool && pool[x].dirty
      modifies this`nrDirty, this`dirtyUnits, dirt
      ensures Valid() && IsSize(pool[x].size)
      ensures var i := Index(pool[x].size);
        Distinct(old(dirt.lists)[i]) && dirt.lists == Ropes.Appended(Dropped(old(dirt.lists), i, x), i, x)
    {
      hide Index;
      hide FreeMatches;
      hide DirtyMatches;
      hide HashMatches;
      hide Hashed;
      hide Coherent;
      hide Total;
      hide Units;
      hide Without;
      hide Table.Valid;
      hide Ropes.Table.Valid;
      DirtyMember(pool, dirt.lists, x);
      DirtyDrop(pool, dirt.lists, x);
      RemoveFromDirtyList(x);
      DirtyAdd(pool, dirt.lists, x);
      InsertOnDirtyList(x);
    }

    /** `x` is held and may have been marked dirty since it was last on the dirty list. */
    ghost predicate Held(x: Ptr)
      reads this, hash, free, dirt
    {
      && Shape() && Counted()
      && HashMatches(pool, hash.lists, bucket) && FreeMatches(pool, free.lists) && Coherent(pool, disk, view)
      && x in pool && pool[x].locked
      && (DirtyMatches(pool, dirt.lists) || (pool[x].dirty && DirtyMatches(Cleaned(pool, x), dirt.lists)))
    }

    lemma HeldOf(x: Ptr)
      requires Valid() && x in pool && pool[x].locked
      ensures Held(x)
    {
    }

    method Brelse(x: Ptr)
      requires Held(x)
      modifies this`pool, this`nrDirty, this`dirtyUnits, free, dirt
      ensures Valid() && pool == Locked(old(pool), x, false)
      ensures !old(pool)[x].dirty ==> nrDirty == old(nrDirty)
      ensures free.lists == old(Queued(free.lists, pool[x], x))
    {
      hide Index;
      hide FreeMatches;
      hide DirtyMatches;
      hide HashMatches;
      hide Hashed;
      hide Coherent;
      hide Total;
      hide Units;
      hide Without;
      hide Table.Valid;
      hide Ropes.Table.Valid;
      hide Queued;
      hide Covers;
      hide Locked;
      FreeMember(pool, free.lists, x);
      if pool[x].dirty {
        InsertOnDirtyList(x);
      }
      InsertOnFreeList(x);
      Unlock(x);
    }

    /** A buffer that is on its lists again is no longer held. */
    method Unlock(x: Ptr)
      requires Shape() && Counted() && x in pool && HashMatches(pool, hash.lists, bucket)
      requires DirtyMatches(pool, dirt.lists)
      requires Coherent(pool, disk, view) && FreeMatches(Locked(pool, x, false), free.lists)
      modifies this`pool
      ensures Valid() && pool == Locked(old(pool), x, false)
    {
      hide Index;
      hide FreeMatches;
      hide DirtyMatches;
      hide HashMatches;
      hide Hashed;
      hide Coherent;
      hide Total;
      hide Units;
      hide Table.Valid;
      hide Ropes.Table.Valid;
      hide Covers;
      var b := pool[x].(locked := false);
      HashKeeps(pool, hash.lists, bucket, x);
      HashFrame(pool, hash.lists, bucket, x, b);
      DirtyFrame(pool, dirt.lists, x, b);
      CoherentFrame(pool, disk, view, x, b);
      SameKeys(pool, x, b);
      CoversChanged(pool, free.next, dirt.next, top, pool[x := b]);
      pool := pool[x := b];
    }

    /** The caller has put `data` into the buffer it holds and marks it to be written. */
    method Bwrite(x: Ptr, data: Data)
      requires Valid() && x in pool && pool[x].locked && Hashed(pool, hash.lists, bucket, x)
      modifies this`pool, this`nrDirty, this`dirtyUnits, this`view, free, dirt
      ensures Valid() && pool == Locked(Written(old(pool), x, data), x, false)
      ensures view == old(view)[old(pool)[x].Key() := data]
    {
      hide Index;
      hide FreeMatches;
      hide DirtyMatches;
      hide HashMatches;
      hide Hashed;
      hide Coherent;
      hide Total;
      hide Units;
      hide Without;
      hide Table.Valid;
      hide Ropes.Table.Valid;
      var b := pool[x].(data := data, valid := true, dirty := true);
      CoherentWrite(pool, hash.lists, bucket, disk, view, x, data);
      HashFrame(pool, hash.lists, bucket, x, b);
      FreeFrame(pool, free.lists, x, b);
      DirtyFrame(pool, dirt.lists, x, pool[x].(data := data, valid := true));
      view := view[pool[x].Key() := data];
      ghost var p := pool;
      pool := pool[x := b];
      assert p[x].dirty ==> pool == p[x := p[x].(data := data, valid := true)];
      assert !p[x].dirty ==> Cleaned(pool, x) == p[x := p[x].(data := data, valid := true)];
      Brelse(x);
    }

    /** search_buffer_hash(): the buffer of a block, or NULL when the block is not cached. */
    method Search(dev: nat, block: nat, size: nat) returns (x: Ptr)
      requires Shape() && HashMatches(pool, hash.lists, bucket)
      ensures x == NULL ==> Missing(pool, hash.lists, bucket, (dev, block, size))
      ensures x != NULL ==> x in pool && pool[x].Key() == (dev, block, size) && Hashed(pool, hash.lists, bucket, x)
    {
      hide HashMatches;
      hide Hashed;
      hide Missing;
      hide Table.Valid;
      hide Ropes.Table.Valid;
      var b := bucket((dev, block, size));
      ghost var list := hash.lists[b];
      InBucket(pool, hash.lists, bucket, b);
      hash.WalkFrom(b);
      x := hash.heads[b];
      ghost var i := 0;
      while x != NULL
        invariant 0 <= i <= |list| && x == Links.At(list, i, NULL)
        invariant forall j :: 0 <= j < i ==> pool[list[j]].Key() != (dev, block, size)
        decreases |list| - i
      {
        if pool[x].dev == dev && pool[x].block == block && pool[x].size == size {
          return;
        }
        hash.WalkOn(b, i);
        x := hash.next[x];
        i := i + 1;
      }
      NotInBucket(pool, hash.lists, bucket, (dev, block, size));
    }

    /** remove_from_hash(): a buffer that is in no bucket is left alone. */
    method RemoveFromHash(x: Ptr)
      requires Shape() && HashMatches(pool, hash.lists, bucket) && x in pool && x != NULL
      modifies hash
      ensures hash.Valid() && |hash.lists| == |hash.heads| == old(|hash.lists|)
      ensures forall b, y :: 0 <= b < |hash.lists| ==> (y in hash.lists[b] <==> y in old(hash.lists)[b] && y != x)
    {
      hide HashMatches;
      hide Hashed;
      hide Without;
      hide Table.Valid;
      hide Ropes.Table.Valid;
      BucketsOf(pool, hash.lists, bucket, x);
      var b := bucket(pool[x].Key());
      hash.WalkFrom(b);
      var found := hash.Find(b, x);
      if found {
        hash.WalkIn(b, x);
        hash.Remove(b, x);
      }
    }

    /** Moves a buffer to the bucket of another block. */
    method Rehash(x: Ptr, dev: nat, block: nat)
      requires Shape() && HashMatches(pool, hash.lists, bucket) && x in pool && x != NULL && !pool[x].dirty
      requires Missing(pool, hash.lists, bucket, (dev, block, pool[x].size))
      modifies this`pool, hash
      ensures Shape() && pool == Rebound(old(pool), x, (dev, block, old(pool)[x].size))
      ensures HashMatches(pool, hash.lists, bucket) && Hashed(pool, hash.lists, bucket, x)
      ensures OthersHashed(old(pool), old(hash.lists), pool, hash.lists, bucket, x)
    {
      hide HashMatches;
      hide Hashed;
      hide Without;
      hide Table.Valid;
      hide Ropes.Table.Valid;
      hide Missing;
      hide OthersHashed;
      hide Covers;
      hide Rebound;
      ghost var k, p, lists := (dev, block, pool[x].size), pool, hash.lists;
      RemoveFromHash(x);
      HashMove(p, lists, bucket, x, k, hash.lists);
      Rebinding(p, x, k);
      CoversChanged(p, free.next, dirt.next, top, Rebound(p, x, k));
      var b := pool[x].(dev := dev, block := block);
      pool := pool[x := b];
      hash.Push(bucket(b.Key()), x);
      pool := pool[x := b.(valid := false)];
    }

    /** Gives a held, clean buffer to another block. */
    method Rebind(x: Ptr, dev: nat, block: nat)
      requires Valid() && x in pool && pool[x].locked && !pool[x].dirty
      requires Missing(pool, hash.lists, bucket, (dev, block, pool[x].size))
      modifies this`pool, hash
      ensures Valid() && pool == Rebound(old(pool), x, (dev, block, old(pool)[x].size))
      ensures Hashed(pool, hash.lists, bucket, x)
      ensures OthersHashed(old(pool), old(hash.lists), pool, hash.lists, bucket, x)
    {
      hide Index;
      hide FreeMatches;
      hide DirtyMatches;
      hide HashMatches;
      hide Hashed;
      hide Coherent;
      hide Total;
      hide Units;
      hide Without;
      hide Shape;
      hide Missing;
      hide OthersHashed;
      ghost var k, p := (dev, block, pool[x].size), pool;
      FreeMember(p, free.lists, x);
      FreeFrame(p, free.lists, x, p[x].(dev := dev, block := block, valid := false));
      DirtyFrame(p, dirt.lists, x, p[x].(dev := dev, block := block, valid := false));
      CoherentRebind(p, disk, view, x, k);
      Rehash(x, dev, block);
    }

    /** add_buffer_to_pool(): a new buffer of the given size, held by the caller. */
    method AddToPool(size: nat) returns (x: Ptr)
      requires Valid() && IsSize(size)
      modifies this`pool, this`top, free, dirt
      ensures Valid() && x !in old(pool) && pool == old(pool)[x := Fresh(size)]
    {
      hide Index;
      hide FreeMatches;
      hide DirtyMatches;
      hide HashMatches;
      hide Hashed;
      hide Coherent;
      hide Total;
      hide Units;
      hide Without;
      hide Table.Valid;
      hide Ropes.Table.Valid;
      hide Covers;
      ghost var p, n, d := pool, free.next, dirt.next;
      x := top;
      CoversNew(p, n, d, x, Fresh(size), n, d);
      Positive(p, n, d, x);
      FreeNew(pool, free.lists, x, size);
      DirtyNew(pool, dirt.lists, x, size);
      HashNew(pool, hash.lists, bucket, x, size);
      CoherentNew(pool, disk, view, x, size);
      free.Know(x);
      dirt.Know(x);
      CoversNew(p, n, d, x, Fresh(size), free.next, dirt.next);
      top := top + 1;
      pool := pool[x := Fresh(size)];
    }

    /** One turn of create_buffers(): a new buffer is added and the one before it is released. */
    method AddOne(size: nat, prev: Ptr, ghost base: Pool) returns (x: Ptr)
      requires Valid() && IsSize(size) && Grown(base, pool, prev, size)
      modifies this`pool, this`top, this`nrDirty, this`dirtyUnits, free, dirt
      ensures Valid() && x != NULL && Grown(base, pool, x, size) && nrDirty == old(nrDirty)
      ensures |pool| == |old(pool)| + 1
    {
      hide Index;
      hide FreeMatches;
      hide DirtyMatches;
      hide HashMatches;
      hide Hashed;
      hide Coherent;
      hide Total;
      hide Units;
      hide Without;
      hide Table.Valid;
      hide Ropes.Table.Valid;
      hide Grown;
      ghost var p := pool;
      x := AddToPool(size);
      FreeMember(pool, free.lists, x);
      FreeNull(pool, free.lists);
      GrownMore(base, p, prev, x, size);
      if prev != NULL {
        GrownHeld(base, p, prev, size);
        Brelse(prev);
      }
    }

    /** create_buffers(): a page's worth of new buffers, or as many as there is memory for; the last one is held. */
    method CreateBuffers(size: nat, page: bool, structs: nat) returns (x: Ptr)
      requires Valid() && IsSize(size)
      modifies this`pool, this`top, this`nrDirty, this`dirtyUnits, free, dirt
      ensures Valid() && Grown(old(pool), pool, x, size) && nrDirty == old(nrDirty)
      ensures x == NULL <==> !page || structs == 0
      ensures x == NULL ==> pool == old(pool) && free.lists == old(free.lists)
      ensures |pool| == |old(pool)| + if !page then 0 else if structs < PAGE_SIZE / size then structs
        else PAGE_SIZE / size
    {
      hide Index;
      hide FreeMatches;
      hide DirtyMatches;
      hide HashMatches;
      hide Hashed;
      hide Coherent;
      hide Total;
      hide Units;
      hide Without;
      hide Table.Valid;
      hide Ropes.Table.Valid;
      x := NULL;
      PerPage(size);
      if !page {
        return;
      }
      var n := 0;
      while n < PAGE_SIZE / size && n < structs
        invariant Valid() && 0 <= n <= structs && (x == NULL <==> n == 0)
        invariant Grown(old(pool), pool, x, size)
        invariant x == NULL ==> pool == old(pool) && free.lists == old(free.lists)
        invariant nrDirty == old(nrDirty) && |pool| == |old(pool)| + n && n <= PAGE_SIZE / size
      {
        x := AddOne(size, x, old(pool));
        n := n + 1;
      }
    }

    /** get_free_buffer(): a held buffer, new or taken from the head of the free list; NULL when there is none. */
    method GetFreeBuffer(size: nat, grow: bool, page: bool, structs: nat) returns (x: Ptr)
      requires Valid() && IsSize(size)
      modifies this`pool, this`top, this`nrDirty, this`dirtyUnits, free, dirt
      ensures Valid() && nrDirty == old(nrDirty)
      ensures x == NULL ==>
        && pool == old(pool) && !(grow && page && structs > 0) && old(free.lists[Index(size)]) == []
        && AllHeld(old(pool), size)
      ensures x != NULL ==> x in pool && pool[x].locked && pool[x].size == size
      ensures x != NULL && x in old(pool) ==> !old(pool)[x].locked && pool == Locked(old(pool), x, true)
      ensures x != NULL && x in old(pool) ==> Links.At(old(free.lists[Index(size)]), 0, NULL) == x
      ensures x != NULL && x !in old(pool) ==> !pool[x].dirty
      ensures forall y :: y in pool && pool[y].locked && y != x ==> y in old(pool) && pool[y] == old(pool)[y]
      ensures forall y :: y in old(pool) && y != x ==> y in pool && pool[y] == old(pool)[y]
      ensures Only(old(pool), pool, x)
    {
      hide Index;
      hide FreeMatches;
      hide DirtyMatches;
      hide HashMatches;
      hide Hashed;
      hide Coherent;
      hide Total;
      hide Units;
      hide Without;
      hide Table.Valid;
      hide Ropes.Table.Valid;
      hide Only;
      hide Covers;
      hide Grown;
      hide Locked;
      ghost var p := pool;
      FreeNull(p, free.lists);
      var i := Index(size);
      free.First(i);
      var h := free.heads[i];
      FreeFirst(pool, free.lists, i);
      if (h == NULL || pool[h].dev != 0) && grow {
        x := CreateBuffers(size, page, structs);
        if x != NULL {
          OnlyGrown(p, pool, x, size);
          GrownOthers(p, pool, x, size);
          return;
        }
      }
      x := TakeHead(size);
      if x != NULL {
        LockedOthers(p, x);
      }
    }

    /** The buffer at the head of a free list is locked; NULL when there is none. */
    method TakeHead(size: nat) returns (x: Ptr)
      requires Valid() && IsSize(size)
      modifies this`pool, free
      ensures Valid() && x == Links.At(old(free.lists[Index(size)]), 0, NULL)
      ensures x == NULL ==> pool == old(pool) && old(free.lists[Index(size)]) == [] && AllHeld(old(pool), size)
      ensures x != NULL ==>
        x in old(pool) && !old(pool)[x].locked && old(pool)[x].size == size && pool == Locked(old(pool), x, true)
      ensures Only(old(pool), pool, x)
    {
      hide Index;
      hide FreeMatches;
      hide DirtyMatches;
      hide HashMatches;
      hide Hashed;
      hide Coherent;
      hide Total;
      hide Units;
      hide Without;
      hide Table.Valid;
      hide Ropes.Table.Valid;
      hide Only;
      FreeNull(pool, free.lists);
      OnlySelf(pool);
      var i := Index(size);
      free.First(i);
      FreeFirst(pool, free.lists, i);
      x := free.heads[i];
      if x == NULL {
        FreeEmpty(pool, free.lists, size);
        return;
      }
      IndexSize(pool[x].size, size);
      OnlyLocked(pool, x);
      Lock(x);
    }

    /** Between calls: everything agrees, and every held buffer is in the hash index. */
    ghost predicate Settled()
      reads this, hash, free, dirt
    {
      Valid() && HeldHashed(pool, hash.lists, bucket, NULL)
    }

    lemma Basics()
      requires Valid()
      ensures NULL !in pool && nrDirty >= 0
    {
      FreeNull(pool, free.lists);
    }

    /** A free buffer that turns out dirty is written back and released, for the search to start over. */
    method Recycle(x: Ptr)
      requires Valid() && HeldHashed(pool, hash.lists, bucket, x) && x in pool && pool[x].locked && pool[x].dirty
      modifies this`pool, this`nrDirty, this`dirtyUnits, this`disk, free, dirt
      ensures Settled() && nrDirty == old(nrDirty) - 1
      ensures pool == Locked(Cleaned(old(pool), x), x, false)
    {
      hide Index;
      hide FreeMatches;
      hide DirtyMatches;
      hide HashMatches;
      hide Hashed;
      hide Coherent;
      hide Total;
      hide Units;
      hide Without;
      hide Table.Valid;
      hide Ropes.Table.Valid;
      hide HeldHashed;
      ghost var p := pool;
      WriteBack(x);
      ghost var n := nrDirty;
      Brelse(x);
      HeldFrame(p, hash.lists, bucket, x, pool, NULL);
    }

    method Assign(x: Ptr, dev: nat, block: nat)
      requires Valid() && HeldHashed(pool, hash.lists, bucket, x) && x in pool && pool[x].locked && !pool[x].dirty
      requires Missing(pool, hash.lists, bucket, (dev, block, pool[x].size))
      modifies this`pool, hash
      ensures Settled() && Hashed(pool, hash.lists, bucket, x)
      ensures pool == Rebound(old(pool), x, (dev, block, old(pool)[x].size))
    {
      hide Index;
      hide FreeMatches;
      hide DirtyMatches;
      hide HashMatches;
      hide Hashed;
      hide Coherent;
      hide Total;
      hide Units;
      hide Without;
      hide Table.Valid;
      hide Ropes.Table.Valid;
      hide HeldHashed;
      hide Missing;
      ghost var p, lists := pool, hash.lists;
      Rebind(x, dev, block);
      HeldMoved(p, lists, bucket, x, pool, hash.lists);
    }

    /** The first half of getblk(): a cached block's buffer, unless somebody else holds it. */
    method TakeCached(dev: nat, block: nat, size: nat) returns (found: bool, x: Ptr)
      requires Settled() && IsSize(size)
      modifies this`pool, free
      ensures Settled() && Only(old(pool), pool, x)
      ensures !found ==> pool == old(pool) && Missing(pool, hash.lists, bucket, (dev, block, size))
      ensures found && x != NULL ==>
        x in pool && pool[x].locked && pool[x].Key() == (dev, block, size) && Hashed(pool, hash.lists, bucket, x)
      ensures x == NULL ==> pool == old(pool) && (found ==> BlockHeld(pool, (dev, block, size)))
    {
      hide Index;
      hide FreeMatches;
      hide DirtyMatches;
      hide HashMatches;
      hide Hashed;
      hide Coherent;
      hide Total;
      hide Units;
      hide Without;
      hide Table.Valid;
      hide Ropes.Table.Valid;
      hide HeldHashed;
      hide Missing;
      Basics();
      x := Search(dev, block, size);
      found := x != NULL;
      if !found {
        return;
      }
      if pool[x].locked {
        x := NULL;
        return;
      }
      HeldFound(pool, hash.lists, bucket, x);
      Lock(x);
    }

    /** The second half of getblk(): a free buffer for the block; `again` when the one found had to be written back. */
    method TakeFree(dev: nat, block: nat, size: nat, grow: bool, page: bool, structs: nat) returns (again: bool, x: Ptr)
      requires Settled() && IsSize(size) && Missing(pool, hash.lists, bucket, (dev, block, size))
      modifies this`pool, this`top, this`nrDirty, this`dirtyUnits, this`disk, hash, free, dirt
      ensures Settled() && Only(old(pool), pool, x)
      ensures (again ==> x == NULL && nrDirty < old(nrDirty) && Kept(old(pool), pool))
      ensures x == NULL && !again ==> !(grow && page && structs > 0) && AllHeld(old(pool), size)
      ensures x != NULL ==>
        x in pool && pool[x].locked && pool[x].Key() == (dev, block, size) && Hashed(pool, hash.lists, bucket, x)
    {
      hide Index;
      hide FreeMatches;
      hide DirtyMatches;
      hide HashMatches;
      hide Hashed;
      hide Coherent;
      hide Total;
      hide Units;
      hide Without;
      hide Table.Valid;
      hide Ropes.Table.Valid;
      hide HeldHashed;
      hide Missing;
      hide Only;
      Basics();
      ghost var p1 := pool;
      again := false;
      x := GetFreeBuffer(size, grow, page, structs);
      if x == NULL {
        return;
      }
      HeldFrame(p1, hash.lists, bucket, NULL, pool, x);
      ghost var p2 := pool;
      FreeMember(pool, free.lists, x);
      if pool[x].dirty {
        OnlyTouched(p1, p2, x, p2[x].(dirty := false, locked := false));
        Recycle(x);
        CleanedLocked(p2, x);
        KeptTouched(p1, p2, x, p2[x].(dirty := false, locked := false));
        again, x := true, NULL;
        return;
      }
      MissingFrame(p1, hash.lists, bucket, (dev, block, size), pool);
      OnlyTouched(p1, p2, x, p2[x].(dev := dev, block := block, valid := false));
      Assign(x, dev, block);
    }

    /**
      * getblk(): the held buffer of a block; NULL stands for having to wait, which happens only when
      * somebody holds that buffer, or all buffers of the size are held and there is no memory for more.
      */
    method Getblk(dev: nat, block: nat, size: nat, grow: bool, page: bool, structs: nat) returns (x: Ptr)
      requires Settled() && IsSize(size)
      modifies this`pool, this`top, this`nrDirty, this`dirtyUnits, this`disk, hash, free, dirt
      ensures Settled() && Only(old(pool), pool, x)
      ensures x == NULL ==>
        BlockHeld(old(pool), (dev, block, size)) || (AllHeld(old(pool), size) && !(grow && page && structs > 0))
      ensures x != NULL ==>
        x in pool && pool[x].locked && pool[x].Key() == (dev, block, size) && Hashed(pool, hash.lists, bucket, x)
    {
      hide Valid;
      hide AllHeld;
      hide BlockHeld;
      hide Kept;
      hide Hashed;
      hide HeldHashed;
      hide Missing;
      hide Only;
      x := NULL;
      Basics();
      OnlySelf(pool);
      KeptSelf(pool);
      while true
        invariant Settled() && Only(old(pool), pool, NULL)
        invariant Kept(old(pool), pool)
        decreases nrDirty
      {
        Basics();
        ghost var p := pool;
        var found;
        found, x := TakeCached(dev, block, size);
        if found {
          if x == NULL {
            BlockHeldBefore(old(pool), p, (dev, block, size));
          }
          OnlyThen(old(pool), p, pool, x);
          return;
        }
        var again;
        again, x := TakeFree(dev, block, size, grow, page, structs);
        OnlyThen(old(pool), p, pool, x);
        if !again {
          if x == NULL {
            AllHeldBefore(old(pool), p, size);
          }
          return;
        }
        KeptThen(old(pool), p, pool);
      }
    }

    /** bread(): the held buffer of a block, with its contents; NULL stands for having to wait. */
    method Bread(dev: nat, block: nat, size: nat, grow: bool, page: bool, structs: nat) returns (x: Ptr)
      requires Settled() && IsSize(size)
      modifies this`pool, this`top, this`nrDirty, this`dirtyUnits, this`disk, hash, free, dirt
      ensures Settled() && Only(old(pool), pool, x)
      ensures x == NULL ==>
        BlockHeld(old(pool), (dev, block, size)) || (AllHeld(old(pool), size) && !(grow && page && structs > 0))
      ensures x != NULL ==>
        x in pool && pool[x].locked && pool[x].Key() == (dev, block, size) && Hashed(pool, hash.lists, bucket, x)
      ensures x != NULL ==> pool[x].valid && pool[x].data == Contents(view, (dev, block, size))
    {
      hide Index;
      hide FreeMatches;
      hide DirtyMatches;
      hide HashMatches;
      hide Hashed;
      hide Coherent;
      hide Total;
      hide Units;
      hide Without;
      hide Table.Valid;
      hide Ropes.Table.Valid;
      hide HeldHashed;
      Basics();
      x := Getblk(dev, block, size, grow, page, structs);
      if x == NULL {
        return;
      }
      if pool[x].valid {
        CoherentValid(pool, disk, view, x);
        return;
      }
      OnlyTouched(old(pool), pool, x, pool[x].(data := Contents(disk, pool[x].Key()), valid := true));
      Fill(x);
    }

    /** Reads a block into the buffer that is held for it. */
    method Fill(x: Ptr)
      requires Settled() && x in pool && pool[x].locked && !pool[x].valid && Hashed(pool, hash.lists, bucket, x)
      modifies this`pool
      ensures Settled() && Hashed(pool, hash.lists, bucket, x)
      ensures pool == old(pool)[x := old(pool)[x].(data := Contents(disk, old(pool)[x].Key()), valid := true)]
      ensures pool[x].data == Contents(view, pool[x].Key())
    {
      hide Index;
      hide FreeMatches;
      hide DirtyMatches;
      hide HashMatches;
      hide Hashed;
      hide Coherent;
      hide Total;
      hide Units;
      hide Without;
      hide Table.Valid;
      hide Ropes.Table.Valid;
      hide HeldHashed;
      ghost var p := pool;
      InvalidIsOnDisk(p, hash.lists, bucket, disk, view, x);
      CoherentFill(p, hash.lists, bucket, disk, view, x);
      var b := pool[x].(data := Contents(disk, pool[x].Key()), valid := true);
      HashFrame(p, hash.lists, bucket, x, b);
      FreeFrame(p, free.lists, x, b);
      DirtyFrame(p, dirt.lists, x, b);
      pool := pool[x := b];
      HeldFrame(p, hash.lists, bucket, NULL, pool, NULL);
    }
  }
}
