/** The buffer cache of fs/buffer.c as values: what the lists, the flags and the disk must agree on. */
module BufferState {
  import opened Links
  import opened Chains
  import opened Ropes

  type Data = seq<bv8>
  /** A block: device, number, size. */
  type Key = (nat, nat, nat)
  type Blocks = map<Key, Data>

  const PAGE_SIZE := 4096
  const NR_SIZES := 8

  datatype Buffer = Buffer(dev: nat, block: nat, size: nat, valid: bool, locked: bool, dirty: bool, data: Data)
  {
    function Key(): Key { (dev, block, size) }
  }

  type Pool = map<Ptr, Buffer>

  predicate IsSize(size: nat) {
    size == 512 || size == 1024 || size == 2048 || size == 4096
  }

  /** The free and dirty list of a size. */
  function Index(size: nat): (i: nat)
    requires IsSize(size)
    ensures i < NR_SIZES
  {
    size / 512 - 1
  }

  /** A block that was never written reads as empty. */
  function Contents(blocks: Blocks, k: Key): Data {
    if k in blocks then blocks[k] else []
  }

  ghost predicate Sized(pool: Pool) {
    NULL !in pool && forall x :: x in pool ==> IsSize(pool[x].size)
  }

  /** A buffer is on the free list of its size exactly when it is not locked. */
  ghost predicate FreeMatches(pool: Pool, free: seq<seq<Ptr>>) {
    && Sized(pool) && |free| == NR_SIZES
    && (forall i :: 0 <= i < NR_SIZES ==> Distinct(free[i]))
    && (forall i, x :: 0 <= i < NR_SIZES ==>
         (x in free[i] <==> x in pool && !pool[x].locked && Index(pool[x].size) == i))
  }

  /** A buffer is on the dirty list of its size exactly when it is dirty. */
  ghost predicate DirtyMatches(pool: Pool, dirt: seq<seq<Ptr>>) {
    && Sized(pool) && |dirt| == NR_SIZES
    && (forall i :: 0 <= i < NR_SIZES ==> Distinct(dirt[i]))
    && (forall i, x :: 0 <= i < NR_SIZES ==> (x in dirt[i] <==> x in pool && pool[x].dirty && Index(pool[x].size) == i))
  }

  /** Every valid or dirty buffer is in the bucket of its block; no block has two buffers there. */
  ghost predicate HashMatches(pool: Pool, buckets: seq<seq<Ptr>>, bucket: Key -> nat) {
    && (forall b, x :: 0 <= b < |buckets| && x in buckets[b] ==> x in pool && bucket(pool[x].Key()) == b)
    && (forall x :: x in pool && (pool[x].valid || pool[x].dirty) ==> Hashed(pool, buckets, bucket, x))
    && (forall x, y :: SameBlock(pool, buckets, bucket, x, y) ==> x == y)
  }

  ghost predicate SameBlock(pool: Pool, buckets: seq<seq<Ptr>>, bucket: Key -> nat, x: Ptr, y: Ptr) {
    && x in pool && y in pool && pool[x].Key() == pool[y].Key()
    && Hashed(pool, buckets, bucket, x) && Hashed(pool, buckets, bucket, y)
  }

  ghost predicate Hashed(pool: Pool, buckets: seq<seq<Ptr>>, bucket: Key -> nat, x: Ptr)
    requires x in pool
  {
    bucket(pool[x].Key()) < |buckets| && x in buckets[bucket(pool[x].Key())]
  }

  /** Cached blocks read as the view says; where the disk lags behind the view, a dirty buffer makes up for it. */
  ghost predicate Coherent(pool: Pool, disk: Blocks, view: Blocks) {
    && (forall x :: x in pool && pool[x].dirty ==> pool[x].valid)
    && (forall x :: x in pool && pool[x].valid ==> pool[x].data == Contents(view, pool[x].Key()))
    && (forall k :: Contents(disk, k) != Contents(view, k) ==>
         exists x :: x in pool && pool[x].dirty && pool[x].Key() == k)
  }

  // ---- the steps ----

  function Locked(pool: Pool, x: Ptr, locked: bool): Pool
    requires x in pool
  {
    pool[x := pool[x].(locked := locked)]
  }

  function Cleaned(pool: Pool, x: Ptr): Pool
    requires x in pool
  {
    pool[x := pool[x].(dirty := false)]
  }

  function Rebound(pool: Pool, x: Ptr, k: Key): Pool
    requires x in pool
  {
    pool[x := pool[x].(dev := k.0, block := k.1, valid := false)]
  }

  function Filled(pool: Pool, x: Ptr, data: Data): Pool
    requires x in pool
  {
    pool[x := pool[x].(valid := true, data := data)]
  }

  function Written(pool: Pool, x: Ptr, data: Data): Pool
    requires x in pool
  {
    pool[x := pool[x].(valid := true, dirty := true, data := data)]
  }

  lemma DirtyMember(pool: Pool, dirt: seq<seq<Ptr>>, x: Ptr)
    requires DirtyMatches(pool, dirt) && x in pool
    ensures IsSize(pool[x].size) && |dirt| == NR_SIZES && Distinct(dirt[Index(pool[x].size)]) && x != NULL
    ensures pool[x].dirty <==> x in dirt[Index(pool[x].size)]
    ensures pool[x].dirty <==> !Off(dirt, x)
  {
    hide Index;
  }

  lemma FreeMember(pool: Pool, free: seq<seq<Ptr>>, x: Ptr)
    requires FreeMatches(pool, free) && x in pool
    ensures IsSize(pool[x].size) && |free| == NR_SIZES && Distinct(free[Index(pool[x].size)]) && x != NULL
    ensures pool[x].locked <==> x !in free[Index(pool[x].size)]
    ensures pool[x].locked <==> Off(free, x)
  {
    hide Index;
  }

  lemma FreeFirst(pool: Pool, free: seq<seq<Ptr>>, i: nat)
    requires FreeMatches(pool, free) && i < NR_SIZES
    ensures free[i] != [] ==>
      && free[i][0] in pool && !pool[free[i][0]].locked && IsSize(pool[free[i][0]].size)
      && Index(pool[free[i][0]].size) == i
  {
    if free[i] != [] {
      assert free[i][0] in free[i];
    }
  }

  lemma FreeNull(pool: Pool, free: seq<seq<Ptr>>)
    requires FreeMatches(pool, free)
    ensures NULL !in pool
  {
  }

  lemma IndexSize(a: nat, b: nat)
    requires IsSize(a) && IsSize(b) && Index(a) == Index(b)
    ensures a == b
  {
  }

  lemma FreeTake(pool: Pool, free: seq<seq<Ptr>>, x: Ptr)
    requires FreeMatches(pool, free) && x in pool && !pool[x].locked
    ensures x in free[Index(pool[x].size)]
    ensures FreeMatches(Locked(pool, x, true), Dropped(free, Index(pool[x].size), x))
  {
    hide Index;
    hide Without;
  }

  lemma FreeGive(pool: Pool, free: seq<seq<Ptr>>, x: Ptr, front: bool)
    requires FreeMatches(pool, free) && x in pool && pool[x].locked
    ensures Off(free, x)
    ensures FreeMatches(Locked(pool, x, false), if front then Pushed(free, Index(pool[x].size), x)
      else Appended(free, Index(pool[x].size), x))
  {
    hide Index;
  }

  lemma FreeFrame(pool: Pool, free: seq<seq<Ptr>>, x: Ptr, b: Buffer)
    requires FreeMatches(pool, free) && x in pool && b.locked == pool[x].locked && b.size == pool[x].size
    ensures FreeMatches(pool[x := b], free)
  {
    hide Index;
  }

  lemma DirtyDrop(pool: Pool, dirt: seq<seq<Ptr>>, x: Ptr)
    requires DirtyMatches(pool, dirt) && x in pool && pool[x].dirty
    ensures x in dirt[Index(pool[x].size)]
    ensures DirtyMatches(Cleaned(pool, x), Dropped(dirt, Index(pool[x].size), x))
  {
    hide Index;
    hide Without;
  }

  /** A buffer marked dirty joins the dirty list of its size. */
  lemma DirtyAdd(pool: Pool, dirt: seq<seq<Ptr>>, x: Ptr)
    requires x in pool && pool[x].dirty && DirtyMatches(Cleaned(pool, x), dirt)
    ensures IsSize(pool[x].size) && Off(dirt, x) && x != NULL
    ensures DirtyMatches(pool, Appended(dirt, Index(pool[x].size), x))
  {
    hide Index;
    var clean := Cleaned(pool, x);
    assert forall y :: y in pool ==>
      y in clean && clean[y].size == pool[y].size && (clean[y].dirty <==> pool[y].dirty && y != x);
    var r := Appended(dirt, Index(pool[x].size), x);
    assert Sized(pool);
    assert forall i, y :: 0 <= i < NR_SIZES ==> (y in r[i] <==> y in dirt[i] || (i == Index(pool[x].size) && y == x));
    forall i, y | 0 <= i < NR_SIZES ensures y in r[i] <==> y in pool && pool[y].dirty && Index(pool[y].size) == i {
      assert y in dirt[i] <==> y in clean && clean[y].dirty && Index(clean[y].size) == i;
    }
  }

  lemma DirtyFrame(pool: Pool, dirt: seq<seq<Ptr>>, x: Ptr, b: Buffer)
    requires DirtyMatches(pool, dirt) && x in pool && b.dirty == pool[x].dirty && b.size == pool[x].size
    ensures DirtyMatches(pool[x := b], dirt)
  {
    hide Index;
  }

  lemma HashFrame(pool: Pool, buckets: seq<seq<Ptr>>, bucket: Key -> nat, x: Ptr, b: Buffer)
    requires HashMatches(pool, buckets, bucket) && x in pool && b.Key() == pool[x].Key()
    requires b.valid || b.dirty ==> Hashed(pool, buckets, bucket, x)
    ensures HashMatches(pool[x := b], buckets, bucket)
    ensures Hashed(pool[x := b], buckets, bucket, x) == Hashed(pool, buckets, bucket, x)
  {
    var pool' := pool[x := b];
    forall y, z | SameBlock(pool', buckets, bucket, y, z) ensures y == z {
      assert SameBlock(pool, buckets, bucket, y, z);
    }
    forall y | y in pool' && (pool'[y].valid || pool'[y].dirty) ensures Hashed(pool', buckets, bucket, y) {
      assert Hashed(pool, buckets, bucket, y);
    }
  }

  lemma HashKeeps(pool: Pool, buckets: seq<seq<Ptr>>, bucket: Key -> nat, x: Ptr)
    requires HashMatches(pool, buckets, bucket) && x in pool
    ensures pool[x].valid || pool[x].dirty ==> Hashed(pool, buckets, bucket, x)
  {
  }

  /** No cached block `k`. */
  ghost predicate Missing(pool: Pool, buckets: seq<seq<Ptr>>, bucket: Key -> nat, k: Key) {
    forall y :: y in pool && pool[y].Key() == k ==> !Hashed(pool, buckets, bucket, y)
  }

  /** The bucket of block `k`, searched in vain, means that `k` is not cached. */
  lemma NotInBucket(pool: Pool, buckets: seq<seq<Ptr>>, bucket: Key -> nat, k: Key)
    requires HashMatches(pool, buckets, bucket) && bucket(k) < |buckets|
    requires forall y :: y in buckets[bucket(k)] && y in pool ==> pool[y].Key() != k
    ensures Missing(pool, buckets, bucket, k)
  {
  }

  lemma InBucket(pool: Pool, buckets: seq<seq<Ptr>>, bucket: Key -> nat, b: nat)
    requires HashMatches(pool, buckets, bucket) && b < |buckets|
    ensures forall y :: y in buckets[b] ==> y in pool && bucket(pool[y].Key()) == b && Hashed(pool, buckets, bucket, y)
  {
  }

  lemma BucketsOf(pool: Pool, buckets: seq<seq<Ptr>>, bucket: Key -> nat, x: Ptr)
    requires HashMatches(pool, buckets, bucket) && x in pool
    ensures forall b :: 0 <= b < |buckets| && x in buckets[b] ==> b == bucket(pool[x].Key())
  {
  }

  /** Every buffer but `x` is in the hash index as it was. */
  ghost predicate OthersHashed(pool: Pool, buckets: seq<seq<Ptr>>, pool': Pool, buckets': seq<seq<Ptr>>,
                               bucket: Key -> nat, x: Ptr) {
    forall y :: y in pool && y != x ==>
      y in pool' && Hashed(pool', buckets', bucket, y) == Hashed(pool, buckets, bucket, y)
  }

  /** Only `x` is hashed otherwise than before. */
  lemma HashedOthers(pool: Pool, buckets: seq<seq<Ptr>>, bucket: Key -> nat, x: Ptr, k: Key, out: seq<seq<Ptr>>, y: Ptr)
    requires HashMatches(pool, buckets, bucket) && x in pool && k.2 == pool[x].size && bucket(k) < |buckets|
    requires y in pool && y != x
    requires |out| == |buckets| && forall b, y :: 0 <= b < |out| ==> (y in out[b] <==> y in buckets[b] && y != x)
    ensures y in Rebound(pool, x, k) && Rebound(pool, x, k)[y] == pool[y]
    ensures Hashed(Rebound(pool, x, k), Pushed(out, bucket(k), x), bucket, y) <==> Hashed(pool, buckets, bucket, y)
  {
  }

  /** A clean buffer moved from its old bucket, if it is in one, to that of block `k`. */
  lemma HashMove(pool: Pool, buckets: seq<seq<Ptr>>, bucket: Key -> nat, x: Ptr, k: Key, out: seq<seq<Ptr>>)
    requires HashMatches(pool, buckets, bucket) && x in pool && !pool[x].dirty && k.2 == pool[x].size
    requires Missing(pool, buckets, bucket, k) && bucket(k) < |buckets|
    requires |out| == |buckets| && forall b, y :: 0 <= b < |out| ==> (y in out[b] <==> y in buckets[b] && y != x)
    ensures HashMatches(Rebound(pool, x, k), Pushed(out, bucket(k), x), bucket)
    ensures Hashed(Rebound(pool, x, k), Pushed(out, bucket(k), x), bucket, x)
    ensures OthersHashed(pool, buckets, Rebound(pool, x, k), Pushed(out, bucket(k), x), bucket, x)
  {
    var pool', in' := Rebound(pool, x, k), Pushed(out, bucket(k), x);
    forall y | y in pool && y != x
      ensures y in pool' && pool'[y] == pool[y] && (Hashed(pool', in', bucket, y) <==> Hashed(pool, buckets, bucket, y))
    {
      HashedOthers(pool, buckets, bucket, x, k, out, y);
    }
    forall y, z | SameBlock(pool', in', bucket, y, z) ensures y == z {
      if y != x && z != x {
        assert SameBlock(pool, buckets, bucket, y, z);
      }
    }
  }

  lemma CoherentFrame(pool: Pool, disk: Blocks, view: Blocks, x: Ptr, b: Buffer)
    requires Coherent(pool, disk, view) && x in pool && b.Key() == pool[x].Key()
    requires b.valid == pool[x].valid && b.dirty == pool[x].dirty && b.data == pool[x].data
    ensures Coherent(pool[x := b], disk, view)
  {
    var pool' := pool[x := b];
    forall k | Contents(disk, k) != Contents(view, k)
      ensures exists y :: y in pool' && pool'[y].dirty && pool'[y].Key() == k
    {
      var y :| y in pool && pool[y].dirty && pool[y].Key() == k;
      assert y in pool' && pool'[y].dirty && pool'[y].Key() == k;
    }
  }

  /** Writing a dirty buffer back. */
  lemma CoherentSync(pool: Pool, disk: Blocks, view: Blocks, x: Ptr)
    requires Coherent(pool, disk, view) && x in pool && pool[x].dirty
    ensures Coherent(Cleaned(pool, x), disk[pool[x].Key() := pool[x].data], view)
  {
    var pool', disk' := Cleaned(pool, x), disk[pool[x].Key() := pool[x].data];
    forall k | Contents(disk', k) != Contents(view, k)
      ensures exists y :: y in pool' && pool'[y].dirty && pool'[y].Key() == k
    {
      var y :| y in pool && pool[y].dirty && pool[y].Key() == k;
      assert y != x;
      assert y in pool' && pool'[y].dirty && pool'[y].Key() == k;
    }
  }

  /** Giving a clean buffer another block loses nothing. */
  lemma CoherentRebind(pool: Pool, disk: Blocks, view: Blocks, x: Ptr, k: Key)
    requires Coherent(pool, disk, view) && x in pool && !pool[x].dirty
    ensures Coherent(Rebound(pool, x, k), disk, view)
  {
    var pool' := Rebound(pool, x, k);
    forall l | Contents(disk, l) != Contents(view, l)
      ensures exists y :: y in pool' && pool'[y].dirty && pool'[y].Key() == l
    {
      var y :| y in pool && pool[y].dirty && pool[y].Key() == l;
      assert y in pool' && pool'[y].dirty && pool'[y].Key() == l;
    }
  }

  /** What a block that is not cached reads as is on the disk. */
  lemma InvalidIsOnDisk(pool: Pool, buckets: seq<seq<Ptr>>, bucket: Key -> nat, disk: Blocks, view: Blocks, x: Ptr)
    requires Coherent(pool, disk, view) && HashMatches(pool, buckets, bucket)
    requires x in pool && !pool[x].valid && Hashed(pool, buckets, bucket, x)
    ensures Contents(disk, pool[x].Key()) == Contents(view, pool[x].Key())
  {
    if Contents(disk, pool[x].Key()) != Contents(view, pool[x].Key()) {
      var y :| y in pool && pool[y].dirty && pool[y].Key() == pool[x].Key();
      assert SameBlock(pool, buckets, bucket, x, y);
    }
  }

  lemma CoherentFill(pool: Pool, buckets: seq<seq<Ptr>>, bucket: Key -> nat, disk: Blocks, view: Blocks, x: Ptr)
    requires Coherent(pool, disk, view) && HashMatches(pool, buckets, bucket)
    requires x in pool && !pool[x].valid && Hashed(pool, buckets, bucket, x)
    ensures Coherent(Filled(pool, x, Contents(disk, pool[x].Key())), disk, view)
  {
    InvalidIsOnDisk(pool, buckets, bucket, disk, view, x);
    var pool' := Filled(pool, x, Contents(disk, pool[x].Key()));
    forall k | Contents(disk, k) != Contents(view, k)
      ensures exists y :: y in pool' && pool'[y].dirty && pool'[y].Key() == k
    {
      var y :| y in pool && pool[y].dirty && pool[y].Key() == k;
      assert y in pool' && pool'[y].dirty && pool'[y].Key() == k;
    }
  }

  lemma CoherentWrite(pool: Pool, buckets: seq<seq<Ptr>>,
                      bucket: Key -> nat, disk: Blocks, view: Blocks, x: Ptr, data: Data)
    requires Coherent(pool, disk, view) && HashMatches(pool, buckets, bucket)
    requires x in pool && Hashed(pool, buckets, bucket, x)
    ensures Coherent(Written(pool, x, data), disk, view[pool[x].Key() := data])
  {
    var pool', view' := Written(pool, x, data), view[pool[x].Key() := data];
    forall y | y in pool' && pool'[y].valid ensures pool'[y].data == Contents(view', pool'[y].Key()) {
      if y != x && pool[y].Key() == pool[x].Key() {
        assert SameBlock(pool, buckets, bucket, x, y);
      }
    }
    forall k | Contents(disk, k) != Contents(view', k)
      ensures exists y :: y in pool' && pool'[y].dirty && pool'[y].Key() == k
    {
      if k == pool[x].Key() {
        assert x in pool' && pool'[x].dirty;
      } else {
        var y :| y in pool && pool[y].dirty && pool[y].Key() == k;
        assert y in pool' && pool'[y].dirty && pool'[y].Key() == k;
      }
    }
  }

  /** With nothing dirty the disk is the view. */
  lemma CleanDiskIsView(pool: Pool, disk: Blocks, view: Blocks, k: Key)
    requires Coherent(pool, disk, view)
    requires forall x :: x in pool && pool[x].dirty ==> pool[x].Key() != k
    ensures Contents(disk, k) == Contents(view, k)
  {
  }

  /** A new buffer, held by its creator: invalid, clean, in no bucket. */
  function Fresh(size: nat): Buffer {
    Buffer(0, 0, size, false, true, false, [])
  }

  lemma FreeNew(pool: Pool, free: seq<seq<Ptr>>, x: Ptr, size: nat)
    requires FreeMatches(pool, free) && x !in pool && x != NULL && IsSize(size)
    ensures FreeMatches(pool[x := Fresh(size)], free)
  {
    hide Index;
  }

  lemma DirtyNew(pool: Pool, dirt: seq<seq<Ptr>>, x: Ptr, size: nat)
    requires DirtyMatches(pool, dirt) && x !in pool && x != NULL && IsSize(size)
    ensures DirtyMatches(pool[x := Fresh(size)], dirt)
  {
    hide Index;
  }

  lemma HashNew(pool: Pool, buckets: seq<seq<Ptr>>, bucket: Key -> nat, x: Ptr, size: nat)
    requires HashMatches(pool, buckets, bucket) && x !in pool
    ensures HashMatches(pool[x := Fresh(size)], buckets, bucket)
  {
    var pool' := pool[x := Fresh(size)];
    forall y | y in pool ensures Hashed(pool', buckets, bucket, y) == Hashed(pool, buckets, bucket, y) {
    }
    assert !Hashed(pool', buckets, bucket, x);
    forall y, z | SameBlock(pool', buckets, bucket, y, z) ensures y == z {
      assert SameBlock(pool, buckets, bucket, y, z);
    }
  }

  lemma CoherentNew(pool: Pool, disk: Blocks, view: Blocks, x: Ptr, size: nat)
    requires Coherent(pool, disk, view) && x !in pool
    ensures Coherent(pool[x := Fresh(size)], disk, view)
  {
    var pool' := pool[x := Fresh(size)];
    forall k | Contents(disk, k) != Contents(view, k)
      ensures exists y :: y in pool' && pool'[y].dirty && pool'[y].Key() == k
    {
      var y :| y in pool && pool[y].dirty && pool[y].Key() == k;
      assert y in pool' && pool'[y].dirty && pool'[y].Key() == k;
    }
  }

  /** Buffers that somebody holds are left exactly as they are. */
  ghost predicate Undisturbed(pool: Pool, pool': Pool) {
    forall y :: y in pool && pool[y].locked ==> y in pool' && pool'[y] == pool[y]
  }

  /** Every held buffer but `x` is in the bucket of its block. */
  ghost predicate HeldHashed(pool: Pool, buckets: seq<seq<Ptr>>, bucket: Key -> nat, x: Ptr) {
    forall y :: y in pool && pool[y].locked && y != x ==> Hashed(pool, buckets, bucket, y)
  }

  lemma HeldFrame(pool: Pool, buckets: seq<seq<Ptr>>, bucket: Key -> nat, x: Ptr, pool': Pool, x': Ptr)
    requires HeldHashed(pool, buckets, bucket, x)
    requires forall y :: y in pool' && pool'[y].locked && y != x' ==>
      y in pool && pool[y].locked && y != x && pool'[y].Key() == pool[y].Key()
    ensures HeldHashed(pool', buckets, bucket, x')
  {
  }

  /** `pool'` has everything of `pool`, and beside it new buffers of which only `x` is held. */
  ghost predicate Grown(pool: Pool, pool': Pool, x: Ptr, size: nat) {
    && (forall y :: y in pool ==> y in pool' && pool'[y] == pool[y])
    && (forall y :: y in pool' && y !in pool ==> pool'[y] == Fresh(size).(locked := y == x))
    && (x != NULL ==> x in pool' && x !in pool)
  }

  lemma GrownHeld(pool: Pool, pool': Pool, x: Ptr, size: nat)
    requires Grown(pool, pool', x, size) && x != NULL
    ensures x in pool' && pool'[x] == Fresh(size)
  {
  }

  lemma GrownMore(pool: Pool, pool': Pool, prev: Ptr, x: Ptr, size: nat)
    requires Grown(pool, pool', prev, size) && x !in pool' && x != NULL && NULL !in pool'
    ensures prev == NULL ==> Grown(pool, pool'[x := Fresh(size)], x, size)
    ensures prev != NULL ==> prev in pool' && Grown(pool, Locked(pool'[x := Fresh(size)], prev, false), x, size)
  {
  }

  lemma GrownOthers(pool: Pool, pool': Pool, x: Ptr, size: nat)
    requires Grown(pool, pool', x, size) && x != NULL
    ensures x in pool' && x !in pool && pool'[x] == Fresh(size)
    ensures forall y :: y in pool' && pool'[y].locked && y != x ==> y in pool && pool'[y] == pool[y]
    ensures forall y :: y in pool && y != x ==> y in pool' && pool'[y] == pool[y]
  {
  }

  lemma LockedOthers(pool: Pool, x: Ptr)
    requires x in pool
    ensures x in Locked(pool, x, true) && Locked(pool, x, true)[x] == pool[x].(locked := true)
    ensures forall y :: y in Locked(pool, x, true) && Locked(pool, x, true)[y].locked && y != x ==>
      y in pool && Locked(pool, x, true)[y] == pool[y]
    ensures forall y :: y in pool && y != x ==> y in Locked(pool, x, true) && Locked(pool, x, true)[y] == pool[y]
  {
  }

  lemma CleanedLocked(pool: Pool, x: Ptr)
    requires x in pool
    ensures Locked(Cleaned(pool, x), x, false) == pool[x := pool[x].(dirty := false, locked := false)]
  {
  }

  lemma MissingFrame(pool: Pool, buckets: seq<seq<Ptr>>, bucket: Key -> nat, k: Key, pool': Pool)
    requires HashMatches(pool, buckets, bucket) && Missing(pool, buckets, bucket, k)
    requires forall y :: y in pool ==> y in pool' && pool'[y].Key() == pool[y].Key()
    ensures Missing(pool', buckets, bucket, k)
  {
    forall y | y in pool' && pool'[y].Key() == k ensures !Hashed(pool', buckets, bucket, y) {
      if y in pool {
        assert !Hashed(pool, buckets, bucket, y);
      }
    }
  }

  /** Held buffers are undisturbed, and nobody but `x` has come to be held. */
  ghost predicate Only(pool: Pool, pool': Pool, x: Ptr) {
    && Undisturbed(pool, pool')
    && (forall y :: y in pool' && pool'[y].locked && y != x ==> y in pool && pool[y].locked)
    && (x in pool ==> !pool[x].locked)
  }

  ghost predicate NoneHeld(pool: Pool) {
    forall y :: y in pool ==> !pool[y].locked
  }

  /** Every buffer of a size is held. */
  ghost predicate AllHeld(pool: Pool, size: nat) {
    forall y :: y in pool && pool[y].size == size ==> pool[y].locked
  }

  /** Somebody holds the buffer of a block. */
  ghost predicate BlockHeld(pool: Pool, k: Key) {
    exists y :: y in pool && pool[y].Key() == k && pool[y].locked
  }

  /** No buffer has gone or changed its size. */
  ghost predicate Kept(pool: Pool, pool': Pool) {
    forall y :: y in pool ==> y in pool' && pool'[y].size == pool[y].size
  }

  lemma KeptThen(p0: Pool, p1: Pool, p2: Pool)
    requires Kept(p0, p1) && Kept(p1, p2)
    ensures Kept(p0, p2)
  {
  }

  lemma KeptSelf(pool: Pool)
    ensures Kept(pool, pool)
  {
  }

  lemma KeptTouched(pool: Pool, pool': Pool, x: Ptr, b: Buffer)
    requires x in pool' && b.size == pool'[x].size
    requires forall y :: y in pool ==> y in pool' && pool'[y].size == pool[y].size
    ensures Kept(pool, pool'[x := b])
  {
  }

  lemma FreeEmpty(pool: Pool, free: seq<seq<Ptr>>, size: nat)
    requires FreeMatches(pool, free) && IsSize(size) && free[Index(size)] == []
    ensures AllHeld(pool, size)
  {
    hide Index;
    forall y | y in pool && pool[y].size == size ensures pool[y].locked {
      assert y !in free[Index(size)];
    }
  }

  lemma AllHeldBefore(pool: Pool, pool': Pool, size: nat)
    requires Only(pool, pool', NULL) && Kept(pool, pool') && NULL !in pool' && AllHeld(pool', size)
    ensures AllHeld(pool, size)
  {
  }

  lemma BlockHeldBefore(pool: Pool, pool': Pool, k: Key)
    requires Only(pool, pool', NULL) && NULL !in pool' && BlockHeld(pool', k)
    ensures BlockHeld(pool, k)
  {
    var y :| y in pool' && pool'[y].Key() == k && pool'[y].locked;
    assert y in pool && pool[y].locked;
  }

  lemma NoneHeldKept(pool: Pool, pool': Pool)
    requires Only(pool, pool', NULL) && NULL !in pool'
    ensures NoneHeld(pool) ==> NoneHeld(pool')
  {
  }

  lemma OnlyThen(p0: Pool, p1: Pool, p2: Pool, x: Ptr)
    requires NULL !in p1 && Only(p0, p1, NULL) && Only(p1, p2, x)
    ensures Only(p0, p2, x)
  {
  }

  lemma HeldFound(pool: Pool, buckets: seq<seq<Ptr>>, bucket: Key -> nat, x: Ptr)
    requires HeldHashed(pool, buckets, bucket, NULL) && x in pool && Hashed(pool, buckets, bucket, x)
    ensures HeldHashed(Locked(pool, x, true), buckets, bucket, NULL)
    ensures Hashed(Locked(pool, x, true), buckets, bucket, x)
  {
    var pool' := Locked(pool, x, true);
    forall y | y in pool' && pool'[y].locked && y != NULL ensures Hashed(pool', buckets, bucket, y) {
      assert Hashed(pool, buckets, bucket, y);
    }
  }

  lemma HeldMoved(pool: Pool, buckets: seq<seq<Ptr>>, bucket: Key -> nat, x: Ptr, pool': Pool, buckets': seq<seq<Ptr>>)
    requires HeldHashed(pool, buckets, bucket, x) && x in pool'
    requires (forall y :: y in pool' && y != x ==> y in pool && pool'[y] == pool[y])
    requires OthersHashed(pool, buckets, pool', buckets', bucket, x)
    requires Hashed(pool', buckets', bucket, x)
    ensures HeldHashed(pool', buckets', bucket, NULL)
  {
  }

  lemma OnlySelf(pool: Pool)
    requires NULL !in pool
    ensures Only(pool, pool, NULL)
  {
  }

  lemma CoherentValid(pool: Pool, disk: Blocks, view: Blocks, x: Ptr)
    requires Coherent(pool, disk, view) && x in pool && pool[x].valid
    ensures pool[x].data == Contents(view, pool[x].Key())
  {
  }

  lemma OnlyTouched(pool: Pool, pool': Pool, x: Ptr, b: Buffer)
    requires Only(pool, pool', x) && x in pool' && x != NULL && NULL !in pool
    ensures Only(pool, pool'[x := b], x)
    ensures !b.locked ==> Only(pool, pool'[x := b], NULL)
  {
  }

  lemma OnlyLocked(pool: Pool, x: Ptr)
    requires NULL !in pool && x in pool && !pool[x].locked
    ensures Only(pool, Locked(pool, x, true), x)
  {
  }

  lemma OnlyGrown(pool: Pool, pool': Pool, x: Ptr, size: nat)
    requires Grown(pool, pool', x, size) && x != NULL
    ensures Only(pool, pool', x)
  {
  }
}
