/**
 Whole runs of bread(), getblk(), bwrite() and brelse() in which buffers stay held between calls, as the processes of
 the kernel hold them (fs/buffer.c), against a plain map and the set of blocks that somebody holds.
 */
module BufferHolding {
  import opened Chains
  import opened BufferState
  import opened BufferCache
  import opened BufferSync
  import opened BufferRuns
  import Ropes

  /** `Look` is the holder of a buffer reading it. */
  datatype Call =
    | Bread(key: Key)
    | Getblk(key: Key)
    | Look(key: Key)
    | Bwrite(key: Key, data: Data)
    | Brelse(key: Key)
    | Flush(dev: nat)

  /** `Sleep` is for a caller that would have to wait, `Misuse` for one that names a block it does not hold. */
  datatype Outcome = Got(data: Data) | Ready | Sleep | Misuse

  /** What every block reads as, and which are held; those mapped to true have been read. */
  datatype World = World(blocks: Blocks, held: map<Key, bool>)

  predicate May(w: World, call: Call) {
    match call
    case Bread(k) => IsSize(k.2)
    case Getblk(k) => IsSize(k.2)
    case Look(k) => k in w.held
    case Bwrite(k, _) => k in w.held
    case Brelse(k) => k in w.held
    case Flush(_) => true
  }

  /** What a caller may be told. A block that is held is waited for; nobody else waits while there is memory. */
  predicate Told(w: World, call: Call, enough: bool, r: Outcome) {
    if !May(w, call) then r == Misuse
    else match call
      case Bread(k) => if k in w.held then r == Sleep else r == Got(Contents(w.blocks, k)) || (r == Sleep && !enough)
      case Getblk(k) => if k in w.held then r == Sleep else r == Ready || (r == Sleep && !enough)
      case Look(k) => r.Got? && (w.held[k] ==> r.data == Contents(w.blocks, k))
      case Bwrite(_, _) => r == Ready
      case Brelse(_) => r == Ready
      case Flush(_) => r == Ready || (r == Sleep && w.held != map[])
  }

  function Next(w: World, call: Call, r: Outcome): World {
    match call
    case Bread(k) => if r.Got? then w.(held := w.held[k := true]) else w
    case Getblk(k) => if r.Ready? then w.(held := w.held[k := false]) else w
    case Look(_) => w
    case Bwrite(k, data) => if r.Ready? then World(w.blocks[k := data], w.held - {k}) else w
    case Brelse(k) => if r.Ready? then w.(held := w.held - {k}) else w
    case Flush(_) => w
  }

  function NextAll(w: World, calls: seq<Call>, rs: seq<Outcome>): World
    requires |calls| == |rs|
  {
    if calls == [] then w
    else var n := |calls| - 1; Next(NextAll(w, calls[..n], rs[..n]), calls[n], rs[n])
  }

  // ---- what a holder can rely on ----

  /** While a block stays held it reads the same, whatever the others do. */
  lemma {:induction false} HeldIsStable(w: World, calls: seq<Call>, rs: seq<Outcome>, k: Key)
    requires |calls| == |rs|
    requires forall i :: 0 <= i <= |calls| ==> k in NextAll(w, calls[..i], rs[..i]).held
    ensures Contents(NextAll(w, calls, rs).blocks, k) == Contents(w.blocks, k)
  {
    if calls != [] {
      var n := |calls| - 1;
      assert calls[..|calls|] == calls && rs[..|rs|] == rs;
      forall i | 0 <= i <= n ensures k in NextAll(w, calls[..n][..i], rs[..n][..i]).held {
        assert calls[..n][..i] == calls[..i] && rs[..n][..i] == rs[..i];
      }
      HeldIsStable(w, calls[..n], rs[..n], k);
      StableStep(NextAll(w, calls[..n], rs[..n]), calls[n], rs[n], k);
    }
  }

  lemma StableStep(w: World, call: Call, r: Outcome, k: Key)
    requires k in Next(w, call, r).held
    ensures Contents(Next(w, call, r).blocks, k) == Contents(w.blocks, k)
  {
  }

  // ---- the buffers ----

  /** Exactly the buffers in `bufs` are held, each for its block, and those that were read have their contents. */
  ghost predicate Holding(pool: Pool, bufs: map<Key, Ptr>, held: map<Key, bool>) {
    && bufs.Keys == held.Keys
    && (forall k :: k in bufs ==> Holds(pool, k, bufs[k], held[k]))
    && (forall y :: y in pool && pool[y].locked ==> pool[y].Key() in bufs && bufs[pool[y].Key()] == y)
  }

  ghost predicate Holds(pool: Pool, k: Key, x: Ptr, read: bool) {
    x in pool && pool[x].locked && pool[x].Key() == k && (read ==> pool[x].valid)
  }

  lemma HoldSame(pool: Pool, pool': Pool, bufs: map<Key, Ptr>, held: map<Key, bool>)
    requires Holding(pool, bufs, held) && Only(pool, pool', NULL) && NULL !in pool'
    ensures Holding(pool', bufs, held)
  {
  }

  lemma HoldMore(pool: Pool, pool': Pool, bufs: map<Key, Ptr>, held: map<Key, bool>, k: Key, x: Ptr, read: bool)
    requires Holding(pool, bufs, held) && Only(pool, pool', x) && Holds(pool', k, x, read) && k !in bufs
    ensures Holding(pool', bufs[k := x], held[k := read])
  {
  }

  lemma HoldLess(pool: Pool, pool': Pool, bufs: map<Key, Ptr>, held: map<Key, bool>, k: Key)
    requires Holding(pool, bufs, held) && k in bufs && pool'.Keys == pool.Keys && !pool'[bufs[k]].locked
    requires forall y :: y in pool && y != bufs[k] ==> pool'[y] == pool[y]
    ensures Holding(pool', bufs - {k}, held - {k})
  {
  }

  lemma HoldFlushed(pool: Pool, pool': Pool, dev: nat, bufs: map<Key, Ptr>, held: map<Key, bool>)
    requires Holding(pool, bufs, held) && Flushed(pool, pool', dev)
    ensures Holding(pool', bufs, held) && (held == map[] ==> Unlocked(pool))
  {
  }

  /** A block that is held is not handed out again. */
  lemma HeldOnce(pool: Pool, pool': Pool, buckets: seq<seq<Ptr>>, bucket: Key -> nat, k: Key, x: Ptr)
    requires BlockHeld(pool, k) && Only(pool, pool', x) && HashMatches(pool', buckets, bucket)
    requires HeldHashed(pool', buckets, bucket, NULL) && NULL !in pool'
    ensures !(x in pool' && pool'[x].Key() == k && Hashed(pool', buckets, bucket, x))
  {
    hide HashMatches;
    var y :| y in pool && pool[y].Key() == k && pool[y].locked;
    if x in pool' && pool'[x].Key() == k && Hashed(pool', buckets, bucket, x) {
      OneBuffer(pool', buckets, bucket, x, y);
    }
  }

  lemma OneBuffer(pool: Pool, buckets: seq<seq<Ptr>>, bucket: Key -> nat, x: Ptr, y: Ptr)
    requires HashMatches(pool, buckets, bucket) && SameBlock(pool, buckets, bucket, x, y)
    ensures x == y
  {
  }

  lemma HoldingBlock(pool: Pool, bufs: map<Key, Ptr>, held: map<Key, bool>, k: Key)
    requires Holding(pool, bufs, held)
    ensures (BlockHeld(pool, k) <==> k in held) && (k in held <==> k in bufs)
  {
  }

  /** A cache whose held buffers are those of `bufs`. */
  ghost predicate Keeps(c: Cache, bufs: map<Key, Ptr>, w: World)
    reads c, c.hash, c.free, c.dirt
  {
    c.Settled() && c.view == w.blocks && Holding(c.pool, bufs, w.held)
  }

  /** bread() or getblk() */
  method Take(c: Cache, bufs: map<Key, Ptr>, k: Key, read: bool, m: Memory, ghost w: World)
    returns (r: Outcome, bufs': map<Key, Ptr>)
    requires Keeps(c, bufs, w) && IsSize(k.2)
    modifies c, c.hash, c.free, c.dirt
    ensures var call := if read then Bread(k) else Getblk(k);
      Told(w, call, m.Enough(), r) && Keeps(c, bufs', Next(w, call, r))
  {
    hide Cache.Valid;
    hide Hashed;
    hide HeldHashed;
    hide Holding;
    hide Only;
    hide BlockHeld;
    hide AllHeld;
    ghost var p := c.pool;
    bufs' := bufs;
    HoldingBlock(p, bufs, w.held, k);
    var x;
    if read {
      x := c.Bread(k.0, k.1, k.2, m.grow, m.page, m.structs);
    } else {
      x := c.Getblk(k.0, k.1, k.2, m.grow, m.page, m.structs);
    }
    c.Basics();
    if x == NULL {
      HoldSame(p, c.pool, bufs, w.held);
      return Sleep, bufs;
    }
    NotHeld(c, p, k, x);
    HoldMore(p, c.pool, bufs, w.held, k, x, read);
    bufs' := bufs[k := x];
    r := if read then Got(c.pool[x].data) else Ready;
  }

  lemma NotHeld(c: Cache, p: Pool, k: Key, x: Ptr)
    requires c.Settled() && Only(p, c.pool, x) && x in c.pool && c.pool[x].Key() == k && NULL !in c.pool
    requires Hashed(c.pool, c.hash.lists, c.bucket, x)
    ensures !BlockHeld(p, k)
  {
    hide Only;
    hide HashMatches;
    hide HeldHashed;
    hide Hashed;
    hide FreeMatches;
    hide DirtyMatches;
    hide Coherent;
    if BlockHeld(p, k) {
      HeldOnce(p, c.pool, c.hash.lists, c.bucket, k, x);
    }
  }

  /** bwrite() or brelse() of a buffer that is held. */
  method Give(c: Cache, bufs: map<Key, Ptr>, call: Call, ghost w: World) returns (bufs': map<Key, Ptr>)
    requires Keeps(c, bufs, w) && (call.Bwrite? || call.Brelse?) && May(w, call) && call.key in bufs
    modifies c, c.free, c.dirt
    ensures Keeps(c, bufs', Next(w, call, Ready))
  {
    hide Cache.Valid;
    hide Cache.Held;
    hide Hashed;
    hide HeldHashed;
    hide Holding;
    ghost var p := c.pool;
    var x := bufs[call.key];
    HoldingAt(p, bufs, w.held, call.key);
    c.Basics();
    if call.Bwrite? {
      HashedAt(p, c.hash.lists, c.bucket, x);
      c.Bwrite(x, call.data);
    } else {
      c.HeldOf(x);
      c.Brelse(x);
    }
    HeldFrame(p, c.hash.lists, c.bucket, NULL, c.pool, NULL);
    HoldLess(p, c.pool, bufs, w.held, call.key);
    bufs' := bufs - {call.key};
  }

  lemma HashedAt(pool: Pool, buckets: seq<seq<Ptr>>, bucket: Key -> nat, x: Ptr)
    requires HeldHashed(pool, buckets, bucket, NULL) && x in pool && pool[x].locked && x != NULL
    ensures Hashed(pool, buckets, bucket, x)
  {
  }

  lemma HoldingAt(pool: Pool, bufs: map<Key, Ptr>, held: map<Key, bool>, k: Key)
    requires Holding(pool, bufs, held) && k in bufs
    ensures k in held && Holds(pool, k, bufs[k], held[k])
  {
  }

  lemma ReadsAs(c: Cache, x: Ptr)
    requires c.Valid() && x in c.pool && c.pool[x].valid
    ensures c.pool[x].data == Contents(c.view, c.pool[x].Key())
  {
    hide HashMatches;
    hide FreeMatches;
    hide DirtyMatches;
    hide Table.Valid;
    hide Ropes.Table.Valid;
  }

  /** What the holder of a buffer sees in it. */
  method See(c: Cache, bufs: map<Key, Ptr>, k: Key, ghost w: World) returns (r: Outcome)
    requires Keeps(c, bufs, w) && k in bufs && k in w.held
    ensures Told(w, Look(k), true, r)
  {
    hide Cache.Valid;
    hide HeldHashed;
    hide Holding;
    HoldingAt(c.pool, bufs, w.held, k);
    if c.pool[bufs[k]].valid {
      ReadsAs(c, bufs[k]);
    }
    r := Got(c.pool[bufs[k]].data);
  }

  method SyncHeld(c: Cache, bufs: map<Key, Ptr>, dev: nat, ghost w: World) returns (r: Outcome)
    requires Keeps(c, bufs, w)
    modifies c, c.dirt
    ensures Keeps(c, bufs, w) && Told(w, Flush(dev), false, r)
    ensures r.Ready? ==> forall k: Key :: Wanted(dev, k.0) ==> Contents(c.disk, k) == Contents(c.view, k)
  {
    hide Cache.Valid;
    hide HeldHashed;
    hide Flushed;
    hide Holding;
    hide Unlocked;
    ghost var p := c.pool;
    var done := SyncBuffers(c, dev);
    HoldFlushed(p, c.pool, dev, bufs, w.held);
    r := if done then Ready else Sleep;
  }

  /** One call: what it tells, and what it leaves, are those of the plain world. */
  method Serve(c: Cache, bufs: map<Key, Ptr>, call: Call, m: Memory, ghost w: World)
    returns (r: Outcome, bufs': map<Key, Ptr>)
    requires Keeps(c, bufs, w)
    modifies c, c.hash, c.free, c.dirt
    ensures Told(w, call, m.Enough(), r) && Keeps(c, bufs', Next(w, call, r))
    ensures call.Flush? && r.Ready? ==>
      forall k: Key :: Wanted(call.dev, k.0) ==> Contents(c.disk, k) == Contents(c.view, k)
  {
    hide Cache.Valid;
    hide Cache.Settled;
    hide Holding;
    SameHeld(c.pool, bufs, w.held);
    bufs' := bufs;
    match call
    case Bread(k) =>
      if IsSize(k.2) {
        r, bufs' := Take(c, bufs, k, true, m, w);
      } else {
        r := Misuse;
      }
    case Getblk(k) =>
      if IsSize(k.2) {
        r, bufs' := Take(c, bufs, k, false, m, w);
      } else {
        r := Misuse;
      }
    case Look(k) =>
      if k in bufs {
        r := See(c, bufs, k, w);
      } else {
        r := Misuse;
      }
    case Flush(dev) =>
      r := SyncHeld(c, bufs, dev, w);
    case _ =>
      if call.key in bufs {
        bufs' := Give(c, bufs, call, w);
        r := Ready;
      } else {
        r := Misuse;
      }
  }

  lemma SameHeld(pool: Pool, bufs: map<Key, Ptr>, held: map<Key, bool>)
    requires Holding(pool, bufs, held)
    ensures forall k :: k in bufs <==> k in held
  {
    hide Holds;
  }

  /**
    * Every run of such calls, whoever makes them and whatever is held meanwhile, tells what the plain world does, and
    * leaves what it leaves.
    */
  method Execute(c: Cache, calls: seq<Call>, memory: seq<Memory>, ghost w: World)
    returns (rs: seq<Outcome>, bufs: map<Key, Ptr>)
    requires Keeps(c, map[], w) && |memory| == |calls|
    modifies c, c.hash, c.free, c.dirt
    ensures |rs| == |calls| && Keeps(c, bufs, NextAll(w, calls, rs))
    ensures forall i :: 0 <= i < |calls| ==>
      Told(NextAll(w, calls[..i], rs[..i]), calls[i], memory[i].Enough(), rs[i])
  {
    hide Keeps;
    hide Told;
    hide Next;
    rs, bufs := [], map[];
    for n := 0 to |calls|
      invariant |rs| == n && Keeps(c, bufs, NextAll(w, calls[..n], rs))
      invariant forall i :: 0 <= i < n ==>
        Told(NextAll(w, calls[..i], rs[..i]), calls[i], memory[i].Enough(), rs[i])
    {
      ghost var before := rs;
      var r;
      r, bufs := Serve(c, bufs, calls[n], memory[n], NextAll(w, calls[..n], rs));
      rs := rs + [r];
      assert calls[..n + 1][..n] == calls[..n] && rs[..n] == before;
      assert forall i :: 0 <= i < n ==> rs[..i] == before[..i];
    }
    assert calls[..|calls|] == calls;
  }
}
