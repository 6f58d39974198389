/** Whole runs of the buffer cache against a plain map from blocks to bytes. */
module BufferRuns {
  import opened Chains
  import opened BufferState
  import opened BufferCache
  import opened BufferSync

  datatype Op = Read(key: Key) | Write(key: Key, data: Data) | Sync(dev: nat)
  {
    predicate Sound() { (Read? || Write?) ==> IsSize(key.2) }
  }

  /** `Wait` is for a caller that would have had to sleep; nothing it asked for has happened. */
  datatype Reply = Bytes(data: Data) | Done | Wait

  /** What the allocator has to offer: may the cache grow, is there a page, how many buffer headers. */
  datatype Memory = Memory(grow: bool, page: bool, structs: nat)
  {
    predicate Enough() { grow && page && structs > 0 }
  }

  /** The plain map, and what it answers. */
  function After(blocks: Blocks, op: Op, reply: Reply): Blocks {
    if op.Write? && reply.Done? then blocks[op.key := op.data] else blocks
  }

  predicate Answers(blocks: Blocks, op: Op, reply: Reply) {
    reply.Wait? || (if op.Read? then reply == Bytes(Contents(blocks, op.key)) else reply.Done?)
  }

  function AllAfter(blocks: Blocks, ops: seq<Op>, replies: seq<Reply>): Blocks
    requires |ops| == |replies|
  {
    if ops == [] then blocks
    else var n := |ops| - 1; After(AllAfter(blocks, ops[..n], replies[..n]), ops[n], replies[n])
  }

  /** A block reads as what was last written to it, whatever else went on in between. */
  lemma {:induction false} LastWrite(blocks: Blocks, ops: seq<Op>, replies: seq<Reply>, k: Key, i: nat)
    requires |ops| == |replies| && i < |ops| && ops[i].Write? && ops[i].key == k && replies[i].Done?
    requires forall j :: i < j < |ops| && ops[j].Write? && ops[j].key == k ==> !replies[j].Done?
    ensures Contents(AllAfter(blocks, ops, replies), k) == ops[i].data
  {
    var n := |ops| - 1;
    if i < n {
      LastWrite(blocks, ops[..n], replies[..n], k, i);
    }
  }

  lemma {:induction false} NeverWritten(blocks: Blocks, ops: seq<Op>, replies: seq<Reply>, k: Key)
    requires |ops| == |replies|
    requires forall j :: 0 <= j < |ops| && ops[j].Write? && ops[j].key == k ==> !replies[j].Done?
    ensures Contents(AllAfter(blocks, ops, replies), k) == Contents(blocks, k)
  {
    if ops != [] {
      var n := |ops| - 1;
      NeverWritten(blocks, ops[..n], replies[..n], k);
    }
  }

  ghost predicate Idle(c: Cache)
    reads c, c.hash, c.free, c.dirt
  {
    c.Settled() && NoneHeld(c.pool)
  }

  lemma IdleAfter(p0: Pool, p1: Pool, x: Ptr, p2: Pool)
    requires NoneHeld(p0) && Only(p0, p1, x) && x in p1
    requires forall y :: y in p2 ==> y in p1 && p2[y].locked == (p1[y].locked && y != x)
    ensures NoneHeld(p2)
  {
  }

  lemma NoneHeldHashed(pool: Pool, buckets: seq<seq<Ptr>>, bucket: Key -> nat)
    requires NoneHeld(pool)
    ensures HeldHashed(pool, buckets, bucket, NULL)
  {
  }

  lemma NoneHeldFlushed(pool: Pool, pool': Pool, dev: nat)
    requires NoneHeld(pool) && Flushed(pool, pool', dev)
    ensures NoneHeld(pool') && Unlocked(pool)
  {
  }

  /** There is no buffer of a size at all. */
  ghost predicate NoneOf(pool: Pool, size: nat) {
    forall y :: y in pool ==> pool[y].size != size
  }

  lemma NobodyHolds(pool: Pool, k: Key)
    requires NoneHeld(pool)
    ensures !BlockHeld(pool, k) && (AllHeld(pool, k.2) ==> NoneOf(pool, k.2))
  {
  }

  /** Reading a block: bread(), a copy, brelse(). */
  method ReadBlock(c: Cache, k: Key, m: Memory) returns (reply: Reply)
    requires Idle(c) && IsSize(k.2)
    modifies c, c.hash, c.free, c.dirt
    ensures Idle(c) && c.view == old(c.view)
    ensures Answers(c.view, Read(k), reply) && (reply.Wait? ==> !m.Enough() && NoneOf(old(c.pool), k.2))
  {
    hide Cache.Valid;
    hide Cache.Held;
    hide Hashed;
    hide HeldHashed;
    hide Only;
    hide NoneHeld;
    ghost var p := c.pool;
    c.Basics();
    var x := c.Bread(k.0, k.1, k.2, m.grow, m.page, m.structs);
    c.Basics();
    if x == NULL {
      NoneHeldKept(p, c.pool);
      NobodyHolds(p, k);
      return Wait;
    }
    reply := Bytes(c.pool[x].data);
    ghost var q := c.pool;
    c.HeldOf(x);
    c.Brelse(x);
    IdleAfter(p, q, x, c.pool);
    NoneHeldHashed(c.pool, c.hash.lists, c.bucket);
  }

  /** Writing a block: getblk(), new contents, bwrite(). */
  method WriteBlock(c: Cache, k: Key, data: Data, m: Memory) returns (reply: Reply)
    requires Idle(c) && IsSize(k.2)
    modifies c, c.hash, c.free, c.dirt
    ensures Idle(c) && c.view == After(old(c.view), Write(k, data), reply)
    ensures (reply.Wait? || reply.Done?) && (reply.Wait? ==> !m.Enough() && NoneOf(old(c.pool), k.2))
  {
    hide Cache.Valid;
    hide Cache.Held;
    hide Hashed;
    hide HeldHashed;
    hide Only;
    hide NoneHeld;
    ghost var p := c.pool;
    c.Basics();
    var x := c.Getblk(k.0, k.1, k.2, m.grow, m.page, m.structs);
    c.Basics();
    if x == NULL {
      NoneHeldKept(p, c.pool);
      NobodyHolds(p, k);
      return Wait;
    }
    ghost var q := c.pool;
    c.Bwrite(x, data);
    IdleAfter(p, q, x, c.pool);
    NoneHeldHashed(c.pool, c.hash.lists, c.bucket);
    reply := Done;
  }

  method Serve(c: Cache, op: Op, m: Memory) returns (reply: Reply)
    requires Idle(c) && op.Sound()
    modifies c, c.hash, c.free, c.dirt
    ensures Idle(c) && c.view == After(old(c.view), op, reply) && Answers(old(c.view), op, reply)
    ensures reply.Wait? ==> !m.Enough() && !op.Sync? && NoneOf(old(c.pool), op.key.2)
    ensures op.Sync? ==> forall k: Key :: Wanted(op.dev, k.0) ==> Contents(c.disk, k) == Contents(c.view, k)
  {
    hide Cache.Valid;
    hide HeldHashed;
    hide Flushed;
    hide NoneHeld;
    hide Unlocked;
    match op
    case Read(k) =>
      reply := ReadBlock(c, k, m);
    case Write(k, data) =>
      reply := WriteBlock(c, k, data, m);
    case Sync(dev) =>
      ghost var p := c.pool;
      var done := SyncBuffers(c, dev);
      NoneHeldFlushed(p, c.pool, dev);
      reply := Done;
  }

  /**
    * Every run of reads, writes and syncs, each releasing its buffer, answers like the plain map. Nobody ever waits
    * while there is memory.
    */
  method Run(c: Cache, ops: seq<Op>, memory: seq<Memory>) returns (replies: seq<Reply>)
    requires Idle(c) && |memory| == |ops| && forall i :: 0 <= i < |ops| ==> ops[i].Sound()
    modifies c, c.hash, c.free, c.dirt
    ensures Idle(c) && |replies| == |ops| && c.view == AllAfter(old(c.view), ops, replies)
    ensures forall i :: 0 <= i < |ops| ==> Answers(AllAfter(old(c.view), ops[..i], replies[..i]), ops[i], replies[i])
    ensures forall i :: 0 <= i < |ops| ==> memory[i].Enough() ==> !replies[i].Wait?
  {
    hide Idle;
    replies := [];
    for n := 0 to |ops|
      invariant Idle(c) && |replies| == n && c.view == AllAfter(old(c.view), ops[..n], replies)
      invariant forall i :: 0 <= i < n ==> Answers(AllAfter(old(c.view), ops[..i], replies[..i]), ops[i], replies[i])
      invariant forall i :: 0 <= i < n ==> memory[i].Enough() ==> !replies[i].Wait?
    {
      var reply := Serve(c, ops[n], memory[n]);
      ghost var before := replies;
      replies := replies + [reply];
      assert ops[..n + 1][..n] == ops[..n] && replies[..n] == before;
      assert forall i :: 0 <= i < n ==> replies[..i] == before[..i];
    }
    assert ops[..|ops|] == ops;
  }
}
