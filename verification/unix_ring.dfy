/** The byte ring of an AF_UNIX endpoint as a value, and the copy steps on it (net/unix.c). */
module UnixRing {
  import opened Prelude

  const PIPE_BUF := 4096

  type Bytes = seq<bv8>

  datatype Ring = Ring(data: Bytes, r: nat, w: nat, size: nat)

  /** The states the offsets can be in: empty, in one piece, or wrapped around. */
  ghost predicate Inv(q: Ring) {
    && |q.data| == PIPE_BUF && q.r <= PIPE_BUF && q.w <= PIPE_BUF
    && (if q.size == 0 then (q.r == q.w && q.r < PIPE_BUF) || (q.r == PIPE_BUF && q.w == 0)
        else if q.r < q.w then q.size == q.w - q.r
        else q.r > 0 && q.w < PIPE_BUF && q.size == PIPE_BUF - q.r + q.w)
  }

  /** The bytes in the ring, oldest first. */
  ghost function Queue(q: Ring): (s: Bytes)
    requires Inv(q)
    ensures |s| == q.size <= PIPE_BUF
  {
    if q.size == 0 then [] else if q.r < q.w then q.data[q.r..q.w] else q.data[q.r..] + q.data[..q.w]
  }

  /** How many bytes can be read, and written, in one piece. */
  function ReadLimit(q: Ring): int {
    if q.w != 0 then if q.r >= q.w then PIPE_BUF - q.r else q.w - q.r else PIPE_BUF - q.r
  }

  function WriteLimit(q: Ring): int {
    (if q.r != 0 then if q.w <= q.r then q.r else PIPE_BUF else PIPE_BUF) - q.w
  }

  /** What one copy out of the ring moves, and the ring after it. */
  function ReadCount(q: Ring, count: nat): nat {
    if q.size > 0 && ReadLimit(q) > 0 then Min(ReadLimit(q), count) else 0
  }

  function AfterRead(q: Ring, n: nat): Ring {
    if n == 0 then q
    else Ring(q.data, q.r + n, if q.w == PIPE_BUF then 0 else q.w, if n <= q.size then q.size - n else 0)
  }

  function WriteCount(q: Ring, count: nat): nat {
    if WriteLimit(q) > 0 then Min(count, WriteLimit(q)) else 0
  }

  function AfterWrite(q: Ring, s: Bytes): Ring
    requires |q.data| == PIPE_BUF && q.w + |s| <= PIPE_BUF
  {
    if s == [] then q
    else Ring(q.data[..q.w] + s + q.data[q.w + |s|..], if q.r == PIPE_BUF then 0 else q.r, q.w + |s|, q.size + |s|)
  }

  /** The end of a read: an empty ring starts over. */
  function Restarted(q: Ring): Ring {
    if q.size == 0 then q.(r := 0, w := 0) else q
  }

  /** A read from a closing connection goes round the end of the ring. */
  function Wrapped(q: Ring): Ring {
    if q.size > 0 && q.r == PIPE_BUF then q.(r := 0) else q
  }

  lemma LimitsFit(q: Ring)
    requires Inv(q)
    ensures 0 <= ReadLimit(q) && 0 <= WriteLimit(q) <= PIPE_BUF - q.w
    ensures q.size > 0 ==> ReadLimit(q) <= q.size && q.r + ReadLimit(q) <= PIPE_BUF
  {
  }

  lemma ReadInv(q: Ring, n: nat)
    requires Inv(q) && n <= ReadCount(q, n)
    ensures n <= q.size && q.r + n <= PIPE_BUF && Inv(AfterRead(q, n))
  {
    LimitsFit(q);
  }

  /** The bytes of a ring that is not empty, by where its offsets are. */
  lemma InOnePiece(q: Ring)
    requires Inv(q) && q.size > 0 && q.r < q.w
    ensures Queue(q) == q.data[q.r..q.w]
  {
  }

  lemma InTwoPieces(q: Ring)
    requires Inv(q) && q.size > 0 && q.r >= q.w
    ensures Queue(q) == q.data[q.r..] + q.data[..q.w]
  {
  }

  lemma Emptied(q: Ring)
    requires Inv(q) && q.size == 0
    ensures Queue(q) == []
  {
  }

  /** A copy out of one piece. */
  lemma ReadOnePiece(q: Ring, n: nat)
    requires Inv(q) && 0 < n <= ReadCount(q, n) && q.r < q.w
    ensures Inv(AfterRead(q, n)) && q.r + n <= q.w && Queue(AfterRead(q, n)) == q.data[q.r + n..q.w]
  {
    hide Queue;
    ReadInv(q, n);
    LimitsFit(q);
    var q' := AfterRead(q, n);
    if q'.size == 0 {
      Emptied(q');
    } else if q.w == PIPE_BUF {
      InTwoPieces(q');
      assert q'.data[q'.r..] + q'.data[..0] == q.data[q.r + n..q.w];
    } else {
      InOnePiece(q');
    }
  }

  /** A copy out of the first of two pieces. */
  lemma ReadFirstPiece(q: Ring, n: nat)
    requires Inv(q) && 0 < n <= ReadCount(q, n) && q.r >= q.w
    ensures Inv(AfterRead(q, n)) && q.r + n <= PIPE_BUF && Queue(AfterRead(q, n)) == q.data[q.r + n..] + q.data[..q.w]
  {
    hide Queue;
    ReadInv(q, n);
    LimitsFit(q);
    var q' := AfterRead(q, n);
    if q'.size == 0 {
      Emptied(q');
      assert q.data[q.r + n..] + q.data[..q.w] == [];
    } else {
      InTwoPieces(q');
    }
  }

  lemma CutOne(d: Bytes, r: nat, n: nat, w: nat)
    requires r + n <= w <= |d|
    ensures d[r..w][..n] == d[r..r + n] && d[r..w][n..] == d[r + n..w]
  {
  }

  lemma CutTwo(d: Bytes, r: nat, n: nat, w: nat)
    requires r + n <= |d| && w <= |d|
    ensures (d[r..] + d[..w])[..n] == d[r..r + n] && (d[r..] + d[..w])[n..] == d[r + n..] + d[..w]
  {
  }

  lemma NothingRead(q: Ring)
    requires Inv(q)
    ensures AfterRead(q, 0) == q && Queue(q)[0..] == Queue(q) && Queue(q)[..0] == [] && q.data[q.r..q.r] == []
  {
    hide Queue;
  }

  /** A copy out takes the oldest bytes. */
  lemma ReadTakesOldest(q: Ring, n: nat)
    requires Inv(q) && n <= ReadCount(q, n)
    ensures n <= q.size && q.r + n <= PIPE_BUF && Inv(AfterRead(q, n))
    ensures Queue(q)[..n] == q.data[q.r..q.r + n] && Queue(AfterRead(q, n)) == Queue(q)[n..]
  {
    hide Queue;
    hide AfterRead;
    ReadInv(q, n);
    if n > 0 {
      if q.r < q.w {
        ReadOnePiece(q, n);
        InOnePiece(q);
        CutOne(q.data, q.r, n, q.w);
      } else {
        ReadFirstPiece(q, n);
        InTwoPieces(q);
        CutTwo(q.data, q.r, n, q.w);
      }
    } else {
      NothingRead(q);
    }
  }

  lemma WriteInv(q: Ring, s: Bytes)
    requires Inv(q) && |s| <= WriteCount(q, |s|)
    ensures q.w + |s| <= PIPE_BUF && Inv(AfterWrite(q, s))
  {
    LimitsFit(q);
  }

  lemma WriteFits(q: Ring, s: Bytes)
    requires Inv(q) && 0 < |s| <= WriteLimit(q)
    ensures |q.data| == PIPE_BUF && q.w + |s| <= PIPE_BUF && q.r <= PIPE_BUF && Inv(AfterWrite(q, s))
  {
    WriteInv(q, s);
  }

  /** What a copy in writes, and what it leaves. */
  lemma WrittenData(q: Ring, s: Bytes)
    requires |q.data| == PIPE_BUF && q.w + |s| <= PIPE_BUF && s != []
    ensures var d := AfterWrite(q, s).data;
      |d| == PIPE_BUF && d[..q.w] == q.data[..q.w] && d[q.w..q.w + |s|] == s && d[q.w + |s|..] == q.data[q.w + |s|..]
  {
  }

  /** A copy in behind bytes in one piece, or into an empty ring. */
  lemma WriteOnePiece(q: Ring, s: Bytes)
    requires Inv(q) && 0 < |s| <= WriteCount(q, |s|) && (q.size == 0 || q.r < q.w)
    ensures Inv(AfterWrite(q, s)) && Queue(AfterWrite(q, s)) == Queue(q) + s
  {
    hide Queue;
    WriteInv(q, s);
    WrittenData(q, s);
    var q' := AfterWrite(q, s);
    InOnePiece(q');
    var d, a, m, e := q'.data, q'.r, q.w, q'.w;
    assert d[a..e] == d[..m][a..m] + d[m..e];
    if q.size == 0 {
      Emptied(q);
      assert d[..m][a..m] == [];
    } else {
      InOnePiece(q);
      assert q.data[..m][a..m] == q.data[a..m];
    }
  }

  /** A copy in behind the second of two pieces. */
  lemma WriteSecondPiece(q: Ring, s: Bytes)
    requires Inv(q) && 0 < |s| <= WriteCount(q, |s|) && q.size > 0 && q.r >= q.w
    ensures Inv(AfterWrite(q, s)) && Queue(AfterWrite(q, s)) == Queue(q) + s
  {
    hide Queue;
    WriteInv(q, s);
    WrittenData(q, s);
    LimitsFit(q);
    var q' := AfterWrite(q, s);
    var d, m, e := q'.data, q.w, q'.w;
    InTwoPieces(q);
    assert d[..e] == d[..m] + d[m..e];
    if q.r == PIPE_BUF {
      InOnePiece(q');
      assert q.data[q.r..] == [];
      assert Queue(q) == q.data[..m];
      assert d[0..e] == d[..e];
    } else {
      InTwoPieces(q');
      Behind(d, q.data, e, q.r);
    }
  }

  lemma Behind(d: Bytes, c: Bytes, e: nat, r: nat)
    requires |d| == |c| && e <= r <= |d| && d[e..] == c[e..]
    ensures d[r..] == c[r..]
  {
    assert d[r..] == d[e..][r - e..];
    assert c[r..] == c[e..][r - e..];
  }

  /** A copy in adds its bytes behind all others. */
  lemma WriteAppends(q: Ring, s: Bytes)
    requires Inv(q) && |s| <= WriteCount(q, |s|)
    ensures q.w + |s| <= PIPE_BUF && Inv(AfterWrite(q, s)) && Queue(AfterWrite(q, s)) == Queue(q) + s
  {
    hide Queue;
    WriteInv(q, s);
    if s == [] {
      assert Queue(q) + s == Queue(q);
    } else if q.size == 0 || q.r < q.w {
      WriteOnePiece(q, s);
    } else {
      WriteSecondPiece(q, s);
    }
  }

  lemma RestartKeeps(q: Ring)
    requires Inv(q)
    ensures Inv(Restarted(q)) && Queue(Restarted(q)) == Queue(q)
  {
  }

  lemma WrapKeeps(q: Ring)
    requires Inv(q)
    ensures Inv(Wrapped(q)) && Queue(Wrapped(q)) == Queue(q)
  {
    if q.size > 0 && q.r == PIPE_BUF {
      assert Queue(Wrapped(q)) == q.data[0..q.w];
      assert Queue(q) == q.data[..q.w];
    }
  }

  /** Nothing can be read in one piece from a ring with bytes in it exactly when the read offset is at the end. */
  lemma StuckReadIff(q: Ring)
    requires Inv(q) && q.size > 0
    ensures ReadLimit(q) == 0 <==> q.r == PIPE_BUF
    ensures ReadLimit(q) == 0 ==> q.w > 0
  {
  }

  /** Nothing can be written exactly when the ring is full, or drained but not started over, or filled to its end. */
  lemma StuckWriteIff(q: Ring)
    requires Inv(q)
    ensures WriteLimit(q) == 0 <==> (q.r == q.w && q.r > 0) || q.w == PIPE_BUF
    ensures q.size == PIPE_BUF ==> WriteLimit(q) == 0
  {
  }

  // ---- every interleaving of a reader and a writer ----

  datatype Event = Read(n: nat) | Write(s: Bytes) | Restart | Wrap

  /** The ring and everything that has been written to it and read from it. */
  datatype World = World(ring: Ring, written: Bytes, read: Bytes)

  ghost predicate Next(x: World, e: Event, x': World) {
    var q := x.ring;
    match e
    case Read(n) =>
      && n <= ReadCount(q, n) && q.r + n <= |q.data|
      && x' == World(AfterRead(q, n), x.written, x.read + q.data[q.r..q.r + n])
    case Write(s) =>
      && |s| <= WriteCount(q, |s|) && |q.data| == PIPE_BUF && q.w + |s| <= PIPE_BUF
      && x' == World(AfterWrite(q, s), x.written + s, x.read)
    case Restart => x' == x.(ring := Restarted(q))
    case Wrap => x' == x.(ring := Wrapped(q))
  }

  ghost predicate Fifo(x: World) {
    Inv(x.ring) && x.written == x.read + Queue(x.ring)
  }

  lemma Rejoined(a: Bytes, b: Bytes, n: nat)
    requires n <= |b|
    ensures a + b == a + b[..n] + b[n..]
  {
  }

  lemma StepFifo(x: World, e: Event, x': World)
    requires Fifo(x) && Next(x, e, x')
    ensures Fifo(x')
  {
    hide Inv;
    hide Queue;
    hide ReadCount;
    hide WriteCount;
    hide AfterRead;
    hide AfterWrite;
    match e
    case Read(n) =>
      ReadTakesOldest(x.ring, n);
      Rejoined(x.read, Queue(x.ring), n);
    case Write(s) =>
      WriteAppends(x.ring, s);
      assert x.read + (Queue(x.ring) + s) == x.read + Queue(x.ring) + s;
    case Restart =>
      RestartKeeps(x.ring);
    case Wrap =>
      WrapKeeps(x.ring);
  }

  ghost predicate Run(xs: seq<World>, es: seq<Event>) {
    |xs| == |es| + 1 && forall i :: 0 <= i < |es| ==> Next(xs[i], es[i], xs[i + 1])
  }

  /**
    * However copies in and out and resets of the offsets are interleaved, what was read is a prefix of what was
    * written and the ring holds the rest.
    */
  lemma {:induction false} RunFifo(xs: seq<World>, es: seq<Event>)
    requires Run(xs, es) && Fifo(xs[0])
    ensures Fifo(xs[|es|])
  {
    if es != [] {
      var n := |es| - 1;
      RunFifo(xs[..n + 1], es[..n]);
      StepFifo(xs[n], es[n], xs[n + 1]);
    }
  }

  // ---- a reader that gets nothing ----

  const FRESH := Ring(seq(PIPE_BUF, _ => 0), 0, 0, 0)

  /** The ring filled, one byte read, one more written, and all up to the end read. */
  lemma StuckRun(a: Bytes, b: bv8) returns (xs: seq<World>)
    requires |a| == PIPE_BUF
    ensures Run(xs, [Write(a), Read(1), Write([b]), Read(4095)]) && xs[0] == World(FRESH, [], [])
    ensures xs[4].ring.r == PIPE_BUF && xs[4].ring.w == 1 && xs[4].ring.size == 1 && |xs[4].ring.data| == PIPE_BUF
    ensures xs[4].ring.data[0] == b
  {
    var x0 := World(FRESH, [], []);
    var x1 := World(AfterWrite(FRESH, a), x0.written + a, []);
    var x2 := World(AfterRead(x1.ring, 1), x1.written, x1.read + x1.ring.data[0..1]);
    var x3 := World(AfterWrite(x2.ring, [b]), x2.written + [b], x2.read);
    var x4 := World(AfterRead(x3.ring, 4095), x3.written, x3.read + x3.ring.data[1..4096]);
    xs := [x0, x1, x2, x3, x4];
    var es := [Write(a), Read(1), Write([b]), Read(4095)];
    assert Next(x0, es[0], x1);
    assert Next(x1, es[1], x2);
    assert Next(x2, es[2], x3);
    assert Next(x3, es[3], x4);
  }

  /** Then a byte is in the ring, and no read gets it however many bytes it asks for. */
  lemma StuckReadHappens(a: Bytes, b: bv8, count: nat) returns (xs: seq<World>)
    requires |a| == PIPE_BUF
    ensures Run(xs, [Write(a), Read(1), Write([b]), Read(4095)]) && xs[0] == World(FRESH, [], [])
    ensures Inv(xs[4].ring) && Queue(xs[4].ring) == [b] && ReadCount(xs[4].ring, count) == 0
  {
    hide Queue;
    hide Next;
    xs := StuckRun(a, b);
    var q := xs[4].ring;
    InTwoPieces(q);
    assert q.data[PIPE_BUF..] + q.data[..1] == [b];
  }
}
