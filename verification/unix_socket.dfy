/** unix_read() and unix_write() over the ring of an endpoint (net/unix.c). */
module UnixSocket {
  import opened Prelude
  import opened UnixRing

  datatype State = Connected | Disconnecting | Unconnected

  /** `Sleeping(n)` is a caller that goes to sleep with `n` bytes copied. */
  datatype Outcome = Done(n: nat) | Sleeping(n: nat) | Again | Invalid | BrokenPipe

  /** What one read from a connected socket can return at most: it does not go round the end of the ring. */
  function FirstPiece(q: Ring): int {
    if q.size == 0 then 0 else ReadLimit(q)
  }

  lemma FirstPieceFits(q: Ring)
    requires Inv(q)
    ensures 0 <= FirstPiece(q) <= q.size
  {
    LimitsFit(q);
  }

  /** After the first piece there is nothing to copy. */
  lemma OnePiece(q: Ring, n: nat)
    requires Inv(q) && 0 < n <= FirstPiece(q)
    ensures n == FirstPiece(q) ==> FirstPiece(AfterRead(q, n)) == 0
    ensures n <= ReadCount(q, n)
  {
    LimitsFit(q);
  }

  lemma WriteOnce(q: Ring, s: Bytes)
    requires Inv(q) && |s| == WriteLimit(q)
    ensures q.w + |s| <= PIPE_BUF && WriteLimit(AfterWrite(q, s)) == 0
  {
    LimitsFit(q);
  }

  /** memcpy_b() between two buffers. */
  method CopyBytes(src: array<bv8>, from: nat, dst: array<bv8>, to: nat, n: nat)
    requires src != dst && from + n <= src.Length && to + n <= dst.Length
    modifies dst
    ensures dst[..] == old(dst[..to]) + src[from..from + n] + old(dst[to + n..])
  {
    for i := 0 to n
      invariant dst[..to] == old(dst[..to]) && dst[to + n..] == old(dst[to + n..])
      invariant dst[to..to + i] == src[from..from + i]
    {
      dst[to + i] := src[from + i];
      assert dst[to..to + i + 1] == dst[to..to + i] + [dst[to + i]];
      assert src[from..from + i + 1] == src[from..from + i] + [src[from + i]];
    }
    assert dst[..] == dst[..to] + dst[to..to + n] + dst[to + n..];
  }

  /** Of all the bytes there were, the first `n` are in the buffer and the others still in the ring. */
  ghost predicate Copied(all: Bytes, n: nat, buffer: Bytes, queue: Bytes) {
    n <= |all| && n <= |buffer| && buffer[..n] == all[..n] && queue == all[n..]
  }

  /** What becomes of a read that can copy nothing more. */
  datatype Verdict = GoOn | Leave | Return(outcome: Outcome)

  function Stuck(state: State, nonblock: bool, size: nat, writeoff: nat, done: nat): Verdict {
    if state == Disconnecting then if size > 0 then GoOn else Return(Done(done))
    else if state == Unconnected then Return(Invalid)
    else if writeoff != 0 then Leave
    else if !nonblock then Return(Sleeping(done))
    else if done > 0 then Leave
    else Return(Again)
  }

  class Endpoint {
    const data: array<bv8>
    var readoff: nat
    var writeoff: nat
    var size: nat

    constructor ()
      ensures Valid() && Queue(View()) == [] && fresh(data)
    {
      data := new bv8[PIPE_BUF];
      readoff, writeoff, size := 0, 0, 0;
    }

    function View(): Ring
      reads this, data
    {
      Ring(data[..], readoff, writeoff, size)
    }

    ghost predicate Valid()
      reads this, data
    {
      data.Length == PIPE_BUF && Inv(View())
    }

    /** One copy out of the ring. */
    method CopyOut(buffer: array<bv8>, at: nat, n: nat)
      requires Valid() && buffer != data && at + n <= buffer.Length && 0 < n <= FirstPiece(View())
      modifies this, buffer
      ensures Valid() && View() == AfterRead(old(View()), n)
      ensures buffer[..at] == old(buffer[..at]) && buffer[at..at + n] == old(Queue(View()))[..n]
    {
      OnePiece(View(), n);
      ReadTakesOldest(View(), n);
      hide Inv;
      hide Queue;
      hide FirstPiece;
      CopyBytes(data, readoff, buffer, at, n);
      readoff := readoff + n;
      size := size - n;
      if writeoff == PIPE_BUF {
        writeoff := 0;
      }
    }

    /** One copy into the ring. */
    method CopyIn(buffer: array<bv8>, at: nat, n: nat)
      requires Valid() && buffer != data && at + n <= buffer.Length && 0 < n <= WriteLimit(View())
      modifies this, data
      ensures Valid() && |old(View().data)| == PIPE_BUF && old(View().w) + n <= PIPE_BUF
      ensures View() == AfterWrite(old(View()), buffer[at..at + n])
    {
      hide Inv;
      hide Queue;
      hide WriteLimit;
      WriteFits(View(), buffer[at..at + n]);
      CopyBytes(buffer, at, data, writeoff, n);
      writeoff := writeoff + n;
      size := size + n;
      if readoff == PIPE_BUF {
        readoff := 0;
      }
    }

    method CopyMore(buffer: array<bv8>, at: nat, n: nat, ghost all: Bytes)
      requires Valid() && buffer != data && at + n <= buffer.Length && 0 < n <= FirstPiece(View())
      requires Copied(all, at, buffer[..], Queue(View()))
      modifies this, buffer
      ensures Valid() && View() == AfterRead(old(View()), n) && Copied(all, at + n, buffer[..], Queue(View()))
    {
      FirstPieceFits(View());
      ReadTakesOldest(View(), n);
      hide Inv;
      hide Queue;
      hide FirstPiece;
      hide AfterRead;
      CopyOut(buffer, at, n);
      Longer(buffer[..], all, at, n);
    }

    /** The end of a read. */
    method Restart()
      requires Valid()
      modifies this
      ensures Valid() && Queue(View()) == old(Queue(View()))
    {
      RestartKeeps(View());
      if size == 0 {
        readoff, writeoff := 0, 0;
      }
    }

    /**
      * unix_read(): the oldest bytes are copied out. From a connected socket at most one piece, and nothing at all
      * although there are bytes exactly when the read offset is at the end of the ring; from a closing one everything
      * asked for.
      */
    method UnixRead(buffer: array<bv8>, count: nat, state: State, nonblock: bool) returns (r: Outcome, ghost n: nat)
      requires Valid() && buffer != data && count <= buffer.Length
      modifies this, buffer
      ensures Valid() && n <= count && n <= |old(Queue(View()))|
      ensures buffer[..n] == old(Queue(View()))[..n] && Queue(View()) == old(Queue(View()))[n..]
      ensures state == Disconnecting ==> r == Done(n) && n == Min(count, |old(Queue(View()))|)
      ensures state != Disconnecting ==> n == Min(count, FirstPiece(old(View())))
      ensures state == Connected ==>
        r == Done(n) || (r == Again && nonblock && n == 0) || (r == Sleeping(n) && !nonblock && n < count)
      ensures state == Unconnected ==> r == if n == count then Done(n) else Invalid
      ensures state == Connected && count > 0 && old(size) > 0 ==> (r == Done(0) <==> old(readoff) == PIPE_BUF)
    {
      ghost var q, all := View(), Queue(View());
      PhaseStart(q, count);
      var done, left, verdict := ReadLoop(buffer, count, state, nonblock);
      r, n := Done(done), done;
      if verdict.Return? {
        r := verdict.outcome;
      } else {
        hide Inv;
        hide Queue;
        hide FirstPiece;
        Restart();
      }
    }

    /** The loop of unix_read(), up to where it is left. */
    method ReadLoop(buffer: array<bv8>, count: nat, state: State, nonblock: bool)
      returns (done: nat, left: nat, verdict: Verdict)
      requires Valid() && buffer != data && count <= buffer.Length
      modifies this, buffer
      ensures Valid() && done + left == count && Copied(old(Queue(View())), done, buffer[..], Queue(View()))
      ensures left == 0 ==> verdict == Leave
      ensures left > 0 ==>
        && verdict == Stuck(state, nonblock, size, writeoff, done) && verdict != GoOn
        && (state == Disconnecting ==> size == 0)
      ensures state != Disconnecting ==>
        Phase(old(View()), View(), done, left) && (left > 0 ==> done == FirstPiece(old(View())))
    {
      hide Inv;
      hide Queue;
      hide Phase;
      hide FirstPiece;
      hide ReadLimit;
      hide AfterRead;
      hide Copied;
      hide View;
      ghost var q, all := View(), Queue(View());
      PhaseStart(q, count);
      left, done, verdict := count, 0, Leave;
      CopiedNone(all, buffer[..]);
      while left > 0
        invariant Valid() && done + left == count && Copied(all, done, buffer[..], Queue(View()))
        invariant state != Disconnecting ==> Phase(q, View(), done, left)
        decreases left, if readoff == PIPE_BUF then 1 else 0
      {
        var k;
        k, verdict := ReadTurn(buffer, done, left, state, nonblock, q, all);
        if verdict != GoOn {
          return;
        }
        done := done + k;
        left := left - k;
      }
      verdict := Leave;
    }

    /** One turn of the loop: a copy, or what to do when there is nothing to copy. */
    method ReadTurn(buffer: array<bv8>, done: nat, left: nat, state: State, nonblock: bool, ghost q: Ring,
                    ghost all: Bytes)
      returns (k: nat, verdict: Verdict)
      requires Valid() && Inv(q) && buffer != data && left > 0 && done + left <= buffer.Length
      requires Copied(all, done, buffer[..], Queue(View())) && (state != Disconnecting ==> Phase(q, View(), done, left))
      modifies this, buffer
      ensures Valid() && k <= left && Copied(all, done + k, buffer[..], Queue(View()))
      ensures state != Disconnecting ==> Phase(q, View(), done + k, left - k)
      ensures verdict == GoOn ==> k > 0 || (old(readoff) == PIPE_BUF && readoff == 0)
      ensures verdict != GoOn ==>
        k == 0 && verdict == Stuck(state, nonblock, size, writeoff, done) && (state == Disconnecting ==> size == 0)
      ensures verdict != GoOn && state != Disconnecting ==> done == FirstPiece(q)
    {
      hide Inv;
      hide Queue;
      hide Phase;
      hide FirstPiece;
      hide ReadLimit;
      hide AfterRead;
      hide Copied;
      LimitsFit(View());
      k := Min(ReadLimit(View()), left);
      if size > 0 && k > 0 {
        PhaseStep(q, View(), done, k, left);
        CopyMore(buffer, done, k, all);
        verdict := GoOn;
      } else {
        PhaseOver(q, View(), done, left);
        k := 0;
        verdict := Stuck(state, nonblock, size, writeoff, done);
        if verdict == GoOn {
          WrapKeeps(View());
          if readoff == PIPE_BUF {
            readoff := 0;
          }
        }
      }
    }

    /** unix_write(): as many bytes as fit in one piece are added behind the others. */
    method UnixWrite(buffer: array<bv8>, count: nat, state: State, nonblock: bool) returns (r: Outcome, ghost n: nat)
      requires Valid() && buffer != data && count <= buffer.Length
      modifies this, data
      ensures Valid() && n <= count && Queue(View()) == old(Queue(View())) + buffer[..n]
      ensures n == if state == Connected then Min(count, WriteLimit(old(View()))) else 0
      ensures state != Connected && count > 0 ==> r == if state == Disconnecting then BrokenPipe else Invalid
      ensures state == Connected ==>
        r == if n == count then Done(n) else if !nonblock then Sleeping(n) else if n > 0 then Done(n) else Again
    {
      hide Inv;
      hide Queue;
      hide AfterWrite;
      hide WriteCount;
      ghost var q, all := View(), Queue(View());
      LimitsFit(q);
      var done: nat := 0;
      while done < count
        invariant Valid() && done <= count && Queue(View()) == all + buffer[..done]
        invariant done == 0 ==> View() == q
        invariant done > 0 ==> state == Connected && done == Min(count, WriteLimit(q))
        invariant 0 < done < count ==> WriteLimit(View()) == 0
      {
        if state != Connected {
          return if state == Disconnecting then BrokenPipe else Invalid, done;
        }
        LimitsFit(View());
        var k := Min(count - done, WriteLimit(View()));
        if k > 0 && k <= PIPE_BUF {
          WriteOnceIf(View(), buffer[done..done + k], count - done);
          WriteAppends(View(), buffer[done..done + k]);
          CopyIn(buffer, done, k);
          assert buffer[..done + k] == buffer[..done] + buffer[done..done + k];
          done := done + k;
          continue;
        }
        if !nonblock {
          return Sleeping(done), done;
        }
        return if done > 0 then Done(done) else Again, done;
      }
      return Done(done), done;
    }
  }

  /** How far a read that stops at the end of the first piece has come. */
  ghost predicate Phase(q: Ring, now: Ring, done: nat, left: nat) {
    now == AfterRead(q, done) && done <= FirstPiece(q) && (done == 0 || left == 0 || done == FirstPiece(q))
  }

  lemma PhaseStart(q: Ring, left: nat)
    requires Inv(q)
    ensures Phase(q, q, 0, left) && 0 <= FirstPiece(q) <= q.size
    ensures q.size > 0 ==> (FirstPiece(q) == 0 <==> q.r == PIPE_BUF)
    ensures q.size > 0 && q.r == PIPE_BUF ==> q.w > 0
  {
    LimitsFit(q);
  }

  lemma PhaseStep(q: Ring, now: Ring, done: nat, k: nat, left: nat)
    requires Inv(q) && Inv(now) && now.size > 0 && 0 < k == Min(ReadLimit(now), left)
    ensures k <= FirstPiece(now) && k <= now.size && Inv(AfterRead(now, k))
    ensures Queue(AfterRead(now, k)) == Queue(now)[k..]
    ensures Phase(q, now, done, left) ==> Phase(q, AfterRead(now, k), done + k, left - k)
  {
    LimitsFit(now);
    OnePiece(now, k);
    ReadTakesOldest(now, k);
    if Phase(q, now, done, left) && done > 0 {
      OnePiece(q, done);
    }
  }

  lemma PhaseOver(q: Ring, now: Ring, done: nat, left: nat)
    requires Inv(q) && Inv(now) && left > 0 && (now.size == 0 || Min(ReadLimit(now), left) == 0)
    ensures now.size > 0 ==> now.r == PIPE_BUF && now.w > 0
    ensures Phase(q, now, done, left) ==> done == FirstPiece(q) && (now.size > 0 && done == 0 ==> now == q)
  {
    if now.size > 0 {
      StuckReadIff(now);
    }
  }

  lemma CopiedNone(all: Bytes, buffer: Bytes)
    ensures Copied(all, 0, buffer, all)
  {
  }

  lemma Longer(a: Bytes, b: Bytes, n: nat, k: nat)
    requires n + k <= |a| && n + k <= |b| && a[..n] == b[..n] && a[n..n + k] == b[n..][..k]
    ensures a[..n + k] == b[..n + k] && b[n..][k..] == b[n + k..]
  {
    assert a[..n + k] == a[..n] + a[n..n + k];
    assert b[..n + k] == b[..n] + b[n..][..k];
  }

  lemma WriteOnceIf(q: Ring, s: Bytes, left: nat)
    requires Inv(q) && |s| == Min(left, WriteLimit(q))
    ensures q.w + |s| <= PIPE_BUF && (|s| < left ==> WriteLimit(AfterWrite(q, s)) == 0) && |s| <= WriteCount(q, |s|)
  {
    LimitsFit(q);
    if |s| < left {
      WriteOnce(q, s);
    }
  }
}
