/** The queues of connections that listeners have not yet accepted (net/socket.c). */
module Backlog {
  import opened Links
  import opened Chains

  /** Who waits in whose queue, in the order they connected; the keys are the open sockets. */
  type Queues = map<Ptr, seq<Ptr>>

  /** The fields queue_head, next_queue, pending_in and queue_len of all open sockets. */
  datatype Fields = Fields(head: map<Ptr, Ptr>, next: map<Ptr, Ptr>, pending: map<Ptr, Ptr>, len: map<Ptr, int>)
  {
    ghost predicate Covers(open: set<Ptr>) {
      head.Keys == next.Keys == pending.Keys == len.Keys == open
    }
  }

  /** Each queue is a proper list of the recorded length. */
  ghost predicate Chained(f: Fields, qs: Queues) {
    f.Covers(qs.Keys) && forall ss :: ss in qs ==> Path(qs[ss], f.head[ss], f.next, NULL) && f.len[ss] == |qs[ss]|
  }

  /** A socket waits exactly where its back pointer says; everybody in a queue is open. */
  ghost predicate Backed(pending: map<Ptr, Ptr>, qs: Queues) {
    && NULL !in qs && (forall x :: x in qs <==> x in pending)
    && (forall ss, x {:trigger x in qs[ss]} :: ss in qs && x in qs[ss] ==> x in qs && pending[x] == ss)
    && (forall x :: x in qs && pending[x] != NULL ==> pending[x] in qs && x in qs[pending[x]])
  }

  ghost predicate Matches(f: Fields, qs: Queues) {
    Chained(f, qs) && Backed(f.pending, qs)
  }

  /** The fields describe some queues. */
  ghost predicate Proper(f: Fields) {
    exists qs :: Matches(f, qs)
  }

  lemma ProperBy(f: Fields, qs: Queues)
    requires Matches(f, qs)
    ensures Proper(f)
  {
  }

  lemma Facts(f: Fields, qs: Queues, ss: Ptr)
    requires Matches(f, qs) && ss in qs
    ensures f.Covers(qs.Keys) && f.len[ss] == |qs[ss]| && ss != NULL
    ensures Path(qs[ss], f.head[ss], f.next, NULL) && Distinct(qs[ss]) && NULL !in qs[ss]
    ensures f.head[ss] == if qs[ss] == [] then NULL else qs[ss][0]
    ensures forall x :: x in qs[ss] ==> x in qs && x in f.next && x in f.pending && f.pending[x] == ss
    ensures ss in f.head && ss in f.next && ss in f.pending && ss in f.len
  {
    PathStart(qs[ss], f.head[ss], f.next, NULL);
    hide Path;
  }

  lemma Pending(pending: map<Ptr, Ptr>, qs: Queues, x: Ptr)
    requires Backed(pending, qs) && x in qs
    ensures x in pending && (pending[x] == NULL ==> forall ss :: ss in qs ==> x !in qs[ss])
    ensures pending[x] != NULL ==> pending[x] in qs && x in qs[pending[x]]
    ensures forall ss :: ss in qs && x in qs[ss] ==> pending[x] == ss
  {
  }

  /** Queues of different listeners share no socket. */
  lemma Apart(pending: map<Ptr, Ptr>, qs: Queues, s: Ptr, t: Ptr, x: Ptr)
    requires Backed(pending, qs) && s in qs && t in qs && s != t && x in qs[s]
    ensures x !in qs[t]
  {
  }

  /** The first in the queue leaves it. */
  function Popped(f: Fields, ss: Ptr): Fields
    requires ss in f.head && f.head[ss] in f.next && ss in f.len
  {
    var sc := f.head[ss];
    f.(head := f.head[ss := f.next[sc]], len := f.len[ss := f.len[ss] - 1], next := f.next[sc := NULL],
      pending := f.pending[sc := NULL])
  }

  lemma PoppedMatches(f: Fields, qs: Queues, ss: Ptr)
    requires Matches(f, qs) && ss in qs && qs[ss] != []
    ensures f.Covers(qs.Keys) && f.head[ss] == qs[ss][0] && qs[ss][0] in qs
    ensures Matches(Popped(f, ss), qs[ss := qs[ss][1..]])
  {
    hide Path;
    Facts(f, qs, ss);
    assert qs[ss][0] in qs[ss];
    assert Chained(Popped(f, ss), qs[ss := qs[ss][1..]]) by {
      PoppedChained(f, qs, ss);
    }
    assert Backed(Popped(f, ss).pending, qs[ss := qs[ss][1..]]) by {
      PoppedBacked(f.pending, qs, ss);
    }
  }

  lemma PoppedChained(f: Fields, qs: Queues, ss: Ptr)
    requires Chained(f, qs) && Backed(f.pending, qs) && ss in qs && qs[ss] != [] && f.head[ss] == qs[ss][0]
    requires qs[ss][0] in qs
    ensures Chained(Popped(f, ss), qs[ss := qs[ss][1..]])
  {
    hide Path;
    hide Backed;
    var q, sc := qs[ss], qs[ss][0];
    var f', qs' := Popped(f, ss), qs[ss := qs[ss][1..]];
    assert f'.Covers(qs'.Keys);
    forall s | s in qs' ensures Path(qs'[s], f'.head[s], f'.next, NULL) {
      PathStart(qs[s], f.head[s], f.next, NULL);
      if s == ss {
        PathPop(q, f.head[ss], f.next, NULL, f'.head[ss], f'.next);
      } else {
        Apart(f.pending, qs, ss, s, sc);
        PathFrame(qs[s], f.head[s], f.next, NULL, f'.next);
      }
    }
  }

  lemma PoppedBacked(pending: map<Ptr, Ptr>, qs: Queues, ss: Ptr)
    requires Backed(pending, qs) && ss in qs && qs[ss] != [] && Distinct(qs[ss]) && qs[ss][0] in qs
    ensures Backed(pending[qs[ss][0] := NULL], qs[ss := qs[ss][1..]])
  {
    var q := qs[ss];
    assert q == [q[0]] + q[1..];
    assert forall x :: x in q[1..] <==> x in q && x != q[0];
    var qs', pending' := qs[ss := q[1..]], pending[q[0] := NULL];
    assert q[0] in qs[ss];
    assert forall s, x {:trigger x in qs'[s]} :: s in qs && x in qs'[s] ==> x in qs[s] && x != q[0];
    forall x | x in qs' && pending'[x] != NULL ensures pending'[x] in qs' && x in qs'[pending'[x]] {
      assert x in qs[pending[x]];
    }
  }

  /** A socket goes to the end of a queue whose last is `tail`, or starts it. */
  function Appended(f: Fields, ss: Ptr, tail: Ptr, sc: Ptr): Fields
    requires ss in f.len
  {
    f.(head := if tail == NULL then f.head[ss := sc] else f.head,
       next := if tail == NULL then f.next[sc := NULL] else f.next[tail := sc][sc := NULL],
       pending := f.pending[sc := ss], len := f.len[ss := f.len[ss] + 1])
  }

  function Last(q: seq<Ptr>): Ptr {
    if q == [] then NULL else q[|q| - 1]
  }

  lemma LastIn(q: seq<Ptr>)
    requires NULL !in q
    ensures Last(q) == NULL <==> q == []
    ensures q != [] ==> Last(q) in q
  {
  }

  lemma AppendedMatches(f: Fields, qs: Queues, ss: Ptr, sc: Ptr)
    requires Matches(f, qs) && ss in qs && sc in qs && f.pending[sc] == NULL
    ensures Matches(Appended(f, ss, Last(qs[ss]), sc), qs[ss := qs[ss] + [sc]])
  {
    hide Path;
    hide Last;
    var f', qs' := Appended(f, ss, Last(qs[ss]), sc), qs[ss := qs[ss] + [sc]];
    assert Chained(f', qs') by {
      AppendedChained(f, qs, ss, sc);
    }
    assert Backed(f'.pending, qs') by {
      AppendedBacked(f.pending, qs, ss, sc);
    }
  }

  lemma AppendedChained(f: Fields, qs: Queues, ss: Ptr, sc: Ptr)
    requires Chained(f, qs) && Backed(f.pending, qs) && ss in qs && sc in qs && f.pending[sc] == NULL
    ensures Chained(Appended(f, ss, Last(qs[ss]), sc), qs[ss := qs[ss] + [sc]])
  {
    hide Path;
    hide Backed;
    hide Last;
    hide Fields.Covers;
    var q := qs[ss];
    AppendedCovers(f, qs, ss, sc);
    var f', qs' := Appended(f, ss, Last(q), sc), qs[ss := q + [sc]];
    forall s | s in qs' ensures s in f'.head && Path(qs'[s], f'.head[s], f'.next, NULL) {
      AppendedPath(f, qs, ss, sc, s);
    }
  }

  lemma AppendedCovers(f: Fields, qs: Queues, ss: Ptr, sc: Ptr)
    requires Chained(f, qs) && Backed(f.pending, qs) && ss in qs && sc in qs
    ensures ss in f.len && Appended(f, ss, Last(qs[ss]), sc).Covers(qs[ss := qs[ss] + [sc]].Keys)
  {
    hide Path;
    PathStart(qs[ss], f.head[ss], f.next, NULL);
    LastIn(qs[ss]);
    assert qs[ss := qs[ss] + [sc]].Keys == qs.Keys;
  }

  lemma AppendedPath(f: Fields, qs: Queues, ss: Ptr, sc: Ptr, s: Ptr)
    requires Chained(f, qs) && Backed(f.pending, qs) && ss in qs && sc in qs && f.pending[sc] == NULL && s in qs
    ensures var f', qs' := Appended(f, ss, Last(qs[ss]), sc), qs[ss := qs[ss] + [sc]];
      s in f'.head && Path(qs'[s], f'.head[s], f'.next, NULL)
  {
    hide Path;
    hide Backed;
    hide Last;
    Pending(f.pending, qs, sc);
    Open(f.pending, qs, sc);
    var q, tail := qs[ss], Last(qs[ss]);
    PathStart(q, f.head[ss], f.next, NULL);
    LastIn(q);
    var f' := Appended(f, ss, tail, sc);
    if s == ss {
      TailLinked(q, f.head[ss], f.next, sc, f'.head[ss], f'.next);
    } else {
      if q != [] {
        Apart(f.pending, qs, ss, s, tail);
      }
      OtherLinked(qs[s], f.head[s], f.next, tail, sc, f'.next);
    }
  }

  lemma OtherLinked(q: seq<Ptr>, head: Ptr, next: map<Ptr, Ptr>, tail: Ptr, sc: Ptr, next': map<Ptr, Ptr>)
    requires Path(q, head, next, NULL) && sc !in q && (tail != NULL ==> tail !in q)
    requires next' == if tail == NULL then next[sc := NULL] else next[tail := sc][sc := NULL]
    ensures Path(q, head, next', NULL)
  {
    PathStart(q, head, next, NULL);
    hide Path;
    PathFrame(q, head, next, NULL, next');
  }

  lemma Open(pending: map<Ptr, Ptr>, qs: Queues, x: Ptr)
    requires Backed(pending, qs) && x in qs
    ensures x != NULL
  {
  }

  lemma TailLinked(q: seq<Ptr>, head: Ptr, next: map<Ptr, Ptr>, sc: Ptr, head': Ptr, next': map<Ptr, Ptr>)
    requires Path(q, head, next, NULL) && sc !in q && sc != NULL && head' == if Last(q) == NULL then sc else head
    requires next' == if Last(q) == NULL then next[sc := NULL] else next[Last(q) := sc][sc := NULL]
    ensures Path(q + [sc], head', next', NULL)
  {
    PathStart(q, head, next, NULL);
    LastIn(q);
    hide Path;
    PathAppend(q, head, next, NULL, sc, head', next');
  }

  lemma AppendedBacked(pending: map<Ptr, Ptr>, qs: Queues, ss: Ptr, sc: Ptr)
    requires Backed(pending, qs) && ss in qs && sc in qs && pending[sc] == NULL
    ensures Backed(pending[sc := ss], qs[ss := qs[ss] + [sc]])
  {
  }

  /** Putting a socket in a queue leaves a proper state exactly when the socket waits nowhere yet. */
  lemma AppendedProperIff(f: Fields, qs: Queues, ss: Ptr, sc: Ptr)
    requires Matches(f, qs) && ss in qs && sc in qs
    ensures Proper(Appended(f, ss, Last(qs[ss]), sc)) <==> f.pending[sc] == NULL
  {
    hide Path;
    hide Last;
    if f.pending[sc] == NULL {
      AppendedMatches(f, qs, ss, sc);
    } else {
      forall qs' ensures !Matches(Appended(f, ss, Last(qs[ss]), sc), qs') {
        PendingTwice(f, qs, ss, sc, qs');
      }
    }
  }

  lemma PendingTwice(f: Fields, qs: Queues, ss: Ptr, sc: Ptr, qs': Queues)
    requires Matches(f, qs) && ss in qs && sc in qs && f.pending[sc] != NULL
    ensures !Matches(Appended(f, ss, Last(qs[ss]), sc), qs')
  {
    var s0 := f.pending[sc];
    var f' := Appended(f, ss, Last(qs[ss]), sc);
    Pending(f.pending, qs, sc);
    Facts(f, qs, s0);
    Facts(f, qs, ss);
    LastIn(qs[ss]);
    hide Path;
    hide Last;
    if Matches(f', qs') {
      CutShort(f, qs, ss, sc, qs'[s0]);
    }
  }

  /** A queue that the socket waits in ends with it now. */
  lemma CutShort(f: Fields, qs: Queues, ss: Ptr, sc: Ptr, q': seq<Ptr>)
    requires Matches(f, qs) && ss in qs && sc in qs && f.pending[sc] in qs && sc in qs[f.pending[sc]]
    requires Path(q', f.head[f.pending[sc]], Appended(f, ss, Last(qs[ss]), sc).next, NULL)
    ensures sc in q' && |q'| <= |qs[f.pending[sc]]|
  {
    var s0, f' := f.pending[sc], Appended(f, ss, Last(qs[ss]), sc);
    var q := qs[s0];
    var k := IndexOf(q, sc);
    Facts(f, qs, s0);
    forall i | 0 <= i < k ensures q[i] in f'.next && f'.next[q[i]] == f.next[q[i]] {
      assert q[i] in q;
      NotLast(f, qs, ss, s0, i);
    }
    SameWalk(q, q', f.head[s0], f.next, f'.next, NULL, k);
    PathStep(q', f.head[s0], f'.next, NULL, k);
    PathStart(q', f.head[s0], f'.next, NULL);
  }

  lemma NotLast(f: Fields, qs: Queues, ss: Ptr, s0: Ptr, i: nat)
    requires Matches(f, qs) && ss in qs && s0 in qs && i + 1 < |qs[s0]|
    ensures qs[s0][i] != Last(qs[ss])
  {
    Facts(f, qs, s0);
    Facts(f, qs, ss);
    LastIn(qs[ss]);
    assert qs[s0][i] in qs[s0];
    if ss != s0 {
      Apart(f.pending, qs, s0, ss, qs[s0][i]);
    }
  }

  /** A socket is unlinked from behind `prev`, or from the front. */
  function Spliced(f: Fields, ss: Ptr, prev: Ptr, sc: Ptr): Fields
    requires ss in f.len && sc in f.next
  {
    f.(head := if prev == NULL then f.head[ss := f.next[sc]] else f.head,
       next := if prev == NULL then f.next else f.next[prev := f.next[sc]], len := f.len[ss := f.len[ss] - 1])
  }

  /** And then names no listener any more. */
  function Unlinked(f: Fields, ss: Ptr, prev: Ptr, sc: Ptr): Fields
    requires ss in f.len && sc in f.next
  {
    Spliced(f, ss, prev, sc).(pending := f.pending[sc := NULL])
  }

  function Prev(q: seq<Ptr>, k: nat): Ptr
    requires k < |q|
  {
    if k == 0 then NULL else q[k - 1]
  }

  lemma UnlinkedMatches(f: Fields, qs: Queues, ss: Ptr, k: nat)
    requires Matches(f, qs) && ss in qs && k < |qs[ss]|
    ensures ss in f.len && qs[ss][k] in f.next && f.len[ss] > 0
    ensures Matches(Unlinked(f, ss, Prev(qs[ss], k), qs[ss][k]), qs[ss := qs[ss][..k] + qs[ss][k + 1..]])
  {
    hide Path;
    Facts(f, qs, ss);
    var q := qs[ss];
    assert q[k] in q;
    UnlinkedChained(f, qs, ss, k);
    UnlinkedBacked(f.pending, qs, ss, k);
  }

  lemma UnlinkedPath(f: Fields, qs: Queues, ss: Ptr, k: nat, s: Ptr)
    requires Chained(f, qs) && Backed(f.pending, qs) && ss in qs && k < |qs[ss]| && qs[ss][k] in qs && s in qs
    ensures var f' := Unlinked(f, ss, Prev(qs[ss], k), qs[ss][k]);
      s in f'.head && Path(qs[ss := qs[ss][..k] + qs[ss][k + 1..]][s], f'.head[s], f'.next, NULL)
  {
    hide Path;
    hide Backed;
    hide Prev;
    var q, prev := qs[ss], Prev(qs[ss], k);
    var f' := Unlinked(f, ss, prev, q[k]);
    PrevIn(q, f.head[ss], f.next, k);
    if s == ss {
      Skipped(q, f.head[ss], f.next, k, f'.head[ss], f'.next);
    } else {
      PathStart(qs[s], f.head[s], f.next, NULL);
      if prev != NULL {
        Apart(f.pending, qs, ss, s, prev);
      }
      PathFrame(qs[s], f.head[s], f.next, NULL, f'.next);
    }
  }

  lemma UnlinkedLengths(f: Fields, qs: Queues, ss: Ptr, k: nat)
    requires Chained(f, qs) && ss in qs && k < |qs[ss]| && qs[ss][k] in qs
    ensures var f', qs' := Unlinked(f, ss, Prev(qs[ss], k), qs[ss][k]), qs[ss := qs[ss][..k] + qs[ss][k + 1..]];
      f'.Covers(qs'.Keys) && forall s :: s in qs' ==> f'.len[s] == |qs'[s]|
  {
    hide Path;
    PrevIn(qs[ss], f.head[ss], f.next, k);
  }

  lemma UnlinkedChained(f: Fields, qs: Queues, ss: Ptr, k: nat)
    requires Chained(f, qs) && Backed(f.pending, qs) && ss in qs && k < |qs[ss]| && qs[ss][k] in qs
    ensures Chained(Unlinked(f, ss, Prev(qs[ss], k), qs[ss][k]), qs[ss := qs[ss][..k] + qs[ss][k + 1..]])
  {
    hide Path;
    hide Backed;
    hide Chained;
    hide Prev;
    Linked(f, qs);
    var f', qs' := Unlinked(f, ss, Prev(qs[ss], k), qs[ss][k]), qs[ss := qs[ss][..k] + qs[ss][k + 1..]];
    hide Unlinked;
    UnlinkedLengths(f, qs, ss, k);
    forall s | s in qs' ensures s in f'.head && Path(qs'[s], f'.head[s], f'.next, NULL) {
      UnlinkedPath(f, qs, ss, k, s);
    }
    ChainedBy(f', qs');
  }

  lemma Linked(f: Fields, qs: Queues)
    requires Chained(f, qs)
    ensures f.Covers(qs.Keys)
  {
  }

  lemma ChainedBy(f: Fields, qs: Queues)
    requires f.Covers(qs.Keys) && forall s :: s in qs ==> Path(qs[s], f.head[s], f.next, NULL) && f.len[s] == |qs[s]|
    ensures Chained(f, qs)
  {
    hide Path;
  }

  lemma PrevIn(q: seq<Ptr>, head: Ptr, next: map<Ptr, Ptr>, k: nat)
    requires Path(q, head, next, NULL) && k < |q|
    ensures Prev(q, k) != NULL ==> Prev(q, k) in q && Prev(q, k) in next
    ensures Prev(q, k) == NULL <==> k == 0
  {
    if k > 0 {
      assert q[k - 1] in q;
    }
  }

  lemma Skipped(q: seq<Ptr>, head: Ptr, next: map<Ptr, Ptr>, k: nat, head': Ptr, next': map<Ptr, Ptr>)
    requires Path(q, head, next, NULL) && k < |q| && q[k] in next
    requires head' == if Prev(q, k) == NULL then next[q[k]] else head
    requires next' == if Prev(q, k) == NULL then next else next[Prev(q, k) := next[q[k]]]
    ensures Path(q[..k] + q[k + 1..], head', next', NULL)
  {
    PathStep(q, head, next, NULL, k);
    PathStart(q, head, next, NULL);
    PrevIn(q, head, next, k);
    hide Path;
    PathRemove(q, head, next, NULL, k, head', next');
  }

  lemma UnlinkedBacked(pending: map<Ptr, Ptr>, qs: Queues, ss: Ptr, k: nat)
    requires Backed(pending, qs) && ss in qs && k < |qs[ss]| && Distinct(qs[ss]) && qs[ss][k] in qs
    ensures Backed(pending[qs[ss][k] := NULL], qs[ss := qs[ss][..k] + qs[ss][k + 1..]])
  {
    var q, sc := qs[ss], qs[ss][k];
    var r := q[..k] + q[k + 1..];
    assert q == q[..k] + [sc] + q[k + 1..];
    assert forall x :: x in r <==> x in q && x != sc;
    var qs', pending' := qs[ss := r], pending[sc := NULL];
    assert sc in qs[ss];
    assert forall s, x {:trigger x in qs'[s]} :: s in qs && x in qs'[s] ==> x in qs[s] && x != sc;
    forall x | x in qs' && pending'[x] != NULL ensures pending'[x] in qs' && x in qs'[pending'[x]] {
      assert x in qs[pending[x]];
    }
  }

  /** A socket that waits nowhere and keeps nobody waiting goes. */
  function Forgotten(f: Fields, s: Ptr): Fields {
    Fields(f.head - {s}, f.next - {s}, f.pending - {s}, f.len - {s})
  }

  lemma ClosedMatches(f: Fields, qs: Queues, s: Ptr)
    requires Matches(f, qs) && s in qs && qs[s] == [] && f.pending[s] == NULL
    ensures Matches(Forgotten(f, s), qs - {s})
  {
    hide Path;
    Pending(f.pending, qs, s);
    var f', qs' := Forgotten(f, s), qs - {s};
    forall t | t in qs' ensures Path(qs'[t], f'.head[t], f'.next, NULL) {
      PathStart(qs[t], f.head[t], f.next, NULL);
      PathFrame(qs[t], f.head[t], f.next, NULL, f'.next);
    }
    assert f'.Covers(qs'.Keys);
    assert forall t, x {:trigger x in qs'[t]} :: t in qs' && x in qs'[t] ==> x in qs[t] && x != s;
  }

  /** A new socket. */
  function With(f: Fields, s: Ptr): Fields {
    Fields(f.head[s := NULL], f.next[s := NULL], f.pending[s := NULL], f.len[s := 0])
  }

  lemma OpenedMatches(f: Fields, qs: Queues, s: Ptr)
    requires Matches(f, qs) && s !in qs && s != NULL
    ensures Matches(With(f, s), qs[s := []])
  {
    hide Chained;
    hide Backed;
    OpenedChained(f, qs, s);
    OpenedBacked(f.pending, qs, s);
  }

  lemma OpenedPath(f: Fields, qs: Queues, s: Ptr, t: Ptr)
    requires Chained(f, qs) && s !in qs && t in qs[s := []]
    ensures t in With(f, s).head && Path(qs[s := []][t], With(f, s).head[t], With(f, s).next, NULL)
  {
    hide Path;
    if t == s {
      PathNone(With(f, s).next, NULL);
    } else {
      PathStart(qs[t], f.head[t], f.next, NULL);
      PathFrame(qs[t], f.head[t], f.next, NULL, With(f, s).next);
    }
  }

  lemma OpenedChained(f: Fields, qs: Queues, s: Ptr)
    requires Chained(f, qs) && Backed(f.pending, qs) && s !in qs
    ensures Chained(With(f, s), qs[s := []])
  {
    hide Path;
    hide Backed;
    var f', qs' := With(f, s), qs[s := []];
    assert f'.Covers(qs'.Keys);
    hide Fields.Covers;
    forall t | t in qs' ensures Path(qs'[t], f'.head[t], f'.next, NULL) {
      OpenedPath(f, qs, s, t);
    }
  }

  lemma OpenedBacked(pending: map<Ptr, Ptr>, qs: Queues, s: Ptr)
    requires Backed(pending, qs) && s !in qs && s != NULL
    ensures Backed(pending[s := NULL], qs[s := []])
  {
    var qs' := qs[s := []];
    assert forall t, x {:trigger x in qs'[t]} :: t in qs' && x in qs'[t] ==> t in qs && x in qs[t];
  }

  // ---- connecting twice ----

  const NOTHING := Fields(map[], map[], map[], map[])

  /** Socket 2 waits for listener 1, its first connect() being the only thing that has happened. */
  const WAITING := Appended(With(With(NOTHING, 1), 2), 1, NULL, 2)

  lemma NothingMatches()
    ensures Matches(NOTHING, map[])
  {
  }

  lemma WaitingMatches()
    ensures Matches(WAITING, map[1 := [2], 2 := []])
  {
    hide Matches;
    var empty: Queues := map[];
    NothingMatches();
    OpenedMatches(NOTHING, empty, 1);
    OpenedMatches(With(NOTHING, 1), empty[1 := []], 2);
    var both := empty[1 := []][2 := []];
    AppendedMatches(With(With(NOTHING, 1), 2), both, 1, 2);
    var none: seq<Ptr> := [];
    assert none + [2] == [2] && both[1] == none;
    assert both[1 := both[1] + [2]] == map[1 := [2], 2 := []];
  }

  lemma PendingThere(f: Fields, qs: Queues, ss: Ptr, x: Ptr)
    requires Matches(f, qs) && ss in qs && x in qs[ss]
    ensures x in qs && x in f.pending && f.pending[x] == ss && ss != NULL
  {
  }

  /**
    * Its second connect() to the same listener, which finds it at the end of the queue, leaves one socket where two
    * are counted.
    */
  lemma ConnectTwiceSpoils()
    ensures Matches(WAITING, map[1 := [2], 2 := []]) && !Proper(Appended(WAITING, 1, 2, 2))
  {
    hide Matches;
    var qs: Queues := map[1 := [2], 2 := []];
    WaitingMatches();
    PendingThere(WAITING, qs, 1, 2);
    AppendedProperIff(WAITING, qs, 1, 2);
  }
}
