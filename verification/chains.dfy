/** The kernel's null-terminated doubly linked lists: a table of heads over one pair of link fields. */
module Chains {
  import opened Links

  /** A pointer to a node; 0 is the null pointer. */
  type Ptr = nat
  const NULL: Ptr := 0

  /** Every list is linked as it should be, and no two share a node. */
  ghost predicate Strung(lists: seq<seq<Ptr>>, heads: seq<Ptr>, next: map<Ptr, Ptr>, prev: map<Ptr, Ptr>) {
    && |lists| == |heads|
    && (forall b :: 0 <= b < |lists| ==> Chain(lists[b], heads[b], next, prev, NULL))
    && (forall b, x :: 0 <= b < |lists| && x in lists[b] ==> x in next && x in prev)
    && (forall b, c, x :: 0 <= b < |lists| && 0 <= c < |lists| && x in lists[b] && x in lists[c] ==> b == c)
  }

  lemma StrungList(lists: seq<seq<Ptr>>, heads: seq<Ptr>, next: map<Ptr, Ptr>, prev: map<Ptr, Ptr>, b: nat)
    requires Strung(lists, heads, next, prev) && b < |lists|
    ensures |lists| == |heads| && Chain(lists[b], heads[b], next, prev, NULL)
    ensures forall x :: x in lists[b] ==> x in next && x in prev
    ensures heads[b] == At(lists[b], 0, NULL) && NULL !in lists[b] && Distinct(lists[b])
  {
    assert Chain(lists[b], heads[b], next, prev, NULL);
  }

  lemma StrungOnce(lists: seq<seq<Ptr>>, heads: seq<Ptr>, next: map<Ptr, Ptr>, prev: map<Ptr, Ptr>, b: nat, x: Ptr)
    requires Strung(lists, heads, next, prev) && b < |lists| && x in lists[b]
    ensures forall c :: 0 <= c < |lists| && c != b ==> x !in lists[c]
  {
    hide Chain;
  }

  /** A list whose nodes and head are left alone is left alone. */
  lemma OtherList(lists: seq<seq<Ptr>>, heads: seq<Ptr>, next: map<Ptr, Ptr>, prev: map<Ptr, Ptr>, b: nat, x: Ptr,
    c: nat,
                  next': map<Ptr, Ptr>, prev': map<Ptr, Ptr>)
    requires Strung(lists, heads, next, prev) && b < |lists| && c < |lists| && c != b && x !in lists[c]
    requires forall y :: y in next && y in prev && y != x && y !in lists[b] ==>
      y in next' && y in prev' && next'[y] == next[y] && prev'[y] == prev[y]
    ensures Chain(lists[c], heads[c], next', prev', NULL) && forall y :: y in lists[c] ==> y in next' && y in prev'
  {
    hide Chain;
    forall y | y in lists[c]
      ensures y in next && y in prev && y in next' && y in prev' && next'[y] == next[y] && prev'[y] == prev[y]
    {
      assert y !in lists[b];
    }
    ChainFrame(lists[c], heads[c], next, prev, NULL, next', prev');
  }

  /** Only list `b` and node `x` have been touched, and the list is linked again. */
  lemma Restrung(lists: seq<seq<Ptr>>, heads: seq<Ptr>, next: map<Ptr, Ptr>, prev: map<Ptr, Ptr>, b: nat, x: Ptr,
                 lists': seq<seq<Ptr>>, heads': seq<Ptr>, next': map<Ptr, Ptr>, prev': map<Ptr, Ptr>)
    requires Strung(lists, heads, next, prev) && b < |lists| && |lists'| == |lists| && |heads'| == |heads|
    requires Chain(lists'[b], heads'[b], next', prev', NULL)
    requires forall c :: 0 <= c < |lists| && c != b ==> lists'[c] == lists[c] && heads'[c] == heads[c] && x !in lists[c]
    requires forall y :: y in lists'[b] ==> (y in lists[b] || y == x) && y in next' && y in prev'
    requires forall y :: y in next && y in prev && y != x && y !in lists[b] ==>
      y in next' && y in prev' && next'[y] == next[y] && prev'[y] == prev[y]
    ensures Strung(lists', heads', next', prev')
  {
    hide Chain;
    forall c | 0 <= c < |lists| && c != b
      ensures Chain(lists'[c], heads'[c], next', prev', NULL) && forall y :: y in lists'[c] ==> y in next' && y in prev'
    {
      OtherList(lists, heads, next, prev, b, x, c, next', prev');
    }
  }

  ghost function Pushed(lists: seq<seq<Ptr>>, b: nat, x: Ptr): (r: seq<seq<Ptr>>)
    requires b < |lists|
    ensures |r| == |lists|
    ensures forall c, y :: 0 <= c < |r| ==> (y in r[c] <==> y in lists[c] || (c == b && y == x))
  {
    assert forall y :: y in [x] + lists[b] <==> y == x || y in lists[b];
    lists[b := [x] + lists[b]]
  }

  ghost function Dropped(lists: seq<seq<Ptr>>, b: nat, x: Ptr): (r: seq<seq<Ptr>>)
    requires b < |lists| && Distinct(lists[b])
    ensures |r| == |lists|
    ensures forall c, y :: 0 <= c < |r| ==> (y in r[c] <==> y in lists[c] && !(c == b && y == x))
    ensures Distinct(r[b])
  {
    WithoutMembers(lists[b], x);
    lists[b := Without(lists[b], x)]
  }

  lemma StrungSame(lists: seq<seq<Ptr>>, b: nat, x: Ptr)
    requires b < |lists| && x !in lists[b] && Distinct(lists[b])
    ensures Dropped(lists, b, x) == lists
  {
  }

  class Table {
    var heads: seq<Ptr>
    var next: map<Ptr, Ptr>
    var prev: map<Ptr, Ptr>
    ghost var lists: seq<seq<Ptr>>

    ghost predicate Valid()
      reads this
    {
      Strung(lists, heads, next, prev)
    }

    /** `x` is on no list. */
    ghost predicate Off(x: Ptr)
      reads this`lists
    {
      forall b :: 0 <= b < |lists| ==> x !in lists[b]
    }

    /** `n` empty lists over nodes whose links are null. */
    constructor (n: nat, nodes: set<Ptr>)
      ensures Valid() && lists == seq(n, _ => []) && |heads| == n
      ensures next == prev == map x | x in nodes :: NULL
    {
      heads := seq(n, _ => NULL);
      next := map x | x in nodes :: NULL;
      prev := map x | x in nodes :: NULL;
      lists := seq(n, _ => []);
    }

    /** Insertion at the head, as sleep() does it. */
    method Push(b: nat, x: Ptr)
      requires Valid() && b < |lists| && x != NULL && Off(x)
      modifies this
      ensures |heads| == old(|heads|)
      ensures Valid() && lists == Pushed(old(lists), b, x)
    {
      hide Chain;
      hide Strung;
      ghost var n, v, h := next, prev, heads;
      StrungList(lists, heads, next, prev, b);
      ChainHead(lists[b], heads[b], next, prev, NULL);
      if heads[b] == NULL {
        heads := heads[b := x];
        prev := prev[x := NULL];
        next := next[x := NULL];
      } else {
        prev := prev[x := NULL];
        next := next[x := heads[b]];
        prev := prev[heads[b] := x];
        heads := heads[b := x];
      }
      ChainPush(lists[b], h[b], n, v, NULL, x, next, prev);
      Restrung(lists, h, n, v, b, x, Pushed(lists, b, x), heads, next, prev);
      lists := Pushed(lists, b, x);
    }

    /** Insertion at the head as runnable() does it: the null links of `x` are relied on, not written. */
    method PushClean(b: nat, x: Ptr)
      requires Valid() && b < |lists| && x != NULL && Off(x)
      requires x in next && x in prev && next[x] == prev[x] == NULL
      modifies this
      ensures |heads| == old(|heads|)
      ensures Valid() && lists == Pushed(old(lists), b, x)
      ensures next.Keys == old(next.Keys) && prev.Keys == old(prev.Keys)
      ensures forall y :: y in next && y in prev && y != x && old(Off(y)) ==>
        next[y] == old(next)[y] && prev[y] == old(prev)[y]
    {
      hide Chain;
      hide Strung;
      ghost var n, v, h := next, prev, heads;
      StrungList(lists, heads, next, prev, b);
      ChainHead(lists[b], heads[b], next, prev, NULL);
      if heads[b] != NULL {
        next := next[x := heads[b]];
        prev := prev[heads[b] := x];
      }
      heads := heads[b := x];
      ChainPush(lists[b], h[b], n, v, NULL, x, next, prev);
      Restrung(lists, h, n, v, b, x, Pushed(lists, b, x), heads, next, prev);
      lists := Pushed(lists, b, x);
    }

    /** Unlinks `x` from list `b`; its own links keep their stale values. */
    method Remove(b: nat, x: Ptr)
      requires Valid() && b < |lists| && x != NULL && Distinct(lists[b])
      requires x in next && x in prev && (x in lists[b] || (Off(x) && next[x] == prev[x] == NULL))
      modifies this
      ensures |heads| == old(|heads|)
      ensures Valid() && lists == Dropped(old(lists), b, x)
      ensures next.Keys == old(next.Keys) && prev.Keys == old(prev.Keys)
      ensures next[x] == old(next[x])
      ensures forall y :: y in next && y in prev && old(Off(y)) ==> next[y] == old(next)[y] && prev[y] == old(prev)[y]
    {
      hide Chain;
      hide Without;
      hide Strung;
      ghost var n, v, h := next, prev, heads;
      StrungList(lists, heads, next, prev, b);
      if x in lists[b] {
        ChainNode(lists[b], heads[b], next, prev, NULL, x);
        StrungOnce(lists, heads, next, prev, b, x);
      } else {
        ChainHead(lists[b], heads[b], next, prev, NULL);
        StrungSame(lists, b, x);
      }
      if next[x] != NULL {
        prev := prev[next[x] := prev[x]];
      }
      if prev[x] != NULL {
        next := next[prev[x] := next[x]];
      }
      if heads[b] == x {
        heads := heads[b := next[x]];
      }
      if x in lists[b] {
        ChainUnlink(lists[b], h[b], n, v, NULL, x, heads[b], next, prev);
        Restrung(lists, h, n, v, b, x, Dropped(lists, b, x), heads, next, prev);
      }
      lists := Dropped(lists, b, x);
    }

    /** Nulls the links of a node that is on no list. */
    method Forget(x: Ptr)
      requires Valid() && Off(x)
      modifies this`next, this`prev
      ensures Valid()
      ensures next == old(next)[x := NULL] && prev == old(prev)[x := NULL]
    {
      hide Chain;
      ghost var n, v := next, prev;
      next := next[x := NULL];
      prev := prev[x := NULL];
      forall b | 0 <= b < |lists| ensures Chain(lists[b], heads[b], next, prev, NULL) {
        ChainFrame(lists[b], heads[b], n, v, NULL, next, prev);
      }
    }

    /** Unlinks `x` and nulls its links, as not_runnable() does. */
    method RemoveClean(b: nat, x: Ptr)
      requires Valid() && b < |lists| && x != NULL && Distinct(lists[b])
      requires x in next && x in prev && (x in lists[b] || (Off(x) && next[x] == prev[x] == NULL))
      modifies this
      ensures |heads| == old(|heads|)
      ensures Valid() && lists == Dropped(old(lists), b, x)
      ensures next.Keys == old(next.Keys) && prev.Keys == old(prev.Keys)
      ensures next[x] == prev[x] == NULL
      ensures forall y :: y in next && y in prev && y != x && old(Off(y)) ==>
        next[y] == old(next)[y] && prev[y] == old(prev)[y]
    {
      hide Chain;
      hide Without;
      Remove(b, x);
      Forget(x);
    }

    lemma WalkFrom(b: nat)
      requires Valid() && b < |lists|
      ensures |heads| == |lists| && heads[b] == At(lists[b], 0, NULL) && NULL !in lists[b] && Distinct(lists[b])
    {
      assert Chain(lists[b], heads[b], next, prev, NULL);
    }

    lemma WalkIn(b: nat, x: Ptr)
      requires Valid() && b < |lists| && x in lists[b]
      ensures x in next && x in prev
    {
    }

    lemma WalkOn(b: nat, i: nat)
      requires Valid() && b < |lists| && i < |lists[b]|
      ensures lists[b][i] in next && next[lists[b][i]] == At(lists[b], i + 1, NULL)
    {
      assert Chain(lists[b], heads[b], next, prev, NULL);
    }

    /** Walks list `b` from its head until `x`. */
    method Find(b: nat, x: Ptr) returns (found: bool)
      requires Valid() && b < |lists|
      ensures found <==> x in lists[b]
    {
      var h := heads[b];
      ghost var i := 0;
      while h != NULL
        invariant 0 <= i <= |lists[b]| && h == At(lists[b], i, NULL)
        invariant x !in lists[b][..i]
        decreases |lists[b]| - i
      {
        assert Chain(lists[b], heads[b], next, prev, NULL);
        if h == x {
          return true;
        }
        h := next[h];
        i := i + 1;
      }
      found := false;
    }
  }
}
