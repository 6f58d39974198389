/**
 The kernel's doubly linked lists whose head points back at the tail: the buffer cache's free and dirty
 lists. A node that is on no list has null links, which is how the kernel tells.
 */
module Ropes {
  import opened Links
  import opened Chains

  ghost predicate Disjoint(lists: seq<seq<Ptr>>) {
    forall b, c, x :: 0 <= b < |lists| && 0 <= c < |lists| && x in lists[b] && x in lists[c] ==> b == c
  }

  ghost predicate Off(lists: seq<seq<Ptr>>, x: Ptr) {
    forall b :: 0 <= b < |lists| ==> x !in lists[b]
  }

  ghost function Appended(lists: seq<seq<Ptr>>, b: nat, x: Ptr): (r: seq<seq<Ptr>>)
    requires b < |lists|
    ensures |r| == |lists|
    ensures forall c, y :: 0 <= c < |r| ==> (y in r[c] <==> y in lists[c] || (c == b && y == x))
  {
    lists[b := lists[b] + [x]]
  }

  /** The lists are linked as they should be, share no node, and every other known node has null links. */
  ghost predicate Tied(lists: seq<seq<Ptr>>, heads: seq<Ptr>, next: map<Ptr, Ptr>, prev: map<Ptr, Ptr>) {
    && |lists| == |heads|
    && (forall b :: 0 <= b < |lists| ==> Rope(lists[b], heads[b], next, prev, NULL))
    && (forall b, x :: 0 <= b < |lists| && x in lists[b] ==> x in next)
    && (forall x :: x in next <==> x in prev)
    && Disjoint(lists)
    && (forall x :: x in next && Off(lists, x) ==> next[x] == prev[x] == NULL)
  }

  lemma TiedList(lists: seq<seq<Ptr>>, heads: seq<Ptr>, next: map<Ptr, Ptr>, prev: map<Ptr, Ptr>, b: nat)
    requires Tied(lists, heads, next, prev) && b < |lists|
    ensures |lists| == |heads| && Rope(lists[b], heads[b], next, prev, NULL)
    ensures forall x :: x in next <==> x in prev
    ensures forall x :: x in lists[b] ==> x in next
  {
  }

  lemma TiedOff(lists: seq<seq<Ptr>>, heads: seq<Ptr>, next: map<Ptr, Ptr>, prev: map<Ptr, Ptr>, x: Ptr)
    requires Tied(lists, heads, next, prev) && x in next && Off(lists, x)
    ensures x in prev && next[x] == prev[x] == NULL
  {
    hide Rope;
  }

  lemma OthersStay(lists: seq<seq<Ptr>>, heads: seq<Ptr>, next: map<Ptr, Ptr>, prev: map<Ptr, Ptr>, b: nat, c: nat,
    x: Ptr,
                   next': map<Ptr, Ptr>, prev': map<Ptr, Ptr>)
    requires Tied(lists, heads, next, prev) && b < |lists| && c < |lists| && b != c && (Off(lists, x) || x in lists[b])
    requires next'.Keys == next.Keys && prev'.Keys == prev.Keys
    requires forall y :: y in next && y != x && y !in lists[b] ==> next'[y] == next[y] && prev'[y] == prev[y]
    ensures Rope(lists[c], heads[c], next', prev', NULL)
  {
    hide Rope;
    forall y | y in lists[c] ensures y in next' && y in prev' && next'[y] == next[y] && prev'[y] == prev[y] {
      assert y !in lists[b];
    }
    RopeFrame(lists[c], heads[c], next, prev, NULL, next', prev');
  }

  /** Only list `b` and node `x` have been touched, and the list is linked again. */
  lemma Retied(lists: seq<seq<Ptr>>, heads: seq<Ptr>, next: map<Ptr, Ptr>, prev: map<Ptr, Ptr>, b: nat, x: Ptr,
               lists': seq<seq<Ptr>>, head': Ptr, next': map<Ptr, Ptr>, prev': map<Ptr, Ptr>)
    requires Tied(lists, heads, next, prev) && b < |lists| && x in next
    requires Off(lists, x) || x in lists[b]
    requires |lists'| == |lists| && Rope(lists'[b], head', next', prev', NULL)
    requires forall c :: 0 <= c < |lists| && c != b ==> lists'[c] == lists[c]
    requires forall y :: y != x ==> (y in lists'[b] <==> y in lists[b])
    requires next'.Keys == next.Keys && prev'.Keys == prev.Keys
    requires forall y :: y in next && y != x && y !in lists[b] ==> next'[y] == next[y] && prev'[y] == prev[y]
    requires x !in lists'[b] ==> next'[x] == prev'[x] == NULL
    ensures Tied(lists', heads[b := head'], next', prev')
  {
    hide Rope;
    var heads' := heads[b := head'];
    forall c | 0 <= c < |lists|
      ensures Rope(lists'[c], heads'[c], next', prev', NULL)
    {
      if c != b {
        OthersStay(lists, heads, next, prev, b, c, x, next', prev');
      }
    }
    RetiedNodes(lists, heads, next, prev, b, x, lists', next', prev');
  }

  lemma RetiedNodes(lists: seq<seq<Ptr>>, heads: seq<Ptr>, next: map<Ptr, Ptr>, prev: map<Ptr, Ptr>, b: nat, x: Ptr,
                    lists': seq<seq<Ptr>>, next': map<Ptr, Ptr>, prev': map<Ptr, Ptr>)
    requires Tied(lists, heads, next, prev) && b < |lists| && x in next
    requires Off(lists, x) || x in lists[b]
    requires |lists'| == |lists| && forall c :: 0 <= c < |lists| && c != b ==> lists'[c] == lists[c]
    requires forall y :: y != x ==> (y in lists'[b] <==> y in lists[b])
    requires next'.Keys == next.Keys && prev'.Keys == prev.Keys
    requires forall y :: y in next && y != x && y !in lists[b] ==> next'[y] == next[y] && prev'[y] == prev[y]
    requires x !in lists'[b] ==> next'[x] == prev'[x] == NULL
    ensures forall c, y :: 0 <= c < |lists'| && y in lists'[c] ==> y in next'
    ensures forall y :: y in next' <==> y in prev'
    ensures Disjoint(lists')
    ensures forall y :: y in next' && Off(lists', y) ==> next'[y] == prev'[y] == NULL
  {
    hide Rope;
    forall c, y | 0 <= c < |lists'| && y in lists'[c] ensures y in next' && (y in lists[c] || (c == b && y == x)) {
      assert y != x ==> y in next.Keys;
    }
    forall y | y in next' && Off(lists', y) ensures next'[y] == prev'[y] == NULL {
      OffBefore(lists, lists', b, x, y);
    }
  }

  lemma OffBefore(lists: seq<seq<Ptr>>, lists': seq<seq<Ptr>>, b: nat, x: Ptr, y: Ptr)
    requires b < |lists| == |lists'| && (forall c :: 0 <= c < |lists| && c != b ==> lists'[c] == lists[c])
    requires Off(lists', y)
    requires forall z :: z != x ==> (z in lists'[b] <==> z in lists[b])
    ensures y != x ==> Off(lists, y)
    ensures y !in lists'[b]
  {
  }

  class Table {
    var heads: seq<Ptr>
    var next: map<Ptr, Ptr>
    var prev: map<Ptr, Ptr>
    ghost var lists: seq<seq<Ptr>>

    ghost predicate Valid()
      reads this
    {
      Tied(lists, heads, next, prev)
    }

    constructor (n: nat)
      ensures Valid() && lists == seq(n, _ => []) && |heads| == n && next == map[]
    {
      heads := seq(n, _ => NULL);
      next, prev := map[], map[];
      lists := seq(n, _ => []);
    }

    /** A new node, on no list. */
    method Know(x: Ptr)
      requires Valid() && x !in next
      modifies this`next, this`prev
      ensures Valid() && next.Keys == old(next.Keys) + {x}
    {
      hide Rope;
      ghost var n, v := next, prev;
      next := next[x := NULL];
      prev := prev[x := NULL];
      forall b | 0 <= b < |lists| ensures Rope(lists[b], heads[b], next, prev, NULL) {
        TiedList(lists, heads, n, v, b);
        RopeFrame(lists[b], heads[b], n, v, NULL, next, prev);
      }
    }

    /** Links `x` in at the tail. */
    method Append(b: nat, x: Ptr)
      requires Valid() && b < |lists| && x != NULL && x in next && Off(lists, x)
      modifies this
      ensures |heads| == old(|heads|)
      ensures Valid() && lists == Appended(old(lists), b, x) && next.Keys == old(next.Keys)
    {
      hide Rope;
      hide Tied;
      ghost var n, v, hs := next, prev, heads;
      TiedList(lists, heads, next, prev, b);
      TiedOff(lists, heads, next, prev, x);
      RopeHead(lists[b], heads[b], next, prev, NULL);
      LinkLast(b, x);
      RopeAppend(lists[b], hs[b], n, v, NULL, x, heads[b], next, prev);
      assert heads == hs[b := heads[b]];
      Retied(lists, hs, n, v, b, x, Appended(lists, b, x), heads[b], next, prev);
      lists := Appended(lists, b, x);
    }

    method LinkLast(b: nat, x: Ptr)
      requires b < |heads| && x in next && x in prev && next[x] == NULL && x != heads[b]
      requires heads[b] != NULL ==> heads[b] in prev && prev[heads[b]] in next && prev[heads[b]] != x
      modifies this`heads, this`next, this`prev
      ensures heads == if old(heads[b]) == NULL then old(heads)[b := x] else old(heads)
      ensures next == if old(heads[b]) == NULL then old(next) else old(next)[old(prev[heads[b]]) := x]
      ensures prev
        == if old(heads[b]) == NULL then old(prev)[x := x] else old(prev)[x := old(prev[heads[b]])][old(heads[b]) := x]
    {
      var h := heads[b];
      if h == NULL {
        heads := heads[b := x];
        h := x;
      } else {
        prev := prev[x := prev[h]];
        next := next[prev[h] := x];
      }
      prev := prev[h := x];
    }

    /** Links `x` in at the front of a list that is not empty. */
    method Push(b: nat, x: Ptr)
      requires Valid() && b < |lists| && lists[b] != [] && x != NULL && x in next && Off(lists, x)
      modifies this
      ensures |heads| == old(|heads|)
      ensures Valid() && lists == Pushed(old(lists), b, x) && next.Keys == old(next.Keys)
    {
      hide Rope;
      hide Tied;
      ghost var n, v, hs := next, prev, heads;
      TiedList(lists, heads, next, prev, b);
      RopeHead(lists[b], heads[b], next, prev, NULL);
      var h := heads[b];
      prev := prev[x := prev[h]];
      next := next[x := h];
      prev := prev[h := x];
      heads := heads[b := x];
      RopePush(lists[b], hs[b], n, v, NULL, x, next, prev);
      assert heads == hs[b := heads[b]];
      Retied(lists, hs, n, v, b, x, Pushed(lists, b, x), x, next, prev);
      lists := Pushed(lists, b, x);
    }

    /** Unlinks `x` and nulls its links. */
    method Remove(b: nat, x: Ptr)
      requires Valid() && b < |lists| && x in lists[b] && Distinct(lists[b])
      modifies this
      ensures |heads| == old(|heads|)
      ensures Valid() && lists == Dropped(old(lists), b, x) && next.Keys == old(next.Keys)
    {
      hide Rope;
      hide Tied;
      hide IndexOf;
      hide Without;
      ghost var n, v, hs := next, prev, heads;
      TiedList(lists, heads, next, prev, b);
      RopeHead(lists[b], heads[b], next, prev, NULL);
      RopeNode(lists[b], heads[b], next, prev, NULL, x);
      Splice(b, x);
      RopeRemove(lists[b], hs[b], n, v, NULL, x, heads[b], next, prev);
      assert heads == hs[b := heads[b]];
      Retied(lists, hs, n, v, b, x, Dropped(lists, b, x), heads[b], next, prev);
      lists := Dropped(lists, b, x);
    }

    /** The writes of an unlinking. */
    method Splice(b: nat, x: Ptr)
      requires b < |heads| && x in next && x in prev && heads[b] in prev && next[x] != x
      requires prev[x] in next && prev[x] != NULL && (next[x] != NULL ==> next[x] in prev)
      requires (x != heads[b] ==> prev[x] != x)
      modifies this`heads, this`next, this`prev
      ensures heads == if x == old(heads[b]) then old(heads)[b := old(next[x])] else old(heads)
      ensures next.Keys == old(next.Keys) && prev.Keys == old(prev.Keys) && next[x] == prev[x] == NULL
      ensures forall y :: y in next && y != x ==>
        next[y] == if y == old(prev[x]) && x != old(heads[b]) then old(next[x]) else old(next)[y]
      ensures forall y :: y in prev && y != x ==>
        prev[y] == var z := if old(next[x]) == NULL then old(heads[b]) else old(next[x]);
          if y == z then old(prev[x]) else old(prev)[y]
    {
      var h := heads[b];
      if next[x] != NULL {
        prev := prev[next[x] := prev[x]];
      }
      if prev[x] != NULL {
        if x != h {
          next := next[prev[x] := next[x]];
        }
      }
      if next[x] == NULL {
        prev := prev[h := prev[x]];
      }
      if x == h {
        heads := heads[b := next[x]];
      }
      prev := prev[x := NULL];
      next := next[x := NULL];
    }

    /** The kernel's test for being on a list. */
    lemma OnList(x: Ptr)
      requires Valid() && x in next
      ensures x in prev && ((prev[x] != NULL || next[x] != NULL) <==> !Off(lists, x))
    {
      if !Off(lists, x) {
        var b :| 0 <= b < |lists| && x in lists[b];
        RopeNode(lists[b], heads[b], next, prev, NULL, x);
        RopeHead(lists[b], heads[b], next, prev, NULL);
      }
    }

    lemma First(b: nat)
      requires Valid() && b < |lists|
      ensures |heads| == |lists| && Distinct(lists[b]) && NULL !in lists[b]
      ensures heads[b] == (if lists[b] == [] then NULL else lists[b][0])
    {
      TiedList(lists, heads, next, prev, b);
      RopeHead(lists[b], heads[b], next, prev, NULL);
    }
  }
}
