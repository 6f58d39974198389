/** Linked lists as the kernel keeps them: a head, and link fields as maps from node to node. */
module Links {

  ghost predicate Distinct<T>(s: seq<T>) {
    forall i, j :: 0 <= i < j < |s| ==> s[i] != s[j]
  }

  /** The element at position `i`, or `nil` when `i` is outside `s`. */
  ghost function At<T>(s: seq<T>, i: int, nil: T): T {
    if 0 <= i < |s| then s[i] else nil
  }

  /** The first position of `x` in `s`, or `|s|`. */
  ghost function IndexOf<T>(s: seq<T>, x: T): (k: nat)
    ensures k <= |s|
    ensures k < |s| ==> s[k] == x
    ensures x !in s[..k]
    ensures k < |s| <==> x in s
  {
    if s == [] || s[0] == x then 0
    else
      assert s == [s[0]] + s[1..];
      1 + IndexOf(s[1..], x)
  }

  lemma IndexIs<T>(s: seq<T>, i: nat)
    requires Distinct(s) && i < |s|
    ensures IndexOf(s, s[i]) == i
  {
  }

  /** `s` without the first occurrence of `x`. */
  ghost function Without<T>(s: seq<T>, x: T): (t: seq<T>)
    ensures x !in s ==> t == s
  {
    var k := IndexOf(s, x);
    if k < |s| then s[..k] + s[k + 1..] else s
  }

  lemma WithoutMembers<T>(s: seq<T>, x: T)
    requires Distinct(s)
    ensures Distinct(Without(s, x))
    ensures forall y :: y in Without(s, x) <==> y in s && y != x
  {
    var k := IndexOf(s, x);
    if k < |s| {
      assert s == s[..k] + [x] + s[k + 1..];
    }
  }

  lemma WithoutAt<T>(s: seq<T>, k: nat)
    requires k < |s| && Distinct(s)
    ensures Without(s, s[k]) == s[..k] + s[k + 1..]
  {
    assert s[IndexOf(s, s[k])] == s[k];
  }

  /** Following `link` from each node of `s` leads to the node `step` places on, or to `nil`. */
  ghost predicate Linked<T>(s: seq<T>, link: map<T, T>, step: int, nil: T) {
    && (forall x :: x in s ==> x in link)
    && (forall i {:trigger link[s[i]]} :: 0 <= i < |s| ==> link[s[i]] == At(s, i + step, nil))
  }

  /** `head` starts a null-terminated doubly linked list visiting exactly `s`. */
  ghost predicate Chain<T>(s: seq<T>, head: T, next: map<T, T>, prev: map<T, T>, nil: T) {
    && Distinct(s)
    && nil !in s
    && head == At(s, 0, nil)
    && Linked(s, next, 1, nil)
    && Linked(s, prev, -1, nil)
  }

  /** What a list operation may rely on at one node `x`. */
  lemma ChainNode<T>(s: seq<T>, head: T, next: map<T, T>, prev: map<T, T>, nil: T, x: T)
    requires Chain(s, head, next, prev, nil) && x in s
    ensures nil !in s && x in next && x in prev
    ensures next[x] != x && prev[x] != x
    ensures next[x] == nil || next[x] in s
    ensures prev[x] == nil || prev[x] in s
    ensures head == x <==> prev[x] == nil
  {
    var k := IndexOf(s, x);
    assert next[s[k]] == At(s, k + 1, nil) && prev[s[k]] == At(s, k as int - 1, nil);
  }

  lemma ChainHead<T>(s: seq<T>, head: T, next: map<T, T>, prev: map<T, T>, nil: T)
    requires Chain(s, head, next, prev, nil)
    ensures head == nil <==> s == []
    ensures head != nil ==> head in s
  {
  }

  /** Redirecting the neighbour before `x` past it unlinks `x` in that direction. */
  lemma Unlinked<T>(s: seq<T>, link: map<T, T>, back: map<T, T>, step: int, nil: T, x: T, link': map<T, T>)
    requires Distinct(s) && nil !in s && x in s && (step == 1 || step == -1)
    requires Linked(s, link, step, nil) && Linked(s, back, -step, nil)
    requires forall y :: y in s && y != x ==> y in link' && link'[y] == if y == back[x] then link[x] else link[y]
    ensures Linked(Without(s, x), link', step, nil)
  {
    hide IndexOf;
    hide Without;
    var k := IndexOf(s, x);
    var t := Without(s, x);
    WithoutMembers(s, x);
    WithoutAt(s, k);
    assert back[s[k]] == At(s, k - step, nil);
    assert link[s[k]] == At(s, k + step, nil);
    forall i | 0 <= i < |t|
      ensures t[i] in link' && link'[t[i]] == At(t, i + step, nil)
    {
      var j := if i < k then i else i + 1;
      assert t[i] == s[j] && s[j] != x && s[j] in s;
      assert link[s[j]] == At(s, j + step, nil);
      assert s[j] == back[x] <==> j == k - step;
    }
  }

  lemma ChainUnlink<T>(s: seq<T>, head: T, next: map<T, T>, prev: map<T, T>, nil: T, x: T,
                       head': T, next': map<T, T>, prev': map<T, T>)
    requires Chain(s, head, next, prev, nil) && x in s && x in next && x in prev
    requires head' == if head == x then next[x] else head
    requires forall y :: y in s && y != x ==> y in next' && next'[y] == if y == prev[x] then next[x] else next[y]
    requires forall y :: y in s && y != x ==> y in prev' && prev'[y] == if y == next[x] then prev[x] else prev[y]
    ensures Chain(Without(s, x), head', next', prev', nil)
    ensures forall y :: y in Without(s, x) <==> y in s && y != x
  {
    Unlinked(s, next, prev, 1, nil, x, next');
    Unlinked(s, prev, next, -1, nil, x, prev');
    WithoutMembers(s, x);
    var k := IndexOf(s, x);
    assert next[s[k]] == At(s, k + 1, nil);
  }

  lemma ChainPush<T>(s: seq<T>, head: T, next: map<T, T>, prev: map<T, T>, nil: T, x: T,
                     next': map<T, T>, prev': map<T, T>)
    requires Chain(s, head, next, prev, nil) && x !in s && x != nil
    requires x in next' && x in prev' && next'[x] == head && prev'[x] == nil
    requires forall y :: y in s ==> y in next' && y in prev' && next'[y] == next[y]
    requires forall y :: y in s ==> prev'[y] == if y == head then x else prev[y]
    ensures Chain([x] + s, x, next', prev', nil)
  {
    var t := [x] + s;
    forall i | 0 <= i < |t|
      ensures next'[t[i]] == At(t, i + 1, nil) && prev'[t[i]] == At(t, i - 1, nil)
    {
      if i > 0 {
        assert t[i] == s[i - 1];
      }
    }
  }

  /** A list is untouched by writes to the links of other nodes. */
  lemma ChainFrame<T>(s: seq<T>, head: T, next: map<T, T>, prev: map<T, T>, nil: T, next': map<T, T>, prev': map<T, T>)
    requires Chain(s, head, next, prev, nil)
    requires forall y :: y in s ==> y in next' && y in prev' && next'[y] == next[y] && prev'[y] == prev[y]
    ensures Chain(s, head, next', prev', nil)
  {
  }

  // ---- singly linked lists ----

  /** `head` starts a null-terminated singly linked list visiting exactly `s`. */
  ghost predicate Path<T>(s: seq<T>, head: T, next: map<T, T>, nil: T) {
    && Distinct(s)
    && nil !in s
    && head == At(s, 0, nil)
    && Linked(s, next, 1, nil)
  }

  lemma PathNone<T>(next: map<T, T>, nil: T)
    ensures Path([], nil, next, nil)
  {
  }

  lemma PathStart<T>(s: seq<T>, head: T, next: map<T, T>, nil: T)
    requires Path(s, head, next, nil)
    ensures head == At(s, 0, nil) && (head == nil <==> s == [])
    ensures nil !in s && Distinct(s) && (forall x :: x in s ==> x in next)
  {
  }

  lemma PathStep<T>(s: seq<T>, head: T, next: map<T, T>, nil: T, i: nat)
    requires Path(s, head, next, nil) && i < |s|
    ensures s[i] in next && next[s[i]] == At(s, i + 1, nil)
  {
  }

  lemma PathFrame<T>(s: seq<T>, head: T, next: map<T, T>, nil: T, next': map<T, T>)
    requires Path(s, head, next, nil)
    requires forall y :: y in s ==> y in next' && next'[y] == next[y]
    ensures Path(s, head, next', nil)
  {
  }

  /** `x` inserted before position `k`, by making its predecessor (or the head) name it. */
  lemma PathInsert<T>(s: seq<T>, head: T, next: map<T, T>, nil: T, k: nat, x: T, head': T, next': map<T, T>)
    requires Path(s, head, next, nil) && k <= |s| && x !in s && x != nil
    requires x in next' && next'[x] == At(s, k, nil)
    requires head' == if k == 0 then x else head
    requires forall i :: 0 <= i < |s| ==> s[i] in next' && next'[s[i]] == if i == k - 1 then x else next[s[i]]
    ensures Path(s[..k] + [x] + s[k..], head', next', nil)
  {
    var t := s[..k] + [x] + s[k..];
    forall i | 0 <= i < |t|
      ensures t[i] in next' && next'[t[i]] == At(t, i + 1, nil)
    {
      if i < k {
        assert t[i] == s[i] && next[s[i]] == At(s, i + 1, nil);
      } else if i > k {
        assert t[i] == s[i - 1] && next[s[i - 1]] == At(s, i, nil);
      }
    }
  }

  /** The node at position `k` unlinked, by making its predecessor (or the head) skip it. */
  lemma PathRemove<T>(s: seq<T>, head: T, next: map<T, T>, nil: T, k: nat, head': T, next': map<T, T>)
    requires Path(s, head, next, nil) && k < |s|
    requires head' == if k == 0 then At(s, 1, nil) else head
    requires forall i :: 0 <= i < |s| && i != k ==>
      s[i] in next' && next'[s[i]] == if i == k - 1 then At(s, k + 1, nil) else next[s[i]]
    ensures Path(s[..k] + s[k + 1..], head', next', nil)
  {
    var t := s[..k] + s[k + 1..];
    forall i | 0 <= i < |t|
      ensures t[i] in next' && next'[t[i]] == At(t, i + 1, nil)
    {
      var j := if i < k then i else i + 1;
      assert t[i] == s[j] && next[s[j]] == At(s, j + 1, nil);
    }
  }

  /** `x` put behind the last node, or made the head of an empty list. */
  lemma PathAppend<T>(s: seq<T>, head: T, next: map<T, T>, nil: T, x: T, head': T, next': map<T, T>)
    requires Path(s, head, next, nil) && x !in s && x != nil
    requires x in next' && next'[x] == nil && head' == if s == [] then x else head
    requires forall y :: y in s ==> y in next' && next'[y] == if y == s[|s| - 1] then x else next[y]
    ensures Path(s + [x], head', next', nil)
  {
    PathInsert(s, head, next, nil, |s|, x, head', next');
    assert s[..|s|] + [x] + s[|s|..] == s + [x];
  }

  /** The first node unlinked. */
  lemma PathPop<T>(s: seq<T>, head: T, next: map<T, T>, nil: T, head': T, next': map<T, T>)
    requires Path(s, head, next, nil) && s != [] && s[0] in next && head' == next[s[0]]
    requires forall y :: y in s && y != s[0] ==> y in next' && next'[y] == next[y]
    ensures Path(s[1..], head', next', nil)
  {
    PathStep(s, head, next, nil, 0);
    PathRemove(s, head, next, nil, 0, head', next');
    assert s[..0] + s[1..] == s[1..];
  }

  /** Two walks from the same head go the same way while the links they follow agree. */
  lemma {:induction false} SameWalk<T>(s: seq<T>, t: seq<T>, head: T, next: map<T, T>, next': map<T, T>, nil: T, k: nat)
    requires Path(s, head, next, nil) && Path(t, head, next', nil) && k < |s|
    requires forall i :: 0 <= i < k ==> s[i] in next' && next'[s[i]] == next[s[i]]
    ensures k < |t| && t[k] == s[k]
  {
    if k > 0 {
      SameWalk(s, t, head, next, next', nil, k - 1);
      PathStep(s, head, next, nil, k - 1);
      PathStep(t, head, next', nil, k - 1);
    }
  }

  // ---- doubly linked lists whose head points back at the tail ----

  /** `head` starts a null-terminated list visiting `s`, with the head's `prev` naming the last node. */
  ghost predicate Rope<T>(s: seq<T>, head: T, next: map<T, T>, prev: map<T, T>, nil: T) {
    && Path(s, head, next, nil)
    && (forall x :: x in s ==> x in prev)
    && (forall i {:trigger prev[s[i]]} :: 0 <= i < |s| ==> prev[s[i]] == if i == 0 then s[|s| - 1] else s[i - 1])
  }

  lemma RopeHead<T>(s: seq<T>, head: T, next: map<T, T>, prev: map<T, T>, nil: T)
    requires Rope(s, head, next, prev, nil)
    ensures nil !in s && Distinct(s) && head == At(s, 0, nil) && (head == nil <==> s == [])
    ensures forall x :: x in s ==> x in next && x in prev
    ensures s != [] ==> head in s && prev[head] == s[|s| - 1] && prev[head] in s && next[prev[head]] == nil
  {
    if s != [] {
      assert prev[s[0]] == s[|s| - 1];
      assert next[s[|s| - 1]] == At(s, |s|, nil);
    }
  }

  /** What an operation on node `x` may rely on. */
  lemma RopeNode<T>(s: seq<T>, head: T, next: map<T, T>, prev: map<T, T>, nil: T, x: T)
    requires Rope(s, head, next, prev, nil) && x in s
    ensures x in next && next[x] == At(s, IndexOf(s, x) + 1, nil) && (next[x] == nil || next[x] in s) && next[x] != x
    ensures x in prev && prev[x] == (if x == head then s[|s| - 1] else s[IndexOf(s, x) - 1]) && prev[x] in s
    ensures x == head <==> IndexOf(s, x) == 0
    ensures x != head ==> prev[x] != x
  {
    var k := IndexOf(s, x);
    assert next[s[k]] == At(s, k + 1, nil);
    assert prev[s[k]] == if k == 0 then s[|s| - 1] else s[k - 1];
  }

  lemma RopeFrame<T>(s: seq<T>, head: T, next: map<T, T>, prev: map<T, T>, nil: T, next': map<T, T>, prev': map<T, T>)
    requires Rope(s, head, next, prev, nil)
    requires forall y :: y in s ==> y in next' && y in prev' && next'[y] == next[y] && prev'[y] == prev[y]
    ensures Rope(s, head, next', prev', nil)
  {
  }

  /** `x` appended: the old tail names it, it names the old tail, and the head names it as tail. */
  lemma RopeAppend<T>(s: seq<T>, head: T, next: map<T, T>, prev: map<T, T>, nil: T, x: T,
                      head': T, next': map<T, T>, prev': map<T, T>)
    requires Rope(s, head, next, prev, nil) && x !in s && x != nil
    requires head' == (if s == [] then x else head)
    requires x in next' && x in prev' && next'[x] == nil
    requires prev'[x] == (if s == [] then x else s[|s| - 1])
    requires forall y :: y in s ==> y in next' && next'[y] == if y == s[|s| - 1] then x else next[y]
    requires forall y :: y in s ==> y in prev' && prev'[y] == if y == head then x else prev[y]
    ensures Rope(s + [x], head', next', prev', nil)
  {
    PathInsert(s, head, next, nil, |s|, x, head', next');
    assert s[..|s|] + [x] + s[|s|..] == s + [x];
    var t := s + [x];
    forall i | 0 <= i < |t|
      ensures t[i] in prev' && prev'[t[i]] == if i == 0 then t[|t| - 1] else t[i - 1]
    {
      if i < |s| {
        assert t[i] == s[i] && prev[s[i]] == if i == 0 then s[|s| - 1] else s[i - 1];
      }
    }
  }

  /** `x` put in front of a list that is not empty. */
  lemma RopePush<T>(s: seq<T>, head: T, next: map<T, T>, prev: map<T, T>, nil: T, x: T,
                    next': map<T, T>, prev': map<T, T>)
    requires Rope(s, head, next, prev, nil) && s != [] && x !in s && x != nil
    requires x in next' && x in prev' && next'[x] == head && prev'[x] == s[|s| - 1]
    requires forall y :: y in s ==> y in next' && next'[y] == next[y]
    requires forall y :: y in s ==> y in prev' && prev'[y] == if y == head then x else prev[y]
    ensures Rope([x] + s, x, next', prev', nil)
  {
    PathInsert(s, head, next, nil, 0, x, x, next');
    assert s[..0] + [x] + s[0..] == [x] + s;
    var t := [x] + s;
    forall i | 0 <= i < |t|
      ensures t[i] in prev' && prev'[t[i]] == if i == 0 then t[|t| - 1] else t[i - 1]
    {
      if i > 0 {
        assert t[i] == s[i - 1] && prev[s[i - 1]] == if i == 1 then s[|s| - 1] else s[i - 2];
      }
    }
  }

  /** The node at position `k` unlinked: its neighbours name each other, and the head names the tail. */
  lemma RopeRemoveAt<T>(s: seq<T>, head: T, next: map<T, T>, prev: map<T, T>, nil: T, k: nat,
                        head': T, next': map<T, T>, prev': map<T, T>)
    requires Rope(s, head, next, prev, nil) && k < |s|
    requires head' == if k == 0 then At(s, 1, nil) else head
    requires forall i :: 0 <= i < |s| && i != k ==> s[i] in next' && s[i] in prev'
    requires forall i :: 0 <= i < |s| && i != k ==> next'[s[i]] == if i == k - 1 then At(s, k + 1, nil) else next[s[i]]
    requires forall i :: 0 <= i < |s| && i != k ==>
               prev'[s[i]] == if i == k + 1 || (i == 0 && k == |s| - 1) then prev[s[k]] else prev[s[i]]
    ensures Rope(s[..k] + s[k + 1..], head', next', prev', nil)
  {
    hide Path;
    PathRemove(s, head, next, nil, k, head', next');
    BackRemoved(s, prev, k, prev');
    var t := s[..k] + s[k + 1..];
    assert forall x :: x in t ==> x in prev' by {
      assert forall i :: 0 <= i < |t| ==> t[i] == s[if i < k then i else i + 1];
    }
  }

  /** The back links after the node at position `k` is gone. */
  lemma BackRemoved<T>(s: seq<T>, prev: map<T, T>, k: nat, prev': map<T, T>)
    requires k < |s| && (forall x :: x in s ==> x in prev)
    requires forall i {:trigger prev[s[i]]} :: 0 <= i < |s| ==> prev[s[i]] == if i == 0 then s[|s| - 1] else s[i - 1]
    requires forall i :: 0 <= i < |s| && i != k ==> s[i] in prev'
    requires forall i :: 0 <= i < |s| && i != k ==>
               prev'[s[i]] == if i == k + 1 || (i == 0 && k == |s| - 1) then prev[s[k]] else prev[s[i]]
    ensures var t := s[..k] + s[k + 1..];
      forall i {:trigger prev'[t[i]]} :: 0 <= i < |t| ==> t[i] in prev' && prev'[t[i]] == if i == 0 then t[|t| - 1]
        else t[i - 1]
  {
    var t := s[..k] + s[k + 1..];
    assert prev[s[k]] == if k == 0 then s[|s| - 1] else s[k - 1];
    forall i | 0 <= i < |t|
      ensures t[i] in prev' && prev'[t[i]] == if i == 0 then t[|t| - 1] else t[i - 1]
    {
      var j := if i < k then i else i + 1;
      assert t[i] == s[j] && prev[s[j]] == if j == 0 then s[|s| - 1] else s[j - 1];
    }
  }

  /** `x` linked in before position `k` of a list that is not empty, or behind its last node. */
  lemma RopeInsert<T>(s: seq<T>, head: T, next: map<T, T>, prev: map<T, T>, nil: T, k: nat, x: T,
                      head': T, next': map<T, T>, prev': map<T, T>)
    requires Rope(s, head, next, prev, nil) && s != [] && k <= |s| && x !in s && x != nil
    requires head' == if k == 0 then x else head
    requires x in next' && next'[x] == At(s, k, nil)
    requires x in prev' && prev'[x] == if k == 0 then s[|s| - 1] else s[k - 1]
    requires forall i :: 0 <= i < |s| ==> s[i] in next' && next'[s[i]] == if i == k - 1 then x else next[s[i]]
    requires forall i :: 0 <= i < |s| ==>
      s[i] in prev' && prev'[s[i]] == if i == k || (i == 0 && k == |s|) then x else prev[s[i]]
    ensures Rope(s[..k] + [x] + s[k..], head', next', prev', nil)
  {
    hide Path;
    PathInsert(s, head, next, nil, k, x, head', next');
    var t := s[..k] + [x] + s[k..];
    forall i | 0 <= i < |t|
      ensures t[i] in prev' && prev'[t[i]] == if i == 0 then t[|t| - 1] else t[i - 1]
    {
      if i != k {
        var j := if i < k then i else i - 1;
        assert t[i] == s[j] && prev[s[j]] == if j == 0 then s[|s| - 1] else s[j - 1];
      }
    }
    assert forall y :: y in t ==> y == x || y in s;
    assert forall y :: y in s ==> y in prev' by {
      assert forall y :: y in s ==> exists i :: 0 <= i < |s| && s[i] == y;
    }
  }

  /** What the node at position `i` names. */
  lemma RopeAt<T>(s: seq<T>, head: T, next: map<T, T>, prev: map<T, T>, nil: T, i: nat)
    requires Rope(s, head, next, prev, nil) && i < |s|
    ensures s[i] in next && next[s[i]] == At(s, i + 1, nil) && s[i] != nil
    ensures s[i] in prev && prev[s[i]] == if i == 0 then s[|s| - 1] else s[i - 1]
    ensures s[i] == head <==> i == 0
  {
  }

  lemma RopeRemove<T>(s: seq<T>, head: T, next: map<T, T>, prev: map<T, T>, nil: T, x: T,
                      head': T, next': map<T, T>, prev': map<T, T>)
    requires Rope(s, head, next, prev, nil) && x in s && x in next && x in prev
    requires head' == if x == head then next[x] else head
    requires forall y :: y in s && y != x ==>
      y in next' && next'[y] == if y == prev[x] && x != head then next[x] else next[y]
    requires forall y :: y in s && y != x ==>
               y in prev' && prev'[y] == if y == next[x] || (y == head && next[x] == nil) then prev[x] else prev[y]
    ensures Rope(Without(s, x), head', next', prev', nil)
  {
    hide Rope;
    var k := IndexOf(s, x);
    RopeNode(s, head, next, prev, nil, x);
    RopeHead(s, head, next, prev, nil);
    hide IndexOf;
    forall i | 0 <= i < |s| && i != k
      ensures s[i] in next' && next'[s[i]] == if i + 1 == k then At(s, k + 1, nil) else next[s[i]]
      ensures s[i] in prev' && prev'[s[i]] == if i == k + 1 || (i == 0 && k == |s| - 1) then prev[s[k]] else prev[s[i]]
    {
      assert s[i] != x;
    }
    RopeRemoveAt(s, head, next, prev, nil, k, head', next', prev');
  }

  // ---- what the nodes of a list hold ----

  ghost function Listed<P, T>(list: seq<P>, at: map<P, T>): (r: seq<T>)
    requires forall x :: x in list ==> x in at
    ensures |r| == |list|
  {
    seq(|list|, i requires 0 <= i < |list| => at[list[i]])
  }

  lemma ListedInserted<P, T>(list: seq<P>, at: map<P, T>, k: nat, x: P)
    requires (forall y :: y in list ==> y in at) && x in at && k <= |list|
    ensures Listed(list[..k] + [x] + list[k..], at) == Listed(list, at)[..k] + [at[x]] + Listed(list, at)[k..]
  {
  }

  lemma ListedRemoved<P, T>(list: seq<P>, at: map<P, T>, k: nat)
    requires (forall y :: y in list ==> y in at) && k < |list|
    ensures (forall y :: y in list[..k] + list[k + 1..] ==> y in at)
    ensures Listed(list[..k] + list[k + 1..], at) == Listed(list, at)[..k] + Listed(list, at)[k + 1..]
  {
  }

  /** Something new about a node that is not in the list. */
  lemma ListedFrame<P, T>(list: seq<P>, at: map<P, T>, x: P, v: T)
    requires (forall y :: y in list ==> y in at) && x !in list
    ensures Listed(list, at[x := v]) == Listed(list, at)
  {
  }

  lemma ListedUpdated<P, T>(list: seq<P>, at: map<P, T>, k: nat, v: T)
    requires (forall y :: y in list ==> y in at) && k < |list| && Distinct(list)
    ensures Listed(list, at[list[k] := v]) == Listed(list, at)[k := v]
  {
  }
}
