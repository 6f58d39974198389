/** The regions of a process as mm/mmap.c keeps them: records linked both ways, the first one naming the last. */
module RegionList {
  import opened Links
  import opened Chains
  import opened Vma
  import opened VmaCalls

  /** The list that starts at `table` has the given nodes, and their records are `vmas`. */
  ghost predicate Held(table: Ptr, next: map<Ptr, Ptr>, prev: map<Ptr, Ptr>, regions: map<Ptr, Region>, top: Ptr,
                       nodes: seq<Ptr>, vmas: seq<Region>) {
    && Rope<Ptr>(nodes, table, next, prev, NULL) && top > 0
    && (forall x :: x in nodes ==> x in regions && x < top)
    && vmas == Listed(nodes, regions)
  }

  lemma Added(table: Ptr, next: map<Ptr, Ptr>, prev: map<Ptr, Ptr>, nodes: seq<Ptr>, x: Ptr)
    requires Rope<Ptr>(nodes, table, next, prev, NULL) && nodes != [] && x !in nodes && x != NULL && x in next
    requires next[x] == NULL
    ensures table in prev
    ensures Rope<Ptr>(nodes + [x], table, next[prev[table] := x], prev[x := prev[table]][table := x], NULL)
  {
    hide Rope;
    RopeHead(nodes, table, next, prev, NULL);
    var next', prev' := next[prev[table] := x], prev[x := prev[table]][table := x];
    forall i | 0 <= i < |nodes|
      ensures nodes[i] in next' && next'[nodes[i]] == if i == |nodes| - 1 then x else next[nodes[i]]
      ensures nodes[i] in prev'
      ensures prev'[nodes[i]] == if i == |nodes| || (i == 0 && |nodes| == |nodes|) then x else prev[nodes[i]]
    {
      assert nodes[i] in nodes;
    }
    RopeInsert<Ptr>(nodes, table, next, prev, NULL, |nodes|, x, table, next', prev');
    assert nodes[..|nodes|] + [x] + nodes[|nodes|..] == nodes + [x];
  }

  lemma Put(table: Ptr, next: map<Ptr, Ptr>, prev: map<Ptr, Ptr>, nodes: seq<Ptr>, x: Ptr, k: nat)
    requires Rope<Ptr>(nodes, table, next, prev, NULL) && k < |nodes| && x !in nodes && x != NULL
    ensures nodes[k] in prev && (k > 0 ==> prev[nodes[k]] == nodes[k - 1])
    ensures var at := nodes[k]; var links := next[x := at];
      Rope<Ptr>(nodes[..k] + [x] + nodes[k..], if k == 0 then x else table, if k == 0 then links
        else links[prev[at] := x], prev[x := prev[at]][at := x], NULL)
  {
    hide Rope;
    RopeHead(nodes, table, next, prev, NULL);
    RopeAt(nodes, table, next, prev, NULL, k);
    var at := nodes[k];
    var next', prev' := if k == 0 then next[x := at] else next[x := at][prev[at] := x], prev[x := prev[at]][at := x];
    forall i | 0 <= i < |nodes|
      ensures nodes[i] in next' && next'[nodes[i]] == if i == k - 1 then x else next[nodes[i]]
      ensures nodes[i] in prev' && prev'[nodes[i]] == if i == k || (i == 0 && k == |nodes|) then x else prev[nodes[i]]
    {
      assert nodes[i] in nodes;
    }
    RopeInsert<Ptr>(nodes, table, next, prev, NULL, k, x, if k == 0 then x else table, next', prev');
  }

  lemma HeldMore(table: Ptr, next: map<Ptr, Ptr>, prev: map<Ptr, Ptr>, regions: map<Ptr, Region>, top: Ptr,
    nodes: seq<Ptr>, vmas: seq<Region>,
                 k: nat, x: Ptr, table': Ptr, next': map<Ptr, Ptr>, prev': map<Ptr, Ptr>)
    requires Held(table, next, prev, regions, top, nodes, vmas) && k <= |nodes| && x in regions && x < top
    requires Rope<Ptr>(nodes[..k] + [x] + nodes[k..], table', next', prev', NULL)
    ensures |vmas| == |nodes|
    ensures Held(table', next', prev', regions, top, nodes[..k] + [x] + nodes[k..], vmas[..k] + [regions[x]]
      + vmas[k..])
  {
    hide Rope;
    ListedInserted(nodes, regions, k, x);
    assert forall y :: y in nodes[..k] + [x] + nodes[k..] ==> y == x || y in nodes;
  }

  lemma HeldLess(table: Ptr, next: map<Ptr, Ptr>, prev: map<Ptr, Ptr>, regions: map<Ptr, Region>, top: Ptr,
    nodes: seq<Ptr>, vmas: seq<Region>,
                 k: nat, table': Ptr, next': map<Ptr, Ptr>, prev': map<Ptr, Ptr>)
    requires Held(table, next, prev, regions, top, nodes, vmas) && k < |nodes|
    requires Rope<Ptr>(nodes[..k] + nodes[k + 1..], table', next', prev', NULL)
    ensures |vmas| == |nodes|
    ensures Held(table', next', prev', regions - {nodes[k]}, top, nodes[..k] + nodes[k + 1..], vmas[..k]
      + vmas[k + 1..])
  {
    hide Rope;
    RopeHead(nodes, table, next, prev, NULL);
    LessMembers(nodes, k);
    hide Distinct;
    ListedRemoved(nodes, regions, k);
    StillListed(nodes[..k] + nodes[k + 1..], regions, nodes[k]);
  }

  lemma LessMembers(nodes: seq<Ptr>, k: nat)
    requires Distinct(nodes) && k < |nodes|
    ensures forall y :: y in nodes[..k] + nodes[k + 1..] ==> y in nodes && y != nodes[k]
  {
  }

  lemma StillListed(nodes: seq<Ptr>, regions: map<Ptr, Region>, x: Ptr)
    requires (forall y :: y in nodes ==> y in regions) && x !in nodes
    ensures forall y :: y in nodes ==> y in regions - {x}
    ensures Listed(nodes, regions - {x}) == Listed(nodes, regions)
  {
  }

  class Regions {
    var table: Ptr
    var next: map<Ptr, Ptr>
    var prev: map<Ptr, Ptr>
    var regions: map<Ptr, Region>
    var top: Ptr
    ghost var nodes: seq<Ptr>
    ghost var vmas: seq<Region>

    ghost predicate Valid()
      reads this
    {
      Held(table, next, prev, regions, top, nodes, vmas)
    }

    constructor ()
      ensures Valid() && vmas == []
    {
      table, next, prev, regions, top, nodes, vmas := NULL, map[], map[], map[], 1, [], [];
    }

    lemma Start()
      requires Valid()
      ensures |nodes| == |vmas| && Distinct(nodes) && NULL !in nodes && table == At(nodes, 0, NULL)
      ensures table == NULL <==> vmas == []
      ensures forall x :: x in nodes ==> x < top
    {
      RopeHead(nodes, table, next, prev, NULL);
    }

    /** What the walk finds at position `i`. */
    lemma Node(i: nat)
      requires Valid() && i < |nodes|
      ensures |nodes| == |vmas| && nodes[i] in regions && regions[nodes[i]] == vmas[i] && nodes[i] != NULL
      ensures nodes[i] in next && next[nodes[i]] == At(nodes, i + 1, NULL)
      ensures nodes[i] in prev && prev[nodes[i]] == if i == 0 then nodes[|nodes| - 1] else nodes[i - 1]
    {
      hide Rope;
      RopeAt(nodes, table, next, prev, NULL, i);
    }

    lemma AtEnd(k: nat)
      requires Valid() && k <= |nodes| && At(nodes, k, NULL) == NULL
      ensures k == |nodes| == |vmas|
    {
      Start();
      assert forall i :: 0 <= i < |nodes| ==> nodes[i] in nodes;
    }

    /** A new record, on no list yet. */
    method NewNode(v: Region) returns (x: Ptr)
      requires Valid()
      modifies this`next, this`prev, this`regions, this`top
      ensures Valid() && x !in nodes && x != NULL && x < top && x in regions && regions[x] == v
      ensures x in next && next[x] == NULL && x in prev && prev[x] == NULL
    {
      hide Rope;
      x := top;
      RopeHead(nodes, table, next, prev, NULL);
      RopeFrame(nodes, table, next, prev, NULL, next[x := NULL], prev[x := NULL]);
      ListedFrame(nodes, regions, x, v);
      next, prev, regions, top := next[x := NULL], prev[x := NULL], regions[x := v], top + 1;
    }

    /** The first region of all. */
    method MakeFirst(x: Ptr)
      requires Valid() && nodes == [] && x != NULL && x < top && x in regions && x in next && next[x] == NULL
      modifies this`table, this`prev, this`nodes, this`vmas
      ensures Valid() && nodes == [x] && vmas == [regions[x]]
    {
      table := x;
      prev := prev[table := x];
      nodes := [x];
      vmas := [regions[x]];
    }

    /** Links a record in before the one at `at`, which is the k-th, or behind all of them. */
    method LinkBefore(x: Ptr, at: Ptr, ghost k: nat)
      requires Valid() && nodes != [] && k <= |nodes| && at == At(nodes, k, NULL)
      requires x !in nodes && x != NULL && x < top && x in regions && x in next && next[x] == NULL
      modifies this`table, this`next, this`prev, this`nodes, this`vmas
      ensures Valid() && |old(vmas)| == |old(nodes)|
      ensures nodes == old(nodes)[..k] + [x] + old(nodes)[k..] && vmas == old(vmas)[..k] + [regions[x]] + old(vmas)[k..]
    {
      hide Rope;
      hide Held;
      Linkable();
      ghost var t, n, v := table, next, prev;
      Start();
      assert k < |nodes| ==> nodes[k] in nodes;
      if at == NULL {
        Added(table, next, prev, nodes, x);
        assert nodes[..k] + [x] + nodes[k..] == nodes + [x];
        prev := prev[x := prev[table]];
        next := next[prev[table] := x];
        prev := prev[table := x];
      } else {
        Put(table, next, prev, nodes, x, k);
        prev := prev[x := prev[at]];
        next := next[x := at];
        if at == table {
          table := x;
        } else {
          next := next[prev[at] := x];
        }
        prev := prev[at := x];
      }
      HeldMore(t, n, v, regions, top, nodes, vmas, k, x, table, next, prev);
      nodes := nodes[..k] + [x] + nodes[k..];
      vmas := vmas[..k] + [regions[x]] + vmas[k..];
    }

    lemma Linkable()
      requires Valid()
      ensures Rope<Ptr>(nodes, table, next, prev, NULL) && (nodes != [] ==> table in prev && prev[table] in nodes)
    {
      RopeHead(nodes, table, next, prev, NULL);
    }

    /** del_vma_region(): the neighbours name each other, and the record is freed. */
    method DelVmaRegion(x: Ptr, ghost k: nat)
      requires Valid() && k < |nodes| && x == nodes[k]
      modifies this`table, this`next, this`prev, this`regions, this`nodes, this`vmas
      ensures Valid() && |old(vmas)| == |old(nodes)|
      ensures nodes == old(nodes)[..k] + old(nodes)[k + 1..] && vmas == old(vmas)[..k] + old(vmas)[k + 1..]
      ensures regions == old(regions) - {x}
    {
      hide Rope;
      hide Held;
      hide Without;
      hide IndexOf;
      ghost var t, n, v := table, next, prev;
      Linkable();
      RopeHead(nodes, table, next, prev, NULL);
      assert x in nodes;
      RopeNode(nodes, table, next, prev, NULL, x);
      WithoutAt(nodes, k);
      Splice(x);
      RopeRemove(nodes, t, n, v, NULL, x, table, next, prev);
      HeldLess(t, n, v, regions, top, nodes, vmas, k, table, next, prev);
      nodes := nodes[..k] + nodes[k + 1..];
      vmas := vmas[..k] + vmas[k + 1..];
      regions := regions - {x};
    }

    /** The writes of del_vma_region(). */
    method Splice(x: Ptr)
      requires x in next && x in prev && table in prev && next[x] != x
      requires prev[x] in next && prev[x] != NULL && (next[x] != NULL ==> next[x] in prev)
      requires (x != table ==> prev[x] != x)
      modifies this`table, this`next, this`prev
      ensures table == if x == old(table) then old(next[x]) else old(table)
      ensures next.Keys == old(next.Keys) && prev.Keys == old(prev.Keys)
      ensures forall y :: y in next && y != x ==>
        next[y] == if y == old(prev[x]) && x != old(table) then old(next[x]) else old(next)[y]
      ensures forall y :: y in prev && y != x ==>
        prev[y] == if y == (if old(next[x]) == NULL then old(table) else old(next[x])) then old(prev[x])
          else old(prev)[y]
    {
      if next[x] != NULL {
        prev := prev[next[x] := prev[x]];
      }
      if prev[x] != NULL {
        if x != table {
          next := next[prev[x] := next[x]];
        }
      }
      if next[x] == NULL {
        prev := prev[table := prev[x]];
      }
      if x == table {
        table := next[x];
      }
    }

    /** A record is changed where it is. */
    method Change(x: Ptr, v: Region, ghost k: nat)
      requires Valid() && k < |nodes| && x == nodes[k]
      modifies this`regions, this`vmas
      ensures Valid() && |old(vmas)| == |nodes| && vmas == old(vmas)[k := v] && regions == old(regions)[x := v]
    {
      hide Rope;
      RopeHead(nodes, table, next, prev, NULL);
      ListedUpdated(nodes, regions, k, v);
      regions := regions[x := v];
      vmas := vmas[k := v];
    }

    /** The place of a new region: before the first that starts behind it. */
    method Place(start: nat) returns (at: Ptr, ghost k: nat)
      requires Valid()
      ensures |nodes| == |vmas| && k == Before(vmas, start) && at == At(nodes, k, NULL)
    {
      hide Held;
      Start();
      at, k := table, 0;
      while at != NULL
        invariant 0 <= k <= |nodes| && at == At(nodes, k, NULL) && forall i :: 0 <= i < k ==> vmas[i].start <= start
        decreases |nodes| - k
      {
        Node(k);
        if regions[at].start > start {
          break;
        }
        at := next[at];
        k := k + 1;
      }
      assert k < |nodes| ==> nodes[k] in nodes;
      if k < |nodes| {
        Node(k);
      }
      BeforeIs(vmas, start, k);
    }

    /** add_vma_region() */
    method AddVmaRegion(v: Region)
      requires Valid() && Rising(vmas) && v.start < v.end
      modifies this
      ensures Valid() && vmas == Inserted(old(vmas), v)
    {
      hide Held;
      hide Inserted;
      Start();
      if table == NULL {
        var x := NewNode(v);
        Start();
        InsertedFirst(v);
        MakeFirst(x);
      } else {
        InsertVmaRegion(v);
      }
    }

    /**
      * insert_vma_region(): a region in its place, merged with the one before it where the two are one mapping. One
      * that reaches into the new region is cut short, and what it had behind is inserted in turn.
      */
    method InsertVmaRegion(v: Region)
      requires Valid() && Rising(vmas) && vmas != [] && v.start < v.end
      modifies this
      ensures Valid() && vmas == Inserted(old(vmas), v)
      decreases Top(vmas) - v.start, 1
    {
      hide Held;
      hide Inserted;
      hide Top;
      hide Rising;
      Start();
      var x := NewNode(v);
      Start();
      var at, k := Place(v.start);
      ghost var vs := vmas;
      LinkBefore(x, at, k);
      Start();
      Node(k);
      var p := prev[x];
      ghost var j := if k == 0 then |nodes| - 1 else k - 1;
      Node(j);
      Neighbour(vs, v, k);
      if x != p && v.start >= regions[p].start && v.start <= regions[p].end {
        MergeVmaRegions(p, x, k, vs, v);
      } else {
        InsertedBeside(vs, v, k);
      }
    }

    /** merge_vma_regions(), for the region just linked in at position `k` and the one before it. */
    method MergeVmaRegions(p: Ptr, x: Ptr, ghost k: nat, ghost vs: seq<Region>, v: Region)
      requires Valid() && |vs| + 1 == |nodes| && 0 < k <= |vs| && k == Before(vs, v.start) && Rising(vs)
      requires p == nodes[k - 1] && x == nodes[k] && vmas == vs[..k] + [v] + vs[k..] && v.start < v.end
      requires vs[k - 1].start <= v.start <= vs[k - 1].end
      modifies this
      ensures Valid() && vmas == Inserted(vs, v)
      decreases Top(vs) - v.start, 0
    {
      hide Held;
      hide CanMerge;
      hide Inserted;
      hide Before;
      hide Rising;
      hide Top;
      Start();
      Node(k - 1);
      var a := regions[p];
      if v.start == a.end {
        if CanMerge(a, v) {
          MergedList(vs, v, k);
          InsertedJoined(vs, v, k);
          Change(p, a.(end := v.end), k - 1);
          DelVmaRegion(x, k);
        } else {
          InsertedBeside(vs, v, k);
        }
        return;
      }
      InsertedShortened(vs, v);
      ShortenedRising(vs, v);
      ShortenedList(vs, v, k);
      Change(p, a.(end := v.start), k - 1);
      if a.start == v.start {
        DelVmaRegion(p, k - 1);
      }
      if v.end < a.end {
        ShortenedTop(vs, v);
        InsertVmaRegion(a.(start := v.end));
      }
    }
  }

  /** The region whose record the new one's `prev` names: the one before it, or the last, which starts behind it. */
  lemma Neighbour(vs: seq<Region>, v: Region, k: nat)
    requires vs != [] && k == Before(vs, v.start) && k <= |vs| && Rising(vs)
    ensures var us := vs[..k] + [v] + vs[k..];
      && (k == 0 ==> us[|us| - 1].start > v.start)
      && (k > 0 ==> us[k - 1] == vs[k - 1] && vs[k - 1].start <= v.start)
  {
    if k == 0 {
      assert vs[0].start > v.start;
    }
  }

  lemma MergedList(vs: seq<Region>, v: Region, k: nat)
    requires 0 < k <= |vs|
    ensures var us := vs[..k] + [v] + vs[k..]; var ws := us[k - 1 := vs[k - 1].(end := v.end)];
      ws[..k] + ws[k + 1..] == vs[..k - 1] + [vs[k - 1].(end := v.end)] + vs[k..]
  {
  }

  lemma ShortenedList(vs: seq<Region>, v: Region, k: nat)
    requires 0 < k == Before(vs, v.start)
    ensures var b := vs[k - 1]; var us := (vs[..k] + [v] + vs[k..])[k - 1 := b.(end := v.start)];
      Shortened(vs, v) == (if b.start == v.start then us[..k - 1] + us[k..] else us) && Shortened(vs, v) != []
  {
    hide Before;
  }

  lemma InsertedFirst(v: Region)
    ensures Inserted([], v) == [v]
  {
    assert Before([], v.start) == 0;
    assert [][..0] + [v] + [][0..] == [v];
  }

  /** The new region beside the one before it. */
  lemma InsertedBeside(vs: seq<Region>, v: Region, k: nat)
    requires k <= |vs| && k == Before(vs, v.start)
    requires k == 0 || vs[k - 1].end < v.start || (vs[k - 1].end == v.start && !CanMerge(vs[k - 1], v))
    ensures Inserted(vs, v) == vs[..k] + [v] + vs[k..]
  {
    hide Before;
    hide Inserted;
    InsertedPlaced(vs, v);
    BesideIs(vs, v, k);
  }

  /** One region in place of both. */
  lemma InsertedJoined(vs: seq<Region>, v: Region, k: nat)
    requires 0 < k == Before(vs, v.start) && CanMerge(vs[k - 1], v)
    ensures Inserted(vs, v) == vs[..k - 1] + [vs[k - 1].(end := v.end)] + vs[k..]
  {
    hide Before;
    hide Inserted;
    MergedMeet(vs[k - 1], v);
    InsertedPlaced(vs, v);
    BesideIs(vs, v, k);
  }

  lemma BesideIs(vs: seq<Region>, v: Region, k: nat)
    requires k <= |vs|
    ensures Beside(vs[..k], v)
      == if k > 0 && CanMerge(vs[k - 1], v) then vs[..k - 1] + [vs[k - 1].(end := v.end)] else vs[..k] + [v]
  {
    hide CanMerge;
    if k > 0 {
      assert vs[..k][..k - 1] == vs[..k - 1];
    }
  }

  lemma MergedMeet(a: Region, v: Region)
    ensures CanMerge(a, v) ==> v.start == a.end
  {
  }
}
