/** The regions of an address space as a list of values, and the pages they show (mm/mmap.c). */
module Vma {
  import opened Prelude

  const PAGE_SIZE := 4096
  const USER_TOP := 0x8000_0000_0000
  const MMAP_START := 0x4000_0000_0000
  /** vma->offset is an unsigned int. */
  const OFFSETS := 0x1_0000_0000
  /** __size_t and __ssize_t are 32 bits wide, addresses 64. */
  const SIZES := 0x1_0000_0000
  const HALF := 0x8000_0000
  const WORD := 0x1_0000_0000_0000_0000
  const P_SHM := 7

  datatype Mode = ReadOnly | WriteOnly | ReadWrite

  /** inode 0 is an anonymous region; vma->prot is a char. */
  datatype Region =
    Region(start: nat, end: nat, prot: bv8, flags: bv32, offset: nat, stype: nat, inode: nat, mode: Mode)

  /**
    * What a page is: its protection, its flags, its section and, for a file page, the low 32 bits of its file offset.
    */
  datatype Page = Page(prot: bv8, flags: bv32, stype: nat, inode: nat, offset: nat)

  function PageOf(v: Region, p: int): Page {
    Page(v.prot, v.flags, v.stype, v.inode, if v.inode == 0 then 0 else (v.offset + p - v.start) % OFFSETS)
  }

  predicate In(v: Region, p: int) {
    v.start <= p < v.end
  }

  /** The page at an address, found as find_vma_region() does: the first region that holds it. */
  ghost function Look(vs: seq<Region>, p: int): Option<Page> {
    if vs == [] then None else if In(vs[0], p) then Some(PageOf(vs[0], p)) else Look(vs[1..], p)
  }

  predicate Aligned(a: int) {
    a % PAGE_SIZE == 0
  }

  predicate Sound(v: Region) {
    0 < v.start < v.end <= USER_TOP && Aligned(v.start) && Aligned(v.end) && v.offset < OFFSETS
  }

  ghost predicate Below(vs: seq<Region>, a: int) {
    forall i :: 0 <= i < |vs| ==> vs[i].end <= a
  }

  ghost predicate Above(vs: seq<Region>, a: int) {
    forall i :: 0 <= i < |vs| ==> a <= vs[i].start
  }

  /** Sorted and disjoint. */
  ghost predicate Ok(vs: seq<Region>) {
    && (forall i :: 0 <= i < |vs| ==> Sound(vs[i]))
    && (forall i, j :: 0 <= i < j < |vs| ==> vs[i].end <= vs[j].start)
  }

  // ---- looking at lists put together ----

  lemma {:induction false} LookBoth(a: seq<Region>, b: seq<Region>, p: int)
    ensures Look(a + b, p) == if Look(a, p).None? then Look(b, p) else Look(a, p)
  {
    if a == [] {
      assert a + b == b;
    } else {
      assert (a + b)[1..] == a[1..] + b;
      LookBoth(a[1..], b, p);
    }
  }

  lemma {:induction false} LookNone(vs: seq<Region>, p: int)
    ensures Look(vs, p).None? <==> forall i :: 0 <= i < |vs| ==> !In(vs[i], p)
  {
    if vs != [] {
      LookNone(vs[1..], p);
      assert vs == [vs[0]] + vs[1..];
    }
  }

  lemma LookAround(a: seq<Region>, m: seq<Region>, b: seq<Region>, p: int)
    ensures Look(a + m + b, p)
      == if Look(a, p).Some? then Look(a, p) else if Look(m, p).Some? then Look(m, p) else Look(b, p)
  {
    LookBoth(a + m, b, p);
    LookBoth(a, m, p);
  }

  lemma OkSplit(vs: seq<Region>, i: nat)
    requires Ok(vs) && i < |vs|
    ensures vs == vs[..i] + [vs[i]] + vs[i + 1..] && Ok(vs[..i]) && Ok(vs[i + 1..])
    ensures Sound(vs[i]) && Below(vs[..i], vs[i].start) && Above(vs[i + 1..], vs[i].end)
  {
  }

  lemma OkJoin(a: seq<Region>, m: seq<Region>, b: seq<Region>, s: int, e: int)
    requires Ok(a) && Ok(m) && Ok(b) && Below(a, s) && Above(m, s) && Below(m, e) && Above(b, e) && s <= e
    ensures Ok(a + m + b)
  {
    var r := a + m + b;
    forall i, j | 0 <= i < j < |r| ensures r[i].end <= r[j].start {
      if j < |a| {
      } else if i < |a| {
        assert s <= r[j].start;
      } else if i < |a| + |m| {
        assert r[i] == m[i - |a|];
        if j >= |a| + |m| {
          assert r[j] == b[j - |a| - |m|];
        }
      } else {
        assert r[i] == b[i - |a| - |m|] && r[j] == b[j - |a| - |m|];
      }
    }
  }

  // ---- a region replaced in place by pieces of itself ----

  /** Pieces that lie in `v` and show its pages on the part that they hold. */
  lemma LookPieces(vs: seq<Region>, i: nat, m: seq<Region>, p: int)
    requires Ok(vs) && i < |vs|
    requires !In(vs[i], p) ==> Look(m, p).None?
    ensures Look(vs[..i] + m + vs[i + 1..], p) == if In(vs[i], p) then Look(m, p) else Look(vs, p)
  {
    OkSplit(vs, i);
    LookAround(vs[..i], m, vs[i + 1..], p);
    LookAround(vs[..i], [vs[i]], vs[i + 1..], p);
    LookNone(vs[..i], p);
    LookNone(vs[i + 1..], p);
  }

  lemma LookHere(vs: seq<Region>, i: nat, p: int)
    requires Ok(vs) && i < |vs| && In(vs[i], p)
    ensures Look(vs, p) == Some(PageOf(vs[i], p))
  {
    OkSplit(vs, i);
    LookPieces(vs, i, [vs[i]], p);
  }

  /** A region from `a` to the end of `v`, with the file offset that `v` has there. */
  function Tail(v: Region, a: nat): (t: Region)
    ensures t.start == a && t.end == v.end && t.prot == v.prot && t.inode == v.inode && t.offset < OFFSETS
  {
    v.(start := a, offset := (v.offset + (a - v.start)) % OFFSETS)
  }

  lemma TailPages(v: Region, a: nat, p: int)
    ensures PageOf(Tail(v, a), p) == PageOf(v, p)
  {
    var x, y := v.offset + (a - v.start), p - a;
    assert (x % OFFSETS + y) % OFFSETS == (x + y) % OFFSETS;
  }

  function Head(v: Region, a: nat): seq<Region> {
    if v.start == a then [] else [v.(end := a)]
  }

  /** What is left of a region when a range is cut out of it. */
  function Remains(v: Region, a: nat, e: nat): seq<Region>
    requires v.start <= a <= e <= v.end
  {
    Head(v, a) + (if e < v.end then [Tail(v, e)] else [])
  }

  lemma RemainsPages(v: Region, a: nat, e: nat, p: int)
    requires v.start <= a <= e <= v.end
    ensures Look(Remains(v, a, e), p) == if In(v, p) && !(a <= p < e) then Some(PageOf(v, p)) else None
  {
    var l, r := if v.start == a then [] else [v.(end := a)], if e < v.end then [Tail(v, e)] else [];
    LookBoth(l, r, p);
    TailPages(v, e, p);
  }

  lemma RemainsOk(vs: seq<Region>, i: nat, a: nat, e: nat)
    requires Ok(vs) && i < |vs| && vs[i].start <= a <= e <= vs[i].end && Aligned(a) && Aligned(e)
    ensures Ok(vs[..i] + Remains(vs[i], a, e) + vs[i + 1..])
  {
    OkSplit(vs, i);
    OkJoin(vs[..i], Remains(vs[i], a, e), vs[i + 1..], vs[i].start, vs[i].end);
  }

  // ---- putting a region in ----

  /** How many regions start at or before `a`. */
  ghost function Before(vs: seq<Region>, a: nat): (k: nat)
    ensures k <= |vs| && (forall i :: 0 <= i < k ==> vs[i].start <= a) && (k < |vs| ==> vs[k].start > a)
  {
    if vs == [] || vs[0].start > a then 0 else 1 + Before(vs[1..], a)
  }

  predicate CanMerge(a: Region, b: Region) {
    && a.end == b.start && a.prot == b.prot && a.flags == b.flags
    && (if a.inode != 0 then b.offset == a.offset + (b.start - a.start) else a.offset == b.offset)
    && a.stype == b.stype && a.stype != P_SHM && a.inode == b.inode
  }

  /** The new region beside the one before it, or one region in place of both. */
  function Beside(a: seq<Region>, v: Region): seq<Region> {
    if a != [] && CanMerge(a[|a| - 1], v) then a[..|a| - 1] + [a[|a| - 1].(end := v.end)] else a + [v]
  }

  lemma BesideLast(a: seq<Region>, w: Region, v: Region)
    ensures Beside(a + [w], v) == a + Beside([w], v)
  {
    hide CanMerge;
    assert (a + [w])[..|a|] == a;
    if CanMerge(w, v) {
      assert a + [w.(end := v.end)] == a + ([w][..0] + [w.(end := v.end)]);
    } else {
      assert a + [w] + [v] == a + ([w] + [v]);
    }
  }

  ghost function Placed(vs: seq<Region>, v: Region): seq<Region> {
    var k := Before(vs, v.start);
    Beside(vs[..k], v) + vs[k..]
  }

  /** The largest end. */
  ghost function Top(vs: seq<Region>): (m: nat)
    ensures forall i :: 0 <= i < |vs| ==> vs[i].end <= m
    ensures m > 0 ==> exists i :: 0 <= i < |vs| && vs[i].end == m
  {
    if vs == [] then 0
    else
      var n := |vs| - 1;
      if vs[n].end > Top(vs[..n]) then vs[n].end else Top(vs[..n])
  }

  /** The new region cuts short the one before it that reaches into it. */
  ghost function Shortened(vs: seq<Region>, v: Region): seq<Region>
    requires 0 < Before(vs, v.start)
  {
    var k := Before(vs, v.start);
    vs[..k - 1] + Head(vs[k - 1], v.start) + [v] + vs[k..]
  }

  lemma ShortenedTop(vs: seq<Region>, v: Region)
    requires 0 < Before(vs, v.start) && v.start < v.end < vs[Before(vs, v.start) - 1].end
    ensures Top(Shortened(vs, v)) <= Top(vs)
  {
    hide Before;
    var k := Before(vs, v.start);
    var us := Shortened(vs, v);
    assert forall i :: 0 <= i < |us| ==> us[i] in us;
    assert forall u :: u in vs[..k - 1] || u in vs[k..] ==> u in vs;
    forall i | 0 <= i < |us| ensures us[i].end <= Top(vs) {
      assert us[i] in vs[..k - 1] || us[i] in Head(vs[k - 1], v.start) || us[i] == v || us[i] in vs[k..];
    }
  }

  /**
    * insert_vma_region(): what is left of the shortened region behind the new one is inserted in turn, with the file
    * offset of the whole.
    */
  ghost function Inserted(vs: seq<Region>, v: Region): seq<Region>
    decreases Top(vs) - v.start
  {
    var k := Before(vs, v.start);
    if k == 0 || vs[k - 1].end <= v.start then Placed(vs, v)
    else if v.start < v.end < vs[k - 1].end then
      ShortenedTop(vs, v);
      Inserted(Shortened(vs, v), vs[k - 1].(start := v.end))
    else Shortened(vs, v)
  }

  /** The starts never fall. */
  ghost predicate Rising(vs: seq<Region>) {
    forall i, j :: 0 <= i < j < |vs| ==> vs[i].start <= vs[j].start
  }

  /** No region that starts at or before `v` reaches into it. */
  ghost predicate Clear(vs: seq<Region>, v: Region) {
    forall i :: 0 <= i < |vs| && vs[i].start <= v.start ==> vs[i].end <= v.start
  }

  lemma InsertedPlaced(vs: seq<Region>, v: Region)
    requires var k := Before(vs, v.start); k == 0 || vs[k - 1].end <= v.start
    ensures Inserted(vs, v) == Placed(vs, v)
  {
  }

  lemma InsertedClear(vs: seq<Region>, v: Region)
    requires Clear(vs, v)
    ensures Inserted(vs, v) == Placed(vs, v)
  {
  }

  lemma MergedPages(a: Region, v: Region, p: int)
    requires CanMerge(a, v) && Sound(a) && Sound(v)
    ensures Look([a.(end := v.end)], p) == Look([a, v], p)
  {
    LookBoth([a], [v], p);
    assert [a] + [v] == [a, v];
    assert PageOf(a, p) == PageOf(v, p);
    assert PageOf(a.(end := v.end), p) == PageOf(a, p);
  }

  lemma BesidePages(a: seq<Region>, v: Region, p: int)
    requires Ok(a) && Sound(v) && Below(a, v.start)
    ensures Look(Beside(a, v), p) == if In(v, p) then Some(PageOf(v, p)) else Look(a, p)
  {
    LookNone(a, p);
    LookBoth(a, [v], p);
    if a != [] && CanMerge(a[|a| - 1], v) {
      var n := |a| - 1;
      MergedPages(a[n], v, p);
      assert a + [v] == a[..n] + [a[n], v];
      LookBoth(a[..n], [a[n], v], p);
      LookBoth(a[..n], [a[n].(end := v.end)], p);
    }
  }

  lemma BesideOk(a: seq<Region>, v: Region)
    requires Ok(a) && Sound(v) && Below(a, v.start)
    ensures Ok(Beside(a, v)) && Below(Beside(a, v), v.end)
    ensures Beside(a, v) != [] && Beside(a, v)[|Beside(a, v)| - 1].end == v.end
  {
    hide Aligned;
  }

  /** A clear region shows at once, wherever it lies; every other page stays. */
  lemma InsertedPages(vs: seq<Region>, v: Region, p: int)
    requires Ok(vs) && Sound(v) && Clear(vs, v)
    ensures Look(Inserted(vs, v), p) == if In(v, p) then Some(PageOf(v, p)) else Look(vs, p)
  {
    hide Look;
    hide Beside;
    hide PageOf;
    hide Ok;
    hide Below;
    hide Aligned;
    hide Before;
    hide Clear;
    hide Inserted;
    var k := Before(vs, v.start);
    InsertedClear(vs, v);
    FrontBelow(vs, v);
    BesidePages(vs[..k], v, p);
    LookBoth(Beside(vs[..k], v), vs[k..], p);
    LookBoth(vs[..k], vs[k..], p);
    assert vs == vs[..k] + vs[k..];
  }

  lemma FrontBelow(vs: seq<Region>, v: Region)
    requires Ok(vs) && Clear(vs, v)
    ensures Ok(vs[..Before(vs, v.start)]) && Below(vs[..Before(vs, v.start)], v.start)
  {
    hide Aligned;
  }

  /** The list stays disjoint exactly when the region runs into nothing that starts after it. */
  lemma InsertedOk(vs: seq<Region>, v: Region)
    requires Ok(vs) && Sound(v) && Clear(vs, v)
    ensures Ok(Inserted(vs, v)) <==> Above(vs[Before(vs, v.start)..], v.end)
  {
    hide Beside;
    hide Sound;
    hide Before;
    hide Ok;
    hide Above;
    hide Below;
    hide Clear;
    hide Inserted;
    var k := Before(vs, v.start);
    InsertedClear(vs, v);
    var l, r := Beside(vs[..k], v), vs[k..];
    FrontBelow(vs, v);
    BesideOk(vs[..k], v);
    OkBehind(vs, k);
    NothingBetween(v.end);
    if Above(r, v.end) {
      OkJoin(l, [], r, v.end, v.end);
      assert l + [] + r == Placed(vs, v);
    } else {
      RunsInto(l, r, v.end);
    }
  }

  lemma NothingBetween(a: nat)
    ensures Ok([]) && Above([], a) && Below([], a)
  {
  }

  lemma OkBehind(vs: seq<Region>, k: nat)
    requires Ok(vs) && k <= |vs|
    ensures Ok(vs[k..])
  {
    hide Sound;
  }

  lemma RunsInto(l: seq<Region>, r: seq<Region>, e: nat)
    requires l != [] && l[|l| - 1].end == e && !Above(r, e)
    ensures !Ok(l + r)
  {
    var i :| 0 <= i < |r| && r[i].start < e;
    var m := |l| - 1;
    assert (l + r)[m] == l[m] && (l + r)[m + 1 + i] == r[i];
  }

  lemma {:induction false} BeforeIs(vs: seq<Region>, a: nat, k: nat)
    requires k <= |vs| && (forall i :: 0 <= i < k ==> vs[i].start <= a) && (k < |vs| ==> vs[k].start > a)
    ensures Before(vs, a) == k
  {
    if k > 0 {
      BeforeIs(vs[1..], a, k - 1);
    }
  }

  lemma PlacedBetween(l: seq<Region>, r: seq<Region>, v: Region)
    requires (forall k :: 0 <= k < |l| ==> l[k].start <= v.start) && (r != [] ==> r[0].start > v.start)
    ensures Placed(l + r, v) == Beside(l, v) + r && Before(l + r, v.start) == |l|
  {
    hide Beside;
    BeforeIs(l + r, v.start, |l|);
    assert (l + r)[..|l|] == l && (l + r)[|l|..] == r;
  }

  lemma InsertedBetween(l: seq<Region>, r: seq<Region>, v: Region)
    requires (forall k :: 0 <= k < |l| ==> l[k].start <= v.start) && (r != [] ==> r[0].start > v.start)
    requires l != [] ==> l[|l| - 1].end <= v.start
    ensures Inserted(l + r, v) == Beside(l, v) + r
  {
    hide Beside;
    PlacedBetween(l, r, v);
  }

  // ---- a region put over another ----

  /** A region that reaches into the new one, and the new one. */
  function Over(b: Region, v: Region): seq<Region> {
    Head(b, v.start) + if v.end < b.end then Beside([v], b.(start := v.end)) else [v]
  }

  lemma InsertedShortened(vs: seq<Region>, v: Region)
    requires v.start < v.end
    requires var k := Before(vs, v.start); k > 0 && vs[k - 1].end > v.start
    ensures var b := vs[Before(vs, v.start) - 1];
      Inserted(vs, v) == if v.end < b.end then Inserted(Shortened(vs, v), b.(start := v.end)) else Shortened(vs, v)
  {
    hide Shortened;
    hide Before;
    hide Top;
  }

  lemma InsertedOver(a: seq<Region>, b: Region, c: seq<Region>, v: Region)
    requires (forall i :: 0 <= i < |a| ==> a[i].start <= b.start) && b.start <= v.start < b.end && v.start < v.end
    requires c != [] ==> c[0].start > v.start && (v.end < b.end ==> c[0].start >= b.end)
    ensures Inserted(a + [b] + c, v) == a + Over(b, v) + c
  {
    hide Beside;
    hide Before;
    hide Placed;
    hide Inserted;
    hide Over;
    hide Shortened;
    hide Head;
    ShortenedAt(a, b, c, v);
    InsertedShortened(a + [b] + c, v);
    if v.end < b.end {
      assert forall u :: u in Head(b, v.start) ==> u.start == b.start by {
        HeadStart(b, v.start);
      }
      LeftBehind(a + Head(b, v.start), b, c, v);
    }
    OverIs(a, b, v);
  }

  lemma HeadStart(v: Region, a: nat)
    ensures forall u :: u in Head(v, a) ==> u.start == v.start && u.end == a
  {
  }

  lemma ShortenedAt(a: seq<Region>, b: Region, c: seq<Region>, v: Region)
    requires (forall i :: 0 <= i < |a| ==> a[i].start <= b.start) && b.start <= v.start
    requires c != [] ==> c[0].start > v.start
    ensures Before(a + [b] + c, v.start) == |a| + 1 && (a + [b] + c)[|a|] == b
    ensures Shortened(a + [b] + c, v) == a + Head(b, v.start) + [v] + c
  {
    hide Beside;
    hide Before;
    hide Placed;
    hide Head;
    var vs, k := a + [b] + c, |a| + 1;
    PlacedBetween(a + [b], c, v);
    assert vs[k..] == c && vs[k - 1] == b && vs[..k - 1] == a;
  }

  lemma OverIs(a: seq<Region>, b: Region, v: Region)
    ensures a + Head(b, v.start) + (if v.end < b.end then Beside([v], b.(start := v.end)) else [v]) == a + Over(b, v)
  {
    hide Beside;
    hide Head;
  }

  /** The part of a shortened region behind the new one. */
  lemma LeftBehind(a: seq<Region>, b: Region, c: seq<Region>, v: Region)
    requires (forall i :: 0 <= i < |a| ==> a[i].start <= v.start) && v.start < v.end < b.end
    requires c != [] ==> c[0].start >= b.end
    ensures Inserted(a + [v] + c, b.(start := v.end)) == a + Beside([v], b.(start := v.end)) + c
  {
    hide Beside;
    hide Before;
    hide Inserted;
    var r := b.(start := v.end);
    InsertedBetween(a + [v], c, r);
    BesideLast(a, v, r);
  }

  lemma OverPages(b: Region, v: Region, p: int)
    requires Sound(b) && Sound(v) && In(b, v.start)
    ensures Look(Over(b, v), p)
      == if In(v, p) then Some(PageOf(v, p)) else if !In(b, p) then None
      else Some(PageOf(if p < v.start then b else b.(start := v.end), p))
  {
    var r := b.(start := v.end);
    LookBoth(Head(b, v.start), if v.end < b.end then Beside([v], r) else [v], p);
    if v.end < b.end {
      BesideOver(v, r, p);
    }
  }

  lemma BesideOver(v: Region, r: Region, p: int)
    requires Sound(v) && Sound(r) && v.end == r.start
    ensures Look(Beside([v], r), p)
      == if In(v, p) then Some(PageOf(v, p)) else if In(r, p) then Some(PageOf(r, p)) else None
  {
    assert Below([v], r.start) && Ok([v]);
    BesidePages([v], r, p);
  }

  lemma OverOk(b: Region, v: Region)
    requires Sound(b) && Sound(v) && In(b, v.start)
    ensures Ok(Over(b, v)) && Above(Over(b, v), b.start) && Over(b, v) != []
    ensures Over(b, v)[|Over(b, v)| - 1].end == if v.end < b.end then b.end else v.end
    ensures Below(Over(b, v), if v.end < b.end then b.end else v.end)
  {
    hide Aligned;
    var r := b.(start := v.end);
    if v.end < b.end {
      assert Ok([v]) && Below([v], r.start);
      BesideOk([v], r);
    }
  }

  // ---- the order of starts ----

  lemma RisingJoin(a: seq<Region>, b: seq<Region>, s: int)
    requires Rising(a) && Rising(b)
    requires (forall i :: 0 <= i < |a| ==> a[i].start <= s) && (forall i :: 0 <= i < |b| ==> s <= b[i].start)
    ensures Rising(a + b)
  {
  }

  lemma PlacedRising(vs: seq<Region>, v: Region)
    requires Rising(vs)
    ensures Rising(Placed(vs, v))
  {
    var k := Before(vs, v.start);
    hide Before;
    RisingJoin(vs[..k], [v], v.start);
    RisingJoin(Beside(vs[..k], v), vs[k..], v.start);
  }

  lemma ShortenedRising(vs: seq<Region>, v: Region)
    requires Rising(vs) && Before(vs, v.start) > 0
    ensures Rising(Shortened(vs, v))
  {
    var k := Before(vs, v.start);
    hide Before;
    var s := vs[k - 1].start;
    RisingJoin(vs[..k - 1], Head(vs[k - 1], v.start), s);
    RisingJoin(vs[..k - 1] + Head(vs[k - 1], v.start), [v], v.start);
    RisingJoin(vs[..k - 1] + Head(vs[k - 1], v.start) + [v], vs[k..], v.start);
  }

  lemma {:induction false} InsertedRising(vs: seq<Region>, v: Region)
    requires Rising(vs)
    ensures Rising(Inserted(vs, v))
    decreases Top(vs) - v.start
  {
    hide Rising;
    hide Placed;
    hide Shortened;
    hide Top;
    hide Before;
    var k := Before(vs, v.start);
    if k == 0 || vs[k - 1].end <= v.start {
      PlacedRising(vs, v);
    } else {
      ShortenedRising(vs, v);
      if v.start < v.end < vs[k - 1].end {
        ShortenedTop(vs, v);
        InsertedRising(Shortened(vs, v), vs[k - 1].(start := v.end));
      }
    }
  }

  lemma OkRising(vs: seq<Region>)
    requires Ok(vs)
    ensures Rising(vs)
  {
    hide Aligned;
  }

  // ---- where regions start and end ----

  /** The starts and ends of the regions. */
  ghost function Marks(vs: seq<Region>): set<nat> {
    (set u | u in vs :: u.start) + (set u | u in vs :: u.end)
  }

  lemma MarksJoin(a: seq<Region>, b: seq<Region>)
    ensures Marks(a + b) == Marks(a) + Marks(b)
  {
  }

  lemma MarksPart(vs: seq<Region>, i: nat, j: nat)
    requires i <= j <= |vs|
    ensures Marks(vs[i..j]) <= Marks(vs) && Marks(vs[..i]) <= Marks(vs) && Marks(vs[i..]) <= Marks(vs)
  {
  }

  lemma MarksHead(v: Region, a: nat)
    ensures Marks(Head(v, a)) <= {v.start, a}
  {
  }

  lemma MarksBeside(vs: seq<Region>, v: Region)
    ensures Marks(Beside(vs, v)) <= Marks(vs) + {v.start, v.end}
  {
    forall u | u in Beside(vs, v)
      ensures u.start in Marks(vs) + {v.start, v.end} && u.end in Marks(vs) + {v.start, v.end}
    {
    }
  }

  /** Inserting a region makes no new ends but its own. */
  lemma {:induction false} InsertedMarks(vs: seq<Region>, v: Region)
    ensures Marks(Inserted(vs, v)) <= Marks(vs) + {v.start, v.end}
    decreases Top(vs) - v.start
  {
    hide Marks;
    hide Beside;
    hide Head;
    hide Top;
    hide Before;
    var k := Before(vs, v.start);
    MarksPart(vs, k, k);
    if k == 0 || vs[k - 1].end <= v.start {
      MarksBeside(vs[..k], v);
      MarksJoin(Beside(vs[..k], v), vs[k..]);
    } else {
      MarksShortened(vs, v);
      if v.start < v.end < vs[k - 1].end {
        ShortenedTop(vs, v);
        MarksAt(vs, k - 1);
        InsertedMarks(Shortened(vs, v), vs[k - 1].(start := v.end));
      }
    }
  }

  lemma MarksAt(vs: seq<Region>, i: nat)
    requires i < |vs|
    ensures vs[i].start in Marks(vs) && vs[i].end in Marks(vs)
  {
  }

  lemma MarksShortened(vs: seq<Region>, v: Region)
    requires Before(vs, v.start) > 0
    ensures Marks(Shortened(vs, v)) <= Marks(vs) + {v.start, v.end}
  {
    hide Before;
    hide Head;
    var k := Before(vs, v.start);
    var h := Head(vs[k - 1], v.start);
    MarksHead(vs[k - 1], v.start);
    MarksPart(vs, k - 1, k);
    MarksPart(vs, k, k);
    MarksAt(vs, k - 1);
    MarksJoin(vs[..k - 1], h);
    MarksJoin(vs[..k - 1] + h, [v]);
    MarksJoin(vs[..k - 1] + h + [v], vs[k..]);
    MarksOne(v);
  }

  lemma MarksOne(v: Region)
    ensures Marks([v]) == {v.start, v.end}
  {
    assert v in [v];
  }
}
