/** The pages of the small-block allocator, the blocks they are cut into, and what its free lists must hold. */
module BuddyState {
  import opened Prelude
  import opened BuddyTree

  type Pages = map<nat, Tree>

  function Floor(a: nat): nat {
    a - a % PAGE_SIZE
  }

  lemma FloorIs(p: nat, a: nat)
    requires p % PAGE_SIZE == 0 && p <= a < p + PAGE_SIZE
    ensures Floor(a) == p
  {
  }

  ghost predicate Good(pages: Pages) {
    forall p :: p in pages ==>
      p > 0 && p % PAGE_SIZE == 0 && Shallow(pages[p], TOP) && Eager(pages[p]) && !pages[p].Free?
  }

  /** What the tree of its page says about the `Size(l)` bytes at `a`. */
  ghost function Part(pages: Pages, a: nat, l: nat): Option<Tree> {
    if Floor(a) in pages then Sub(pages[Floor(a)], Floor(a), TOP, a, l) else None
  }

  /** The block of level `l` at `a`: free, live, or no such block. */
  ghost function BlockAt(pages: Pages, a: nat, l: nat): Option<Tree> {
    if Floor(a) in pages then Block(pages[Floor(a)], Floor(a), TOP, a, l) else None
  }

  ghost function Changed(pages: Pages, a: nat, l: nat, x: Tree): Pages
    requires Part(pages, a, l).Some?
  {
    pages[Floor(a) := Put(pages[Floor(a)], Floor(a), TOP, a, l, x)]
  }

  lemma PageSize()
    ensures Size(TOP) == PAGE_SIZE
  {
    Sizes();
  }

  /** Blocks lie within their page. */
  lemma PartRange(pages: Pages, a: nat, l: nat)
    requires Good(pages) && Part(pages, a, l).Some?
    ensures l <= TOP && Floor(a) <= a && a + Size(l) <= Floor(a) + PAGE_SIZE && Aligned(Floor(a), TOP) && a > 0
  {
    PageSize();
    SubRange(pages[Floor(a)], Floor(a), TOP, a, l);
  }

  lemma InsideSamePage(pages: Pages, a: nat, l: nat, b: nat, m: nat)
    requires Good(pages) && Part(pages, a, l).Some? && Inside(b, m, a, l)
    ensures Floor(b) == Floor(a)
  {
    PartRange(pages, a, l);
    FloorIs(Floor(a), b);
  }

  lemma ChangedAt(pages: Pages, a: nat, l: nat, x: Tree, b: nat, m: nat)
    requires Good(pages) && Part(pages, a, l).Some?
    ensures BlockAt(Changed(pages, a, l, x), b, m)
      == if Inside(b, m, a, l) then Block(x, a, l, b, m) else BlockAt(pages, b, m)
    ensures Inside(b, m, a, l) ==> BlockAt(pages, b, m) == Block(Part(pages, a, l).value, a, l, b, m)
  {
    hide Block;
    hide Put;
    hide Inside;
    if Inside(b, m, a, l) {
      InsideSamePage(pages, a, l, b, m);
    }
    if Floor(b) == Floor(a) {
      PutBlock(pages[Floor(a)], Floor(a), TOP, a, l, x, b, m);
      BlockInside(pages[Floor(a)], Floor(a), TOP, a, l, b, m);
    }
  }

  lemma {:induction false} BlockInside(t: Tree, base: nat, top: nat, a: nat, l: nat, b: nat, m: nat)
    requires Sub(t, base, top, a, l).Some?
    ensures Inside(b, m, a, l) ==> Block(t, base, top, b, m) == Block(Sub(t, base, top, a, l).value, a, l, b, m)
    decreases top
  {
    SubRange(t, base, top, a, l);
    if l < top && Inside(b, m, a, l) {
      var mid := base + Size(top - 1);
      if a < mid {
        SubRange(t.left, base, top - 1, a, l);
        BlockInside(t.left, base, top - 1, a, l, b, m);
      } else {
        BlockInside(t.right, mid, top - 1, a, l, b, m);
      }
    }
  }

  lemma ChangedGood(pages: Pages, a: nat, l: nat, x: Tree)
    requires Good(pages) && Part(pages, a, l).Some? && Shallow(x, l) && Eager(x)
    requires x.Free? ==> l < TOP && Part(pages, Buddy(a, l), l) != Some(Free)
    ensures Good(Changed(pages, a, l, x))
  {
    hide Buddy;
    hide Put;
    hide Shallow;
    hide Eager;
    PartRange(pages, a, l);
    var t, p := pages[Floor(a)], Floor(a);
    PutShallow(t, p, TOP, a, l, x);
    if l < TOP {
      BuddySamePage(pages, a, l);
    }
    PutEager(t, p, TOP, a, l, x);
    if l == TOP {
      assert Put(t, p, TOP, a, l, x) == x by {
        PutRoot(t, p, a, x);
      }
    }
  }

  lemma PutRoot(t: Tree, base: nat, a: nat, x: Tree)
    ensures Put(t, base, TOP, a, TOP, x) == x
  {
  }

  lemma BuddySamePage(pages: Pages, a: nat, l: nat)
    requires Good(pages) && Part(pages, a, l).Some? && l < TOP
    ensures Floor(Buddy(a, l)) == Floor(a) && Part(pages, Buddy(a, l), l).Some?
    ensures Buddy(a, l) > 0 && Buddy(a, l) != a
  {
    PartRange(pages, a, l);
    var p, b := Floor(a), Buddy(a, l);
    hide Buddy;
    hide Sub;
    var s := BuddyNear(pages[p], p, TOP, a, l);
    SubRange(pages[p], p, TOP, b, l);
    PageSize();
    FloorIs(p, b);
  }

  // ---- what holds of the blocks ----

  lemma BlockAligned(pages: Pages, a: nat, l: nat)
    requires Good(pages) && BlockAt(pages, a, l).Some?
    ensures l <= TOP && Aligned(a, l)
  {
    PartRange(pages, a, l);
    SubAligned(pages[Floor(a)], Floor(a), TOP, a, l);
  }

  lemma TilesDisjoint(pages: Pages, a: nat, l: nat, b: nat, m: nat)
    requires Good(pages) && BlockAt(pages, a, l).Some? && BlockAt(pages, b, m).Some? && (a != b || l != m)
    ensures a + Size(l) <= b || b + Size(m) <= a
  {
    PartRange(pages, a, l);
    PartRange(pages, b, m);
    if Floor(a) == Floor(b) {
      BlocksDisjoint(pages[Floor(a)], Floor(a), TOP, a, l, b, m);
    } else {
      PagesApart(Floor(a), Floor(b));
    }
  }

  lemma PagesApart(p: nat, q: nat)
    requires p % PAGE_SIZE == 0 && q % PAGE_SIZE == 0 && p != q
    ensures p + PAGE_SIZE <= q || q + PAGE_SIZE <= p
  {
  }

  /** The blocks cover the pages, and nothing else. */
  lemma TilesCover(pages: Pages, p: nat) returns (a: nat, l: nat)
    requires Good(pages) && Floor(p) in pages
    ensures BlockAt(pages, a, l).Some? && a <= p < a + Size(l)
  {
    PageSize();
    a, l := BlocksCover(pages[Floor(p)], Floor(p), TOP, p);
    SubRange(pages[Floor(p)], Floor(p), TOP, a, l);
    FloorIs(Floor(p), a);
  }

  /** A page is kept only while a live block is in it. */
  lemma EveryPageLive(pages: Pages, p: nat) returns (a: nat, l: nat)
    requires Good(pages) && p in pages
    ensures BlockAt(pages, a, l) == Some(Live) && Floor(a) == p
  {
    PageSize();
    a, l := SomeLive(pages[p], p, TOP);
    SubRange(pages[p], p, TOP, a, l);
    FloorIs(p, a);
  }

  /** No block and its buddy are both free. */
  lemma NoFreePair(pages: Pages, a: nat, l: nat)
    requires Good(pages) && l < TOP && BlockAt(pages, a, l) == Some(Free)
    ensures BlockAt(pages, Buddy(a, l), l) != Some(Free)
  {
    PartRange(pages, a, l);
    BuddySamePage(pages, a, l);
    var p := Floor(a);
    hide Buddy;
    var s := BuddyNear(pages[p], p, TOP, a, l);
    if Halved(pages[p], p, TOP, a, Buddy(a, l), l, s) {
      SubEager(pages[p], p, TOP, a, l + 1);
    } else {
      SubEager(pages[p], p, TOP, Buddy(a, l), l + 1);
    }
  }

  lemma {:induction false} SubEager(t: Tree, base: nat, top: nat, a: nat, l: nat)
    requires Eager(t) && Sub(t, base, top, a, l).Some?
    ensures Eager(Sub(t, base, top, a, l).value)
    decreases top
  {
    if l < top {
      if a < base + Size(top - 1) {
        SubEager(t.left, base, top - 1, a, l);
      } else {
        SubEager(t.right, base + Size(top - 1), top - 1, a, l);
      }
    }
  }
}
