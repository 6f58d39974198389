/** The allocator for requests smaller than a page (mm/buddy_low.c). */
module BuddyLow {
  import opened Prelude
  import opened Links
  import opened Chains
  import opened BuddyTree
  import opened BuddyState
  import opened BuddySteps

  /** sizeof(struct bl_head) */
  const HEADER := 24

  const BLOCK_SIZE: seq<nat> := [32, 64, 128, 256, 512, 1024, 2048, 4096]

  lemma BlockSizes(l: nat)
    requires l <= TOP
    ensures BLOCK_SIZE[l] == Size(l)
  {
    Sizes();
  }

  /** `l` is the smallest level whose blocks hold `size` bytes. */
  ghost predicate Smallest(size: nat, l: nat) {
    l <= TOP && size <= Size(l) && forall m: nat :: m < l ==> Size(m) < size
  }

  ghost predicate OthersInPage(pages: Pages, a: nat, l: nat) {
    exists b: nat, m: nat :: BlockAt(pages, b, m) == Some(Live) && Floor(b) == Floor(a) && (b != a || m != l)
  }

  /** A page is given back exactly when its last live block is freed. */
  lemma LastOneOut(pages: Pages, pages': Pages, a: nat, l: nat)
    requires Good(pages) && Good(pages') && OneMore(pages', pages, a, l)
    ensures Floor(a) in pages' <==> OthersInPage(pages, a, l)
  {
    if Floor(a) in pages' {
      var b, m := EveryPageLive(pages', Floor(a));
      assert BlockAt(pages, b, m) == Some(Live);
    }
    if OthersInPage(pages, a, l) {
      var b: nat, m: nat :| BlockAt(pages, b, m) == Some(Live) && Floor(b) == Floor(a) && (b != a || m != l);
      assert BlockAt(pages', b, m) == Some(Live);
    }
  }

  /** There is no free block of level `l` or above. */
  ghost predicate NoneFrom(free: seq<seq<nat>>, l: nat)
    requires |free| == TOP + 1
  {
    forall m: nat :: l <= m < TOP ==> free[m] == []
  }

  lemma NoneFromStep(free: seq<seq<nat>>, l: nat)
    requires |free| == TOP + 1 && l <= TOP
    ensures NoneFrom(free, l) <==> l == TOP || (free[l] == [] && NoneFrom(free, l + 1))
  {
  }

  class Allocator {
    /** The free lists, over the link fields in the block headers. */
    const free: Table
    var level: map<nat, nat>
    var pages: set<nat>
    var numPages: int
    ghost var trees: Pages

    ghost predicate Valid()
      reads this, free
    {
      free.Valid() && Matches(trees, free.lists, level) && pages == trees.Keys && numPages == |pages|
    }

    /** The page counter counts exactly the pages that hold a live block. */
    lemma CountsLivePages(p: nat)
      requires Valid()
      ensures numPages == |pages|
      ensures p in pages && Floor(p) == p <==>
        Floor(p) == p && exists a: nat, l: nat :: BlockAt(trees, a, l) == Some(Live) && Floor(a) == p
    {
      hide Table.Valid;
      if p in pages {
        var a, l := EveryPageLive(trees, p);
      }
    }

    /** buddy_low_init() */
    constructor ()
      ensures Valid() && fresh(free) && trees == map[] && numPages == 0
    {
      free := new Table(TOP + 1, {});
      level, pages, numPages, trees := map[], {}, 0, map[];
      new;
      hide Table.Valid;
      MatchesNothing(free.lists);
    }

    method LevelOf(size: nat) returns (l: nat)
      requires size <= PAGE_SIZE
      ensures Smallest(size, l)
    {
      Sizes();
      l := 0;
      BlockSizes(0);
      while BLOCK_SIZE[l] < size
        invariant l <= TOP && BLOCK_SIZE[l] == Size(l) && forall m: nat :: m < l ==> Size(m) < size
        decreases TOP - l
      {
        BlockSizes(l + 1);
        l := l + 1;
      }
    }

    /** A page of the pool becomes a page of the allocator. */
    method NewPage(page: nat)
      requires Valid() && page > 0 && page % PAGE_SIZE == 0 && page !in pages
      modifies this, free`next, free`prev
      ensures Valid() && trees == old(trees)[page := Live] && pages == old(pages) + {page}
      ensures OneMore(old(trees), trees, page, TOP)
    {
      hide Matches;
      hide Table.Valid;
      NotListed(trees, free.lists, level, page);
      AddPage(trees, free.lists, level, page);
      free.Forget(page);
      trees := trees[page := Live];
      pages := pages + {page};
      numPages := numPages + 1;
    }

    /** The block at the head of a free list is taken off it. */
    method TakeFree(l: nat) returns (block: nat)
      requires Valid() && l < TOP && free.lists[l] != []
      modifies this, free
      ensures Valid() && pages == old(pages) && OneMore(old(trees), trees, block, l)
      ensures free.lists == old(free.lists)[l := old(free.lists[l])[1..]] && block == old(free.lists[l][0])
      ensures block > 0 && block in level && level[block] == l
    {
      hide Table.Valid;
      hide Without;
      Take(trees, free.lists, level, l);
      free.WalkFrom(l);
      block := free.heads[l];
      free.WalkIn(l, block);
      LiveFacts(trees, level, block, l);
      WithoutFirst(free.lists[l]);
      hide Matches;
      trees := Changed(trees, block, l, Live);
      free.Remove(l, block);
    }

    /** A live block is halved; the second half goes on its free list, which is empty. */
    method Halve(block: nat, l: nat)
      requires Valid() && l < TOP && BlockAt(trees, block, l + 1) == Some(Live) && free.lists[l] == []
      modifies this, free
      ensures Valid() && pages == old(pages) && block in level && level[block] == l
      ensures BlockAt(trees, block, l) == Some(Live) && free.lists == old(free.lists)[l := [Buddy(block, l)]]
      ensures forall c: nat, m: nat :: BlockAt(trees, c, m) == Some(Live) <==>
        (BlockAt(old(trees), c, m) == Some(Live) && !(c == block && m == l + 1)) || (c == block && m == l)
    {
      hide Table.Valid;
      BuddySteps.Halve(trees, free.lists, level, block, l);
      NoneBelow(trees, block, l);
      HalfOff(trees, free.lists, level, block, l);
      hide Matches;
      hide Buddy;
      hide BlockAt;
      level := level[block := l];
      var buddy := Buddy(block, l);
      level := level[buddy := l];
      assert [buddy] + free.lists[l] == [buddy];
      free.Push(l, buddy);
      trees := Changed(trees, block, l + 1, Split(Live, Free));
    }

    /**
      * allocate(): a block of the smallest level that holds the request, by splitting a bigger one or a new page
      * where there is no such block; 0 exactly when there is neither a block that is big enough nor a page.
      */
    method Allocate(size: nat, page: nat) returns (block: nat, ghost l: nat)
      requires Valid() && size <= PAGE_SIZE && (page > 0 ==> page % PAGE_SIZE == 0 && page !in pages)
      modifies this, free
      ensures Valid() && Smallest(size, l) && |old(free.lists)| == TOP + 1
      ensures block == 0 <==> page == 0 && NoneFrom(old(free.lists), l)
      ensures block == 0 ==>
        trees == old(trees) && free.lists == old(free.lists) && level == old(level) && pages == old(pages)
      ensures block > 0 ==> OneMore(old(trees), trees, block, l) && (l < TOP ==> block in level && level[block] == l)
      ensures forall m: nat :: m < l ==> free.lists[m] == old(free.lists)[m]
      ensures l < TOP && old(free.lists)[l] != [] ==> block == old(free.lists)[l][0]
      ensures pages == if page > 0 && NoneFrom(old(free.lists), l) then old(pages) + {page} else old(pages)
      decreases PAGE_SIZE - size, 1
    {
      hide Size;
      hide BlockAt;
      hide Matches;
      hide OneMore;
      hide Good;
      hide Table.Valid;
      hide NoneFrom;
      hide Smallest;
      hide Buddy;
      var n := LevelOf(size);
      l := n;
      LevelFits(size, n);
      Basics(trees, free.lists, level);
      NoneFromStep(free.lists, n);
      if n == TOP {
        block := page;
        if page > 0 {
          NewPage(page);
        }
        return;
      }
      free.WalkFrom(n);
      if free.heads[n] != NULL {
        block := TakeFree(n);
        return;
      }
      block := SplitBigger(size, n, page);
    }

    /** Where there is no free block of level `l`, a bigger one is halved. */
    method SplitBigger(size: nat, l: nat, page: nat) returns (block: nat)
      requires Valid() && Smallest(size, l) && l < TOP && (page > 0 ==> page % PAGE_SIZE == 0 && page !in pages)
      requires |free.lists| == TOP + 1 && free.lists[l] == []
      modifies this, free
      ensures Valid() && |old(free.lists)| == TOP + 1
      ensures block == 0 <==> page == 0 && NoneFrom(old(free.lists), l + 1)
      ensures block == 0 ==>
        trees == old(trees) && free.lists == old(free.lists) && level == old(level) && pages == old(pages)
      ensures block > 0 ==> OneMore(old(trees), trees, block, l) && block in level && level[block] == l
      ensures forall m: nat :: m < l ==> free.lists[m] == old(free.lists)[m]
      ensures pages == if page > 0 && NoneFrom(old(free.lists), l + 1) then old(pages) + {page} else old(pages)
      decreases PAGE_SIZE - size, 0
    {
      hide Size;
      hide BlockAt;
      hide Matches;
      hide OneMore;
      hide Good;
      hide Table.Valid;
      hide NoneFrom;
      hide Smallest;
      hide Buddy;
      BlockSizes(l + 1);
      NextSize(size, l);
      ghost var up;
      block, up := Allocate(BLOCK_SIZE[l + 1], page);
      SmallestIs(l + 1, up);
      if block > 0 {
        Basics(trees, free.lists, level);
        HalveNew(block, l, old(trees));
      }
    }

    /** A block that has just become live is halved, and only its first half is live. */
    method HalveNew(block: nat, l: nat, ghost before: Pages)
      requires Valid() && l < TOP && OneMore(before, trees, block, l + 1) && |free.lists| == TOP + 1
      requires free.lists[l] == []
      modifies this, free
      ensures Valid() && pages == old(pages) && block in level && level[block] == l && OneMore(before, trees, block, l)
      ensures free.lists == old(free.lists)[l := [Buddy(block, l)]]
    {
      hide BlockAt;
      hide Matches;
      hide OneMore;
      hide Good;
      hide Table.Valid;
      ghost var mid := trees;
      Basics(mid, free.lists, level);
      OneMoreLive(before, mid, block, l + 1);
      NoneBelow(mid, block, l);
      Halve(block, l);
      SplitOneMore(before, mid, trees, block, l);
    }

    /** Takes the buddy off its free list; the two are one live block. */
    method TakeBuddy(block: nat, l: nat) returns (joined: nat)
      requires Valid() && l < TOP && BlockAt(trees, block, l) == Some(Live) && Buddy(block, l) in free.lists[l]
      modifies this, free
      ensures Valid() && pages == old(pages) && joined == Lower(block, l) && joined in level && level[joined] == l + 1
      ensures BlockAt(trees, joined, l + 1) == Some(Live) && BlockAt(old(trees), joined, l + 1) == None
      ensures forall c: nat, m: nat :: BlockAt(trees, c, m) == Some(Live) <==>
        (BlockAt(old(trees), c, m) == Some(Live) && !(c == block && m == l)) || (c == joined && m == l + 1)
    {
      hide Table.Valid;
      Join(trees, free.lists, level, block, l);
      hide Matches;
      hide BlockAt;
      hide Without;
      joined := Lower(block, l);
      hide Lower;
      hide Buddy;
      var buddy := Buddy(block, l);
      free.WalkFrom(l);
      free.WalkIn(l, buddy);
      free.Remove(l, buddy);
      level := level[joined := l + 1];
      trees := Changed(trees, joined, l + 1, Live);
    }

    /**
      * deallocate(): the block joins its buddy as long as that is free; a page that is whole again goes back to the
      * pool.
      */
    method Deallocate(block: nat, ghost l: nat)
      requires Valid() && block in level && level[block] == l && l < TOP && BlockAt(trees, block, l) == Some(Live)
      modifies this, free
      ensures Valid() && OneMore(trees, old(trees), block, l)
      ensures pages == old(pages) || pages == old(pages) - {Floor(block)}
      decreases TOP - l
    {
      hide BlockAt;
      hide Floor;
      hide Buddy;
      hide Lower;
      hide Without;
      hide Matches;
      hide OneMore;
      hide Table.Valid;
      var n := level[block];
      var buddy := Buddy(block, n);
      Basics(trees, free.lists, level);
      var found := free.Find(n, buddy);
      if found {
        BuddyPage(trees, block, n);
        var joined := TakeBuddy(block, n);
        ghost var mid := trees;
        if n < TOP - 1 {
          Deallocate(joined, n + 1);
        } else {
          ReturnPage(joined);
        }
        JoinOneLess(old(trees), mid, trees, block, joined, n);
      } else {
        PutBack(block, n);
      }
    }

    /** The block goes in front of its free list. */
    method PutBack(block: nat, l: nat)
      requires Valid() && l < TOP && BlockAt(trees, block, l) == Some(Live) && Buddy(block, l) !in free.lists[l]
      modifies this, free
      ensures Valid() && pages == old(pages) && OneMore(trees, old(trees), block, l)
    {
      hide Table.Valid;
      LiveFacts(trees, level, block, l);
      LiveOff(trees, free.lists, level, block, l);
      Give(trees, free.lists, level, block, l);
      hide Matches;
      trees := Changed(trees, block, l, Free);
      free.Push(l, block);
    }

    method ReturnPage(p: nat)
      requires Valid() && BlockAt(trees, p, TOP) == Some(Live)
      modifies this
      ensures Valid() && Floor(p) == p && pages == old(pages) - {p} && OneMore(trees, old(trees), p, TOP)
    {
      hide Table.Valid;
      DropPage(trees, free.lists, level, p);
      hide Matches;
      pages := pages - {p};
      trees := trees - {p};
      numPages := numPages - 1;
    }

    /**
      * bl_malloc(): memory behind the header of a block that holds the request. The header of a block that is a whole
      * page does not tell its level.
      */
    method BlMalloc(size: nat, page: nat) returns (addr: nat, ghost l: nat)
      requires Valid() && size <= PAGE_SIZE && (page > 0 ==> page % PAGE_SIZE == 0 && page !in pages)
      modifies this, free
      ensures Valid() && Smallest(size, l) && |old(free.lists)| == TOP + 1 && (l == TOP <==> size > 2048)
      ensures addr == 0 ==> trees == old(trees)
      ensures addr == 0 <==> page == 0 && NoneFrom(old(free.lists), l)
      ensures addr > 0 ==> addr >= HEADER && OneMore(old(trees), trees, addr - HEADER, l)
      ensures addr > 0 && l < TOP ==> addr - HEADER in level && level[addr - HEADER] == l
    {
      hide Table.Valid;
      hide Matches;
      hide OneMore;
      hide NoneFrom;
      hide Smallest;
      var block;
      block, l := Allocate(size, page);
      WholePage(size, l);
      addr := if block > 0 then block + HEADER else 0;
    }

    /** bl_free(): exactly the block is no longer live; its page goes exactly when no other live block is in it. */
    method BlFree(addr: nat, ghost l: nat)
      requires Valid() && addr >= HEADER && l < TOP && BlockAt(trees, addr - HEADER, l) == Some(Live)
      modifies this, free
      ensures Valid() && OneMore(trees, old(trees), addr - HEADER, l)
      ensures pages
        == if OthersInPage(old(trees), addr - HEADER, l) then old(pages) else old(pages) - {Floor(addr - HEADER)}
    {
      hide Table.Valid;
      hide BlockAt;
      hide Good;
      hide OneMore;
      hide OthersInPage;
      hide Floor;
      LiveFacts(trees, level, addr - HEADER, l);
      Deallocate(addr - HEADER, l);
      LastOneOut(old(trees), trees, addr - HEADER, l);
    }
  }

  lemma MatchesNothing(free: seq<seq<nat>>)
    requires free == seq(TOP + 1, _ => [])
    ensures Matches(map[], free, map[])
  {
  }

  lemma Basics(pages: Pages, free: seq<seq<nat>>, level: map<nat, nat>)
    requires Matches(pages, free, level)
    ensures |free| == TOP + 1 && Good(pages)
  {
  }

  lemma WholePage(size: nat, l: nat)
    requires Smallest(size, l)
    ensures l == TOP <==> size > 2048
  {
    Sizes();
  }

  lemma WithoutFirst(list: seq<nat>)
    requires list != []
    ensures Without(list, list[0]) == list[1..]
  {
  }

  lemma OneMoreLive(pages: Pages, pages': Pages, a: nat, l: nat)
    requires OneMore(pages, pages', a, l)
    ensures BlockAt(pages', a, l) == Some(Live)
  {
    hide BlockAt;
  }

  /** No free list holds a page that is not the allocator's. */
  lemma NotListed(pages: Pages, free: seq<seq<nat>>, level: map<nat, nat>, page: nat)
    requires Matches(pages, free, level) && page % PAGE_SIZE == 0 && page !in pages
    ensures forall l :: 0 <= l < |free| ==> page !in free[l]
  {
    FloorIs(page, page);
    assert forall l: nat :: BlockAt(pages, page, l) == None;
  }

  /** A live block is on no free list. */
  lemma LiveOff(pages: Pages, free: seq<seq<nat>>, level: map<nat, nat>, a: nat, l: nat)
    requires Matches(pages, free, level) && BlockAt(pages, a, l) == Some(Live)
    ensures forall m :: 0 <= m < |free| ==> a !in free[m]
  {
    hide BlockAt;
    hide Good;
    forall m: nat | m != l ensures BlockAt(pages, a, m) == None {
      OneLevel(pages, a, l, m);
    }
  }

  /** There is one block at an address at most. */
  lemma OneLevel(pages: Pages, a: nat, l: nat, m: nat)
    requires Good(pages) && BlockAt(pages, a, l).Some? && m != l
    ensures BlockAt(pages, a, m) == None
  {
    if BlockAt(pages, a, m).Some? {
      TilesDisjoint(pages, a, l, a, m);
      SizePositive(l);
      SizePositive(m);
    }
  }

  lemma {:induction false} SizePositive(l: nat)
    ensures Size(l) > 0
  {
    if l > 0 {
      SizePositive(l - 1);
    }
  }

  /** The second half of a live block is on no free list. */
  lemma HalfOff(pages: Pages, free: seq<seq<nat>>, level: map<nat, nat>, a: nat, l: nat)
    requires Matches(pages, free, level) && l < TOP && BlockAt(pages, a, l + 1) == Some(Live)
    ensures Buddy(a, l) > 0 && forall m :: 0 <= m < |free| ==> Buddy(a, l) !in free[m]
  {
    hide BlockAt;
    hide Buddy;
    NoneBelow(pages, a, l);
    HalfThere(pages, a, l);
  }

  lemma HalfThere(pages: Pages, a: nat, l: nat)
    requires Good(pages) && l < TOP && BlockAt(pages, a, l + 1).Some?
    ensures Buddy(a, l) > 0
  {
    BlockAligned(pages, a, l + 1);
    PartRange(pages, a, l + 1);
    BuddyOf(a, l);
  }

  lemma LiveFacts(pages: Pages, level: map<nat, nat>, a: nat, l: nat)
    requires Good(pages) && Levels(pages, level) && l < TOP && BlockAt(pages, a, l).Some?
    ensures a > 0 && a in level && level[a] == l && Floor(a) in pages
  {
    PartRange(pages, a, l);
  }

  lemma BuddyPage(pages: Pages, a: nat, l: nat)
    requires Good(pages) && l < TOP && BlockAt(pages, a, l).Some?
    ensures Floor(Lower(a, l)) == Floor(a)
  {
    BuddySamePage(pages, a, l);
  }

  lemma NextSize(size: nat, l: nat)
    requires Smallest(size, l) && l < TOP
    ensures size < Size(l + 1) <= PAGE_SIZE
  {
    Sizes();
  }

  lemma LevelFits(size: nat, l: nat)
    requires Smallest(size, l)
    ensures l <= TOP
  {
  }

  lemma SmallestIs(l: nat, m: nat)
    requires Smallest(Size(l), m) && l <= TOP
    ensures m == l
  {
    SizeLess(l, m);
    SizeLess(m, l);
  }

  lemma {:induction false} SizeLess(l: nat, m: nat)
    ensures l < m ==> Size(l) < Size(m)
    decreases m
  {
    if l < m - 1 {
      SizeLess(l, m - 1);
    }
  }

  lemma SplitOneMore(pages: Pages, mid: Pages, pages': Pages, a: nat, l: nat)
    requires OneMore(pages, mid, a, l + 1) && BlockAt(mid, a, l) == None
    requires forall c: nat, m: nat :: BlockAt(pages', c, m) == Some(Live) <==>
      (BlockAt(mid, c, m) == Some(Live) && !(c == a && m == l + 1)) || (c == a && m == l)
    ensures OneMore(pages, pages', a, l)
  {
    hide BlockAt;
  }

  lemma JoinOneLess(pages: Pages, mid: Pages, pages': Pages, a: nat, p: nat, l: nat)
    requires BlockAt(pages, a, l) == Some(Live) && BlockAt(pages, p, l + 1) == None && OneMore(pages', mid, p, l + 1)
    requires forall c: nat, m: nat :: BlockAt(mid, c, m) == Some(Live) <==>
      (BlockAt(pages, c, m) == Some(Live) && !(c == a && m == l)) || (c == p && m == l + 1)
    ensures OneMore(pages', pages, a, l)
  {
    hide BlockAt;
  }
}
