/** The steps of the small-block allocator on its pages, free lists and block headers. */
module BuddySteps {
  import opened Prelude
  import opened Links
  import opened BuddyTree
  import opened BuddyState

  /** Each free list holds exactly the free blocks of its level. */
  ghost predicate Lists(pages: Pages, free: seq<seq<nat>>) {
    && |free| == TOP + 1
    && (forall l :: 0 <= l <= TOP ==> Distinct(free[l]))
    && (forall l: nat, a: nat :: l <= TOP ==> (a in free[l] <==> BlockAt(pages, a, l) == Some(Free)))
  }

  /** The header of each block tells its level. */
  ghost predicate Levels(pages: Pages, level: map<nat, nat>) {
    forall a: nat, l: nat :: l < TOP && BlockAt(pages, a, l).Some? ==> a in level && level[a] == l
  }

  ghost predicate Matches(pages: Pages, free: seq<seq<nat>>, level: map<nat, nat>) {
    Good(pages) && Lists(pages, free) && Levels(pages, level)
  }

  /** The one block of `pages'` that is live and was not in `pages`. */
  ghost predicate OneMore(pages: Pages, pages': Pages, a: nat, l: nat) {
    && BlockAt(pages, a, l) != Some(Live)
    && forall b: nat, m: nat :: BlockAt(pages', b, m) == Some(Live) <==>
         BlockAt(pages, b, m) == Some(Live) || (b == a && m == l)
  }

  /** Nothing has changed but the block of level `l` at `a`, which is now `x`. */
  ghost predicate IsTurned(pages: Pages, pages': Pages, a: nat, l: nat, x: Tree) {
    forall c: nat, m: nat :: BlockAt(pages', c, m) == if c == a && m == l then Some(x) else BlockAt(pages, c, m)
  }

  /** Nothing has changed but that a block at `a` is now a live one there and a free one at `b`. */
  ghost predicate IsHalved(pages: Pages, pages': Pages, a: nat, b: nat, l: nat) {
    forall c: nat, m: nat :: BlockAt(pages', c, m) ==
      if c == a && m == l + 1 then None else if c == a && m == l then Some(Live)
        else if c == b && m == l then Some(Free) else BlockAt(pages, c, m)
  }

  /** Nothing has changed but that the blocks at `a` and `b` are now one live block at `p`. */
  ghost predicate IsJoined(pages: Pages, pages': Pages, a: nat, b: nat, p: nat, l: nat) {
    forall c: nat, m: nat :: BlockAt(pages', c, m) ==
      if (c == a || c == b) && m == l then None else if c == p && m == l + 1 then Some(Live) else BlockAt(pages, c, m)
  }

  lemma LeafPart(pages: Pages, a: nat, l: nat)
    requires BlockAt(pages, a, l).Some?
    ensures Part(pages, a, l) == BlockAt(pages, a, l) && !BlockAt(pages, a, l).value.Split?
  {
  }

  /** A block changes from free to live or back. */
  lemma TurnedAt(pages: Pages, a: nat, l: nat, x: Tree)
    requires Good(pages) && BlockAt(pages, a, l).Some? && !x.Split?
    ensures Part(pages, a, l).Some? && IsTurned(pages, Changed(pages, a, l, x), a, l, x)
  {
    LeafPart(pages, a, l);
    hide BlockAt;
    hide Part;
    hide Changed;
    hide Good;
    forall b: nat, m: nat
      ensures BlockAt(Changed(pages, a, l, x), b, m) == if b == a && m == l then Some(x) else BlockAt(pages, b, m)
    {
      ChangedAt(pages, a, l, x, b, m);
      LeafAlone(x, a, l, b, m);
      LeafAlone(Part(pages, a, l).value, a, l, b, m);
    }
  }

  lemma LeafAlone(x: Tree, a: nat, l: nat, b: nat, m: nat)
    requires !x.Split?
    ensures Block(x, a, l, b, m) == if b == a && m == l then Some(x) else None
    ensures b == a && m == l ==> Inside(b, m, a, l)
  {
  }

  lemma TwoAlone(x: Tree, y: Tree, a: nat, l: nat, b: nat, m: nat)
    requires !x.Split? && !y.Split?
    ensures Block(Split(x, y), a, l + 1, b, m)
      == if b == a && m == l then Some(x) else if b == a + Size(l) && m == l then Some(y) else None
    ensures m == l && (b == a || b == a + Size(l)) ==> Inside(b, m, a, l + 1)
  {
    assert Size(l + 1) == 2 * Size(l);
    LeafAlone(x, a, l, b, m);
    LeafAlone(y, a + Size(l), l, b, m);
  }

  /** A live block is split: its first half is live, the second free. */
  lemma HalvedAt(pages: Pages, a: nat, l: nat)
    requires Good(pages) && l < TOP && BlockAt(pages, a, l + 1) == Some(Live)
    ensures Part(pages, a, l + 1).Some?
    ensures IsHalved(pages, Changed(pages, a, l + 1, Split(Live, Free)), a, Buddy(a, l), l)
  {
    BlockAligned(pages, a, l + 1);
    BuddyOf(a, l);
    LeafPart(pages, a, l + 1);
    hide Buddy;
    hide Size;
    hide Aligned;
    hide Block;
    hide Inside;
    hide BlockAt;
    hide Part;
    hide Changed;
    hide Good;
    var pages' := Changed(pages, a, l + 1, Split(Live, Free));
    forall b: nat, m: nat
      ensures BlockAt(pages', b, m)
        == if b == a && m == l + 1 then None else if b == a && m == l then Some(Live)
        else if b == Buddy(a, l) && m == l then Some(Free) else BlockAt(pages, b, m)
    {
      ChangedAt(pages, a, l + 1, Split(Live, Free), b, m);
      LeafAlone(Live, a, l + 1, b, m);
      TwoAlone(Live, Free, a, l, b, m);
    }
  }

  /** A live block and its free buddy become one live block. */
  lemma JoinedAt(pages: Pages, a: nat, l: nat)
    requires Good(pages) && l < TOP && BlockAt(pages, a, l) == Some(Live)
    requires BlockAt(pages, Buddy(a, l), l) == Some(Free)
    ensures var p := Lower(a, l);
      Part(pages, p, l + 1).Some? && IsJoined(pages, Changed(pages, p, l + 1, Live), a, Buddy(a, l), p, l)
  {
    var p, b := Lower(a, l), Buddy(a, l);
    var x, y := JoinedHalves(pages, a, l);
    hide Buddy;
    hide Lower;
    hide Size;
    hide BlockAt;
    hide Part;
    hide Changed;
    hide Good;
    var pages' := Changed(pages, p, l + 1, Live);
    forall c: nat, m: nat ensures BlockAt(pages', c, m) == if (c == a || c == b) && m == l then None
        else if c == p && m == l + 1 then Some(Live) else BlockAt(pages, c, m) {
      ChangedAt(pages, p, l + 1, Live, c, m);
      LeafAlone(Live, p, l + 1, c, m);
      TwoAlone(x, y, p, l, c, m);
    }
  }

  function Lower(a: nat, l: nat): nat {
    if Buddy(a, l) < a then Buddy(a, l) else a
  }

  lemma JoinedHalves(pages: Pages, a: nat, l: nat) returns (x: Tree, y: Tree)
    requires Good(pages) && l < TOP && BlockAt(pages, a, l) == Some(Live)
    requires BlockAt(pages, Buddy(a, l), l) == Some(Free)
    ensures !x.Split? && !y.Split? && Part(pages, Lower(a, l), l + 1) == Some(Split(x, y))
    ensures (a == Lower(a, l) && Buddy(a, l) == a + Size(l))
      || (Buddy(a, l) == Lower(a, l) && a == Buddy(a, l) + Size(l))
  {
    PartRange(pages, a, l);
    BuddySamePage(pages, a, l);
    hide Buddy;
    hide Size;
    var s := BuddyNear(pages[Floor(a)], Floor(a), TOP, a, l);
    x, y := s.left, s.right;
  }

  // ---- the lists and headers after each step ----

  lemma ListsTaken(pages: Pages, free: seq<seq<nat>>, l: nat, pages': Pages)
    requires Lists(pages, free) && l <= TOP && free[l] != []
    requires IsTurned(pages, pages', free[l][0], l, Live)
    ensures Lists(pages', free[l := free[l][1..]])
  {
    hide BlockAt;
    var a := free[l][0];
    assert free[l] == [a] + free[l][1..];
    assert forall b :: b in free[l][1..] <==> b in free[l] && b != a;
  }

  lemma ListsGiven(pages: Pages, free: seq<seq<nat>>, a: nat, l: nat, pages': Pages)
    requires Lists(pages, free) && l <= TOP && BlockAt(pages, a, l) != Some(Free)
    requires forall b: nat, m: nat :: BlockAt(pages', b, m) == Some(Free) <==>
      BlockAt(pages, b, m) == Some(Free) || (b == a && m == l)
    ensures Lists(pages', free[l := [a] + free[l]])
  {
    hide BlockAt;
  }

  lemma ListsDropped(pages: Pages, free: seq<seq<nat>>, a: nat, l: nat, pages': Pages)
    requires Lists(pages, free) && l <= TOP && BlockAt(pages, a, l) == Some(Free)
    requires forall b: nat, m: nat :: BlockAt(pages', b, m) == Some(Free) <==>
      BlockAt(pages, b, m) == Some(Free) && !(b == a && m == l)
    ensures a in free[l] && Lists(pages', free[l := Without(free[l], a)])
  {
    hide BlockAt;
    hide Without;
    WithoutMembers(free[l], a);
  }

  lemma ListsSame(pages: Pages, free: seq<seq<nat>>, pages': Pages)
    requires Lists(pages, free)
    requires forall b: nat, m: nat :: BlockAt(pages', b, m) == Some(Free) <==> BlockAt(pages, b, m) == Some(Free)
    ensures Lists(pages', free)
  {
    hide BlockAt;
  }

  /** A free block is taken off the head of its list. */
  lemma Take(pages: Pages, free: seq<seq<nat>>, level: map<nat, nat>, l: nat)
    requires Matches(pages, free, level) && l <= TOP && free[l] != []
    ensures var a := free[l][0]; Part(pages, a, l).Some? && var pages' := Changed(pages, a, l, Live);
      Matches(pages', free[l := free[l][1..]], level) && OneMore(pages, pages', a, l) && pages'.Keys == pages.Keys
  {
    hide BlockAt;
    hide Part;
    hide Good;
    var a := free[l][0];
    TurnedAt(pages, a, l, Live);
    ChangedGood(pages, a, l, Live);
    ListsTaken(pages, free, l, Changed(pages, a, l, Live));
    ChangedKeys(pages, a, l, Live);
  }

  lemma ChangedKeys(pages: Pages, a: nat, l: nat, x: Tree)
    requires Part(pages, a, l).Some?
    ensures Changed(pages, a, l, x).Keys == pages.Keys
  {
  }

  /** A live block is put on its free list. */
  lemma Give(pages: Pages, free: seq<seq<nat>>, level: map<nat, nat>, a: nat, l: nat)
    requires Matches(pages, free, level) && l < TOP && BlockAt(pages, a, l) == Some(Live)
    requires BlockAt(pages, Buddy(a, l), l) != Some(Free)
    ensures Part(pages, a, l).Some? && var pages' := Changed(pages, a, l, Free);
      Matches(pages', free[l := [a] + free[l]], level) && OneMore(pages', pages, a, l) && pages'.Keys == pages.Keys
  {
    LeafPart(pages, a, l);
    NotFreePart(pages, Buddy(a, l), l);
    hide BlockAt;
    hide Part;
    hide Good;
    hide Buddy;
    TurnedAt(pages, a, l, Free);
    ChangedGood(pages, a, l, Free);
    ListsGiven(pages, free, a, l, Changed(pages, a, l, Free));
    ChangedKeys(pages, a, l, Free);
  }

  lemma NotFreePart(pages: Pages, a: nat, l: nat)
    requires BlockAt(pages, a, l) != Some(Free)
    ensures Part(pages, a, l) != Some(Free)
  {
  }

  /** A live block is split, its second half goes on the free list. */
  lemma Halve(pages: Pages, free: seq<seq<nat>>, level: map<nat, nat>, a: nat, l: nat)
    requires Matches(pages, free, level) && l < TOP && BlockAt(pages, a, l + 1) == Some(Live)
    ensures Part(pages, a, l + 1).Some? && var pages', b := Changed(pages, a, l + 1, Split(Live, Free)), Buddy(a, l);
      && Matches(pages', free[l := [b] + free[l]], level[a := l][b := l])
      && pages'.Keys == pages.Keys && BlockAt(pages', a, l) == Some(Live)
      && forall c: nat, m: nat :: BlockAt(pages', c, m) == Some(Live) <==>
           (BlockAt(pages, c, m) == Some(Live) && !(c == a && m == l + 1)) || (c == a && m == l)
  {
    HalvedAt(pages, a, l);
    NoneBelow(pages, a, l);
    LeafPart(pages, a, l + 1);
    hide BlockAt;
    hide Part;
    hide Good;
    hide Buddy;
    var pages', b := Changed(pages, a, l + 1, Split(Live, Free)), Buddy(a, l);
    ChangedGood(pages, a, l + 1, Split(Live, Free));
    hide IsHalved;
    HalveLists(pages, free, a, b, l, pages');
    ChangedKeys(pages, a, l + 1, Split(Live, Free));
    HalveLevels(pages, level, a, l, pages');
  }

  /** Within a block there is no other. */
  lemma NoneBelow(pages: Pages, a: nat, l: nat)
    requires Good(pages) && l < TOP && BlockAt(pages, a, l + 1) == Some(Live)
    ensures forall m: nat :: m != l + 1 ==> BlockAt(pages, a, m) == None
    ensures forall m: nat :: BlockAt(pages, Buddy(a, l), m) == None
    ensures Buddy(a, l) != a
  {
    BlockAligned(pages, a, l + 1);
    BuddyOf(a, l);
    assert Size(l + 1) == 2 * Size(l);
    forall m: nat | m != l + 1 ensures BlockAt(pages, a, m) == None {
      if BlockAt(pages, a, m).Some? {
        TilesDisjoint(pages, a, l + 1, a, m);
      }
    }
    forall m: nat ensures BlockAt(pages, Buddy(a, l), m) == None {
      if BlockAt(pages, Buddy(a, l), m).Some? {
        TilesDisjoint(pages, a, l + 1, Buddy(a, l), m);
      }
    }
  }

  lemma HalveLists(pages: Pages, free: seq<seq<nat>>, a: nat, b: nat, l: nat, pages': Pages)
    requires Lists(pages, free) && l < TOP && BlockAt(pages, b, l) == None && BlockAt(pages, a, l) == None && a != b
    requires BlockAt(pages, a, l + 1) == Some(Live) && IsHalved(pages, pages', a, b, l)
    ensures Lists(pages', free[l := [b] + free[l]]) && BlockAt(pages', a, l) == Some(Live)
    ensures forall c: nat, m: nat :: BlockAt(pages', c, m) == Some(Live) <==>
      (BlockAt(pages, c, m) == Some(Live) && !(c == a && m == l + 1)) || (c == a && m == l)
  {
    hide BlockAt;
    ListsGiven(pages, free, b, l, pages');
  }

  lemma HalveLevels(pages: Pages, level: map<nat, nat>, a: nat, l: nat, pages': Pages)
    requires Levels(pages, level)
    requires forall m: nat :: m != l + 1 ==> BlockAt(pages, a, m) == None
    requires forall m: nat :: BlockAt(pages, Buddy(a, l), m) == None
    requires IsHalved(pages, pages', a, Buddy(a, l), l)
    ensures Levels(pages', level[a := l][Buddy(a, l) := l])
  {
    hide BlockAt;
    hide Buddy;
    hide Size;
  }

  /** A live block takes its free buddy off the free list and becomes one with it. */
  lemma Join(pages: Pages, free: seq<seq<nat>>, level: map<nat, nat>, a: nat, l: nat)
    requires Matches(pages, free, level) && l < TOP && BlockAt(pages, a, l) == Some(Live)
    requires BlockAt(pages, Buddy(a, l), l) == Some(Free)
    ensures var p := Lower(a, l); Part(pages, p, l + 1).Some? && var pages' := Changed(pages, p, l + 1, Live);
      && Buddy(a, l) in free[l] && Matches(pages', free[l := Without(free[l], Buddy(a, l))], level[p := l + 1])
      && pages'.Keys == pages.Keys && BlockAt(pages', p, l + 1) == Some(Live) && BlockAt(pages, p, l + 1) == None
      && forall c: nat, m: nat :: BlockAt(pages', c, m) == Some(Live) <==>
           (BlockAt(pages, c, m) == Some(Live) && !(c == a && m == l)) || (c == p && m == l + 1)
  {
    JoinedAt(pages, a, l);
    JoinNone(pages, a, l);
    var p := Lower(a, l);
    var pages' := Changed(pages, p, l + 1, Live);
    hide BlockAt;
    hide Part;
    hide Good;
    hide Buddy;
    hide Without;
    hide Lower;
    ChangedGood(pages, p, l + 1, Live);
    hide IsJoined;
    JoinLists(pages, free, a, Buddy(a, l), p, l, pages');
    ChangedKeys(pages, p, l + 1, Live);
    JoinLevels(pages, level, a, l, pages');
  }

  lemma JoinNone(pages: Pages, a: nat, l: nat)
    requires Good(pages) && l < TOP && BlockAt(pages, a, l) == Some(Live)
    requires BlockAt(pages, Buddy(a, l), l) == Some(Free)
    ensures forall m: nat :: m != l ==> BlockAt(pages, Lower(a, l), m) == None
  {
    var p := Lower(a, l);
    forall m: nat | m != l ensures BlockAt(pages, p, m) == None {
      if BlockAt(pages, p, m).Some? {
        if p == a {
          TilesDisjoint(pages, a, l, p, m);
        } else {
          TilesDisjoint(pages, Buddy(a, l), l, p, m);
        }
      }
    }
  }

  lemma JoinLists(pages: Pages, free: seq<seq<nat>>, a: nat, b: nat, p: nat, l: nat, pages': Pages)
    requires Lists(pages, free) && l < TOP && BlockAt(pages, a, l) == Some(Live) && BlockAt(pages, b, l) == Some(Free)
    requires BlockAt(pages, p, l + 1) == None && IsJoined(pages, pages', a, b, p, l)
    ensures b in free[l] && Lists(pages', free[l := Without(free[l], b)]) && BlockAt(pages', p, l + 1) == Some(Live)
    ensures forall c: nat, m: nat :: BlockAt(pages', c, m) == Some(Live) <==>
      (BlockAt(pages, c, m) == Some(Live) && !(c == a && m == l)) || (c == p && m == l + 1)
  {
    hide BlockAt;
    hide Without;
    ListsDropped(pages, free, b, l, pages');
  }

  lemma JoinLevels(pages: Pages, level: map<nat, nat>, a: nat, l: nat, pages': Pages)
    requires Levels(pages, level)
    requires forall m: nat :: m != l ==> BlockAt(pages, Lower(a, l), m) == None
    requires Lower(a, l) == a || Lower(a, l) == Buddy(a, l)
    requires IsJoined(pages, pages', a, Buddy(a, l), Lower(a, l), l)
    ensures Levels(pages', level[Lower(a, l) := l + 1])
  {
    hide BlockAt;
    hide Buddy;
    hide Lower;
  }

  /** A new page comes as one live block. */
  lemma AddPage(pages: Pages, free: seq<seq<nat>>, level: map<nat, nat>, p: nat)
    requires Matches(pages, free, level) && p > 0 && p % PAGE_SIZE == 0 && p !in pages
    ensures Matches(pages[p := Live], free, level) && OneMore(pages, pages[p := Live], p, TOP)
  {
    var pages' := pages[p := Live];
    forall b: nat, m: nat
      ensures BlockAt(pages', b, m) == if b == p && m == TOP then Some(Live) else BlockAt(pages, b, m)
    {
      LeafAlone(Live, p, TOP, b, m);
    }
    assert BlockAt(pages, p, TOP) == None;
    hide BlockAt;
    ListsSame(pages, free, pages');
  }

  /** A page that is one live block goes. */
  lemma DropPage(pages: Pages, free: seq<seq<nat>>, level: map<nat, nat>, p: nat)
    requires Matches(pages, free, level) && BlockAt(pages, p, TOP) == Some(Live)
    ensures p in pages && Floor(p) == p && Matches(pages - {p}, free, level) && OneMore(pages - {p}, pages, p, TOP)
  {
    var pages' := pages - {p};
    PartRange(pages, p, TOP);
    PageSize();
    assert Floor(p) == p;
    LeafPart(pages, p, TOP);
    assert pages[p] == Live;
    forall b: nat, m: nat ensures BlockAt(pages', b, m) == if b == p && m == TOP then None else BlockAt(pages, b, m) {
      LeafAlone(Live, p, TOP, b, m);
    }
    hide BlockAt;
    ListsSame(pages, free, pages');
  }
}
