/** A page cut into blocks by halving, as a tree (mm/buddy_low.c). */
module BuddyTree {
  import opened Prelude

  const TOP := 7
  const PAGE_SIZE := 4096

  /** bl_blocksize[] */
  function Size(l: nat): (s: nat)
    ensures s > 0
  {
    if l == 0 then 32 else 2 * Size(l - 1)
  }

  lemma Sizes()
    ensures Size(0) == 32 && Size(1) == 64 && Size(2) == 128 && Size(3) == 256
    ensures Size(4) == 512 && Size(5) == 1024 && Size(6) == 2048 && Size(7) == 4096
  {
    assert Size(3) == 256;
    assert Size(5) == 1024;
  }

  /** get_buddy(): the address with the bit of the block's size flipped. */
  function Buddy(a: nat, l: nat): nat {
    if a < Size(l) || a / Size(l) % 2 == 0 then a + Size(l) else a - Size(l)
  }

  predicate Aligned(a: nat, l: nat) {
    a % Size(l) == 0
  }

  lemma BuddyOf(base: nat, l: nat)
    requires l < TOP && Aligned(base, l + 1)
    ensures Buddy(base, l) == base + Size(l) && Buddy(base + Size(l), l) == base
    ensures Aligned(base, l) && Aligned(base + Size(l), l)
  {
    Halves(base, Size(l));
  }

  lemma Halves(base: nat, s: nat)
    requires s > 0 && base % (2 * s) == 0
    ensures base / s % 2 == 0 && (base + s) / s % 2 == 1
    ensures base % s == 0 && (base + s) % s == 0
  {
    var k := base / (2 * s);
    assert base == s * (2 * k);
    Multiple(base, s, 2 * k);
    assert base + s == s * (2 * k + 1);
    Multiple(base + s, s, 2 * k + 1);
  }

  lemma AtLeast(s: nat, d: int)
    ensures d >= 1 ==> s * d >= s
    ensures d <= -1 ==> s * d <= 0 - s
  {
  }

  lemma Multiple(a: nat, s: nat, q: nat)
    requires s > 0 && a == s * q
    ensures a / s == q && a % s == 0
  {
    var r := a / s;
    assert a == s * r + a % s;
    assert a % s == s * (q - r);
    AtLeast(s, q - r);
  }

  datatype Tree = Free | Live | Split(left: Tree, right: Tree)

  ghost predicate Shallow(t: Tree, top: nat) {
    t.Split? ==> top > 0 && Shallow(t.left, top - 1) && Shallow(t.right, top - 1)
  }

  /** No two halves of a block are both free. */
  ghost predicate Eager(t: Tree) {
    t.Split? ==> !(t.left.Free? && t.right.Free?) && Eager(t.left) && Eager(t.right)
  }

  /** The part of the tree that stands for the `Size(l)` bytes at `a`, in a tree for the `Size(top)` bytes at `base`. */
  ghost function Sub(t: Tree, base: nat, top: nat, a: nat, l: nat): Option<Tree>
    decreases top
  {
    if top <= l then if top == l && a == base then Some(t) else None
    else if !t.Split? then None
    else if a < base + Size(top - 1) then Sub(t.left, base, top - 1, a, l)
    else Sub(t.right, base + Size(top - 1), top - 1, a, l)
  }

  ghost function Put(t: Tree, base: nat, top: nat, a: nat, l: nat, x: Tree): Tree
    decreases top
  {
    if top <= l then x
    else if !t.Split? then t
    else if a < base + Size(top - 1) then t.(left := Put(t.left, base, top - 1, a, l, x))
    else t.(right := Put(t.right, base + Size(top - 1), top - 1, a, l, x))
  }

  /** The block of size `Size(l)` at `a`, if there is one. */
  ghost function Block(t: Tree, base: nat, top: nat, a: nat, l: nat): Option<Tree> {
    var s := Sub(t, base, top, a, l);
    if s.Some? && !s.value.Split? then s else None
  }

  lemma {:induction false} SubRange(t: Tree, base: nat, top: nat, a: nat, l: nat)
    requires Sub(t, base, top, a, l).Some?
    ensures l <= top && base <= a && a + Size(l) <= base + Size(top)
    decreases top
  {
    if l < top {
      if a < base + Size(top - 1) {
        SubRange(t.left, base, top - 1, a, l);
      } else {
        SubRange(t.right, base + Size(top - 1), top - 1, a, l);
      }
    }
  }

  /** Blocks are aligned to their size. */
  lemma {:induction false} SubAligned(t: Tree, base: nat, top: nat, a: nat, l: nat)
    requires top <= TOP && Aligned(base, top) && Sub(t, base, top, a, l).Some?
    ensures l <= top && Aligned(a, l)
    decreases top
  {
    hide Aligned;
    hide Buddy;
    hide Size;
    hide Sub;
    if l >= top {
      SubRoot(t, base, top, a, l);
    } else {
      BuddyOf(base, top - 1);
      SubCase(t, base, top, a, l);
      if Sub(t.left, base, top - 1, a, l).Some? {
        SubAligned(t.left, base, top - 1, a, l);
      } else {
        SubAligned(t.right, base + Size(top - 1), top - 1, a, l);
      }
    }
  }

  lemma SubRoot(t: Tree, base: nat, top: nat, a: nat, l: nat)
    requires Sub(t, base, top, a, l).Some? && l >= top
    ensures l == top && a == base
  {
  }

  /** Two different blocks share no byte. */
  lemma {:induction false} BlocksDisjoint(t: Tree, base: nat, top: nat, a: nat, l: nat, b: nat, m: nat)
    requires Block(t, base, top, a, l).Some? && Block(t, base, top, b, m).Some? && (a != b || l != m)
    ensures a + Size(l) <= b || b + Size(m) <= a
    decreases top
  {
    SubRange(t, base, top, a, l);
    SubRange(t, base, top, b, m);
    if l < top && m < top {
      var mid := base + Size(top - 1);
      if a < mid && b < mid {
        BlocksDisjoint(t.left, base, top - 1, a, l, b, m);
      } else if a >= mid && b >= mid {
        BlocksDisjoint(t.right, mid, top - 1, a, l, b, m);
      } else if a < mid {
        SubRange(t.left, base, top - 1, a, l);
      } else {
        SubRange(t.left, base, top - 1, b, m);
      }
    }
  }

  /** Every byte of the page is in a block. */
  lemma {:induction false} BlocksCover(t: Tree, base: nat, top: nat, p: nat) returns (a: nat, l: nat)
    requires Shallow(t, top) && base <= p < base + Size(top)
    ensures Block(t, base, top, a, l).Some? && a <= p < a + Size(l)
    decreases top
  {
    if !t.Split? {
      a, l := base, top;
    } else {
      var mid := base + Size(top - 1);
      if p < mid {
        a, l := BlocksCover(t.left, base, top - 1, p);
        SubRange(t.left, base, top - 1, a, l);
      } else {
        a, l := BlocksCover(t.right, mid, top - 1, p);
        SubRange(t.right, mid, top - 1, a, l);
      }
    }
  }

  /** A page that is not free as a whole has a live block in it. */
  lemma {:induction false} SomeLive(t: Tree, base: nat, top: nat) returns (a: nat, l: nat)
    requires Shallow(t, top) && Eager(t) && !t.Free?
    ensures Block(t, base, top, a, l) == Some(Live)
    decreases top
  {
    if t.Live? {
      a, l := base, top;
    } else if !t.left.Free? {
      a, l := SomeLive(t.left, base, top - 1);
      SubRange(t.left, base, top - 1, a, l);
    } else {
      a, l := SomeLive(t.right, base + Size(top - 1), top - 1);
      SubRange(t.right, base + Size(top - 1), top - 1, a, l);
    }
  }

  // ---- one part of the tree replaced ----

  predicate Inside(b: nat, m: nat, a: nat, l: nat) {
    m <= l && a <= b < a + Size(l)
  }

  lemma {:induction false} PutBlock(t: Tree, base: nat, top: nat, a: nat, l: nat, x: Tree, b: nat, m: nat)
    requires Sub(t, base, top, a, l).Some?
    ensures Block(Put(t, base, top, a, l, x), base, top, b, m)
      == if Inside(b, m, a, l) then Block(x, a, l, b, m) else Block(t, base, top, b, m)
    decreases top
  {
    SubRange(t, base, top, a, l);
    var t' := Put(t, base, top, a, l, x);
    if l == top {
      if !Inside(b, m, a, l) {
        if Sub(t, base, top, b, m).Some? {
          SubRange(t, base, top, b, m);
        }
        if Sub(x, base, top, b, m).Some? {
          SubRange(x, base, top, b, m);
        }
      }
    } else if m < top {
      var mid := base + Size(top - 1);
      if a < mid {
        SubRange(t.left, base, top - 1, a, l);
        if b < mid {
          PutBlock(t.left, base, top - 1, a, l, x, b, m);
        }
      } else if b >= mid {
        PutBlock(t.right, mid, top - 1, a, l, x, b, m);
      }
    }
  }

  lemma {:induction false} PutShallow(t: Tree, base: nat, top: nat, a: nat, l: nat, x: Tree)
    requires Shallow(t, top) && Shallow(x, l) && Sub(t, base, top, a, l).Some?
    ensures Shallow(Put(t, base, top, a, l, x), top)
    decreases top
  {
    if l < top {
      if a < base + Size(top - 1) {
        PutShallow(t.left, base, top - 1, a, l, x);
      } else {
        PutShallow(t.right, base + Size(top - 1), top - 1, a, l, x);
      }
    }
  }

  /** What one half of a split block holds, the whole holds. */
  lemma SubHalf(t: Tree, base: nat, top: nat, b: nat, l: nat)
    requires t.Split? && l < top
    ensures Sub(t.left, base, top - 1, b, l).Some? ==>
      b < base + Size(top - 1) && Sub(t, base, top, b, l) == Sub(t.left, base, top - 1, b, l)
    ensures Sub(t.right, base + Size(top - 1), top - 1, b, l).Some? ==>
      b >= base + Size(top - 1) && Sub(t, base, top, b, l) == Sub(t.right, base + Size(top - 1), top - 1, b, l)
  {
    if Sub(t.left, base, top - 1, b, l).Some? {
      SubRange(t.left, base, top - 1, b, l);
    }
    if Sub(t.right, base + Size(top - 1), top - 1, b, l).Some? {
      SubRange(t.right, base + Size(top - 1), top - 1, b, l);
    }
  }

  /** `a` and `b` are the two halves of the block that `s` stands for. */
  ghost predicate Halved(t: Tree, base: nat, top: nat, a: nat, b: nat, l: nat, s: Tree) {
    && s.Split? && b == a + Size(l) && Sub(t, base, top, a, l + 1) == Some(s)
    && Sub(t, base, top, a, l) == Some(s.left) && Sub(t, base, top, b, l) == Some(s.right)
  }

  lemma HalvedRoot(t: Tree, base: nat, l: nat)
    requires t.Split?
    ensures Halved(t, base, l + 1, base, base + Size(l), l, t)
  {
  }

  lemma HalvedHalf(t: Tree, base: nat, top: nat, a: nat, b: nat, l: nat, s: Tree)
    requires t.Split? && l + 1 < top
    ensures Halved(t.left, base, top - 1, a, b, l, s) ==> Halved(t, base, top, a, b, l, s)
    ensures Halved(t.right, base + Size(top - 1), top - 1, a, b, l, s) ==> Halved(t, base, top, a, b, l, s)
  {
    hide Size;
    hide Sub;
    SubHalf(t, base, top, a, l + 1);
    SubHalf(t, base, top, a, l);
    SubHalf(t, base, top, b, l);
  }

  /** Where the part at `a` is in a tree that is split further up. */
  lemma SubCase(t: Tree, base: nat, top: nat, a: nat, l: nat)
    requires Sub(t, base, top, a, l).Some? && l < top
    ensures t.Split?
    ensures Sub(t.left, base, top - 1, a, l).Some? || Sub(t.right, base + Size(top - 1), top - 1, a, l).Some?
    ensures l == top - 1 ==> a == base || a == base + Size(top - 1)
  {
  }

  /** A block's buddy is the other half of the same block. */
  lemma {:induction false} BuddyNear(t: Tree, base: nat, top: nat, a: nat, l: nat) returns (s: Tree)
    requires top <= TOP && Aligned(base, top) && Sub(t, base, top, a, l).Some? && l < top
    ensures Halved(t, base, top, a, Buddy(a, l), l, s) || Halved(t, base, top, Buddy(a, l), a, l, s)
    decreases top
  {
    hide Halved;
    hide Buddy;
    hide Aligned;
    hide Size;
    hide Sub;
    BuddyOf(base, top - 1);
    SubCase(t, base, top, a, l);
    if l == top - 1 {
      s := t;
      HalvedRoot(t, base, l);
    } else {
      if Sub(t.left, base, top - 1, a, l).Some? {
        s := BuddyNear(t.left, base, top - 1, a, l);
      } else {
        s := BuddyNear(t.right, base + Size(top - 1), top - 1, a, l);
      }
      HalvedHalf(t, base, top, a, Buddy(a, l), l, s);
      HalvedHalf(t, base, top, Buddy(a, l), a, l, s);
    }
  }

  /** A block is set free only beside a buddy that is not. */
  lemma {:induction false} PutEager(t: Tree, base: nat, top: nat, a: nat, l: nat, x: Tree)
    requires top <= TOP && Aligned(base, top) && Eager(t) && Eager(x) && Sub(t, base, top, a, l).Some?
    requires x.Free? && l < top ==> Sub(t, base, top, Buddy(a, l), l) != Some(Free)
    ensures Eager(Put(t, base, top, a, l, x))
    ensures l < top ==> Put(t, base, top, a, l, x).Split?
    decreases top
  {
    hide Buddy;
    hide Size;
    hide Aligned;
    hide Sub;
    hide Put;
    hide Eager;
    PutCases(t, base, top, a, l, x);
    if l < top {
      SubCase(t, base, top, a, l);
    }
    if l == top - 1 {
      PutEagerRoot(t, base, l, a, x);
    } else if l < top {
      BuddyOf(base, top - 1);
      PutEagerHalf(t, base, top, a, l, x);
      EagerHalves(t);
      if a < base + Size(top - 1) {
        PutEager(t.left, base, top - 1, a, l, x);
        EagerSplit(Put(t.left, base, top - 1, a, l, x), t.right);
      } else {
        PutEager(t.right, base + Size(top - 1), top - 1, a, l, x);
        EagerSplit(t.left, Put(t.right, base + Size(top - 1), top - 1, a, l, x));
      }
    }
  }

  lemma PutCases(t: Tree, base: nat, top: nat, a: nat, l: nat, x: Tree)
    ensures l >= top ==> Put(t, base, top, a, l, x) == x
    ensures l < top && t.Split? && a < base + Size(top - 1) ==>
      Put(t, base, top, a, l, x) == Split(Put(t.left, base, top - 1, a, l, x), t.right)
    ensures l < top && t.Split? && a >= base + Size(top - 1) ==>
      Put(t, base, top, a, l, x) == Split(t.left, Put(t.right, base + Size(top - 1), top - 1, a, l, x))
  {
  }

  lemma EagerHalves(t: Tree)
    requires Eager(t) && t.Split?
    ensures Eager(t.left) && Eager(t.right)
  {
  }

  lemma EagerSplit(a: Tree, b: Tree)
    requires Eager(a) && Eager(b) && (!a.Free? || !b.Free?)
    ensures Eager(Split(a, b))
  {
  }

  lemma PutEagerRoot(t: Tree, base: nat, l: nat, a: nat, x: Tree)
    requires l < TOP && Aligned(base, l + 1) && Eager(t) && Eager(x) && Sub(t, base, l + 1, a, l).Some?
    requires x.Free? ==> Sub(t, base, l + 1, Buddy(a, l), l) != Some(Free)
    ensures Eager(Put(t, base, l + 1, a, l, x)) && Put(t, base, l + 1, a, l, x).Split?
  {
    hide Buddy;
    hide Aligned;
    hide Size;
    BuddyOf(base, l);
  }

  lemma PutEagerHalf(t: Tree, base: nat, top: nat, a: nat, l: nat, x: Tree)
    requires top <= TOP && Aligned(base, top) && Sub(t, base, top, a, l).Some? && l + 1 < top
    ensures a < base + Size(top - 1) ==>
      && Sub(t.left, base, top - 1, a, l).Some?
      && Sub(t.left, base, top - 1, Buddy(a, l), l) == Sub(t, base, top, Buddy(a, l), l)
    ensures a >= base + Size(top - 1) ==>
      && Sub(t.right, base + Size(top - 1), top - 1, a, l).Some?
      && Sub(t.right, base + Size(top - 1), top - 1, Buddy(a, l), l) == Sub(t, base, top, Buddy(a, l), l)
  {
    hide Buddy;
    hide Aligned;
    hide Size;
    hide Sub;
    BuddyOf(base, top - 1);
    SubCase(t, base, top, a, l);
    SubHalf(t, base, top, a, l);
    SubHalf(t, base, top, Buddy(a, l), l);
    if a < base + Size(top - 1) {
      var s := BuddyNear(t.left, base, top - 1, a, l);
    } else {
      var s := BuddyNear(t.right, base + Size(top - 1), top - 1, a, l);
    }
  }
}
