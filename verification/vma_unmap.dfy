/** What munmap() does to the region list, and to the pages it shows (mm/mmap.c). */
module VmaUnmap {
  import opened Prelude
  import opened Vma
  import opened VmaCalls

  // ---- a range cut out of the list ----

  ghost function CutOut(vs: seq<Region>, i: nat, a: nat, e: nat): seq<Region>
    requires i < |vs| && vs[i].start <= a <= e <= vs[i].end
  {
    vs[..i] + Remains(vs[i], a, e) + vs[i + 1..]
  }

  lemma CutPages(vs: seq<Region>, i: nat, a: nat, e: nat, p: int)
    requires Ok(vs) && i < |vs| && vs[i].start <= a <= e <= vs[i].end
    ensures Look(CutOut(vs, i, a, e), p) == if a <= p < e then None else Look(vs, p)
  {
    RemainsPages(vs[i], a, e, p);
    LookPieces(vs, i, Remains(vs[i], a, e), p);
    LookPieces(vs, i, [vs[i]], p);
    OkSplit(vs, i);
  }

  /** Regions cut one after the other, up to the first address that nothing is mapped at. */
  ghost function Stripped(vs: seq<Region>, a: nat, e: nat): seq<Region>
    decreases e - a
  {
    var i := Find(vs, a);
    if a >= e || i == |vs| then vs
    else
      var x := Min(vs[i].end, e);
      Stripped(CutOut(vs, i, a, x), x, e)
  }

  /** `s` is where the mapped pages from `a` on end, or `e` when they reach that far. */
  ghost predicate Reach(vs: seq<Region>, a: nat, e: nat, s: nat) {
    && a <= s <= e && (s < e ==> Look(vs, s).None?)
    && forall p :: a <= p < s ==> Look(vs, p).Some?
  }

  lemma {:induction false} StrippedPages(vs: seq<Region>, a: nat, e: nat) returns (s: nat)
    requires Ok(vs) && a <= e && Aligned(a) && Aligned(e)
    ensures Ok(Stripped(vs, a, e)) && Reach(vs, a, e, s)
    ensures forall p :: Look(Stripped(vs, a, e), p) == if a <= p < s then None else Look(vs, p)
    decreases e - a
  {
    hide Look;
    hide PageOf;
    hide Remains;
    hide Ok;
    hide Aligned;
    var i := Find(vs, a);
    if a >= e || i == |vs| {
      s := a;
      assert Stripped(vs, a, e) == vs;
    } else {
      OkSplit(vs, i);
      var x := Min(vs[i].end, e);
      var vs' := CutOut(vs, i, a, x);
      RemainsOk(vs, i, a, x);
      s := StrippedPages(vs', x, e);
      forall p ensures Look(vs', p) == if a <= p < x then None else Look(vs, p) {
        CutPages(vs, i, a, x, p);
      }
      forall p | a <= p < x ensures Look(vs, p).Some? {
        LookHere(vs, i, p);
      }
      var us := Stripped(vs', x, e);
      assert Stripped(vs, a, e) == us;
      forall p ensures Look(us, p) == if a <= p < s then None else Look(vs, p) {
        assert Look(us, p) == if x <= p < s then None else Look(vs', p);
      }
    }
  }

  /** The mapped pages of the range come first: nothing is mapped after a hole. */
  ghost predicate NoHoleFirst(vs: seq<Region>, a: nat, e: nat) {
    forall p, q :: a <= p < q < e && Look(vs, p).None? ==> Look(vs, q).None?
  }

  /** Nothing in the range is mapped. */
  ghost predicate AllClear(vs: seq<Region>, a: nat, e: nat) {
    forall p :: a <= p < e ==> Look(vs, p).None?
  }

  lemma ClearIff(vs: seq<Region>, us: seq<Region>, a: nat, e: nat, m: nat, s: nat)
    requires e <= m && Reach(vs, a, m, s) && forall p :: Look(us, p) == if a <= p < s then None else Look(vs, p)
    ensures AllClear(us, a, e) <==> NoHoleFirst(vs, a, e)
  {
    hide Look;
    if NoHoleFirst(vs, a, e) {
      forall p | a <= p < e ensures Look(us, p).None? {
        if s < p {
          assert Look(vs, s).None?;
        }
      }
    } else {
      var p, q :| a <= p < q < e && Look(vs, p).None? && Look(vs, q).Some?;
      assert s <= p;
      assert Look(us, q).Some?;
    }
  }

  // ---- free_vma_region() and the loop of do_munmap() ----

  /** A length as a signed 32-bit number. */
  function Signed(n: nat): int {
    var m := n % SIZES;
    if m < HALF then m else m - SIZES
  }

  /** free_vma_region(): `n` is signed, and the sum is 64 bits wide. */
  ghost function Freed(vs: seq<Region>, i: nat, a: nat, n: int): seq<Region>
    requires i < |vs|
  {
    var e, us := (a + n) % WORD, vs[..i] + Head(vs[i], a) + vs[i + 1..];
    if e < vs[i].end then Inserted(us, Tail(vs[i], e)) else us
  }

  /** The loop of do_munmap(); find_vma_region() finds nothing at address 0. */
  ghost function Unmapped(vs: seq<Region>, a: nat, n: nat): seq<Region>
    decreases n
  {
    var i := Find(vs, a);
    if n == 0 || a == 0 || i == |vs| then vs
    else
      var size := Min(vs[i].end - a, n);
      Unmapped(Freed(vs, i, a, Signed(size)), a + size, n - size)
  }

  /** Regions that end at or before `a`. */
  ghost predicate Front(vs: seq<Region>, a: nat) {
    forall i :: 0 <= i < |vs| ==> vs[i].start <= vs[i].end <= a
  }

  /** A short cut behind any regions that end before it is just a cut. */
  lemma FreedBehind(f: seq<Region>, vs: seq<Region>, i: nat, a: nat, n: nat)
    requires Ok(vs) && Front(f, a) && i < |vs| && vs[i].start <= a < a + n <= vs[i].end && n < HALF
    ensures Freed(f + vs, |f| + i, a, Signed(n)) == f + CutOut(vs, i, a, a + n)
  {
    hide Ok;
    hide Front;
    hide Tail;
    hide Inserted;
    hide Head;
    hide Above;
    hide Below;
    hide CutOut;
    hide Sound;
    var v, l, r := vs[i], f + vs[..i], vs[i + 1..];
    OkSplit(vs, i);
    SoundEnd(v);
    FreedAt(f, vs, i, a, n);
    if a + n < v.end {
      BelowFront(vs[..i], v.start);
      WiderFront(vs[..i], v.start, a);
      JoinedFront(f, vs[..i], a);
      AboveFirst(r, v.end);
      TailBehind(l, v, a, a + n, r);
      CutTail(f, vs, i, a, a + n);
    } else {
      CutWhole(f, vs, i, a);
    }
  }

  lemma FreedAt(f: seq<Region>, vs: seq<Region>, i: nat, a: nat, n: nat)
    requires i < |vs| && n < HALF && a + n <= vs[i].end < WORD
    ensures var us := f + vs[..i] + Head(vs[i], a) + vs[i + 1..];
      Freed(f + vs, |f| + i, a, Signed(n)) == if a + n < vs[i].end then Inserted(us, Tail(vs[i], a + n)) else us
  {
    hide Tail;
    hide Inserted;
    hide Head;
    var ws, k := f + vs, |f| + i;
    assert ws[k] == vs[i] && ws[..k] == f + vs[..i] && ws[k + 1..] == vs[i + 1..];
    assert (a + n) % WORD == a + n;
  }

  lemma AboveFirst(vs: seq<Region>, a: nat)
    requires Above(vs, a)
    ensures vs != [] ==> vs[0].start >= a
  {
  }

  lemma WiderFront(vs: seq<Region>, a: nat, b: nat)
    requires Front(vs, a) && a <= b
    ensures Front(vs, b)
  {
  }

  lemma SoundEnd(v: Region)
    requires Sound(v)
    ensures v.start < v.end < WORD
  {
  }

  lemma CutTail(f: seq<Region>, vs: seq<Region>, i: nat, a: nat, e: nat)
    requires i < |vs| && vs[i].start <= a <= e < vs[i].end
    ensures f + vs[..i] + Head(vs[i], a) + [Tail(vs[i], e)] + vs[i + 1..] == f + CutOut(vs, i, a, e)
  {
    hide Head;
    hide Tail;
  }

  lemma CutWhole(f: seq<Region>, vs: seq<Region>, i: nat, a: nat)
    requires i < |vs| && vs[i].start <= a <= vs[i].end
    ensures f + vs[..i] + Head(vs[i], a) + vs[i + 1..] == f + CutOut(vs, i, a, vs[i].end)
  {
    hide Head;
  }

  /** The tail of a cut region, inserted again, lands where the region was and merges with nothing. */
  lemma TailBehind(l: seq<Region>, v: Region, a: nat, e: nat, r: seq<Region>)
    requires Front(l, a) && v.start <= a < e < v.end
    requires r != [] ==> r[0].start >= v.end
    ensures Inserted(l + Head(v, a) + r, Tail(v, e)) == l + Head(v, a) + [Tail(v, e)] + r
  {
    hide Tail;
    hide Inserted;
    hide Beside;
    var h, t := l + Head(v, a), Tail(v, e);
    InsertedBetween(h, r, t);
    NotMerged(h, t);
  }

  lemma NotMerged(l: seq<Region>, v: Region)
    requires forall k :: 0 <= k < |l| ==> l[k].end < v.start
    ensures Beside(l, v) == l + [v]
  {
  }

  lemma {:induction false} FindBehind(f: seq<Region>, vs: seq<Region>, a: nat)
    requires Front(f, a)
    ensures Find(f + vs, a) == |f| + Find(vs, a)
  {
    if f == [] {
      assert f + vs == vs;
    } else {
      assert (f + vs)[1..] == f[1..] + vs;
      FindBehind(f[1..], vs, a);
    }
  }

  /** Short cuts behind any regions that end before them. */
  lemma {:induction false} UnmappedBehind(f: seq<Region>, vs: seq<Region>, a: nat, n: nat)
    requires Ok(vs) && Front(f, a) && Aligned(a) && Aligned(n) && n < HALF
    ensures Unmapped(f + vs, a, n) == f + Stripped(vs, a, a + n)
    decreases n
  {
    hide Ok;
    hide Aligned;
    hide CutOut;
    hide Freed;
    hide Signed;
    hide Find;
    hide Front;
    hide Unmapped;
    hide Stripped;
    FindBehind(f, vs, a);
    var i := Find(vs, a);
    if n == 0 || i == |vs| {
      NothingToFree(f + vs, a, n);
      NothingToStrip(vs, a, a + n);
    } else {
      var size := Min(vs[i].end - a, n);
      SoundAt(vs, i, a);
      assert (f + vs)[|f| + i] == vs[i];
      FreedBehind(f, vs, i, a, size);
      CutKeeps(vs, i, a, n);
      WiderFront(f, a, a + size);
      UnmappedBehind(f, CutOut(vs, i, a, a + size), a + size, n - size);
      UnmappedStep(f + vs, a, n);
      StrippedStep(vs, i, a, a + n);
    }
  }

  lemma SoundAt(vs: seq<Region>, i: nat, a: nat)
    requires Ok(vs) && i < |vs| && In(vs[i], a)
    ensures a > 0
  {
  }

  lemma NothingToFree(vs: seq<Region>, a: nat, n: nat)
    requires n == 0 || a == 0 || Find(vs, a) == |vs|
    ensures Unmapped(vs, a, n) == vs
  {
  }

  lemma NothingToStrip(vs: seq<Region>, a: nat, e: nat)
    requires a >= e || Find(vs, a) == |vs|
    ensures Stripped(vs, a, e) == vs
  {
  }

  lemma UnmappedStep(vs: seq<Region>, a: nat, n: nat)
    requires Find(vs, a) < |vs| && a > 0 && n > 0
    ensures var i := Find(vs, a); var size := Min(vs[i].end - a, n);
      Unmapped(vs, a, n) == Unmapped(Freed(vs, i, a, Signed(size)), a + size, n - size)
  {
    hide Freed;
    hide Find;
  }

  lemma StrippedStep(vs: seq<Region>, i: nat, a: nat, m: nat)
    requires i == Find(vs, a) < |vs| && a < m
    ensures var x := Min(vs[i].end, m); Stripped(vs, a, m) == Stripped(CutOut(vs, i, a, x), x, m)
  {
    hide CutOut;
    hide Find;
  }

  lemma UnmappedShort(vs: seq<Region>, a: nat, n: nat)
    requires Ok(vs) && Aligned(a) && Aligned(n) && n < HALF
    ensures Unmapped(vs, a, n) == Stripped(vs, a, a + n)
  {
    hide *;
    NoFront(a);
    UnmappedBehind([], vs, a, n);
    assert [] + vs == vs && [] + Stripped(vs, a, a + n) == Stripped(vs, a, a + n);
  }

  lemma NoFront(a: nat)
    ensures Front([], a)
  {
  }

  lemma CutKeeps(vs: seq<Region>, i: nat, a: nat, n: nat)
    requires Ok(vs) && i < |vs| && In(vs[i], a) && Aligned(a) && Aligned(n) && n > 0
    ensures var size := Min(vs[i].end - a, n);
      Ok(CutOut(vs, i, a, a + size)) && Aligned(a + size) && Aligned(n - size)
  {
    hide Ok;
    OkSplit(vs, i);
    AlignedCut(a, n, vs[i].end);
    RemainsOk(vs, i, a, a + Min(vs[i].end - a, n));
  }

  lemma AlignedCut(a: nat, n: nat, e: nat)
    requires Aligned(a) && Aligned(n) && Aligned(e) && a < e
    ensures Aligned(a + n) && Aligned(e - a) && (a + n > e ==> Aligned(n - (e - a)))
    ensures Aligned(0)
  {
  }

  // ---- the piece that is too long ----

  /** The first region that holds an address. */
  ghost function Holder(vs: seq<Region>, p: nat): (r: Option<Region>)
    ensures r.Some? ==> In(r.value, p)
  {
    var i := Find(vs, p);
    if i < |vs| then Some(vs[i]) else None
  }

  datatype Piece = Piece(from: nat, to: nat, of: Region)

  /** The piece of 2 GiB or more that the loop comes to before the first hole, if there is one. */
  ghost function Long(vs: seq<Region>, a: nat, e: nat): (r: Option<Piece>)
    ensures r.Some? ==> a <= r.value.from < r.value.to <= e && r.value.to - r.value.from >= HALF
    ensures r.Some? ==> In(r.value.of, r.value.from) && r.value.to == Min(r.value.of.end, e)
    decreases e - a
  {
    var v := Holder(vs, a);
    if a >= e || v.None? then None
    else
      var x := Min(v.value.end, e);
      if x - a >= HALF then Some(Piece(a, x, v.value)) else Long(vs, x, e)
  }

  /** How far the loop goes, if there is no hole: such a piece takes the rest of its region with it. */
  ghost function Extent(vs: seq<Region>, a: nat, e: nat): nat {
    match Long(vs, a, e)
    case None => e
    case Some(l) => if e < l.of.end then l.of.end else e
  }

  /** Such a piece, ending at 4 GiB or above, leaves a region that starts 4 GiB before its end. */
  ghost predicate Grows(vs: seq<Region>, a: nat, e: nat) {
    Long(vs, a, e).Some? && Long(vs, a, e).value.to >= SIZES
  }

  ghost function Grown(vs: seq<Region>, a: nat, e: nat): Region
    requires Grows(vs, a, e)
  {
    var l := Long(vs, a, e).value;
    Tail(l.of, l.to - SIZES)
  }

  lemma {:induction false} LongNone(vs: seq<Region>, a: nat, e: nat)
    requires e < a + HALF
    ensures Long(vs, a, e).None?
    decreases e - a
  {
    hide Find;
    var v := Holder(vs, a);
    if a < e && v.Some? {
      LongNone(vs, Min(v.value.end, e), e);
    }
  }

  lemma {:induction false} LongSame(us: seq<Region>, vs: seq<Region>, a: nat, e: nat)
    requires forall p: nat :: p >= a ==> Holder(us, p) == Holder(vs, p)
    ensures Long(us, a, e) == Long(vs, a, e)
    decreases e - a
  {
    hide Holder;
    var v := Holder(vs, a);
    if a < e && v.Some? {
      LongSame(us, vs, Min(v.value.end, e), e);
    }
  }

  lemma HolderBehind(f: seq<Region>, vs: seq<Region>, p: nat)
    requires Front(f, p)
    ensures Holder(f + vs, p) == Holder(vs, p)
  {
    hide Find;
    FindBehind(f, vs, p);
  }

  /** A region that is all before `b` changes nothing behind `b`. */
  lemma LongBehind(vs: seq<Region>, i: nat, a: nat, e: nat)
    requires Ok(vs) && i < |vs| && In(vs[i], a)
    ensures Long(CutOut(vs, i, a, vs[i].end), vs[i].end, e) == Long(vs, vs[i].end, e)
  {
    hide Aligned;
    hide Find;
    hide Long;
    hide Holder;
    var b, f, r := vs[i].end, Fore(vs, i, a), vs[i + 1..];
    CutWhole([], vs, i, a);
    assert [] + vs[..i] == vs[..i] && [] + CutOut(vs, i, a, b) == CutOut(vs, i, a, b);
    assert vs == vs[..i + 1] + r;
    forall p: nat | p >= b ensures Holder(f + r, p) == Holder(vs, p) {
      HolderBehind(f, r, p);
      HolderBehind(vs[..i + 1], r, p);
    }
    LongSame(f + r, vs, b, e);
  }

  lemma InsertedFront(f: seq<Region>, r: seq<Region>, t: Region)
    requires Front(f, t.end) && Above(r, t.end) && t.start < t.end
    ensures Inserted(f + r, t) == Inserted(f, t) + r && Front(Inserted(f, t), t.end)
  {
    hide *;
    BeforeFront(f, r, t);
    var k := Before(f, t.start);
    if k > 0 && f[k - 1].end > t.start {
      FrontAt(f, k - 1, t.end);
      assert (f + r)[k - 1] == f[k - 1];
      InsertedShortened(f, t);
      InsertedShortened(f + r, t);
      ShortenedWith(f, r, t);
      ShortenedFront(f, t);
    } else {
      assert k > 0 ==> (f + r)[k - 1] == f[k - 1];
      InsertedPlaced(f, t);
      InsertedPlaced(f + r, t);
      PlacedWith(f, r, t);
      PlacedFront(f, t);
    }
  }

  lemma FrontAt(f: seq<Region>, i: nat, a: nat)
    requires Front(f, a) && i < |f|
    ensures f[i].end <= a
  {
  }

  lemma PlacedWith(f: seq<Region>, r: seq<Region>, t: Region)
    requires Before(f + r, t.start) == Before(f, t.start)
    ensures Placed(f + r, t) == Placed(f, t) + r
  {
    hide Before;
    hide Beside;
    var k := Before(f, t.start);
    assert (f + r)[..k] == f[..k] && (f + r)[k..] == f[k..] + r;
    assert Beside(f[..k], t) + (f[k..] + r) == Beside(f[..k], t) + f[k..] + r;
  }

  lemma PlacedFront(f: seq<Region>, t: Region)
    requires Front(f, t.end) && t.start < t.end
    ensures Front(Placed(f, t), t.end)
  {
    hide Before;
    hide Beside;
    var k := Before(f, t.start);
    BesideFront(f[..k], t);
    JoinedFront(Beside(f[..k], t), f[k..], t.end);
  }

  lemma BeforeFront(f: seq<Region>, r: seq<Region>, t: Region)
    requires Above(r, t.end) && t.start < t.end
    ensures Before(f + r, t.start) == Before(f, t.start) <= |f|
  {
    var k := Before(f, t.start);
    assert k == |f| && r != [] ==> (f + r)[k] == r[0];
    BeforeIs(f + r, t.start, k);
  }

  lemma ShortenedWith(f: seq<Region>, r: seq<Region>, t: Region)
    requires Before(f + r, t.start) == Before(f, t.start) > 0
    ensures Shortened(f + r, t) == Shortened(f, t) + r
  {
    hide Before;
    hide Head;
    var k := Before(f, t.start);
    assert (f + r)[..k - 1] == f[..k - 1] && (f + r)[k..] == f[k..] + r && (f + r)[k - 1] == f[k - 1];
    var l := f[..k - 1] + Head(f[k - 1], t.start) + [t];
    assert l + (f[k..] + r) == l + f[k..] + r;
  }

  lemma ShortenedFront(f: seq<Region>, t: Region)
    requires Front(f, t.end) && t.start < t.end && Before(f, t.start) > 0
    ensures Front(Shortened(f, t), t.end)
  {
    var k := Before(f, t.start);
    hide Before;
    var h := Head(f[k - 1], t.start);
    JoinedFront(f[..k - 1], h, t.end);
    JoinedFront(f[..k - 1] + h, [t], t.end);
    JoinedFront(f[..k - 1] + h + [t], f[k..], t.end);
  }

  lemma JoinedFront(f: seq<Region>, g: seq<Region>, a: nat)
    requires Front(f, a) && Front(g, a)
    ensures Front(f + g, a)
  {
  }

  lemma BesideFront(f: seq<Region>, t: Region)
    requires Front(f, t.end) && t.start < t.end
    ensures Front(Beside(f, t), t.end)
  {
  }

  lemma {:induction false} StrippedAbove(vs: seq<Region>, a: nat, e: nat, b: nat)
    requires Above(vs, b) && b <= a
    ensures Above(Stripped(vs, a, e), b)
    decreases e - a
  {
    var i := Find(vs, a);
    if a < e && i < |vs| {
      var x := Min(vs[i].end, e);
      StrippedAbove(CutOut(vs, i, a, x), x, e, b);
    }
  }

  // ---- what the loop does ----

  /** The regions before the i-th, and what it has before `a`. */
  ghost function Fore(vs: seq<Region>, i: nat, a: nat): seq<Region>
    requires i < |vs|
  {
    vs[..i] + Head(vs[i], a)
  }

  ghost function Join(f: seq<Region>, r: seq<Region>): seq<Region> {
    f + r
  }

  /** The regions behind the i-th. */
  ghost function Aft(vs: seq<Region>, i: nat): seq<Region>
    requires i < |vs|
  {
    vs[i + 1..]
  }

  lemma WholeFacts(vs: seq<Region>, i: nat, a: nat)
    requires Ok(vs) && i < |vs| && In(vs[i], a) && Aligned(a)
    ensures var b, f, r := vs[i].end, Fore(vs, i, a), vs[i + 1..];
      && CutOut(vs, i, a, b) == f + r && Ok(f + r) && Ok(r) && Above(r, b) && Front(f, b) && Aligned(b)
      && 0 < a < b <= USER_TOP
  {
    hide Ok;
    hide Head;
    var b := vs[i].end;
    OkSplit(vs, i);
    SoundEnd(vs[i]);
    AlignedRest(a, b);
    CutWhole([], vs, i, a);
    assert [] + vs[..i] == vs[..i] && [] + CutOut(vs, i, a, b) == CutOut(vs, i, a, b);
    CutKeeps(vs, i, a, b - a);
    BelowFront(vs[..i], b);
    HeadFront(vs[i], a);
    JoinedFront(vs[..i], Head(vs[i], a), b);
  }

  lemma BelowFront(vs: seq<Region>, a: nat)
    requires Ok(vs) && Below(vs, a)
    ensures Front(vs, a)
  {
    hide Aligned;
  }

  /** Stripping behind a region that goes whole. */
  lemma StrippedWhole(vs: seq<Region>, i: nat, a: nat, m: nat)
    requires Ok(vs) && i == Find(vs, a) < |vs| && Aligned(a) && Aligned(m) && vs[i].end <= m < vs[i].end + HALF
    ensures Stripped(vs, a, m) == Join(Fore(vs, i, a), Stripped(Aft(vs, i), vs[i].end, m))
  {
    hide Fore;
    hide Aligned;
    hide Find;
    hide Head;
    hide CutOut;
    hide Ok;
    hide Front;
    hide Above;
    hide Stripped;
    WholeFacts(vs, i, a);
    StrippedStep(vs, i, a, m);
    StrippedBehind(Fore(vs, i, a), Aft(vs, i), vs[i].end, m);
  }

  lemma StrippedBehind(f: seq<Region>, r: seq<Region>, b: nat, m: nat)
    requires Ok(r) && Ok(f + r) && Front(f, b) && Aligned(b) && Aligned(m) && b <= m < b + HALF
    ensures Stripped(f + r, b, m) == f + Stripped(r, b, m)
  {
    hide *;
    AlignedRest(b, m);
    UnmappedBehind(f, r, b, m - b);
    UnmappedShort(f + r, b, m - b);
  }

  lemma AlignedRest(b: nat, m: nat)
    requires Aligned(b) && Aligned(m) && b <= m
    ensures Aligned(m - b)
  {
  }

  lemma HeadFront(v: Region, a: nat)
    requires In(v, a)
    ensures Front(Head(v, a), v.end)
  {
  }

  /** A cut of 2 GiB or more: the signed length is negative. */
  lemma FreedLong(vs: seq<Region>, i: nat, a: nat, n: nat)
    requires i < |vs| && In(vs[i], a) && a + n <= vs[i].end <= USER_TOP && HALF <= n < SIZES
    ensures var us := Fore(vs, i, a) + vs[i + 1..];
      Freed(vs, i, a, Signed(n)) == if a + n >= SIZES then Inserted(us, Tail(vs[i], a + n - SIZES)) else us
  {
    hide Inserted;
    hide Head;
    hide Tail;
    assert Signed(n) == n - SIZES;
    if a + n >= SIZES {
      assert (a + n - SIZES) % WORD == a + n - SIZES;
    } else {
      assert (a + n - SIZES) % WORD == a + n - SIZES + WORD;
    }
  }

  /** The list after the loop. */
  ghost function Left(vs: seq<Region>, a: nat, e: nat): seq<Region> {
    var us := Stripped(vs, a, Extent(vs, a, e));
    if Grows(vs, a, e) then Inserted(us, Grown(vs, a, e)) else us
  }

  lemma LongFirst(vs: seq<Region>, a: nat, n: nat)
    requires Ok(vs) && Aligned(a) && Aligned(n) && Find(vs, a) < |vs| && n < SIZES
    requires Min(vs[Find(vs, a)].end - a, n) >= HALF
    ensures Unmapped(vs, a, n) == Left(vs, a, a + n)
  {
    hide *;
    var i := Find(vs, a);
    var size := LongSizes(vs, i, a, n);
    WholeBehind(vs, i, a);
    StrippedWhole(vs, i, a, Extent(vs, a, a + n));
    LongStart(vs, i, a, n, size);
    LongChain(vs, a, n, vs[i], Fore(vs, i, a), Aft(vs, i), size);
  }

  lemma LongSizes(vs: seq<Region>, i: nat, a: nat, n: nat) returns (size: nat)
    requires Ok(vs) && Aligned(a) && Aligned(n) && i == Find(vs, a) < |vs| && n < SIZES && Min(vs[i].end - a, n) >= HALF
    ensures size == Min(vs[i].end - a, n) && vs[i].start <= a < vs[i].end && HALF <= size <= n && Aligned(n - size)
    ensures Extent(vs, a, a + n) == vs[i].end + (n - size) && n - size < HALF && Aligned(Extent(vs, a, a + n))
    ensures Grows(vs, a, a + n) <==> a + size >= SIZES
    ensures a + size >= SIZES ==> Grown(vs, a, a + n) == Tail(vs[i], a + size - SIZES)
  {
    hide Ok;
    hide Aligned;
    hide Find;
    hide Tail;
    hide Extent;
    hide Grows;
    hide Grown;
    LongEnds(vs, a, n);
    size := Min(vs[i].end - a, n);
    WholeBehind(vs, i, a);
    LongRest(a, n, vs[i].end);
  }

  /** Both sides of the result, from the list without the region. */
  lemma LongChain(vs: seq<Region>, a: nat, n: nat, v: Region, f: seq<Region>, r: seq<Region>, size: nat)
    requires Ok(r) && Above(r, v.end) && Front(f, v.end) && Aligned(v.end) && size <= n && Aligned(n - size)
    requires n - size < HALF && HALF <= size && Extent(vs, a, a + n) == v.end + (n - size) && v.end > 0 && a < v.end
    requires size < SIZES
    requires Stripped(vs, a, Extent(vs, a, a + n)) == Join(f, Stripped(r, v.end, Extent(vs, a, a + n)))
    requires Grows(vs, a, a + n) <==> a + size >= SIZES
    requires a + size >= SIZES ==> Grown(vs, a, a + n) == Tail(v, a + size - SIZES)
    requires a + size >= SIZES ==>
      Unmapped(vs, a, n) == Unmapped(Inserted(Join(f, r), Tail(v, a + size - SIZES)), v.end, n - size)
    requires a + size < SIZES ==> Unmapped(vs, a, n) == Unmapped(Join(f, r), v.end, n - size)
    ensures Unmapped(vs, a, n) == Left(vs, a, a + n)
  {
    hide Ok;
    hide Above;
    hide Front;
    hide Aligned;
    hide Unmapped;
    hide Stripped;
    hide Inserted;
    hide Long;
    hide Tail;
    hide Left;
    hide Extent;
    hide Grows;
    LeftIs(vs, a, a + n);
    if a + size >= SIZES {
      LongGrown(f, r, Tail(v, a + size - SIZES), n - size);
    } else {
      UnmappedBehind(f, r, v.end, n - size);
    }
  }

  lemma WholeBehind(vs: seq<Region>, i: nat, a: nat)
    requires Ok(vs) && i < |vs| && vs[i].start <= a < vs[i].end && Aligned(a)
    ensures Ok(Aft(vs, i)) && Above(Aft(vs, i), vs[i].end) && Front(Fore(vs, i, a), vs[i].end) && Aligned(vs[i].end)
    ensures 0 < a && vs[i].end <= USER_TOP
  {
    hide Ok;
    hide Above;
    hide Front;
    hide Aligned;
    hide Fore;
    hide CutOut;
    WholeFacts(vs, i, a);
  }

  lemma LongStart(vs: seq<Region>, i: nat, a: nat, n: nat, size: nat)
    requires i == Find(vs, a) < |vs| && 0 < a < vs[i].end <= USER_TOP && size == Min(vs[i].end - a, n)
    requires HALF <= size < SIZES
    ensures a + size >= SIZES ==> var t := Tail(vs[i], a + size - SIZES);
      Unmapped(vs, a, n) == Unmapped(Inserted(Join(Fore(vs, i, a), Aft(vs, i)), t), vs[i].end, n - size)
    ensures a + size < SIZES ==> Unmapped(vs, a, n) == Unmapped(Join(Fore(vs, i, a), Aft(vs, i)), vs[i].end, n - size)
  {
    hide Aft;
    hide Find;
    hide Unmapped;
    hide Inserted;
    hide Fore;
    hide Tail;
    hide Freed;
    hide Signed;
    UnmappedStep(vs, a, n);
    UnmappedRest(Freed(vs, i, a, Signed(size)), a + size, vs[i].end, n - size);
    if a + size >= SIZES {
      FreedGrown(vs, i, a, size);
    } else {
      FreedWhole(vs, i, a, size);
    }
  }

  lemma LongEnds(vs: seq<Region>, a: nat, n: nat)
    requires Find(vs, a) < |vs| && Min(vs[Find(vs, a)].end - a, n) >= HALF
    ensures var v := vs[Find(vs, a)]; var size := Min(v.end - a, n);
      && Extent(vs, a, a + n) == (if a + n < v.end then v.end else a + n)
      && (Grows(vs, a, a + n) <==> a + size >= SIZES)
      && (a + size >= SIZES ==> Grown(vs, a, a + n) == Tail(v, a + size - SIZES))
      && v.start <= a < v.end && size <= v.end - a && HALF <= size <= n
  {
    hide Tail;
    hide Find;
    LongIs(vs, a, a + n);
    hide Long;
  }

  lemma FreedGrown(vs: seq<Region>, i: nat, a: nat, n: nat)
    requires i < |vs| && In(vs[i], a) && a + n <= vs[i].end <= USER_TOP && HALF <= n < SIZES && a + n >= SIZES
    ensures Freed(vs, i, a, Signed(n)) == Inserted(Fore(vs, i, a) + Aft(vs, i), Tail(vs[i], a + n - SIZES))
  {
    hide Inserted;
    hide Tail;
    hide Fore;
    FreedLong(vs, i, a, n);
  }

  lemma FreedWhole(vs: seq<Region>, i: nat, a: nat, n: nat)
    requires i < |vs| && In(vs[i], a) && a + n <= vs[i].end <= USER_TOP && HALF <= n < SIZES && a + n < SIZES
    ensures Freed(vs, i, a, Signed(n)) == Fore(vs, i, a) + Aft(vs, i)
  {
    hide Inserted;
    hide Tail;
    hide Fore;
    FreedLong(vs, i, a, n);
  }

  lemma LongIs(vs: seq<Region>, a: nat, e: nat)
    requires Find(vs, a) < |vs| && Min(vs[Find(vs, a)].end, e) >= a + HALF
    ensures var v := vs[Find(vs, a)]; Long(vs, a, e) == Some(Piece(a, Min(v.end, e), v))
  {
    hide Find;
  }

  lemma LeftIs(vs: seq<Region>, a: nat, e: nat)
    ensures Grows(vs, a, e) ==> Left(vs, a, e) == Inserted(Stripped(vs, a, Extent(vs, a, e)), Grown(vs, a, e))
    ensures !Grows(vs, a, e) ==> Left(vs, a, e) == Stripped(vs, a, Extent(vs, a, e))
  {
    hide Stripped;
    hide Inserted;
    hide Long;
  }

  lemma UnmappedRest(vs: seq<Region>, a: nat, b: nat, n: nat)
    requires n == 0 || a == b
    ensures Unmapped(vs, a, n) == Unmapped(vs, b, n)
  {
  }

  lemma LongRest(a: nat, n: nat, b: nat)
    requires Aligned(a) && Aligned(n) && Aligned(b) && a < b && HALF <= Min(b - a, n) && n < SIZES
    ensures var m := if a + n < b then b else a + n; Aligned(m) && m < b + HALF && Aligned(m - b)
    ensures n - Min(b - a, n) == (if a + n < b then 0 else a + n - b)
  {
    hide Aligned;
    AlignedAdd(a, n);
    AlignedRest(b, if a + n < b then b else a + n);
  }

  /** The rest of the loop goes on behind the region that was left. */
  lemma LongGrown(f: seq<Region>, r: seq<Region>, t: Region, n: nat)
    requires Ok(r) && Above(r, t.end) && Front(f, t.end) && t.start < t.end && n < HALF && Aligned(t.end) && Aligned(n)
    ensures Unmapped(Inserted(f + r, t), t.end, n) == Inserted(f + Stripped(r, t.end, t.end + n), t)
  {
    hide Ok;
    hide Aligned;
    hide Inserted;
    hide Front;
    hide Above;
    hide Unmapped;
    hide Stripped;
    InsertedFront(f, r, t);
    StrippedAbove(r, t.end, t.end + n, t.end);
    InsertedFront(f, Stripped(r, t.end, t.end + n), t);
    UnmappedBehind(Inserted(f, t), r, t.end, n);
  }

  /** do_munmap() with a length of 32 bits: regions stripped, and one put in if the range has such a piece. */
  lemma {:induction false} UnmappedIs(vs: seq<Region>, a: nat, n: nat)
    requires Ok(vs) && Aligned(a) && Aligned(n) && n < SIZES
    ensures Unmapped(vs, a, n) == Left(vs, a, a + n)
    decreases n
  {
    hide Ok;
    hide Aligned;
    hide Freed;
    hide Inserted;
    hide Stripped;
    hide Find;
    hide CutOut;
    hide Unmapped;
    hide Left;
    var i := Find(vs, a);
    if n == 0 || i == |vs| {
      NothingLeft(vs, a, a + n);
      NothingToFree(vs, a, n);
    } else if Min(vs[i].end - a, n) >= HALF {
      LongFirst(vs, a, n);
    } else {
      OneStep(vs, i, a, n);
      var size := Min(vs[i].end - a, n);
      UnmappedIs(CutOut(vs, i, a, a + size), a + size, n - size);
    }
  }

  lemma NothingLeft(vs: seq<Region>, a: nat, e: nat)
    requires a >= e || Find(vs, a) == |vs|
    ensures Left(vs, a, e) == vs
  {
    hide Find;
    hide Inserted;
    hide Stripped;
    NothingToStrip(vs, a, e);
  }

  lemma OneStep(vs: seq<Region>, i: nat, a: nat, n: nat)
    requires Ok(vs) && i == Find(vs, a) < |vs| && Aligned(a) && Aligned(n) && 0 < n < SIZES
    requires Min(vs[i].end - a, n) < HALF
    ensures var size := Min(vs[i].end - a, n); var us := CutOut(vs, i, a, a + size);
      && Ok(us) && Aligned(a + size) && Aligned(n - size)
      && Unmapped(vs, a, n) == Unmapped(us, a + size, n - size) && Left(vs, a, a + n) == Left(us, a + size, a + n)
  {
    hide Ok;
    hide Aligned;
    hide Freed;
    hide Find;
    hide CutOut;
    hide Unmapped;
    hide Left;
    var size := Min(vs[i].end - a, n);
    WholeFacts(vs, i, a);
    CutKeeps(vs, i, a, n);
    OkSplit(vs, i);
    NoFront(a);
    FreedBehind([], vs, i, a, size);
    assert [] + vs == vs && [] + CutOut(vs, i, a, a + size) == CutOut(vs, i, a, a + size);
    UnmappedStep(vs, a, n);
    LeftStep(vs, i, a, a + n);
  }

  lemma LeftStep(vs: seq<Region>, i: nat, a: nat, e: nat)
    requires Ok(vs) && i == Find(vs, a) < |vs| && a < e && Min(vs[i].end, e) < a + HALF
    ensures var x := Min(vs[i].end, e); Left(vs, a, e) == Left(CutOut(vs, i, a, x), x, e)
  {
    hide Ok;
    hide Inserted;
    hide Find;
    hide CutOut;
    hide Stripped;
    LongStep(vs, i, a, e);
    hide Long;
    StrippedStep(vs, i, a, Extent(vs, a, e));
  }

  lemma LongStep(vs: seq<Region>, i: nat, a: nat, e: nat)
    requires Ok(vs) && i == Find(vs, a) < |vs| && a < e && Min(vs[i].end, e) < a + HALF
    ensures var x := Min(vs[i].end, e); Long(vs, a, e) == Long(CutOut(vs, i, a, x), x, e)
    ensures e < vs[i].end ==> Long(vs, a, e).None?
  {
    hide Ok;
    hide Find;
    hide CutOut;
    if vs[i].end <= e {
      LongBehind(vs, i, a, e);
    } else {
      LongNone(vs, a, e);
    }
  }

  // ---- when the loop does what it is to do ----

  /** The loop comes to the piece through mapped pages, and its region is in the list. */
  lemma {:induction false} LongMapped(vs: seq<Region>, a: nat, e: nat)
    requires Ok(vs) && Long(vs, a, e).Some?
    ensures var l := Long(vs, a, e).value; l.of in vs && forall p :: a <= p < l.of.end ==> Look(vs, p).Some?
    decreases e - a
  {
    hide Look;
    hide Ok;
    var i := Find(vs, a);
    var x := Min(vs[i].end, e);
    forall p | a <= p < vs[i].end ensures Look(vs, p).Some? {
      LookHere(vs, i, p);
    }
    if x - a < HALF {
      LongMapped(vs, x, e);
    }
  }

  lemma ExtentMapped(vs: seq<Region>, a: nat, e: nat)
    requires Ok(vs) && e < Extent(vs, a, e)
    ensures forall p :: a <= p < Extent(vs, a, e) ==> Look(vs, p).Some?
  {
    hide Look;
    hide Ok;
    hide Long;
    LongMapped(vs, a, e);
  }

  lemma ExtentAligned(vs: seq<Region>, a: nat, e: nat)
    requires Ok(vs) && Aligned(e)
    ensures Aligned(Extent(vs, a, e)) && e <= Extent(vs, a, e)
  {
    hide Long;
    if Long(vs, a, e).Some? {
      LongMapped(vs, a, e);
    }
  }

  /** A list with nothing just before `b` falls apart there. */
  lemma SplitAt(vs: seq<Region>, b: nat) returns (k: nat)
    requires Ok(vs) && b > 0 && Look(vs, b - 1).None?
    ensures k <= |vs| && vs == vs[..k] + vs[k..] && Front(vs[..k], b) && Above(vs[k..], b)
  {
    hide Look;
    hide Aligned;
    k := Before(vs, b - 1);
    LookNone(vs, b - 1);
  }

  /** A region shows all its pages, whatever it is put over, if nothing there ends behind it. */
  lemma InsertedShows(f: seq<Region>, t: Region, p: int)
    requires Front(f, t.end) && In(t, p)
    ensures Look(Inserted(f, t), p).Some?
  {
    hide Look;
    LookNone(Inserted(f, t), p);
    var i := InsertedHolds(f, t);
  }

  lemma InsertedHolds(f: seq<Region>, t: Region) returns (i: nat)
    requires Front(f, t.end) && t.start < t.end
    ensures i < |Inserted(f, t)| && Inserted(f, t)[i].start <= t.start && Inserted(f, t)[i].end == t.end
    ensures Inserted(f, t)[i + 1..] == f[Before(f, t.start)..]
  {
    hide Inserted;
    hide Before;
    var k := Before(f, t.start);
    if k > 0 && f[k - 1].end > t.start {
      InsertedShortened(f, t);
      i := k - 1 + |Head(f[k - 1], t.start)|;
      assert Shortened(f, t)[i] == t && Shortened(f, t)[i + 1..] == f[k..];
    } else {
      InsertedPlaced(f, t);
      i := |Beside(f[..k], t)| - 1;
      BesideEnds(f[..k], t);
      assert Placed(f, t)[i] == Beside(f[..k], t)[i] && Placed(f, t)[i + 1..] == f[k..];
    }
  }

  lemma BesideEnds(f: seq<Region>, t: Region)
    requires forall j :: 0 <= j < |f| ==> f[j].start <= t.start
    ensures var n := |Beside(f, t)| - 1; n >= 0 && Beside(f, t)[n].start <= t.start && Beside(f, t)[n].end == t.end
  {
  }

  /** The start of such a piece stays mapped. */
  lemma GrownStays(vs: seq<Region>, a: nat, e: nat)
    requires Ok(vs) && Aligned(a) && Aligned(e) && a <= e < a + SIZES && Grows(vs, a, e)
    ensures Look(Left(vs, a, e), Long(vs, a, e).value.from).Some?
  {
    hide Ok;
    hide Aligned;
    hide Look;
    hide Inserted;
    hide Stripped;
    hide Long;
    var l, m := Long(vs, a, e).value, Extent(vs, a, e);
    var us, t := Stripped(vs, a, m), Grown(vs, a, e);
    var k := GrownSplit(vs, a, e);
    InsertedFront(us[..k], us[k..], t);
    InsertedShows(us[..k], t, l.from);
    LookBoth(Inserted(us[..k], t), us[k..], l.from);
  }

  /** The list that the region is left in: nothing crosses its end. */
  lemma GrownSplit(vs: seq<Region>, a: nat, e: nat) returns (k: nat)
    requires Ok(vs) && Aligned(a) && Aligned(e) && a <= e && Grows(vs, a, e)
    ensures var us, t := Stripped(vs, a, Extent(vs, a, e)), Grown(vs, a, e);
      k <= |us| && us == us[..k] + us[k..] && Front(us[..k], t.end) && Above(us[k..], t.end) && t.start < t.end
  {
    hide Ok;
    hide Aligned;
    hide Look;
    hide Stripped;
    hide Long;
    hide Front;
    hide Above;
    var l, m := Long(vs, a, e).value, Extent(vs, a, e);
    LongMapped(vs, a, e);
    ExtentAligned(vs, a, e);
    var s := StrippedPages(vs, a, m);
    k := SplitAt(Stripped(vs, a, m), l.of.end);
  }

  /**
    * What is cut out of a region is what was asked for exactly if it is shorter than 2 GiB, or ends its region below
    * 4 GiB.
    */
  lemma FreedRightIff(vs: seq<Region>, i: nat, a: nat, n: nat)
    requires Ok(vs) && i < |vs| && In(vs[i], a) && 0 < n < SIZES && a + n <= vs[i].end && Aligned(a) && Aligned(n)
    ensures (forall p :: Look(Freed(vs, i, a, Signed(n)), p) == if a <= p < a + n then None else Look(vs, p))
      <==> n < HALF || a + n == vs[i].end < SIZES
  {
    hide Fore;
    hide Ok;
    hide Aligned;
    hide Look;
    hide Freed;
    hide Inserted;
    hide CutOut;
    hide Head;
    hide Tail;
    hide Front;
    hide Above;
    var x := a + n;
    if n < HALF {
      FreedShort(vs, i, a, n);
      forall p ensures Look(CutOut(vs, i, a, x), p) == if a <= p < x then None else Look(vs, p) {
        CutPages(vs, i, a, x, p);
      }
    } else {
      var f, r := Fore(vs, i, a), vs[i + 1..];
      WholeFacts(vs, i, a);
      FreedLong(vs, i, a, n);
      if x >= SIZES {
        var t := Tail(vs[i], x - SIZES);
        InsertedFront(f, r, t);
        InsertedShows(f, t, a);
        LookBoth(Inserted(f, t), r, a);
      } else {
        forall p ensures Look(f + r, p) == if a <= p < vs[i].end then None else Look(vs, p) {
          CutPages(vs, i, a, vs[i].end, p);
        }
        if x < vs[i].end {
          LookHere(vs, i, x);
        }
      }
    }
  }

  lemma FreedShort(vs: seq<Region>, i: nat, a: nat, n: nat)
    requires Ok(vs) && i < |vs| && In(vs[i], a) && 0 < n < HALF && a + n <= vs[i].end
    ensures Freed(vs, i, a, Signed(n)) == CutOut(vs, i, a, a + n)
  {
    hide *;
    NoFront(a);
    HereIn(vs[i], a);
    FreedBehind([], vs, i, a, n);
    assert [] + vs == vs && [] + CutOut(vs, i, a, a + n) == CutOut(vs, i, a, a + n);
  }

  lemma HereIn(v: Region, a: nat)
    requires In(v, a)
    ensures v.start <= a < v.end
  {
  }

  /** What is mapped after the loop: nothing up to `s`, unless a piece is too long, and all else as before. */
  lemma UnmappedPages(vs: seq<Region>, a: nat, n: nat) returns (s: nat)
    requires Ok(vs) && Aligned(a) && Aligned(n) && n < SIZES
    ensures Grows(vs, a, a + n) ==> Look(Unmapped(vs, a, n), Long(vs, a, a + n).value.from).Some?
    ensures !Grows(vs, a, a + n) ==> Ok(Unmapped(vs, a, n)) && Reach(vs, a, Extent(vs, a, a + n), s)
    ensures !Grows(vs, a, a + n) ==>
      forall p :: Look(Unmapped(vs, a, n), p) == if a <= p < s then None else Look(vs, p)
  {
    hide Unmapped;
    hide Ok;
    hide Aligned;
    hide Look;
    hide Stripped;
    hide Long;
    hide Inserted;
    var e, m := a + n, Extent(vs, a, a + n);
    UnmappedIs(vs, a, n);
    AlignedAdd(a, n);
    s := a;
    if Grows(vs, a, e) {
      GrownStays(vs, a, e);
    } else {
      ExtentAligned(vs, a, e);
      s := StrippedPages(vs, a, m);
    }
  }

  /** munmap() clears its range exactly when nothing in it is mapped after a hole and no region is left over it. */
  lemma UnmapClearsIff(vs: seq<Region>, a: nat, n: nat)
    requires Ok(vs) && Aligned(a) && Aligned(n) && n < SIZES
    ensures AllClear(Unmapped(vs, a, n), a, a + n) <==> NoHoleFirst(vs, a, a + n) && !Grows(vs, a, a + n)
  {
    hide Unmapped;
    hide Ok;
    hide Aligned;
    hide Look;
    hide Long;
    hide NoHoleFirst;
    hide Reach;
    var e, m := a + n, Extent(vs, a, a + n);
    var s := UnmappedPages(vs, a, n);
    if !Grows(vs, a, e) {
      ClearIff(vs, Unmapped(vs, a, n), a, e, m, s);
    }
  }

  /** No region starts between the two addresses. */
  ghost predicate NoneStarts(vs: seq<Region>, a: nat, e: nat) {
    forall i :: 0 <= i < |vs| ==> !(a < vs[i].start < e)
  }

  lemma {:induction false} StrippedStarts(vs: seq<Region>, a: nat, e: nat, b: nat, c: nat)
    requires c <= a
    ensures NoneStarts(Stripped(vs, a, e), b, c) <==> NoneStarts(vs, b, c)
    decreases e - a
  {
    hide NoneStarts;
    hide CutOut;
    var i := Find(vs, a);
    if a < e && i < |vs| {
      var x := Min(vs[i].end, e);
      CutStarts(vs, i, a, x, b, c);
      StrippedStarts(CutOut(vs, i, a, x), x, e, b, c);
    }
  }

  lemma CutStarts(vs: seq<Region>, i: nat, a: nat, x: nat, b: nat, c: nat)
    requires i < |vs| && vs[i].start <= a <= x <= vs[i].end && c <= a
    ensures NoneStarts(CutOut(vs, i, a, x), b, c) <==> NoneStarts(vs, b, c)
  {
    hide Tail;
    var r := Remains(vs[i], a, x);
    assert [vs[i]][0] == vs[i];
    if vs[i].start < a {
      assert r[0].start == vs[i].start;
    }
    NoneStartsJoin(vs[..i], Remains(vs[i], a, x), vs[i + 1..], b, c);
    NoneStartsJoin(vs[..i], [vs[i]], vs[i + 1..], b, c);
    assert vs == vs[..i] + [vs[i]] + vs[i + 1..];
  }

  lemma NoneStartsJoin(f: seq<Region>, g: seq<Region>, h: seq<Region>, b: nat, c: nat)
    ensures NoneStarts(f + g + h, b, c) <==> NoneStarts(f, b, c) && NoneStarts(g, b, c) && NoneStarts(h, b, c)
  {
    hide NoneStarts;
    NoneStartsBoth(f, g, b, c);
    NoneStartsBoth(f + g, h, b, c);
  }

  lemma NoneStartsBoth(f: seq<Region>, g: seq<Region>, b: nat, c: nat)
    ensures NoneStarts(f + g, b, c) <==> NoneStarts(f, b, c) && NoneStarts(g, b, c)
  {
    assert forall i :: 0 <= i < |f| ==> (f + g)[i] == f[i];
    assert forall i :: 0 <= i < |g| ==> (f + g)[|f| + i] == g[i];
  }
}
