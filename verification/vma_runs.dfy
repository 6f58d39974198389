/** Whole runs of mmap(), munmap() and mprotect() against what each call means page by page. */
module VmaRuns {
  import opened Prelude
  import opened Vma
  import opened VmaCalls
  import opened VmaUnmap
  import opened VmaMaps

  datatype Call = Map(v: Region) | Unmap(a: nat, e: nat) | Protect(a: nat, n: nat, prot: bv8)

  /** What the callers of the three operations have checked. */
  ghost predicate Legal(vs: seq<Region>, c: Call) {
    match c
    case Map(v) => Sound(v)
    case Unmap(a, e) => a <= e && Aligned(a) && Aligned(e)
    case Protect(a, n, _) =>
      Aligned(a) && Aligned(n) && Find(vs, a) < |vs| && a + n % SIZES <= vs[Find(vs, a)].end
  }

  /** What the code does: lengths are cut to 32 bits. */
  ghost function Apply(vs: seq<Region>, c: Call): seq<Region>
    requires Legal(vs, c)
  {
    match c
    case Map(v) => Installed(vs, v)
    case Unmap(a, e) => Unmapped(vs, a, (e - a) % SIZES)
    case Protect(a, n, prot) => Protected(vs, Find(vs, a), a, n % SIZES, prot)
  }

  /** What a call is to do to the page at `p`. */
  function PageAfter(page: Option<Page>, c: Call, p: int): Option<Page> {
    match c
    case Map(v) => if In(v, p) then Some(PageOf(v, p)) else page
    case Unmap(a, e) => if a <= p < e then None else page
    case Protect(a, n, prot) => if a <= p < a + n && page.Some? then Some(page.value.(prot := prot)) else page
  }

  /** The mapped pages of a range have this protection already. */
  ghost predicate HasProt(vs: seq<Region>, a: nat, e: nat, prot: bv8) {
    forall p :: a <= p < e && Look(vs, p).Some? ==> Look(vs, p).value.prot == prot
  }

  /** The requests the code gets right. */
  ghost predicate Served(vs: seq<Region>, c: Call)
    requires Legal(vs, c)
  {
    match c
    case Map(v) => MapKeeps(vs, v) && MapExact(vs, v)
    case Unmap(a, e) =>
      var m := Extent(vs, a, a + (e - a) % SIZES);
      !Grows(vs, a, a + (e - a) % SIZES) && m <= e && NoHoleFirst(vs, a, m) && AllClear(vs, m, e)
    case Protect(a, n, prot) =>
      var v := vs[Find(vs, a)];
      var e := ProtectedEnd(v, a, n % SIZES);
      && (n % SIZES > 0 || v.start < a || CanMerge(v.(end := a, prot := prot), v))
      && HasProt(vs, a + n, e, prot) && HasProt(vs, e, a + n, prot)
  }

  /** The list `us` shows what the call is to make of the pages of `vs`. */
  ghost predicate Does(us: seq<Region>, vs: seq<Region>, c: Call) {
    forall p :: Look(us, p) == PageAfter(Look(vs, p), c, p)
  }

  ghost predicate Right(vs: seq<Region>, c: Call)
    requires Legal(vs, c)
  {
    Ok(Apply(vs, c)) && Does(Apply(vs, c), vs, c)
  }

  /** A call keeps the list in order and does what it is to do to every page exactly when it is one of those. */
  lemma RightIffServed(vs: seq<Region>, c: Call)
    requires Ok(vs) && Legal(vs, c)
    ensures Right(vs, c) <==> Served(vs, c)
  {
    match c
    case Map(v) =>
      MapRight(vs, v);
    case Unmap(a, e) =>
      UnmapRight(vs, a, e);
    case Protect(a, n, prot) =>
      ProtectRight(vs, a, n, prot);
  }

  lemma MapRight(vs: seq<Region>, v: Region)
    requires Ok(vs) && Sound(v)
    ensures Right(vs, Map(v)) <==> Served(vs, Map(v))
  {
    hide Look;
    hide Installed;
    hide Ok;
    hide MapKeeps;
    hide MapExact;
    hide Aligned;
    hide PageOf;
    MappedOkIff(vs, v);
  }

  lemma UnmapRight(vs: seq<Region>, a: nat, e: nat)
    requires Ok(vs) && a <= e && Aligned(a) && Aligned(e)
    ensures Right(vs, Unmap(a, e)) <==> Served(vs, Unmap(a, e))
  {
    hide Look;
    hide Unmapped;
    hide Ok;
    hide Aligned;
    hide Long;
    var n := (e - a) % SIZES;
    CutRange(a, e);
    var us, m := Unmapped(vs, a, n), Extent(vs, a, a + n);
    var s := UnmappedPages(vs, a, n);
    if Grows(vs, a, a + n) {
      NotCleared(us, vs, a, e, Long(vs, a, a + n).value.from);
    } else {
      ExtentAligned(vs, a, a + n);
      if e < m {
        ExtentMapped(vs, a, a + n);
      }
      UnmapRightIff(vs, us, a, e, m, s);
    }
  }

  lemma CutRange(a: nat, e: nat)
    requires a <= e && Aligned(a) && Aligned(e)
    ensures Aligned((e - a) % SIZES) && a + (e - a) % SIZES <= e && Aligned(a + (e - a) % SIZES)
  {
  }

  lemma UnmapRightIff(vs: seq<Region>, us: seq<Region>, a: nat, e: nat, m: nat, s: nat)
    requires Reach(vs, a, m, s) && (e < m ==> s == m) && a <= e
    requires forall p :: Look(us, p) == if a <= p < s then None else Look(vs, p)
    ensures Does(us, vs, Unmap(a, e)) <==> m <= e && NoHoleFirst(vs, a, m) && AllClear(vs, m, e)
  {
    hide Look;
    hide NoHoleFirst;
    hide Does;
    ClearedIff(vs, us, a, m, e, s);
    if e < m {
      assert Look(us, e).None? && Look(vs, e).Some?;
      NotDone(us, vs, Unmap(a, e), e);
    } else if AllClear(us, a, e) {
      AllCleared(us, vs, a, e);
    } else {
      var p :| a <= p < e && Look(us, p).Some?;
      NotCleared(us, vs, a, e, p);
    }
  }

  lemma NotDone(us: seq<Region>, vs: seq<Region>, c: Call, p: int)
    requires Look(us, p) != PageAfter(Look(vs, p), c, p)
    ensures !Does(us, vs, c)
  {
    hide Look;
    hide PageAfter;
  }

  lemma NotCleared(us: seq<Region>, vs: seq<Region>, a: nat, e: nat, p: int)
    requires a <= p < e && Look(us, p).Some?
    ensures !Does(us, vs, Unmap(a, e))
  {
    hide Look;
    NotDone(us, vs, Unmap(a, e), p);
  }

  lemma AllCleared(us: seq<Region>, vs: seq<Region>, a: nat, e: nat)
    requires AllClear(us, a, e) && forall p :: !(a <= p < e) ==> Look(us, p) == Look(vs, p)
    ensures Does(us, vs, Unmap(a, e))
  {
    hide Look;
  }

  lemma ProtectRight(vs: seq<Region>, a: nat, n: nat, prot: bv8)
    requires Ok(vs) && Legal(vs, Protect(a, n, prot))
    ensures Right(vs, Protect(a, n, prot)) <==> Served(vs, Protect(a, n, prot))
  {
    hide Look;
    hide Ok;
    hide Protected;
    hide CanMerge;
    hide PageOf;
    var i, k, c := Find(vs, a), n % SIZES, Protect(a, n, prot);
    var v, us := vs[i], Apply(vs, c);
    CutLength(n);
    ProtectedOkIff(vs, i, a, k, prot);
    forall p ensures Look(us, p)
        == if a <= p < ProtectedEnd(v, a, k) then Some(PageOf(v, p).(prot := prot)) else Look(vs, p) {
      ProtectedPages(vs, i, a, k, prot, p);
    }
    forall p | In(v, p) ensures Look(vs, p) == Some(PageOf(v, p)) {
      LookHere(vs, i, p);
    }
    ProtectRightIff(vs, us, v, a, n, prot, ProtectedEnd(v, a, k));
  }

  lemma CutLength(n: nat)
    requires Aligned(n)
    ensures Aligned(n % SIZES) && n % SIZES <= n
  {
  }

  lemma ProtectRightIff(vs: seq<Region>, us: seq<Region>, v: Region, a: nat, n: nat, prot: bv8, e: nat)
    requires v.start <= a <= e <= v.end && forall p :: In(v, p) ==> Look(vs, p) == Some(PageOf(v, p))
    requires forall p :: Look(us, p) == if a <= p < e then Some(PageOf(v, p).(prot := prot)) else Look(vs, p)
    ensures Does(us, vs, Protect(a, n, prot)) <==> HasProt(vs, a + n, e, prot) && HasProt(vs, e, a + n, prot)
  {
    hide Look;
    hide PageOf;
    var c := Protect(a, n, prot);
    if HasProt(vs, a + n, e, prot) && HasProt(vs, e, a + n, prot) {
      forall p ensures Look(us, p) == PageAfter(Look(vs, p), c, p) {
        assert a <= p < e ==> In(v, p);
      }
    } else if !HasProt(vs, a + n, e, prot) {
      var p :| a + n <= p < e && Look(vs, p).Some? && Look(vs, p).value.prot != prot;
      assert In(v, p);
      NotDone(us, vs, c, p);
    } else {
      var p :| e <= p < a + n && Look(vs, p).Some? && Look(vs, p).value.prot != prot;
      NotDone(us, vs, c, p);
    }
  }

  /**
    * For ranges shorter than 2 GiB, and protection of less than 4 GiB, this comes down to what the loops and splits
    * do.
    */
  lemma ServedShort(vs: seq<Region>, c: Call)
    requires Ok(vs) && Legal(vs, c)
    ensures c.Map? && c.v.end - c.v.start < HALF ==> (Served(vs, c) <==> NoHoleFirst(vs, c.v.start, c.v.end))
    ensures c.Unmap? && c.e - c.a < HALF ==> (Served(vs, c) <==> NoHoleFirst(vs, c.a, c.e))
    ensures c.Protect? && c.n < SIZES ==>
      var v := vs[Find(vs, c.a)];
      (Served(vs, c) <==>
        && (c.n > 0 || v.start < c.a || CanMerge(v.(end := c.a, prot := c.prot), v))
        && (v.start == c.a || c.a + c.n == v.end || v.prot == c.prot))
  {
    hide Ok;
    hide Served;
    match c
    case Map(v) =>
      if v.end - v.start < HALF {
        MapShort(vs, v);
      }
    case Unmap(a, e) =>
      if e - a < HALF {
        UnmapShort(vs, a, e);
      }
    case Protect(a, n, prot) =>
      if n < SIZES {
        ProtectShort(vs, a, n, prot);
      }
  }

  lemma MapShort(vs: seq<Region>, v: Region)
    requires Ok(vs) && Sound(v) && v.end - v.start < HALF
    ensures Served(vs, Map(v)) <==> NoHoleFirst(vs, v.start, v.end)
  {
    hide Look;
    hide Ok;
    hide Long;
    hide NoHoleFirst;
    LongNone(vs, v.start, v.end);
  }

  lemma UnmapShort(vs: seq<Region>, a: nat, e: nat)
    requires a <= e < a + HALF && Aligned(a) && Aligned(e)
    ensures Served(vs, Unmap(a, e)) <==> NoHoleFirst(vs, a, e)
  {
    hide Look;
    hide Long;
    hide NoHoleFirst;
    LongNone(vs, a, e);
  }

  lemma ProtectShort(vs: seq<Region>, a: nat, n: nat, prot: bv8)
    requires Ok(vs) && Legal(vs, Protect(a, n, prot)) && n < SIZES
    ensures var v := vs[Find(vs, a)];
      (Served(vs, Protect(a, n, prot)) <==>
        && (n > 0 || v.start < a || CanMerge(v.(end := a, prot := prot), v))
        && (v.start == a || a + n == v.end || v.prot == prot))
  {
    hide Look;
    hide Ok;
    hide Find;
    hide CanMerge;
    hide Aligned;
    ProtHere(vs, Find(vs, a), a + n, prot);
  }

  lemma ProtHere(vs: seq<Region>, i: nat, a: nat, prot: bv8)
    requires Ok(vs) && i < |vs| && vs[i].start <= a <= vs[i].end
    ensures HasProt(vs, a, vs[i].end, prot) <==> a == vs[i].end || vs[i].prot == prot
  {
    hide Look;
    hide Ok;
    forall p | In(vs[i], p) ensures Look(vs, p) == Some(PageOf(vs[i], p)) {
      LookHere(vs, i, p);
    }
    if a < vs[i].end {
      assert In(vs[i], a);
    }
  }

  ghost predicate AllServed(vs: seq<Region>, calls: seq<Call>)
    decreases |calls|
  {
    calls != [] ==> Legal(vs, calls[0]) && Served(vs, calls[0]) && AllServed(Apply(vs, calls[0]), calls[1..])
  }

  ghost function ApplyAll(vs: seq<Region>, calls: seq<Call>): seq<Region>
    requires AllServed(vs, calls)
    decreases |calls|
  {
    if calls == [] then vs else ApplyAll(Apply(vs, calls[0]), calls[1..])
  }

  function PagesAfter(page: Option<Page>, calls: seq<Call>, p: int): Option<Page>
    decreases |calls|
  {
    if calls == [] then page else PagesAfter(PageAfter(page, calls[0], p), calls[1..], p)
  }

  /** Every run keeps the list sorted and disjoint and shows at each address what the calls in turn made of it. */
  lemma {:induction false} RunRefinesPages(vs: seq<Region>, calls: seq<Call>, p: int)
    requires Ok(vs) && AllServed(vs, calls)
    ensures Ok(ApplyAll(vs, calls)) && Look(ApplyAll(vs, calls), p) == PagesAfter(Look(vs, p), calls, p)
    decreases |calls|
  {
    if calls != [] {
      hide Look;
      hide Ok;
      RightIffServed(vs, calls[0]);
      RunRefinesPages(Apply(vs, calls[0]), calls[1..], p);
    }
  }

  // ---- where the code goes wrong ----

  const ANON := Region(0x10000, 0x11000, 3, 2, 0, 6, 0, ReadWrite)

  /** A fixed mapping over a hole and a mapping behind it leaves two regions over one page. */
  lemma FixedMapCanOverlap()
    ensures Ok([ANON]) && Sound(ANON.(start := 0xF000)) && !Served([ANON], Map(ANON.(start := 0xF000)))
    ensures !Ok(Apply([ANON], Map(ANON.(start := 0xF000))))
  {
    var v, vs := ANON.(start := 0xF000), [ANON];
    LookNone(vs, 0xF000);
    LookHere(vs, 0, 0x10000);
    MappedOkIff(vs, v);
  }

  /** The file offset of a page, as a page fault computes it: 64 bits wide. */
  function FileOffset(v: Region, p: int): int {
    v.offset + (p - v.start)
  }

  /**
    * Cutting a file region moves its pages to another place in the file exactly when the new offset does not fit 32
    * bits.
    */
  lemma TailOffsetIff(v: Region, a: nat, p: int)
    requires v.start <= a
    ensures FileOffset(Tail(v, a), p) == FileOffset(v, p) <==> FileOffset(v, a) < OFFSETS
  {
  }

  /** A file region all of whose offsets fit. */
  predicate Short(v: Region) {
    v.inode != 0 ==> v.offset + (v.end - v.start) <= OFFSETS
  }

  ghost predicate AllShort(vs: seq<Region>) {
    forall i :: 0 <= i < |vs| ==> Short(vs[i])
  }

  /** Then the offset of a page is the offset a fault computes. */
  lemma ShortOffsets(v: Region, p: int)
    requires Short(v) && In(v, p) && v.inode != 0
    ensures PageOf(v, p).offset == FileOffset(v, p)
  {
  }

  /** No region ends before it starts. */
  ghost predicate Solid(vs: seq<Region>) {
    forall i :: 0 <= i < |vs| ==> vs[i].start <= vs[i].end
  }

  lemma {:induction false} ShortInserted(vs: seq<Region>, v: Region)
    requires AllShort(vs) && Short(v) && Solid(vs)
    ensures AllShort(Inserted(vs, v))
    decreases Top(vs) - v.start
  {
    hide Short;
    hide AllShort;
    hide Solid;
    hide Before;
    hide Top;
    hide Placed;
    hide Shortened;
    var k := Before(vs, v.start);
    if k == 0 || vs[k - 1].end <= v.start {
      ShortPlaced(vs, v);
    } else {
      ShortShortened(vs, v);
      if v.start < v.end < vs[k - 1].end {
        ShortenedTop(vs, v);
        ShortInserted(Shortened(vs, v), vs[k - 1].(start := v.end));
      }
    }
  }

  lemma ShortPlaced(vs: seq<Region>, v: Region)
    requires AllShort(vs) && Short(v) && Solid(vs)
    ensures AllShort(Placed(vs, v))
  {
    hide Short;
    var k := Before(vs, v.start);
    var a := vs[..k];
    if a != [] && CanMerge(a[|a| - 1], v) {
      ShortMerged(a[|a| - 1], v);
    }
  }

  /** A region that reaches into the new one gets shorter, in front and behind. */
  lemma ShortShortened(vs: seq<Region>, v: Region)
    requires AllShort(vs) && Short(v) && Solid(vs)
    requires var k := Before(vs, v.start); k > 0 && v.start < vs[k - 1].end
    ensures AllShort(Shortened(vs, v))
    ensures var b := vs[Before(vs, v.start) - 1]; v.start <= v.end < b.end ==> Short(b.(start := v.end))
    ensures v.start <= v.end ==> Solid(Shortened(vs, v))
  {
    hide Short;
    hide AllShort;
    hide Solid;
    hide Head;
    var k := Before(vs, v.start);
    var a, b, c := vs[..k - 1], vs[k - 1], vs[k..];
    assert b.start <= v.start;
    hide Before;
    assert vs == a + [b] + c;
    ShortApart(a, [b], c);
    ShortOne(b);
    ShortEnds(b, v);
    ShortTogether(a, Head(b, v.start), v, c);
  }

  lemma ShortApart(a: seq<Region>, b: seq<Region>, c: seq<Region>)
    requires AllShort(a + b + c) && Solid(a + b + c)
    ensures AllShort(a) && AllShort(b) && AllShort(c) && Solid(a) && Solid(b) && Solid(c)
  {
    hide AllShort;
    hide Solid;
    ShortBoth(a + b, c);
    ShortBoth(a, b);
    SolidBoth(a + b, c);
    SolidBoth(a, b);
  }

  lemma ShortTogether(a: seq<Region>, h: seq<Region>, v: Region, c: seq<Region>)
    requires AllShort(a) && AllShort(h) && Short(v) && AllShort(c) && Solid(a) && Solid(h) && Solid(c)
    ensures AllShort(a + h + [v] + c) && (v.start <= v.end ==> Solid(a + h + [v] + c))
  {
    hide AllShort;
    hide Solid;
    hide Short;
    ShortOne(v);
    ShortBoth(a, h);
    ShortBoth(a + h, [v]);
    ShortBoth(a + h + [v], c);
    SolidBoth(a, h);
    SolidBoth(a + h, [v]);
    SolidBoth(a + h + [v], c);
  }

  lemma SolidBoth(a: seq<Region>, b: seq<Region>)
    ensures Solid(a + b) <==> Solid(a) && Solid(b)
  {
    assert forall i :: 0 <= i < |a| ==> (a + b)[i] == a[i];
    assert forall i :: 0 <= i < |b| ==> (a + b)[|a| + i] == b[i];
  }

  lemma ShortOne(v: Region)
    ensures AllShort([v]) <==> Short(v)
    ensures Solid([v]) <==> v.start <= v.end
  {
    hide Short;
    assert [v][0] == v;
  }

  lemma ShortEnds(b: Region, v: Region)
    requires Short(b) && b.start <= v.start < b.end
    ensures AllShort(Head(b, v.start)) && Solid(Head(b, v.start))
    ensures (v.start <= v.end < b.end ==> Short(b.(start := v.end)))
  {
  }

  lemma ShortBoth(a: seq<Region>, b: seq<Region>)
    ensures AllShort(a + b) <==> AllShort(a) && AllShort(b)
  {
    hide Short;
    assert forall i :: 0 <= i < |a| ==> (a + b)[i] == a[i];
    assert forall i :: 0 <= i < |b| ==> (a + b)[|a| + i] == b[i];
  }

  lemma ShortMerged(a: Region, v: Region)
    requires Short(a) && Short(v) && CanMerge(a, v) && a.start <= a.end
    ensures Short(a.(end := v.end))
  {
  }

  lemma {:induction false} ShortStripped(vs: seq<Region>, a: nat, e: nat)
    requires AllShort(vs)
    ensures AllShort(Stripped(vs, a, e))
    decreases e - a
  {
    hide AllShort;
    hide CutOut;
    var i := Find(vs, a);
    if a < e && i < |vs| {
      var x := Min(vs[i].end, e);
      ShortCut(vs, i, a, x);
      ShortStripped(CutOut(vs, i, a, x), x, e);
    }
  }

  lemma ShortCut(vs: seq<Region>, i: nat, a: nat, x: nat)
    requires AllShort(vs) && i < |vs| && vs[i].start <= a <= x <= vs[i].end
    ensures AllShort(CutOut(vs, i, a, x))
  {
    var r := Remains(vs[i], a, x);
    assert vs == vs[..i] + vs[i..] && vs[i..] == [vs[i]] + vs[i + 1..];
    ShortBoth(vs[..i], vs[i..]);
    ShortBoth([vs[i]], vs[i + 1..]);
    ShortBoth(vs[..i], r);
    ShortBoth(vs[..i] + r, vs[i + 1..]);
  }

  lemma ShortPieces(v: Region, a: nat, n: nat)
    requires Short(v) && Sound(v) && In(v, a) && a + n <= v.end
    ensures Short(Tail(v, a)) && Short(Tail(v, a + n)) && Short(v.(end := a)) && Short(v.(end := a + n))
    ensures forall w: Region, prot: bv8 :: Short(w.(prot := prot)) == Short(w)
  {
  }

  lemma ShortProtected(vs: seq<Region>, i: nat, a: nat, n: nat, prot: bv8)
    requires AllShort(vs) && Ok(vs) && i < |vs| && In(vs[i], a) && a + n <= vs[i].end
    ensures AllShort(Protected(vs, i, a, n, prot))
  {
    hide Inserted;
    hide Tail;
    hide Aligned;
    var v := vs[i];
    ShortPieces(v, a, n);
    hide Short;
    if v.start == a && v.end == a + n {
    } else if v.start == a {
      ShortInserted(vs[i := v.(end := a + n, prot := prot)], Tail(v, a + n));
    } else {
      ShortInserted(vs[i := Tail(v, a).(prot := prot)], v.(end := a));
    }
  }

  /** No piece of the range is too long. */
  ghost predicate Plain(vs: seq<Region>, c: Call)
    requires Legal(vs, c)
  {
    match c
    case Map(v) => !Grows(vs, v.start, CutEnd(v))
    case Unmap(a, e) => !Grows(vs, a, a + (e - a) % SIZES)
    case Protect(_, _, _) => true
  }

  /** Regions whose file offsets fit stay so through every such call, and every one served, that maps only such. */
  lemma ShortKept(vs: seq<Region>, c: Call)
    requires Ok(vs) && AllShort(vs) && Legal(vs, c) && (c.Map? ==> Short(c.v)) && (Plain(vs, c) || Served(vs, c))
    ensures AllShort(Apply(vs, c))
  {
    hide AllShort;
    hide Short;
    hide Ok;
    hide Aligned;
    hide Unmapped;
    hide Protected;
    hide Long;
    hide MapKeeps;
    hide MapExact;
    match c
    case Map(v) =>
      if Plain(vs, c) {
        ShortMap(vs, v);
      } else {
        ShortGrown(vs, v);
      }
    case Unmap(a, e) =>
      CutRange(a, e);
      ShortUnmap(vs, a, (e - a) % SIZES);
    case Protect(a, n, prot) =>
      ShortProtected(vs, Find(vs, a), a, n % SIZES, prot);
  }

  lemma ShortUnmap(vs: seq<Region>, a: nat, n: nat)
    requires Ok(vs) && AllShort(vs) && Aligned(a) && Aligned(n) && n < SIZES && !Grows(vs, a, a + n)
    ensures AllShort(Unmapped(vs, a, n)) && Ok(Unmapped(vs, a, n))
  {
    hide *;
    var s := UnmappedPages(vs, a, n);
    UnmappedIs(vs, a, n);
    LeftIs(vs, a, a + n);
    ShortStripped(vs, a, Extent(vs, a, a + n));
  }

  lemma ShortMap(vs: seq<Region>, v: Region)
    requires Ok(vs) && AllShort(vs) && Sound(v) && Short(v) && !Grows(vs, v.start, CutEnd(v))
    ensures AllShort(Installed(vs, v))
  {
    hide Unmapped;
    hide Inserted;
    hide Long;
    hide Short;
    hide Aligned;
    var us := Unmapped(vs, v.start, CutEnd(v) - v.start);
    CutAligned(v);
    ShortUnmap(vs, v.start, CutEnd(v) - v.start);
    ShortInserted(us, v);
  }

  /** A region left over, where another one backs it, fits like that one. */
  lemma ShortGrown(vs: seq<Region>, v: Region)
    requires Ok(vs) && AllShort(vs) && Sound(v) && Short(v) && Grows(vs, v.start, CutEnd(v))
    requires MapKeeps(vs, v) && MapExact(vs, v)
    ensures AllShort(Installed(vs, v))
  {
    hide Ok;
    hide Short;
    hide AllShort;
    hide Unmapped;
    hide Inserted;
    hide Stripped;
    hide Long;
    hide Parts;
    hide NoneStarts;
    hide NoHoleFirst;
    hide AllClear;
    hide Above;
    hide Backed;
    hide Tail;
    hide Aligned;
    var w, from := Long(vs, v.start, CutEnd(v)).value.of, GrownFrom(vs, v);
    var a, c := GrownParts(vs, v);
    ShortStripped(vs, v.start, Extent(vs, v.start, CutEnd(v)));
    ShortBoth(a, c);
    ShortOver(vs, v, a, c, w, from);
  }

  lemma ShortOver(vs: seq<Region>, v: Region, a: seq<Region>, c: seq<Region>, w: Region, from: nat)
    requires Ok(vs) && AllShort(vs) && Sound(v) && Short(v) && Parts(vs, v, a, c, w, from) && from > 0
    requires NoneStarts(a, from, v.start) && Backed(vs, from, v.start, w) && AllShort(a) && AllShort(c)
    ensures AllShort(Inserted(Inserted(a, Tail(w, from)) + c, v))
  {
    hide Ok;
    hide Look;
    hide PageOf;
    hide Inserted;
    hide Over;
    hide Tail;
    hide Aligned;
    hide Backed;
    hide Above;
    hide Below;
    hide Short;
    hide AllShort;
    var t := Tail(w, from);
    TailIs(w, from, t);
    StartsBefore(a, from, v.start);
    BackedHere(vs, from, v.start, w);
    var d, b := GrownLast(a, t);
    DStarts(d, b.start);
    AboveFirst(c, w.end);
    InsertedOver(d, b, c, v);
    assert d + [b] + c == Inserted(a, t) + c;
    ShortHeads(d, a);
    ShortOverTail(vs, v, w, from);
    ShortBoth(d, Over(t, v));
    ShortBoth(d + Over(t, v), c);
  }

  lemma BackedHere(vs: seq<Region>, a: nat, e: nat, w: Region)
    requires Ok(vs) && Backed(vs, a, e, w) && a < e
    ensures Look(vs, a).Some?
  {
    hide Look;
    hide Ok;
    var i :| 0 <= i < |vs| && vs[i].start <= a && e <= vs[i].end && PageOf(vs[i], a) == PageOf(w, a);
    LookHere(vs, i, a);
  }

  lemma ShortHeads(us: seq<Region>, vs: seq<Region>)
    requires Heads(us, vs) && AllShort(vs)
    ensures AllShort(us)
  {
  }

  lemma ShortOverTail(vs: seq<Region>, v: Region, w: Region, from: nat)
    requires AllShort(vs) && Ok(vs) && Short(v) && Sound(v) && w in vs && Backed(vs, from, v.start, w)
    requires from < v.start < w.end && w.start < v.end && (v.end < w.end ==> (v.end - from) % SIZES == 0)
    ensures AllShort(Over(Tail(w, from), v))
  {
    var t := Tail(w, from);
    var i :| 0 <= i < |vs| && vs[i].start <= from && v.start <= vs[i].end && PageOf(vs[i], from) == PageOf(w, from);
    ShortHead(vs[i], w, from, v.start);
    if v.end < w.end {
      ShortBehind(w, from, v.end);
    }
    ShortOverIs(t, v);
  }

  lemma ShortHead(b: Region, w: Region, from: nat, e: nat)
    requires Short(b) && b.start <= from < e <= b.end && PageOf(b, from) == PageOf(w, from)
    ensures Short(Tail(w, from).(end := e))
  {
    TailPages(w, from, from);
  }

  lemma ShortBehind(w: Region, from: nat, e: nat)
    requires Short(w) && w.start < e < w.end && (e - from) % SIZES == 0
    ensures Short(Tail(w, from).(start := e))
  {
    BehindSame(w, from, e, e);
  }

  lemma ShortOverIs(t: Region, v: Region)
    requires Short(v) && Short(t.(end := v.start)) && (v.end < t.end ==> Short(t.(start := v.end))) && v.start <= v.end
    ensures AllShort(Over(t, v))
  {
    hide Short;
    var r := t.(start := v.end);
    if v.end < t.end && CanMerge(v, r) {
      ShortMerged(v, r);
    }
  }

  lemma {:induction false} ShortRun(vs: seq<Region>, calls: seq<Call>)
    requires Ok(vs) && AllShort(vs) && AllServed(vs, calls)
    requires forall i :: 0 <= i < |calls| && calls[i].Map? ==> Short(calls[i].v)
    ensures Ok(ApplyAll(vs, calls)) && AllShort(ApplyAll(vs, calls))
    decreases |calls|
  {
    hide Ok;
    hide AllShort;
    hide Short;
    hide Served;
    if calls != [] {
      RightIffServed(vs, calls[0]);
      ShortKept(vs, calls[0]);
      ShortRun(Apply(vs, calls[0]), calls[1..]);
    }
  }

  /** After any run that maps only such regions, a page fault computes the file offset that the page has. */
  lemma FaultsReadTheRightPage(vs: seq<Region>, calls: seq<Call>, i: nat, p: int)
    requires Ok(vs) && AllShort(vs) && AllServed(vs, calls)
    requires forall k :: 0 <= k < |calls| && calls[k].Map? ==> Short(calls[k].v)
    requires var us := ApplyAll(vs, calls); i < |us| && In(us[i], p) && us[i].inode != 0
    ensures var us := ApplyAll(vs, calls); Look(us, p).Some? && Look(us, p).value.offset == FileOffset(us[i], p)
  {
    hide Look;
    hide Short;
    hide PageOf;
    ShortRun(vs, calls);
    var us := ApplyAll(vs, calls);
    LookHere(us, i, p);
    ShortOffsets(us[i], p);
  }
}
