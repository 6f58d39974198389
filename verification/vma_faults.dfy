/** Requests that mm/mmap.c gets wrong, each a smallest one of its kind, and one that it gets right by chance. */
module VmaFaults {
  import opened Prelude
  import opened Vma
  import opened VmaCalls
  import opened VmaUnmap
  import opened VmaMaps
  import opened VmaRuns
  import opened RegionList
  import opened AddressSpace

  const WIDE := ANON.(end := 0x13000)

  lemma OneOk(v: Region)
    requires Sound(v)
    ensures Ok([v])
  {
  }

  lemma AnonSound()
    ensures Sound(ANON) && Sound(WIDE)
  {
  }

  lemma FindOne(v: Region, a: nat)
    ensures Find([v], a) == if In(v, a) then 0 else 1
  {
    FindIs([v], a, if In(v, a) then 0 else 1);
  }

  /** munmap() of a page that is not mapped and the one behind it, which is: nothing happens. */
  lemma UnmapStopsAtTheHole()
    ensures Ok([ANON]) && Legal([ANON], Unmap(0xF000, 0x11000)) && !Right([ANON], Unmap(0xF000, 0x11000))
    ensures Apply([ANON], Unmap(0xF000, 0x11000)) == [ANON] && Look([ANON], 0x10000).Some?
  {
    AnonSound();
    OneOk(ANON);
    FindOne(ANON, 0xF000);
    LookNone([ANON], 0xF000);
    LookHere([ANON], 0, 0x10000);
    RightIffServed([ANON], Unmap(0xF000, 0x11000));
  }

  /** mprotect() of the second of three pages: the third one changes too. */
  lemma ProtectGoesOn()
    ensures Ok([WIDE]) && Legal([WIDE], Protect(0x11000, 0x1000, 1)) && !Right([WIDE], Protect(0x11000, 0x1000, 1))
    ensures Look([WIDE], 0x12000) == Some(PageOf(WIDE, 0x12000))
    ensures Look(Apply([WIDE], Protect(0x11000, 0x1000, 1)), 0x12000) == Some(PageOf(WIDE, 0x12000).(prot := 1))
  {
    hide Look;
    AnonSound();
    OneOk(WIDE);
    FindOne(WIDE, 0x11000);
    LookHere([WIDE], 0, 0x12000);
    RightIffServed([WIDE], Protect(0x11000, 0x1000, 1));
    ProtectedPages([WIDE], 0, 0x11000, 0x1000, 1, 0x12000);
  }

  /** mprotect() of no bytes at the start of a region: a region without pages comes to be. */
  lemma ProtectNothing()
    ensures Ok([ANON]) && Legal([ANON], Protect(0x10000, 0, 1)) && !Ok(Apply([ANON], Protect(0x10000, 0, 1)))
  {
    AnonSound();
    OneOk(ANON);
    FindOne(ANON, 0x10000);
    ProtectedOkIff([ANON], 0, 0x10000, 0, 1);
  }

  /** Two regions, the first across the start of the mmap area and the second a megabyte on. */
  const ACROSS := ANON.(start := MMAP_START - PAGE_SIZE, end := MMAP_START + PAGE_SIZE)
  const BEYOND := ANON.(start := MMAP_START + 0x10_0000, end := MMAP_START + 0x10_1000)

  /** Two fixed mappings make it so. */
  lemma AcrossAndBeyond()
    ensures Sound(ACROSS) && Sound(BEYOND) && Apply([], Map(ACROSS)) == [ACROSS]
    ensures Apply([ACROSS], Map(BEYOND)) == [ACROSS, BEYOND]
  {
    var none: seq<Region> := [];
    FindIs(none, ACROSS.start, 0);
    InsertedFirst(ACROSS);
    FindOne(ACROSS, BEYOND.start);
    BeforeIs([ACROSS], BEYOND.start, 1);
    InsertedBeside([ACROSS], BEYOND, 1);
    assert [ACROSS][..1] + [BEYOND] + [ACROSS][1..] == [ACROSS, BEYOND];
  }

  /** The search for a page goes by the start of the area: there is room for it, it seems, and the page is taken. */
  lemma SearchFindsATakenPage()
    ensures Ok([ACROSS, BEYOND]) && RoomFirst([ACROSS, BEYOND], PAGE_SIZE)
    ensures Look([ACROSS, BEYOND], MMAP_START).Some? && !Fits([ACROSS, BEYOND], MMAP_START, PAGE_SIZE)
  {
    var vs := [ACROSS, BEYOND];
    assert Ok(vs);
    BeforeIs(vs, MMAP_START - 1, 1);
    LookHere(vs, 0, MMAP_START);
  }

  /** Two pages of a file, the second from 4 GiB on. */
  const LATE := Region(0x10000, 0x12000, 1, 2, 0xFFFF_F000, 6, 1, ReadOnly)

  /** munmap() of the first leaves the second, which then shows the start of the file. */
  lemma CutFileStartsOver()
    ensures Sound(LATE) && FileOffset(LATE, 0x11000) == 0x1_0000_0000
    ensures Apply([LATE], Unmap(0x10000, 0x11000)) == [Tail(LATE, 0x11000)]
    ensures FileOffset(Tail(LATE, 0x11000), 0x11000) == 0
  {
    OneOk(LATE);
    UnmappedShort([LATE], 0x10000, 0x1000);
    CutFirst(LATE, 0x11000);
  }

  lemma CutFirst(v: Region, e: nat)
    requires v.start < e < v.end
    ensures Stripped([v], v.start, e) == [Tail(v, e)]
  {
    hide Tail;
    FindOne(v, v.start);
    assert CutOut([v], 0, v.start, e) == [Tail(v, e)];
    StrippedStep([v], 0, v.start, e);
  }

  // ---- lengths of 32 bits ----

  const GIB := 0x4000_0000

  /** Two gigabytes in the mmap area. */
  const HUGE := ANON.(start := MMAP_START, end := MMAP_START + 2 * GIB)

  /** munmap() of all of it: there are four gigabytes afterwards, the old ones and as many before. */
  lemma UnmapGrows()
    ensures Ok([HUGE]) && Legal([HUGE], Unmap(HUGE.start, HUGE.end)) && !Right([HUGE], Unmap(HUGE.start, HUGE.end))
    ensures Apply([HUGE], Unmap(HUGE.start, HUGE.end)) == [Tail(HUGE, HUGE.start - 2 * GIB)]
    ensures Tail(HUGE, HUGE.start - 2 * GIB).end == HUGE.end
  {
    hide Tail;
    hide Inserted;
    hide Look;
    OneOk(HUGE);
    FindOne(HUGE, HUGE.start);
    LongIs([HUGE], HUGE.start, HUGE.end);
    UnmapOne(HUGE, 2 * GIB);
    RightIffServed([HUGE], Unmap(HUGE.start, HUGE.end));
    InsertedFirst(Tail(HUGE, HUGE.start - 2 * GIB));
    NothingToFree([Tail(HUGE, HUGE.start - 2 * GIB)], HUGE.end, 0);
  }

  /** The loop for a piece of 2 GiB or more that starts with its region, the only one. */
  lemma UnmapOne(v: Region, n: nat)
    requires Sound(v) && HALF <= n < SIZES && v.start + n <= v.end
    ensures var e := v.start + n;
      Unmapped([v], v.start, n) == if e >= SIZES then Unmapped(Inserted([], Tail(v, e - SIZES)), e, 0) else []
  {
    hide Inserted;
    hide Tail;
    hide Freed;
    FindOne(v, v.start);
    UnmappedStep([v], v.start, n);
    FreedLong([v], 0, v.start, n);
    assert [v][..0] + Head(v, v.start) + [v][1..] == [];
    NothingToFree([], v.start + n, 0);
  }

  /** Three gigabytes in low memory: munmap() of the first two takes the third as well. */
  const LOW := ANON.(end := 0x10000 + 3 * GIB)

  lemma UnmapTakesTheRest()
    ensures Ok([LOW]) && Legal([LOW], Unmap(0x10000, 0x10000 + 2 * GIB))
    ensures !Right([LOW], Unmap(0x10000, 0x10000 + 2 * GIB))
    ensures Apply([LOW], Unmap(0x10000, 0x10000 + 2 * GIB)) == []
  {
    hide Tail;
    hide Inserted;
    hide Stripped;
    hide Look;
    OneOk(LOW);
    FindOne(LOW, 0x10000);
    LongIs([LOW], 0x10000, 0x10000 + 2 * GIB);
    UnmapOne(LOW, 2 * GIB);
    RightIffServed([LOW], Unmap(0x10000, 0x10000 + 2 * GIB));
  }

  /** munmap() of four gigabytes does nothing. */
  lemma UnmapOfFour(vs: seq<Region>, a: nat)
    ensures Aligned(a) ==> Legal(vs, Unmap(a, a + 4 * GIB)) && Apply(vs, Unmap(a, a + 4 * GIB)) == vs
  {
    NothingToFree(vs, a, 0);
  }

  /** Two pages of different protection, and a fixed mapping of four gigabytes over them. */
  const SECOND := ANON.(start := 0x11000, end := 0x12000, prot := 1)
  const FOUR := ANON.(end := 0x10000 + 4 * GIB, prot := 7)

  lemma FixedMapOfFourOverlaps()
    ensures Ok([ANON, SECOND]) && Sound(FOUR) && NoHoleFirst([ANON, SECOND], FOUR.start, FOUR.end)
    ensures !Ok(Apply([ANON, SECOND], Map(FOUR)))
    ensures Apply([ANON, SECOND], Map(FOUR)) == [FOUR, SECOND]
  {
    var vs := [ANON, SECOND];
    TwoOk();
    FindIs(vs, 0x10000, 0);
    NothingToFree(vs, 0x10000, 0);
    OverIn(vs, 0, FOUR);
    assert vs[..0] + Over(ANON, FOUR) + vs[1..] == [FOUR, SECOND];
    forall p | p >= 0x12000 ensures Look(vs, p).None? {
      LookNone(vs, p);
    }
    LookHere(vs, 0, 0x10000);
    TwoMapped();
    assert [FOUR, SECOND][0].end > [FOUR, SECOND][1].start;
  }

  lemma TwoOk()
    ensures Ok([ANON, SECOND]) && Sound(FOUR)
  {
  }

  lemma TwoMapped()
    ensures forall p :: 0x10000 <= p < 0x12000 ==> Look([ANON, SECOND], p).Some?
  {
    hide Look;
    var vs := [ANON, SECOND];
    TwoOk();
    forall p | 0x10000 <= p < 0x12000 ensures Look(vs, p).Some? {
      LookHere(vs, if p < 0x11000 then 0 else 1, p);
    }
  }

  /** Eight gigabytes: mprotect() of the first four and a page changes that page alone. */
  const VAST := ANON.(end := 0x10000 + 8 * GIB)

  lemma ProtectCutShort()
    ensures Ok([VAST]) && Legal([VAST], Protect(0x10000, 4 * GIB + 0x1000, 1))
    ensures !Right([VAST], Protect(0x10000, 4 * GIB + 0x1000, 1))
    ensures Look(Apply([VAST], Protect(0x10000, 4 * GIB + 0x1000, 1)), 0x11000) == Some(PageOf(VAST, 0x11000))
  {
    hide Look;
    OneOk(VAST);
    FindOne(VAST, 0x10000);
    LookHere([VAST], 0, 0x11000);
    ProtectedPages([VAST], 0, 0x10000, 0x1000, 1, 0x11000);
  }

  /** A device that refuses two gigabytes leaves four of them mapped. */
  lemma RefusedStays()
    ensures Refused([], HUGE) == [Tail(HUGE, HUGE.start - 2 * GIB)]
  {
    hide Tail;
    hide Inserted;
    InsertedFirst(Tail(HUGE, HUGE.start - 2 * GIB));
  }

  /** A mapping of four gigabytes over the second half of those eight. */
  const INNER := ANON.(start := 0x10000 + 4 * GIB, end := 0x10000 + 8 * GIB, prot := 7)

  /** Nothing is unmapped, and yet the list comes out right. */
  lemma OverlapMended()
    ensures Ok([VAST]) && Sound(INNER) && Unmapped([VAST], INNER.start, CutEnd(INNER) - INNER.start) == [VAST]
    ensures Right([VAST], Map(INNER))
  {
    hide *;
    VastInner();
    OneOk(VAST);
    NothingToFree([VAST], INNER.start, 0);
    MapRight([VAST], INNER);
    CoveredServed([VAST], VAST, INNER);
  }

  lemma VastInner()
    ensures Sound(VAST) && Sound(INNER) && CutEnd(INNER) == INNER.start && Holder([VAST], INNER.start) == Some(VAST)
    ensures VAST.end == INNER.end && VAST.inode == 0
  {
    FindOne(VAST, INNER.start);
  }

  lemma CoveredServed(vs: seq<Region>, b: Region, v: Region)
    requires Sound(v) && CutEnd(v) == v.start && Holder(vs, v.start) == Some(b) && b.end == v.end && b.inode == 0
    ensures Legal(vs, Map(v)) && Served(vs, Map(v))
  {
    hide Holder;
    hide Long;
    hide Look;
  }
}
