/** mm/mmap.c: the calls on the region list of the current process. */
module AddressSpace {
  import opened Prelude
  import opened Links
  import opened Chains
  import opened Vma
  import opened VmaCalls
  import opened VmaUnmap
  import opened VmaMaps
  import opened VmaRuns
  import opened RegionList

  const PROT_WRITE: bv32 := 2
  const MAP_SHARED: bv32 := 1
  const MAP_PRIVATE: bv32 := 2
  const MAP_TYPE: bv32 := 15
  const MAP_FIXED: bv32 := 16
  const ZERO_PAGE: bv32 := 0x8000_0000

  datatype Error = InvalidArgument | NoDevice | AccessDenied | NoMemory | DeviceError

  datatype Result = Mapped(addr: nat) | Failed(error: Error)

  /** What kind of file an inode is, as far as mmap() cares; inode 0 is no file. */
  datatype Kind = Regular | Character | Other

  function PageFloor(a: nat): nat {
    a / PAGE_SIZE * PAGE_SIZE
  }

  function PageAlign(a: nat): nat {
    PageFloor((a + (PAGE_SIZE - 1)) % WORD)
  }

  /** PAGE_ALIGN() of a length of 32 bits. */
  function SizeAlign(n: nat): nat {
    PageFloor((n + (PAGE_SIZE - 1)) % SIZES)
  }

  /** The length that is asked for, in whole pages. */
  function Pages(n: nat): nat {
    PageFloor(n + (PAGE_SIZE - 1))
  }

  /** A length cut to 32 bits and then to pages is one in pages cut to 32 bits. */
  lemma SizeAligned(n: nat)
    ensures SizeAlign(n % SIZES) == Pages(n) % SIZES && Aligned(SizeAlign(n)) && Aligned(Pages(n))
    ensures Pages(n) >= n && SizeAlign(n) < SIZES && (Aligned(n) ==> Pages(n) == n)
  {
    hide PageFloor;
    var m := n + (PAGE_SIZE - 1);
    FloorAligned(m);
    FloorAligned(m % SIZES);
    FloorCut(m);
    CutSum(n);
    RoundedAligned(n);
  }

  lemma CutSum(n: nat)
    ensures (n % SIZES + (PAGE_SIZE - 1)) % SIZES == (n + (PAGE_SIZE - 1)) % SIZES
  {
  }

  lemma RoundedAligned(n: nat)
    ensures Aligned(n) ==> PageFloor(n + (PAGE_SIZE - 1)) == n
  {
  }

  lemma FloorCut(a: nat)
    ensures PageFloor(a % SIZES) == PageFloor(a) % SIZES
  {
    var q, r := a / SIZES, a % SIZES;
    assert a == q * SIZES + r && SIZES == 0x10_0000 * PAGE_SIZE;
    assert a / PAGE_SIZE == q * 0x10_0000 + r / PAGE_SIZE;
    assert PageFloor(a) == q * SIZES + PageFloor(r);
  }

  /** The low eight bits, as vma->prot keeps them. */
  function Char(w: bv32): bv8 {
    (w & 0xFF) as bv8
  }

  lemma PageAligned(a: nat)
    ensures Aligned(PageAlign(a)) && Aligned(PageFloor(a))
    ensures Aligned(a) ==> PageFloor(a) == a
    ensures Aligned(a) && a <= USER_TOP ==> PageAlign(a) == a
    ensures a <= USER_TOP ==> a <= PageAlign(a) < a + PAGE_SIZE && PageAlign(a) <= USER_TOP
  {
    FloorAligned(a);
    FloorAligned((a + (PAGE_SIZE - 1)) % WORD);
    if a <= USER_TOP {
      assert (a + (PAGE_SIZE - 1)) % WORD == a + (PAGE_SIZE - 1);
      RoundedUp(a);
    }
  }

  lemma FloorAligned(a: nat)
    ensures Aligned(PageFloor(a)) && PageFloor(a) <= a < PageFloor(a) + PAGE_SIZE && (Aligned(a) ==> PageFloor(a) == a)
  {
  }

  lemma RoundedUp(a: nat)
    requires a <= USER_TOP
    ensures a <= PageFloor(a + (PAGE_SIZE - 1)) < a + PAGE_SIZE && PageFloor(a + (PAGE_SIZE - 1)) <= USER_TOP
    ensures Aligned(a) ==> PageFloor(a + (PAGE_SIZE - 1)) == a
  {
    FloorAligned(a + (PAGE_SIZE - 1));
  }

  /** A region that lies across the address where the search begins. */
  ghost predicate Straddles(vs: seq<Region>) {
    exists i :: 0 <= i < |vs| && vs[i].start < MMAP_START < vs[i].end
  }

  /** A place for `n` bytes: unmapped, above the start of the search and before some region. */
  ghost predicate Fits(vs: seq<Region>, c: nat, n: nat) {
    && c >= MMAP_START && (forall p :: c <= p < c + n ==> Look(vs, p).None?)
    && exists i :: 0 <= i < |vs| && c + n <= vs[i].start
  }

  /** The first region of the upper half leaves `n` bytes before it, whatever reaches in from below. */
  ghost predicate RoomFirst(vs: seq<Region>, n: nat) {
    var k := Before(vs, MMAP_START - 1);
    k < |vs| && vs[k].start >= MMAP_START + n
  }

  /** A place that starts at or after `addr`, with no room before region `k`, starts after region `k`. */
  lemma FitsAfter(vs: seq<Region>, k: nat, addr: nat, n: nat, c: nat)
    requires Ok(vs) && k < |vs| && addr <= c && Fits(vs, c, n) && n > 0 && vs[k].start < addr + n
    ensures vs[k].end <= c
  {
    hide Look;
    if c < vs[k].end {
      var p := if c < vs[k].start then vs[k].start else c;
      LookHere(vs, k, p);
    }
  }

  lemma FitsHere(vs: seq<Region>, k: nat, addr: nat, n: nat)
    requires Ok(vs) && k < |vs| && MMAP_START <= addr && addr + n <= vs[k].start && Below(vs[..k], addr)
    ensures Fits(vs, addr, n)
  {
    forall p | addr <= p < addr + n ensures Look(vs, p).None? {
      forall i | 0 <= i < |vs| ensures !In(vs[i], p) {
        assert i < k ==> vs[i] == vs[..k][i];
      }
      LookNone(vs, p);
    }
  }

  lemma StraddledTaken(vs: seq<Region>, n: nat)
    requires Ok(vs) && Straddles(vs) && n > 0
    ensures !Fits(vs, MMAP_START, n)
  {
    var i :| 0 <= i < |vs| && vs[i].start < MMAP_START < vs[i].end;
    LookHere(vs, i, MMAP_START);
  }

  /** How far the search has come: to the start of the upper half, or to the end of the region before. */
  ghost predicate Searched(vs: seq<Region>, k: nat, addr: nat) {
    || (k <= |vs| && addr == MMAP_START && forall i :: 0 <= i < k ==> vs[i].start < MMAP_START)
    || (0 < k <= |vs| && vs[k - 1].start >= MMAP_START && addr == vs[k - 1].end)
  }

  lemma SearchedNext(vs: seq<Region>, k: nat, addr: nat)
    requires Ok(vs) && k < |vs| && Searched(vs, k, addr)
    ensures MMAP_START <= addr && Aligned(addr) && Sound(vs[k])
    ensures vs[k].start < MMAP_START ==> Searched(vs, k + 1, addr)
    ensures vs[k].start >= MMAP_START ==> addr <= vs[k].start && Searched(vs, k + 1, vs[k].end)
    ensures vs[k].start >= MMAP_START ==> Below(vs[..k], addr) || (Straddles(vs) && addr == MMAP_START)
    ensures vs[k].start >= MMAP_START && addr == MMAP_START ==>
      forall n: nat :: RoomFirst(vs, n) <==> vs[k].start >= addr + n
  {
    if vs[k].start >= MMAP_START && addr == MMAP_START {
      BeforeIs(vs, MMAP_START - 1, k);
    }
    if vs[k].start >= MMAP_START && addr == MMAP_START && !Straddles(vs) {
      assert forall i :: 0 <= i < k ==> vs[..k][i].end <= addr;
    }
  }

  lemma SearchedOver(vs: seq<Region>, addr: nat, n: nat, c: nat)
    requires Ok(vs) && Searched(vs, |vs|, addr) && addr <= c && n > 0
    ensures !Fits(vs, c, n) && (addr == MMAP_START ==> !RoomFirst(vs, n))
  {
    if addr == MMAP_START {
      BeforeIs(vs, MMAP_START - 1, |vs|);
    }
  }

  class Space {
    /** vma_table */
    const list: Regions

    ghost predicate Valid()
      reads this, list
    {
      list.Valid() && Ok(list.vmas)
    }

    constructor ()
      ensures Valid() && fresh(list) && list.vmas == []
    {
      list := new Regions();
    }

    /** The record of the first region that holds the page of an address; NULL when none does, and for address 0. */
    method FindVmaRegion(addr: nat) returns (x: Ptr, ghost i: nat)
      requires list.Valid()
      ensures |list.nodes| == |list.vmas| && i == Found(list.vmas, addr) && i <= |list.vmas|
      ensures x == At(list.nodes, Found(list.vmas, addr), NULL) && (x == NULL <==> i == |list.vmas|)
      ensures i < |list.vmas| ==> x in list.regions && list.regions[x] == list.vmas[i]
      ensures i < |list.vmas| ==> x == list.nodes[i] && In(list.vmas[i], PageFloor(addr))
    {
      hide Held;
      hide Look;
      hide Aligned;
      list.Start();
      if addr == 0 {
        return NULL, |list.vmas|;
      }
      var a := PageFloor(addr);
      x, i := list.table, 0;
      while x != NULL
        invariant 0 <= i <= |list.nodes| && x == At(list.nodes, i, NULL)
        invariant forall j :: 0 <= j < i ==> !In(list.vmas[j], a)
        decreases |list.nodes| - i
      {
        list.Node(i);
        if a >= list.regions[x].start && a < list.regions[x].end {
          break;
        }
        x := list.next[x];
        i := i + 1;
      }
      assert i < |list.nodes| ==> list.nodes[i] in list.nodes;
      if i < |list.nodes| {
        list.Node(i);
      }
      FindIs(list.vmas, a, i);
    }

    /** free_vma_region(): cuts a range out of a region; the length is signed. */
    method FreeVmaRegion(x: Ptr, start: nat, length: int, ghost i: nat)
      requires list.Valid() && Rising(list.vmas) && -HALF <= length < HALF
      requires i < |list.nodes| == |list.vmas| && x == list.nodes[i] && In(list.vmas[i], start)
      modifies list
      ensures list.Valid() && list.vmas == Freed(old(list.vmas), i, start, length)
    {
      hide Held;
      hide Tail;
      hide Inserted;
      hide Rising;
      list.Node(i);
      ghost var vs := list.vmas;
      var v, e := list.regions[x], (start + length) % WORD;
      if v.start == start {
        list.DelVmaRegion(x, i);
      } else {
        list.Change(x, v.(end := start), i);
      }
      assert list.vmas == vs[..i] + Head(v, start) + vs[i + 1..];
      if e < v.end {
        CutRising(vs, i, start);
        list.AddVmaRegion(Tail(v, e));
      }
    }

    /** do_munmap(), on any list of records in order of their starts. */
    method DoMunmap(addr: nat, length: nat) returns (ok: bool)
      requires list.Valid() && Kept(list.vmas) && addr < WORD && length < SIZES
      modifies list
      ensures list.Valid() && Kept(list.vmas)
      ensures list.vmas == if ok then Unmapped(old(list.vmas), addr, SizeAlign(length)) else old(list.vmas)
      ensures ok <==> Aligned(addr) && (addr + SizeAlign(length)) % WORD <= USER_TOP
    {
      hide Held;
      hide Kept;
      hide Unmapped;
      hide Aligned;
      hide SizeAlign;
      AlignedIs(addr);
      SizeAligned(length);
      if addr % PAGE_SIZE != 0 {
        return false;
      }
      var len := SizeAlign(length);
      if len > USER_TOP || (addr + len) % WORD > USER_TOP {
        return false;
      }
      FreeRange(addr, len);
      return true;
    }

    method FreeRange(addr: nat, length: nat)
      requires list.Valid() && Kept(list.vmas) && Aligned(addr) && Aligned(length) && length < SIZES
      modifies list
      ensures list.Valid() && Kept(list.vmas) && list.vmas == Unmapped(old(list.vmas), addr, length)
    {
      hide Aligned;
      hide Held;
      hide Kept;
      hide Unmapped;
      var a: nat, len: nat := addr, length;
      while len > 0
        invariant list.Valid() && Kept(list.vmas) && Aligned(a) && Aligned(len) && len < SIZES
        invariant Unmapped(list.vmas, a, len) == Unmapped(old(list.vmas), addr, length)
        decreases len
      {
        var size := FreeFirst(a, len);
        if size == 0 {
          return;
        }
        len := len - size;
        a := a + size;
      }
      NothingToFree(list.vmas, a, len);
    }

    /** One turn of the loop: the rest of the region that holds `a` is freed; 0 when none does. */
    method FreeFirst(a: nat, len: nat) returns (size: nat)
      requires list.Valid() && Kept(list.vmas) && Aligned(a) && Aligned(len) && 0 < len < SIZES
      modifies list
      ensures list.Valid() && Kept(list.vmas) && size <= len && Aligned(a + size) && Aligned(len - size)
      ensures size == 0 ==> list.vmas == old(list.vmas) && Unmapped(list.vmas, a, len) == list.vmas
      ensures size > 0 ==> Unmapped(old(list.vmas), a, len) == Unmapped(list.vmas, a + size, len - size)
    {
      hide Aligned;
      hide Held;
      hide Kept;
      hide Freed;
      hide Signed;
      hide Find;
      hide Unmapped;
      FloorAligned(a);
      var x, i := FindVmaRegion(a);
      if x == NULL {
        NothingToFree(list.vmas, a, len);
        return 0;
      }
      UnmappedStep(list.vmas, a, len);
      var end := list.regions[x].end;
      size := if a + len > end then end - a else len;
      KeptAt(list.vmas, i);
      AlignedCut(a, len, end);
      FreedKept(list.vmas, i, a, size);
      SignedIs(size);
      FreeVmaRegion(x, a, AsSsize(size), i);
    }

    /** sys_munmap(): right exactly when the request is one of those served. */
    method SysMunmap(addr: nat, length: nat) returns (ok: bool)
      requires Valid() && addr < WORD && length < WORD
      modifies list
      ensures list.Valid() && (!ok ==> list.vmas == old(list.vmas))
      ensures ok <==> Aligned(addr) && (addr + Pages(length) % SIZES) % WORD <= USER_TOP
      ensures ok ==> Legal(old(list.vmas), Unmap(addr, addr + Pages(length)))
      ensures ok ==>
        var c := Unmap(addr, addr + Pages(length));
        list.vmas == Apply(old(list.vmas), c) && (Right(old(list.vmas), c) <==> Served(old(list.vmas), c))
    {
      hide Held;
      hide Ok;
      hide Kept;
      hide Right;
      hide Served;
      hide Unmapped;
      hide Aligned;
      hide Pages;
      hide SizeAlign;
      SizeAligned(length);
      OkKept(list.vmas);
      ok := DoMunmap(addr, length % SIZES);
      if ok {
        AlignedAdd(addr, Pages(length));
        RightIffServed(old(list.vmas), Unmap(addr, addr + Pages(length)));
      }
    }

    /**
      * get_unmapped_vma_region(): the lowest place for the length; it is taken only where a region straddles the
      * start of the search.
      */
    method GetUnmapped(length: nat) returns (a: nat)
      requires Valid() && length < WORD
      ensures length == 0 ==> a == 0
      ensures length > 0 && a == 0 ==> forall c: nat :: !Fits(list.vmas, c, length)
      ensures a != 0 ==> MMAP_START <= a && Aligned(a) && forall c: nat :: Fits(list.vmas, c, length) ==> a <= c
      ensures a != 0 ==> (Fits(list.vmas, a, length) <==> !(Straddles(list.vmas) && a == MMAP_START))
      ensures a == MMAP_START <==> length > 0 && RoomFirst(list.vmas, length)
      ensures a != 0 ==> a + length <= USER_TOP
    {
      hide RoomFirst;
      hide Fits;
      hide Aligned;
      hide Straddles;
      hide Held;
      hide Ok;
      hide Below;
      if length == 0 {
        return 0;
      }
      var addr: nat, x := MMAP_START, list.table;
      ghost var k := 0;
      FitsAbove(list.vmas, length);
      list.Start();
      while x != NULL
        invariant 0 <= k <= |list.nodes| && x == At(list.nodes, k, NULL) && Searched(list.vmas, k, addr)
        invariant forall c: nat :: Fits(list.vmas, c, length) ==> addr <= c
        invariant addr != MMAP_START ==> !RoomFirst(list.vmas, length)
        decreases |list.nodes| - k
      {
        list.Node(k);
        SearchedNext(list.vmas, k, addr);
        var v := list.regions[x];
        if v.start >= MMAP_START {
          PageAligned(addr);
          PageAligned(v.end);
          if (v.start - addr) % WORD >= length {
            FitsIff(list.vmas, k, addr, length);
            return PageAlign(addr);
          }
          forall c: nat | Fits(list.vmas, c, length) ensures v.end <= c {
            FitsAfter(list.vmas, k, addr, length, c);
          }
          addr := PageAlign(v.end);
        }
        x := list.next[x];
        k := k + 1;
      }
      list.AtEnd(k);
      SearchedOver(list.vmas, addr, length, addr);
      forall c: nat ensures !Fits(list.vmas, c, length) {
        if addr <= c {
          SearchedOver(list.vmas, addr, length, c);
        }
      }
      return 0;
    }

    /** do_mprotect(), on the region that holds the range. */
    method DoMprotect(x: Ptr, addr: nat, length: nat, prot: bv32, ghost i: nat)
      requires Valid() && i < |list.nodes| == |list.vmas| && x == list.nodes[i]
      requires In(list.vmas[i], addr) && addr + length <= list.vmas[i].end && Aligned(addr)
      modifies list
      ensures list.Valid() && list.vmas == Protected(old(list.vmas), i, addr, length, Char(prot))
    {
      hide Held;
      hide Aligned;
      hide Tail;
      hide Inserted;
      hide Char;
      list.Node(i);
      ghost var vs := list.vmas;
      var v := list.regions[x];
      if v.start == addr && v.end == addr + length {
        list.Change(x, v.(prot := Char(prot)), i);
      } else if v.start == addr {
        list.Change(x, v.(end := addr + length, prot := Char(prot)), i);
        SplitRising(vs, i, addr + length, Char(prot));
        list.AddVmaRegion(Tail(v, addr + length));
      } else {
        list.Change(x, Tail(v, addr).(prot := Char(prot)), i);
        TailRising(vs, i, addr, Char(prot));
        list.AddVmaRegion(v.(end := addr));
      }
    }

    /**
      * sys_mprotect(): refused, or the pages of the range get their new protection, and those up to the end of the
      * region where the range lies inside it. The test of the protection is one of signed numbers.
      */
    method SysMprotect(addr: nat, length: nat, prot: bv32) returns (r: Result)
      requires Valid() && addr < WORD && length < WORD
      modifies list
      ensures list.Valid() && (r.Failed? ==> list.vmas == old(list.vmas))
      ensures r.Mapped? <==>
        && !(7 < prot < 0x8000_0000) && addr + Pages(length) % SIZES < WORD
        && Legal(old(list.vmas), Protect(addr, Pages(length), Char(prot)))
        && !Denied(old(list.vmas)[Find(old(list.vmas), addr)], prot)
      ensures r.Mapped? ==>
        var c := Protect(addr, Pages(length), Char(prot));
        list.vmas == Apply(old(list.vmas), c) && (Right(old(list.vmas), c) <==> Served(old(list.vmas), c))
    {
      hide Protected;
      hide Held;
      hide Ok;
      hide Right;
      hide Served;
      hide Aligned;
      hide Look;
      hide Char;
      hide Pages;
      hide SizeAlign;
      hide Find;
      FloorAligned(addr);
      SizeAligned(length);
      AlignedIs(addr);
      if addr % PAGE_SIZE != 0 {
        return Failed(InvalidArgument);
      }
      if 7 < prot < 0x8000_0000 {
        return Failed(InvalidArgument);
      }
      var len := SizeAlign(length % SIZES);
      if addr + len >= WORD {
        return Failed(InvalidArgument);
      }
      var x, i := FindVmaRegion(addr);
      FoundOk(list.vmas, addr);
      if x == NULL || addr + len > list.regions[x].end {
        return Failed(NoMemory);
      }
      if Denied(list.regions[x], prot) {
        return Failed(AccessDenied);
      }
      RightIffServed(list.vmas, Protect(addr, Pages(length), Char(prot)));
      DoMprotect(x, addr, len, prot, i);
      return Mapped(addr);
    }

    /** Writing to a shared mapping of a file that was opened for reading only. */
    predicate Denied(v: Region, prot: bv32) {
      v.inode != 0 && v.flags & MAP_SHARED != 0 && prot & PROT_WRITE != 0 && v.mode == ReadOnly
    }

    /** The checks of do_mmap() that come before anything is changed. */
    function Refusal(inode: nat, kind: Kind, start: nat, length: nat, prot: bv32, flags: bv32,
                     mode: Mode): Option<Error> {
      if start >= USER_TOP || start + length > USER_TOP then Some(InvalidArgument)
      else if inode != 0 && kind == Other then Some(NoDevice)
      else if inode != 0 && mode == WriteOnly then Some(AccessDenied)
      else if inode != 0 && flags & MAP_TYPE == MAP_SHARED then
        if prot & PROT_WRITE != 0 && mode == ReadOnly then Some(AccessDenied) else None
      else if flags & MAP_TYPE != MAP_PRIVATE then Some(InvalidArgument)
      else None
    }

    /**
      * do_mmap(): refused with nothing changed, or right exactly when the request is one of those served. A place
      * chosen by the search was free unless a region straddles the start of the search.
      */
    method DoMmap(inode: nat, kind: Kind, start: nat, length: nat, prot: bv32, flags: bv32, offset: nat, stype: nat,
                  mode: Mode, deviceFails: bool)
      returns (r: Result, ghost v: Region)
      requires Valid() && start < WORD && length < WORD
      modifies list
      ensures list.Valid() && (r.Failed? && r != Failed(DeviceError) ==> list.vmas == old(list.vmas))
      ensures length > USER_TOP ==> r == Failed(InvalidArgument)
      ensures 0 < length <= USER_TOP ==>
        var refusal := Refusal(inode, kind, start, PageAlign(length), prot, flags, mode);
        && (refusal.Some? ==> r == Failed(refusal.value))
        && (refusal.None? && flags & MAP_FIXED != 0 ==>
             (r == Failed(InvalidArgument) <==> start == 0 || !Aligned(start)))
        && (refusal.None? && flags & MAP_FIXED == 0 && !Straddles(old(list.vmas)) ==>
          (r == Failed(NoMemory) <==> forall c: nat :: !Fits(old(list.vmas), c, PageAlign(length))))
        && (refusal.None? && flags & MAP_FIXED != 0 && start != 0 && Aligned(start) ==>
             r.Mapped? || r == Failed(DeviceError))
        && (refusal.None? && flags & MAP_FIXED == 0 ==> r.Mapped? || r == Failed(DeviceError) || r == Failed(NoMemory))
      ensures r == Failed(DeviceError) ==> inode != 0 && deviceFails && Sound(v)
      ensures r == Failed(DeviceError) ==>
        list.vmas == Refused(Unmapped(old(list.vmas), v.start, CutEnd(v) - v.start), v)
      ensures r.Mapped? && 0 < length ==> Sound(v) && r.addr == v.start && list.vmas == Apply(old(list.vmas), Map(v))
      ensures r.Mapped? && 0 < length ==>
        v.end == v.start + PageAlign(length) && v.prot == Char(prot) && v.stype == stype
      ensures r.Mapped? && 0 < length ==> v.inode == inode && v.offset == offset % OFFSETS
      ensures r.Mapped? && 0 < length ==> v.flags == if inode == 0 && stype != P_SHM then flags | ZERO_PAGE else flags
      ensures r.Mapped? && 0 < length ==> (Right(old(list.vmas), Map(v)) <==> Served(old(list.vmas), Map(v)))
      ensures r.Mapped? && 0 < length && flags & MAP_FIXED != 0 ==> v.start == start
      ensures r.Mapped? && 0 < length && flags & MAP_FIXED == 0 ==> (Fits(old(list.vmas), v.start, PageAlign(length))
        <==> !(Straddles(old(list.vmas)) && RoomFirst(old(list.vmas), PageAlign(length))))
      ensures r.Mapped? && length == 0 ==> list.vmas == old(list.vmas) && r.addr == start
    {
      hide Held;
      hide Ok;
      hide Right;
      hide Served;
      hide Aligned;
      hide Look;
      hide Inserted;
      hide Fits;
      hide RoomFirst;
      hide Straddles;
      hide Installed;
      hide Unmapped;
      hide Char;
      v := NOWHERE;
      if length > USER_TOP {
        return Failed(InvalidArgument), v;
      }
      PageAligned(length);
      var len := PageAlign(length);
      if len == 0 {
        return Mapped(start), v;
      }
      var refusal := Refusal(inode, kind, start, len, prot, flags, mode);
      if refusal.Some? {
        return Failed(refusal.value), v;
      }
      var at := start;
      if flags & MAP_FIXED != 0 {
        AlignedIs(start);
        if start == 0 || start % PAGE_SIZE != 0 {
          return Failed(InvalidArgument), v;
        }
      } else {
        at := GetUnmapped(len);
        if at == 0 {
          return Failed(NoMemory), v;
        }
      }
      var type' := if inode == 0 && stype != P_SHM then flags | ZERO_PAGE else flags;
      var region := Region(at, at + len, Char(prot), type', offset % OFFSETS, stype, inode, mode);
      AlignedAdd(at, len);
      v := region;
      var ok := Install(region, inode != 0 && deviceFails);
      return if ok then Mapped(at) else Failed(DeviceError), v;
    }

    /** The range is unmapped, and unless the device of the file then refuses, the region is put there. */
    method Install(v: Region, refused: bool) returns (ok: bool)
      requires Valid() && Sound(v)
      modifies list
      ensures list.Valid() && ok == !refused
      ensures !ok ==> list.vmas == Refused(Unmapped(old(list.vmas), v.start, CutEnd(v) - v.start), v)
      ensures ok ==> list.vmas == Apply(old(list.vmas), Map(v))
      ensures ok ==> (Right(old(list.vmas), Map(v)) <==> Served(old(list.vmas), Map(v)))
    {
      hide Held;
      hide Ok;
      hide Kept;
      hide Right;
      hide Served;
      hide Look;
      hide Inserted;
      hide Unmapped;
      hide Tail;
      hide SizeAlign;
      ghost var vs := list.vmas;
      SoundEnd(v);
      CutAligned(v);
      OkKept(vs);
      var n := v.end - v.start;
      CutSize(v);
      var done := DoMunmap(v.start, n % SIZES);
      KeptRising(list.vmas);
      if refused {
        SignedIs(n % SIZES);
        var e := (v.start + AsSsize(n % SIZES)) % WORD;
        if e < v.end {
          list.AddVmaRegion(Tail(v, e));
        }
        return false;
      }
      MapRight(vs, v);
      list.AddVmaRegion(v);
      return true;
    }
  }

  /**
    * free_vma_region() on the record of a mapping that the device refused, which is on no list: the list stays as it
    * is, unless the signed length makes the end of the range lie before the end of the region.
    */
  ghost function Refused(us: seq<Region>, v: Region): seq<Region>
    requires v.start <= v.end
  {
    var e := (v.start + Signed(v.end - v.start)) % WORD;
    if e < v.end then Inserted(us, Tail(v, e)) else us
  }

  /** The range is clear after that exactly when it is shorter than 2 GiB, or the sum is negative. */
  lemma RefusedClearIff(us: seq<Region>, v: Region)
    requires Ok(us) && Sound(v) && AllClear(us, v.start, v.end)
    ensures AllClear(Refused(us, v), v.start, v.end) <==>
      v.end - v.start < HALF || v.start + Signed(v.end - v.start) < 0
  {
    hide Look;
    hide Ok;
    hide Inserted;
    hide Tail;
    hide Aligned;
    var n := v.end - v.start;
    var e := (v.start + Signed(n)) % WORD;
    SignedSum(v);
    if e < v.end {
      var t := Tail(v, e);
      var k := SplitAt(us, v.end);
      InsertedFront(us[..k], us[k..], t);
      InsertedShows(us[..k], t, v.end - 1);
      LookBoth(Inserted(us[..k], t), us[k..], v.end - 1);
    }
  }

  lemma SignedSum(v: Region)
    requires Sound(v)
    ensures var n := v.end - v.start;
      (v.start + Signed(n)) % WORD < v.end <==> !(n < HALF || v.start + Signed(n) < 0)
  {
    var n := v.end - v.start;
    if v.start + Signed(n) < 0 {
      assert (v.start + Signed(n)) % WORD == v.start + Signed(n) + WORD;
    } else {
      assert (v.start + Signed(n)) % WORD == v.start + Signed(n);
    }
  }

  ghost const NOWHERE := Region(0, 0, 0, 0, 0, 0, 0, ReadOnly)

  lemma AlignedIs(a: nat)
    ensures Aligned(a) <==> a % PAGE_SIZE == 0
  {
  }

  lemma SplitRising(vs: seq<Region>, i: nat, e: nat, prot: bv8)
    requires Ok(vs) && i < |vs|
    ensures Rising(vs[i := vs[i].(end := e, prot := prot)])
  {
    hide Aligned;
  }

  lemma TailRising(vs: seq<Region>, i: nat, a: nat, prot: bv8)
    requires Ok(vs) && i < |vs| && In(vs[i], a)
    ensures Rising(vs[i := Tail(vs[i], a).(prot := prot)])
  {
    hide Tail;
    hide Aligned;
  }

  lemma CutRising(vs: seq<Region>, i: nat, a: nat)
    requires Rising(vs) && i < |vs|
    ensures Rising(vs[..i] + Head(vs[i], a) + vs[i + 1..])
  {
    var us := vs[..i] + Head(vs[i], a) + vs[i + 1..];
    if vs[i].start == a {
      assert forall k :: 0 <= k < |us| ==> us[k] == vs[if k < i then k else k + 1];
    } else {
      assert forall k :: 0 <= k < |us| ==> us[k].start == vs[k].start;
    }
  }

  lemma FitsAbove(vs: seq<Region>, n: nat)
    ensures forall c: nat :: Fits(vs, c, n) ==> MMAP_START <= c
  {
  }

  lemma FitsIff(vs: seq<Region>, k: nat, addr: nat, n: nat)
    requires Ok(vs) && k < |vs| && Searched(vs, k, addr) && MMAP_START <= vs[k].start && addr + n <= vs[k].start
    requires n > 0
    ensures Fits(vs, addr, n) <==> !(Straddles(vs) && addr == MMAP_START)
    ensures addr + n <= USER_TOP
  {
    SearchedNext(vs, k, addr);
    if Straddles(vs) && addr == MMAP_START {
      StraddledTaken(vs, n);
    } else {
      assert Below(vs[..k], addr);
      FitsHere(vs, k, addr, n);
    }
  }

  // ---- lists that the loop of do_munmap() comes through ----

  /** Regions in order of their starts, on whole pages; they may overlap. */
  ghost predicate Kept(vs: seq<Region>) {
    Rising(vs) && forall m :: m in Marks(vs) ==> Aligned(m)
  }

  lemma KeptRising(vs: seq<Region>)
    requires Kept(vs)
    ensures Rising(vs)
  {
  }

  lemma KeptAt(vs: seq<Region>, i: nat)
    requires Kept(vs) && i < |vs|
    ensures Aligned(vs[i].end) && Rising(vs)
  {
    MarksAt(vs, i);
  }

  lemma OkKept(vs: seq<Region>)
    requires Ok(vs)
    ensures Kept(vs)
  {
    hide Aligned;
    OkRising(vs);
  }

  lemma InsertedKept(vs: seq<Region>, v: Region)
    requires Kept(vs) && Aligned(v.start) && Aligned(v.end)
    ensures Kept(Inserted(vs, v))
  {
    hide Rising;
    hide Marks;
    hide Inserted;
    hide Aligned;
    InsertedRising(vs, v);
    InsertedMarks(vs, v);
  }

  lemma FreedKept(vs: seq<Region>, i: nat, a: nat, n: nat)
    requires Kept(vs) && i < |vs| && Aligned(a) && Aligned(n)
    ensures Kept(Freed(vs, i, a, Signed(n)))
  {
    hide Inserted;
    hide Aligned;
    hide Head;
    hide Tail;
    hide Kept;
    hide Signed;
    CutKept(vs, i, a);
    KeptAt(vs, i);
    var e := (a + Signed(n)) % WORD;
    SignedAligned(a, n);
    if e < vs[i].end {
      InsertedKept(vs[..i] + Head(vs[i], a) + vs[i + 1..], Tail(vs[i], e));
    }
  }

  lemma SignedAligned(a: nat, n: nat)
    requires Aligned(a) && Aligned(n)
    ensures Aligned((a + Signed(n)) % WORD)
  {
    var k := a + Signed(n);
    assert k % PAGE_SIZE == 0;
    assert k == k / WORD * WORD + k % WORD && WORD % PAGE_SIZE == 0;
  }

  lemma CutKept(vs: seq<Region>, i: nat, a: nat)
    requires Kept(vs) && i < |vs| && Aligned(a)
    ensures Kept(vs[..i] + Head(vs[i], a) + vs[i + 1..])
  {
    hide Rising;
    hide Marks;
    hide Aligned;
    CutRising(vs, i, a);
    MarksAt(vs, i);
    MarksHead(vs[i], a);
    MarksPart(vs, i, i + 1);
    MarksPart(vs, i + 1, i + 1);
    MarksJoin(vs[..i], Head(vs[i], a));
    MarksJoin(vs[..i] + Head(vs[i], a), vs[i + 1..]);
  }

  /** find_vma_region(): nothing is found at address 0. */
  ghost function Found(vs: seq<Region>, addr: nat): nat {
    if addr == 0 then |vs| else Find(vs, PageFloor(addr))
  }

  lemma FoundOk(vs: seq<Region>, addr: nat)
    requires Ok(vs) && Aligned(addr)
    ensures Found(vs, addr) == Find(vs, addr)
  {
    FloorAligned(addr);
    if addr == 0 {
      FindIs(vs, 0, |vs|);
    }
  }

  /** A length as a __ssize_t. */
  function AsSsize(n: nat): int
    requires n < SIZES
  {
    if n < HALF then n else n - SIZES
  }

  lemma SignedIs(n: nat)
    requires n < SIZES
    ensures Signed(n) == AsSsize(n) && -HALF <= AsSsize(n) < HALF
  {
  }

  lemma CutSize(v: Region)
    requires Sound(v)
    ensures var n := (v.end - v.start) % SIZES;
      && CutEnd(v) - v.start == n && SizeAlign(n) == n && (v.start + n) % WORD <= USER_TOP
           && Signed(v.end - v.start) == Signed(n)
  {
    var n := (v.end - v.start) % SIZES;
    CutAligned(v);
    SizeAligned(n);
    assert n % SIZES == n;
  }
}
