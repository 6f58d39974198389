/** What mmap() does to the region list, and to the pages it shows (mm/mmap.c). */
module VmaMaps {
  import opened Prelude
  import opened Vma
  import opened VmaCalls
  import opened VmaUnmap

  /** The end of the range that do_munmap() is given: the length is cut to 32 bits. */
  function CutEnd(v: Region): nat
    requires v.start <= v.end
  {
    v.start + (v.end - v.start) % SIZES
  }

  /** do_mmap(): the range is unmapped, and the region inserted. */
  ghost function Installed(vs: seq<Region>, v: Region): seq<Region>
    requires v.start <= v.end
  {
    Inserted(Unmapped(vs, v.start, CutEnd(v) - v.start), v)
  }

  /** The list shows the new region on its range, and the old pages elsewhere. */
  ghost predicate Shown(us: seq<Region>, vs: seq<Region>, v: Region) {
    forall p :: Look(us, p) == if In(v, p) then Some(PageOf(v, p)) else Look(vs, p)
  }

  /** The length is a multiple of 4 GiB, so nothing is unmapped, and the new region starts inside an old one. */
  ghost predicate Covered(vs: seq<Region>, v: Region)
    requires v.start <= v.end
  {
    CutEnd(v) == v.start && Holder(vs, v.start).Some?
  }

  /**
    * One region holds all pages between the two addresses, and they are pages of `w`, if that went on before its
    * start.
    */
  ghost predicate Backed(vs: seq<Region>, a: nat, e: nat, w: Region) {
    exists i :: 0 <= i < |vs| && vs[i].start <= a && e <= vs[i].end && PageOf(vs[i], a) == PageOf(w, a)
  }

  /** Where a region is left over, its start. */
  ghost function GrownFrom(vs: seq<Region>, v: Region): nat
    requires v.start <= v.end && Grows(vs, v.start, CutEnd(v))
  {
    Long(vs, v.start, CutEnd(v)).value.to - SIZES
  }

  /** When the list stays in order. */
  ghost predicate MapKeeps(vs: seq<Region>, v: Region)
    requires v.start <= v.end
  {
    if Covered(vs, v) then AllClear(vs, Holder(vs, v.start).value.end, v.end)
    else
      var c := CutEnd(v);
      var m := Extent(vs, v.start, c);
      && NoHoleFirst(vs, v.start, m) && AllClear(vs, m, v.end)
      && (Grows(vs, v.start, c) ==> GrownFrom(vs, v) > 0 && NoneStarts(vs, GrownFrom(vs, v), v.start))
  }

  /** When, besides, no other page changes. */
  ghost predicate MapExact(vs: seq<Region>, v: Region)
    requires v.start <= v.end
  {
    var c := CutEnd(v);
    if Covered(vs, v) then
      var b := Holder(vs, v.start).value;
      b.end <= v.end || b.inode == 0 || (v.start - b.start) % OFFSETS == 0
    else if Grows(vs, v.start, c) then
      Backed(vs, GrownFrom(vs, v), v.start, Long(vs, v.start, c).value.of)
    else Extent(vs, v.start, c) <= v.end
  }

  lemma AboveIff(vs: seq<Region>, v: Region)
    requires Ok(vs) && Sound(v) && Clear(vs, v)
    ensures Above(vs[Before(vs, v.start)..], v.end) <==> AllClear(vs, v.start, v.end)
  {
    hide Aligned;
    hide Look;
    var k := Before(vs, v.start);
    if Above(vs[k..], v.end) {
      forall p | In(v, p) ensures Look(vs, p).None? {
        AboveFree(vs, v, k, p);
      }
    } else {
      var p := AboveTaken(vs, v, k);
    }
  }

  lemma AboveFree(vs: seq<Region>, v: Region, k: nat, p: int)
    requires Clear(vs, v) && In(v, p) && k <= |vs| && Above(vs[k..], v.end)
    requires forall i :: 0 <= i < k ==> vs[i].start <= v.start
    ensures Look(vs, p).None?
  {
    hide Look;
    forall i | 0 <= i < |vs| ensures !In(vs[i], p) {
      if i >= k {
        assert vs[i] == vs[k..][i - k];
      }
    }
    LookNone(vs, p);
  }

  lemma AboveTaken(vs: seq<Region>, v: Region, k: nat) returns (p: int)
    requires Ok(vs) && k < |vs| && vs[k].start > v.start && !Above(vs[k..], v.end)
    ensures v.start <= p < v.end && Look(vs, p).Some?
  {
    hide Look;
    hide Aligned;
    var r := vs[k..];
    var i :| 0 <= i < |r| && r[i].start < v.end;
    p := r[i].start;
    assert vs[k + i] == r[i];
    LookNone(vs, p);
    assert In(vs[k + i], p);
  }

  // ---- a new region over an old one ----

  lemma AboveClear(vs: seq<Region>, i: nat, e: nat)
    requires Ok(vs) && i < |vs|
    ensures Above(vs[i + 1..], e) <==> AllClear(vs, vs[i].end, e)
  {
    hide Look;
    hide Aligned;
    var r := vs[i + 1..];
    if Above(r, e) {
      forall p | vs[i].end <= p < e ensures Look(vs, p).None? {
        forall j | 0 <= j < |vs| ensures !In(vs[j], p) {
          assert j > i ==> vs[j] == r[j - i - 1];
        }
        LookNone(vs, p);
      }
    } else {
      var j :| 0 <= j < |r| && r[j].start < e;
      assert r[j] == vs[i + 1 + j];
      LookHere(vs, i + 1 + j, r[j].start);
    }
  }

  lemma OverIn(vs: seq<Region>, i: nat, v: Region)
    requires Ok(vs) && i < |vs| && In(vs[i], v.start) && Sound(v)
    ensures Inserted(vs, v) == vs[..i] + Over(vs[i], v) + vs[i + 1..]
  {
    hide Aligned;
    hide Over;
    hide Inserted;
    OkSplit(vs, i);
    InsertedOver(vs[..i], vs[i], vs[i + 1..], v);
  }

  lemma OverInOk(vs: seq<Region>, i: nat, v: Region)
    requires Ok(vs) && i < |vs| && In(vs[i], v.start) && Sound(v)
    ensures Ok(vs[..i] + Over(vs[i], v) + vs[i + 1..]) <==> AllClear(vs, vs[i].end, v.end)
  {
    hide Ok;
    hide Over;
    hide Above;
    hide Below;
    hide AllClear;
    OkSplit(vs, i);
    JoinedOver(vs[..i], vs[i], vs[i + 1..], v);
    AboveClear(vs, i, v.end);
  }

  lemma JoinedOver(a: seq<Region>, b: Region, c: seq<Region>, v: Region)
    requires Ok(a) && Ok(c) && Sound(b) && Sound(v) && In(b, v.start) && Below(a, b.start) && Above(c, b.end)
    ensures Ok(a + Over(b, v) + c) <==> Above(c, v.end)
  {
    hide Ok;
    hide Over;
    hide Aligned;
    hide Below;
    var m := Over(b, v);
    OverOk(b, v);
    if v.end < b.end {
      OkJoin(a, m, c, b.start, b.end);
    } else if Above(c, v.end) {
      OkJoin(a, m, c, b.start, v.end);
    } else {
      assert (a + m)[|a + m| - 1] == m[|m| - 1];
      RunsInto(a + m, c, v.end);
    }
  }

  lemma LeftBehindPages(b: Region, v: Region, p: int)
    requires b.start <= v.start <= v.end && (v.end - v.start) % SIZES == 0
    ensures PageOf(b.(start := v.end), p) == PageOf(b, p) <==> b.inode == 0 || (v.start - b.start) % OFFSETS == 0
  {
    if b.inode != 0 {
      Congruent(b.offset + p, v.end, b.start);
      Congruent2(v.end - v.start, v.start - b.start);
    }
  }

  lemma Congruent(x: int, a: int, b: int)
    ensures (x - a) % OFFSETS == (x - b) % OFFSETS <==> (a - b) % OFFSETS == 0
  {
  }

  lemma Congruent2(x: int, y: int)
    requires x % OFFSETS == 0
    ensures (x + y) % OFFSETS == 0 <==> y % OFFSETS == 0
  {
  }

  lemma OverInShown(vs: seq<Region>, i: nat, v: Region)
    requires Ok(vs) && i < |vs| && In(vs[i], v.start) && Sound(v) && (v.end - v.start) % SIZES == 0
    ensures Shown(vs[..i] + Over(vs[i], v) + vs[i + 1..], vs, v)
      <==> vs[i].end <= v.end || vs[i].inode == 0 || (v.start - vs[i].start) % OFFSETS == 0
  {
    hide Look;
    hide Ok;
    hide Over;
    hide PageOf;
    var b, us := vs[i], vs[..i] + Over(vs[i], v) + vs[i + 1..];
    OkSplit(vs, i);
    forall p ensures Look(us, p)
        == if In(v, p) then Some(PageOf(v, p)) else if In(b, p) && p >= v.end then Some(PageOf(b.(start := v.end), p))
        else Look(vs, p) {
      OverInPages(vs, i, v, p);
    }
    forall p | In(b, p) ensures Look(vs, p) == Some(PageOf(b, p)) {
      LookHere(vs, i, p);
    }
    forall p
      ensures PageOf(b.(start := v.end), p) == PageOf(b, p) <==> b.inode == 0 || (v.start - b.start) % OFFSETS == 0
    {
      LeftBehindPages(b, v, p);
    }
    if v.end < b.end {
      assert In(b, v.end) && !In(v, v.end);
    }
  }

  lemma OverInPages(vs: seq<Region>, i: nat, v: Region, p: int)
    requires Ok(vs) && i < |vs| && In(vs[i], v.start) && Sound(v)
    ensures Look(vs[..i] + Over(vs[i], v) + vs[i + 1..], p)
      == if In(v, p) then Some(PageOf(v, p))
      else if In(vs[i], p) && p >= v.end then Some(PageOf(vs[i].(start := v.end), p)) else Look(vs, p)
  {
    hide Look;
    hide Ok;
    hide Over;
    hide PageOf;
    OkSplit(vs, i);
    LookAround(vs[..i], Over(vs[i], v), vs[i + 1..], p);
    OverPages(vs[i], v, p);
    BelowNone(vs[..i], vs[i].start, p);
    if In(vs[i], p) {
      LookHere(vs, i, p);
    } else {
      LookElsewhere(vs, i, p);
    }
  }

  lemma BelowNone(vs: seq<Region>, a: nat, p: int)
    requires Below(vs, a)
    ensures p >= a ==> Look(vs, p).None?
  {
    hide Look;
    LookNone(vs, p);
  }

  lemma LookElsewhere(vs: seq<Region>, i: nat, p: int)
    requires Ok(vs) && i < |vs| && !In(vs[i], p)
    ensures Look(vs, p) == if Look(vs[..i], p).Some? then Look(vs[..i], p) else Look(vs[i + 1..], p)
  {
    hide Ok;
    OkSplit(vs, i);
    LookAround(vs[..i], [vs[i]], vs[i + 1..], p);
  }

  // ---- a new region where the range was unmapped ----

  lemma ClearedIff(vs: seq<Region>, us: seq<Region>, a: nat, m: nat, e: nat, s: nat)
    requires Reach(vs, a, m, s) && forall p :: Look(us, p) == if a <= p < s then None else Look(vs, p)
    requires e < m ==> s == m
    ensures AllClear(us, a, e) <==> NoHoleFirst(vs, a, m) && AllClear(vs, m, e)
  {
    hide Look;
    if NoHoleFirst(vs, a, m) && AllClear(vs, m, e) {
      forall p | a <= p < e ensures Look(us, p).None? {
        if s < p < m {
          assert Look(vs, s).None?;
        }
      }
    } else if !NoHoleFirst(vs, a, m) {
      var p, q :| a <= p < q < m && Look(vs, p).None? && Look(vs, q).Some?;
      assert s <= p;
      assert Look(us, q).Some?;
    } else {
      var p :| m <= p < e && Look(vs, p).Some?;
      assert Look(us, p).Some?;
    }
  }

  /** What the unmapping before a mapping leaves, unless a region is left over. */
  lemma UnmappedFor(vs: seq<Region>, v: Region) returns (s: nat)
    requires Ok(vs) && Sound(v) && !Grows(vs, v.start, CutEnd(v))
    ensures var us, m := Unmapped(vs, v.start, CutEnd(v) - v.start), Extent(vs, v.start, CutEnd(v));
      && Ok(us) && Reach(vs, v.start, m, s) && (v.end < m ==> s == m)
      && (forall p :: Look(us, p) == if v.start <= p < s then None else Look(vs, p))
      && (!Covered(vs, v) ==> Look(us, v.start).None?)
  {
    hide Look;
    hide Ok;
    hide Aligned;
    hide Unmapped;
    hide Long;
    hide Find;
    var c := CutEnd(v);
    var m := Extent(vs, v.start, c);
    CutAligned(v);
    s := UnmappedPages(vs, v.start, c - v.start);
    ExtentAligned(vs, v.start, c);
    if v.end < m {
      ExtentMapped(vs, v.start, c);
    }
    FoundHere(vs, v.start);
  }

  lemma CutAligned(v: Region)
    requires Sound(v)
    ensures v.start <= CutEnd(v) <= v.end && CutEnd(v) < v.start + SIZES
    ensures Aligned(v.start) && Aligned(CutEnd(v) - v.start) && Aligned(CutEnd(v))
  {
  }

  lemma FoundHere(vs: seq<Region>, p: nat)
    ensures Holder(vs, p).Some? <==> Look(vs, p).Some?
  {
    hide Find;
  }

  lemma ClearHere(us: seq<Region>, v: Region)
    requires Look(us, v.start).None?
    ensures Clear(us, v)
  {
    LookNone(us, v.start);
  }

  lemma MapClear(vs: seq<Region>, v: Region)
    requires Ok(vs) && Sound(v) && !Covered(vs, v) && !Grows(vs, v.start, CutEnd(v))
    ensures Ok(Installed(vs, v)) <==> MapKeeps(vs, v)
    ensures Shown(Installed(vs, v), vs, v) <==> MapExact(vs, v)
  {
    hide Look;
    hide Ok;
    hide Aligned;
    hide Unmapped;
    hide Inserted;
    hide Long;
    hide Above;
    hide Clear;
    hide AllClear;
    hide NoHoleFirst;
    hide PageOf;
    hide Covered;
    hide Before;
    hide Shown;
    var us, m := Unmapped(vs, v.start, CutEnd(v) - v.start), Extent(vs, v.start, CutEnd(v));
    var s := UnmappedFor(vs, v);
    ClearHere(us, v);
    InsertedOk(us, v);
    AboveIff(us, v);
    ClearedIff(vs, us, v.start, m, v.end, s);
    forall p ensures Look(Installed(vs, v), p) == if In(v, p) then Some(PageOf(v, p)) else Look(us, p) {
      InsertedPages(us, v, p);
    }
    ShownClear(vs, us, Installed(vs, v), v, m, s);
  }

  lemma ShownClear(vs: seq<Region>, us: seq<Region>, ws: seq<Region>, v: Region, m: nat, s: nat)
    requires v.start < v.end && Reach(vs, v.start, m, s) && (v.end < m ==> s == m)
    requires forall p :: Look(us, p) == if v.start <= p < s then None else Look(vs, p)
    requires forall p :: Look(ws, p) == if In(v, p) then Some(PageOf(v, p)) else Look(us, p)
    ensures Shown(ws, vs, v) <==> m <= v.end
  {
    hide Look;
    hide PageOf;
    if v.end < m {
      assert Look(ws, v.end).None? && Look(vs, v.end).Some?;
    }
  }

  // ---- a new region where one is left over ----

  /**
    * The list before the region is left over: `a` lies before the new region, `c` behind the end of the one left over,
    * and nothing is between.
    */
  ghost predicate Parts(vs: seq<Region>, v: Region, a: seq<Region>, c: seq<Region>, w: Region, from: nat) {
    && Ok(a) && Ok(c) && Front(a, v.start) && Above(c, w.end) && Sound(w) && w in vs
    && from < v.start < w.end && w.start < v.end && Aligned(from)
    && (v.end < w.end ==> (v.end - from) % SIZES == 0)
    && (forall p :: p < v.start ==> Look(a, p) == Look(vs, p))
    && (forall p :: p >= v.end && p >= w.end ==> Look(c, p) == Look(vs, p))
  }

  lemma GrownParts(vs: seq<Region>, v: Region) returns (a: seq<Region>, c: seq<Region>)
    requires Ok(vs) && Sound(v) && Grows(vs, v.start, CutEnd(v))
    ensures Parts(vs, v, a, c, Long(vs, v.start, CutEnd(v)).value.of, GrownFrom(vs, v))
    ensures Unmapped(vs, v.start, CutEnd(v) - v.start) == Inserted(a, Grown(vs, v.start, CutEnd(v))) + c
    ensures a + c == Stripped(vs, v.start, Extent(vs, v.start, CutEnd(v)))
    ensures NoneStarts(a, GrownFrom(vs, v), v.start) <==> NoneStarts(vs, GrownFrom(vs, v), v.start)
    ensures var m := Extent(vs, v.start, CutEnd(v));
      Above(c, v.end) <==> NoHoleFirst(vs, v.start, m) && AllClear(vs, m, v.end)
  {
    hide Ok;
    hide Aligned;
    hide Look;
    hide Stripped;
    hide Unmapped;
    hide Inserted;
    hide Long;
    hide Find;
    hide Parts;
    hide NoneStarts;
    hide NoHoleFirst;
    hide AllClear;
    hide Above;
    hide Front;
    hide Reach;
    hide Tail;
    var w, m := Long(vs, v.start, CutEnd(v)).value.of, Extent(vs, v.start, CutEnd(v));
    var us, from := Stripped(vs, v.start, m), GrownFrom(vs, v);
    var s := GrownFacts(vs, v);
    GrownTail(vs, v);
    var k := MakeParts(vs, v, w, from, us, m, s);
    a, c := us[..k], us[k..];
    CutAligned(v);
    UnmappedIs(vs, v.start, CutEnd(v) - v.start);
    LeftIs(vs, v.start, CutEnd(v));
    InsertedFront(a, c, Grown(vs, v.start, CutEnd(v)));
    StrippedStarts(vs, v.start, m, from, v.start);
    ClearedIff(vs, us, v.start, m, v.end, s);
  }

  lemma MakeParts(vs: seq<Region>, v: Region, w: Region, from: nat, us: seq<Region>, m: nat, s: nat) returns (k: nat)
    requires Ok(us) && Sound(w) && w in vs && from < v.start < w.end <= s <= m && Aligned(from)
    requires v.start < v.end && w.start < v.end
    requires (m <= v.end || m <= w.end) && (v.end < w.end ==> (v.end - from) % SIZES == 0)
    requires forall p :: Look(us, p) == if v.start <= p < s then None else Look(vs, p)
    ensures k <= |us| && us == us[..k] + us[k..] && Parts(vs, v, us[..k], us[k..], w, from) && Front(us[..k], w.end)
    ensures Above(us[k..], w.end)
    ensures NoneStarts(us[..k], from, v.start) <==> NoneStarts(us, from, v.start)
    ensures Above(us[k..], v.end) <==> AllClear(us, v.start, v.end)
  {
    hide Ok;
    hide Aligned;
    hide Look;
    hide NoneStarts;
    hide AllClear;
    hide Above;
    hide Front;
    k := SplitAt(us, w.end);
    FrontParts(us, k, v, w);
    forall p ensures p < v.start ==> Look(us[..k], p) == Look(vs, p)
      ensures p >= v.end && p >= w.end ==> Look(us[k..], p) == Look(vs, p) {
      PartsLook(us, k, v, w, p);
    }
    PartsStarts(us, k, v, w, from);
    PartsAbove(us, k, v, w);
  }

  lemma FrontParts(us: seq<Region>, k: nat, v: Region, w: Region)
    requires Ok(us) && k <= |us| && Front(us[..k], w.end) && Above(us[k..], w.end) && v.start < w.end
    requires forall p :: v.start <= p < w.end ==> Look(us, p).None?
    ensures Front(us[..k], v.start) && Ok(us[..k]) && Ok(us[k..])
  {
    hide Look;
    hide Aligned;
    OkBehind(us, k);
    forall i | 0 <= i < k ensures us[i].end <= v.start {
      assert us[..k][i] == us[i];
      if us[i].end > v.start {
        var p := if us[i].start < v.start then v.start else us[i].start;
        LookNone(us, p);
      }
    }
  }

  lemma PartsLook(us: seq<Region>, k: nat, v: Region, w: Region, p: int)
    requires k <= |us| && Front(us[..k], v.start) && Above(us[k..], w.end) && v.start < w.end
    ensures p < w.end ==> Look(us[..k], p) == Look(us, p)
    ensures p >= v.start ==> Look(us[k..], p) == Look(us, p)
  {
    hide Look;
    LookBoth(us[..k], us[k..], p);
    assert us == us[..k] + us[k..];
    LookNone(us[..k], p);
    LookNone(us[k..], p);
  }

  lemma PartsStarts(us: seq<Region>, k: nat, v: Region, w: Region, from: nat)
    requires k <= |us| && Above(us[k..], w.end) && v.start < w.end
    ensures NoneStarts(us[..k], from, v.start) <==> NoneStarts(us, from, v.start)
  {
    NoneStartsJoin(us[..k], [], us[k..], from, v.start);
    assert us[..k] + [] + us[k..] == us;
  }

  lemma PartsAbove(us: seq<Region>, k: nat, v: Region, w: Region)
    requires Ok(us) && k <= |us| && Front(us[..k], v.start) && Above(us[k..], w.end) && v.start < w.end
    ensures Above(us[k..], v.end) <==> AllClear(us, v.start, v.end)
  {
    hide Look;
    hide Aligned;
    if Above(us[k..], v.end) {
      forall p | v.start <= p < v.end ensures Look(us, p).None? {
        PartsLook(us, k, v, w, p);
        LookNone(us[k..], p);
      }
    } else {
      var i :| 0 <= i < |us[k..]| && us[k..][i].start < v.end;
      assert us[k..][i] == us[k + i];
      LookHere(us, k + i, us[k + i].start);
    }
  }

  lemma GrownTail(vs: seq<Region>, v: Region)
    requires Ok(vs) && Sound(v) && Grows(vs, v.start, CutEnd(v))
    ensures var c := CutEnd(v); var l, t := Long(vs, v.start, c).value, Grown(vs, v.start, c);
      && t.start == GrownFrom(vs, v) && t.end == l.of.end && t.start < v.start < t.end && l.of.start < v.end
      && Aligned(t.start) && Sound(l.of) && l.of in vs && l.of.end > 0 && t.start < t.end
      && (v.end < t.end ==> (v.end - t.start) % SIZES == 0)
  {
    hide Look;
    hide Long;
    hide Find;
    hide Aligned;
    hide Tail;
    var c := CutEnd(v);
    CutAligned(v);
    LongMapped(vs, v.start, c);
    var l := Long(vs, v.start, c).value;
    AlignedLess(l.to);
    Multiple(v.end - v.start);
  }

  lemma AlignedLess(a: nat)
    requires Aligned(a) && a >= SIZES
    ensures Aligned(a - SIZES)
  {
  }

  lemma Multiple(n: nat)
    ensures (n - n % SIZES + SIZES) % SIZES == 0
  {
  }

  lemma GrownFacts(vs: seq<Region>, v: Region) returns (s: nat)
    requires Ok(vs) && Sound(v) && Grows(vs, v.start, CutEnd(v))
    ensures var l, m := Long(vs, v.start, CutEnd(v)).value, Extent(vs, v.start, CutEnd(v));
      var us := Stripped(vs, v.start, m);
      && Ok(us) && Reach(vs, v.start, m, s) && (v.end < m ==> s == m) && l.of.end <= s <= m
      && (forall p :: Look(us, p) == if v.start <= p < s then None else Look(vs, p))
      && (m <= v.end || m <= l.of.end)
  {
    hide Look;
    hide Ok;
    hide Aligned;
    hide Stripped;
    hide Long;
    hide Find;
    var c := CutEnd(v);
    var m := Extent(vs, v.start, c);
    CutAligned(v);
    ExtentAligned(vs, v.start, c);
    LongMapped(vs, v.start, c);
    s := StrippedPages(vs, v.start, m);
  }

  /** Regions that begin like those of `vs`. */
  ghost predicate Heads(us: seq<Region>, vs: seq<Region>) {
    |us| <= |vs| && forall i :: 0 <= i < |us| ==> us[i].end <= vs[i].end && us[i] == vs[i].(end := us[i].end)
  }

  /** Where no region starts behind it, the region left over comes last, and shows all its pages. */
  lemma GrownLast(a: seq<Region>, t: Region) returns (d: seq<Region>, b: Region)
    requires Ok(a) && Front(a, t.end) && Sound(t) && forall i :: 0 <= i < |a| ==> a[i].start <= t.start
    ensures Inserted(a, t) == d + [b] && b.end == t.end && b.start <= t.start && Ok(d) && Below(d, b.start) && Sound(b)
    ensures Look(a, t.start).Some? ==> b == t && Heads(d, a)
    ensures forall p :: Look(d + [b], p) == if In(t, p) then Some(PageOf(t, p)) else Look(a, p)
  {
    hide Look;
    hide Inserted;
    hide Beside;
    hide PageOf;
    hide Aligned;
    BeforeIs(a, t.start, |a|);
    assert a[..|a|] == a && a[|a|..] == [];
    if a != [] && a[|a| - 1].end > t.start {
      InsertedShortened(a, t);
      d, b := CutLast(a, t);
    } else {
      InsertedPlaced(a, t);
      NotHeld(a, t);
      d, b := BesideSplit(a, t);
      forall p ensures Look(d + [b], p) == if In(t, p) then Some(PageOf(t, p)) else Look(a, p) {
        BesidePages(a, t, p);
      }
    }
  }

  lemma NotHeld(a: seq<Region>, t: Region)
    requires Ok(a) && (a != [] ==> a[|a| - 1].end <= t.start)
    ensures Below(a, t.start) && Look(a, t.start).None?
  {
    hide Look;
    hide Aligned;
    LookNone(a, t.start);
  }

  lemma BesideSplit(a: seq<Region>, t: Region) returns (d: seq<Region>, b: Region)
    requires Ok(a) && Sound(t) && Below(a, t.start)
    ensures Beside(a, t) == d + [b] && b.end == t.end && b.start <= t.start && Ok(d) && Below(d, b.start) && Sound(b)
  {
    hide Aligned;
    BesideOk(a, t);
    var r := Beside(a, t);
    var n := |r| - 1;
    d, b := r[..n], r[n];
  }

  lemma CutLast(a: seq<Region>, t: Region) returns (d: seq<Region>, b: Region)
    requires Ok(a) && Front(a, t.end) && Sound(t) && Before(a, t.start) == |a| > 0
    requires a[|a| - 1].start <= t.start < a[|a| - 1].end
    ensures Shortened(a, t) == d + [b] && b == t && Ok(d) && Below(d, t.start) && Heads(d, a)
    ensures forall p :: Look(d + [b], p) == if In(t, p) then Some(PageOf(t, p)) else Look(a, p)
  {
    hide Look;
    hide PageOf;
    hide Aligned;
    hide Before;
    var n := |a| - 1;
    d, b := a[..n] + Head(a[n], t.start), t;
    assert a[|a|..] == [];
    forall p ensures Look(d + [b], p) == if In(t, p) then Some(PageOf(t, p)) else Look(a, p) {
      CutLastPages(a, t, p);
    }
    CutLastOk(a, t);
  }

  lemma CutLastOk(a: seq<Region>, t: Region)
    requires Ok(a) && a != [] && Sound(t) && a[|a| - 1].start <= t.start < a[|a| - 1].end
    ensures var d := a[..|a| - 1] + Head(a[|a| - 1], t.start); Ok(d) && Below(d, t.start)
  {
  }

  lemma CutLastPages(a: seq<Region>, t: Region, p: int)
    requires Ok(a) && Front(a, t.end) && a != [] && a[|a| - 1].start <= t.start < a[|a| - 1].end
    ensures Look(a[..|a| - 1] + Head(a[|a| - 1], t.start) + [t], p)
      == if In(t, p) then Some(PageOf(t, p)) else Look(a, p)
  {
    hide Ok;
    var n := |a| - 1;
    OkSplit(a, n);
    LookAround(a[..n], Head(a[n], t.start), [t], p);
    LookAround(a[..n], [a[n]], [], p);
    assert a == a[..n] + [a[n]] + [];
    BelowNone(a[..n], a[n].start, p);
  }

  lemma SamePages(x: Region, y: Region, a: int, p: int)
    requires PageOf(x, a) == PageOf(y, a)
    ensures PageOf(x, p) == PageOf(y, p)
  {
    if x.inode != 0 {
      Shifted(x.offset - x.start, y.offset - y.start, a, p);
    }
  }

  lemma Shifted(x: int, y: int, a: int, p: int)
    requires (x + a) % OFFSETS == (y + a) % OFFSETS
    ensures (x + p) % OFFSETS == (y + p) % OFFSETS
  {
  }

  /** The list when no region starts behind the one left over. */
  lemma MapOver(vs: seq<Region>, v: Region, a: seq<Region>, c: seq<Region>, w: Region, from: nat)
    requires Ok(vs) && Sound(v) && Parts(vs, v, a, c, w, from) && from > 0 && NoneStarts(a, from, v.start)
    ensures var us := Inserted(Inserted(a, Tail(w, from)) + c, v);
      && (Ok(us) <==> Above(c, v.end))
      && (NoneStarts(vs, from, v.start) && Above(c, v.end) ==> (Shown(us, vs, v) <==> Backed(vs, from, v.start, w)))
  {
    hide Ok;
    hide Look;
    hide PageOf;
    hide Inserted;
    hide Over;
    hide Tail;
    hide Aligned;
    hide Backed;
    hide Above;
    hide Below;
    var t := Tail(w, from);
    TailIs(w, from, t);
    StartsBefore(a, from, v.start);
    var d, b := GrownLast(a, t);
    DStarts(d, b.start);
    AboveFirst(c, w.end);
    InsertedOver(d, b, c, v);
    JoinedOver(d, b, c, v);
    assert d + [b] + c == Inserted(a, t) + c;
    if NoneStarts(vs, from, v.start) && Above(c, v.end) {
      OverShown(vs, v, a, c, w, from, d, b);
    }
  }

  lemma TailIs(w: Region, from: nat, t: Region)
    requires Sound(w) && 0 < from < w.end && Aligned(from) && t == Tail(w, from)
    ensures Sound(t) && t.start == from && t.end == w.end && forall p :: PageOf(t, p) == PageOf(w, p)
  {
    hide Tail;
    hide PageOf;
    forall p ensures PageOf(t, p) == PageOf(w, p) {
      TailPages(w, from, p);
    }
  }

  lemma StartsBefore(a: seq<Region>, from: nat, start: nat)
    requires Front(a, start) && Ok(a) && NoneStarts(a, from, start)
    ensures forall i :: 0 <= i < |a| ==> a[i].start <= from
  {
    hide Aligned;
  }

  lemma DStarts(d: seq<Region>, a: nat)
    requires Ok(d) && Below(d, a)
    ensures forall i :: 0 <= i < |d| ==> d[i].start <= a
  {
    hide Aligned;
  }

  lemma OverShown(vs: seq<Region>, v: Region, a: seq<Region>, c: seq<Region>, w: Region, from: nat,
                  d: seq<Region>, b: Region)
    requires Ok(vs) && Sound(v) && Parts(vs, v, a, c, w, from) && from > 0 && NoneStarts(vs, from, v.start)
    requires Ok(d) && Below(d, b.start) && Sound(b) && b.end == w.end && b.start <= from
    requires Look(a, from).Some? ==> b == Tail(w, from)
    requires forall p :: Look(d + [b], p) == if from <= p < w.end then Some(PageOf(w, p)) else Look(a, p)
    ensures Shown(d + Over(b, v) + c, vs, v) <==> Backed(vs, from, v.start, w)
  {
    hide Look;
    hide PageOf;
    hide Ok;
    hide Above;
    hide Below;
    hide Tail;
    hide Over;
    hide Aligned;
    hide NoneStarts;
    var us := d + Over(b, v) + c;
    forall p ensures Look(us, p) == OverPage(v, a, c, w, from, b, p) {
      OverShownPages(v, c, w, d, b, p);
    }
    if Backed(vs, from, v.start, w) {
      BackedShown(vs, v, a, c, w, from, us, b);
    } else if Shown(us, vs, v) {
      ShownBacked(vs, v, w, from, us);
    }
  }

  ghost function OverPage(v: Region, a: seq<Region>, c: seq<Region>, w: Region, from: nat, b: Region,
                          p: int): Option<Page> {
    if In(v, p) then Some(PageOf(v, p))
    else if p < v.start then if p >= from then Some(PageOf(w, p)) else Look(a, p)
    else if p < w.end then Some(PageOf(b.(start := v.end), p)) else Look(c, p)
  }

  lemma OverShownPages(v: Region, c: seq<Region>, w: Region, d: seq<Region>, b: Region, p: int)
    requires Sound(v) && Below(d, b.start) && Sound(b) && b.end == w.end && b.start <= v.start < w.end
    requires Above(c, w.end)
    ensures Look(d + Over(b, v) + c, p)
      == if In(v, p) then Some(PageOf(v, p)) else if p < v.start then Look(d + [b], p)
      else if p < w.end then Some(PageOf(b.(start := v.end), p)) else Look(c, p)
  {
    hide PageOf;
    hide Over;
    hide Sound;
    LookAround(d, Over(b, v), c, p);
    LookBoth(d, [b], p);
    OverPages(b, v, p);
    BelowNone(d, b.start, p);
    LookNone(c, p);
  }

  lemma BackedShown(vs: seq<Region>, v: Region, a: seq<Region>, c: seq<Region>, w: Region, from: nat,
                    us: seq<Region>, b: Region)
    requires Ok(vs) && Sound(v) && Parts(vs, v, a, c, w, from) && Backed(vs, from, v.start, w)
    requires Look(a, from).Some? ==> b == Tail(w, from)
    requires forall p :: Look(us, p) == OverPage(v, a, c, w, from, b, p)
    ensures Shown(us, vs, v)
  {
    hide Look;
    hide PageOf;
    hide Ok;
    hide Above;
    hide Tail;
    hide Aligned;
    var i :| 0 <= i < |vs| && vs[i].start <= from && v.start <= vs[i].end && PageOf(vs[i], from) == PageOf(w, from);
    var j :| 0 <= j < |vs| && vs[j] == w;
    LookHere(vs, i, from);
    forall p ensures Look(us, p) == if In(v, p) then Some(PageOf(v, p)) else Look(vs, p) {
      if from <= p < v.start {
        LookHere(vs, i, p);
        SamePages(vs[i], w, from, p);
      } else if v.end <= p < w.end {
        LookHere(vs, j, p);
        BehindSame(w, from, v.end, p);
      }
    }
  }

  lemma BehindSame(w: Region, from: nat, e: nat, p: int)
    requires (e - from) % SIZES == 0
    ensures PageOf(Tail(w, from).(start := e), p) == PageOf(w, p)
  {
    var t := Tail(w, from);
    TailPages(w, from, p);
    Congruent(t.offset + p, e, from);
  }

  lemma ShownBacked(vs: seq<Region>, v: Region, w: Region, from: nat, us: seq<Region>)
    requires Ok(vs) && from < v.start && Shown(us, vs, v) && NoneStarts(vs, from, v.start)
    requires forall p :: from <= p < v.start ==> Look(us, p) == Some(PageOf(w, p))
    ensures Backed(vs, from, v.start, w)
  {
    hide Look;
    hide PageOf;
    hide Aligned;
    assert Look(vs, from) == Look(us, from);
    var i := Find(vs, from);
    var q := vs[i].end;
    if q < v.start {
      assert Look(vs, q) == Look(us, q);
      var j := Find(vs, q);
    }
  }

  /** A region that starts behind the one left over, and before the new one, lies under it for good. */
  lemma MapUnder(v: Region, a: seq<Region>, c: seq<Region>, t: Region)
    requires Ok(a) && Front(a, v.start) && Above(c, t.end) && t.start < v.start < t.end && v.start < v.end
    requires !NoneStarts(a, t.start, v.start)
    ensures !Ok(Inserted(Inserted(a, t) + c, v))
  {
    hide Inserted;
    hide Beside;
    hide Aligned;
    hide Before;
    var k := Before(a, t.start);
    var us := Inserted(a, t);
    var i := InsertedHolds(a, t);
    StartsBehind(a, t.start, v.start);
    UnderFront(a, t, v.start);
    InsertedBetween(us, c, v);
    BesideKeeps(us, v, i);
    var ws := Beside(us, v) + c;
    assert us[i + 1] == us[i + 1..][0] == a[k];
    assert ws[i].end == t.end && ws[i + 1].start == a[k].start;
  }

  lemma StartsBehind(a: seq<Region>, from: nat, start: nat)
    requires Ok(a) && Front(a, start) && !NoneStarts(a, from, start)
    ensures var k := Before(a, from); k < |a| && from < a[k].start < start && a[|a| - 1].end <= start
  {
    hide Aligned;
  }

  lemma UnderFront(a: seq<Region>, t: Region, start: nat)
    requires Ok(a) && Front(a, start) && t.start < start < t.end && Before(a, t.start) < |a|
    ensures var us := Inserted(a, t); us != [] && us[|us| - 1] == a[|a| - 1]
    ensures forall i :: 0 <= i < |Inserted(a, t)| ==> Inserted(a, t)[i].start <= start
  {
    hide Inserted;
    hide Before;
    hide Aligned;
    OkRising(a);
    InsertedRising(a, t);
    var i := InsertedHolds(a, t);
    var us, r := Inserted(a, t), a[Before(a, t.start)..];
    assert us[|us| - 1] == us[i + 1..][|r| - 1] == r[|r| - 1];
  }

  lemma BesideKeeps(us: seq<Region>, v: Region, i: nat)
    requires i + 1 < |us|
    ensures |Beside(us, v)| > i + 1 && Beside(us, v)[i] == us[i] && Beside(us, v)[i + 1].start == us[i + 1].start
  {
  }

  lemma NoRegions(a: seq<Region>, start: nat)
    requires Ok(a) && Front(a, start) && NoneStarts(a, 0, start)
    ensures a == []
  {
    hide Aligned;
    assert |a| > 0 ==> Sound(a[0]);
  }

  /** A region left over from address 0 on stays. */
  lemma MapZero(v: Region, a: seq<Region>, c: seq<Region>, t: Region)
    requires Ok(a) && Front(a, v.start) && Above(c, t.end) && 0 == t.start < v.start < t.end && v.start < v.end
    requires NoneStarts(a, 0, v.start)
    ensures !Ok(Inserted(Inserted(a, t) + c, v))
  {
    hide Inserted;
    hide Aligned;
    NoRegions(a, v.start);
    var none: seq<Region> := [];
    BeforeIs(none, 0, 0);
    InsertedPlaced(none, t);
    assert Inserted(none, t) == [t] && [] + [t] + c == [t] + c;
    AboveFirst(c, t.end);
    InsertedOver(none, t, c, v);
    assert (none + Over(t, v) + c)[0].start == 0;
  }

  lemma MapGrown(vs: seq<Region>, v: Region)
    requires Ok(vs) && Sound(v) && Grows(vs, v.start, CutEnd(v))
    ensures Ok(Installed(vs, v)) <==> MapKeeps(vs, v)
    ensures MapKeeps(vs, v) ==> (Shown(Installed(vs, v), vs, v) <==> MapExact(vs, v))
  {
    hide Ok;
    hide Look;
    hide Unmapped;
    hide Inserted;
    hide Long;
    hide Above;
    hide AllClear;
    hide NoHoleFirst;
    hide Shown;
    hide Backed;
    hide NoneStarts;
    hide Tail;
    hide Front;
    hide Aligned;
    var w, from := Long(vs, v.start, CutEnd(v)).value.of, GrownFrom(vs, v);
    var a, c := GrownParts(vs, v);
    if !NoneStarts(a, from, v.start) {
      MapUnder(v, a, c, Tail(w, from));
    } else if from == 0 {
      MapZero(v, a, c, Tail(w, from));
    } else {
      MapOver(vs, v, a, c, w, from);
    }
  }

  lemma MapCovered(vs: seq<Region>, v: Region)
    requires Ok(vs) && Sound(v) && Covered(vs, v)
    ensures Ok(Installed(vs, v)) <==> MapKeeps(vs, v)
    ensures Shown(Installed(vs, v), vs, v) <==> MapExact(vs, v)
  {
    hide Ok;
    hide Look;
    hide Inserted;
    hide Find;
    hide AllClear;
    hide Shown;
    hide Over;
    hide Aligned;
    var i := Find(vs, v.start);
    OverIn(vs, i, v);
    OverInOk(vs, i, v);
    OverInShown(vs, i, v);
  }

  /** mmap() keeps the list in order exactly when the first says so, and does what it is to do exactly when both do. */
  lemma MappedOkIff(vs: seq<Region>, v: Region)
    requires Ok(vs) && Sound(v)
    ensures Ok(Installed(vs, v)) <==> MapKeeps(vs, v)
    ensures MapKeeps(vs, v) ==> (Shown(Installed(vs, v), vs, v) <==> MapExact(vs, v))
  {
    hide *;
    SoundEnd(v);
    if Covered(vs, v) {
      MapCovered(vs, v);
    } else if Grows(vs, v.start, CutEnd(v)) {
      MapGrown(vs, v);
    } else {
      MapClear(vs, v);
    }
  }
}
