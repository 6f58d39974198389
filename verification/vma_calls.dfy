/** Finding a region, and what mprotect() does to the region list and to the pages it shows. */
module VmaCalls {
  import opened Prelude
  import opened Vma

  /** find_vma_region(): the first region that holds the address; the number of regions when there is none. */
  ghost function Find(vs: seq<Region>, p: int): (i: nat)
    ensures i <= |vs| && (i < |vs| ==> In(vs[i], p))
    ensures Look(vs, p) == if i < |vs| then Some(PageOf(vs[i], p)) else None
  {
    if vs == [] || In(vs[0], p) then 0 else 1 + Find(vs[1..], p)
  }

  lemma {:induction false} FindIs(vs: seq<Region>, p: int, i: nat)
    requires i <= |vs| && (i < |vs| ==> In(vs[i], p)) && forall j :: 0 <= j < i ==> !In(vs[j], p)
    ensures Find(vs, p) == i
  {
    if i > 0 {
      FindIs(vs[1..], p, i - 1);
    }
  }

  // ---- mprotect ----

  ghost function Protected(vs: seq<Region>, i: nat, a: nat, n: nat, prot: bv8): seq<Region>
    requires i < |vs| && vs[i].start <= a
  {
    var v := vs[i];
    if v.start == a && v.end == a + n then vs[i := v.(prot := prot)]
    else if v.start == a then Inserted(vs[i := v.(end := a + n, prot := prot)], Tail(v, a + n))
    else Inserted(vs[i := Tail(v, a).(prot := prot)], v.(end := a))
  }

  /** Where the change of protection ends: an interior range is protected up to the end of the region. */
  function ProtectedEnd(v: Region, a: nat, n: nat): nat {
    if v.start == a then a + n else v.end
  }

  lemma ProtectedHead(vs: seq<Region>, i: nat, n: nat, prot: bv8)
    requires Ok(vs) && i < |vs| && vs[i].start + n < vs[i].end
    ensures var v := vs[i]; var e := v.start + n;
      Protected(vs, i, v.start, n, prot) == vs[..i] + Beside([v.(end := e, prot := prot)], Tail(v, e)) + vs[i + 1..]
  {
    hide Tail;
    hide Aligned;
    hide Inserted;
    hide Beside;
    var v := vs[i];
    var e := v.start + n;
    var w := v.(end := e, prot := prot);
    OkSplit(vs, i);
    assert vs[i := w] == vs[..i] + [w] + vs[i + 1..];
    InsertedBetween(vs[..i] + [w], vs[i + 1..], Tail(v, e));
    BesideLast(vs[..i], w, Tail(v, e));
  }

  lemma ProtectedHeadPages(v: Region, n: nat, prot: bv8, p: int)
    requires Sound(v) && v.start + n < v.end
    ensures Look(Beside([v.(end := v.start + n, prot := prot)], Tail(v, v.start + n)), p)
      == if !In(v, p) then None else if p < v.start + n then Some(PageOf(v, p).(prot := prot)) else Some(PageOf(v, p))
  {
    var e := v.start + n;
    var w := v.(end := e, prot := prot);
    TailPages(v, e, p);
    assert PageOf(w, p) == PageOf(v, p).(prot := prot);
    LookBoth([w], [Tail(v, e)], p);
    if CanMerge(w, Tail(v, e)) {
      assert Beside([w], Tail(v, e)) == [w.(end := v.end)];
    }
  }

  /** Exactly the pages from `a` to `ProtectedEnd` change, and only in their protection. */
  lemma ProtectedPages(vs: seq<Region>, i: nat, a: nat, n: nat, prot: bv8, p: int)
    requires Ok(vs) && i < |vs| && In(vs[i], a) && a + n <= vs[i].end && Aligned(a)
    ensures Look(Protected(vs, i, a, n, prot), p)
      == if a <= p < ProtectedEnd(vs[i], a, n) then Some(PageOf(vs[i], p).(prot := prot)) else Look(vs, p)
  {
    hide Tail;
    hide Aligned;
    hide Inserted;
    hide Look;
    hide PageOf;
    hide Ok;
    var v := vs[i];
    if v.start == a && v.end == a + n {
      ProtectedWholePages(vs, i, prot, p);
    } else if v.start == a {
      ProtectedHeadLook(vs, i, n, prot, p);
    } else {
      ProtectedTailPages(vs, i, a, prot, p);
    }
  }

  lemma ProtectedWholePages(vs: seq<Region>, i: nat, prot: bv8, p: int)
    requires Ok(vs) && i < |vs|
    ensures Look(vs[i := vs[i].(prot := prot)], p)
      == if In(vs[i], p) then Some(PageOf(vs[i], p).(prot := prot)) else Look(vs, p)
  {
    hide Ok;
    var v := vs[i];
    assert vs[i := v.(prot := prot)] == vs[..i] + [v.(prot := prot)] + vs[i + 1..];
    LookPieces(vs, i, [v.(prot := prot)], p);
  }

  lemma ProtectedHeadLook(vs: seq<Region>, i: nat, n: nat, prot: bv8, p: int)
    requires Ok(vs) && i < |vs| && vs[i].start + n < vs[i].end
    ensures Look(Protected(vs, i, vs[i].start, n, prot), p)
      == if vs[i].start <= p < vs[i].start + n then Some(PageOf(vs[i], p).(prot := prot)) else Look(vs, p)
  {
    hide Tail;
    hide Aligned;
    hide Beside;
    hide Look;
    hide PageOf;
    hide Protected;
    var v := vs[i];
    OkSplit(vs, i);
    ProtectedHead(vs, i, n, prot);
    ProtectedHeadPages(v, n, prot, p);
    LookPieces(vs, i, Beside([v.(end := v.start + n, prot := prot)], Tail(v, v.start + n)), p);
    if In(v, p) {
      LookHere(vs, i, p);
    }
  }

  lemma ProtectedTailPages(vs: seq<Region>, i: nat, a: nat, prot: bv8, p: int)
    requires Ok(vs) && i < |vs| && vs[i].start < a < vs[i].end && Aligned(a)
    ensures Look(Inserted(vs[i := Tail(vs[i], a).(prot := prot)], vs[i].(end := a)), p)
      == if a <= p < vs[i].end then Some(PageOf(vs[i], p).(prot := prot)) else Look(vs, p)
  {
    hide Tail;
    hide Aligned;
    hide Before;
    hide Inserted;
    var v := vs[i];
    ProtectedTail(vs, i, a, prot);
    var t := Tail(v, a).(prot := prot);
    TailPages(v, a, p);
    assert PageOf(t, p) == PageOf(v, p).(prot := prot);
    assert vs[i := t] == vs[..i] + [t] + vs[i + 1..];
    LookPieces(vs, i, [t], p);
    LookPieces(vs, i, [v], p);
    OkSplit(vs, i);
    InsertedPages(vs[i := t], v.(end := a), p);
  }

  lemma ProtectedTail(vs: seq<Region>, i: nat, a: nat, prot: bv8)
    requires Ok(vs) && i < |vs| && vs[i].start < a < vs[i].end && Aligned(a)
    ensures var t := Tail(vs[i], a).(prot := prot); Ok(vs[i := t]) && Clear(vs[i := t], vs[i].(end := a))
    ensures Sound(vs[i].(end := a)) && Ok(Inserted(vs[i := Tail(vs[i], a).(prot := prot)], vs[i].(end := a)))
  {
    hide Ok;
    hide Clear;
    hide Inserted;
    hide Tail;
    hide Aligned;
    hide Above;
    var h, t := vs[i].(end := a), Tail(vs[i], a).(prot := prot);
    var us := vs[i := t];
    TailPieces(vs, i, a, prot);
    InsertedOk(us, h);
  }

  lemma TailPieces(vs: seq<Region>, i: nat, a: nat, prot: bv8)
    requires Ok(vs) && i < |vs| && vs[i].start < a < vs[i].end && Aligned(a)
    ensures var us, h := vs[i := Tail(vs[i], a).(prot := prot)], vs[i].(end := a);
      Ok(us) && Clear(us, h) && Sound(h) && Above(us[Before(us, h.start)..], h.end)
  {
    hide Aligned;
    hide Tail;
    var t, h := Tail(vs[i], a).(prot := prot), vs[i].(end := a);
    var us := vs[i := t];
    TailSound(vs[i], a, prot);
    hide Sound;
    OkReplaced(vs, i, t);
    BeforeIs(us, h.start, i);
  }

  lemma TailSound(v: Region, a: nat, prot: bv8)
    requires Sound(v) && v.start < a < v.end && Aligned(a)
    ensures Sound(Tail(v, a).(prot := prot)) && Sound(v.(end := a))
  {
    hide Aligned;
    hide Tail;
  }

  lemma OkReplaced(vs: seq<Region>, i: nat, t: Region)
    requires Ok(vs) && i < |vs| && Sound(t) && vs[i].start <= t.start && t.end <= vs[i].end
    ensures Ok(vs[i := t])
  {
    hide Sound;
  }

  lemma SameProt(v: Region, p: int, prot: bv8)
    ensures v.prot == prot <==> PageOf(v, p).(prot := prot) == PageOf(v, p)
  {
  }

  /** mprotect() does what it is asked exactly when the range starts or ends with its region, or nothing changes. */
  lemma ProtectsExactlyIff(vs: seq<Region>, i: nat, a: nat, n: nat, prot: bv8)
    requires Ok(vs) && i < |vs| && In(vs[i], a) && a + n <= vs[i].end && Aligned(a)
    ensures
      (forall p :: Look(Protected(vs, i, a, n, prot), p) == if a <= p < a + n then Some(PageOf(vs[i], p).(prot := prot))
        else Look(vs, p))
      <==> vs[i].start == a || a + n == vs[i].end || vs[i].prot == prot
  {
    hide Look;
    hide PageOf;
    hide Protected;
    hide Ok;
    var v := vs[i];
    forall p ensures v.prot == prot <==> PageOf(v, p).(prot := prot) == PageOf(v, p) {
      SameProt(v, p, prot);
    }
    forall p ensures Look(Protected(vs, i, a, n, prot), p)
        == if a <= p < ProtectedEnd(v, a, n) then Some(PageOf(v, p).(prot := prot)) else Look(vs, p) {
      ProtectedPages(vs, i, a, n, prot, p);
    }
    forall p | In(v, p) ensures Look(vs, p) == Some(PageOf(v, p)) {
      LookHere(vs, i, p);
    }
    if v.start != a && a + n != v.end && v.prot != prot {
      assert Look(Protected(vs, i, a, n, prot), a + n) == Some(PageOf(v, a + n).(prot := prot));
      assert Look(vs, a + n) == Some(PageOf(v, a + n));
    }
  }

  lemma HeadPieces(v: Region, n: nat, prot: bv8)
    requires Sound(v) && v.start + n < v.end && Aligned(n)
    ensures var w, t := v.(end := v.start + n, prot := prot), Tail(v, v.start + n);
      Sound(t) && Sound(w.(end := v.end)) && (n == 0 ==> t == v) && (Sound(w) <==> n > 0)
  {
    hide Aligned;
    hide Tail;
    AlignedAdd(v.start, n);
    TailWhole(v);
  }

  lemma OkOne(v: Region)
    ensures Ok([v]) <==> Sound(v)
    ensures Above([v], v.start) && Below([v], v.end)
  {
    hide Sound;
    assert [v][0] == v;
  }

  lemma OkTwo(w: Region, t: Region)
    requires w.end == t.start
    ensures Ok([w, t]) <==> Sound(w) && Sound(t)
    ensures w.start <= w.end && t.start <= t.end ==> Above([w, t], w.start) && Below([w, t], t.end)
  {
    hide Sound;
    assert [w, t][0] == w && [w, t][1] == t;
  }

  lemma BesideOne(w: Region, t: Region)
    ensures Beside([w], t) == if CanMerge(w, t) then [w.(end := t.end)] else [w, t]
  {
    hide CanMerge;
    assert [w][..0] + [w.(end := t.end)] == [w.(end := t.end)];
  }

  lemma SoundStart(v: Region)
    requires Sound(v)
    ensures v.start < v.end
  {
  }

  lemma AlignedAdd(a: nat, n: nat)
    requires Aligned(a) && Aligned(n)
    ensures Aligned(a + n)
  {
  }

  lemma TailWhole(v: Region)
    requires Sound(v)
    ensures Tail(v, v.start) == v
  {
  }

  lemma HeadPiecesOk(v: Region, n: nat, prot: bv8)
    requires Sound(v) && v.start + n < v.end && Aligned(n)
    ensures var m := Beside([v.(end := v.start + n, prot := prot)], Tail(v, v.start + n));
      (Ok(m) <==> n > 0 || CanMerge(v.(end := v.start, prot := prot), v))
        && (Ok(m) ==> Above(m, v.start) && Below(m, v.end))
  {
    hide Sound;
    hide Tail;
    hide CanMerge;
    hide Aligned;
    hide Ok;
    hide Above;
    hide Below;
    hide Beside;
    var e := v.start + n;
    var w, t := v.(end := e, prot := prot), Tail(v, e);
    HeadPieces(v, n, prot);
    SoundStart(v);
    OkOne(w.(end := v.end));
    OkTwo(w, t);
    BesideOne(w, t);
  }

  lemma OkMiddle(a: seq<Region>, m: seq<Region>, b: seq<Region>)
    requires Ok(a + m + b)
    ensures Ok(m)
  {
    hide Sound;
    var r := a + m + b;
    assert forall k :: 0 <= k < |m| ==> m[k] == r[|a| + k];
  }

  /** An empty request at the start of a region leaves an empty region behind; nothing else spoils the list. */
  lemma ProtectedOkIff(vs: seq<Region>, i: nat, a: nat, n: nat, prot: bv8)
    requires Ok(vs) && i < |vs| && In(vs[i], a) && a + n <= vs[i].end && Aligned(a) && Aligned(n)
    ensures Ok(Protected(vs, i, a, n, prot)) <==>
      n > 0 || vs[i].start < a || CanMerge(vs[i].(end := a, prot := prot), vs[i])
  {
    hide Tail;
    hide Aligned;
    hide Beside;
    hide Inserted;
    hide CanMerge;
    var v := vs[i];
    OkSplit(vs, i);
    if v.start == a && v.end == a + n {
      OkJoin(vs[..i], [v.(prot := prot)], vs[i + 1..], v.start, v.end);
      assert vs[i := v.(prot := prot)] == vs[..i] + [v.(prot := prot)] + vs[i + 1..];
    } else if v.start == a {
      ProtectedHead(vs, i, n, prot);
      HeadPiecesOk(v, n, prot);
      var m := Beside([v.(end := a + n, prot := prot)], Tail(v, a + n));
      if Ok(m) {
        OkJoin(vs[..i], m, vs[i + 1..], v.start, v.end);
      } else if Ok(vs[..i] + m + vs[i + 1..]) {
        OkMiddle(vs[..i], m, vs[i + 1..]);
      }
    } else {
      ProtectedTail(vs, i, a, prot);
    }
  }
}
