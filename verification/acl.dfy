/** Access control lists as the entries of an extended attribute, and what acl_validate() accepts (kernel/acl.c). */
module Acl {
  import opened Prelude
  import opened Bits

  const USER_OBJ := 0x01
  const USER := 0x02
  const GROUP_OBJ := 0x04
  const GROUP := 0x08
  const MASK := 0x10
  const OTHER := 0x20
  const UNDEFINED_ID := 0xFFFF_FFFF
  const MAX_ENTRIES := 32

  datatype Entry = Entry(tag: nat, perm: Perm, id: nat)

  /** A list taken apart: the owner, named users, the owning group, named groups, at most one mask, the others. */
  datatype List =
    List(owner: Entry, users: seq<Entry>, group: Entry, groups: seq<Entry>, mask: seq<Entry>, other: Entry)
  {
    function Entries(): seq<Entry> {
      [owner] + users + [group] + groups + mask + [other]
    }

    predicate Named() { users != [] || groups != [] }
  }

  /** All of one kind, with the given tag, proper ids in ascending order, and rwx permissions. */
  ghost predicate Ascending(es: seq<Entry>, tag: nat) {
    && (forall i :: 0 <= i < |es| ==> es[i].tag == tag && es[i].id != UNDEFINED_ID && Rwx(es[i].perm))
    && (forall i, j :: 0 <= i < j < |es| ==> es[i].id < es[j].id)
  }

  /** The canonical form. */
  ghost predicate Proper(l: List) {
    && l.owner.tag == USER_OBJ && l.group.tag == GROUP_OBJ && l.other.tag == OTHER
    && Rwx(l.owner.perm) && Rwx(l.group.perm) && Rwx(l.other.perm)
    && Ascending(l.users, USER) && Ascending(l.groups, GROUP)
    && |l.mask| <= 1 && (l.mask != [] ==> l.mask[0].tag == MASK && Rwx(l.mask[0].perm))
    && (l.Named() ==> l.mask != [])
    && |l.Entries()| <= MAX_ENTRIES
  }

  ghost predicate Canonical(es: seq<Entry>) {
    exists l :: Proper(l) && es == l.Entries()
  }

  // ---- the validator as a machine that reads one entry after another ----

  /** What it has seen, and the last id of each kind. */
  datatype Scan = Scan(owner: bool, group: bool, mask: bool, other: bool, uid: Option<nat>, gid: Option<nat>)

  const START := Scan(false, false, false, false, None, None)

  function Read(s: Scan, e: Entry, first: bool, last: bool): Option<Scan> {
    if !Rwx(e.perm) then None
    else if e.tag == USER_OBJ then if s.owner || !first then None else Some(s.(owner := true))
    else if e.tag == USER then
      if !s.owner || s.group || e.id == UNDEFINED_ID || (s.uid.Some? && e.id <= s.uid.value) then None
        else Some(s.(uid := Some(e.id)))
    else if e.tag == GROUP_OBJ then if !s.owner || s.group then None else Some(s.(group := true))
    else if e.tag == GROUP then
      if !s.group || s.mask || e.id == UNDEFINED_ID || (s.gid.Some? && e.id <= s.gid.value) then None
        else Some(s.(gid := Some(e.id)))
    else if e.tag == MASK then if s.mask || !s.group then None else Some(s.(mask := true))
    else if e.tag == OTHER then if s.other || !s.group || !last then None else Some(s.(other := true))
    else None
  }

  function ReadFrom(s: Scan, es: seq<Entry>, n: nat): Option<Scan>
    requires n <= |es|
    decreases |es| - n
  {
    if n == |es| then Some(s)
    else
      var t := Read(s, es[n], n == 0, n == |es| - 1);
      if t.None? then None else ReadFrom(t.value, es, n + 1)
  }

  predicate Accepts(s: Option<Scan>) {
    s.Some? && s.value.owner && s.value.group && s.value.other
      && (s.value.uid.Some? || s.value.gid.Some? ==> s.value.mask)
  }

  function LastId(es: seq<Entry>): Option<nat> {
    if es == [] then None else Some(es[|es| - 1].id)
  }

  /** Reading the owner and the named users. */
  lemma ReadsFront(l: List)
    requires Proper(l)
    ensures var es, u := l.Entries(), |l.users|;
      ReadFrom(START, es, 0) == ReadFrom(START.(owner := true, uid := LastId(l.users), group := true), es, 2 + u)
  {
    hide Rwx;
    hide Ascending;
    hide LastId;
    var es, u := l.Entries(), |l.users|;
    var s := START.(owner := true);
    assert es[0] == l.owner && es[1 + u] == l.group && es[1..1 + u] == l.users;
    assert Read(START, es[0], true, false) == Some(s);
    ReadUsers(es, l.users, 1, s);
    assert Read(s.(uid := LastId(l.users)), es[1 + u], false, false) == Some(s.(uid := LastId(l.users), group := true));
  }

  /** Every canonical list is read to its end. */
  lemma ReadsCanonical(l: List)
    requires Proper(l)
    ensures Accepts(ReadFrom(START, l.Entries(), 0)) && 3 <= |l.Entries()| <= MAX_ENTRIES
  {
    hide Rwx;
    hide Ascending;
    hide LastId;
    hide ReadFrom;
    var es, u, g := l.Entries(), |l.users|, |l.groups|;
    ReadsFront(l);
    var s := START.(owner := true, uid := LastId(l.users), group := true);
    assert es[2 + u..2 + u + g] == l.groups;
    ReadGroups(es, l.groups, 2 + u, s);
    ReadTail(es, l, 2 + u + g, s.(gid := LastId(l.groups)));
  }

  lemma {:induction false} ReadUsers(es: seq<Entry>, us: seq<Entry>, n: nat, s: Scan)
    requires n + |us| < |es| && n > 0 && es[n..n + |us|] == us && Ascending(us, USER)
    requires s.owner && !s.group && s.uid.None?
    ensures ReadFrom(s, es, n) == ReadFrom(s.(uid := LastId(us)), es, n + |us|)
  {
    if us != [] {
      var k := |us| - 1;
      assert es[n..n + k] == us[..k];
      ReadUsers(es, us[..k], n, s);
      assert es[n + k] == es[n..n + |us|][k] == us[k];
      var t := s.(uid := LastId(us[..k]));
      assert k > 0 ==> us[..k][k - 1] == us[k - 1];
      assert Read(t, es[n + k], false, n + k == |es| - 1) == Some(s.(uid := LastId(us)));
    }
  }

  lemma {:induction false} ReadGroups(es: seq<Entry>, gs: seq<Entry>, n: nat, s: Scan)
    requires n + |gs| < |es| && n > 0 && es[n..n + |gs|] == gs && Ascending(gs, GROUP)
    requires s.group && !s.mask && s.gid.None?
    ensures ReadFrom(s, es, n) == ReadFrom(s.(gid := LastId(gs)), es, n + |gs|)
  {
    if gs != [] {
      var k := |gs| - 1;
      assert es[n..n + k] == gs[..k];
      ReadGroups(es, gs[..k], n, s);
      assert es[n + k] == es[n..n + |gs|][k] == gs[k];
      var t := s.(gid := LastId(gs[..k]));
      assert k > 0 ==> gs[..k][k - 1] == gs[k - 1];
      assert Read(t, es[n + k], false, n + k == |es| - 1) == Some(s.(gid := LastId(gs)));
    }
  }

  lemma ReadTail(es: seq<Entry>, l: List, n: nat, s: Scan)
    requires Proper(l) && es == l.Entries() && n == 2 + |l.users| + |l.groups|
    requires s == Scan(true, true, false, false, LastId(l.users), LastId(l.groups))
    ensures Accepts(ReadFrom(s, es, n))
  {
    if l.mask == [] {
      assert es[n] == l.other;
      assert ReadFrom(s.(other := true), es, n + 1).Some?;
    } else {
      assert es[n] == l.mask[0] && es[n + 1] == l.other;
      assert ReadFrom(s.(mask := true, other := true), es, n + 2).Some?;
      assert ReadFrom(s, es, n) == ReadFrom(s.(mask := true), es, n + 1);
    }
  }

  /** The first `n` entries, of which `u` are named users and `g` named groups, as far as the machine has read them. */
  ghost predicate Shape(es: seq<Entry>, n: nat, s: Scan, u: nat, g: nat) {
    if !s.owner then n == u == g == 0 && s == START
    else
      && n <= |es| && 1 + u <= n && es[0].tag == USER_OBJ && Rwx(es[0].perm)
      && Ascending(es[1..1 + u], USER) && s.uid == LastId(es[1..1 + u])
      && (if !s.group then n == 1 + u && g == 0 && !s.mask && !s.other && s.gid.None?
          else
            && n == 2 + u + g + (if s.mask then 1 else 0) + (if s.other then 1 else 0)
            && es[1 + u].tag == GROUP_OBJ && Rwx(es[1 + u].perm)
            && Ascending(es[2 + u..2 + u + g], GROUP) && s.gid == LastId(es[2 + u..2 + u + g])
            && (s.mask ==> es[2 + u + g].tag == MASK && Rwx(es[2 + u + g].perm))
            && (s.other ==> n == |es| && es[n - 1].tag == OTHER && Rwx(es[n - 1].perm)))
  }

  lemma AscendingMore(es: seq<Entry>, a: nat, n: nat, tag: nat)
    requires a <= n < |es| && Ascending(es[a..n], tag) && es[n].tag == tag && es[n].id != UNDEFINED_ID
    requires Rwx(es[n].perm)
    requires LastId(es[a..n]).Some? ==> LastId(es[a..n]).value < es[n].id
    ensures Ascending(es[a..n + 1], tag) && LastId(es[a..n + 1]) == Some(es[n].id)
  {
    var old' := es[a..n];
    assert es[a..n + 1] == old' + [es[n]];
    assert forall i :: 0 <= i < |old'| ==> old'[i].id <= old'[|old'| - 1].id;
  }

  /** One more entry. */
  lemma ShapeStep(es: seq<Entry>, n: nat, s: Scan, u: nat, g: nat) returns (u': nat, g': nat)
    requires n < |es| && Shape(es, n, s, u, g) && Read(s, es[n], n == 0, n == |es| - 1).Some?
    ensures Shape(es, n + 1, Read(s, es[n], n == 0, n == |es| - 1).value, u', g')
  {
    hide Ascending;
    hide Rwx;
    hide LastId;
    var e := es[n];
    u', g' := u, g;
    if e.tag == USER_OBJ {
      EmptyShape(es);
    } else if e.tag == USER {
      u' := u + 1;
      AscendingMore(es, 1, n, USER);
    } else if e.tag == GROUP_OBJ {
      EmptyAt(es, 2 + u);
    } else if e.tag == GROUP {
      g' := g + 1;
      AscendingMore(es, 2 + u, n, GROUP);
    }
  }

  lemma EmptyShape(es: seq<Entry>)
    requires |es| > 0
    ensures Ascending(es[1..1], USER) && LastId(es[1..1]) == None
  {
  }

  lemma EmptyAt(es: seq<Entry>, n: nat)
    requires n <= |es|
    ensures Ascending(es[n..n], GROUP) && LastId(es[n..n]) == None
  {
  }

  lemma {:induction false} Rebuild(es: seq<Entry>, n: nat, s: Scan, u: nat, g: nat)
    requires n <= |es| <= MAX_ENTRIES && Shape(es, n, s, u, g) && Accepts(ReadFrom(s, es, n))
    ensures Canonical(es)
    decreases |es| - n
  {
    if n < |es| {
      var u', g' := ShapeStep(es, n, s, u, g);
      Rebuild(es, n + 1, Read(s, es[n], n == 0, n == |es| - 1).value, u', g');
    } else {
      Assemble(es, s, u, g);
    }
  }

  lemma TakenApart(es: seq<Entry>, u: nat, g: nat, masked: bool)
    requires |es| == if masked then 4 + u + g else 3 + u + g
    ensures es == [es[0]] + es[1..1 + u] + [es[1 + u]] + es[2 + u..2 + u + g] + (if masked then [es[2 + u + g]] else [])
      + [es[|es| - 1]]
  {
    assert es == [es[0]] + es[1..1 + u] + [es[1 + u]] + es[2 + u..2 + u + g] + es[2 + u + g..];
  }

  lemma Assemble(es: seq<Entry>, s: Scan, u: nat, g: nat)
    requires |es| <= MAX_ENTRIES && Shape(es, |es|, s, u, g) && Accepts(Some(s))
    ensures Canonical(es)
  {
    hide Ascending;
    hide Rwx;
    var m := 2 + u + g;
    var mask := if s.mask then [es[m]] else [];
    var l := List(es[0], es[1..1 + u], es[1 + u], es[2 + u..m], mask, es[|es| - 1]);
    TakenApart(es, u, g, s.mask);
    assert Proper(l);
  }

  /** The validator accepts exactly the canonical lists. */
  lemma AcceptsIffCanonical(es: seq<Entry>)
    ensures 3 <= |es| <= MAX_ENTRIES && Accepts(ReadFrom(START, es, 0)) <==> Canonical(es)
  {
    if 3 <= |es| <= MAX_ENTRIES && Accepts(ReadFrom(START, es, 0)) {
      Rebuild(es, 0, START, 0, 0);
    }
    if Canonical(es) {
      var l :| Proper(l) && es == l.Entries();
      ReadsCanonical(l);
    }
  }
}
