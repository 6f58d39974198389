/** The loops of kernel/acl.c over the entries of a list. */
module AclOps {
  import opened Prelude
  import opened Bits
  import opened Acl
  import opened AclDecide
  import opened AclChange

  const ENTRY_SIZE := 8

  /** The switch of acl_validate(): one entry; `None` is a refusal. */
  method NextEntry(s: Scan, e: Entry, n: nat, nents: nat) returns (r: Option<Scan>)
    requires n < nents
    ensures r == Read(s, e, n == 0, n == nents - 1)
  {
    if e.perm & !7 != 0 {
      NotRwx(e.perm);
      return None;
    }
    OnlyRwx(e.perm);
    hide Rwx;
    var tag := e.tag;
    if tag == USER_OBJ {
      if s.owner || n != 0 {
        return None;
      }
      return Some(s.(owner := true));
    } else if tag == USER {
      if !s.owner || s.group || e.id == UNDEFINED_ID || (s.uid.Some? && e.id <= s.uid.value) {
        return None;
      }
      return Some(s.(uid := Some(e.id)));
    } else if tag == GROUP_OBJ {
      if !s.owner || s.group {
        return None;
      }
      return Some(s.(group := true));
    } else if tag == GROUP {
      if !s.group || s.mask || e.id == UNDEFINED_ID || (s.gid.Some? && e.id <= s.gid.value) {
        return None;
      }
      return Some(s.(gid := Some(e.id)));
    } else if tag == MASK {
      if s.mask || !s.group {
        return None;
      }
      return Some(s.(mask := true));
    } else if tag == OTHER {
      if s.other || !s.group || n != nents - 1 {
        return None;
      }
      return Some(s.(other := true));
    }
    return None;
  }

  /** acl_validate(): accepts exactly the payloads that hold a canonical list. */
  method AclValidate(es: seq<Entry>, size: nat) returns (ok: bool)
    requires |es| == size / ENTRY_SIZE
    ensures ok <==> size % ENTRY_SIZE == 0 && Canonical(es)
  {
    hide Canonical;
    hide Read;
    AcceptsIffCanonical(es);
    if size == 0 || size % ENTRY_SIZE != 0 {
      return false;
    }
    var nents := size / ENTRY_SIZE;
    if nents < 3 || nents > MAX_ENTRIES {
      return false;
    }
    var s := START;
    var n := 0;
    while n < nents
      invariant n <= nents && ReadFrom(s, es, n) == ReadFrom(START, es, 0)
    {
      var next := NextEntry(s, es[n], n, nents);
      if next.None? {
        return false;
      }
      s := next.value;
      n := n + 1;
    }
    if !s.owner || !s.group || !s.other {
      return false;
    }
    return !((s.uid.Some? || s.gid.Some?) && !s.mask);
  }

  lemma OnlyRwx(p: Perm)
    requires p & !7 == 0
    ensures Rwx(p)
  {
  }

  lemma NotRwx(p: Perm)
    requires p & !7 != 0
    ensures !Rwx(p)
  {
  }

  // ---- looking for entries ----

  function First(es: seq<Entry>, tag: nat): Option<Perm> {
    if es == [] then None else if es[0].tag == tag then Some(es[0].perm) else First(es[1..], tag)
  }

  function FirstUser(es: seq<Entry>, uid: nat): Option<Perm> {
    if es == [] then None else if es[0].tag == USER && es[0].id == uid then Some(es[0].perm)
      else FirstUser(es[1..], uid)
  }

  lemma {:induction false} FirstOf(a: seq<Entry>, b: seq<Entry>, tag: nat)
    ensures First(a + b, tag) == if First(a, tag).Some? then First(a, tag) else First(b, tag)
  {
    if a == [] {
      assert a + b == b;
    } else {
      assert (a + b)[1..] == a[1..] + b;
      FirstOf(a[1..], b, tag);
    }
  }

  lemma {:induction false} FirstNone(es: seq<Entry>, tag: nat)
    requires forall i :: 0 <= i < |es| ==> es[i].tag != tag
    ensures First(es, tag).None?
  {
    if es != [] {
      FirstNone(es[1..], tag);
    }
  }

  /** Where each kind of entry is found in a canonical list. */
  lemma FirstEntries(l: List, tag: nat)
    requires Proper(l)
    ensures tag == USER_OBJ ==> First(l.Entries(), tag) == Some(l.owner.perm)
    ensures tag == GROUP_OBJ ==> First(l.Entries(), tag) == Some(l.group.perm)
    ensures tag == OTHER ==> First(l.Entries(), tag) == Some(l.other.perm)
    ensures tag == MASK ==> First(l.Entries(), tag) == if l.mask == [] then None else Some(l.mask[0].perm)
  {
    hide Rwx;
    FirstOf([l.owner] + l.users + [l.group] + l.groups + l.mask, [l.other], tag);
    FirstOf([l.owner] + l.users + [l.group] + l.groups, l.mask, tag);
    FirstOf([l.owner] + l.users + [l.group], l.groups, tag);
    FirstOf([l.owner] + l.users, [l.group], tag);
    FirstOf([l.owner], l.users, tag);
    if tag != USER && tag != GROUP {
      FirstNone(l.users, tag);
      FirstNone(l.groups, tag);
    }
    assert First([l.other], tag) == (if l.other.tag == tag then Some(l.other.perm) else None);
    assert First([l.group], tag) == (if l.group.tag == tag then Some(l.group.perm) else None);
    assert First([l.owner], tag) == (if l.owner.tag == tag then Some(l.owner.perm) else None);
    if l.mask != [] {
      assert l.mask == [l.mask[0]];
      assert First(l.mask, tag) == (if l.mask[0].tag == tag then Some(l.mask[0].perm) else None);
    }
  }

  lemma {:induction false} FirstUserOf(a: seq<Entry>, b: seq<Entry>, uid: nat)
    ensures FirstUser(a + b, uid) == if FirstUser(a, uid).Some? then FirstUser(a, uid) else FirstUser(b, uid)
  {
    if a == [] {
      assert a + b == b;
    } else {
      assert (a + b)[1..] == a[1..] + b;
      FirstUserOf(a[1..], b, uid);
    }
  }

  lemma {:induction false} FirstUserNone(es: seq<Entry>, uid: nat)
    requires forall i :: 0 <= i < |es| ==> es[i].tag != USER
    ensures FirstUser(es, uid).None?
  {
    if es != [] {
      FirstUserNone(es[1..], uid);
    }
  }

  lemma {:induction false} FirstUserNamed(us: seq<Entry>, uid: nat)
    requires forall i :: 0 <= i < |us| ==> us[i].tag == USER
    ensures FirstUser(us, uid) == Named(us, uid)
  {
    if us != [] {
      FirstUserNamed(us[1..], uid);
    }
  }

  lemma FirstUserEntries(l: List, uid: nat)
    requires Proper(l)
    ensures FirstUser(l.Entries(), uid) == Named(l.users, uid)
  {
    hide Rwx;
    var rest := [l.group] + l.groups + l.mask + [l.other];
    assert l.Entries() == [l.owner] + l.users + rest;
    FirstUserOf([l.owner] + l.users, rest, uid);
    FirstUserOf([l.owner], l.users, uid);
    FirstUserNone([l.owner], uid);
    FirstUserNone(rest, uid);
    FirstUserNamed(l.users, uid);
  }

  lemma {:induction false} GroupsOf(a: seq<Entry>, b: seq<Entry>, f: File, c: Caller)
    ensures Any(a + b, f, c) == (Any(a, f, c) || Any(b, f, c))
    ensures Sum(a + b, f, c) == Both(Sum(a, f, c), Sum(b, f, c))
  {
    if a == [] {
      assert a + b == b;
      BothAgain(Sum(b, f, c), 0, 0);
    } else {
      assert (a + b)[1..] == a[1..] + b;
      GroupsOf(a[1..], b, f, c);
      BothAgain(if Matches(a[0], f, c) then a[0].perm else 0, Sum(a[1..], f, c), Sum(b, f, c));
    }
  }

  lemma {:induction false} GroupsNone(es: seq<Entry>, f: File, c: Caller)
    requires forall i :: 0 <= i < |es| ==> es[i].tag != GROUP && es[i].tag != GROUP_OBJ
    ensures !Any(es, f, c) && Sum(es, f, c) == 0
  {
    if es != [] {
      GroupsNone(es[1..], f, c);
      BothAgain(0, 0, 0);
    }
  }

  lemma NoGroups(l: List)
    requires Proper(l)
    ensures var front, back := [l.owner] + l.users, l.mask + [l.other];
      && (forall i :: 0 <= i < |front| ==> front[i].tag != GROUP && front[i].tag != GROUP_OBJ)
      && (forall i :: 0 <= i < |back| ==> back[i].tag != GROUP && back[i].tag != GROUP_OBJ)
  {
    hide Rwx;
  }

  lemma GroupsEntries(l: List, f: File, c: Caller)
    requires Proper(l)
    ensures Any(l.Entries(), f, c) == Any([l.group] + l.groups, f, c)
    ensures Sum(l.Entries(), f, c) == Sum([l.group] + l.groups, f, c)
  {
    hide Proper;
    hide Both;
    hide Any;
    hide Sum;
    NoGroups(l);
    var front, gs, back := [l.owner] + l.users, [l.group] + l.groups, l.mask + [l.other];
    assert l.Entries() == front + gs + back;
    GroupsOf(front + gs, back, f, c);
    GroupsOf(front, gs, f, c);
    GroupsNone(front, f, c);
    GroupsNone(back, f, c);
    BothAgain(Sum(gs, f, c), 0, 0);
  }

  method FindFirst(es: seq<Entry>, tag: nat) returns (r: Option<Perm>)
    ensures r == First(es, tag)
  {
    var n := 0;
    assert es[0..] == es;
    while n < |es|
      invariant n <= |es| && First(es[n..], tag) == First(es, tag)
    {
      if es[n].tag == tag {
        return Some(es[n].perm);
      }
      n := n + 1;
    }
    return None;
  }

  /** The decision by the first entry of each kind, on any entries at all: who has no entry is refused. */
  function DecideEntries(es: seq<Entry>, f: File, c: Caller, want: Perm): bool {
    var m := First(es, MASK);
    var limit := if m.Some? then m.value else 7;
    var u := FirstUser(es, c.uid);
    if f.uid == c.uid then Grants(First(es, USER_OBJ), want)
    else if u.Some? then Contains(Cut(limit, u.value), want)
    else if Any(es, f, c) then Contains(Cut(limit, Sum(es, f, c)), want)
    else Grants(First(es, OTHER), want)
  }

  predicate Grants(p: Option<Perm>, want: Perm) {
    p.Some? && Contains(p.value, want)
  }

  /** On a canonical list that is the decision by its parts. */
  lemma CanonicalDecides(l: List, f: File, c: Caller, want: Perm)
    requires Proper(l)
    ensures DecideEntries(l.Entries(), f, c, want) == Decide(l, f, c, want)
  {
    hide Contains;
    hide Cut;
    hide Both;
    hide Proper;
    hide Sum;
    hide Any;
    hide First;
    hide Named;
    FirstEntries(l, MASK);
    FirstEntries(l, USER_OBJ);
    FirstEntries(l, OTHER);
    FirstUserEntries(l, c.uid);
    GroupsEntries(l, f, c);
  }

  /** acl_check_entries(): the decision for every caller and request, on any entries. */
  method CheckEntries(es: seq<Entry>, f: File, c: Caller, want: Perm) returns (ok: bool)
    ensures ok == DecideEntries(es, f, c, want)
    ensures forall l :: Proper(l) && es == l.Entries() ==> ok == Decide(l, f, c, want)
  {
    hide Contains;
    hide Cut;
    hide Both;
    hide Proper;
    hide Sum;
    hide Any;
    hide First;
    hide FirstUser;
    hide Decide;
    forall l | Proper(l) && es == l.Entries() ensures DecideEntries(es, f, c, want) == Decide(l, f, c, want) {
      CanonicalDecides(l, f, c, want);
    }
    var m := FindFirst(es, MASK);
    var mperm := if m.Some? then m.value else 7;
    if f.uid == c.uid {
      var o := FindFirst(es, USER_OBJ);
      return o.Some? && Contains(o.value, want);
    }
    var u := FindUser(es, c.uid);
    if u.Some? {
      return Contains(Cut(mperm, u.value), want);
    }
    var matched, gperms := AddGroups(es, f, c);
    if matched {
      return Contains(Cut(mperm, gperms), want);
    }
    var o := FindFirst(es, OTHER);
    return o.Some? && Contains(o.value, want);
  }

  method FindUser(es: seq<Entry>, uid: nat) returns (r: Option<Perm>)
    ensures r == FirstUser(es, uid)
  {
    var n := 0;
    assert es[0..] == es;
    while n < |es|
      invariant n <= |es| && FirstUser(es[n..], uid) == FirstUser(es, uid)
    {
      if es[n].tag == USER && es[n].id == uid {
        return Some(es[n].perm);
      }
      n := n + 1;
    }
    return None;
  }

  /** The permissions of all group entries that match, added up. */
  method AddGroups(es: seq<Entry>, f: File, c: Caller) returns (matched: bool, gperms: Perm)
    ensures matched == Any(es, f, c) && gperms == Sum(es, f, c)
  {
    hide Both;
    matched, gperms := false, 0;
    var n := 0;
    assert es[0..] == es;
    BothAgain(Sum(es, f, c), 0, 0);
    while n < |es|
      invariant n <= |es| && Both(gperms, Sum(es[n..], f, c)) == Sum(es, f, c)
      invariant (matched || Any(es[n..], f, c)) == Any(es, f, c)
    {
      BothAgain(gperms, if Matches(es[n], f, c) then es[n].perm else 0, Sum(es[n + 1..], f, c));
      assert es[n..][1..] == es[n + 1..];
      if Matches(es[n], f, c) {
        matched := true;
        gperms := Both(gperms, es[n].perm);
      }
      n := n + 1;
    }
    BothAgain(gperms, 0, 0);
  }
}
