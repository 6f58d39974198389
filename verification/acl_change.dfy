/** Projecting a list to mode bits, changing it by chmod, and inheriting it (kernel/acl.c). */
module AclChange {
  import opened Prelude
  import opened Bits
  import opened Acl
  import opened AclDecide

  /** The list that the mode bits of a file without one stand for. */
  function Trivial(mode: Perm): List {
    List(Entry(USER_OBJ, Owner(mode), UNDEFINED_ID), [], Entry(GROUP_OBJ, Group(mode), UNDEFINED_ID), [], [],
      Entry(OTHER, Other(mode), UNDEFINED_ID))
  }

  lemma TrivialProper(mode: Perm)
    ensures Proper(Trivial(mode))
  {
    hide Rwx;
    assert |Trivial(mode).Entries()| == 3;
  }

  /** The permissions stat() shows for the group: the mask where there is one. */
  function GroupClass(l: List): Perm {
    if l.mask == [] then l.group.perm else l.mask[0].perm
  }

  /** A mode that shows a list. */
  function Projected(l: List, mode: Perm): Perm {
    WithPerms(mode, l.owner.perm, GroupClass(l), l.other.perm)
  }

  /** Nothing in the list that the mode bits would not say. */
  predicate Equivalent(l: List) {
    !l.Named() && (l.mask == [] || l.mask[0].perm == l.group.perm)
  }

  lemma OnlyGroup(l: List, f: File, c: Caller)
    requires l.groups == []
    ensures Any([l.group] + l.groups, f, c) <==> Matches(l.group, f, c)
    ensures Matches(l.group, f, c) ==> Sum([l.group] + l.groups, f, c) == Both(l.group.perm, 0)
  {
    var es := [l.group] + l.groups;
    assert es[1..] == [];
    assert Sum(es[1..], f, c) == 0 && !Any(es[1..], f, c);
  }

  lemma NothingMore(p: Perm)
    requires Rwx(p)
    ensures Both(p, 0) == p && Cut(7, p) == p && Cut(p, p) == p
  {
  }

  /** A list that says no more than the mode bits decides like them, for every caller and request. */
  lemma EquivalentDecides(l: List, mode: Perm, f: File, c: Caller, want: Perm)
    requires Proper(l) && Equivalent(l)
    ensures Decide(l, f, c, want) == Decide(Trivial(Projected(l, mode)), f, c, want)
  {
    var t := Trivial(Projected(l, mode));
    assert GroupClass(l) == l.group.perm;
    WithPermsReads(mode, l.owner.perm, GroupClass(l), l.other.perm);
    OnlyGroup(l, f, c);
    OnlyGroup(t, f, c);
    NothingMore(l.group.perm);
    hide Contains;
    hide Cut;
    hide Both;
    hide WithPerms;
    hide Owner;
    hide Group;
    hide Other;
  }

  // ---- chmod ----

  function ModeEntry(e: Entry, masked: bool, mode: Perm): Entry {
    if e.tag == USER_OBJ then e.(perm := Owner(mode))
    else if e.tag == GROUP_OBJ then if masked then e else e.(perm := Group(mode))
    else if e.tag == MASK then e.(perm := Group(mode))
    else if e.tag == OTHER then e.(perm := Other(mode))
    else e
  }

  function Chmodded(l: List, mode: Perm): List {
    var masked := l.mask != [];
    List(ModeEntry(l.owner, masked, mode), l.users, ModeEntry(l.group, masked, mode), l.groups,
         if masked then [ModeEntry(l.mask[0], masked, mode)] else [], ModeEntry(l.other, masked, mode))
  }

  /** chmod() leaves a proper list that shows exactly the mode asked for. */
  lemma ChmodShows(l: List, mode: Perm, file: Perm)
    requires Proper(l)
    ensures Proper(Chmodded(l, mode))
    ensures Projected(Chmodded(l, mode), file) == WithPerms(file, Owner(mode), Group(mode), Other(mode))
  {
    hide Rwx;
    hide WithPerms;
    hide Owner;
    hide Group;
    hide Other;
    hide Ascending;
    assert |Chmodded(l, mode).Entries()| == |l.Entries()|;
  }

  /** Its owner gets what the mode says, the others too, and nobody of the group class more than the mode says. */
  lemma ChmodLimits(l: List, mode: Perm, f: File, c: Caller, want: Perm)
    requires Proper(l)
    ensures f.uid == c.uid ==> Decide(Chmodded(l, mode), f, c, want) == Contains(Owner(mode), want)
    ensures f.uid != c.uid && Named(l.users, c.uid).None? && !InGroupClass(l, f, c) ==>
      Decide(Chmodded(l, mode), f, c, want) == Contains(Other(mode), want)
    ensures f.uid != c.uid && (Named(l.users, c.uid).Some? || InGroupClass(l, f, c)) ==>
      (Decide(Chmodded(l, mode), f, c, want) ==> Contains(Group(mode), want))
  {
    hide Contains;
    hide Cut;
    hide Both;
    hide Owner;
    hide Group;
    hide Other;
    hide Rwx;
    hide Ascending;
    hide WithPerms;
    ChmodShows(l, mode, 0);
    var m := Chmodded(l, mode);
    GroupClassIs(m, f, c);
    assert InGroupClass(m, f, c) <==> InGroupClass(l, f, c);
    if f.uid != c.uid && Decide(m, f, c, want) {
      if Named(l.users, c.uid).Some? || m.mask != [] {
        MaskLimits(m, f, c, want);
      } else if InGroupClass(l, f, c) {
        OnlyGroup(m, f, c);
        NothingMore(Group(mode));
      }
    }
  }

  /** Nobody of the group class gets more than the mask. */
  lemma MaskLimits(l: List, f: File, c: Caller, want: Perm)
    requires Proper(l) && f.uid != c.uid && Decide(l, f, c, want) && l.mask != []
    ensures Named(l.users, c.uid).Some? || InGroupClass(l, f, c) ==> Contains(l.mask[0].perm, want)
  {
    hide Contains;
    hide Cut;
    GroupClassIs(l, f, c);
    if Named(l.users, c.uid).Some? {
      ContainsEach(MaskOf(l), Named(l.users, c.uid).value, want);
    } else if InGroupClass(l, f, c) {
      ContainsEach(MaskOf(l), Sum([l.group] + l.groups, f, c), want);
    }
  }

  // ---- inheritance ----

  function CutEntry(e: Entry, masked: bool, mode: Perm): Entry {
    if e.tag == USER_OBJ then e.(perm := Cut(e.perm, Owner(mode)))
    else if e.tag == OTHER then e.(perm := Cut(e.perm, Other(mode)))
    else if e.tag == MASK || (e.tag == GROUP_OBJ && !masked) then e.(perm := Cut(e.perm, Group(mode)))
    else e
  }

  /** The list a new file gets from the default list of its directory. */
  function Inherited(l: List, mode: Perm): List {
    var masked := l.mask != [];
    List(CutEntry(l.owner, masked, mode), l.users, CutEntry(l.group, masked, mode), l.groups,
         if masked then [CutEntry(l.mask[0], masked, mode)] else [], CutEntry(l.other, masked, mode))
  }

  lemma InheritedProper(l: List, mode: Perm)
    requires Proper(l)
    ensures Proper(Inherited(l, mode))
  {
    CutDown(l.owner.perm, Owner(mode));
    CutDown(l.other.perm, Other(mode));
    CutDown(l.group.perm, Group(mode));
    if l.mask != [] {
      CutDown(l.mask[0].perm, Group(mode));
    }
    hide Rwx;
    hide Cut;
    hide Owner;
    hide Group;
    hide Other;
    hide Ascending;
    assert |Inherited(l, mode).Entries()| == |l.Entries()|;
  }

  lemma {:induction false} SameGroups(es: seq<Entry>, f: File, c: Caller, e: Entry)
    requires es != [] && e.tag == es[0].tag && e.id == es[0].id
    ensures Any([e] + es[1..], f, c) == Any(es, f, c)
    ensures Sum([e] + es[1..], f, c) == Both(if Matches(e, f, c) then e.perm else 0, Sum(es[1..], f, c))
  {
    assert ([e] + es[1..])[1..] == es[1..];
  }

  /** An inherited list never grants a caller anything that the default list does not. */
  lemma InheritsNoMore(l: List, mode: Perm, f: File, c: Caller, want: Perm)
    requires Proper(l) && Decide(Inherited(l, mode), f, c, want)
    ensures Decide(l, f, c, want)
  {
    var m := Inherited(l, mode);
    if f.uid == c.uid {
      ContainsEach(l.owner.perm, Owner(mode), want);
    } else if Named(l.users, c.uid).Some? {
      CutLess(MaskOf(l), Group(mode), Named(l.users, c.uid).value, want);
    } else if Any([l.group] + l.groups, f, c) {
      InheritsNoMoreGroup(l, mode, f, c, want);
    } else {
      InheritedGroups(l, mode, f, c);
      ContainsEach(l.other.perm, Other(mode), want);
    }
  }

  lemma InheritedGroups(l: List, mode: Perm, f: File, c: Caller)
    requires Proper(l)
    ensures var m := Inherited(l, mode); Any([m.group] + m.groups, f, c) == Any([l.group] + l.groups, f, c)
    ensures var m := Inherited(l, mode); l.mask != [] ==>
      Sum([m.group] + m.groups, f, c) == Sum([l.group] + l.groups, f, c)
  {
    var es, m := [l.group] + l.groups, Inherited(l, mode);
    assert es[1..] == l.groups;
    SameGroups(es, f, c, m.group);
    SameGroups(es, f, c, l.group);
  }

  lemma InheritsNoMoreGroup(l: List, mode: Perm, f: File, c: Caller, want: Perm)
    requires Proper(l) && f.uid != c.uid && Named(l.users, c.uid).None? && Any([l.group] + l.groups, f, c)
    requires Decide(Inherited(l, mode), f, c, want)
    ensures Decide(l, f, c, want)
  {
    var m := Inherited(l, mode);
    InheritedGroups(l, mode, f, c);
    if l.mask != [] {
      CutLess(l.mask[0].perm, Group(mode), Sum([l.group] + l.groups, f, c), want);
    } else {
      OnlyGroup(l, f, c);
      OnlyGroup(m, f, c);
      CutLessAlone(l.group.perm, Group(mode), want);
    }
  }

  lemma CutLess(mask: Perm, mode: Perm, perm: Perm, want: Perm)
    ensures Contains(Cut(Cut(mask, mode), perm), want) ==> Contains(Cut(mask, perm), want)
  {
    if Contains(Cut(Cut(mask, mode), perm), want) {
      ContainsEach(Cut(mask, mode), perm, want);
      ContainsEach(mask, mode, want);
      ContainsBoth(mask, perm, want);
    }
  }

  lemma CutLessAlone(perm: Perm, mode: Perm, want: Perm)
    ensures Contains(Cut(7, Both(Cut(perm, mode), 0)), want) ==> Contains(Cut(7, Both(perm, 0)), want)
  {
  }

  /**
    * Its owner gets what owner and mode both say, the others likewise, and nobody of the group class more than the
    * mode says.
    */
  lemma InheritedLimits(l: List, mode: Perm, f: File, c: Caller, want: Perm)
    requires Proper(l)
    ensures f.uid == c.uid ==> Decide(Inherited(l, mode), f, c, want) == Contains(Cut(l.owner.perm, Owner(mode)), want)
    ensures f.uid != c.uid && Named(l.users, c.uid).None? && !InGroupClass(l, f, c) ==>
              Decide(Inherited(l, mode), f, c, want) == Contains(Cut(l.other.perm, Other(mode)), want)
    ensures f.uid != c.uid && (Named(l.users, c.uid).Some? || InGroupClass(l, f, c)) ==>
      (Decide(Inherited(l, mode), f, c, want) ==> Contains(Cut(GroupClass(l), Group(mode)), want))
  {
    hide Contains;
    hide Cut;
    hide Both;
    hide Owner;
    hide Group;
    hide Other;
    hide Rwx;
    hide Ascending;
    InheritedProper(l, mode);
    var m := Inherited(l, mode);
    GroupClassIs(m, f, c);
    assert InGroupClass(m, f, c) <==> InGroupClass(l, f, c);
    if f.uid != c.uid && Decide(m, f, c, want) {
      if Named(l.users, c.uid).Some? || m.mask != [] {
        MaskLimits(m, f, c, want);
      } else if InGroupClass(l, f, c) {
        OnlyGroup(m, f, c);
        NothingMore(m.group.perm);
      }
    }
  }
}
