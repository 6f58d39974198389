/** Lists and mode bits kept in step: the loops of kernel/acl.c that project, change and inherit lists. */
module AclModes {
  import opened Prelude
  import opened Bits
  import opened Acl
  import opened AclDecide
  import opened AclChange
  import opened AclOps

  /** The permissions of the last entry of a kind, or none. */
  function Last(es: seq<Entry>, tag: nat): Perm {
    if es == [] then 0 else if es[|es| - 1].tag == tag then es[|es| - 1].perm else Last(es[..|es| - 1], tag)
  }

  /** In a canonical list each kind but the named ones occurs once. */
  ghost predicate Once(es: seq<Entry>, tag: nat, k: nat) {
    k < |es| && es[k].tag == tag && forall i :: 0 <= i < |es| && es[i].tag == tag ==> i == k
  }

  lemma {:induction false} LastOnce(es: seq<Entry>, tag: nat, k: nat)
    requires Once(es, tag, k)
    ensures Last(es, tag) == es[k].perm
  {
    var n := |es| - 1;
    if k < n {
      LastOnce(es[..n], tag, k);
    }
  }

  /** The places of the entries. */
  lemma Places(l: List)
    requires Proper(l)
    ensures var es, u, g := l.Entries(), |l.users|, |l.groups|;
      && Once(es, USER_OBJ, 0) && Once(es, GROUP_OBJ, 1 + u) && Once(es, OTHER, |es| - 1)
      && es[0] == l.owner && es[1 + u] == l.group && es[|es| - 1] == l.other
      && (l.mask != [] ==> Once(es, MASK, 2 + u + g) && es[2 + u + g] == l.mask[0])
      && (l.mask == [] ==> forall i :: 0 <= i < |es| ==> es[i].tag != MASK)
      && (forall i :: 1 <= i < 1 + u ==> es[i] == l.users[i - 1] && es[i].tag == USER)
      && (forall i :: 2 + u <= i < 2 + u + g ==> es[i] == l.groups[i - 2 - u] && es[i].tag == GROUP)
  {
    hide Rwx;
  }

  lemma LastEntries(l: List)
    requires Proper(l)
    ensures var es := l.Entries();
      Last(es, USER_OBJ) == l.owner.perm && Last(es, GROUP_OBJ) == l.group.perm && Last(es, OTHER) == l.other.perm
      && (l.mask != [] ==> Last(es, MASK) == l.mask[0].perm)
  {
    hide Proper;
    hide Rwx;
    Places(l);
    var es := l.Entries();
    LastOnce(es, USER_OBJ, 0);
    LastOnce(es, GROUP_OBJ, 1 + |l.users|);
    LastOnce(es, OTHER, |es| - 1);
    if l.mask != [] {
      LastOnce(es, MASK, 2 + |l.users| + |l.groups|);
    }
  }

  ghost predicate Seen(es: seq<Entry>, tag: nat) {
    exists i :: 0 <= i < |es| && es[i].tag == tag
  }

  /**
    * The switch shared by acl_sync_mode() and acl_equiv_mode(): the permissions of each class, and whether there are
    * a mask and named entries.
    */
  method Collect(es: seq<Entry>)
    returns (owner: Perm, group: Perm, mask: Perm, other: Perm, haveMask: bool, named: bool)
    ensures owner == Last(es, USER_OBJ) && group == Last(es, GROUP_OBJ) && mask == Last(es, MASK)
    ensures other == Last(es, OTHER)
    ensures haveMask <==> Seen(es, MASK)
    ensures named <==> exists i :: 0 <= i < |es| && es[i].tag !in {USER_OBJ, GROUP_OBJ, MASK, OTHER}
  {
    hide Last;
    hide Seen;
    owner, group, mask, other, haveMask, named := 0, 0, 0, 0, false, false;
    var n := 0;
    assert es[..0] == [];
    NothingSeen();
    while n < |es|
      invariant n <= |es|
      invariant owner == Last(es[..n], USER_OBJ) && group == Last(es[..n], GROUP_OBJ)
      invariant mask == Last(es[..n], MASK) && other == Last(es[..n], OTHER)
      invariant haveMask <==> Seen(es[..n], MASK)
      invariant named <==> exists i :: 0 <= i < n && es[i].tag !in {USER_OBJ, GROUP_OBJ, MASK, OTHER}
    {
      var e := es[n];
      SeenMore(es, n);
      if e.tag == USER_OBJ {
        owner := e.perm;
      } else if e.tag == GROUP_OBJ {
        group := e.perm;
      } else if e.tag == MASK {
        mask, haveMask := e.perm, true;
      } else if e.tag == OTHER {
        other := e.perm;
      } else {
        named := true;
      }
      n := n + 1;
    }
    assert es[..n] == es;
  }

  lemma NothingSeen()
    ensures !Seen([], MASK) && Last([], USER_OBJ) == Last([], GROUP_OBJ) == Last([], MASK) == Last([], OTHER) == 0
  {
  }

  lemma SeenMore(es: seq<Entry>, n: nat)
    requires n < |es|
    ensures Seen(es[..n + 1], MASK) <==> Seen(es[..n], MASK) || es[n].tag == MASK
    ensures Last(es[..n + 1], USER_OBJ) == if es[n].tag == USER_OBJ then es[n].perm else Last(es[..n], USER_OBJ)
    ensures Last(es[..n + 1], GROUP_OBJ) == if es[n].tag == GROUP_OBJ then es[n].perm else Last(es[..n], GROUP_OBJ)
    ensures Last(es[..n + 1], MASK) == if es[n].tag == MASK then es[n].perm else Last(es[..n], MASK)
    ensures Last(es[..n + 1], OTHER) == if es[n].tag == OTHER then es[n].perm else Last(es[..n], OTHER)
  {
    assert es[..n + 1][..n] == es[..n] && es[..n + 1][n] == es[n];
    if es[n].tag == MASK {
      assert es[..n + 1][n].tag == MASK;
    }
    if Seen(es[..n], MASK) {
      var i :| 0 <= i < n && es[..n][i].tag == MASK;
      assert es[..n + 1][i].tag == MASK;
    }
    if Seen(es[..n + 1], MASK) && es[n].tag != MASK {
      var i :| 0 <= i < n + 1 && es[..n + 1][i].tag == MASK;
      assert es[..n][i].tag == MASK;
    }
  }

  lemma SeenEntries(l: List)
    requires Proper(l)
    ensures Seen(l.Entries(), MASK) <==> l.mask != []
    ensures (exists i :: 0 <= i < |l.Entries()| && l.Entries()[i].tag !in {USER_OBJ, GROUP_OBJ, MASK, OTHER}) <==>
      l.Named()
  {
    Places(l);
    hide Rwx;
    hide Ascending;
    var es, u, g := l.Entries(), |l.users|, |l.groups|;
    if l.users != [] {
      assert es[1].tag == USER;
    }
    if l.groups != [] {
      assert es[2 + u].tag == GROUP;
    }
    if l.mask != [] {
      assert es[2 + u + g].tag == MASK;
    }
  }

  /** The mode that shows any entries: the last of each kind counts. */
  ghost function Synced(es: seq<Entry>, mode: Perm): Perm {
    WithPerms(mode, Last(es, USER_OBJ), Last(es, if Seen(es, MASK) then MASK else GROUP_OBJ), Last(es, OTHER))
  }

  ghost predicate EquivEntries(es: seq<Entry>) {
    && |es| >= 3
    && (forall i :: 0 <= i < |es| ==> es[i].tag in {USER_OBJ, GROUP_OBJ, MASK, OTHER})
    && (Seen(es, MASK) ==> Last(es, MASK) == Last(es, GROUP_OBJ))
  }

  lemma SyncedIs(l: List, mode: Perm)
    requires Proper(l)
    ensures Synced(l.Entries(), mode) == Projected(l, mode)
  {
    hide Proper;
    hide WithPerms;
    LastEntries(l);
    SeenEntries(l);
  }

  lemma EquivIs(l: List)
    requires Proper(l)
    ensures EquivEntries(l.Entries()) <==> Equivalent(l)
  {
    LastEntries(l);
    SeenEntries(l);
    hide Last;
    hide Rwx;
    hide Ascending;
  }

  /** acl_sync_mode(): the mode shows the list; an empty or broken payload leaves it alone. */
  method SyncMode(es: seq<Entry>, size: nat, mode: Perm) returns (r: Perm)
    requires |es| == size / ENTRY_SIZE
    ensures r == if size == 0 || size % ENTRY_SIZE != 0 then mode else Synced(es, mode)
    ensures forall l :: Proper(l) && es == l.Entries() && size == ENTRY_SIZE * |es| ==> r == Projected(l, mode)
  {
    hide Proper;
    hide WithPerms;
    hide Last;
    hide Seen;
    forall l | Proper(l) && es == l.Entries() ensures Synced(es, mode) == Projected(l, mode) && |es| > 0 {
      SyncedIs(l, mode);
    }
    hide Projected;
    if size == 0 || size % ENTRY_SIZE != 0 {
      return mode;
    }
    var owner, group, mask, other, haveMask, named := Collect(es);
    if !haveMask {
      mask := group;
    }
    return WithPerms(mode, owner, mask, other);
  }

  /** acl_equiv_mode(): whether the list says no more than mode bits, and those bits. */
  method EquivMode(es: seq<Entry>, size: nat) returns (equiv: bool, mode: Perm)
    requires |es| == size / ENTRY_SIZE
    ensures equiv <==> size % ENTRY_SIZE == 0 && EquivEntries(es)
    ensures equiv ==> mode == Synced(es, 0)
    ensures forall l :: Proper(l) && es == l.Entries() && size == ENTRY_SIZE * |es| ==>
      (equiv <==> Equivalent(l)) && (equiv ==> mode == Projected(l, 0))
  {
    hide Proper;
    hide Last;
    hide WithPerms;
    hide Equivalent;
    forall l | Proper(l) && es == l.Entries()
      ensures Synced(es, 0) == Projected(l, 0) && (EquivEntries(es) <==> Equivalent(l))
    {
      SyncedIs(l, 0);
      EquivIs(l);
    }
    hide Projected;
    mode := 0;
    if size == 0 || size % ENTRY_SIZE != 0 || size < 3 * ENTRY_SIZE {
      return false, 0;
    }
    var owner, group, mask, other, haveMask, named := Collect(es);
    if named || (haveMask && mask != group) {
      return false, 0;
    }
    ShiftedIs(owner, group, other);
    return true, (owner << 6) | (group << 3) | other;
  }

  lemma ShiftedIs(owner: Perm, group: Perm, other: Perm)
    ensures (owner << 6) | (group << 3) | other == WithPerms(0, owner, group, other)
  {
  }

  // ---- chmod ----

  ghost function ChmodEntries(es: seq<Entry>, masked: bool, mode: Perm): seq<Entry> {
    seq(|es|, i requires 0 <= i < |es| => ModeEntry(es[i], masked, mode))
  }

  lemma ChmodIs(l: List, mode: Perm)
    requires Proper(l)
    ensures ChmodEntries(l.Entries(), l.mask != [], mode) == Chmodded(l, mode).Entries()
  {
    hide Rwx;
    hide Owner;
    hide Group;
    hide Other;
    Places(l);
    var a, b := ChmodEntries(l.Entries(), l.mask != [], mode), Chmodded(l, mode).Entries();
    assert |a| == |b|;
    var u, g := |l.users|, |l.groups|;
    forall i | 0 <= i < |a| ensures a[i] == b[i] {
      if i == 0 {
      } else if i < 1 + u {
        assert b[i] == l.users[i - 1];
      } else if i == 1 + u {
      } else if i < 2 + u + g {
        assert b[i] == l.groups[i - 2 - u];
      }
    }
  }

  /**
    * acl_chmod(), on the stored list: refused when it is not a proper one, else changed in place to show the new
    * mode.
    */
  method AclChmod(e: array<Entry>, mode: Perm) returns (ok: bool)
    modifies e
    ensures ok <==> Canonical(old(e[..]))
    ensures !ok ==> e[..] == old(e[..])
    ensures ok ==> forall l :: Proper(l) && old(e[..]) == l.Entries() ==> e[..] == Chmodded(l, mode).Entries()
  {
    hide Canonical;
    hide Proper;
    hide Chmodded;
    hide Owner;
    hide Group;
    hide Other;
    ghost var es := e[..];
    ok := AclValidate(e[..], ENTRY_SIZE * e.Length);
    if !ok {
      return;
    }
    var m := FindFirst(e[..], MASK);
    var masked := m.Some?;
    ChmodLoop(e, masked, mode);
    forall l | Proper(l) && es == l.Entries() ensures e[..] == Chmodded(l, mode).Entries() {
      FirstEntries(l, MASK);
      ChmodIs(l, mode);
    }
  }

  method ChmodLoop(e: array<Entry>, masked: bool, mode: Perm)
    modifies e
    ensures e[..] == ChmodEntries(old(e[..]), masked, mode)
  {
    hide Owner;
    hide Group;
    hide Other;
    for i := 0 to e.Length
      invariant forall j :: 0 <= j < i ==> e[j] == ModeEntry(old(e[j]), masked, mode)
      invariant forall j :: i <= j < e.Length ==> e[j] == old(e[j])
    {
      if e[i].tag == USER_OBJ {
        e[i] := e[i].(perm := Owner(mode));
      } else if e[i].tag == GROUP_OBJ {
        if !masked {
          e[i] := e[i].(perm := Group(mode));
        }
      } else if e[i].tag == MASK {
        e[i] := e[i].(perm := Group(mode));
      } else if e[i].tag == OTHER {
        e[i] := e[i].(perm := Other(mode));
      }
    }
  }

  // ---- inheritance ----

  /** A limit cut down by every entry of a kind. */
  function Limited(es: seq<Entry>, tag: nat, p: Perm): Perm {
    if es == [] then p
    else
      var q := Limited(es[..|es| - 1], tag, p);
      if es[|es| - 1].tag == tag then Cut(es[|es| - 1].perm, q) else q
  }

  /** The place of the last entry of a kind, or -1. */
  function LastAt(es: seq<Entry>, tag: nat): (k: int)
    ensures -1 <= k < |es| && (k >= 0 ==> es[k].tag == tag)
    ensures (k < 0 ==> forall i :: 0 <= i < |es| ==> es[i].tag != tag)
  {
    if es == [] then -1 else if es[|es| - 1].tag == tag then |es| - 1 else LastAt(es[..|es| - 1], tag)
  }

  /** Where the group's limit is: the mask, or the owning group where there is no mask. */
  function LimitAt(es: seq<Entry>): (k: int)
    ensures -1 <= k < |es|
  {
    if LastAt(es, MASK) >= 0 then LastAt(es, MASK) else LastAt(es, GROUP_OBJ)
  }

  /** The entries of the owner and of the others, cut down by the mode and by those of their kind before them. */
  function CutEnds(es: seq<Entry>, i: nat, mode: Perm): Entry
    requires i < |es|
  {
    if es[i].tag == USER_OBJ then es[i].(perm := Limited(es[..i + 1], USER_OBJ, Owner(mode)))
    else if es[i].tag == OTHER then es[i].(perm := Limited(es[..i + 1], OTHER, Other(mode)))
    else es[i]
  }

  ghost function CutEntries(es: seq<Entry>, n: nat, mode: Perm): seq<Entry>
    requires n <= |es|
  {
    seq(|es|, i requires 0 <= i < |es| => if i < n then CutEnds(es, i, mode) else es[i])
  }

  /** The group's limit, cut down too: what a new file gets from any entries. */
  ghost function MasqEntries(es: seq<Entry>, mode: Perm): seq<Entry> {
    var cut, k := CutEntries(es, |es|, mode), LimitAt(es);
    if k < 0 then cut else cut[k := cut[k].(perm := Cut(cut[k].perm, Group(mode)))]
  }

  ghost function MasqMode(es: seq<Entry>, mode: Perm): Perm {
    WithPerms(mode, Limited(es, USER_OBJ, Owner(mode)),
      if LimitAt(es) < 0 then Group(mode) else Cut(es[LimitAt(es)].perm, Group(mode)), Limited(es, OTHER, Other(mode)))
  }

  lemma {:induction false} LimitedOnce(es: seq<Entry>, tag: nat, p: Perm, k: nat, n: nat)
    requires Once(es, tag, k) && n <= |es|
    ensures Limited(es[..n], tag, p) == if n <= k then p else Cut(es[k].perm, p)
  {
    hide Cut;
    if n > 0 {
      LimitedOnce(es, tag, p, k, n - 1);
      assert es[..n][..n - 1] == es[..n - 1];
    }
  }

  lemma LimitIs(l: List)
    requires Proper(l)
    ensures LimitAt(l.Entries()) == if l.mask == [] then 1 + |l.users| else 2 + |l.users| + |l.groups|
    ensures LimitAt(l.Entries()) >= 0 && l.Entries()[LimitAt(l.Entries())].perm == GroupClass(l)
  {
    hide Proper;
    hide LastAt;
    Places(l);
  }

  lemma CanonicalCut(l: List, mode: Perm, i: nat)
    requires Proper(l) && i < |l.Entries()|
    ensures CutEnds(l.Entries(), i, mode) == var es := l.Entries();
      if i == 0 then es[i].(perm := Cut(es[i].perm, Owner(mode)))
      else if i == |es| - 1 then es[i].(perm := Cut(es[i].perm, Other(mode)))
      else es[i]
  {
    hide Proper;
    hide Cut;
    hide Owner;
    hide Other;
    hide Limited;
    hide List.Entries;
    var es := l.Entries();
    EndsOnce(l);
    LimitedOnce(es, USER_OBJ, Owner(mode), 0, i + 1);
    LimitedOnce(es, OTHER, Other(mode), |es| - 1, i + 1);
  }

  lemma EndsOnce(l: List)
    requires Proper(l)
    ensures var es := l.Entries(); |es| > 1 && Once(es, USER_OBJ, 0) && Once(es, OTHER, |es| - 1)
  {
    hide Rwx;
    Places(l);
  }

  /** On a canonical list that is the inherited list. */
  lemma CanonicalMasq(l: List, mode: Perm)
    requires Proper(l)
    ensures MasqEntries(l.Entries(), mode) == Inherited(l, mode).Entries()
  {
    hide Rwx;
    hide Cut;
    hide Owner;
    hide Group;
    hide Other;
    hide CutEnds;
    hide LimitAt;
    hide Ascending;
    Places(l);
    LimitIs(l);
    var a, b := MasqEntries(l.Entries(), mode), Inherited(l, mode).Entries();
    assert |a| == |b|;
    var u, g := |l.users|, |l.groups|;
    forall i | 0 <= i < |a| ensures a[i] == b[i] {
      CanonicalCut(l, mode, i);
      if i == 0 {
      } else if i < 1 + u {
        assert b[i] == l.users[i - 1];
      } else if i == 1 + u {
      } else if i < 2 + u + g {
        assert b[i] == l.groups[i - 2 - u];
      }
    }
  }

  lemma CanonicalMode(l: List, mode: Perm)
    requires Proper(l)
    ensures MasqMode(l.Entries(), mode) == Projected(Inherited(l, mode), mode)
  {
    hide Proper;
    hide Cut;
    hide Owner;
    hide Group;
    hide Other;
    hide WithPerms;
    hide LimitAt;
    hide Limited;
    var es := l.Entries();
    Places(l);
    LimitIs(l);
    LimitedOnce(es, USER_OBJ, Owner(mode), 0, |es|);
    LimitedOnce(es, OTHER, Other(mode), |es| - 1, |es|);
    assert es[..|es|] == es;
    ClassesIn(l, mode);
  }

  lemma ClassesIn(l: List, mode: Perm)
    requires Proper(l)
    ensures var m := Inherited(l, mode);
      && m.owner.perm == Cut(l.owner.perm, Owner(mode)) && m.other.perm == Cut(l.other.perm, Other(mode))
      && GroupClass(m) == Cut(GroupClass(l), Group(mode))
  {
    hide Rwx;
    hide Cut;
    hide Owner;
    hide Group;
    hide Other;
    hide Ascending;
  }

  lemma {:induction false} LimitedWithin(es: seq<Entry>, tag: nat, p: Perm)
    ensures Contains(p, Limited(es, tag, p)) && (Rwx(p) ==> Rwx(Limited(es, tag, p)))
    ensures es != [] && es[|es| - 1].tag == tag ==> Contains(es[|es| - 1].perm, Limited(es, tag, p))
  {
    hide Contains;
    hide Cut;
    ContainsSelf(p);
    if es != [] {
      var n := |es| - 1;
      var q := Limited(es[..n], tag, p);
      LimitedWithin(es[..n], tag, p);
      CutWithin(es[n].perm, q);
      if es[n].tag == tag {
        ContainsThrough(p, q, Cut(es[n].perm, q));
      }
      if Rwx(p) {
        RwxWithin(q, Cut(es[n].perm, q));
      }
    }
  }

  /** Whatever the entries of a payload are, a new file's entries are the same but for permissions taken away. */
  lemma MasqTakesAway(es: seq<Entry>, mode: Perm, i: nat)
    requires i < |es|
    ensures |MasqEntries(es, mode)| == |es|
    ensures MasqEntries(es, mode)[i].tag == es[i].tag && MasqEntries(es, mode)[i].id == es[i].id
    ensures Contains(es[i].perm, MasqEntries(es, mode)[i].perm)
  {
    hide Contains;
    hide Cut;
    hide Owner;
    hide Group;
    hide Other;
    hide Limited;
    hide LimitAt;
    var cut := CutEnds(es, i, mode);
    ContainsSelf(es[i].perm);
    LimitedWithin(es[..i + 1], USER_OBJ, Owner(mode));
    LimitedWithin(es[..i + 1], OTHER, Other(mode));
    assert Contains(es[i].perm, cut.perm);
    CutWithin(cut.perm, Group(mode));
    ContainsThrough(es[i].perm, cut.perm, Cut(cut.perm, Group(mode)));
  }

  // ---- the loop ----

  /** The working mode of the first loop after `n` entries. */
  ghost predicate Working(es: seq<Entry>, n: nat, mode: Perm, rwx: Perm) {
    && n <= |es| && PermBits(rwx) && Group(rwx) == Group(mode)
    && Owner(rwx) == Limited(es[..n], USER_OBJ, Owner(mode))
    && Other(rwx) == Limited(es[..n], OTHER, Other(mode))
  }

  lemma WorkingStart(es: seq<Entry>, mode: Perm)
    ensures Working(es, 0, mode, Perms(mode))
  {
    PermsOnly(mode);
  }

  lemma LimitedMore(es: seq<Entry>, n: nat, tag: nat, p: Perm)
    requires n < |es|
    ensures Limited(es[..n + 1], tag, p)
      == if es[n].tag == tag then Cut(es[n].perm, Limited(es[..n], tag, p)) else Limited(es[..n], tag, p)
  {
    hide Cut;
    assert es[..n + 1][..n] == es[..n];
  }

  lemma WorkingOwner(es: seq<Entry>, n: nat, mode: Perm, rwx: Perm)
    requires n < |es| && Working(es, n, mode, rwx) && es[n].tag == USER_OBJ
    ensures Cut(es[n].perm, Owner(rwx)) == CutEnds(es, n, mode).perm
    ensures Working(es, n + 1, mode, SetOwner(rwx, Cut(es[n].perm, Owner(rwx))))
  {
    hide SetOwner;
    hide Owner;
    hide Group;
    hide Other;
    hide Cut;
    hide Rwx;
    hide Limited;
    hide PermBits;
    LimitedMore(es, n, USER_OBJ, Owner(mode));
    LimitedMore(es, n, OTHER, Other(mode));
    LimitedWithin(es[..n + 1], USER_OBJ, Owner(mode));
    SetOwnerReads(rwx, Cut(es[n].perm, Owner(rwx)));
  }

  lemma WorkingOther(es: seq<Entry>, n: nat, mode: Perm, rwx: Perm)
    requires n < |es| && Working(es, n, mode, rwx) && es[n].tag == OTHER
    ensures Cut(es[n].perm, Other(rwx)) == CutEnds(es, n, mode).perm
    ensures Working(es, n + 1, mode, SetOther(rwx, Cut(es[n].perm, Other(rwx))))
  {
    hide SetOther;
    hide Owner;
    hide Group;
    hide Other;
    hide Cut;
    hide Rwx;
    hide Limited;
    hide PermBits;
    LimitedMore(es, n, USER_OBJ, Owner(mode));
    LimitedMore(es, n, OTHER, Other(mode));
    LimitedWithin(es[..n + 1], OTHER, Other(mode));
    SetOtherReads(rwx, Cut(es[n].perm, Other(rwx)));
  }

  lemma WorkingOn(es: seq<Entry>, n: nat, mode: Perm, rwx: Perm)
    requires n < |es| && Working(es, n, mode, rwx) && es[n].tag != USER_OBJ && es[n].tag != OTHER
    ensures Working(es, n + 1, mode, rwx)
  {
    hide Owner;
    hide Group;
    hide Other;
    hide Cut;
    hide Limited;
    hide PermBits;
    LimitedMore(es, n, USER_OBJ, Owner(mode));
    LimitedMore(es, n, OTHER, Other(mode));
  }

  /** The mode that comes out shows the entries that come out. */
  lemma WorkingEnd(es: seq<Entry>, mode: Perm, rwx: Perm, group: Perm)
    requires Working(es, |es|, mode, rwx) && Rwx(group)
    requires group == if LimitAt(es) < 0 then Group(mode) else Cut(es[LimitAt(es)].perm, Group(mode))
    ensures FoldInto(mode, SetGroup(rwx, group)) == MasqMode(es, mode)
  {
    hide SetGroup;
    hide WithPerms;
    hide FoldInto;
    hide PermBits;
    hide Owner;
    hide Group;
    hide Other;
    hide Cut;
    hide Rwx;
    hide Limited;
    hide LimitAt;
    assert es[..|es|] == es;
    SetGroupReads(rwx, group);
    Folded(mode, SetGroup(rwx, group));
  }

  /** One turn of the first loop: the ends are cut down, and the mode with them. */
  method CutStep(out: array<Entry>, n: nat, rwx: Perm, ghost mode: Perm, ghost es: seq<Entry>) returns (rwx': Perm)
    requires n < |es| <= out.Length && out[n] == es[n] && Working(es, n, mode, rwx)
    modifies out
    ensures out[..] == old(out[..])[n := CutEnds(es, n, mode)] && Working(es, n + 1, mode, rwx')
  {
    hide Owner;
    hide Group;
    hide Other;
    hide Cut;
    hide SetOwner;
    hide SetOther;
    hide Limited;
    hide Working;
    rwx' := rwx;
    if out[n].tag == USER_OBJ {
      WorkingOwner(es, n, mode, rwx);
      out[n] := out[n].(perm := Cut(out[n].perm, Owner(rwx)));
      rwx' := SetOwner(rwx, out[n].perm);
    } else if out[n].tag == OTHER {
      WorkingOther(es, n, mode, rwx);
      out[n] := out[n].(perm := Cut(out[n].perm, Other(rwx)));
      rwx' := SetOther(rwx, out[n].perm);
    } else {
      WorkingOn(es, n, mode, rwx);
    }
  }

  /** The entries the loop remembers, and whether it saw one that has to be stored. */
  datatype Found = Found(group: int, mask: int, nontrivial: bool)

  function Note(x: Found, e: Entry, n: nat): Found {
    if e.tag == GROUP_OBJ then x.(group := n)
    else if e.tag == MASK then x.(mask := n, nontrivial := true)
    else if e.tag == USER || e.tag == GROUP then x.(nontrivial := true)
    else x
  }

  ghost predicate Nontrivial(es: seq<Entry>) {
    exists j :: 0 <= j < |es| && es[j].tag in {MASK, USER, GROUP}
  }

  ghost function Notes(es: seq<Entry>): Found {
    Found(LastAt(es, GROUP_OBJ), LastAt(es, MASK), Nontrivial(es))
  }

  lemma NotesMore(es: seq<Entry>, n: nat)
    requires n < |es|
    ensures Notes(es[..n + 1]) == Note(Notes(es[..n]), es[n], n)
  {
    var b := es[..n + 1];
    assert b[..n] == es[..n] && b[n] == es[n];
    assert forall j :: 0 <= j < n ==> b[j] == es[..n][j];
    if Nontrivial(es[..n]) {
      var j :| 0 <= j < n && es[..n][j].tag in {MASK, USER, GROUP};
      assert b[j].tag in {MASK, USER, GROUP};
    }
  }

  lemma UpdateFront(a: seq<Entry>, n: nat, m: nat, e: Entry)
    requires n < m <= |a|
    ensures a[n := e][..m] == a[..m][n := e] && a[n := e][m..] == a[m..]
  {
  }

  /** The first loop of acl_default_masq(), over the first `nents` entries. */
  method CutLoop(out: array<Entry>, nents: nat, mode: Perm) returns (rwx: Perm, x: Found)
    requires nents <= out.Length
    modifies out
    ensures out[..nents] == CutEntries(old(out[..nents]), nents, mode) && out[nents..] == old(out[nents..])
    ensures Working(old(out[..nents]), nents, mode, rwx) && x == Notes(old(out[..nents]))
  {
    hide Working;
    hide CutEntries;
    hide CutEnds;
    hide Note;
    hide Notes;
    ghost var es := out[..nents];
    WorkingStart(es, mode);
    CutNone(es, mode);
    rwx := Perms(mode);
    x := Found(-1, -1, false);
    NotesNone();
    assert es[..0] == [];
    for n := 0 to nents
      invariant out[..nents] == CutEntries(es, n, mode) && out[nents..] == old(out[nents..])
      invariant Working(es, n, mode, rwx) && x == Notes(es[..n])
    {
      CutMore(es, n, mode);
      NotesMore(es, n);
      assert out[n] == out[..nents][n];
      x := Note(x, out[n], n);
      UpdateFront(out[..], n, nents, CutEnds(es, n, mode));
      assert out[..][..nents] == out[..nents] && out[..][nents..] == out[nents..];
      rwx := CutStep(out, n, rwx, mode, es);
      assert out[..][..nents] == out[..nents] && out[..][nents..] == out[nents..];
    }
    assert es[..|es|] == es;
  }

  lemma NotesNone()
    ensures Notes([]) == Found(-1, -1, false)
  {
  }

  lemma CutNone(es: seq<Entry>, mode: Perm)
    ensures CutEntries(es, 0, mode) == es
  {
  }

  lemma CutMore(es: seq<Entry>, n: nat, mode: Perm)
    requires n < |es|
    ensures |CutEntries(es, n, mode)| == |es| && CutEntries(es, n, mode)[n] == es[n]
    ensures CutEntries(es, n, mode)[n := CutEnds(es, n, mode)] == CutEntries(es, n + 1, mode)
  {
    hide CutEnds;
  }

  /** The entry with the group's limit is not one of the ends. */
  lemma LimitUncut(es: seq<Entry>, mode: Perm)
    requires LimitAt(es) >= 0
    ensures |CutEntries(es, |es|, mode)| == |es| && CutEntries(es, |es|, mode)[LimitAt(es)] == es[LimitAt(es)]
  {
    hide LastAt;
    hide Limited;
  }

  lemma NontrivialIs(l: List)
    requires Proper(l)
    ensures Nontrivial(l.Entries()) <==> l.mask != []
  {
    hide Rwx;
    hide Ascending;
    Places(l);
    if l.mask != [] {
      assert l.Entries()[2 + |l.users| + |l.groups|].tag == MASK;
    }
  }

  lemma GroupKept(es: seq<Entry>, mode: Perm, rwx: Perm)
    requires Working(es, |es|, mode, rwx)
    ensures Group(rwx) == Group(mode)
  {
  }

  /** The second half of acl_default_masq(): the group's limit is cut down. */
  method CutLimit(out: array<Entry>, x: Found, mode: Perm, rwx: Perm, ghost es: seq<Entry>) returns (modeOut: Perm)
    requires |es| <= out.Length && out[..|es|] == CutEntries(es, |es|, mode) && Working(es, |es|, mode, rwx)
    requires x == Notes(es)
    modifies out
    ensures out[..|es|] == MasqEntries(es, mode) && out[|es|..] == old(out[|es|..]) && modeOut == MasqMode(es, mode)
  {
    hide Owner;
    hide Group;
    hide Other;
    hide Cut;
    hide SetGroup;
    hide FoldInto;
    hide Working;
    hide MasqMode;
    hide CutEntries;
    hide Nontrivial;
    hide LastAt;
    hide Rwx;
    GroupKept(es, mode, rwx);
    var k := if x.mask >= 0 then x.mask else x.group;
    var p := rwx;
    if k >= 0 {
      LimitUncut(es, mode);
      CutDown(Group(rwx), es[k].perm);
      CutSwap(Group(rwx), es[k].perm);
      assert out[k] == out[..|es|][k];
      out[k] := out[k].(perm := Cut(out[k].perm, Group(rwx)));
      WorkingEnd(es, mode, rwx, out[k].perm);
      p := SetGroup(rwx, out[k].perm);
    } else {
      WorkingEnd(es, mode, rwx, Group(mode));
      SetSame(es, mode, rwx);
    }
    modeOut := FoldInto(mode, p);
  }

  lemma CutSwap(a: Perm, b: Perm)
    ensures Cut(a, b) == Cut(b, a)
  {
  }

  lemma SetSame(es: seq<Entry>, mode: Perm, rwx: Perm)
    requires Working(es, |es|, mode, rwx)
    ensures SetGroup(rwx, Group(mode)) == rwx
  {
    SameGroup(rwx);
  }

  lemma SameGroup(rwx: Perm)
    ensures SetGroup(rwx, Group(rwx)) == rwx
  {
  }

  /**
    * acl_default_masq(): the list a new file inherits, in `out`, and the mode that shows it; `nontrivial` when the list
    * has to be stored because the mode does not say it all. A payload that cannot be a list leaves everything alone.
    */
  method DefaultMasq(dfl: seq<Entry>, size: nat, mode: Perm, out: array<Entry>, outSize: nat)
    returns (modeOut: Perm, nontrivial: bool)
    requires |dfl| == size / ENTRY_SIZE && out.Length == outSize / ENTRY_SIZE
    modifies out
    ensures size < 3 * ENTRY_SIZE || size % ENTRY_SIZE != 0 || outSize < size ==>
      out[..] == old(out[..]) && modeOut == mode && !nontrivial
    ensures size >= 3 * ENTRY_SIZE && size % ENTRY_SIZE == 0 && outSize >= size ==>
      && out[..] == MasqEntries(dfl, mode) + old(out[..])[|dfl|..] && modeOut == MasqMode(dfl, mode)
           && (nontrivial <==> Nontrivial(dfl))
    ensures forall l :: Proper(l) && dfl == l.Entries() && size == ENTRY_SIZE * |dfl| && outSize >= size ==>
      && out[..] == Inherited(l, mode).Entries() + old(out[..])[|dfl|..]
           && modeOut == Projected(Inherited(l, mode), mode) && (nontrivial <==> l.mask != [])
  {
    hide Proper;
    hide Working;
    hide Inherited;
    hide Projected;
    hide MasqMode;
    hide MasqEntries;
    hide CutEntries;
    hide Nontrivial;
    hide LastAt;
    forall l | Proper(l) && dfl == l.Entries()
      ensures |dfl| >= 3 && MasqEntries(dfl, mode) == Inherited(l, mode).Entries()
      ensures MasqMode(dfl, mode) == Projected(Inherited(l, mode), mode)
      ensures Nontrivial(dfl) <==> l.mask != []
    {
      CanonicalMasq(l, mode);
      CanonicalMode(l, mode);
      NontrivialIs(l);
    }
    if size < 3 * ENTRY_SIZE || size % ENTRY_SIZE != 0 || outSize < size {
      return mode, false;
    }
    forall i | 0 <= i < |dfl| {
      out[i] := dfl[i];
    }
    assert out[..|dfl|] == dfl && out[|dfl|..] == old(out[|dfl|..]);
    var rwx, x := CutLoop(out, |dfl|, mode);
    modeOut := CutLimit(out, x, mode, rwx, dfl);
    nontrivial := x.nontrivial;
    assert out[..] == out[..|dfl|] + out[|dfl|..];
    assert old(out[..])[|dfl|..] == old(out[|dfl|..]);
  }

  // ---- the whole check ----

  /** A payload stands for one list only. */
  lemma EntriesDetermine(l: List, m: List)
    requires Proper(l) && Proper(m) && l.Entries() == m.Entries()
    ensures l == m
  {
    hide Rwx;
    hide Ascending;
    Places(l);
    Places(m);
    var es := l.Entries();
    assert |l.users| == |m.users|;
    assert l.users == es[1..1 + |l.users|] && m.users == es[1..1 + |l.users|];
    assert |l.mask| == |m.mask| by {
      if l.mask != [] {
        assert es[2 + |l.users| + |l.groups|].tag == MASK;
      }
      if m.mask != [] {
        assert es[2 + |m.users| + |m.groups|].tag == MASK;
      }
    }
    assert l.groups == es[2 + |l.users|..2 + |l.users| + |l.groups|]
      && m.groups == es[2 + |l.users|..2 + |l.users| + |l.groups|];
    if l.mask != [] {
      assert l.mask == [l.mask[0]] && m.mask == [m.mask[0]];
    }
  }

  /** What getxattr() answers: no list stored, some other error, or a payload of `size` bytes. */
  datatype Fetched = NoList | Failed(errno: int) | Payload(es: seq<Entry>, size: nat)
  {
    predicate Sound() { Payload? ==> |es| == size / ENTRY_SIZE }
  }

  datatype Verdict = Granted | Denied | Corrupt | Error(errno: int)

  /**
    * acl_permission(): decided by the stored list, or by the mode where none is stored; a payload that is no list is
    * an error, and so is a failed read.
    */
  method AclPermission(stored: Fetched, mode: Perm, f: File, c: Caller, want: Perm) returns (r: Verdict)
    requires stored.Sound()
    ensures stored.NoList? ==> r == if Decide(Trivial(mode), f, c, want) then Granted else Denied
    ensures stored.Failed? ==> r == Error(stored.errno)
    ensures stored.Payload? ==> (r == Corrupt <==> stored.size % ENTRY_SIZE != 0 || !Canonical(stored.es)) && !r.Error?
    ensures forall l :: stored.Payload? && stored.size % ENTRY_SIZE == 0 && Proper(l) && stored.es == l.Entries() ==>
      r == if Decide(l, f, c, want) then Granted else Denied
  {
    hide Proper;
    hide Decide;
    hide DecideEntries;
    match stored
    case NoList =>
      TrivialProper(mode);
      var ok := CheckEntries(Trivial(mode).Entries(), f, c, want);
      return if ok then Granted else Denied;
    case Failed(errno) =>
      return Error(errno);
    case Payload(es, size) =>
      var valid := AclValidate(es, size);
      if !valid {
        return Corrupt;
      }
      var ok := CheckEntries(es, f, c, want);
      return if ok then Granted else Denied;
  }
}
