/**
 A file whose list could not be stored is left with its folded mode (kernel/acl.c, acl_inherit_default()). When
 the mode decides no more than the list would have, and when no less.
 */
module AclFold {
  import opened Prelude
  import opened Bits
  import opened Acl
  import opened AclDecide
  import opened AclChange

  /** What the mode alone decides. */
  ghost predicate FoldDecides(m: List, mode: Perm, f: File, c: Caller, want: Perm) {
    Decide(Trivial(Projected(m, mode)), f, c, want)
  }

  /**
    * The owning group and each named user may do all that the mask lets through, and nobody named less than the
    * others.
    */
  ghost predicate FoldSafe(m: List) {
    m.mask == [] ||
      (var k, o := m.mask[0].perm, m.other.perm;
       && Contains(m.group.perm, k)
       && (forall i :: 0 <= i < |m.users| ==> Contains(m.users[i].perm, k) && Contains(Cut(k, m.users[i].perm), o))
       && (forall i :: 0 <= i < |m.groups| ==> Contains(Cut(k, m.groups[i].perm), o)))
  }

  /** Nobody named may do more than the others. */
  ghost predicate FoldLosesNothing(m: List) {
    m.mask == [] ||
      (var k, o := m.mask[0].perm, m.other.perm;
       && (forall i :: 0 <= i < |m.users| ==> Contains(o, Cut(k, m.users[i].perm)))
       && (forall i :: 0 <= i < |m.groups| ==> Contains(o, Cut(k, m.groups[i].perm))))
  }

  lemma FoldIs(m: List, mode: Perm, f: File, c: Caller, want: Perm)
    requires Proper(m)
    ensures FoldDecides(m, mode, f, c, want)
      == if f.uid == c.uid then Contains(m.owner.perm, want)
      else if f.gid in c.groups then Contains(GroupClass(m), want) else Contains(m.other.perm, want)
  {
    var t := Trivial(Projected(m, mode));
    WithPermsReads(mode, m.owner.perm, GroupClass(m), m.other.perm);
    OnlyGroup(t, f, c);
    NothingMore(GroupClass(m));
    hide Contains;
    hide Cut;
    hide Both;
    hide WithPerms;
    hide Owner;
    hide Group;
    hide Other;
  }

  /** The ids of a list, and the numbers up to its length: one of them is nobody's. */
  ghost function Ids(es: seq<Entry>): (ids: set<nat>)
    ensures |ids| <= |es| && forall i :: 0 <= i < |es| ==> es[i].id in ids
  {
    if es == [] then {}
    else
      var ids := Ids(es[..|es| - 1]);
      assert forall i :: 0 <= i < |es| - 1 ==> es[i] == es[..|es| - 1][i];
      ids + {es[|es| - 1].id}
  }

  ghost function UpTo(n: nat): set<nat> {
    if n == 0 then {0} else UpTo(n - 1) + {n}
  }

  lemma {:induction false} UpToSize(n: nat)
    ensures |UpTo(n)| == n + 1 && forall k :: k in UpTo(n) ==> k <= n
  {
    if n > 0 {
      UpToSize(n - 1);
      assert n !in UpTo(n - 1);
    }
  }

  lemma {:induction false} NotAll(a: set<nat>, b: set<nat>)
    requires |a| > |b|
    ensures exists k :: k in a && k !in b
    decreases |b|
  {
    var k :| k in a;
    if k in b {
      NotAll(a - {k}, b - {k});
    }
  }

  ghost function Fresh(es: seq<Entry>): (n: nat)
    ensures n <= |es| && forall i :: 0 <= i < |es| ==> es[i].id != n
  {
    UpToSize(|es|);
    NotAll(UpTo(|es|), Ids(es));
    var n :| n in UpTo(|es|) && n !in Ids(es);
    n
  }

  function Besides(id: nat): (n: nat)
    ensures n <= 1 && n != id
  {
    if id == 0 then 1 else 0
  }

  lemma {:induction false} NamedAt(us: seq<Entry>, i: nat)
    requires Ascending(us, USER) && i < |us|
    ensures Named(us, us[i].id) == Some(us[i].perm)
  {
    hide Rwx;
    if i > 0 {
      assert forall j :: 0 <= j < |us| - 1 ==> us[1..][j] == us[j + 1];
      assert Ascending(us[1..], USER);
      NamedAt(us[1..], i - 1);
      assert us[1..][i - 1] == us[i];
    }
  }

  lemma {:induction false} SumUpTo(es: seq<Entry>, f: File, c: Caller, p: Perm)
    requires forall i :: 0 <= i < |es| && Matches(es[i], f, c) ==> Contains(p, es[i].perm)
    ensures Contains(p, Sum(es, f, c))
  {
    hide Contains;
    hide Both;
    ContainsSelf(p);
    if es != [] {
      assert forall i :: 0 <= i < |es| - 1 ==> es[1..][i] == es[i + 1];
      SumUpTo(es[1..], f, c, p);
      BothWithin(p, if Matches(es[0], f, c) then es[0].perm else 0, Sum(es[1..], f, c));
    }
  }

  lemma {:induction false} CutSumUpTo(es: seq<Entry>, f: File, c: Caller, k: Perm, o: Perm)
    requires forall i :: 0 <= i < |es| && Matches(es[i], f, c) ==> Contains(o, Cut(k, es[i].perm))
    ensures Contains(o, Cut(k, Sum(es, f, c)))
  {
    hide Contains;
    hide Both;
    hide Cut;
    NothingCut(k, o);
    if es != [] {
      assert forall i :: 0 <= i < |es| - 1 ==> es[1..][i] == es[i + 1];
      CutSumUpTo(es[1..], f, c, k, o);
      SumWithin(k, if Matches(es[0], f, c) then es[0].perm else 0, Sum(es[1..], f, c), o);
    }
  }

  lemma NothingCut(k: Perm, o: Perm)
    ensures Contains(o, Cut(k, 0))
  {
  }

  // ---- no more ----

  lemma SafeUser(m: List, mode: Perm, f: File, c: Caller, want: Perm)
    requires Proper(m) && FoldSafe(m) && FoldDecides(m, mode, f, c, want) && f.uid != c.uid
    requires Named(m.users, c.uid).Some?
    ensures Decide(m, f, c, want)
  {
    hide Contains;
    hide Cut;
    hide Rwx;
    hide FoldDecides;
    FoldIs(m, mode, f, c, want);
    NamedIs(m.users, c.uid);
    var i :| 0 <= i < |m.users| && m.users[i].id == c.uid && m.users[i].perm == Named(m.users, c.uid).value;
    var k := m.mask[0].perm;
    if f.gid in c.groups {
      ContainsThrough(m.users[i].perm, k, want);
      ContainsBoth(k, m.users[i].perm, want);
    } else {
      ContainsThrough(Cut(k, m.users[i].perm), m.other.perm, want);
    }
  }

  lemma SafeGroup(m: List, mode: Perm, f: File, c: Caller, want: Perm)
    requires Proper(m) && FoldSafe(m) && FoldDecides(m, mode, f, c, want) && f.uid != c.uid
    requires Named(m.users, c.uid).None?
    requires InGroupClass(m, f, c) && m.mask != []
    ensures Decide(m, f, c, want)
  {
    hide Contains;
    hide Cut;
    hide Rwx;
    hide Ascending;
    hide FoldDecides;
    FoldIs(m, mode, f, c, want);
    GroupClassIs(m, f, c);
    var es, k := [m.group] + m.groups, m.mask[0].perm;
    if f.gid in c.groups {
      ContainsThrough(m.group.perm, k, want);
      SumAtLeast(es, f, c, want, 0);
      ContainsBoth(k, Sum(es, f, c), want);
    } else {
      var i :| 0 <= i < |m.groups| && m.groups[i].id in c.groups;
      assert es[i + 1] == m.groups[i];
      ContainsThrough(Cut(k, m.groups[i].perm), m.other.perm, want);
      ContainsEach(k, m.groups[i].perm, want);
      GroupTag(m, i);
      SumAtLeast(es, f, c, want, i + 1);
      ContainsBoth(k, Sum(es, f, c), want);
    }
  }

  lemma GroupTag(m: List, i: nat)
    requires Proper(m) && i < |m.groups|
    ensures m.groups[i].tag == GROUP
  {
    hide Rwx;
  }

  lemma SafeDecides(m: List, mode: Perm, f: File, c: Caller, want: Perm)
    requires Proper(m) && FoldSafe(m) && FoldDecides(m, mode, f, c, want)
    ensures Decide(m, f, c, want)
  {
    hide FoldSafe;
    hide Contains;
    hide Cut;
    hide Ascending;
    hide Rwx;
    if m.mask == [] {
      EquivalentDecides(m, mode, f, c, want);
    } else if f.uid != c.uid && Named(m.users, c.uid).Some? {
      SafeUser(m, mode, f, c, want);
    } else if f.uid != c.uid && InGroupClass(m, f, c) {
      SafeGroup(m, mode, f, c, want);
    } else {
      GroupClassIs(m, f, c);
      FoldIs(m, mode, f, c, want);
    }
  }

  /**
    * The callers who find out: one of the owning group alone, each named user inside and outside it, one of each
    * named group.
    */
  ghost function Stranger(m: List): (uid: nat)
    ensures forall i :: 0 <= i < |m.users| ==> m.users[i].id != uid
  {
    Fresh(m.users)
  }

  ghost function Alien(m: List): (gid: nat)
    ensures forall i :: 0 <= i < |m.groups| ==> m.groups[i].id != gid
  {
    Fresh(m.groups)
  }

  lemma StrangerUnnamed(m: List)
    ensures Named(m.users, Stranger(m)).None?
  {
    NamedIs(m.users, Stranger(m));
  }

  /** What a member of the owning group alone gets. */
  lemma OwnGroupDecides(m: List, want: Perm)
    requires Proper(m) && m.mask != []
    ensures Decide(m, File(Besides(Stranger(m)), Alien(m)), Caller(Stranger(m), {Alien(m)}), want) ==>
      Contains(m.group.perm, want)
  {
    hide Contains;
    hide Cut;
    hide Both;
    hide Rwx;
    var f, c := File(Besides(Stranger(m)), Alien(m)), Caller(Stranger(m), {Alien(m)});
    var es := [m.group] + m.groups;
    StrangerUnnamed(m);
    GroupClassIs(m, f, c);
    if Decide(m, f, c, want) {
      ContainsEach(MaskOf(m), Sum(es, f, c), want);
      ContainsSelf(m.group.perm);
      forall i | 0 < i < |es| ensures !Matches(es[i], f, c) {
        assert es[i] == m.groups[i - 1];
      }
      SumUpTo(es, f, c, m.group.perm);
      ContainsThrough(m.group.perm, Sum(es, f, c), want);
    }
  }

  /** One named group alone adds up to its own entry. */
  lemma NamedGroupSum(m: List, g: nat, f: File, c: Caller)
    requires Proper(m) && g < |m.groups| && c.groups == {m.groups[g].id} && f.gid != m.groups[g].id
    ensures Contains(m.groups[g].perm, Sum([m.group] + m.groups, f, c))
    ensures Contains(Sum([m.group] + m.groups, f, c), m.groups[g].perm)
  {
    hide Contains;
    hide Both;
    hide Rwx;
    hide Sum;
    var es, p := [m.group] + m.groups, m.groups[g].perm;
    ContainsSelf(p);
    assert es[g + 1] == m.groups[g];
    SumAtLeast(es, f, c, p, g + 1);
    forall i | 0 <= i < |es| && Matches(es[i], f, c) ensures Contains(p, es[i].perm) {
      assert es[i] == m.groups[i - 1];
      SameId(m.groups, GROUP, i - 1, g);
    }
    SumUpTo(es, f, c, p);
  }

  /** What a member of one named group alone gets. */
  lemma NamedGroupDecides(m: List, g: nat, want: Perm)
    requires Proper(m) && m.mask != [] && g < |m.groups|
    ensures Decide(m, File(Besides(Stranger(m)), Alien(m)), Caller(Stranger(m), {m.groups[g].id}), want) <==>
      Contains(Cut(m.mask[0].perm, m.groups[g].perm), want)
  {
    hide Contains;
    hide Cut;
    hide Sum;
    hide Ascending;
    hide Rwx;
    hide Stranger;
    hide Alien;
    var f, c := File(Besides(Stranger(m)), Alien(m)), Caller(Stranger(m), {m.groups[g].id});
    var k, p, sum := m.mask[0].perm, m.groups[g].perm, Sum([m.group] + m.groups, f, c);
    StrangerUnnamed(m);
    GroupClassIs(m, f, c);
    NamedGroupSum(m, g, f, c);
    if Contains(Cut(k, sum), want) {
      ContainsEach(k, sum, want);
      ContainsThrough(p, sum, want);
      ContainsBoth(k, p, want);
    }
    if Contains(Cut(k, p), want) {
      ContainsEach(k, p, want);
      ContainsThrough(sum, p, want);
      ContainsBoth(k, sum, want);
    }
  }

  lemma NamedUserDecides(m: List, u: nat, gid: nat, gs: set<nat>, want: Perm)
    requires Proper(m) && m.mask != [] && u < |m.users|
    ensures Decide(m, File(Besides(m.users[u].id), gid), Caller(m.users[u].id, gs), want) <==>
      Contains(Cut(m.mask[0].perm, m.users[u].perm), want)
  {
    hide Contains;
    hide Cut;
    hide Rwx;
    NamedAt(m.users, u);
  }

  lemma NeedsGroup(m: List, mode: Perm)
    requires Proper(m) && m.mask != []
    requires forall f, c, want :: FoldDecides(m, mode, f, c, want) ==> Decide(m, f, c, want)
    ensures Contains(m.group.perm, m.mask[0].perm)
  {
    hide Contains;
    hide FoldDecides;
    hide Proper;
    hide Decide;
    var k := m.mask[0].perm;
    var f, c := File(Besides(Stranger(m)), Alien(m)), Caller(Stranger(m), {Alien(m)});
    ContainsSelf(k);
    FoldIs(m, mode, f, c, k);
    OwnGroupDecides(m, k);
  }

  lemma NeedsUser(m: List, mode: Perm, u: nat)
    requires Proper(m) && m.mask != [] && u < |m.users|
    requires forall f, c, want :: FoldDecides(m, mode, f, c, want) ==> Decide(m, f, c, want)
    ensures Contains(m.users[u].perm, m.mask[0].perm) && Contains(Cut(m.mask[0].perm, m.users[u].perm), m.other.perm)
  {
    hide Contains;
    hide Cut;
    hide FoldDecides;
    hide Proper;
    hide Decide;
    var k, o, id := m.mask[0].perm, m.other.perm, m.users[u].id;
    ContainsSelf(k);
    ContainsSelf(o);
    FoldIs(m, mode, File(Besides(id), 0), Caller(id, {0}), k);
    NamedUserDecides(m, u, 0, {0}, k);
    ContainsEach(k, m.users[u].perm, k);
    FoldIs(m, mode, File(Besides(id), 0), Caller(id, {}), o);
    NamedUserDecides(m, u, 0, {}, o);
  }

  lemma NeedsGroups(m: List, mode: Perm, g: nat)
    requires Proper(m) && m.mask != [] && g < |m.groups|
    requires forall f, c, want :: FoldDecides(m, mode, f, c, want) ==> Decide(m, f, c, want)
    ensures Contains(Cut(m.mask[0].perm, m.groups[g].perm), m.other.perm)
  {
    hide Contains;
    hide Cut;
    hide FoldDecides;
    hide Proper;
    hide Decide;
    var o := m.other.perm;
    var f, c := File(Besides(Stranger(m)), Alien(m)), Caller(Stranger(m), {m.groups[g].id});
    ContainsSelf(o);
    FoldIs(m, mode, f, c, o);
    NamedGroupDecides(m, g, o);
  }

  /** For all callers and requests: the folded mode grants no more than the list exactly when the entries say so. */
  lemma FoldGrantsNoMoreIff(m: List, mode: Perm)
    requires Proper(m)
    ensures (forall f, c, want :: FoldDecides(m, mode, f, c, want) ==> Decide(m, f, c, want)) <==> FoldSafe(m)
  {
    hide Contains;
    hide Cut;
    hide FoldDecides;
    hide Proper;
    hide Decide;
    if FoldSafe(m) {
      forall f, c, want | FoldDecides(m, mode, f, c, want) ensures Decide(m, f, c, want) {
        SafeDecides(m, mode, f, c, want);
      }
    }
    if m.mask != [] && forall f, c, want :: FoldDecides(m, mode, f, c, want) ==> Decide(m, f, c, want) {
      NeedsGroup(m, mode);
      forall u | 0 <= u < |m.users|
        ensures Contains(m.users[u].perm, m.mask[0].perm)
        ensures Contains(Cut(m.mask[0].perm, m.users[u].perm), m.other.perm)
      {
        NeedsUser(m, mode, u);
      }
      forall g | 0 <= g < |m.groups| ensures Contains(Cut(m.mask[0].perm, m.groups[g].perm), m.other.perm) {
        NeedsGroups(m, mode, g);
      }
    }
  }

  // ---- no less ----

  lemma LosesNothing(m: List, mode: Perm, f: File, c: Caller, want: Perm)
    requires Proper(m) && FoldLosesNothing(m) && Decide(m, f, c, want) && m.mask != [] && f.uid != c.uid
    ensures FoldDecides(m, mode, f, c, want)
  {
    hide Contains;
    hide Cut;
    hide Rwx;
    hide FoldDecides;
    FoldIs(m, mode, f, c, want);
    GroupClassIs(m, f, c);
    MaskLimits(m, f, c, want);
    var es, k, o := [m.group] + m.groups, m.mask[0].perm, m.other.perm;
    if f.gid !in c.groups {
      if Named(m.users, c.uid).Some? {
        NamedIs(m.users, c.uid);
        var i :| 0 <= i < |m.users| && m.users[i].id == c.uid && m.users[i].perm == Named(m.users, c.uid).value;
        ContainsThrough(o, Cut(k, m.users[i].perm), want);
      } else if InGroupClass(m, f, c) {
        forall i | 0 <= i < |es| && Matches(es[i], f, c) ensures Contains(o, Cut(k, es[i].perm)) {
          assert i > 0 ==> es[i] == m.groups[i - 1];
        }
        CutSumUpTo(es, f, c, k, o);
        ContainsThrough(o, Cut(k, Sum(es, f, c)), want);
      }
    }
  }

  lemma KeepsUser(m: List, mode: Perm, u: nat)
    requires Proper(m) && m.mask != [] && u < |m.users|
    requires forall f, c, want :: Decide(m, f, c, want) ==> FoldDecides(m, mode, f, c, want)
    ensures Contains(m.other.perm, Cut(m.mask[0].perm, m.users[u].perm))
  {
    hide Contains;
    hide Cut;
    hide FoldDecides;
    hide Proper;
    hide Decide;
    var want, id := Cut(m.mask[0].perm, m.users[u].perm), m.users[u].id;
    ContainsSelf(want);
    NamedUserDecides(m, u, 0, {}, want);
    FoldIs(m, mode, File(Besides(id), 0), Caller(id, {}), want);
  }

  lemma KeepsGroup(m: List, mode: Perm, g: nat)
    requires Proper(m) && m.mask != [] && g < |m.groups|
    requires forall f, c, want :: Decide(m, f, c, want) ==> FoldDecides(m, mode, f, c, want)
    ensures Contains(m.other.perm, Cut(m.mask[0].perm, m.groups[g].perm))
  {
    hide Contains;
    hide Cut;
    hide FoldDecides;
    hide Proper;
    hide Decide;
    var want := Cut(m.mask[0].perm, m.groups[g].perm);
    ContainsSelf(want);
    NamedGroupDecides(m, g, want);
    FoldIs(m, mode, File(Besides(Stranger(m)), Alien(m)), Caller(Stranger(m), {m.groups[g].id}), want);
  }

  /**
    * For all callers and requests: the folded mode grants no less than the list exactly when nobody named may do more
    * than the others.
    */
  lemma FoldGrantsNoLessIff(m: List, mode: Perm)
    requires Proper(m)
    ensures (forall f, c, want :: Decide(m, f, c, want) ==> FoldDecides(m, mode, f, c, want)) <==> FoldLosesNothing(m)
  {
    hide Contains;
    hide Cut;
    hide Ascending;
    hide Rwx;
    hide FoldLosesNothing;
    if FoldLosesNothing(m) {
      forall f, c, want | Decide(m, f, c, want) ensures FoldDecides(m, mode, f, c, want) {
        if m.mask == [] {
          EquivalentDecides(m, mode, f, c, want);
        } else if f.uid == c.uid {
          FoldIs(m, mode, f, c, want);
        } else {
          LosesNothing(m, mode, f, c, want);
        }
      }
    }
    if m.mask != [] && forall f, c, want :: Decide(m, f, c, want) ==> FoldDecides(m, mode, f, c, want) {
      LosesNothingBy(m, mode);
    }
    if m.mask == [] {
      NothingNamed(m);
    }
  }

  lemma NothingNamed(m: List)
    requires m.mask == []
    ensures FoldLosesNothing(m)
  {
  }

  lemma LosesNothingBy(m: List, mode: Perm)
    requires Proper(m) && m.mask != []
    requires forall f, c, want :: Decide(m, f, c, want) ==> FoldDecides(m, mode, f, c, want)
    ensures FoldLosesNothing(m)
  {
    hide Contains;
    hide Cut;
    hide FoldDecides;
    hide Proper;
    hide Decide;
    forall u | 0 <= u < |m.users| ensures Contains(m.other.perm, Cut(m.mask[0].perm, m.users[u].perm)) {
      KeepsUser(m, mode, u);
    }
    forall g | 0 <= g < |m.groups| ensures Contains(m.other.perm, Cut(m.mask[0].perm, m.groups[g].perm)) {
      KeepsGroup(m, mode, g);
    }
  }

  // ---- the list a new file inherits ----

  /**
    * A new file whose list cannot be stored grants nobody more than the list would have, exactly under that
    * condition.
    */
  lemma InheritedFoldIff(l: List, mode: Perm)
    requires Proper(l)
    ensures (forall f, c, want :: FoldDecides(Inherited(l, mode), mode, f, c, want) ==>
      Decide(Inherited(l, mode), f, c, want)) <==> FoldSafe(Inherited(l, mode))
    ensures (forall f, c, want :: Decide(Inherited(l, mode), f, c, want) ==>
      FoldDecides(Inherited(l, mode), mode, f, c, want)) <==> FoldLosesNothing(Inherited(l, mode))
  {
    hide FoldDecides;
    hide FoldSafe;
    hide FoldLosesNothing;
    hide Proper;
    hide Decide;
    hide Inherited;
    InheritedProper(l, mode);
    FoldGrantsNoMoreIff(Inherited(l, mode), mode);
    FoldGrantsNoLessIff(Inherited(l, mode), mode);
  }

  function Sample(): List {
    List(Entry(USER_OBJ, 7, 0), [Entry(USER, 7, 5)], Entry(GROUP_OBJ, 4, 0), [], [Entry(MASK, 7, 0)],
      Entry(OTHER, 0, 0))
  }

  lemma SampleProper()
    ensures Proper(Sample())
  {
    assert |Sample().Entries()| == 5;
  }

  /** Under mode 0777 it is inherited as it is. */
  lemma SampleInherited()
    ensures Inherited(Sample(), 0x1FF) == Sample()
  {
  }

  /** A member of the owning group may read, and not write. */
  lemma SampleDenies()
    ensures !Decide(Sample(), File(1, 8), Caller(2, {8}), 2)
  {
    hide Cut;
    hide Both;
    hide Contains;
    var f, c := File(1, 8), Caller(2, {8});
    OnlyGroup(Sample(), f, c);
    NamedIs(Sample().users, 2);
    CutsToRead();
  }

  lemma CutsToRead()
    ensures !Contains(Cut(7, Both(4, 0)), 2) && Contains(7, 2)
  {
  }

  /**
    * A directory whose default list lets the group only read: the folded mode 0770 lets it write, though neither list
    * does.
    */
  lemma FoldCanGrantMore()
    ensures Proper(Sample()) && FoldDecides(Inherited(Sample(), 0x1FF), 0x1FF, File(1, 8), Caller(2, {8}), 2)
    ensures !Decide(Inherited(Sample(), 0x1FF), File(1, 8), Caller(2, {8}), 2)
    ensures !Decide(Sample(), File(1, 8), Caller(2, {8}), 2)
  {
    hide Proper;
    hide FoldDecides;
    hide Inherited;
    hide Contains;
    hide Decide;
    SampleProper();
    SampleInherited();
    SampleDenies();
    CutsToRead();
    FoldIs(Sample(), 0x1FF, File(1, 8), Caller(2, {8}), 2);
  }
}
