/** Who may do what under an access control list, and the changes to lists that keep it so (kernel/acl.c). */
module AclDecide {
  import opened Prelude
  import opened Bits
  import opened Acl

  /** The file's owner and group; the caller's user id and groups. */
  datatype File = File(uid: nat, gid: nat)
  datatype Caller = Caller(uid: nat, groups: set<nat>)

  function MaskOf(l: List): Perm {
    if l.mask == [] then 7 else l.mask[0].perm
  }

  /** The entry of a named user. */
  function Named(us: seq<Entry>, uid: nat): Option<Perm> {
    if us == [] then None else if us[0].id == uid then Some(us[0].perm) else Named(us[1..], uid)
  }

  predicate Matches(e: Entry, f: File, c: Caller) {
    if e.tag == GROUP_OBJ then f.gid in c.groups else e.tag == GROUP && e.id in c.groups
  }

  /** All that the matching group entries grant together, and whether any matches. */
  function Sum(es: seq<Entry>, f: File, c: Caller): Perm {
    if es == [] then 0 else Both(if Matches(es[0], f, c) then es[0].perm else 0, Sum(es[1..], f, c))
  }

  predicate Any(es: seq<Entry>, f: File, c: Caller) {
    es != [] && (Matches(es[0], f, c) || Any(es[1..], f, c))
  }

  /** What acl_check_entries() decides. */
  function Decide(l: List, f: File, c: Caller, want: Perm): bool {
    if f.uid == c.uid then Contains(l.owner.perm, want)
    else
      var u := Named(l.users, c.uid);
      if u.Some? then Contains(Cut(MaskOf(l), u.value), want)
      else if Any([l.group] + l.groups, f, c) then Contains(Cut(MaskOf(l), Sum([l.group] + l.groups, f, c)), want)
      else Contains(l.other.perm, want)
  }

  /** What acl(5) decides, section "ACCESS CHECK ALGORITHM": one of the matching group entries must grant everything. */
  ghost predicate Allowed(l: List, f: File, c: Caller, want: Perm) {
    if f.uid == c.uid then Contains(l.owner.perm, want)
    else if exists i :: 0 <= i < |l.users| && l.users[i].id == c.uid then
      exists i :: 0 <= i < |l.users| && l.users[i].id == c.uid && Contains(l.users[i].perm, want)
        && Contains(MaskOf(l), want)
    else if InGroupClass(l, f, c) then Contains(MaskOf(l), want) && OneGrants([l.group] + l.groups, f, c, want)
    else Contains(l.other.perm, want)
  }

  ghost predicate InGroupClass(l: List, f: File, c: Caller) {
    f.gid in c.groups || exists i :: 0 <= i < |l.groups| && l.groups[i].id in c.groups
  }

  ghost predicate OneGrants(es: seq<Entry>, f: File, c: Caller, want: Perm) {
    exists i :: 0 <= i < |es| && Matches(es[i], f, c) && Contains(es[i].perm, want)
  }

  // ---- against acl(5) ----

  lemma {:induction false} NamedIs(us: seq<Entry>, uid: nat)
    ensures Named(us, uid).Some? <==> exists i :: 0 <= i < |us| && us[i].id == uid
    ensures Named(us, uid).Some? ==> exists i :: 0 <= i < |us| && us[i].id == uid && us[i].perm == Named(us, uid).value
  {
    if us != [] {
      NamedIs(us[1..], uid);
      if us[0].id != uid {
        if Named(us, uid).Some? {
          var i :| 0 <= i < |us[1..]| && us[1..][i].id == uid && us[1..][i].perm == Named(us, uid).value;
          assert us[i + 1].id == uid && us[i + 1].perm == Named(us, uid).value;
        } else {
          assert forall i :: 0 < i < |us| ==> us[i] == us[1..][i - 1];
        }
      }
    }
  }

  lemma {:induction false} AnyIs(es: seq<Entry>, f: File, c: Caller)
    ensures Any(es, f, c) <==> exists i :: 0 <= i < |es| && Matches(es[i], f, c)
  {
    if es != [] {
      AnyIs(es[1..], f, c);
      if Any(es[1..], f, c) {
        var i :| 0 <= i < |es[1..]| && Matches(es[1..][i], f, c);
        assert Matches(es[i + 1], f, c);
      }
      assert forall i :: 0 < i < |es| ==> es[i] == es[1..][i - 1];
    }
  }

  lemma {:induction false} SumAtLeast(es: seq<Entry>, f: File, c: Caller, want: Perm, i: nat)
    requires i < |es| && Matches(es[i], f, c) && Contains(es[i].perm, want)
    ensures Contains(Sum(es, f, c), want)
  {
    hide Contains;
    hide Both;
    if i == 0 {
      ContainsMore(es[0].perm, Sum(es[1..], f, c), want);
    } else {
      SumAtLeast(es[1..], f, c, want, i - 1);
      ContainsMore(Sum(es[1..], f, c), if Matches(es[0], f, c) then es[0].perm else 0, want);
    }
  }

  /** For a request of a single permission the sum grants it only if one entry does. */
  lemma {:induction false} SumOneBit(es: seq<Entry>, f: File, c: Caller, want: Perm)
    requires want == 1 || want == 2 || want == 4
    ensures Contains(Sum(es, f, c), want) <==> OneGrants(es, f, c, want)
  {
    if es == [] {
      NoBits(want);
    } else {
      SumOneBit(es[1..], f, c, want);
      var p, q := if Matches(es[0], f, c) then es[0].perm else 0, Sum(es[1..], f, c);
      NoBits(want);
      hide Contains;
      hide Both;
      if Contains(Both(p, q), want) && !Contains(p, want) {
        OneBit(p, q, want);
      }
      if Contains(p, want) {
        ContainsMore(p, q, want);
      }
      if Contains(q, want) {
        ContainsMore(q, p, want);
      }
      if OneGrants(es[1..], f, c, want) {
        var i :| 0 <= i < |es[1..]| && Matches(es[1..][i], f, c) && Contains(es[1..][i].perm, want);
        assert Matches(es[i + 1], f, c) && Contains(es[i + 1].perm, want);
      }
      assert forall i :: 0 < i < |es| ==> es[i] == es[1..][i - 1];
    }
  }

  /** A sum grants a request exactly when each permission of the request is granted by an entry that matches. */
  lemma SumBitByBit(es: seq<Entry>, f: File, c: Caller, want: Perm)
    requires Rwx(want)
    ensures Contains(Sum(es, f, c), want) <==> EachGranted(es, f, c, want)
  {
    hide Contains;
    hide Rwx;
    hide OneGrants;
    BitByBit(Sum(es, f, c), want);
    SumOneBit(es, f, c, 1);
    SumOneBit(es, f, c, 2);
    SumOneBit(es, f, c, 4);
  }

  /** Each single permission of the request is granted by some matching group entry. */
  ghost predicate EachGranted(es: seq<Entry>, f: File, c: Caller, want: Perm) {
    && (Contains(want, 1) ==> OneGrants(es, f, c, 1))
    && (Contains(want, 2) ==> OneGrants(es, f, c, 2))
    && (Contains(want, 4) ==> OneGrants(es, f, c, 4))
  }

  /**
    * The caller is neither the owner nor named but in the group class; the mask lets the request through; each of its
    * permissions is granted by some matching entry, and all of them by none.
    */
  ghost predicate NeedsSeveral(l: List, f: File, c: Caller, want: Perm) {
    && f.uid != c.uid && (forall i :: 0 <= i < |l.users| ==> l.users[i].id != c.uid) && InGroupClass(l, f, c)
    && Contains(MaskOf(l), want)
    && EachGranted([l.group] + l.groups, f, c, want) && !OneGrants([l.group] + l.groups, f, c, want)
  }

  lemma GroupClassIs(l: List, f: File, c: Caller)
    requires Proper(l)
    ensures Any([l.group] + l.groups, f, c) <==> InGroupClass(l, f, c)
  {
    var es := [l.group] + l.groups;
    AnyIs(es, f, c);
    assert forall i :: 0 < i < |es| ==> es[i] == l.groups[i - 1] && es[i].tag == GROUP;
    assert forall i :: 0 <= i < |l.groups| ==> es[i + 1] == l.groups[i];
  }

  lemma SameId(es: seq<Entry>, tag: nat, i: nat, j: nat)
    requires Ascending(es, tag) && i < |es| && j < |es| && es[i].id == es[j].id
    ensures i == j
  {
  }

  lemma NamedAllowed(l: List, uid: nat, want: Perm)
    requires Proper(l) && Named(l.users, uid).Some?
    ensures Contains(Cut(MaskOf(l), Named(l.users, uid).value), want) <==>
      exists i :: 0 <= i < |l.users| && l.users[i].id == uid && Contains(l.users[i].perm, want)
        && Contains(MaskOf(l), want)
  {
    hide Contains;
    hide Cut;
    hide Rwx;
    hide MaskOf;
    NamedIs(l.users, uid);
    var k :| 0 <= k < |l.users| && l.users[k].id == uid && l.users[k].perm == Named(l.users, uid).value;
    if Contains(Cut(MaskOf(l), l.users[k].perm), want) {
      ContainsEach(MaskOf(l), l.users[k].perm, want);
    }
    if i :| 0 <= i < |l.users| && l.users[i].id == uid && Contains(l.users[i].perm, want) && Contains(MaskOf(l), want) {
      SameId(l.users, USER, i, k);
      ContainsBoth(MaskOf(l), l.users[k].perm, want);
    }
  }

  /** Whatever acl(5) allows is granted. */
  lemma AllowedIsGranted(l: List, f: File, c: Caller, want: Perm)
    requires Proper(l) && Allowed(l, f, c, want)
    ensures Decide(l, f, c, want)
  {
    hide Contains;
    hide Cut;
    NamedIs(l.users, c.uid);
    GroupClassIs(l, f, c);
    if f.uid != c.uid {
      if Named(l.users, c.uid).Some? {
        NamedAllowed(l, c.uid, want);
      } else if InGroupClass(l, f, c) {
        var es := [l.group] + l.groups;
        var i :| 0 <= i < |es| && Matches(es[i], f, c) && Contains(es[i].perm, want);
        SumAtLeast(es, f, c, want, i);
        ContainsBoth(MaskOf(l), Sum(es, f, c), want);
      }
    }
  }

  lemma MaskRwx(l: List, want: Perm)
    requires Proper(l) && Contains(MaskOf(l), want)
    ensures Rwx(want)
  {
    hide Ascending;
    RwxWithin(MaskOf(l), want);
  }

  /** What the code decides for a caller of the group class who is neither owner nor named. */
  lemma GroupDecides(l: List, f: File, c: Caller, want: Perm)
    requires Proper(l) && f.uid != c.uid && Named(l.users, c.uid).None? && InGroupClass(l, f, c)
    ensures Decide(l, f, c, want) <==> Contains(MaskOf(l), want) && EachGranted([l.group] + l.groups, f, c, want)
  {
    hide Contains;
    hide Cut;
    hide Rwx;
    hide EachGranted;
    hide MaskOf;
    GroupClassIs(l, f, c);
    var es := [l.group] + l.groups;
    if Contains(MaskOf(l), want) {
      MaskRwx(l, want);
      SumBitByBit(es, f, c, want);
      if Contains(Sum(es, f, c), want) {
        ContainsBoth(MaskOf(l), Sum(es, f, c), want);
      }
    }
    if Contains(Cut(MaskOf(l), Sum(es, f, c)), want) {
      ContainsEach(MaskOf(l), Sum(es, f, c), want);
    }
  }

  /** The code and acl(5) differ exactly where several groups have to grant together what none of them grants alone. */
  lemma AgreesIffOneGroupGrants(l: List, f: File, c: Caller, want: Perm)
    requires Proper(l)
    ensures (Decide(l, f, c, want) <==> Allowed(l, f, c, want)) <==> !NeedsSeveral(l, f, c, want)
  {
    hide Contains;
    hide Cut;
    hide Rwx;
    hide EachGranted;
    hide OneGrants;
    hide MaskOf;
    NamedIs(l.users, c.uid);
    GroupClassIs(l, f, c);
    if Allowed(l, f, c, want) {
      AllowedIsGranted(l, f, c, want);
    }
    if f.uid != c.uid && Named(l.users, c.uid).Some? {
      NamedAllowed(l, c.uid, want);
    } else if f.uid != c.uid && InGroupClass(l, f, c) {
      GroupDecides(l, f, c, want);
    }
  }

  lemma EachIsOne(es: seq<Entry>, f: File, c: Caller, want: Perm)
    requires want == 1 || want == 2 || want == 4
    ensures EachGranted(es, f, c, want) <==> OneGrants(es, f, c, want)
  {
    hide OneGrants;
  }

  /** A request for a single permission is decided as acl(5) says. */
  lemma SinglePermissionAgrees(l: List, f: File, c: Caller, want: Perm)
    requires Proper(l) && (want == 1 || want == 2 || want == 4)
    ensures Decide(l, f, c, want) <==> Allowed(l, f, c, want)
  {
    hide Decide;
    hide Allowed;
    hide Proper;
    AgreesIffOneGroupGrants(l, f, c, want);
    EachIsOne([l.group] + l.groups, f, c, want);
  }

  /** Reading through one group and writing through another: granted, though acl(5) says no. */
  lemma SumsBeyondAcl5()
    ensures var l := List(Entry(USER_OBJ, 0, 0), [], Entry(GROUP_OBJ, 4, 0), [Entry(GROUP, 2, 9)], [Entry(MASK, 7, 0)],
      Entry(OTHER, 0, 0));
      Proper(l) && Decide(l, File(1, 8), Caller(2, {8, 9}), 6) && !Allowed(l, File(1, 8), Caller(2, {8, 9}), 6)
  {
    var l := List(Entry(USER_OBJ, 0, 0), [], Entry(GROUP_OBJ, 4, 0), [Entry(GROUP, 2, 9)], [Entry(MASK, 7, 0)],
      Entry(OTHER, 0, 0));
    var es := [l.group] + l.groups;
    var f, c := File(1, 8), Caller(2, {8, 9});
    assert es[1..] == l.groups && l.groups[1..] == [];
    assert Sum(l.groups[1..], f, c) == 0;
    assert Sum(l.groups, f, c) == 2;
    assert Sum(es, f, c) == 6;
    assert Any(es, f, c);
    assert !OneGrants(es, f, c, 6);
    assert Proper(l);
  }
}
