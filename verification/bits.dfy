/** Permission bits: three of them to a class, three classes to a mode. */
module Bits {
  type Perm = bv16

  const RWXUGO: Perm := 0x1FF

  predicate Rwx(p: Perm) {
    p & 7 == p
  }

  predicate Contains(perm: Perm, want: Perm) {
    perm & want == want
  }

  /** What two limits leave together, and what two grants give together. */
  function Cut(a: Perm, b: Perm): Perm {
    a & b
  }

  function Both(a: Perm, b: Perm): Perm {
    a | b
  }

  lemma ContainsEach(a: Perm, b: Perm, want: Perm)
    requires Contains(Cut(a, b), want)
    ensures Contains(a, want) && Contains(b, want)
  {
  }

  lemma ContainsBoth(a: Perm, b: Perm, want: Perm)
    requires Contains(a, want) && Contains(b, want)
    ensures Contains(Cut(a, b), want)
  {
  }

  lemma ContainsMore(a: Perm, b: Perm, want: Perm)
    requires Contains(a, want)
    ensures Contains(Both(a, b), want) && Contains(Both(b, a), want)
  {
  }

  /** One bit is granted by a sum only if one of the parts grants it. */
  lemma OneBit(a: Perm, b: Perm, want: Perm)
    requires (want == 1 || want == 2 || want == 4) && Contains(Both(a, b), want) && !Contains(a, want)
    ensures Contains(b, want)
  {
  }

  lemma ContainsThrough(a: Perm, b: Perm, c: Perm)
    requires Contains(a, b) && Contains(b, c)
    ensures Contains(a, c)
  {
  }

  lemma ContainsSelf(a: Perm)
    ensures Contains(a, a) && Contains(a, 0)
  {
  }

  lemma CutWithin(a: Perm, b: Perm)
    ensures Contains(a, Cut(a, b)) && Contains(b, Cut(a, b))
  {
  }

  /** A limit on each of two grants limits their sum. */
  lemma SumWithin(k: Perm, a: Perm, b: Perm, o: Perm)
    requires Contains(o, Cut(k, a)) && Contains(o, Cut(k, b))
    ensures Contains(o, Cut(k, Both(a, b)))
  {
  }

  lemma BothWithin(p: Perm, a: Perm, b: Perm)
    requires Contains(p, a) && Contains(p, b)
    ensures Contains(p, Both(a, b))
  {
  }

  /** A request for permissions is granted bit by bit. */
  lemma BitByBit(p: Perm, want: Perm)
    requires Rwx(want)
    ensures Contains(p, want) <==>
      && (Contains(want, 1) ==> Contains(p, 1)) && (Contains(want, 2) ==> Contains(p, 2))
      && (Contains(want, 4) ==> Contains(p, 4))
  {
  }

  lemma RwxWithin(p: Perm, want: Perm)
    requires Rwx(p) && Contains(p, want)
    ensures Rwx(want)
  {
  }

  /** The bits of each class in a mode. */
  function Owner(mode: Perm): (p: Perm)
    ensures Rwx(p)
  {
    (mode >> 6) & 7
  }

  function Group(mode: Perm): (p: Perm)
    ensures Rwx(p)
  {
    (mode >> 3) & 7
  }

  function Other(mode: Perm): (p: Perm)
    ensures Rwx(p)
  {
    mode & 7
  }

  /** A mode with the given permissions in place of its own; the other bits stay. */
  function WithPerms(mode: Perm, owner: Perm, group: Perm, other: Perm): Perm {
    (mode & !RWXUGO) | (owner << 6) | (group << 3) | other
  }

  lemma WithPermsReads(mode: Perm, owner: Perm, group: Perm, other: Perm)
    requires Rwx(owner) && Rwx(group) && Rwx(other)
    ensures Owner(WithPerms(mode, owner, group, other)) == owner
    ensures Group(WithPerms(mode, owner, group, other)) == group
    ensures Other(WithPerms(mode, owner, group, other)) == other
    ensures WithPerms(mode, owner, group, other) & !RWXUGO == mode & !RWXUGO
  {
  }

  /** Permissions cut down to some others. */
  lemma CutDown(a: Perm, b: Perm)
    requires Rwx(a)
    ensures Rwx(Cut(a, b))
  {
  }

  lemma NoBits(want: Perm)
    requires want == 1 || want == 2 || want == 4
    ensures !Contains(0, want)
  {
  }

  lemma BothAgain(a: Perm, b: Perm, c: Perm)
    ensures Both(Both(a, b), c) == Both(a, Both(b, c)) && Both(a, 0) == a && Both(0, a) == a
  {
  }

  /** Nothing but permissions. */
  predicate PermBits(m: Perm) {
    m & !RWXUGO == 0
  }

  function FoldInto(mode: Perm, m: Perm): Perm {
    (mode & !RWXUGO) | m
  }

  /** One class of a mode replaced. */
  function SetOwner(mode: Perm, p: Perm): Perm {
    (mode & !0x1C0) | (p << 6)
  }

  function SetGroup(mode: Perm, p: Perm): Perm {
    (mode & !0x038) | (p << 3)
  }

  function SetOther(mode: Perm, p: Perm): Perm {
    (mode & !0x007) | p
  }

  lemma SetOwnerReads(m: Perm, p: Perm)
    requires Rwx(p) && PermBits(m)
    ensures var n := SetOwner(m, p); Owner(n) == p && Group(n) == Group(m) && Other(n) == Other(m) && PermBits(n)
  {
  }

  lemma SetGroupReads(m: Perm, p: Perm)
    requires Rwx(p) && PermBits(m)
    ensures var n := SetGroup(m, p); Owner(n) == Owner(m) && Group(n) == p && Other(n) == Other(m) && PermBits(n)
  {
  }

  lemma SetOtherReads(m: Perm, p: Perm)
    requires Rwx(p) && PermBits(m)
    ensures var n := SetOther(m, p); Owner(n) == Owner(m) && Group(n) == Group(m) && Other(n) == p && PermBits(n)
  {
  }

  function Perms(mode: Perm): Perm {
    mode & RWXUGO
  }

  lemma PermsOnly(mode: Perm)
    ensures var m := Perms(mode);
      Owner(m) == Owner(mode) && Group(m) == Group(mode) && Other(m) == Other(mode) && PermBits(m)
  {
  }

  lemma Folded(mode: Perm, m: Perm)
    requires PermBits(m)
    ensures FoldInto(mode, m) == WithPerms(mode, Owner(m), Group(m), Other(m))
  {
  }
}
