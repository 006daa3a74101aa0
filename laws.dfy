/**
 * What the bitmask promises, stated over the functions that specify its
 * operations: construction, membership, iteration, equality, the copying
 * operators and the mutators.
 */
module BitmaskLaws {
  import opened IntBits
  import opened Flags
  import opened Bitmasks

  // ---------------------------------------------------------------------------
  // Construction

  lemma InFlagValues(flags: seq<Operand>, x: int)
    ensures x in FlagValues(flags) <==> exists o :: o in flags && OperandBits(o) == x
  {
    if x in FlagValues(flags) {
      var i :| 0 <= i < |flags| && FlagValues(flags)[i] == x;
      assert flags[i] in flags;
    }
    if exists o :: o in flags && OperandBits(o) == x {
      var o :| o in flags && OperandBits(o) == x;
      var i :| 0 <= i < |flags| && flags[i] == o;
      assert FlagValues(flags)[i] == x;
    }
  }

  /** The value a bitmask is built with depends only on which flags are given, not on their order or repetition. */
  lemma ConstructionOrder(flags: seq<Operand>, others: seq<Operand>)
    requires forall o :: o in flags <==> o in others
    ensures OrAll(FlagValues(flags)) == OrAll(FlagValues(others))
  {
    forall x
      ensures x in FlagValues(flags) <==> x in FlagValues(others)
    {
      InFlagValues(flags, x);
      InFlagValues(others, x);
    }
    OrAllSameElements(FlagValues(flags), FlagValues(others));
  }

  /** Two declared members with the same bit are the same member. */
  lemma SameBitSameMember(e: FlagEnum, m: Member, n: Member)
    requires WellFormed(e) && m in e.members && n in e.members
    ensures m.pos == n.pos <==> m == n
  {
    var i :| 0 <= i < |e.members| && e.members[i] == m;
    var j :| 0 <= j < |e.members| && e.members[j] == n;
  }

  /** A bitmask built from members of its enumeration holds exactly those members. */
  lemma ConstructedMembers(e: FlagEnum, given: seq<Member>, m: Member)
    requires WellFormed(e)
    requires forall g :: g in given ==> g in e.members
    requires m in e.members
    ensures m in Members(Snapshot(e, OrAll(FlagValues(MemberFlags(e, given))))) <==> m in given
  {
    assert FlagValues(MemberFlags(e, given)) == Values(given);
    var v := OrAll(Values(given));
    EnabledIn(e.members, v, m);
    HasPow2(v, m.pos);
    TestBitOrAllValues(given, m.pos);
    if exists g :: g in given && g.pos == m.pos {
      var g :| g in given && g.pos == m.pos;
      SameBitSameMember(e, g, m);
    }
  }

  // ---------------------------------------------------------------------------
  // add, discard, remove

  /** Adding a member that is already present leaves the value unchanged. */
  lemma AddPresent(v: int, m: Member)
    requires Has(v, m.Value())
    ensures Apply(Union, v, m.Value()) == v
  {
    forall k: nat
      ensures TestBit(Apply(Union, v, m.Value()), k) == TestBit(v, k)
    {
      TestBitApply(Union, v, m.Value(), k);
      TestBitPow2(m.pos, k);
      HasPow2(v, m.pos);
    }
    BitsDetermine(Apply(Union, v, m.Value()), v);
  }

  /** Adding the same flag twice is adding it once. */
  lemma AddIdempotent(v: int, bits: int)
    ensures Apply(Union, Apply(Union, v, bits), bits) == Apply(Union, v, bits)
  {
    var once := Apply(Union, v, bits);
    forall k: nat
      ensures TestBit(Apply(Union, once, bits), k) == TestBit(once, k)
    {
      TestBitApply(Union, once, bits, k);
      TestBitApply(Union, v, bits, k);
    }
    BitsDetermine(Apply(Union, once, bits), once);
  }

  /** Discarding the same flag twice is discarding it once. */
  lemma DiscardIdempotent(v: int, bits: int)
    ensures Apply(Difference, Apply(Difference, v, bits), bits) == Apply(Difference, v, bits)
  {
    var once := Apply(Difference, v, bits);
    forall k: nat
      ensures TestBit(Apply(Difference, once, bits), k) == TestBit(once, k)
    {
      TestBitApply(Difference, once, bits, k);
      TestBitApply(Difference, v, bits, k);
    }
    BitsDetermine(Apply(Difference, once, bits), once);
  }

  /** Discarding an absent member changes nothing. */
  lemma DiscardAbsent(v: int, m: Member)
    requires !Has(v, m.Value())
    ensures Apply(Difference, v, m.Value()) == v
  {
    forall k: nat
      ensures TestBit(Apply(Difference, v, m.Value()), k) == TestBit(v, k)
    {
      TestBitApply(Difference, v, m.Value(), k);
      TestBitPow2(m.pos, k);
      HasPow2(v, m.pos);
    }
    BitsDetermine(Apply(Difference, v, m.Value()), v);
  }

  /** Discarding a member just added restores the value it was added to. */
  lemma AddThenDiscard(v: int, m: Member)
    requires !Has(v, m.Value())
    ensures Apply(Difference, Apply(Union, v, m.Value()), m.Value()) == v
  {
    var added := Apply(Union, v, m.Value());
    forall k: nat
      ensures TestBit(Apply(Difference, added, m.Value()), k) == TestBit(v, k)
    {
      TestBitApply(Difference, added, m.Value(), k);
      TestBitApply(Union, v, m.Value(), k);
      TestBitPow2(m.pos, k);
      HasPow2(v, m.pos);
    }
    BitsDetermine(Apply(Difference, added, m.Value()), v);
  }

  /** After `add(m)` the enabled members are the old ones plus `m`. */
  lemma AddMembers(s: Snapshot, m: Member, x: Member)
    requires WellFormed(s.allFlags) && m in s.allFlags.members && x in s.allFlags.members
    ensures x in Members(Snapshot(s.allFlags, Apply(Union, s.value, m.Value()))) <==> x in Members(s) || x == m
  {
    EnabledIn(s.allFlags.members, Apply(Union, s.value, m.Value()), x);
    EnabledIn(s.allFlags.members, s.value, x);
    HasApply(Union, s.value, m.Value(), x.pos);
    HasPow2(m.Value(), x.pos);
    TestBitPow2(m.pos, x.pos);
    SameBitSameMember(s.allFlags, x, m);
  }

  /** After `discard(m)` the enabled members are the old ones without `m`. */
  lemma DiscardMembers(s: Snapshot, m: Member, x: Member)
    requires WellFormed(s.allFlags) && m in s.allFlags.members && x in s.allFlags.members
    ensures x in Members(Snapshot(s.allFlags, Apply(Difference, s.value, m.Value()))) <==> x in Members(s) && x != m
  {
    EnabledIn(s.allFlags.members, Apply(Difference, s.value, m.Value()), x);
    EnabledIn(s.allFlags.members, s.value, x);
    HasApply(Difference, s.value, m.Value(), x.pos);
    HasPow2(m.Value(), x.pos);
    TestBitPow2(m.pos, x.pos);
    SameBitSameMember(s.allFlags, x, m);
  }

  // ---------------------------------------------------------------------------
  // Membership

  /** A declared member is in the bitmask exactly when iteration yields it. */
  lemma FlagMembership(s: Snapshot, m: Member)
    requires m in s.allFlags.members
    ensures ContainsSpec(s, Flag(s.allFlags, m.Value())) == Ok(m in Members(s))
  {
    EnabledIn(s.allFlags.members, s.value, m);
  }

  lemma {:induction false} ScanSubset(s: Snapshot, fs: seq<Member>)
    requires forall f :: f in fs ==> f in s.allFlags.members
    ensures Scan(s, s.allFlags, fs) == Ok(forall f :: f in fs ==> f in Members(s))
    decreases |fs|
  {
    if fs != [] {
      EnabledIn(s.allFlags.members, s.value, fs[0]);
      ScanSubset(s, fs[1..]);
      assert fs == [fs[0]] + fs[1..];
      assert (forall f :: f in fs ==> f in Members(s))
        <==> fs[0] in Members(s) && (forall f :: f in fs[1..] ==> f in Members(s));
    }
  }

  /** A bitmask of the same enumeration is contained exactly when its flags are a subset. */
  lemma MaskMembership(s: Snapshot, t: Snapshot)
    requires t.allFlags == s.allFlags
    ensures ContainsSpec(s, Mask(t)) == Ok(forall f :: f in Members(t) ==> f in Members(s))
  {
    forall f | f in Members(t)
      ensures f in s.allFlags.members
    {
      EnabledIn(t.allFlags.members, t.value, f);
    }
    ScanSubset(s, Members(t));
  }

  /** Every bitmask contains itself. */
  lemma SelfMembership(s: Snapshot)
    ensures ContainsSpec(s, Mask(s)) == Ok(true)
  {
    MaskMembership(s, s);
  }

  /**
   * Membership raises TypeError exactly for an item that is neither kind, a
   * flag of another enumeration, or a non-empty bitmask of another one.
   */
  lemma ContainsRaises(s: Snapshot, item: Operand)
    ensures ContainsSpec(s, item).Err? <==>
      || item.Other?
      || (item.Flag? && item.flagEnum != s.allFlags)
      || (item.Mask? && item.mask.allFlags != s.allFlags && Members(item.mask) != [])
  {
    if item.Mask? && item.mask.allFlags == s.allFlags {
      MaskMembership(s, item.mask);
    }
  }

  // ---------------------------------------------------------------------------
  // Equality

  /** Two clean bitmasks of one enumeration are equal exactly when they enable the same members. */
  lemma EqualIffSameFlags(s: Snapshot, t: Snapshot)
    requires s.allFlags == t.allFlags && Clean(s) && Clean(t)
    ensures s.value == t.value <==> Members(s) == Members(t)
  {
    CleanIsCopy(s);
    CleanIsCopy(t);
  }

  // ---------------------------------------------------------------------------
  // The copying operators

  /** The operators raise TypeError for exactly a foreign flag or a non-operand; a bitmask of any enumeration is accepted. */
  lemma MaskOpRaises(s: Snapshot, other: Operand, op: BinOp)
    ensures MaskOpSpec(s, other, op).Err? <==> other.Other? || (other.Flag? && other.flagEnum != s.allFlags)
    ensures MaskOpSpec(s, other, op).Ok? ==> MaskOpSpec(s, other, op).ok.allFlags == s.allFlags
  {
  }

  /** The copy keeps every declared member of the original. */
  lemma CopyKeepsMember(s: Snapshot, m: Member)
    requires m in s.allFlags.members
    ensures Has(CopyValue(s), m.Value()) == Has(s.value, m.Value())
  {
    OrAllEnabled(s.allFlags.members, s.value);
    HasPow2(CopyValue(s), m.pos);
    HasPow2(s.value, m.pos);
    TestBitApply(Intersection, s.value, EnumBits(s.allFlags), m.pos);
    TestBitOrAllValues(s.allFlags.members, m.pos);
  }

  /** With another bitmask of the same enumeration, each operator is the set operation on members. */
  lemma MaskOpMembers(s: Snapshot, t: Snapshot, op: BinOp, m: Member)
    requires t.allFlags == s.allFlags && m in s.allFlags.members
    ensures m in Members(MaskOpSpec(s, Mask(t), op).ok) <==> Presence(op, m in Members(s), m in Members(t))
  {
    EnabledIn(s.allFlags.members, Apply(op, s.value, t.value), m);
    EnabledIn(s.allFlags.members, s.value, m);
    EnabledIn(s.allFlags.members, t.value, m);
    HasApply(op, s.value, t.value, m.pos);
  }

  /** With a flag, each operator is the set operation between the members and the flag's bits. */
  lemma FlagOpMembers(s: Snapshot, bits: int, op: BinOp, m: Member)
    requires m in s.allFlags.members
    ensures m in Members(MaskOpSpec(s, Flag(s.allFlags, bits), op).ok) <==> Presence(op, m in Members(s), Has(bits, m.Value()))
  {
    EnabledIn(s.allFlags.members, Apply(op, CopyValue(s), bits), m);
    EnabledIn(s.allFlags.members, s.value, m);
    HasApply(op, CopyValue(s), bits, m.pos);
    CopyKeepsMember(s, m);
  }

  /** With a flag, bits of the value that belong to no member are lost: only `value & (m0 | m1 | ...)` takes part. */
  lemma FlagPathDropsStrayBits(s: Snapshot, bits: int, op: BinOp)
    ensures MaskOpSpec(s, Flag(s.allFlags, bits), op)
         == Ok(Snapshot(s.allFlags, Apply(op, Apply(Intersection, s.value, EnumBits(s.allFlags)), bits)))
  {
    OrAllEnabled(s.allFlags.members, s.value);
  }

  /** For a clean bitmask, a flag operand acts exactly as a bitmask holding the same bits would. */
  lemma CleanPathsAgree(s: Snapshot, bits: int, op: BinOp)
    requires Clean(s)
    ensures MaskOpSpec(s, Flag(s.allFlags, bits), op) == MaskOpSpec(s, Mask(Snapshot(s.allFlags, bits)), op)
  {
    CleanIsCopy(s);
  }

  /** `+`, `|`, `^` and `&` between bitmasks of one enumeration are commutative. */
  lemma MaskOpCommutes(s: Snapshot, t: Snapshot, op: BinOp)
    requires op != Difference && s.allFlags == t.allFlags
    ensures MaskOpSpec(s, Mask(t), op) == MaskOpSpec(t, Mask(s), op)
  {
    ApplyCommutes(op, s.value, t.value);
  }

  /**
   * Between bitmasks of different enumerations both orders succeed, and each
   * result is bound to its left operand's enumeration; that alone makes the
   * two results differ, whatever their values.
   */
  lemma CrossEnumOrderMatters(s: Snapshot, t: Snapshot, op: BinOp)
    requires s.allFlags != t.allFlags
    ensures MaskOpSpec(s, Mask(t), op).Ok? && MaskOpSpec(t, Mask(s), op).Ok?
    ensures MaskOpSpec(s, Mask(t), op) != MaskOpSpec(t, Mask(s), op)
  {
  }
}
