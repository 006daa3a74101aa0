/**
 * Flag enumerations: the IntFlag classes a bitmask is bound to.
 *
 * An enumeration is an ordered list of named members. Each member is one
 * power of two, recorded by its bit position, so a member's integer value is
 * `2 ** pos`. The functions here are what the bitmask computes from an
 * enumeration: which members a value enables, in declaration order, and the
 * OR of a list of flag values.
 */
module Flags {
  import opened IntBits

  /** One member of a flag enumeration: its name and the position of its bit. */
  datatype Member = Member(name: string, pos: nat)
  {
    /** The member's integer value. */
    function Value(): int {
      Pow2(pos)
    }
  }

  /** A flag enumeration, with its members in declaration order. */
  datatype FlagEnum = FlagEnum(name: string, members: seq<Member>)

  /** A member name as Python allows it: non-empty, no `|`, not the literal `0`. */
  predicate ValidName(n: string) {
    n != [] && n != "0" && '|' !in n
  }

  /** What an IntFlag class guarantees of the members it iterates over: distinct bits, plain names. */
  predicate WellFormed(e: FlagEnum) {
    && (forall i :: 0 <= i < |e.members| ==> ValidName(e.members[i].name))
    && (forall i, j :: 0 <= i < j < |e.members| ==> e.members[i].pos != e.members[j].pos)
  }

  /** The members' integer values, in order. */
  function Values(ms: seq<Member>): (r: seq<int>)
    ensures |r| == |ms|
    ensures forall i :: 0 <= i < |ms| ==> r[i] == ms[i].Value()
  {
    seq(|ms|, i requires 0 <= i < |ms| => ms[i].Value())
  }

  /** The members' names, in order. */
  function Names(ms: seq<Member>): (r: seq<string>)
    ensures |r| == |ms|
    ensures forall i :: 0 <= i < |ms| ==> r[i] == ms[i].name
  {
    seq(|ms|, i requires 0 <= i < |ms| => ms[i].name)
  }

  /** `v0 | v1 | ... | vn`, folded from 0 on the left. */
  function OrAll(vals: seq<int>): int {
    if vals == [] then 0 else Apply(Union, OrAll(vals[..|vals| - 1]), vals[|vals| - 1])
  }

  /** The members of `ms` whose bit `v` has set, in declaration order: `if flag in self: yield flag`. */
  function Enabled(ms: seq<Member>, v: int): (r: seq<Member>)
    ensures |r| <= |ms|
  {
    if ms == [] then []
    else
      var last := ms[|ms| - 1];
      Enabled(ms[..|ms| - 1], v) + (if Has(v, last.Value()) then [last] else [])
  }

  /** `"|".join(names)`. */
  function Join(names: seq<string>): string {
    if names == [] then ""
    else if |names| == 1 then names[0]
    else names[0] + "|" + Join(names[1..])
  }

  /** `s.split("|")`: the pieces between separators, always at least one. */
  function Split(s: string): (r: seq<string>)
    ensures |r| >= 1
  {
    if s == [] then [""]
    else
      var rest := Split(s[1..]);
      if s[0] == '|' then [""] + rest else [[s[0]] + rest[0]] + rest[1..]
  }

  // ---------------------------------------------------------------------------
  // OR-folds

  /** Bit `k` of an OR-fold is set exactly when it is set in one of the values. */
  lemma {:induction false} TestBitOrAll(vals: seq<int>, k: nat)
    ensures TestBit(OrAll(vals), k) <==> exists x :: x in vals && TestBit(x, k)
    decreases |vals|
  {
    if vals == [] {
      TestBitEnd(0, k);
    } else {
      var n := |vals| - 1;
      TestBitOrAll(vals[..n], k);
      TestBitApply(Union, OrAll(vals[..n]), vals[n], k);
      assert vals == vals[..n] + [vals[n]];
    }
  }

  /** The order and the repetitions of the values do not change their OR. */
  lemma OrAllSameElements(s: seq<int>, t: seq<int>)
    requires forall x :: x in s <==> x in t
    ensures OrAll(s) == OrAll(t)
  {
    forall k: nat
      ensures TestBit(OrAll(s), k) == TestBit(OrAll(t), k)
    {
      TestBitOrAll(s, k);
      TestBitOrAll(t, k);
    }
    BitsDetermine(OrAll(s), OrAll(t));
  }

  /** A permutation of the values has the same OR. */
  lemma OrAllPermutation(s: seq<int>, t: seq<int>)
    requires multiset(s) == multiset(t)
    ensures OrAll(s) == OrAll(t)
  {
    forall x
      ensures x in s <==> x in t
    {
      assert x in s <==> x in multiset(s);
      assert x in t <==> x in multiset(t);
    }
    OrAllSameElements(s, t);
  }

  /** Bit `k` of the members' OR is set exactly when a member sits at position `k`. */
  lemma {:induction false} TestBitOrAllValues(ms: seq<Member>, k: nat)
    ensures TestBit(OrAll(Values(ms)), k) <==> exists m :: m in ms && m.pos == k
    decreases |ms|
  {
    if ms != [] {
      var n := |ms| - 1;
      assert Values(ms)[..n] == Values(ms[..n]);
      assert OrAll(Values(ms)) == Apply(Union, OrAll(Values(ms[..n])), ms[n].Value());
      TestBitOrAllValues(ms[..n], k);
      TestBitApply(Union, OrAll(Values(ms[..n])), ms[n].Value(), k);
      TestBitPow2(ms[n].pos, k);
      assert ms == ms[..n] + [ms[n]];
      assert (exists m :: m in ms && m.pos == k)
        <==> (exists m :: m in ms[..n] && m.pos == k) || ms[n].pos == k;
    } else {
      assert Values(ms) == [];
      TestBitEnd(0, k);
    }
  }

  // ---------------------------------------------------------------------------
  // Enabled: membership, order, value

  /** A member is yielded exactly when it is declared and its bit is set. */
  lemma {:induction false} EnabledIn(ms: seq<Member>, v: int, m: Member)
    ensures m in Enabled(ms, v) <==> m in ms && Has(v, m.Value())
    decreases |ms|
  {
    if ms != [] {
      var n := |ms| - 1;
      EnabledIn(ms[..n], v, m);
      assert ms == ms[..n] + [ms[n]];
    }
  }

  /**
   * Iteration follows declaration order: the flags of an earlier part of the
   * enumeration all come before those of a later part (for a split at `k`,
   * take `a := ms[..k]` and `b := ms[k..]`).
   */
  lemma {:induction false} EnabledAppend(a: seq<Member>, b: seq<Member>, v: int)
    ensures Enabled(a + b, v) == Enabled(a, v) + Enabled(b, v)
    decreases |b|
  {
    if b == [] {
      assert a + b == a;
    } else {
      var n := |b| - 1;
      var tail := if Has(v, b[n].Value()) then [b[n]] else [];
      assert (a + b)[..|a + b| - 1] == a + b[..n];
      EnabledAppend(a, b[..n], v);
      assert Enabled(a + b, v) == Enabled(a + b[..n], v) + tail;
    }
  }

  /**
   * ORing the enabled members back together gives the value with every bit
   * that belongs to no member cleared: `v & (m0 | m1 | ...)`.
   */
  lemma OrAllEnabled(ms: seq<Member>, v: int)
    ensures OrAll(Values(Enabled(ms, v))) == Apply(Intersection, v, OrAll(Values(ms)))
  {
    var lhs := OrAll(Values(Enabled(ms, v)));
    var rhs := Apply(Intersection, v, OrAll(Values(ms)));
    forall k: nat
      ensures TestBit(lhs, k) == TestBit(rhs, k)
    {
      TestBitOrAllValues(Enabled(ms, v), k);
      TestBitOrAllValues(ms, k);
      TestBitApply(Intersection, v, OrAll(Values(ms)), k);
      HasPow2(v, k);
      if TestBit(lhs, k) {
        var m :| m in Enabled(ms, v) && m.pos == k;
        EnabledIn(ms, v, m);
      }
      if TestBit(rhs, k) {
        var m :| m in ms && m.pos == k;
        EnabledIn(ms, v, m);
      }
    }
    BitsDetermine(lhs, rhs);
  }

  // ---------------------------------------------------------------------------
  // Join and Split

  lemma {:induction false} SplitWithoutBar(n: string)
    requires '|' !in n
    ensures Split(n) == [n]
    decreases |n|
  {
    if n != [] {
      SplitWithoutBar(n[1..]);
      assert [n[0]] + n[1..] == n;
    }
  }

  lemma {:induction false} SplitAtBar(n: string, rest: string)
    requires '|' !in n
    ensures Split(n + "|" + rest) == [n] + Split(rest)
    decreases |n|
  {
    var s := n + "|" + rest;
    if n == [] {
      assert s[1..] == rest;
    } else {
      assert s[1..] == n[1..] + "|" + rest;
      SplitAtBar(n[1..], rest);
      assert [n[0]] + n[1..] == n;
    }
  }

  /** Splitting the joined names on `|` gives the names back. */
  lemma {:induction false} SplitJoin(names: seq<string>)
    requires |names| >= 1
    requires forall i :: 0 <= i < |names| ==> '|' !in names[i]
    ensures Split(Join(names)) == names
    decreases |names|
  {
    if |names| == 1 {
      SplitWithoutBar(names[0]);
    } else {
      SplitJoin(names[1..]);
      SplitAtBar(names[0], Join(names[1..]));
    }
  }

  /** Joined valid names are never empty and never the literal `0`. */
  lemma {:induction false} JoinNotZero(names: seq<string>)
    requires |names| >= 1
    requires forall i :: 0 <= i < |names| ==> ValidName(names[i])
    ensures Join(names) != [] && Join(names) != "0"
  {
    if |names| > 1 {
      var j := Join(names);
      assert j[|names[0]|] == '|';
      assert '|' !in "0";
    }
  }
}
