/**
 * The `Bitmask` class: a set of flags from one flag enumeration, stored as
 * the OR of their values in a single integer.
 *
 * Both versions of the class (the packaged `bitmask/bitmask.py` and the older
 * top-level `bitmask.py`) share every member modelled here; the older one
 * adds the in-place operator hooks at the end of the class.
 *
 * Python's dynamic typing is reduced to tags: an operand is a flag of some
 * enumeration, another bitmask, or anything else, and `issubclass` between
 * enumerations is equality of enumerations. Another bitmask passed as an
 * operand is only ever read, so it is passed as its observable state.
 */
module Bitmasks {
  import opened IntBits
  import opened Flags

  /** The exceptions the class raises. */
  datatype Error = TypeError | KeyError

  /** A value, or the exception raised instead of returning it. */
  datatype Result<T> = Ok(ok: T) | Err(error: Error)

  /** A call made for its effect: it returned, or it raised. */
  datatype Outcome = Pass | Fail(error: Error)

  /** What a bitmask shows of itself: its enumeration and its integer value. */
  datatype Snapshot = Snapshot(allFlags: FlagEnum, value: int)

  /** An argument to a bitmask operation. */
  datatype Operand =
    | Flag(flagEnum: FlagEnum, bits: int)  // an instance of a flag enumeration: a member or an OR of members
    | Mask(mask: Snapshot)                 // another bitmask
    | Other                                // anything else

  /** A value assigned to `value`: an `int` (including `bool`), or anything else. */
  datatype Assigned = Int(n: int) | NonInt

  /** `issubclass(type(x), e)`: `x` is a flag of enumeration `e`. */
  predicate IsFlagOf(e: FlagEnum, x: Operand) {
    x.Flag? && x.flagEnum == e
  }

  /** A flag operand's integer value. */
  function OperandBits(x: Operand): int {
    if x.Flag? then x.bits else 0
  }

  /** The integer value of each flag operand, in order. */
  function FlagValues(flags: seq<Operand>): (r: seq<int>)
    ensures |r| == |flags|
    ensures forall i :: 0 <= i < |flags| ==> r[i] == OperandBits(flags[i])
  {
    seq(|flags|, i requires 0 <= i < |flags| => OperandBits(flags[i]))
  }

  /** The members of an enumeration passed as flag operands. */
  function MemberFlags(e: FlagEnum, ms: seq<Member>): (r: seq<Operand>)
    ensures |r| == |ms|
    ensures forall i :: 0 <= i < |ms| ==> r[i] == Flag(e, ms[i].Value())
  {
    seq(|ms|, i requires 0 <= i < |ms| => Flag(e, ms[i].Value()))
  }

  /** `list(b)`: the enumeration's members whose bit the value has, in declaration order. */
  function Members(s: Snapshot): seq<Member> {
    Enabled(s.allFlags.members, s.value)
  }

  /** The OR of the enumeration's member values: every bit a member owns. */
  function EnumBits(e: FlagEnum): int {
    OrAll(Values(e.members))
  }

  /** Every set bit of the value belongs to a member: nothing the iteration would miss. */
  predicate Clean(s: Snapshot) {
    Apply(Intersection, s.value, EnumBits(s.allFlags)) == s.value
  }

  // ---------------------------------------------------------------------------
  // What the operations compute

  /** `flag in b` for a flag of enumeration `e`: TypeError unless it is the bitmask's own. */
  function FlagIn(s: Snapshot, e: FlagEnum, bits: int): Result<bool> {
    if e == s.allFlags then Ok(Has(s.value, bits)) else Err(TypeError)
  }

  /** The loop over another bitmask's flags: stop at the first one missing or raising. */
  function Scan(s: Snapshot, e: FlagEnum, fs: seq<Member>): Result<bool>
    decreases |fs|
  {
    if fs == [] then Ok(true)
    else
      match FlagIn(s, e, fs[0].Value())
      case Err(err) => Err(err)
      case Ok(present) => if present then Scan(s, e, fs[1..]) else Ok(false)
  }

  /** `item in b`. */
  function ContainsSpec(s: Snapshot, item: Operand): Result<bool> {
    match item
    case Mask(t) => Scan(s, t.allFlags, Members(t))
    case Flag(e, bits) => FlagIn(s, e, bits)
    case Other => Err(TypeError)
  }

  /** The value of the copy `__mask_op` builds from the bitmask's own enumerated flags. */
  function CopyValue(s: Snapshot): int {
    OrAll(Values(Members(s)))
  }

  /**
   * `b op other` for the operators that go through `__mask_op`. The result is
   * bound to `b`'s enumeration. Another bitmask is combined with `b`'s raw
   * value and its enumeration is never compared; a flag is combined with the
   * copy, which has only the enumerated flags of `b`.
   */
  function MaskOpSpec(s: Snapshot, other: Operand, op: BinOp): Result<Snapshot> {
    match other
    case Mask(t) => Ok(Snapshot(s.allFlags, Apply(op, s.value, t.value)))
    case Flag(e, bits) =>
      if e == s.allFlags then Ok(Snapshot(s.allFlags, Apply(op, CopyValue(s), bits))) else Err(TypeError)
    case Other => Err(TypeError)
  }

  /** A new bitmask returned, or the exception raised, as `spec` says. */
  predicate Yields(r: Result<Bitmask>, spec: Result<Snapshot>)
    reads if r.Ok? then {r.ok} else {}
  {
    match spec
    case Ok(s) => r.Ok? && r.ok.View() == s
    case Err(e) => r == Err(e)
  }

  // ---------------------------------------------------------------------------
  // Facts the class's contracts rely on

  lemma {:induction false} JoinedNames(ms: seq<Member>)
    requires forall m :: m in ms ==> ValidName(m.name)
    ensures ms != [] ==> Join(Names(ms)) != [] && Join(Names(ms)) != "0"
    ensures ms != [] ==> Split(Join(Names(ms))) == Names(ms)
  {
    if ms != [] {
      forall i | 0 <= i < |Names(ms)|
        ensures ValidName(Names(ms)[i])
      {
        assert ms[i] in ms;
      }
      JoinNotZero(Names(ms));
      SplitJoin(Names(ms));
    }
  }

  lemma MembersValid(s: Snapshot)
    requires WellFormed(s.allFlags)
    ensures forall m :: m in Members(s) ==> ValidName(m.name)
  {
    forall m | m in Members(s)
      ensures ValidName(m.name)
    {
      EnabledIn(s.allFlags.members, s.value, m);
      var i :| 0 <= i < |s.allFlags.members| && s.allFlags.members[i] == m;
    }
  }

  /** For a well-formed enumeration, the text is `0` only when no member is enabled, and splits back into the names. */
  lemma MembersText(s: Snapshot)
    ensures WellFormed(s.allFlags) ==> (JoinOrZero(Members(s)) == "0" <==> Members(s) == [])
    ensures WellFormed(s.allFlags) && Members(s) != [] ==> Split(JoinOrZero(Members(s))) == Names(Members(s))
  {
    if WellFormed(s.allFlags) {
      MembersValid(s);
      JoinedNames(Members(s));
    }
  }

  /** With no stray bits, the value is the OR of its enabled members. */
  lemma CleanIsCopy(s: Snapshot)
    requires Clean(s)
    ensures CopyValue(s) == s.value
  {
    OrAllEnabled(s.allFlags.members, s.value);
  }

  /** The membership test raises nothing but TypeError. */
  lemma {:induction false} ScanRaisesTypeError(s: Snapshot, e: FlagEnum, fs: seq<Member>)
    ensures Scan(s, e, fs).Err? ==> Scan(s, e, fs).error == TypeError
    decreases |fs|
  {
    if fs != [] {
      ScanRaisesTypeError(s, e, fs[1..]);
    }
  }

  // ---------------------------------------------------------------------------
  // The class

  class Bitmask {
    /** `AllFlags`: the enumeration, fixed at construction. */
    const allFlags: FlagEnum
    /** `value`: the stored integer. */
    var value: int

    function View(): Snapshot
      reads this
    {
      Snapshot(allFlags, value)
    }

    /** `Bitmask(AllFlags)` before any flag is added: the value is `AllFlags(0)`. */
    constructor Empty(allFlags: FlagEnum)
      ensures this.allFlags == allFlags && value == 0
    {
      this.allFlags := allFlags;
      value := 0;
    }

    /** `Bitmask(AllFlags, *flags)`: add each flag in turn; the first non-flag raises TypeError. */
    static method New(allFlags: FlagEnum, flags: seq<Operand>) returns (r: Result<Bitmask>)
      ensures r.Ok? <==> forall i :: 0 <= i < |flags| ==> IsFlagOf(allFlags, flags[i])
      ensures r.Err? ==> r.error == TypeError
      ensures r.Ok? ==> fresh(r.ok) && r.ok.allFlags == allFlags && r.ok.value == OrAll(FlagValues(flags))
    {
      var b := new Bitmask.Empty(allFlags);
      var i := 0;
      while i < |flags|
        invariant 0 <= i <= |flags|
        invariant fresh(b) && b.allFlags == allFlags
        invariant forall j :: 0 <= j < i ==> IsFlagOf(allFlags, flags[j])
        invariant b.value == OrAll(FlagValues(flags[..i]))
      {
        var o := b.Add(flags[i]);
        if o.Fail? {
          return Err(o.error);
        }
        assert FlagValues(flags[..i + 1])[..i] == FlagValues(flags[..i]);
        i := i + 1;
      }
      assert flags[..i] == flags;
      return Ok(b);
    }

    /** The `value` setter: any `int` is stored as given, sign and stray bits included. */
    method SetValue(a: Assigned) returns (o: Outcome)
      modifies this
      ensures a.Int? ==> o == Pass && value == a.n
      ensures a.NonInt? ==> o == Fail(TypeError) && value == old(value)
    {
      if a.NonInt? {
        return Fail(TypeError);
      }
      value := a.n;
      return Pass;
    }

    /** `int(b)`: the stored integer. */
    function AsInt(): (r: int)
      reads this
      ensures r == value
    {
      value
    }

    /** `item in b`: a bit test for a flag, a subset test over another bitmask's flags. */
    method Contains(item: Operand) returns (r: Result<bool>)
      ensures r == ContainsSpec(View(), item)
      decreases if item.Mask? then 1 else 0
    {
      match item {
        case Mask(t) =>
          var fs := IterFlags(t);
          var i := 0;
          while i < |fs|
            invariant 0 <= i <= |fs|
            invariant Scan(View(), t.allFlags, fs[i..]) == Scan(View(), t.allFlags, fs)
          {
            assert fs[i..][1..] == fs[i + 1..];
            var c := Contains(Flag(t.allFlags, fs[i].Value()));
            if c.Err? {
              return Err(c.error);
            }
            if !c.ok {
              return Ok(false);
            }
            i := i + 1;
          }
          return Ok(true);
        case Flag(e, bits) =>
          if e != allFlags {
            return Err(TypeError);
          }
          return Ok(Has(value, bits));
        case Other =>
          return Err(TypeError);
      }
    }

    /** `list(b)`: the enabled members in declaration order. */
    method Iter() returns (fs: seq<Member>)
      ensures fs == Members(View())
    {
      fs := IterFlags(View());
    }

    /** `str(b)`: the enabled members' names joined with `|`, or `0` when that is empty. */
    function Str(): (r: string)
      reads this
      ensures WellFormed(allFlags) ==> (r == "0" <==> Members(View()) == [])
      ensures WellFormed(allFlags) && Members(View()) != [] ==> Split(r) == Names(Members(View()))
    {
      MembersText(View());
      JoinOrZero(Members(View()))
    }

    /**
     * `b == other`: never raises. Only a bitmask of the same enumeration can
     * be equal, and then exactly when the values are equal.
     */
    function Equals(other: Operand): (r: bool)
      reads this
      ensures !other.Mask? || other.mask.allFlags != allFlags ==> !r
      ensures other.Mask? && other.mask.allFlags == allFlags ==> (r <==> other.mask.value == value)
      ensures r ==> Members(other.mask) == Members(View())
    {
      if !other.Mask? then false
      else if other.mask.allFlags != allFlags then false
      else other.mask.value == value
    }

    /** `_flag_op`: apply `op` with a flag of the bitmask's own enumeration, else raise TypeError. */
    method FlagOp(flag: Operand, op: BinOp) returns (o: Outcome)
      modifies this
      ensures IsFlagOf(allFlags, flag) ==> o == Pass && value == Apply(op, old(value), flag.bits)
      ensures !IsFlagOf(allFlags, flag) ==> o == Fail(TypeError) && value == old(value)
    {
      if !IsFlagOf(allFlags, flag) {
        return Fail(TypeError);
      }
      o := SetValue(Int(Apply(op, value, flag.bits)));
    }

    /** `__mask_op`: a new bitmask holding `self op other`; `self` is not changed. */
    method MaskOp(other: Operand, op: BinOp) returns (r: Result<Bitmask>)
      ensures r.Ok? ==> fresh(r.ok)
      ensures Yields(r, MaskOpSpec(View(), other, op))
    {
      var fs := Iter();
      var made := New(allFlags, MemberFlags(allFlags, fs));
      var copy := made.ok;
      assert FlagValues(MemberFlags(allFlags, fs)) == Values(fs);
      match other {
        case Mask(t) =>
          var o := copy.SetValue(Int(Apply(op, value, t.value)));
          return Ok(copy);
        case Flag(_, _) =>
          var o := copy.FlagOp(other, op);
          if o.Fail? {
            return Err(o.error);
          }
          return Ok(copy);
        case Other =>
          return Err(TypeError);
      }
    }

    /** `add`: set the bits of a flag of the bitmask's own enumeration. */
    method Add(flag: Operand) returns (o: Outcome)
      modifies this
      ensures IsFlagOf(allFlags, flag) ==> o == Pass && value == Apply(Union, old(value), flag.bits)
      ensures !IsFlagOf(allFlags, flag) ==> o == Fail(TypeError) && value == old(value)
    {
      o := FlagOp(flag, Union);
    }

    /** `b + other`. */
    method Plus(other: Operand) returns (r: Result<Bitmask>)
      ensures r.Ok? ==> fresh(r.ok)
      ensures Yields(r, MaskOpSpec(View(), other, Union))
    {
      r := MaskOp(other, Union);
    }

    /** `other + b`, which is `b + other`. */
    method ReflectedPlus(other: Operand) returns (r: Result<Bitmask>)
      ensures r.Ok? ==> fresh(r.ok)
      ensures Yields(r, MaskOpSpec(View(), other, Union))
    {
      r := Plus(other);
    }

    /** `b | other`, which is `b + other`. */
    method BitOr(other: Operand) returns (r: Result<Bitmask>)
      ensures r.Ok? ==> fresh(r.ok)
      ensures Yields(r, MaskOpSpec(View(), other, Union))
    {
      r := Plus(other);
    }

    /** `other | b`, which is `b | other`. */
    method ReflectedBitOr(other: Operand) returns (r: Result<Bitmask>)
      ensures r.Ok? ==> fresh(r.ok)
      ensures Yields(r, MaskOpSpec(View(), other, Union))
    {
      r := BitOr(other);
    }

    /** `b ^ other`. */
    method BitXor(other: Operand) returns (r: Result<Bitmask>)
      ensures r.Ok? ==> fresh(r.ok)
      ensures Yields(r, MaskOpSpec(View(), other, SymmetricDifference))
    {
      r := MaskOp(other, SymmetricDifference);
    }

    /** `other ^ b`, which is `b ^ other`. */
    method ReflectedBitXor(other: Operand) returns (r: Result<Bitmask>)
      ensures r.Ok? ==> fresh(r.ok)
      ensures Yields(r, MaskOpSpec(View(), other, SymmetricDifference))
    {
      r := BitXor(other);
    }

    /** `b & other`. */
    method BitAnd(other: Operand) returns (r: Result<Bitmask>)
      ensures r.Ok? ==> fresh(r.ok)
      ensures Yields(r, MaskOpSpec(View(), other, Intersection))
    {
      r := MaskOp(other, Intersection);
    }

    /** `other & b`, which is `b & other`. */
    method ReflectedBitAnd(other: Operand) returns (r: Result<Bitmask>)
      ensures r.Ok? ==> fresh(r.ok)
      ensures Yields(r, MaskOpSpec(View(), other, Intersection))
    {
      r := BitAnd(other);
    }

    /** `b - other`: the value `b & ~other`. */
    method Minus(other: Operand) returns (r: Result<Bitmask>)
      ensures r.Ok? ==> fresh(r.ok)
      ensures Yields(r, MaskOpSpec(View(), other, Difference))
    {
      r := MaskOp(other, Difference);
    }

    /** `discard`: clear the bits of a flag of the bitmask's own enumeration, present or not. */
    method Discard(flag: Operand) returns (o: Outcome)
      modifies this
      ensures IsFlagOf(allFlags, flag) ==> o == Pass && value == Apply(Difference, old(value), flag.bits)
      ensures !IsFlagOf(allFlags, flag) ==> o == Fail(TypeError) && value == old(value)
    {
      if !IsFlagOf(allFlags, flag) {
        return Fail(TypeError);
      }
      o := FlagOp(flag, Difference);
    }

    /**
     * `remove`: KeyError when `flag in b` is false, the membership test's own
     * TypeError when it raises, and otherwise `discard`, which raises
     * TypeError for a bitmask argument.
     */
    method Remove(flag: Operand) returns (o: Outcome)
      modifies this
      ensures ContainsSpec(old(View()), flag) == Ok(false) ==> o == Fail(KeyError) && value == old(value)
      ensures ContainsSpec(old(View()), flag).Err? ==> o == Fail(TypeError) && value == old(value)
      ensures ContainsSpec(old(View()), flag) == Ok(true) && flag.Flag? ==>
                o == Pass && value == Apply(Difference, old(value), flag.bits)
      ensures ContainsSpec(old(View()), flag) == Ok(true) && !flag.Flag? ==> o == Fail(TypeError) && value == old(value)
    {
      var c := Contains(flag);
      if flag.Mask? {
        ScanRaisesTypeError(View(), flag.mask.allFlags, Members(flag.mask));
      }
      if c.Err? {
        return Fail(c.error);
      }
      if !c.ok {
        return Fail(KeyError);
      }
      o := Discard(flag);
    }

    // The top-level `bitmask.py` also defines these in-place hooks; each
    // returns a new bitmask and leaves this one as it was.

    /** `b += other`: `__iadd__` returns `b + other`. */
    method PlusAssign(other: Operand) returns (r: Result<Bitmask>)
      ensures r.Ok? ==> fresh(r.ok)
      ensures Yields(r, MaskOpSpec(View(), other, Union))
    {
      r := Plus(other);
    }

    /** `b |= other`: `__ior__` returns `b | other`. */
    method OrAssign(other: Operand) returns (r: Result<Bitmask>)
      ensures r.Ok? ==> fresh(r.ok)
      ensures Yields(r, MaskOpSpec(View(), other, Union))
    {
      r := BitOr(other);
    }

    /** `b -= other`: `__isub__` rebinds its local `self` to `b - other` and returns it. */
    method MinusAssign(other: Operand) returns (r: Result<Bitmask>)
      ensures r.Ok? ==> fresh(r.ok)
      ensures Yields(r, MaskOpSpec(View(), other, Difference))
    {
      r := Minus(other);
    }
  }

  /** `"|".join(names) or "0"`. */
  function JoinOrZero(ms: seq<Member>): string {
    var joined := Join(Names(ms));
    if joined == [] then "0" else joined
  }

  /** `list(b)` for a bitmask read as a value: `for flag in AllFlags: if flag in b: yield flag`. */
  method IterFlags(s: Snapshot) returns (fs: seq<Member>)
    ensures fs == Members(s)
  {
    var ms := s.allFlags.members;
    fs := [];
    var i := 0;
    while i < |ms|
      invariant 0 <= i <= |ms|
      invariant fs == Enabled(ms[..i], s.value)
    {
      assert ms[..i + 1][..i] == ms[..i];
      if ContainsSpec(s, Flag(s.allFlags, ms[i].Value())) == Ok(true) {
        fs := fs + [ms[i]];
      }
      i := i + 1;
    }
    assert ms[..i] == ms;
  }

  /** The augmented assignments of the top-level version. */
  datatype AugmentedOperator = PlusEq | OrEq | XorEq | AndEq | MinusEq

  function Operation(a: AugmentedOperator): BinOp {
    match a
    case PlusEq => Union
    case OrEq => Union
    case XorEq => SymmetricDifference
    case AndEq => Intersection
    case MinusEq => Difference
  }

  /**
   * `b op= other`: Python calls the in-place hook where the class has one.
   * `__ixor` and `__iand` lack the trailing underscores, so `^=` and `&=`
   * fall back to `^` and `&`. Every form binds the name to a new bitmask
   * and leaves the old one unchanged.
   */
  method AugmentedAssign(b: Bitmask, a: AugmentedOperator, other: Operand) returns (r: Result<Bitmask>)
    ensures r.Ok? ==> fresh(r.ok)
    ensures Yields(r, MaskOpSpec(b.View(), other, Operation(a)))
  {
    match a {
      case PlusEq => r := b.PlusAssign(other);
      case OrEq => r := b.OrAssign(other);
      case XorEq => r := b.BitXor(other);
      case AndEq => r := b.BitAnd(other);
      case MinusEq => r := b.MinusAssign(other);
    }
  }
}
