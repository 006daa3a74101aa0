# bitmask, modelled in Dafny

`Bitmask` wraps one integer and treats it as a set of named power-of-two flags
drawn from a flag enumeration (a Python `IntFlag` class) fixed at
construction. It offers:

- membership (`flag in b`, and `b2 in b` as a subset test);
- iteration in declaration order;
- `str` (`SMALL|FUNKY`, or `0` when empty) and `int`;
- total equality;
- the copying operators `+ | ^ & -` and their reflected forms;
- the mutators `add`, `discard`, `remove` and the `value` setter.

Errors are Python's TypeError and KeyError.

The class exists in two versions: the packaged `bitmask/bitmask.py` and the
older top-level `bitmask.py`. Every shared member is the same in both, so one
Dafny class models both. The older version's in-place hooks (`__iadd__`,
`__ior__`, `__isub__`) are `PlusAssign`, `OrAssign` and `MinusAssign`.
`AugmentedAssign` gives the meaning of every `op=` statement, including `^=`
and `&=`. Their hooks are misnamed (`__ixor`, `__iand`), so Python falls back
to `^` and `&`.

Files:

- `int_bits.dfy` (module `IntBits`): Python's `|`, `^`, `&` and `& ~` on
  unbounded integers. An integer is an infinite two's-complement bit string,
  as Python's `int` is. Every law is proved bit by bit, then lifted to
  integers by `BitsDetermine`.
- `flags.dfy` (module `Flags`): flag enumerations, the members a value
  enables in declaration order, OR-folds, and `"|".join` / `split`.
- `bitmask.dfy` (module `Bitmasks`): operands and results as datatypes, the
  functions that say what each operation computes, and the class `Bitmask`
  with its methods. The methods are proved against those functions.
- `laws.dfy` (module `BitmaskLaws`): the set laws the class promises,
  stated over those functions.
- `scenarios.dfy` (module `Scenarios`): the unit tests' examples on
  `Desc(SMALL = 1, ROUND = 2, FUNKY = 4)`, stated through the class's methods.

How the model represents Python:

- A Python argument is an `Operand`:
  - a flag of some enumeration, carrying its integer value;
  - another bitmask, passed as its enumeration and value, because the class
    only ever reads the other bitmask;
  - anything else.
- `issubclass` between enumerations is equality of enumerations.
- A member of an enumeration is its name plus the position of its single
  bit.
- A Python `bool` assigned to `value` is the integer it stands for.

What the code does, stated as the model states it:

- The `value` setter stores any integer, negative ones such as `-1`
  included, and rejects only non-integers. test_bitmask.py:121-122 expects
  `-1` to raise; the code at bitmask.py:92-96 does not check the sign.
- Two bitmasks of different enumerations combine without error: `__mask_op`
  never compares them. The result takes the left operand's enumeration.
- Equality compares raw values. Two bitmasks that enable the same members
  but differ in a stray bit (one that belongs to no member) are unequal.
- `b in b` is a subset test and returns true. test_bitmask.py:130-131
  expects it to raise TypeError.
- Both versions require the enumeration at construction. The packaged
  tests' `Bitmask()` and `Bitmask(Desc.SMALL)` (tests/test_bitmask.py:25,
  26, 41) cannot be built by the class as written.

## Model

| member | source | states |
|---|---|---|
| IntBits.TestBitApply | bitmask/bitmask.py:153-191 | each of the operators' lambdas `a\|b`, `a^b`, `a&b`, `a&~b` (lines 155, 159, 175, 183, 191) has bit k set exactly when the one-bit operation on the operands' bit k says so, for all integers, negative ones included |
| IntBits.DifferenceIsAndNot | bitmask/bitmask.py:191 | the difference operator is Python's `a & ~b`, with `~a == -a-1` |
| IntBits.HasApply | bitmask/bitmask.py:81 | whether `bool(op(a, b) & 2**p)` holds depends only on whether `a` and `b` have bit p |
| IntBits.HasPow2 | bitmask/bitmask.py:81 | `bool(v & 2**p)` holds exactly when bit p of v is set |
| IntBits.ApplyCommutes | bitmask/bitmask.py:157-187 | `\|`, `^` and `&` are commutative on all integers |
| IntBits.BitsDetermine | bitmask/bitmask.py:108-115 | two integers with the same bits at every position are equal: integer extensionality, through which every law about values here is lifted from single bits, including what the raw-value comparison of `__eq__` (line 115) sees |
| Flags.TestBitOrAll | bitmask/bitmask.py:53-54 | the OR of a list of flags has bit k exactly when one of the flags has it |
| Flags.OrAllPermutation | bitmask/bitmask.py:53-54 | ORing the flags in any order gives the same value |
| Flags.OrAllSameElements | bitmask/bitmask.py:53-54 | ORing two lists with the same elements, repeated or not, gives the same value |
| Flags.TestBitOrAllValues | bitmask/bitmask.py:140 | the OR of a list of members has bit k exactly when a listed member owns bit k |
| Flags.EnabledIn | bitmask/bitmask.py:87-91 | iteration yields a member exactly when it is declared and `value & member` is non-zero |
| Flags.EnabledAppend | bitmask/bitmask.py:87-91 | iterating over two consecutive parts of the enumeration yields the first part's flags, then the second part's: members declared earlier are always yielded first |
| Flags.OrAllEnabled | bitmask/bitmask.py:140 | rebuilding a bitmask from the flags it yields gives `value & (m0 \| m1 \| ...)`: stray bits are cleared, and so is the sign |
| Flags.SplitJoin | bitmask/bitmask.py:100 | joining names without `\|` and splitting on `\|` gives the names back |
| Flags.JoinNotZero | bitmask/bitmask.py:100 | names that are non-empty and not `0` never join to `""` or `"0"` |
| Bitmasks.ScanRaisesTypeError | bitmask/bitmask.py:74-85 | the subset scan raises nothing but TypeError |
| Bitmasks.MembersText | bitmask/bitmask.py:99-100 | for a well-formed enumeration, `"\|".join(names) or "0"` is `"0"` exactly when no member is enabled, and otherwise splits back into the enabled names |
| Bitmasks.CleanIsCopy | bitmask/bitmask.py:140 | with no stray bits, the copy `__mask_op` builds has the original value |
| Bitmasks.Bitmask.Empty | bitmask/bitmask.py:47-51 | a new bitmask is bound to the given enumeration with value `AllFlags(0)` = 0 |
| Bitmasks.Bitmask.New | bitmask/bitmask.py:47-54 | construction succeeds exactly when every argument is a flag of the enumeration, otherwise it raises TypeError. The value is the OR of the flags |
| Bitmasks.Bitmask.SetValue | bitmask/bitmask.py:66-70 | any int, negatives included, is stored unchanged; anything else raises TypeError and leaves the value alone |
| Bitmasks.Bitmask.AsInt | bitmask/bitmask.py:93-94 | `int(b)` is the stored value |
| Bitmasks.Bitmask.Contains | bitmask/bitmask.py:72-85 | the result is the flag test for a flag, the early-exit scan over the item's flags for a bitmask, and TypeError for anything else |
| Bitmasks.IterFlags | bitmask/bitmask.py:87-91 | the loop yields exactly the enabled members in declaration order |
| Bitmasks.Bitmask.Iter | bitmask/bitmask.py:87-91 | `list(b)` is the enabled members in declaration order |
| Bitmasks.Bitmask.Str | bitmask/bitmask.py:99-100 | for a well-formed enumeration: `"0"` exactly when no member is enabled. Otherwise, splitting the text on `\|` gives the enabled members' names in order |
| Bitmasks.Bitmask.Equals | bitmask/bitmask.py:108-115 | false for a non-bitmask or a different enumeration. For the same enumeration, true exactly when the values are equal. Equal bitmasks yield the same members |
| Bitmasks.Bitmask.FlagOp | bitmask/bitmask.py:117-129 | with a flag of the own enumeration the value becomes `op(value, flag)`; otherwise TypeError and no change |
| Bitmasks.Bitmask.MaskOp | bitmask/bitmask.py:131-151 | returns a fresh bitmask bound to `self.AllFlags`. With a bitmask operand its value is `op(self.value, other.value)`; with an own flag it is `op(copy, flag)`. Anything else raises TypeError. `self` is unchanged |
| Bitmasks.Bitmask.Add | bitmask/bitmask.py:153-155 | `value` becomes `value \| flag` for an own flag; otherwise TypeError and no change |
| Bitmasks.Bitmask.Plus | bitmask/bitmask.py:157-159 | `b + other` is the mask operation with `a \| b` |
| Bitmasks.Bitmask.ReflectedPlus | bitmask/bitmask.py:161-163 | `other + b` gives the same result as `b + other` |
| Bitmasks.Bitmask.BitOr | bitmask/bitmask.py:165-167 | `b \| other` gives the same result as `b + other` |
| Bitmasks.Bitmask.ReflectedBitOr | bitmask/bitmask.py:169-171 | `other \| b` gives the same result as `b \| other` |
| Bitmasks.Bitmask.BitXor | bitmask/bitmask.py:173-175 | `b ^ other` is the mask operation with `a ^ b` |
| Bitmasks.Bitmask.ReflectedBitXor | bitmask/bitmask.py:177-179 | `other ^ b` gives the same result as `b ^ other` |
| Bitmasks.Bitmask.BitAnd | bitmask/bitmask.py:181-183 | `b & other` is the mask operation with `a & b` |
| Bitmasks.Bitmask.ReflectedBitAnd | bitmask/bitmask.py:185-187 | `other & b` gives the same result as `b & other` |
| Bitmasks.Bitmask.Minus | bitmask/bitmask.py:189-191 | `b - other` is the mask operation with `a & ~b` |
| Bitmasks.Bitmask.Discard | bitmask/bitmask.py:193-206 | for an own flag, `value` becomes `value & ~flag` whether or not the flag was present; otherwise TypeError and no change |
| Bitmasks.Bitmask.Remove | bitmask/bitmask.py:208-219 | KeyError and no change when the item is not contained. The membership test's TypeError passes through. A contained flag is discarded; a contained bitmask raises TypeError from `discard` |
| Bitmasks.Bitmask.PlusAssign | bitmask.py:188-193 | `b += other` returns a new bitmask equal to `b + other` and leaves `b` unchanged |
| Bitmasks.Bitmask.OrAssign | bitmask.py:203-208 | `b \|= other` returns a new bitmask equal to `b \| other` and leaves `b` unchanged |
| Bitmasks.Bitmask.MinusAssign | bitmask.py:244-250 | `b -= other` returns a new bitmask equal to `b - other` and leaves `b` unchanged |
| Bitmasks.AugmentedAssign | bitmask.py:218-238 | every `op=` binds a new bitmask equal to the binary result. `^=` and `&=` reach `^` and `&` because `__ixor` and `__iand` are not hooks |
| BitmaskLaws.ConstructionOrder | bitmask/bitmask.py:47-54 | the value a bitmask is built with depends only on which flags are given, not on their order or repetition |
| BitmaskLaws.ConstructedMembers | bitmask/bitmask.py:47-54 | a bitmask built from members of a well-formed enumeration contains exactly those members |
| BitmaskLaws.AddPresent | bitmask.py:176-178 | adding a member already present leaves `value` unchanged |
| BitmaskLaws.AddIdempotent | test_bitmask.py:40-45 | adding the same flag twice is adding it once |
| BitmaskLaws.AddMembers | bitmask/bitmask.py:153-155 | after `add(m)` the enabled members are the old ones plus `m` |
| BitmaskLaws.DiscardIdempotent | bitmask/bitmask.py:193-206 | discarding a flag twice is discarding it once |
| BitmaskLaws.DiscardAbsent | bitmask/bitmask.py:193-206 | discarding an absent member changes nothing |
| BitmaskLaws.DiscardMembers | bitmask/bitmask.py:193-206 | after `discard(m)` the enabled members are the old ones without `m` |
| BitmaskLaws.AddThenDiscard | bitmask/bitmask.py:193-206 | discarding a member just added restores the previous value |
| BitmaskLaws.FlagMembership | bitmask/bitmask.py:80-81 | a declared member is `in b` exactly when iteration yields it |
| BitmaskLaws.ScanSubset | bitmask/bitmask.py:74-79 | the scan over declared members returns whether all of them are in `b` |
| BitmaskLaws.MaskMembership | bitmask/bitmask.py:74-79 | a bitmask of the same enumeration is `in b` exactly when its members are a subset of `b`'s |
| BitmaskLaws.SelfMembership | bitmask/bitmask.py:74-79 | every bitmask contains itself |
| BitmaskLaws.ContainsRaises | bitmask/bitmask.py:72-85 | membership raises exactly for a non-operand, a foreign flag, or a non-empty bitmask of another enumeration |
| BitmaskLaws.EqualIffSameFlags | bitmask/bitmask.py:108-115 | two bitmasks of one enumeration with no stray bits have equal values exactly when they enable the same members |
| BitmaskLaws.MaskOpRaises | bitmask/bitmask.py:142-149 | the operators raise exactly for a foreign flag or a non-operand. A bitmask of any enumeration is accepted, and the result keeps the left enumeration |
| BitmaskLaws.CopyKeepsMember | bitmask/bitmask.py:140 | the copy enables every declared member the original enables, and no other |
| BitmaskLaws.MaskOpMembers | bitmask/bitmask.py:142-143 | between bitmasks of one enumeration, `+ \| ^ & -` are union, union, symmetric difference, intersection and difference of the enabled members |
| BitmaskLaws.FlagOpMembers | bitmask/bitmask.py:144-145 | with a flag, each operator is the same set operation between the enabled members and the flag's bits |
| BitmaskLaws.FlagPathDropsStrayBits | bitmask/bitmask.py:140-145 | with a flag operand, only `value & (m0 \| m1 \| ...)` takes part: stray bits of `self` are lost |
| BitmaskLaws.CleanPathsAgree | bitmask/bitmask.py:140-145 | for a bitmask with no stray bits, a flag operand acts as a bitmask holding the same bits would |
| BitmaskLaws.MaskOpCommutes | bitmask/bitmask.py:157-187 | `+`, `\|`, `^` and `&` between bitmasks of one enumeration give the same result in either order |
| BitmaskLaws.CrossEnumOrderMatters | bitmask/bitmask.py:142-143 | between bitmasks of different enumerations, both orders succeed; the results differ at least in the enumeration each is bound to, the left operand's |
| Scenarios.DescMembers | test_bitmask.py:133-138 | a `Desc` bitmask yields SMALL, ROUND, FUNKY in that order, each exactly when its bit is set |
| Scenarios.ValueScenario | test_bitmask.py:98-102 | `Bitmask(Desc, SMALL, FUNKY).value` is 5, and 7 after `add(ROUND)`; `int()` agrees |
| Scenarios.StrScenario | test_bitmask.py:140-145 | `str(Bitmask(Desc, SMALL, FUNKY))` is `SMALL\|FUNKY` |
| Scenarios.AddStrScenario | test_bitmask.py:146-150 | after `add(ROUND)` it is `SMALL\|ROUND\|FUNKY` |
| Scenarios.EmptyStrScenario | test_bitmask.py:152-155 | an empty bitmask prints as `0` |
| Scenarios.RoundStrScenario | test_bitmask.py:156-160 | after `add(ROUND)` an empty bitmask prints as `ROUND` |
| Scenarios.ContainsScenario | test_bitmask.py:124-131 | FUNKY is in, ROUND is not, and a non-operand raises TypeError. `b in b` is true: the code gives no TypeError here |
| Scenarios.RemoveScenario | test_bitmask.py:68-78 | `remove(SMALL)` leaves FUNKY; removing it again, or from an empty bitmask, raises KeyError |
| Scenarios.DiscardScenario | test_bitmask.py:80-96 | `discard(SMALL)` leaves FUNKY (value 4); a second discard, or one on an empty bitmask, passes without change |
| Scenarios.IterScenario | test_bitmask.py:133-138 | iterating `Bitmask(Desc, SMALL, FUNKY)` yields `[SMALL, FUNKY]` |
| Scenarios.PlusFlagScenario | test_bitmask.py:47-61 | `b + ROUND` and `ROUND + b` both give value 7 |
| Scenarios.PlusMasksScenario | test_bitmask.py:62-66 | `b + b2 + b3` gives value 7 |
| Scenarios.EqualityScenario | test_bitmask.py:18-24 | two `Bitmask(Desc, ROUND)` are equal; `Bitmask(Desc, SMALL, FUNKY)` differs from them and from a bare flag |
| Scenarios.SetterScenario | bitmask.py:92-96 | assigning -1 succeeds and enables every member; assigning a non-integer raises TypeError and keeps the value |
| Scenarios.StrayBitScenario | bitmask/bitmask.py:140-145 | with value 8 (no member), `b + Bitmask(Desc)` keeps 8 and `b + SMALL` gives 1. `b` differs from `Bitmask(Desc)`, though neither yields a member |

## Left out

- `__repr__`, `bitmask/util.py`'s `fullname` and the `eval(repr(b)) == b`
  round trip. They depend on Python's class-name reflection and `eval`.
- `hex(b)` and `__index__`. They are Python built-in formatting; only
  `int(b)` is modelled, as `AsInt`.
- The text of error messages and the `type_name` helper. Errors are tags
  (TypeError, KeyError).
- A bitmask without an enumeration (`Bitmask()`, `Bitmask(Desc.SMALL)`).
  Neither version can build one.
- Python's type system beyond the three operand kinds:
  - subclasses of an enumeration;
  - the stored value's Python type (an `IntFlag` pseudo-member rather than
    an `int`). The model computes with the integer alone, as plain `int`
    arithmetic, which is what `IntFlag` does up to Python 3.10.
- Python 3.11+ `IntFlag` arithmetic. The model computes as plain `int`
  does, which is what `IntFlag` does up to Python 3.10, and the source does
  not pin a version. From 3.11, `IntFlag` keeps its type through `~ | & ^`.
  A negative result is folded to a non-negative value (`~SMALL` of `Desc` is
  6, not -2). Non-negative bits that no member owns are kept. A stored
  negative value therefore changes the results of `add`, `discard`, `remove`
  and the operators; a stored stray bit changes only `discard`, `remove` and
  `-` between bitmasks. After `value = 8`, `discard(SMALL)` leaves 8 in the
  model and 0 on 3.11+; after `value = -1`, `add(SMALL)` leaves -1 in the
  model and 7 on 3.11+. For values made only of member bits the two agree.
- Enumerations whose iteration yields aliases or multi-bit members: every
  member is one distinct bit. A composite or out-of-range flag value passed
  as an operand is modelled.
- Python's operator dispatch (which of `flag.__add__` and `b.__radd__`
  runs). The reflected methods themselves are modelled.
- Laziness of `__iter__`: iteration returns the whole list.
- Bitmasks.Bitmask.Str: the split-back and `"0"` guarantees are stated only
  for well-formed enumerations (non-empty names without `|`, other than
  `0`). For other names the text is still computed.
- BitmaskLaws.EqualIffSameFlags: stated only for bitmasks without stray
  bits, because with stray bits the raw values can differ while the members
  agree.
