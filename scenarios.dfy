/**
 * The behaviour the unit tests exercise, on their enumeration
 * `Desc(SMALL = 1, ROUND = 2, FUNKY = 4)`, stated through the class's methods.
 * Where the code and a test's expectation part ways, the scenario states
 * what the code does.
 */
module Scenarios {
  import opened IntBits
  import opened Flags
  import opened Bitmasks
  import opened BitmaskLaws

  function Small(): Member { Member("SMALL", 0) }
  function Round(): Member { Member("ROUND", 1) }
  function Funky(): Member { Member("FUNKY", 2) }

  function Desc(): FlagEnum {
    FlagEnum("Desc", [Small(), Round(), Funky()])
  }

  /** A member of `Desc` passed as an argument. */
  function F(m: Member): Operand {
    Flag(Desc(), m.Value())
  }

  /** Iterating a `Desc` bitmask yields SMALL, ROUND, FUNKY, each exactly when its bit is set. */
  lemma DescMembers(v: int)
    ensures Members(Snapshot(Desc(), v))
         == (if TestBit(v, 0) then [Small()] else [])
          + (if TestBit(v, 1) then [Round()] else [])
          + (if TestBit(v, 2) then [Funky()] else [])
  {
    var ms := Desc().members;
    HasPow2(v, 0);
    HasPow2(v, 1);
    HasPow2(v, 2);
    assert ms[..1][..0] == [];
    assert ms[..2][..1] == ms[..1];
    assert ms[..3][..2] == ms[..2];
    assert ms[..3] == ms;
    assert Enabled(ms[..1], v) == (if TestBit(v, 0) then [Small()] else []);
    assert Enabled(ms[..2], v) == Enabled(ms[..1], v) + (if TestBit(v, 1) then [Round()] else []);
    assert Enabled(ms, v) == Enabled(ms[..2], v) + (if TestBit(v, 2) then [Funky()] else []);
  }

  // The members the values used below enable.

  lemma MembersOf0()
    ensures Members(Snapshot(Desc(), 0)) == []
  {
    DescMembers(0);
    assert !TestBit(0, 0) && !TestBit(0, 1) && !TestBit(0, 2);
  }

  lemma MembersOf2()
    ensures Members(Snapshot(Desc(), 2)) == [Round()]
  {
    DescMembers(2);
    assert !TestBit(2, 0) && TestBit(2, 1) && !TestBit(2, 2);
  }

  lemma MembersOf5()
    ensures Members(Snapshot(Desc(), 5)) == [Small(), Funky()]
  {
    DescMembers(5);
    assert TestBit(5, 0) && !TestBit(5, 1) && TestBit(5, 2);
  }

  lemma MembersOf7()
    ensures Members(Snapshot(Desc(), 7)) == [Small(), Round(), Funky()]
  {
    DescMembers(7);
    assert TestBit(7, 0) && TestBit(7, 1) && TestBit(7, 2);
  }

  lemma MembersOf8()
    ensures Members(Snapshot(Desc(), 8)) == []
  {
    DescMembers(8);
    assert !TestBit(8, 0) && !TestBit(8, 1) && !TestBit(8, 2);
  }

  lemma MembersOfMinusOne()
    ensures Members(Snapshot(Desc(), -1)) == [Small(), Round(), Funky()]
  {
    DescMembers(-1);
    TestBitEnd(-1, 0);
    TestBitEnd(-1, 1);
    TestBitEnd(-1, 2);
  }

  /** The copy `__mask_op` makes of `Bitmask(Desc, SMALL, FUNKY)` has its value. */
  lemma CopyOf5()
    ensures CopyValue(Snapshot(Desc(), 5)) == 5
  {
    MembersOf5();
    assert Values([Small(), Funky()]) == [1, 4];
    assert OrAll([1, 4]) == 5;
  }

  /** The copy of a mask holding only the stray bit 8 is empty. */
  lemma CopyOf8()
    ensures CopyValue(Snapshot(Desc(), 8)) == 0
  {
    MembersOf8();
    assert Values([]) == [];
  }

  lemma DescTexts()
    ensures JoinOrZero([Small(), Funky()]) == "SMALL|FUNKY"
    ensures JoinOrZero([Small(), Round(), Funky()]) == "SMALL|ROUND|FUNKY"
    ensures JoinOrZero([]) == "0"
    ensures JoinOrZero([Round()]) == "ROUND"
  {
    assert Names([Small(), Funky()]) == ["SMALL", "FUNKY"];
    assert Names([Small(), Round(), Funky()]) == ["SMALL", "ROUND", "FUNKY"];
    assert Names([Round()]) == ["ROUND"];
    assert Names([]) == [];
  }

  /** `Bitmask(Desc, SMALL, FUNKY)`. */
  method SmallFunky() returns (b: Bitmask)
    ensures fresh(b) && b.View() == Snapshot(Desc(), 5)
  {
    var made := Bitmask.New(Desc(), [F(Small()), F(Funky())]);
    assert FlagValues([F(Small()), F(Funky())]) == [1, 4];
    assert OrAll([1, 4]) == 5;
    b := made.ok;
  }

  /** `Bitmask(Desc, ROUND)`. */
  method RoundOnly() returns (b: Bitmask)
    ensures fresh(b) && b.View() == Snapshot(Desc(), 2)
  {
    var made := Bitmask.New(Desc(), [F(Round())]);
    assert FlagValues([F(Round())]) == [2];
    assert OrAll([2]) == 2;
    b := made.ok;
  }

  /** `Bitmask(Desc, SMALL, FUNKY).value` is 5; after `add(ROUND)` it is 7, and `int()` agrees. */
  method ValueScenario() returns (before: int, after: int, asInt: int)
    ensures before == 5 && after == 7 && asInt == 7
  {
    var b := SmallFunky();
    before := b.value;
    var o := b.Add(F(Round()));
    assert Apply(Union, 5, 2) == 7;
    after := b.value;
    asInt := b.AsInt();
  }

  /** `str(Bitmask(Desc, SMALL, FUNKY))` is `SMALL|FUNKY`. */
  method StrScenario() returns (text: string)
    ensures text == "SMALL|FUNKY"
  {
    var b := SmallFunky();
    MembersOf5();
    DescTexts();
    text := b.Str();
  }

  /** After `add(ROUND)` the same mask prints as `SMALL|ROUND|FUNKY`. */
  method AddStrScenario() returns (text: string)
    ensures text == "SMALL|ROUND|FUNKY"
  {
    var b := SmallFunky();
    var o := b.Add(F(Round()));
    assert Apply(Union, 5, 2) == 7;
    MembersOf7();
    DescTexts();
    text := b.Str();
  }

  /** `str` of an empty mask is `0`. */
  method EmptyStrScenario() returns (text: string)
    ensures text == "0"
  {
    var b := new Bitmask.Empty(Desc());
    MembersOf0();
    DescTexts();
    text := b.Str();
  }

  /** After `add(ROUND)` the empty mask prints as `ROUND`. */
  method RoundStrScenario() returns (text: string)
    ensures text == "ROUND"
  {
    var b := new Bitmask.Empty(Desc());
    var o := b.Add(F(Round()));
    assert Apply(Union, 0, 2) == 2;
    MembersOf2();
    DescTexts();
    text := b.Str();
  }

  /** Flags in a mask are found and others are not; the mask contains itself rather than raising. */
  method ContainsScenario() returns (funky: Result<bool>, round: Result<bool>, itself: Result<bool>, other: Result<bool>)
    ensures funky == Ok(true) && round == Ok(false) && itself == Ok(true) && other == Err(TypeError)
  {
    var b := SmallFunky();
    assert Has(5, 4) && !Has(5, 2);
    funky := b.Contains(F(Funky()));
    round := b.Contains(F(Round()));
    SelfMembership(b.View());
    itself := b.Contains(Mask(b.View()));
    other := b.Contains(Other);
  }

  /** `remove(SMALL)` leaves FUNKY; removing SMALL again, or from an empty mask, raises KeyError. */
  method RemoveScenario() returns (first: Outcome, left: int, again: Outcome, fromEmpty: Outcome)
    ensures first == Pass && left == 4 && again == Fail(KeyError) && fromEmpty == Fail(KeyError)
  {
    var b := SmallFunky();
    assert Has(5, 1) && Apply(Difference, 5, 1) == 4 && !Has(4, 1) && !Has(0, 1);
    first := b.Remove(F(Small()));
    left := b.value;
    again := b.Remove(F(Small()));
    var empty := new Bitmask.Empty(Desc());
    fromEmpty := empty.Remove(F(Small()));
  }

  /** `discard(SMALL)` leaves FUNKY, and discarding it again, or from an empty mask, changes nothing. */
  method DiscardScenario() returns (first: Outcome, left: int, again: Outcome, leftAgain: int, empty: int)
    ensures first == Pass && left == 4 && again == Pass && leftAgain == 4 && empty == 0
  {
    var b := SmallFunky();
    assert Apply(Difference, 5, 1) == 4 && Apply(Difference, 4, 1) == 4 && Apply(Difference, 0, 1) == 0;
    first := b.Discard(F(Small()));
    left := b.value;
    again := b.Discard(F(Small()));
    leftAgain := b.value;
    var e := new Bitmask.Empty(Desc());
    var o := e.Discard(F(Small()));
    empty := e.value;
  }

  /** Iterating `Bitmask(Desc, SMALL, FUNKY)` yields SMALL then FUNKY. */
  method IterScenario() returns (fs: seq<Member>)
    ensures fs == [Small(), Funky()]
  {
    var b := SmallFunky();
    MembersOf5();
    fs := b.Iter();
  }

  /** `b + ROUND` and `ROUND + b` both equal `Bitmask(Desc, SMALL, FUNKY, ROUND)`. */
  method PlusFlagScenario() returns (sum: int, reflected: int)
    ensures sum == 7 && reflected == 7
  {
    var b := SmallFunky();
    CopyOf5();
    assert Apply(Union, 5, 2) == 7;
    var r := b.Plus(F(Round()));
    sum := r.ok.value;
    r := b.ReflectedPlus(F(Round()));
    reflected := r.ok.value;
  }

  /** `b + b2 + b3` equals `Bitmask(Desc, SMALL, FUNKY, ROUND)`. */
  method PlusMasksScenario() returns (chained: int)
    ensures chained == 7
  {
    var b := SmallFunky();
    var b2 := RoundOnly();
    var b3 := RoundOnly();
    assert Apply(Union, 5, 2) == 7 && Apply(Union, 7, 2) == 7;
    var r := b.Plus(Mask(b2.View()));
    r := r.ok.Plus(Mask(b3.View()));
    chained := r.ok.value;
  }

  /** `Bitmask(Desc, ROUND) == Bitmask(Desc, ROUND)`; it differs from `Bitmask(Desc, SMALL, FUNKY)` and from a bare flag. */
  method EqualityScenario() returns (same: bool, different: bool, flag: bool)
    ensures same && !different && !flag
  {
    var b := SmallFunky();
    var b2 := RoundOnly();
    var b3 := RoundOnly();
    same := b2.Equals(Mask(b3.View()));
    different := b.Equals(Mask(b3.View()));
    flag := b.Equals(F(Small()));
  }

  /**
   * The setter stores any integer: -1 is accepted (it enables every member),
   * while a non-integer raises TypeError and keeps the old value.
   */
  method SetterScenario() returns (minusOne: Outcome, text: string, nonInt: Outcome, kept: int)
    ensures minusOne == Pass && text == "SMALL|ROUND|FUNKY" && nonInt == Fail(TypeError) && kept == -1
  {
    var b := new Bitmask.Empty(Desc());
    minusOne := b.SetValue(Int(-1));
    MembersOfMinusOne();
    DescTexts();
    text := b.Str();
    nonInt := b.SetValue(NonInt);
    kept := b.value;
  }

  /**
   * A bit that belongs to no member (8) survives `b + Bitmask(Desc)` but is
   * lost by `b + SMALL`; and `b` differs from `Bitmask(Desc)` although
   * neither yields any member.
   */
  method StrayBitScenario() returns (viaMask: int, viaFlag: int, equal: bool, none: seq<Member>)
    ensures viaMask == 8 && viaFlag == 1 && !equal && none == []
  {
    var b := new Bitmask.Empty(Desc());
    var o := b.SetValue(Int(8));
    var empty := new Bitmask.Empty(Desc());
    CopyOf8();
    MembersOf8();
    assert Apply(Union, 8, 0) == 8 && Apply(Union, 0, 1) == 1;
    var r := b.Plus(Mask(empty.View()));
    viaMask := r.ok.value;
    r := b.Plus(F(Small()));
    viaFlag := r.ok.value;
    equal := b.Equals(Mask(empty.View()));
    none := b.Iter();
  }
}
