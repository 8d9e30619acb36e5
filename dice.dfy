/**
 * The dice of one player (src/dice.py): how many dice the player owns and
 * the faces shown by the last roll. Face 1 is the wild face.
 */
module DiceCup {

  /** Number of elements of `s` equal to `v`, as Python's `list.count`. */
  function Occurrences(s: seq<int>, v: int): (n: nat)
    ensures n <= |s|
  {
    if s == [] then 0
    else Occurrences(s[..|s| - 1], v) + (if s[|s| - 1] == v then 1 else 0)
  }

  /** Counting by recursion agrees with the multiplicity in the multiset of the dice. */
  lemma {:induction false} OccurrencesIsMultiplicity(s: seq<int>, v: int)
    ensures Occurrences(s, v) == multiset(s)[v]
  {
    if s != [] {
      OccurrencesIsMultiplicity(s[..|s| - 1], v);
      assert s == s[..|s| - 1] + [s[|s| - 1]];
    }
  }

  /** Two different faces together never occur more often than there are dice. */
  lemma {:induction false} TwoFacesFit(s: seq<int>, a: int, b: int)
    requires a != b
    ensures Occurrences(s, a) + Occurrences(s, b) <= |s|
  {
    if s != [] {
      TwoFacesFit(s[..|s| - 1], a, b);
    }
  }

  /** Every element of a roll is a die face. */
  predicate AreFaces(s: seq<int>) {
    forall i :: 0 <= i < |s| ==> 1 <= s[i] <= 6
  }

  class Dice {
    var count: nat
    var values: seq<int>

    /** A new set of `count` dice that has not been rolled yet. */
    constructor (count: nat)
      ensures this.count == count && values == []
    {
      this.count := count;
      values := [];
    }

    /**
     * Replaces the faces with a fresh roll of `count` dice. The random source
     * is the parameter `rolled`: one face in 1..6 per die.
     */
    method Roll(rolled: seq<int>) returns (result: seq<int>)
      requires |rolled| == count && AreFaces(rolled)
      modifies this`values
      ensures values == rolled && result == values
      ensures |values| == count && AreFaces(values)
    {
      values := rolled;
      result := values;
    }

    /** The faces of the last roll; the stored faces are left as they are. */
    method GetValues() returns (result: seq<int>)
      ensures result == values
    {
      result := values;
    }

    /**
     * How many of these dice count as `face`: ones count only as themselves;
     * for any other face the ones are added while wilds are active.
     */
    function CountFace(face: int, wildsActive: bool): (n: nat)
      reads this
      ensures n == multiset(values)[face] + (if face != 1 && wildsActive then multiset(values)[1] else 0)
      ensures n <= |values|
    {
      OccurrencesIsMultiplicity(values, face);
      OccurrencesIsMultiplicity(values, 1);
      if face == 1 then Occurrences(values, 1)
      else if wildsActive then
        TwoFacesFit(values, face, 1);
        Occurrences(values, face) + Occurrences(values, 1)
      else Occurrences(values, face)
    }
  }

  /** Wilds only ever add: counting ones ignores the wild flag, other faces gain the ones. */
  lemma WildsOnlyAdd(d: Dice, face: int)
    ensures d.CountFace(1, true) == d.CountFace(1, false) == multiset(d.values)[1]
    ensures d.CountFace(face, false) <= d.CountFace(face, true)
    ensures face != 1 ==> d.CountFace(face, true) == d.CountFace(face, false) + d.CountFace(1, false)
  {
  }

  /** A face that is not a die face matches nothing but, under wilds, the ones. */
  lemma ImpossibleFace(d: Dice, face: int)
    requires AreFaces(d.values) && (face < 1 || face > 6)
    ensures d.CountFace(face, false) == 0
    ensures d.CountFace(face, true) == d.CountFace(1, true)
  {
  }

  /** One more die showing one adds one to every count under wilds, and only to ones without. */
  lemma ExtraWildDie(d: Dice, e: Dice, face: int, wildsActive: bool)
    requires e.values == d.values + [1]
    ensures e.CountFace(face, wildsActive)
            == d.CountFace(face, wildsActive) + (if face == 1 || wildsActive then 1 else 0)
  {
    assert multiset(e.values) == multiset(d.values) + multiset{1};
  }

  /** The five dice [1,3,3,4,1]: four threes with wilds, two without, two ones either way, none of an impossible face. */
  lemma CountFaceExample(d: Dice)
    requires d.values == [1, 3, 3, 4, 1]
    ensures d.CountFace(3, true) == 4 && d.CountFace(3, false) == 2
    ensures d.CountFace(1, true) == 2 && d.CountFace(1, false) == 2
    ensures d.CountFace(7, true) == 2 && d.CountFace(7, false) == 0 && d.CountFace(0, false) == 0
  {
    assert multiset(d.values) == multiset{1, 1, 3, 3, 4};
  }
}
