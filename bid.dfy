/**
 * Bids and the raise grammar of Perudo (src/bid.py).
 *
 * A bid claims that at least `quantity` dice in play show `face`. Face 1 is
 * the wild face: outside a Palifico round it counts towards every other face,
 * which is why switching onto or away from ones rescales the quantity.
 */
module Bids {

  datatype Option<T> = None | Some(value: T)

  /** Decimal rendering of an integer, as a Python f-string prints it: a minus sign for negatives, then digits. */
  function Decimal(i: int): (s: string)
    ensures |s| > 0 && (s[0] == '-' <==> i < 0)
    ensures forall k :: 0 < k < |s| ==> IsDigit(s[k])
  {
    if i < 0 then "-" + Natural(-i) else Natural(i)
  }

  predicate IsDigit(c: char) {
    '0' <= c <= '9'
  }

  function Natural(n: nat): (s: string)
    ensures |s| > 0 && forall k :: 0 <= k < |s| ==> IsDigit(s[k])
  {
    if n < 10 then ["0123456789"[n]] else Natural(n / 10) + ["0123456789"[n % 10]]
  }

  /** The number a string of digits denotes. */
  function DigitsValue(s: string): int {
    if s == [] then 0 else 10 * DigitsValue(s[..|s| - 1]) + (s[|s| - 1] as int - '0' as int)
  }

  /** The number a rendering denotes: an optional minus sign, then digits. */
  function Parse(s: string): int {
    if |s| > 0 && s[0] == '-' then -DigitsValue(s[1..]) else DigitsValue(s)
  }

  lemma {:induction false} NaturalRoundTrip(n: nat)
    ensures DigitsValue(Natural(n)) == n
  {
    if n >= 10 {
      NaturalRoundTrip(n / 10);
      var s := Natural(n);
      assert s[..|s| - 1] == Natural(n / 10);
    }
  }

  /** The rendering in the messages reads back as the number it renders. */
  lemma {:induction false} DecimalRoundTrip(i: int)
    ensures Parse(Decimal(i)) == i
  {
    if i < 0 {
      NaturalRoundTrip(-i);
      assert Decimal(i)[1..] == Natural(-i);
    } else {
      NaturalRoundTrip(i);
    }
  }

  /** `math.ceil(q / 2)`: the least m with 2 * m >= q. */
  function CeilHalf(q: int): (m: int)
    ensures 2 * m >= q && 2 * (m - 1) < q
  {
    (q + 1) / 2
  }

  datatype Bid = Bid(quantity: int, face: int) {

    /**
     * Whether this bid may follow `previous` (None for the opening bid of a
     * round), together with the reason for a refusal. The checks run in the
     * order of the source: the ceiling on dice in play, the opening bid, the
     * Palifico lock, switching onto ones, switching away from ones, and the
     * same-face / different-face rules.
     */
    function IsValidRaise(previous: Option<Bid>, isPalifico: bool, totalDice: int): (r: (bool, string))
      ensures r.0 <==> r.1 == ""
    {
      if totalDice > 0 && quantity > totalDice then
        (false, "Cannot bid more than " + Decimal(totalDice) + " dice (total in play)")
      else if previous.None? then
        if quantity < 1 || face < 1 || face > 6 then (false, "Invalid bid values")
        else if face == 1 then (false, "Cannot start the round with a bid on ones")
        else (true, "")
      else
        var prev := previous.value;
        if isPalifico then
          if face != prev.face then (false, "During Palifico, face value cannot change")
          else if quantity <= prev.quantity then (false, "Must increase quantity during Palifico")
          else (true, "")
        else if face == 1 && prev.face != 1 then
          var minQuantity := CeilHalf(prev.quantity);
          if quantity < minQuantity then
            (false, "When bidding on ones, quantity must be at least " + Decimal(minQuantity))
          else (true, "")
        else if prev.face == 1 && face != 1 then
          var minQuantity := prev.quantity * 2 + 1;
          if quantity < minQuantity then
            (false, "When bidding away from ones, quantity must be at least " + Decimal(minQuantity))
          else (true, "")
        else if face == prev.face then
          if quantity <= prev.quantity then (false, "Must increase quantity when keeping same face value")
          else (true, "")
        else if quantity < prev.quantity then (false, "Must have higher quantity if face value is lower")
        else if quantity == prev.quantity && face <= prev.face then
          (false, "If quantity is the same, face value must be higher")
        else (true, "")
    }

    /** The bid passes the ceiling on the number of dice in play. */
    predicate WithinCeiling(totalDice: int) {
      !(totalDice > 0 && quantity > totalDice)
    }
  }

  // ---------------------------------------------------------------------
  // The rules of the grammar, one lemma per branch of IsValidRaise
  // ---------------------------------------------------------------------

  /** The ceiling rejects a quantity above a positive total, whatever the rest; no total (0) means no ceiling. */
  lemma CeilingRejects(b: Bid, previous: Option<Bid>, isPalifico: bool, totalDice: int)
    requires totalDice > 0 && b.quantity > totalDice
    ensures !b.IsValidRaise(previous, isPalifico, totalDice).0
  {
  }

  /** An opening bid is accepted iff it is within the ceiling, has quantity at least 1 and a face in 2..6. */
  lemma OpeningBid(b: Bid, isPalifico: bool, totalDice: int)
    ensures b.IsValidRaise(None, isPalifico, totalDice).0
            <==> b.WithinCeiling(totalDice) && b.quantity >= 1 && 2 <= b.face <= 6
  {
  }

  /** Under Palifico a raise keeps the face and strictly increases the quantity; nothing else matters. */
  lemma PalificoRaise(b: Bid, prev: Bid, totalDice: int)
    ensures b.IsValidRaise(Some(prev), true, totalDice).0
            <==> b.WithinCeiling(totalDice) && b.face == prev.face && b.quantity > prev.quantity
    ensures !b.IsValidRaise(Some(prev), true, totalDice).0 && b.WithinCeiling(totalDice) ==>
              b.IsValidRaise(Some(prev), true, totalDice).1 in
                {"During Palifico, face value cannot change", "Must increase quantity during Palifico"}
  {
  }

  /** Switching from another face onto ones needs at least half the quantity, rounded up. */
  lemma SwitchOntoOnes(b: Bid, prev: Bid, totalDice: int)
    requires b.face == 1 && prev.face != 1 && b.WithinCeiling(totalDice)
    ensures b.IsValidRaise(Some(prev), false, totalDice).0 <==> b.quantity >= CeilHalf(prev.quantity)
    ensures b.IsValidRaise(Some(prev), false, totalDice).0 <==> 2 * b.quantity >= prev.quantity
  {
  }

  /** Switching from ones onto another face needs more than twice the quantity. */
  lemma SwitchAwayFromOnes(b: Bid, prev: Bid, totalDice: int)
    requires prev.face == 1 && b.face != 1 && b.WithinCeiling(totalDice)
    ensures b.IsValidRaise(Some(prev), false, totalDice).0 <==> b.quantity >= 2 * prev.quantity + 1
  {
  }

  /** Keeping the face (ones included) needs a strictly larger quantity. */
  lemma SameFace(b: Bid, prev: Bid, totalDice: int)
    requires b.face == prev.face && b.WithinCeiling(totalDice)
    ensures b.IsValidRaise(Some(prev), false, totalDice).0 <==> b.quantity > prev.quantity
  {
  }

  /** Between two different faces other than one: a larger quantity, or the same quantity on a higher face. */
  lemma DifferentFaces(b: Bid, prev: Bid, totalDice: int)
    requires b.face != 1 && prev.face != 1 && b.face != prev.face && b.WithinCeiling(totalDice)
    ensures b.IsValidRaise(Some(prev), false, totalDice).0
            <==> b.quantity > prev.quantity || (b.quantity == prev.quantity && b.face > prev.face)
  {
  }

  /** No bid is a raise over itself, in any regime. */
  lemma NoRaiseOverItself(b: Bid, isPalifico: bool, totalDice: int)
    ensures !b.IsValidRaise(Some(b), isPalifico, totalDice).0
  {
  }

  /** The examples of the rounding rules: (7,4) -> (4,1) yes, (3,1) no; (3,1) -> (7,4) yes, (6,4) no. */
  lemma WildSwitchExamples()
    ensures Bid(4, 1).IsValidRaise(Some(Bid(7, 4)), false, 20) == (true, "")
    ensures Bid(3, 1).IsValidRaise(Some(Bid(7, 4)), false, 20)
            == (false, "When bidding on ones, quantity must be at least 4")
    ensures Bid(7, 4).IsValidRaise(Some(Bid(3, 1)), false, 20) == (true, "")
    ensures Bid(6, 4).IsValidRaise(Some(Bid(3, 1)), false, 20)
            == (false, "When bidding away from ones, quantity must be at least 7")
    ensures Bid(15, 3).IsValidRaise(None, false, 10)
            == (false, "Cannot bid more than 10 dice (total in play)")
  {
    assert CeilHalf(7) == 4 && Decimal(4) == "4";
    assert Decimal(7) == "7";
    assert Natural(1) == "1" && Decimal(10) == "10";
    assert "When bidding on ones, quantity must be at least " + "4"
        == "When bidding on ones, quantity must be at least 4";
    assert "When bidding away from ones, quantity must be at least " + "7"
        == "When bidding away from ones, quantity must be at least 7";
    assert "Cannot bid more than " + "10" + " dice (total in play)"
        == "Cannot bid more than 10 dice (total in play)";
  }

  // ---------------------------------------------------------------------
  // The grammar is a strict order on bids
  // ---------------------------------------------------------------------

  /**
   * Position of a bid on the usual Perudo scale: a bid on ones is worth a
   * bid of twice its quantity, ranked above every other face at that
   * doubled quantity; other bids are ordered by quantity, then face.
   */
  function Rank(b: Bid): (int, int) {
    if b.face == 1 then (2 * b.quantity, 7) else (b.quantity, b.face)
  }

  predicate Outranks(b: Bid, c: Bid) {
    Rank(b).0 > Rank(c).0 || (Rank(b).0 == Rank(c).0 && Rank(b).1 > Rank(c).1)
  }

  /**
   * Outside Palifico, for dice faces 1..6 and within the ceiling, a bid is a
   * valid raise exactly when it outranks the previous one.
   */
  lemma {:induction false} StandardRaiseIsOutranking(b: Bid, prev: Bid, totalDice: int)
    requires 1 <= b.face <= 6 && 1 <= prev.face <= 6 && b.WithinCeiling(totalDice)
    ensures b.IsValidRaise(Some(prev), false, totalDice).0 <==> Outranks(b, prev)
  {
    var m := CeilHalf(prev.quantity);
    if b.face == 1 && prev.face != 1 {
      assert b.quantity >= m <==> 2 * b.quantity >= prev.quantity;
    }
  }

  /** Raises never cycle back: if b may follow c, then c may not follow b (same regime, any ceiling). */
  lemma {:induction false} RaiseIsIrreversible(b: Bid, c: Bid, isPalifico: bool, total1: int, total2: int)
    requires b.IsValidRaise(Some(c), isPalifico, total1).0
    ensures !c.IsValidRaise(Some(b), isPalifico, total2).0
  {
    var mb, mc := CeilHalf(b.quantity), CeilHalf(c.quantity);
    if !isPalifico && b.face == 1 && c.face != 1 {
      assert 2 * b.quantity >= c.quantity;
    } else if !isPalifico && c.face == 1 && b.face != 1 {
      assert b.quantity >= 2 * c.quantity + 1;
      assert c.quantity < mb;
    }
  }

  /** Two successive raises outside Palifico outrank the bid they started from. */
  lemma {:induction false} RaisesCompose(b1: Bid, b2: Bid, b3: Bid, total: int)
    requires 1 <= b1.face <= 6 && 1 <= b2.face <= 6 && 1 <= b3.face <= 6
    requires b2.IsValidRaise(Some(b1), false, total).0 && b3.IsValidRaise(Some(b2), false, total).0
    ensures Outranks(b3, b1)
    ensures b3.IsValidRaise(Some(b1), false, total).0
  {
    StandardRaiseIsOutranking(b2, b1, total);
    StandardRaiseIsOutranking(b3, b2, total);
    StandardRaiseIsOutranking(b3, b1, total);
  }
}
