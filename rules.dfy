/**
 * The rules engine (src/rules.py): counting the dice that match a bid and
 * settling a Dudo or Calza call, detecting Palifico and the winner. Nothing
 * here changes a player; the caller applies the verdicts.
 */
module Rules {
  import opened DiceCup
  import opened Players
  import opened Bids

  /** A player whose dice take part in the count: still in the game and holding dice. */
  predicate InPlay(p: Player)
    reads p, p.dice
  {
    p.isActive && p.dice.count > 0
  }

  /** How many dice in play count as `face`: the sum of each player's count, over players in play only. */
  function Matching(players: seq<Player>, face: int, wildsActive: bool): (n: nat)
    reads Footprint(players)
    ensures forall i :: 0 <= i < |players| && InPlay(players[i]) ==> players[i].dice.CountFace(face, wildsActive) <= n
    ensures (forall i :: 0 <= i < |players| ==> !InPlay(players[i])) ==> n == 0
  {
    if players == [] then 0
    else
      var last := players[|players| - 1];
      assert last in players;
      Matching(players[..|players| - 1], face, wildsActive)
        + (if InPlay(last) then last.dice.CountFace(face, wildsActive) else 0)
  }

  /** The count over a roster is the sum of the counts over its two parts. */
  lemma {:induction false} MatchingSplits(a: seq<Player>, b: seq<Player>, face: int, wildsActive: bool)
    ensures Matching(a + b, face, wildsActive) == Matching(a, face, wildsActive) + Matching(b, face, wildsActive)
  {
    if b != [] {
      var b' := b[..|b| - 1];
      assert (a + b)[..|a + b| - 1] == a + b';
      assert (a + b)[|a + b| - 1] == b[|b| - 1];
      MatchingSplits(a, b', face, wildsActive);
    } else {
      assert a + b == a;
    }
  }

  /** A player out of play (eliminated or without dice) adds nothing, whatever their dice show. */
  lemma MatchingSkipsIdle(a: seq<Player>, p: Player, b: seq<Player>, face: int, wildsActive: bool)
    requires !InPlay(p)
    ensures Matching(a + [p] + b, face, wildsActive) == Matching(a + b, face, wildsActive)
  {
    MatchingSplits(a + [p], b, face, wildsActive);
    MatchingSplits(a, [p], face, wildsActive);
    MatchingSplits(a, b, face, wildsActive);
  }

  /** Over a whole roster, wilds only add, and a count of ones ignores the wild flag. */
  lemma {:induction false} MatchingWilds(players: seq<Player>, face: int)
    ensures Matching(players, face, false) <= Matching(players, face, true)
    ensures Matching(players, 1, false) == Matching(players, 1, true)
  {
    if players != [] {
      var last := players[|players| - 1];
      WildsOnlyAdd(last.dice, face);
      MatchingWilds(players[..|players| - 1], face);
    }
  }

  /** `count_dice_in_play`: accumulates the per-player counts over the players in play. */
  method CountDiceInPlay(players: seq<Player>, face: int, wildsActive: bool) returns (total: nat)
    ensures total == Matching(players, face, wildsActive)
  {
    total := 0;
    for i := 0 to |players|
      invariant total == Matching(players[..i], face, wildsActive)
    {
      var player := players[i];
      if player.isActive && player.dice.count > 0 {
        total := total + player.dice.CountFace(face, wildsActive);
      }
      assert players[..i + 1][..i] == players[..i];
    }
    assert players[..|players|] == players;
  }

  /**
   * `resolve_dudo`: the bid stands when at least its quantity of dice match,
   * and then the challenger loses a die; otherwise the bidder does. A tie
   * favours the bidder.
   */
  method ResolveDudo(players: seq<Player>, bid: Bid, bidderIdx: int, challengerIdx: int, wildsActive: bool)
    returns (bidWasCorrect: bool, loserIdx: int)
    ensures bidWasCorrect <==> Matching(players, bid.face, wildsActive) >= bid.quantity
    ensures loserIdx == if bidWasCorrect then challengerIdx else bidderIdx
  {
    var actualCount := CountDiceInPlay(players, bid.face, wildsActive);
    if actualCount >= bid.quantity {
      bidWasCorrect, loserIdx := true, challengerIdx;
    } else {
      bidWasCorrect, loserIdx := false, bidderIdx;
    }
  }

  /** `resolve_calza`: the caller wins only on an exact count; too many and too few both lose. */
  method ResolveCalza(players: seq<Player>, bid: Bid, callerIdx: int, wildsActive: bool)
    returns (wasExact: bool)
    ensures wasExact <==> Matching(players, bid.face, wildsActive) == bid.quantity
  {
    var actualCount := CountDiceInPlay(players, bid.face, wildsActive);
    wasExact := actualCount == bid.quantity;
  }

  /**
   * `check_palifico_trigger`: the first player, in roster order, with one
   * die and an unspent Palifico round, or -1. Whether that player is still
   * active is not consulted.
   */
  method CheckPalificoTrigger(players: seq<Player>) returns (idx: int)
    ensures -1 <= idx < |players|
    ensures idx >= 0 ==> players[idx].InPalifico()
    ensures forall j :: 0 <= j < |players| && (idx == -1 || j < idx) ==> !players[j].InPalifico()
  {
    for i := 0 to |players|
      invariant forall j :: 0 <= j < i ==> !players[j].InPalifico()
    {
      if players[i].InPalifico() {
        return i;
      }
    }
    return -1;
  }

  /** Indices of the active players, in roster order (the list comprehension of `check_winner`). */
  function ActiveIndices(players: seq<Player>): (r: seq<int>)
    reads players
    ensures forall k :: 0 <= k < |r| ==> 0 <= r[k] < |players| && players[r[k]].isActive
    ensures forall i :: 0 <= i < |players| && players[i].isActive ==> i in r
    ensures forall k, l :: 0 <= k < l < |r| ==> r[k] < r[l]
  {
    if players == [] then []
    else
      var n := |players| - 1;
      ActiveIndices(players[..n]) + (if players[n].isActive then [n] else [])
  }

  /** Exactly one player of the roster is active, namely `w`. */
  predicate SoleActive(players: seq<Player>, w: int)
    reads players
  {
    0 <= w < |players| && players[w].isActive
    && forall j :: 0 <= j < |players| && players[j].isActive ==> j == w
  }

  /** With no active player the comprehension is empty. */
  lemma {:induction false} NoActiveIndices(players: seq<Player>)
    requires forall j :: 0 <= j < |players| ==> !players[j].isActive
    ensures ActiveIndices(players) == []
  {
    if players != [] {
      NoActiveIndices(players[..|players| - 1]);
    }
  }

  /** With exactly one active player, the comprehension lists just that player. */
  lemma {:induction false} SoleActiveIndices(players: seq<Player>, w: int)
    requires SoleActive(players, w)
    ensures ActiveIndices(players) == [w]
  {
    var n := |players| - 1;
    if w == n {
      NoActiveIndices(players[..n]);
    } else {
      SoleActiveIndices(players[..n], w);
    }
  }

  /** `check_winner`: the index of the only active player, or -1 while zero or several are active. */
  function CheckWinner(players: seq<Player>): (w: int)
    reads players
    ensures w != -1 ==> SoleActive(players, w)
    ensures w == -1 ==> forall i :: !SoleActive(players, i)
  {
    var active := ActiveIndices(players);
    assert forall i :: SoleActive(players, i) ==> active == [i] by {
      forall i | SoleActive(players, i) {
        SoleActiveIndices(players, i);
      }
    }
    if |active| == 1 then active[0] else -1
  }

  /** A roster of two players counts as the sum of their own counts. */
  lemma MatchingPair(p: Player, q: Player, face: int, wildsActive: bool)
    requires InPlay(p) && InPlay(q)
    ensures Matching([p, q], face, wildsActive) == p.dice.CountFace(face, wildsActive) + q.dice.CountFace(face, wildsActive)
  {
    assert [p, q][..1] == [p];
    assert [p][..0] == [];
    assert Matching([p], face, wildsActive) == p.dice.CountFace(face, wildsActive);
  }

  /** Counting threes over [3,3,4,5,6] and [1,3,2,4,5] with wilds gives four. */
  lemma MatchingExampleWilds(p: Player, q: Player)
    requires InPlay(p) && InPlay(q)
    requires p.dice.values == [3, 3, 4, 5, 6] && q.dice.values == [1, 3, 2, 4, 5]
    ensures Matching([p, q], 3, true) == 4
  {
    MatchingPair(p, q, 3, true);
    assert multiset(p.dice.values) == multiset{3, 3, 4, 5, 6};
    assert multiset(q.dice.values) == multiset{1, 2, 3, 4, 5};
  }

  /** Counting threes over [1,1,3,3,5] and [1,3,2,4,5] without wilds gives three. */
  lemma MatchingExampleNoWilds(p: Player, q: Player)
    requires InPlay(p) && InPlay(q)
    requires p.dice.values == [1, 1, 3, 3, 5] && q.dice.values == [1, 3, 2, 4, 5]
    ensures Matching([p, q], 3, false) == 3
  {
    MatchingPair(p, q, 3, false);
    assert multiset(p.dice.values) == multiset{1, 1, 3, 3, 5};
    assert multiset(q.dice.values) == multiset{1, 2, 3, 4, 5};
  }
}
