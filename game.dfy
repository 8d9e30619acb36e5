/**
 * The two roster helpers of the game controller (src/game.py): the number of
 * dice in play and the rotation to the next active player.
 */
module Game {
  import opened Players
  import opened Rules

  /** `get_total_dice`: the dice held by the active players. */
  function TotalDice(players: seq<Player>): (t: nat)
    reads Footprint(players)
    ensures forall i :: 0 <= i < |players| && players[i].isActive ==> players[i].dice.count <= t
    ensures (forall i :: 0 <= i < |players| ==> !players[i].isActive) ==> t == 0
  {
    if players == [] then 0
    else
      var last := players[|players| - 1];
      assert last in players;
      TotalDice(players[..|players| - 1]) + (if last.isActive then last.dice.count else 0)
  }

  /** Every active player has rolled one face per die they hold. */
  predicate Rolled(players: seq<Player>)
    reads Footprint(players)
  {
    forall p :: p in players && p.isActive ==> |p.dice.values| == p.dice.count
  }

  /**
   * Once the dice are rolled, no face is matched more often than there are
   * dice in play, wilds or not; so a bid refused by the ceiling could never
   * have stood against a Dudo.
   */
  lemma {:induction false} MatchingWithinTotal(players: seq<Player>, face: int, wildsActive: bool)
    requires Rolled(players)
    ensures Matching(players, face, wildsActive) <= TotalDice(players)
  {
    if players != [] {
      var prefix := players[..|players| - 1];
      MatchingWithinTotal(prefix, face, wildsActive);
    }
  }

  /** Three players holding 4, 0 (eliminated) and 5 dice have 9 dice in play. */
  lemma TotalDiceExample(p: Player, q: Player, r: Player)
    requires p.isActive && p.dice.count == 4
    requires !q.isActive && q.dice.count == 0
    requires r.isActive && r.dice.count == 5
    ensures TotalDice([p, q, r]) == 9
  {
    assert [p, q, r][..2] == [p, q];
    assert [p, q][..1] == [p];
    assert [p][..0] == [];
    assert TotalDice([p]) == 4;
    assert TotalDice([p, q]) == 4;
  }

  /**
   * Position of index `j` in the scan of an `n`-player roster that starts at
   * index `start` and wraps from the last index to 0.
   */
  function ScanOffset(start: int, j: int, n: int): int {
    if j >= start then j - start else j + n - start
  }

  /** Proof helper: one step of the scan moves to the next index, wrapping to 0 after the last. */
  lemma StepWraps(x: int, n: int)
    requires 0 <= x < n
    ensures (x + 1) % n == if x + 1 == n then 0 else x + 1
  {
  }

  /**
   * `get_next_active_player`: the first active player after `currentIdx` in
   * cyclic order. The scan only ends when it meets an active player, so one
   * must exist; and the roster must not be empty, or the modulo fails.
   */
  method GetNextActivePlayer(players: seq<Player>, currentIdx: int) returns (idx: int)
    requires |players| > 0
    requires exists j :: 0 <= j < |players| && players[j].isActive
    ensures 0 <= idx < |players| && players[idx].isActive
    ensures forall j :: 0 <= j < |players| &&
              ScanOffset((currentIdx + 1) % |players|, j, |players|)
                < ScanOffset((currentIdx + 1) % |players|, idx, |players|)
              ==> !players[j].isActive
    ensures 0 <= currentIdx < |players| &&
            (forall j :: 0 <= j < |players| && j != currentIdx ==> !players[j].isActive)
            ==> idx == currentIdx
  {
    var n := |players|;
    ghost var start := (currentIdx + 1) % n;
    idx := (currentIdx + 1) % n;
    while !players[idx].isActive
      invariant 0 <= idx < n
      invariant forall j :: 0 <= j < n && ScanOffset(start, j, n) < ScanOffset(start, idx, n) ==> !players[j].isActive
      decreases n - ScanOffset(start, idx, n)
    {
      assert ScanOffset(start, idx, n) < n - 1 by {
        var a :| 0 <= a < n && players[a].isActive;
        assert ScanOffset(start, a, n) <= n - 1;
        assert a != idx;
      }
      StepWraps(idx, n);
      idx := (idx + 1) % n;
    }
  }
}
