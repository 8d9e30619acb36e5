/**
 * A player of the game (src/player.py): a name, a set of dice, whether the
 * player is still in the game and whether their one Palifico round is spent.
 */
module Players {
  import opened DiceCup

  /** Every player starts with five dice and can never hold more. */
  const StartingDice: nat := 5

  class Player {
    const name: string
    const dice: Dice
    var isActive: bool
    var hasHadPalifico: bool

    /** At most five dice, and a player without dice is out of the game. */
    ghost predicate Valid()
      reads this, dice
    {
      dice.count <= StartingDice && (dice.count == 0 ==> !isActive)
    }

    constructor (name: string)
      ensures Valid() && fresh(dice)
      ensures this.name == name && dice.count == 5 && dice.values == []
      ensures isActive && !hasHadPalifico
    {
      this.name := name;
      dice := new Dice(StartingDice);
      isActive := true;
      hasHadPalifico := false;
    }

    /** Rolls the dice of an active player; `rolled` stands for the random source. */
    method RollDice(rolled: seq<int>)
      requires Valid()
      requires |rolled| == dice.count && AreFaces(rolled)
      modifies dice`values
      ensures Valid()
      ensures dice.values == if isActive then rolled else old(dice.values)
    {
      if isActive {
        var _ := dice.Roll(rolled);
      }
    }

    /** The number of dice held: at most five, and none only for an eliminated player. */
    function GetDiceCount(): (n: nat)
      reads this, dice
      ensures n == dice.count
      ensures Valid() ==> n <= StartingDice && (n == 0 ==> !isActive)
    {
      dice.count
    }

    /** Removes one die; the player who loses their last die is out for good. At zero dice nothing happens. */
    method LoseDie()
      requires Valid()
      modifies this`isActive, dice`count
      ensures Valid()
      ensures dice.count == if old(dice.count) > 0 then old(dice.count) - 1 else 0
      ensures isActive == (old(isActive) && old(dice.count) != 1)
      ensures !old(isActive) ==> !isActive
      ensures dice.values == old(dice.values) && hasHadPalifico == old(hasHadPalifico)
    {
      if dice.count > 0 {
        dice.count := dice.count - 1;
        if dice.count == 0 {
          isActive := false;
        }
      }
    }

    /** Adds one die up to the cap of five; an eliminated player stays eliminated. */
    method GainDie()
      requires Valid()
      modifies dice`count
      ensures Valid()
      ensures dice.count == if old(dice.count) < StartingDice then old(dice.count) + 1 else old(dice.count)
      ensures dice.count <= StartingDice
      ensures isActive == old(isActive)
      ensures dice.values == old(dice.values) && hasHadPalifico == old(hasHadPalifico)
    {
      if dice.count < StartingDice {
        dice.count := dice.count + 1;
      }
    }

    /** A player with a single die whose Palifico round is not yet spent. */
    predicate InPalifico(): (r: bool)
      reads this, dice
      ensures r ==> dice.count == 1
      ensures hasHadPalifico ==> !r
    {
      GetDiceCount() == 1 && !hasHadPalifico
    }

    /** Spends the Palifico round; the flag is never cleared again. */
    method TriggerPalifico()
      requires Valid()
      modifies this`hasHadPalifico
      ensures Valid() && hasHadPalifico && !InPalifico()
    {
      hasHadPalifico := true;
    }
  }

  /** Every object a roster of players reads: the players and their dice. */
  function Footprint(players: seq<Player>): set<object> {
    (set p | p in players :: p as object) + (set p | p in players :: p.dice as object)
  }

  /**
   * A fresh player loses five dice and is out; a sixth loss changes nothing;
   * gaining a die afterwards does not bring them back, although the one die
   * they then hold makes InPalifico true.
   */
  method EliminationIsPermanent() returns (p: Player)
    ensures fresh(p) && p.Valid()
    ensures p.dice.count == 1 && !p.isActive && p.InPalifico()
  {
    p := new Player("Oscar");
    p.LoseDie(); p.LoseDie(); p.LoseDie(); p.LoseDie();
    assert p.isActive && p.InPalifico();
    p.LoseDie();
    assert p.dice.count == 0 && !p.isActive;
    p.LoseDie();
    assert p.dice.count == 0 && !p.isActive;
    p.GainDie();
  }

  /** Palifico is spent once: after it is triggered, losing and regaining dice never makes it available again. */
  method PalificoOnlyOnce() returns (p: Player)
    ensures fresh(p) && p.Valid()
    ensures p.dice.count == 1 && p.isActive && p.hasHadPalifico && !p.InPalifico()
  {
    p := new Player("Alice");
    p.LoseDie(); p.LoseDie(); p.LoseDie(); p.LoseDie();
    assert p.InPalifico();
    p.TriggerPalifico();
    p.GainDie();
    assert p.dice.count == 2;
    p.LoseDie();
  }
}
