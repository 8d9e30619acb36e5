# Perudo rule engine in Dafny

A model of the rule engine of a Perudo (Liar's Dice) game written in Python.
It covers the raise grammar that decides whether a bid may follow the previous
one, the counting of dice with ones as wild, the settling of Dudo and Calza
calls, the Palifico and winner checks, the per-player dice lifecycle, and the
two roster helpers of the game controller.

| file | source | form |
|---|---|---|
| `bid.dfy` (module `Bids`) | src/bid.py | datatype `Bid` with the pure function `IsValidRaise` returning `(accepted, reason)` |
| `dice.dfy` (module `DiceCup`) | src/dice.py | class `Dice` with fields `count` and `values` |
| `player.dfy` (module `Players`) | src/player.py | class `Player` owning a `Dice`, with `isActive` and `hasHadPalifico`, invariant `Valid()` |
| `rules.dfy` (module `Rules`) | src/rules.py | loop methods specified by the function `Matching`; `CheckWinner` as a function |
| `game.dfy` (module `Game`) | src/game.py | `TotalDice` and the loop method `GetNextActivePlayer` |

Randomness is a parameter: `Dice.Roll` and `Player.RollDice` take the rolled
faces (`rolled`, one face in 1..6 per die) from their caller.

Two behaviours of the code that a reader might not expect, which the model
keeps as written:
- The ceiling on the number of dice in play applies only when the total
  passed in is positive (src/bid.py:39). A total of 0, the default, means no
  ceiling at all.
- `check_palifico_trigger` does not look at `is_active` (src/rules.py:89-92).
  An eliminated player who gains a die back holds one die, is inactive, and is
  reported as being in Palifico (`Players.EliminationIsPermanent`). The game
  only gives a die to the active Calza caller, so the controller never creates
  this state.

The rounding `math.ceil(q / 2)` is modelled as `(q + 1) / 2` (`Bids.CeilHalf`).
Dafny's `/` is Euclidean, which is floor division for a positive divisor, so
this equals the ceiling of `q / 2` for every integer `q`, negative ones
included.

## Model

| member | source | states |
|---|---|---|
| `Bids.Bid.IsValidRaise` | src/bid.py:27-84 | the reason is empty exactly when the bid is accepted |
| `Bids.Decimal` | src/bid.py:40-69 | the number inside a message is rendered as a minus sign exactly for negatives, followed by digits only |
| `Bids.DecimalRoundTrip` | src/bid.py:40-69 | the rendering reads back as the number it renders, so the messages carry the total and the minimum quantities exactly |
| `Bids.CeilHalf` | src/bid.py:60 | the result is the least m with 2m >= q, i.e. the ceiling of q/2 |
| `Bids.CeilingRejects` | src/bid.py:38-40 | with a positive total, a quantity above it is rejected whatever the previous bid and the Palifico flag |
| `Bids.OpeningBid` | src/bid.py:42-48 | an opening bid is accepted iff it passes the ceiling, quantity >= 1 and face in 2..6; a quantity equal to the total passes; face 1 never opens |
| `Bids.PalificoRaise` | src/bid.py:50-56 | under Palifico a raise is accepted iff it passes the ceiling, keeps the face and strictly raises the quantity; a refusal of a bid within the ceiling gives one of the two Palifico reasons, never a wild-switch reason |
| `Bids.SwitchOntoOnes` | src/bid.py:58-63 | switching from another face onto ones is accepted iff quantity >= ceil(prev/2), equivalently 2 * quantity >= prev |
| `Bids.SwitchAwayFromOnes` | src/bid.py:65-70 | switching from ones onto another face is accepted iff quantity >= 2 * prev + 1 |
| `Bids.SameFace` | src/bid.py:72-77 | keeping the face, ones included, is accepted iff the quantity strictly increases |
| `Bids.DifferentFaces` | src/bid.py:78-84 | between two different faces other than one, accepted iff the quantity increases, or stays equal with a higher face |
| `Bids.NoRaiseOverItself` | src/bid.py:50-84 | no bid is a valid raise over an identical previous bid, in or out of Palifico |
| `Bids.WildSwitchExamples` | src/bid.py:38-70 | (7,4)->(4,1) accepted, (7,4)->(3,1) refused with "at least 4", (3,1)->(7,4) accepted, (3,1)->(6,4) refused with "at least 7", an opening (15,3) over 10 dice refused, with the source's exact messages |
| `Bids.StandardRaiseIsOutranking` | src/bid.py:58-84 | outside Palifico, for faces 1..6 and within the ceiling, a bid is accepted iff it outranks the previous bid on the scale where n ones rank just above 2n of any other face |
| `Bids.RaiseIsIrreversible` | src/bid.py:50-84 | if b may follow c then c may not follow b, in the same regime and for any totals: bidding never cycles |
| `Bids.RaisesCompose` | src/bid.py:58-84 | two successive raises outside Palifico outrank the starting bid, and the last bid is itself a valid raise over the first |
| `DiceCup.Occurrences` | src/dice.py:47 | Python's `list.count`: never more than the length of the list |
| `DiceCup.OccurrencesIsMultiplicity` | src/dice.py:47 | the recursive count equals the multiplicity of the value in the multiset of the dice |
| `DiceCup.TwoFacesFit` | src/dice.py:51 | two different faces together occur at most as often as there are dice |
| `DiceCup.Dice.constructor` | src/dice.py:9-16 | a new set of n dice has count n and no faces yet |
| `DiceCup.Dice.Roll` | src/dice.py:18-25 | the faces are replaced by the roll, one face in 1..6 per die, and returned; the count is unchanged |
| `DiceCup.Dice.GetValues` | src/dice.py:27-33 | returns the faces as stored, which stay unchanged |
| `DiceCup.Dice.CountFace` | src/dice.py:35-54 | the count is the number of dice showing the face, plus the ones when the face is not 1 and wilds are active; it never exceeds the number of dice |
| `DiceCup.WildsOnlyAdd` | src/dice.py:45-54 | counting ones ignores the wild flag; for any face the wilds-on count is at least the wilds-off count, and for faces other than 1 exceeds it by the number of ones |
| `DiceCup.ImpossibleFace` | src/dice.py:45-54 | for rolled dice, a face outside 1..6 counts 0 without wilds and only the ones with wilds |
| `DiceCup.ExtraWildDie` | src/dice.py:45-54 | one extra die showing 1 adds one to a count of ones and to any count under wilds, and nothing to other faces without wilds |
| `DiceCup.CountFaceExample` | src/dice.py:45-54 | the dice [1,3,3,4,1] count 4 threes with wilds, 2 without, 2 ones either way, 2 sevens with wilds and none without |
| `Players.Player.constructor` | src/player.py:8-17 | a new player has the given name, five unrolled dice, is active and has not had Palifico |
| `Players.Player.GetDiceCount` | src/player.py:24-30 | returns the dice held, which for a valid player is at most five and is zero only for an eliminated player |
| `Players.Player.InPalifico` | src/player.py:44-50 | holds only with exactly one die, and never once the Palifico flag is set |
| `Players.Player.RollDice` | src/player.py:19-22 | an active player's faces become the roll; an eliminated player's faces are left as they are |
| `Players.Player.LoseDie` | src/player.py:32-37 | the count drops by one when positive and stays 0 otherwise; the player becomes inactive exactly when the count goes from 1 to 0 and never becomes active again; faces and the Palifico flag are unchanged; the invariant is kept |
| `Players.Player.GainDie` | src/player.py:39-42 | the count rises by one only below five, so it never exceeds five; `isActive`, faces and the Palifico flag are unchanged |
| `Players.Player.TriggerPalifico` | src/player.py:44-54 | sets the Palifico flag, after which the player is not in Palifico; no method clears the flag |
| `Players.EliminationIsPermanent` | src/player.py:32-42 | five losses eliminate a fresh player, a sixth is a no-op, and a gained die leaves them inactive with one die |
| `Players.PalificoOnlyOnce` | src/player.py:32-54 | after Palifico is triggered, gaining and losing back to one die does not put the player in Palifico again |
| `Rules.Matching` | src/rules.py:22-26 | the reference sum of `CountFace` over the players in play; it is at least each in-play player's own count, and zero when no player is in play |
| `Rules.MatchingSplits` | src/rules.py:22-26 | the count over a roster is the sum of the counts over any split of it |
| `Rules.MatchingSkipsIdle` | src/rules.py:23-25 | an inactive player or a player without dice contributes nothing, whatever their faces |
| `Rules.MatchingWilds` | src/rules.py:11-26 | over a roster, the wilds-on count is at least the wilds-off count, and a count of ones ignores the flag |
| `Rules.CountDiceInPlay` | src/rules.py:11-26 | the loop's total is the sum of `CountFace` over the players that are active and hold dice |
| `Rules.ResolveDudo` | src/rules.py:29-52 | the bid stands iff the matching count is at least its quantity (a tie favours the bidder); the loser is the challenger then, else the bidder |
| `Rules.ResolveCalza` | src/rules.py:55-77 | the call wins iff the matching count equals the quantity exactly; too high and too low both lose |
| `Rules.CheckPalificoTrigger` | src/rules.py:80-92 | returns the smallest index of a player in Palifico, or -1 when there is none |
| `Rules.ActiveIndices` | src/rules.py:104 | lists exactly the indices of the active players, in increasing order |
| `Rules.NoActiveIndices` | src/rules.py:104 | with no active player the list is empty |
| `Rules.SoleActiveIndices` | src/rules.py:104 | with exactly one active player the list is that one index |
| `Rules.CheckWinner` | src/rules.py:95-107 | returns the index of the only active player when exactly one is active, and -1 otherwise |
| `Rules.MatchingPair` | src/rules.py:22-26 | over two players in play the count is the sum of their own counts |
| `Rules.MatchingExampleWilds` | src/rules.py:11-26 | threes over [3,3,4,5,6] and [1,3,2,4,5] with wilds: 4 |
| `Rules.MatchingExampleNoWilds` | src/rules.py:11-26 | threes over [1,1,3,3,5] and [1,3,2,4,5] without wilds: 3 |
| `Game.TotalDice` | src/game.py:88-94 | the sum of `dice.count` over active players: at least each active player's count, and zero when no player is active |
| `Game.MatchingWithinTotal` | src/game.py:88-94 | once the active players have rolled, no face matches more dice than `get_total_dice` reports, so a bid over the ceiling could never stand |
| `Game.TotalDiceExample` | src/game.py:94 | players holding 4, 0 (eliminated) and 5 dice give 9 dice in play |
| `Game.GetNextActivePlayer` | src/game.py:74-86 | returns an active index such that every index met earlier in the cyclic scan starting just after the current one is inactive; when the current player is the only active one, the result is the current player |

## Left out

- The resolvers' message strings are not modelled: they embed player names
  and counts and only serve the display. Indexing the roster for those
  messages raises an error in Python for an out-of-range index; the model
  returns the verdict without indexing.
- `Bid.__str__`, `Bid.__repr__` and `Player.__str__`: presentation only.
- `math.ceil(q / 2)` goes through floating point in Python; for quantities
  beyond 2^53 the float division rounds, the integer model does not, and
  from 2^1025 on Python raises `OverflowError` where `Bids.CeilHalf` still
  returns a value.
- Default arguments (`is_palifico=False`, `total_dice=0`, `wilds_active=True`,
  `count=5`) are not modelled: every operation takes them explicitly, as the
  game controller always passes them.
- `Dice.roll` and `Player.roll_dice` draw from `random.randint`; here the
  rolled faces are a parameter, and any sequence of faces in 1..6 of the
  right length may be passed.
- `Game.GetNextActivePlayer` requires a non-empty roster with an active
  player: in Python an empty roster fails on the modulo and a roster with
  no active player makes the loop run forever.
- The rest of the game controller (`setup`, `start_new_round`, `play_turn`,
  `handle_bid`, `handle_dudo`, `handle_calza`, `play`), including the rule that
  picks the starter of the next round, the terminal interface in src/ui.py and
  the entry point main.py: they interleave state changes with blocking input
  and display calls.
- Aliasing between players' dice is not modelled: each player owns a fresh
  `Dice`, and nothing here shares one between players.
