/** utils/calculateXP.js: the experience points a difficulty tier is worth. */
module XpTable {

  /** The `switch` on the tier: easy 10, medium 50, hard 100, anything else 0. */
  function TierXP(difficulty: string): (xp: nat)
    ensures xp == 0 <==> difficulty !in {"easy", "medium", "hard"}
  {
    match difficulty
    case "easy" => 10
    case "medium" => 50
    case "hard" => 100
    case _ => 0
  }

  /** `calculateXP(difficulty, bonus = 0)`: the tier's points plus the bonus. */
  function CalculateXP(difficulty: string, bonus: int := 0): (xp: int)
    ensures xp >= bonus
    ensures xp - bonus in {0, 10, 50, 100}
    ensures xp == bonus <==> difficulty !in {"easy", "medium", "hard"}
  {
    TierXP(difficulty) + bonus
  }

  /** The table itself, and harder tiers are worth strictly more for the same bonus. */
  lemma TierTable(bonus: int)
    ensures CalculateXP("easy", bonus) == 10 + bonus
    ensures CalculateXP("medium", bonus) == 50 + bonus
    ensures CalculateXP("hard", bonus) == 100 + bonus
    ensures CalculateXP("hard", bonus) > CalculateXP("medium", bonus) > CalculateXP("easy", bonus) > bonus
    ensures CalculateXP("hard") == 100
  {
  }
}
