/**
 * The streak and milestone step that controllers/taskController.js and
 * controllers/challengeController.js each write out inline after calling
 * checkStreak.
 */
module Rewards {
  import opened Common
  import opened Calendar
  import opened Models
  import opened StreakRule

  datatype Bonus = Bonus(coins: nat, message: string)

  /** Coins for a streak that has just been extended to `streak` days. */
  function Milestone(streak: nat): (b: Bonus)
    ensures b.coins > 0 <==> streak == 3 || streak == 7 || streak == 14
    ensures streak == 3 ==> b.coins == 10 && b.message == "3-Day Streak! +10 coins"
    ensures streak == 7 ==> b.coins == 20 && b.message == "7-Day Streak! +20 coins"
    ensures streak == 14 ==> b.coins == 50 && b.message == "14-Day Streak! +50 coins"
    ensures b.message == "" <==> b.coins == 0
  {
    if streak == 3 then Bonus(10, "3-Day Streak! +10 coins")
    else if streak == 7 then Bonus(20, "7-Day Streak! +20 coins")
    else if streak == 14 then Bonus(50, "14-Day Streak! +50 coins")
    else Bonus(0, "")
  }

  /** A user after a completion, and the milestone message sent with it. */
  datatype Reward = Reward(user: User, message: string)

  /**
   * The shared step: the increment from checkStreak on the previous completion
   * either extends the streak by one (and pays a milestone bonus when the new
   * length is 3, 7 or 14) or, since a previous completion exists, resets it to 0.
   * Nothing but `streak` and `coins` changes.
   */
  function StreakReward(u: User, now: int): (r: Reward)
    ensures r.user == u.(streak := r.user.streak, coins := r.user.coins)
    ensures CheckStreak(u.lastTaskCompletion, now) == 1 ==>
      && r.user.streak == u.streak + 1
      && r.user.coins == u.coins + Milestone(u.streak + 1).coins
      && r.message == Milestone(u.streak + 1).message
    ensures CheckStreak(u.lastTaskCompletion, now) == 0 ==>
      r.user.streak == 0 && r.user.coins == u.coins && r.message == ""
  {
    var streakIncrement := CheckStreak(u.lastTaskCompletion, now);
    if streakIncrement == 0 && u.lastTaskCompletion.Some? then
      Reward(u.(streak := 0), "")
    else if streakIncrement == 1 then
      var bonus := Milestone(u.streak + 1);
      Reward(u.(streak := u.streak + 1, coins := u.coins + bonus.coins), bonus.message)
    else
      Reward(u, "")
  }

  /**
   * A previous completion on the same calendar day resets the streak to 0
   * rather than leaving it alone.
   */
  lemma SameDayResets(u: User, now: int)
    requires u.lastTaskCompletion.Some? && DayOf(u.lastTaskCompletion.value) == DayOf(now)
    ensures StreakReward(u, now).user.streak == 0
  {
  }

  /** Milestone coins collected by a streak extended one day at a time from 1 up to `n`. */
  function MilestoneCoinsThrough(n: nat): nat
  {
    if n == 0 then 0 else MilestoneCoinsThrough(n - 1) + Milestone(n).coins
  }

  /** Each milestone pays once on the way up: 10 at 3 days, 20 at 7, 50 at 14, and nothing more later. */
  lemma {:induction false} MilestonesPayOnce(n: nat)
    ensures MilestoneCoinsThrough(n) ==
      (if n >= 3 then 10 else 0) + (if n >= 7 then 20 else 0) + (if n >= 14 then 50 else 0)
  {
    if n > 0 {
      MilestonesPayOnce(n - 1);
    }
  }
}
