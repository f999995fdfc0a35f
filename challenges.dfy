/**
 * controllers/challengeController.js: the daily challenge a user is offered,
 * completing it at most once a day across tasks and challenges, and the
 * nightly sweep of stale challenges.
 */
module Challenges {
  import opened Common
  import opened Calendar
  import opened StreakRule
  import opened Models
  import opened Rewards
  import opened Achievements

  // ---------------------------------------------------------------------------
  // Offering a daily challenge

  /** The fields of a generated challenge. */
  datatype Draft = Draft(title: string, description: string, xpBonus: int, kind: string)

  /** The technology the fallback names: the first of the stack, or 'General' for an empty stack. */
  function MainTech(techStack: seq<string>): (t: string)
    ensures |techStack| > 0 ==> t == techStack[0]
    ensures |techStack| == 0 ==> t == "General"
  {
    var stack := if |techStack| > 0 then techStack else ["General"];
    stack[0]
  }

  /** The challenge used when the generator's reply is unusable. */
  function FallbackChallenge(techStack: seq<string>): (d: Draft)
    ensures d.xpBonus == 50 && d.kind == "daily_code"
    ensures d.title == "Code in " + MainTech(techStack)
    ensures d.description == "Write a small program in " + MainTech(techStack) + " to practice your skills."
  {
    var tech := MainTech(techStack);
    Draft("Code in " + tech, "Write a small program in " + tech + " to practice your skills.", 50, "daily_code")
  }

  /**
   * `generateAIChallenge`: the generator's parsed reply when there is one
   * (`reply` stands for the external call), otherwise the fallback.
   */
  function GenerateChallenge(u: User, reply: Option<Draft>): (d: Draft)
    ensures reply.Some? ==> d == reply.value
    ensures reply.None? ==> d == FallbackChallenge(u.techStack)
    ensures reply.None? ==> d.xpBonus == 50 && d.kind == "daily_code" && d.title == "Code in " + MainTech(u.techStack)
  {
    match reply
    case Some(draft) => draft
    case None => FallbackChallenge(u.techStack)
  }

  /** The user has an uncompleted challenge created at or after `since`. */
  predicate OpenChallengeSince(challenges: map<ChallengeId, Challenge>, uid: UserId, since: int)
  {
    exists c :: c in challenges && challenges[c].user == uid && challenges[c].createdAt >= since
                && !challenges[c].completed
  }

  /**
   * `getDailyChallenge`: an uncompleted challenge of the user's created today
   * is returned as it is. Otherwise a missing user is 404, and for an existing
   * user a new challenge is generated, stored under a fresh id and appended to
   * the user's `challenges`.
   */
  method GetDailyChallenge(db: Database, uid: UserId, now: int, reply: Option<Draft>) returns (r: Result<Challenge>)
    requires db.Valid()
    modifies db
    ensures db.Valid()
    ensures OpenChallengeSince(old(db.challenges), uid, Midnight(now)) ==>
      && unchanged(db)
      && r.Ok? && r.value in db.challenges.Values
      && r.value.user == uid && !r.value.completed && DayOf(r.value.createdAt) >= DayOf(now)
    ensures !OpenChallengeSince(old(db.challenges), uid, Midnight(now)) && uid !in old(db.users) ==>
      r == Err(NotFound("User not found")) && unchanged(db)
    ensures !OpenChallengeSince(old(db.challenges), uid, Midnight(now)) && uid in old(db.users) ==>
      var id := old(db.nextId);
      var d := GenerateChallenge(old(db.users[uid]), reply);
      && id !in old(db.challenges)
      && r == Ok(Challenge(d.title, d.description, d.xpBonus, d.kind, false, uid, now, None))
      && db.challenges == old(db.challenges)[id := r.value]
      && db.users == old(db.users)[uid := old(db.users[uid]).(challenges := old(db.users[uid].challenges) + [id])]
      && db.nextId == id + 1
      && db.tasks == old(db.tasks) && db.achievements == old(db.achievements) && db.events == old(db.events)
    ensures r.Ok? ==> OpenChallengeSince(db.challenges, uid, Midnight(now))
  {
    var today := Midnight(now);
    if c :| c in db.challenges && db.challenges[c].user == uid && db.challenges[c].createdAt >= today
            && !db.challenges[c].completed {
      AtOrAfterMidnight(db.challenges[c].createdAt, now);
      return Ok(db.challenges[c]);
    }
    if uid !in db.users {
      return Err(NotFound("User not found"));
    }
    var user := db.users[uid];
    var draft := GenerateChallenge(user, reply);
    var id := db.nextId;
    db.nextId := db.nextId + 1;
    var challenge := Challenge(draft.title, draft.description, draft.xpBonus, draft.kind, false, uid, now, None);
    db.challenges := db.challenges[id := challenge];
    user := user.(challenges := user.challenges + [id]);
    db.users := db.users[uid := user];
    assert db.challenges[id].createdAt >= today;
    r := Ok(challenge);
  }

  // ---------------------------------------------------------------------------
  // Completing a challenge

  /**
   * The rejections of `completeChallenge`, in order: someone else's or a
   * missing challenge is 404, a completed one 400, and so is any completed
   * challenge or task of the user's since today's midnight.
   */
  function ChallengeError(tasks: map<TaskId, Task>, challenges: map<ChallengeId, Challenge>,
                          uid: UserId, id: ChallengeId, now: int): (e: Option<Error>)
    ensures id !in challenges || challenges[id].user != uid ==> e == Some(NotFound("Challenge not found"))
    ensures id in challenges && challenges[id].user == uid && challenges[id].completed ==>
              e == Some(BadRequest("Challenge already completed"))
    ensures id in challenges && challenges[id].user == uid && !challenges[id].completed ==>
              (e.None? <==> !ChallengeCompletedSince(challenges, uid, Midnight(now)) &&
                            !TaskCompletedSince(tasks, uid, Midnight(now)))
    ensures e.Some? && e.value.message == "You have already completed a task or challenge today" ==>
              ChallengeCompletedSince(challenges, uid, Midnight(now)) || TaskCompletedSince(tasks, uid, Midnight(now))
  {
    if id !in challenges || challenges[id].user != uid then Some(NotFound("Challenge not found"))
    else if challenges[id].completed then Some(BadRequest("Challenge already completed"))
    else
      var today := Midnight(now);
      if ChallengeCompletedSince(challenges, uid, today) || TaskCompletedSince(tasks, uid, today) then
        Some(BadRequest("You have already completed a task or challenge today"))
      else None
  }

  /**
   * What a challenge completion does to the user: the challenge's XP bonus and
   * a flat 10 coins, the streak and milestone step, and the completion stamp.
   * Hours and the task count are untouched.
   */
  function ChallengeReward(u: User, xpBonus: int, now: int): (r: Reward)
    ensures r.user.xp == u.xp + xpBonus
    ensures r.user.lastTaskCompletion == Some(now)
    ensures CheckStreak(u.lastTaskCompletion, now) == 1 ==>
      && r.user.streak == u.streak + 1
      && r.user.coins == u.coins + 10 + Milestone(u.streak + 1).coins
      && r.message == Milestone(u.streak + 1).message
    ensures CheckStreak(u.lastTaskCompletion, now) == 0 ==>
      r.user.streak == 0 && r.user.coins == u.coins + 10 && r.message == ""
    ensures r.user == u.(xp := r.user.xp, coins := r.user.coins, streak := r.user.streak,
                         lastTaskCompletion := r.user.lastTaskCompletion)
  {
    var gained := u.(xp := u.xp + xpBonus, coins := u.coins + 10);
    var streaked := StreakReward(gained, now);
    Reward(streaked.user.(lastTaskCompletion := Some(now)), streaked.message)
  }

  /** The user updates of `completeChallenge`, field by field. */
  method RewardForChallenge(u: User, xpBonus: int, now: int) returns (user: User, milestoneMessage: string)
    ensures Reward(user, milestoneMessage) == ChallengeReward(u, xpBonus, now)
  {
    user := u;
    user := user.(xp := user.xp + xpBonus);
    user := user.(coins := user.coins + 10);
    var streakIncrement := CheckStreak(user.lastTaskCompletion, now);
    if streakIncrement == 0 && user.lastTaskCompletion.Some? {
      user := user.(streak := 0);
    } else if streakIncrement == 1 {
      user := user.(streak := user.streak + 1);
    }
    milestoneMessage := "";
    if streakIncrement == 1 {
      var bonus := Milestone(user.streak);
      user := user.(coins := user.coins + bonus.coins);
      milestoneMessage := bonus.message;
    }
    user := user.(lastTaskCompletion := Some(now));
  }

  /** The challenge as saved on completion, with its completion instant kept. */
  function Completed(c: Challenge, now: int): (d: Challenge)
    ensures d.completed && d.completedAt == Some(now)
    ensures d == c.(completed := true, completedAt := Some(now))
  {
    c.(completed := true, completedAt := Some(now))
  }

  /** The ledger after a successful completion: the reward, the event, then the achievement check. */
  function AfterChallenge(l: Ledger, uid: UserId, id: ChallengeId, rw: Reward, now: int): (t: Ledger)
    requires LedgerValid(l) && uid in l.users
    ensures LedgerValid(t)
  {
    Check(l.(users := l.users[uid := rw.user], events := l.events + [ChallengeCompleted(uid, id, rw.message)]), uid, now)
  }

  /**
   * `completeChallenge` as intended (see CompleteChallengeAsWritten for the code
   * as it stands). Every rejection changes nothing. Past them the challenge is
   * saved completed with its completion instant; a missing user then fails
   * with 500; otherwise the user is rewarded, 'challengeCompleted' is emitted
   * and the achievement check runs. Afterwards the day's guard is closed.
   */
  method CompleteChallenge(db: Database, uid: UserId, id: ChallengeId, now: int) returns (r: Result<Challenge>)
    requires db.Valid()
    modifies db
    ensures db.Valid()
    ensures ChallengeError(old(db.tasks), old(db.challenges), uid, id, now).Some? ==>
      r == Err(ChallengeError(old(db.tasks), old(db.challenges), uid, id, now).value) && unchanged(db)
    ensures ChallengeError(old(db.tasks), old(db.challenges), uid, id, now).None? ==>
      && db.challenges == old(db.challenges)[id := Completed(old(db.challenges[id]), now)]
      && db.tasks == old(db.tasks)
      && ChallengeCompletedSince(db.challenges, uid, Midnight(now))
    ensures ChallengeError(old(db.tasks), old(db.challenges), uid, id, now).None? && uid !in old(db.users) ==>
      && r == Err(ServerError("Failed to complete challenge"))
      && db.CurrentLedger() == old(db.CurrentLedger())
    ensures ChallengeError(old(db.tasks), old(db.challenges), uid, id, now).None? && uid in old(db.users) ==>
      && r == Ok(Completed(old(db.challenges[id]), now))
      && db.CurrentLedger() ==
           AfterChallenge(old(db.CurrentLedger()), uid, id,
                          ChallengeReward(old(db.users[uid]), old(db.challenges[id].xpBonus), now), now)
  {
    if id !in db.challenges || db.challenges[id].user != uid {
      return Err(NotFound("Challenge not found"));
    }
    var challenge := db.challenges[id];
    if challenge.completed {
      return Err(BadRequest("Challenge already completed"));
    }
    var today := Midnight(now);
    var challengesToday := ChallengeCompletedSince(db.challenges, uid, today);
    var tasksToday := TaskCompletedSince(db.tasks, uid, today);
    if challengesToday || tasksToday {
      return Err(BadRequest("You have already completed a task or challenge today"));
    }

    challenge := challenge.(completed := true);
    challenge := challenge.(completedAt := Some(now));
    db.challenges := db.challenges[id := challenge];
    assert db.challenges.Keys == old(db.challenges).Keys;
    assert ChallengeCompletedSince(db.challenges, uid, today) by {
      assert db.challenges[id].completedAt.value >= today;
    }

    if uid !in db.users {
      return Err(ServerError("Failed to complete challenge"));
    }
    var user, milestoneMessage := RewardForChallenge(db.users[uid], challenge.xpBonus, now);
    SaveRewarded(db, uid, id, user, milestoneMessage, now);
    r := Ok(challenge);
  }

  /**
   * The tail of `completeChallenge`: save the rewarded user, emit
   * 'challengeCompleted' and run the achievement check.
   */
  method SaveRewarded(db: Database, uid: UserId, id: ChallengeId, user: User, milestoneMessage: string, now: int)
    requires db.Valid() && uid in db.users
    modifies db
    ensures db.Valid()
    ensures db.tasks == old(db.tasks) && db.challenges == old(db.challenges)
    ensures db.CurrentLedger() == AfterChallenge(old(db.CurrentLedger()), uid, id, Reward(user, milestoneMessage), now)
  {
    ghost var before := db.CurrentLedger();
    db.users := db.users[uid := user];
    db.events := db.events + [ChallengeCompleted(uid, id, milestoneMessage)];
    assert db.CurrentLedger() ==
      before.(users := before.users[uid := user], events := before.events + [ChallengeCompleted(uid, id, milestoneMessage)]);

    CheckAndUnlockAchievements(db, uid, now);
  }

  /**
   * Once a challenge (or task) has been completed today, every further
   * challenge completion the same calendar day is turned away.
   */
  lemma OncePerDay(tasks: map<TaskId, Task>, challenges: map<ChallengeId, Challenge>, uid: UserId,
                   done: ChallengeId, id: ChallengeId, now1: int, now2: int)
    requires done in challenges && challenges[done].user == uid && challenges[done].completed
    requires challenges[done].completedAt == Some(now1) && DayOf(now1) == DayOf(now2)
    requires id in challenges && challenges[id].user == uid && !challenges[id].completed
    ensures ChallengeError(tasks, challenges, uid, id, now2) ==
              Some(BadRequest("You have already completed a task or challenge today"))
  {
    AtOrAfterMidnight(now1, now2);
    assert ChallengeCompletedSince(challenges, uid, Midnight(now2));
  }

  /** Two completions on one calendar day: the second is rejected and changes nothing. */
  method CompleteTwiceSameDay(db: Database, uid: UserId, first: ChallengeId, second: ChallengeId, now1: int, now2: int)
    returns (r1: Result<Challenge>, r2: Result<Challenge>)
    requires db.Valid() && DayOf(now1) == DayOf(now2) && first != second
    requires second in db.challenges && db.challenges[second].user == uid && !db.challenges[second].completed
    modifies db
    ensures r1.Ok? ==> r2 == Err(BadRequest("You have already completed a task or challenge today"))
  {
    ghost var before := db.challenges;
    r1 := CompleteChallenge(db, uid, first, now1);
    if r1.Ok? {
      assert db.challenges == before[first := Completed(before[first], now1)];
      OncePerDay(db.tasks, db.challenges, uid, first, second, now1, now2);
    }
    r2 := CompleteChallenge(db, uid, second, now2);
  }

  // ---------------------------------------------------------------------------
  // The challenge path as the code stands

  /**
   * `completeChallenge` as written: `Task`, `checkStreak` and
   * `checkAndUnlockAchievements` are used without being imported, so past the
   * two lookups the count of today's tasks throws a ReferenceError before
   * anything is written, and the handler answers 500.
   */
  function CompleteChallengeAsWritten(challenges: map<ChallengeId, Challenge>, uid: UserId, id: ChallengeId): (e: Error)
    ensures id !in challenges || challenges[id].user != uid ==> e == NotFound("Challenge not found")
    ensures id in challenges && challenges[id].user == uid && challenges[id].completed ==>
              e == BadRequest("Challenge already completed")
    ensures id in challenges && challenges[id].user == uid && !challenges[id].completed ==>
              e == ServerError("Failed to complete challenge")
  {
    if id !in challenges || challenges[id].user != uid then NotFound("Challenge not found")
    else if challenges[id].completed then BadRequest("Challenge already completed")
    else ServerError("Failed to complete challenge")
  }

  /**
   * The discrepancy: the caller's pending challenge on a day with nothing
   * completed yet is accepted by the intended handler but fails with 500 as
   * written.
   */
  lemma AsWrittenNeverCompletes(tasks: map<TaskId, Task>, challenges: map<ChallengeId, Challenge>,
                                uid: UserId, id: ChallengeId, now: int)
    requires id in challenges && challenges[id].user == uid && !challenges[id].completed
    requires !ChallengeCompletedSince(challenges, uid, Midnight(now)) && !TaskCompletedSince(tasks, uid, Midnight(now))
    ensures ChallengeError(tasks, challenges, uid, id, now).None?
    ensures CompleteChallengeAsWritten(challenges, uid, id) == ServerError("Failed to complete challenge")
  {
  }

  /**
   * The challenge schema has no `completedAt`, so the instant set on completion
   * is dropped when the document is saved.
   */
  function StoredAsWritten(c: Challenge): (s: Challenge)
    ensures s.completedAt.None?
    ensures s == c.(completedAt := None)
  {
    c.(completedAt := None)
  }

  /**
   * With documents stored under that schema, the guard's count of challenges
   * completed today never finds one.
   */
  lemma GuardBlindAsWritten(challenges: map<ChallengeId, Challenge>, uid: UserId, since: int)
    requires forall c :: c in challenges ==> challenges[c] == StoredAsWritten(challenges[c])
    ensures !ChallengeCompletedSince(challenges, uid, since)
  {
  }

  /**
   * The input that shows it: a challenge completed at `now`, stored as written,
   * and a second pending one the same day with no task completed. The guard
   * lets the second completion through, where the intended store rejects it.
   */
  lemma SecondCompletionSlipsThrough(tasks: map<TaskId, Task>, done: Challenge, pending: Challenge, uid: UserId, now: int)
    requires done.user == uid && pending.user == uid && !pending.completed && pending.completedAt.None?
    requires !TaskCompletedSince(tasks, uid, Midnight(now))
    ensures var asWritten := map[0 := StoredAsWritten(Completed(done, now)), 1 := pending];
            ChallengeError(tasks, asWritten, uid, 1, now).None?
    ensures var intended := map[0 := Completed(done, now), 1 := pending];
            ChallengeError(tasks, intended, uid, 1, now) ==
              Some(BadRequest("You have already completed a task or challenge today"))
  {
    var asWritten := map[0 := StoredAsWritten(Completed(done, now)), 1 := pending];
    GuardBlindAsWritten(asWritten, uid, Midnight(now));
    var intended := map[0 := Completed(done, now), 1 := pending];
    assert intended[0].completedAt.value >= Midnight(now);
  }

  // ---------------------------------------------------------------------------
  // The nightly sweep

  /**
   * The challenges `resetDailyChallenges` keeps: exactly the completed ones
   * and those created at or after `midnight`, each unchanged.
   */
  function Swept(challenges: map<ChallengeId, Challenge>, midnight: int): (kept: map<ChallengeId, Challenge>)
    ensures forall c :: c in kept ==> c in challenges && kept[c] == challenges[c]
    ensures forall c :: c in challenges ==> (c in kept <==> challenges[c].completed || challenges[c].createdAt >= midnight)
  {
    map c | c in challenges && (challenges[c].completed || challenges[c].createdAt >= midnight) :: challenges[c]
  }

  /** Sweeping twice at the same midnight removes nothing more. */
  lemma SweepIdempotent(challenges: map<ChallengeId, Challenge>, midnight: int)
    ensures Swept(Swept(challenges, midnight), midnight) == Swept(challenges, midnight)
  {
  }

  /** The sweep never takes away the challenge today's request would be offered. */
  lemma SweepKeepsTodaysOffer(challenges: map<ChallengeId, Challenge>, uid: UserId, now: int)
    ensures OpenChallengeSince(Swept(challenges, Midnight(now)), uid, Midnight(now)) <==>
            OpenChallengeSince(challenges, uid, Midnight(now))
  {
    var kept := Swept(challenges, Midnight(now));
    if OpenChallengeSince(challenges, uid, Midnight(now)) {
      var c :| c in challenges && challenges[c].user == uid && challenges[c].createdAt >= Midnight(now)
               && !challenges[c].completed;
      assert c in kept;
    }
  }

  /**
   * `resetDailyChallenges`: deletes, one by one, every uncompleted challenge
   * created before today's midnight.
   */
  method ResetDailyChallenges(db: Database, now: int)
    requires db.Valid()
    modifies db
    ensures db.Valid()
    ensures db.challenges == Swept(old(db.challenges), Midnight(now))
    ensures db.users == old(db.users) && db.tasks == old(db.tasks) && db.achievements == old(db.achievements)
    ensures db.nextId == old(db.nextId) && db.events == old(db.events)
  {
    var today := Midnight(now);
    var pending := db.challenges.Keys;
    while pending != {}
      invariant pending <= old(db.challenges).Keys
      invariant db.Valid()
      invariant db.users == old(db.users) && db.tasks == old(db.tasks) && db.achievements == old(db.achievements)
      invariant db.nextId == old(db.nextId) && db.events == old(db.events)
      invariant forall c :: c in db.challenges ==> c in old(db.challenges) && db.challenges[c] == old(db.challenges)[c]
      invariant forall c :: c in pending ==> c in db.challenges
      invariant forall c :: c in old(db.challenges) && c !in pending ==>
                  (c in db.challenges <==> old(db.challenges)[c].completed || old(db.challenges)[c].createdAt >= today)
      decreases |pending|
    {
      var c :| c in pending;
      var challenge := db.challenges[c];
      if challenge.createdAt < today && !challenge.completed {
        db.challenges := db.challenges - {c};
      }
      pending := pending - {c};
    }
  }
}
