/**
 * controllers/taskController.js: creating, editing, deleting and completing
 * tasks, and the keyword classifier behind the learning resources.
 */
module Tasks {
  import opened Common
  import opened Calendar
  import opened Text
  import opened XpTable
  import opened StreakRule
  import opened Models
  import opened Rewards
  import opened Achievements

  /** The difficulty tiers a task may have. */
  predicate IsTier(difficulty: string)
  {
    difficulty in {"easy", "medium", "hard"}
  }

  // ---------------------------------------------------------------------------
  // Creating a task

  /**
   * The checks of `createTask`, in order. A missing field arrives as the
   * empty string or 0, which the source treats as absent.
   */
  function NewTaskError(name: string, difficulty: string, estimatedTime: real): (e: Option<Error>)
    ensures e.None? <==> name != "" && IsTier(difficulty) && estimatedTime > 0.0
    ensures e.Some? ==> e.value.BadRequest?
    ensures name == "" || difficulty == "" || estimatedTime == 0.0 ==>
              e == Some(BadRequest("Name, difficulty, and estimated time are required"))
    ensures name != "" && difficulty != "" && estimatedTime != 0.0 && !IsTier(difficulty) ==>
              e == Some(BadRequest("Invalid difficulty level"))
    ensures name != "" && IsTier(difficulty) && estimatedTime < 0.0 ==>
              e == Some(BadRequest("Estimated time must be positive"))
  {
    if name == "" || difficulty == "" || estimatedTime == 0.0 then
      Some(BadRequest("Name, difficulty, and estimated time are required"))
    else if !IsTier(difficulty) then Some(BadRequest("Invalid difficulty level"))
    else if estimatedTime <= 0.0 then Some(BadRequest("Estimated time must be positive"))
    else None
  }

  /** `createTask`: a valid request stores a pending task owned by the caller under a fresh id. */
  method CreateTask(db: Database, uid: UserId, name: string, description: string, difficulty: string,
                    estimatedTime: real, now: int) returns (r: Result<TaskId>)
    requires db.Valid()
    modifies db
    ensures db.Valid()
    ensures NewTaskError(name, difficulty, estimatedTime).Some? ==>
              r == Err(NewTaskError(name, difficulty, estimatedTime).value) && unchanged(db)
    ensures NewTaskError(name, difficulty, estimatedTime).None? ==>
      && r == Ok(old(db.nextId))
      && r.value !in old(db.tasks)
      && db.tasks == old(db.tasks)[r.value := Task(name, description, difficulty, estimatedTime, None, Pending, uid, None, now, false)]
      && db.nextId == old(db.nextId) + 1
      && db.users == old(db.users) && db.challenges == old(db.challenges)
      && db.achievements == old(db.achievements) && db.events == old(db.events)
  {
    var error := NewTaskError(name, difficulty, estimatedTime);
    if error.Some? {
      return Err(error.value);
    }
    var id := db.nextId;
    db.nextId := db.nextId + 1;
    db.tasks := db.tasks[id := Task(name, description, difficulty, estimatedTime, None, Pending, uid, None, now, false)];
    r := Ok(id);
  }

  // ---------------------------------------------------------------------------
  // Editing a task

  /** The fields an update request may carry; empty or 0 means "not supplied". */
  datatype TaskPatch = TaskPatch(name: string, description: string, difficulty: string, estimatedTime: real)

  /**
   * The edit `updateTask` makes to a pending task: each supplied field is
   * overwritten and the others are kept; a supplied difficulty outside the
   * tiers, then a supplied negative time, rejects the whole edit.
   */
  function Patched(t: Task, p: TaskPatch): (r: Result<Task>)
    ensures r.Ok? <==> (p.difficulty == "" || IsTier(p.difficulty)) && p.estimatedTime >= 0.0
    ensures r.Err? ==> r.error == (if p.difficulty != "" && !IsTier(p.difficulty)
                                   then BadRequest("Invalid difficulty level")
                                   else BadRequest("Estimated time must be positive"))
    ensures r.Ok? ==>
      && r.value == t.(name := r.value.name, description := r.value.description,
                       difficulty := r.value.difficulty, estimatedTime := r.value.estimatedTime)
      && r.value.name == (if p.name != "" then p.name else t.name)
      && r.value.description == (if p.description != "" then p.description else t.description)
      && r.value.difficulty == (if p.difficulty != "" then p.difficulty else t.difficulty)
      && r.value.estimatedTime == (if p.estimatedTime != 0.0 then p.estimatedTime else t.estimatedTime)
  {
    var t1 := if p.name != "" then t.(name := p.name) else t;
    var t2 := if p.description != "" then t1.(description := p.description) else t1;
    if p.difficulty != "" && !IsTier(p.difficulty) then Err(BadRequest("Invalid difficulty level"))
    else
      var t3 := if p.difficulty != "" then t2.(difficulty := p.difficulty) else t2;
      if p.estimatedTime != 0.0 && p.estimatedTime <= 0.0 then Err(BadRequest("Estimated time must be positive"))
      else Ok(if p.estimatedTime != 0.0 then t3.(estimatedTime := p.estimatedTime) else t3)
  }

  /**
   * `updateTask`: only the owner's pending task can be edited; a rejected
   * edit leaves the stored task as it was, and a completed task is never
   * changed.
   */
  method UpdateTask(db: Database, uid: UserId, id: TaskId, p: TaskPatch) returns (r: Result<Task>)
    requires db.Valid()
    modifies db
    ensures db.Valid()
    ensures CompletedTasksKept(old(db.tasks), db.tasks)
    ensures id !in old(db.tasks) || old(db.tasks[id].user) != uid ==>
              r == Err(NotFound("Task not found")) && unchanged(db)
    ensures id in old(db.tasks) && old(db.tasks[id].user) == uid && old(db.tasks[id].status) == Completed ==>
              r == Err(BadRequest("Cannot update completed task")) && unchanged(db)
    ensures id in old(db.tasks) && old(db.tasks[id].user) == uid && old(db.tasks[id].status) == Pending ==>
      && r == Patched(old(db.tasks[id]), p)
      && (r.Err? ==> unchanged(db))
      && (r.Ok? ==> db.tasks == old(db.tasks)[id := r.value] && r.value.status == Pending && r.value.user == uid)
    ensures db.users == old(db.users) && db.challenges == old(db.challenges)
    ensures db.achievements == old(db.achievements) && db.nextId == old(db.nextId) && db.events == old(db.events)
  {
    if id !in db.tasks || db.tasks[id].user != uid {
      return Err(NotFound("Task not found"));
    }
    var task := db.tasks[id];
    if task.status == Completed {
      return Err(BadRequest("Cannot update completed task"));
    }
    if p.name != "" {
      task := task.(name := p.name);
    }
    if p.description != "" {
      task := task.(description := p.description);
    }
    if p.difficulty != "" {
      if !IsTier(p.difficulty) {
        return Err(BadRequest("Invalid difficulty level"));
      }
      task := task.(difficulty := p.difficulty);
    }
    if p.estimatedTime != 0.0 {
      if p.estimatedTime <= 0.0 {
        return Err(BadRequest("Estimated time must be positive"));
      }
      task := task.(estimatedTime := p.estimatedTime);
    }
    db.tasks := db.tasks[id := task];
    r := Ok(task);
  }

  // ---------------------------------------------------------------------------
  // Deleting a task

  /**
   * `deleteTask`: a missing task is 404 but another user's task is 403;
   * the owner's task, pending or completed, is removed and 'taskDeleted' emitted.
   */
  method DeleteTask(db: Database, uid: UserId, id: TaskId) returns (r: Result<()>)
    requires db.Valid()
    modifies db
    ensures db.Valid()
    ensures id !in old(db.tasks) ==> r == Err(NotFound("Task not found")) && unchanged(db)
    ensures id in old(db.tasks) && old(db.tasks[id].user) != uid ==>
              r == Err(Forbidden("Not authorized to delete this task")) && unchanged(db)
    ensures id in old(db.tasks) && old(db.tasks[id].user) == uid ==>
      && r == Ok(())
      && db.tasks == old(db.tasks) - {id}
      && db.events == old(db.events) + [TaskDeleted(uid, id)]
      && db.users == old(db.users) && db.challenges == old(db.challenges)
      && db.achievements == old(db.achievements) && db.nextId == old(db.nextId)
  {
    if id !in db.tasks {
      return Err(NotFound("Task not found"));
    }
    if db.tasks[id].user != uid {
      return Err(Forbidden("Not authorized to delete this task"));
    }
    db.tasks := db.tasks - {id};
    db.events := db.events + [TaskDeleted(uid, id)];
    r := Ok(());
  }

  // ---------------------------------------------------------------------------
  // Completing a task

  /** The task as saved by `completeTask`. */
  function Finished(t: Task, actualTime: real, learned: bool, now: int): (f: Task)
    ensures f.status == Completed && f.completedAt == Some(now) && f.actualTime == Some(actualTime)
    ensures f == t.(status := Completed, completedAt := Some(now), actualTime := Some(actualTime), learned := learned)
  {
    t.(actualTime := Some(actualTime), status := Completed, completedAt := Some(now), learned := learned)
  }

  /**
   * What a task completion does to the user: XP for the difficulty, the hours
   * and one more task on every completion; the streak and milestone step only
   * when no other task was completed earlier today; and the completion stamp.
   */
  function TaskReward(u: User, difficulty: string, actualTime: real, taskDoneToday: bool, now: int): (r: Reward)
    ensures r.user.xp == u.xp + CalculateXP(difficulty)
    ensures r.user.totalHoursCoded == u.totalHoursCoded + actualTime / 60.0
    ensures r.user.tasksCompleted == u.tasksCompleted + 1
    ensures r.user.lastTaskCompletion == Some(now)
    ensures taskDoneToday ==> r.user.streak == u.streak && r.user.coins == u.coins && r.message == ""
    ensures !taskDoneToday ==>
      && (CheckStreak(u.lastTaskCompletion, now) == 1 ==>
            && r.user.streak == u.streak + 1
            && r.user.coins == u.coins + Milestone(u.streak + 1).coins
            && r.message == Milestone(u.streak + 1).message)
      && (CheckStreak(u.lastTaskCompletion, now) == 0 ==>
            r.user.streak == 0 && r.user.coins == u.coins && r.message == "")
    ensures r.user == u.(xp := r.user.xp, totalHoursCoded := r.user.totalHoursCoded,
                         tasksCompleted := r.user.tasksCompleted, streak := r.user.streak,
                         coins := r.user.coins, lastTaskCompletion := r.user.lastTaskCompletion)
  {
    var gained := u.(xp := u.xp + CalculateXP(difficulty), totalHoursCoded := u.totalHoursCoded + actualTime / 60.0,
                     tasksCompleted := u.tasksCompleted + 1);
    var streaked := if taskDoneToday then Reward(gained, "") else StreakReward(gained, now);
    Reward(streaked.user.(lastTaskCompletion := Some(now)), streaked.message)
  }

  /** Coins change on a task completion only at a freshly reached milestone of 3, 7 or 14 days. */
  lemma TaskCoinsOnlyAtMilestones(u: User, difficulty: string, actualTime: real, taskDoneToday: bool, now: int)
    ensures var r := TaskReward(u, difficulty, actualTime, taskDoneToday, now);
            r.user.coins != u.coins ==>
              && !taskDoneToday
              && CheckStreak(u.lastTaskCompletion, now) == 1
              && r.user.streak in {3, 7, 14}
              && r.user.coins - u.coins == Milestone(r.user.streak).coins
  {
  }

  /**
   * The user updates of `completeTask`, field by field: XP, hours and task
   * count, then the streak step unless a task was already completed today,
   * then the completion stamp.
   */
  method RewardForTask(u: User, difficulty: string, actualTime: real, tasksToday: bool, now: int)
    returns (user: User, milestoneMessage: string)
    ensures Reward(user, milestoneMessage) == TaskReward(u, difficulty, actualTime, tasksToday, now)
  {
    user := u;
    user := user.(xp := user.xp + CalculateXP(difficulty));
    user := user.(totalHoursCoded := user.totalHoursCoded + actualTime / 60.0);
    user := user.(tasksCompleted := user.tasksCompleted + 1);

    milestoneMessage := "";
    if !tasksToday {
      var streakIncrement := CheckStreak(user.lastTaskCompletion, now);
      if streakIncrement == 0 && user.lastTaskCompletion.Some? {
        user := user.(streak := 0);
      } else if streakIncrement == 1 {
        user := user.(streak := user.streak + 1);
        var bonus := Milestone(user.streak);
        user := user.(coins := user.coins + bonus.coins);
        milestoneMessage := bonus.message;
      }
    }
    user := user.(lastTaskCompletion := Some(now));
  }

  /** The user and ledger after a successful completion by an existing user. */
  function AfterTask(l: Ledger, uid: UserId, id: TaskId, rw: Reward, now: int): (t: Ledger)
    requires LedgerValid(l) && uid in l.users
    ensures LedgerValid(t)
  {
    var checked := Check(l.(users := l.users[uid := rw.user]), uid, now);
    checked.(events := checked.events + [TaskCompleted(uid, id, rw.message), StatsUpdated(uid), LeaderboardUpdate(uid)])
  }

  /** The owner's pending task and a positive time: the request passes validation. */
  predicate CanComplete(tasks: map<TaskId, Task>, uid: UserId, id: TaskId, actualTime: real)
  {
    id in tasks && tasks[id].user == uid && tasks[id].status == Pending && actualTime > 0.0
  }

  /**
   * The rejections of `completeTask`, in order: someone else's or a missing
   * task is 404, a completed one 400, and a missing or non-positive time 400.
   */
  function CompletionError(tasks: map<TaskId, Task>, uid: UserId, id: TaskId, actualTime: real): (e: Option<Error>)
    ensures e.None? <==> CanComplete(tasks, uid, id, actualTime)
    ensures id !in tasks || tasks[id].user != uid ==> e == Some(NotFound("Task not found"))
    ensures id in tasks && tasks[id].user == uid && tasks[id].status == Completed ==>
              e == Some(BadRequest("Task already completed"))
    ensures e.Some? && e != Some(NotFound("Task not found")) && e != Some(BadRequest("Task already completed")) ==>
              e == Some(BadRequest("Actual time must be positive")) && actualTime <= 0.0
  {
    if id !in tasks || tasks[id].user != uid then Some(NotFound("Task not found"))
    else if tasks[id].status == Completed then Some(BadRequest("Task already completed"))
    else if actualTime <= 0.0 then Some(BadRequest("Actual time must be positive"))
    else None
  }

  /**
   * `completeTask`. The three rejections change nothing. Past them the task is
   * saved completed; a missing user then fails with 500. Otherwise the user is
   * rewarded (TaskReward, with "a task was already completed today" counted
   * before this one is saved), the achievement check runs on the rewarded
   * user and the three completion events follow.
   */
  method CompleteTask(db: Database, uid: UserId, id: TaskId, actualTime: real, learned: bool, now: int)
    returns (r: Result<Task>)
    requires db.Valid()
    modifies db
    ensures db.Valid()
    ensures CompletionError(old(db.tasks), uid, id, actualTime).Some? ==>
              r == Err(CompletionError(old(db.tasks), uid, id, actualTime).value) && unchanged(db)
    ensures CanComplete(old(db.tasks), uid, id, actualTime) ==>
      && db.tasks == old(db.tasks)[id := Finished(old(db.tasks[id]), actualTime, learned, now)]
      && db.challenges == old(db.challenges)
      && TaskCompletedSince(db.tasks, uid, Midnight(now))
    ensures CanComplete(old(db.tasks), uid, id, actualTime) && uid !in old(db.users) ==>
      && r == Err(ServerError("Failed to complete task"))
      && db.CurrentLedger() == old(db.CurrentLedger())
    ensures CanComplete(old(db.tasks), uid, id, actualTime) && uid in old(db.users) ==>
      && r == Ok(Finished(old(db.tasks[id]), actualTime, learned, now))
      && db.CurrentLedger() ==
           AfterTask(old(db.CurrentLedger()), uid, id,
                     TaskReward(old(db.users[uid]), old(db.tasks[id].difficulty), actualTime,
                                TaskCompletedSince(old(db.tasks), uid, Midnight(now)), now), now)
  {
    if id !in db.tasks || db.tasks[id].user != uid {
      return Err(NotFound("Task not found"));
    }
    var task := db.tasks[id];
    if task.status == Completed {
      return Err(BadRequest("Task already completed"));
    }
    if actualTime <= 0.0 {
      return Err(BadRequest("Actual time must be positive"));
    }
    var today := Midnight(now);
    var tasksToday := TaskCompletedSince(db.tasks, uid, today);

    task := task.(actualTime := Some(actualTime));
    task := task.(status := Completed);
    task := task.(completedAt := Some(now));
    task := task.(learned := learned);
    db.tasks := db.tasks[id := task];
    assert db.tasks.Keys == old(db.tasks).Keys;
    assert TaskCompletedSince(db.tasks, uid, today) by {
      assert db.tasks[id].completedAt.value >= today;
    }

    if uid !in db.users {
      return Err(ServerError("Failed to complete task"));
    }
    var user, milestoneMessage := RewardForTask(db.users[uid], task.difficulty, actualTime, tasksToday, now);
    SaveRewarded(db, uid, id, user, milestoneMessage, now);
    r := Ok(task);
  }

  /**
   * The tail of `completeTask`: save the rewarded user, run the achievement
   * check and emit the three completion events.
   */
  method SaveRewarded(db: Database, uid: UserId, id: TaskId, user: User, milestoneMessage: string, now: int)
    requires db.Valid() && uid in db.users
    modifies db
    ensures db.Valid()
    ensures db.tasks == old(db.tasks) && db.challenges == old(db.challenges)
    ensures db.CurrentLedger() == AfterTask(old(db.CurrentLedger()), uid, id, Reward(user, milestoneMessage), now)
  {
    ghost var before := db.CurrentLedger();
    db.users := db.users[uid := user];
    assert db.CurrentLedger() == before.(users := before.users[uid := user]);

    CheckAndUnlockAchievements(db, uid, now);
    ghost var checked := db.CurrentLedger();
    db.events := db.events + [TaskCompleted(uid, id, milestoneMessage), StatsUpdated(uid), LeaderboardUpdate(uid)];
    assert db.CurrentLedger() == checked.(events := checked.events + [TaskCompleted(uid, id, milestoneMessage), StatsUpdated(uid), LeaderboardUpdate(uid)]);
  }

  // ---------------------------------------------------------------------------
  // Classifying a task's technology

  /** A technology and the keywords that identify it. */
  datatype Category = Category(name: string, keywords: seq<string>)

  /** The categories in the order `detectTechnology` tries them. */
  const Categories: seq<Category> := [
    Category("react", ["react", "jsx", "component", "hooks"]),
    Category("javascript", ["javascript", "js", "es6", "node"]),
    Category("python", ["python", "django", "flask"]),
    Category("database", ["mysql", "mongodb", "postgres", "sql"]),
    Category("html", ["html", "css", "frontend"]),
    Category("api", ["api", "rest", "graphql"])
  ]

  /** Some keyword of the category occurs in the (lower-cased) text. */
  predicate Mentions(c: Category, lower: string)
  {
    exists k :: 0 <= k < |c.keywords| && Includes(lower, c.keywords[k])
  }

  /**
   * `detectTechnology`: the capitalised name of the first category, in the
   * fixed order, with a keyword in the lower-cased text; 'Programming' when
   * there is none.
   */
  method DetectTechnology(text: string) returns (tech: string)
    ensures tech == "Programming" <==> forall i :: 0 <= i < |Categories| ==> !Mentions(Categories[i], Lower(text))
    ensures tech != "Programming" ==>
      exists i :: 0 <= i < |Categories| && Mentions(Categories[i], Lower(text)) &&
                  tech == Capitalize(Categories[i].name) &&
                  forall j :: 0 <= j < i ==> !Mentions(Categories[j], Lower(text))
  {
    var lower := Lower(text);
    for i := 0 to |Categories|
      invariant forall j :: 0 <= j < i ==> !Mentions(Categories[j], lower)
    {
      if Mentions(Categories[i], lower) {
        tech := Capitalize(Categories[i].name);
        assert |tech| == |Categories[i].name| < |"Programming"|;
        return;
      }
    }
    tech := "Programming";
  }
}
