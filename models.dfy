/**
 * models/User.js, models/Task.js, models/Challenge.js, models/Achievement.js:
 * the stored documents, and the database that holds them by id.
 */
module Models {
  import opened Common

  type UserId = nat
  type TaskId = nat
  type ChallengeId = nat
  type AchievementId = nat

  /** The progression part of a user document, with the lists the core appends to. */
  datatype User = User(
    name: string,
    techStack: seq<string>,
    learningGoals: seq<string>,
    xp: int,
    streak: nat,
    lastTaskCompletion: Option<int>,
    totalHoursCoded: real,
    achievements: seq<AchievementId>,
    challenges: seq<ChallengeId>,
    coins: int,
    tasksCompleted: nat)

  datatype Status = Pending | Completed

  /** A task; times are minutes, `actualTime` is set on completion. */
  datatype Task = Task(
    name: string,
    description: string,
    difficulty: string,
    estimatedTime: real,
    actualTime: Option<real>,
    status: Status,
    user: UserId,
    completedAt: Option<int>,
    createdAt: int,
    learned: bool)

  /**
   * A daily challenge. `completedAt` is the completion instant the challenge
   * controller writes; see Challenges.StoredAsWritten for the schema that drops it.
   */
  datatype Challenge = Challenge(
    title: string,
    description: string,
    xpBonus: int,
    kind: string,
    completed: bool,
    user: UserId,
    createdAt: int,
    completedAt: Option<int>)

  datatype Achievement = Achievement(
    name: string,
    description: string,
    icon: string,
    criteria: string,
    unlockedAt: int,
    user: UserId)

  /** The socket.io messages the controllers emit, in emission order. */
  datatype Event =
    | TaskCompleted(user: UserId, task: TaskId, milestoneMessage: string)
    | ChallengeCompleted(user: UserId, challenge: ChallengeId, milestoneMessage: string)
    | StatsUpdated(user: UserId)
    | LeaderboardUpdate(user: UserId)
    | AchievementUnlocked(user: UserId, achievement: AchievementId)
    | TaskDeleted(user: UserId, task: TaskId)

  /** The user already holds an achievement record with this criterion. */
  predicate UnlockedIn(achievements: map<AchievementId, Achievement>, uid: UserId, criteria: string)
  {
    exists a :: a in achievements && achievements[a].user == uid && achievements[a].criteria == criteria
  }

  /** Adding a record under a fresh id unlocks its own (user, criterion) pair and no other. */
  lemma UnlockedInAdd(achievements: map<AchievementId, Achievement>, id: AchievementId, rec: Achievement,
                      uid: UserId, criteria: string)
    requires id !in achievements
    ensures UnlockedIn(achievements[id := rec], uid, criteria) <==>
              UnlockedIn(achievements, uid, criteria) || (rec.user == uid && rec.criteria == criteria)
  {
    var m := achievements[id := rec];
    if UnlockedIn(m, uid, criteria) && !(rec.user == uid && rec.criteria == criteria) {
      var a :| a in m && m[a].user == uid && m[a].criteria == criteria;
      assert a != id && a in achievements;
    }
    if rec.user == uid && rec.criteria == criteria {
      assert m[id] == rec;
    }
    if UnlockedIn(achievements, uid, criteria) {
      var a :| a in achievements && achievements[a].user == uid && achievements[a].criteria == criteria;
      assert a in m && m[a] == achievements[a];
    }
  }

  /** At most one record per (user, criterion). */
  predicate OnePerCriterion(achievements: map<AchievementId, Achievement>)
  {
    forall a, b :: a in achievements && b in achievements && a != b ==>
      achievements[a].user != achievements[b].user || achievements[a].criteria != achievements[b].criteria
  }

  /** `Task.countDocuments({user, status: 'completed', completedAt: {$gte: since}}) > 0`. */
  predicate TaskCompletedSince(tasks: map<TaskId, Task>, uid: UserId, since: int)
  {
    exists t :: t in tasks && tasks[t].user == uid && tasks[t].status == Completed
                && tasks[t].completedAt.Some? && tasks[t].completedAt.value >= since
  }

  /** `Challenge.countDocuments({user, completed: true, completedAt: {$gte: since}}) > 0`. */
  predicate ChallengeCompletedSince(challenges: map<ChallengeId, Challenge>, uid: UserId, since: int)
  {
    exists c :: c in challenges && challenges[c].user == uid && challenges[c].completed
                && challenges[c].completedAt.Some? && challenges[c].completedAt.value >= since
  }

  /** A completed task keeps its stored value from `before` to `after`. */
  predicate CompletedTasksKept(before: map<TaskId, Task>, after: map<TaskId, Task>)
  {
    forall t :: t in before && before[t].status == Completed ==> t in after && after[t] == before[t]
  }

  /**
   * The part of the store that unlocking achievements reads and writes: the
   * users, the achievement records, the next fresh id and the emitted events.
   */
  datatype Ledger = Ledger(
    users: map<UserId, User>,
    achievements: map<AchievementId, Achievement>,
    nextId: nat,
    events: seq<Event>)

  /** Every record id has been handed out, and each (user, criterion) has at most one record. */
  predicate LedgerValid(l: Ledger)
  {
    && (forall a :: a in l.achievements ==> a < l.nextId)
    && OnePerCriterion(l.achievements)
  }

  /**
   * The document store: one map per collection, a source of fresh ids
   * (ObjectIds are never reused) and the log of emitted events.
   */
  class Database {
    var users: map<UserId, User>
    var tasks: map<TaskId, Task>
    var challenges: map<ChallengeId, Challenge>
    var achievements: map<AchievementId, Achievement>
    var nextId: nat
    var events: seq<Event>

    function CurrentLedger(): Ledger
      reads this
    {
      Ledger(users, achievements, nextId, events)
    }

    ghost predicate Valid()
      reads this
    {
      && (forall t :: t in tasks ==> t < nextId)
      && (forall c :: c in challenges ==> c < nextId)
      && LedgerValid(CurrentLedger())
    }

    constructor (users: map<UserId, User>)
      ensures Valid()
      ensures this.users == users && tasks == map[] && challenges == map[]
      ensures achievements == map[] && events == []
    {
      this.users := users;
      tasks, challenges, achievements := map[], map[], map[];
      nextId, events := 0, [];
    }
  }
}
