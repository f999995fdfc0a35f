/**
 * controllers/achievementController.js: the fixed catalogue of achievements,
 * unlocking each one at most once per user, and the progress view.
 */
module Achievements {
  import opened Common
  import opened Text
  import opened Models

  /** The user statistic a catalogue entry is measured on. */
  datatype Metric = TasksDone | StreakDays | Xp | HoursCoded

  /** One catalogue entry: the criterion tag and the threshold its check compares against. */
  datatype Definition = Definition(criteria: string, metric: Metric, threshold: nat)

  /** The eight checks of `checkAndUnlockAchievements`, in the order they run. */
  const Catalogue: seq<Definition> := [
    Definition("first_task", TasksDone, 1),
    Definition("three_tasks", TasksDone, 3),
    Definition("streak_3", StreakDays, 3),
    Definition("streak_7", StreakDays, 7),
    Definition("streak_14", StreakDays, 14),
    Definition("xp_500", Xp, 500),
    Definition("xp_1000", Xp, 1000),
    Definition("hours_10", HoursCoded, 10)
  ]

  /** The entry's check holds of the user's current statistics. */
  predicate Meets(d: Definition, u: User)
  {
    match d.metric
    case TasksDone => u.tasksCompleted >= d.threshold
    case StreakDays => u.streak >= d.threshold
    case Xp => u.xp >= d.threshold
    case HoursCoded => u.totalHoursCoded >= d.threshold as real
  }

  /** The thresholds of the catalogue, criterion by criterion. */
  lemma CatalogueThresholds(u: User)
    ensures |Catalogue| == 8
    ensures Meets(Catalogue[0], u) <==> u.tasksCompleted >= 1
    ensures Meets(Catalogue[1], u) <==> u.tasksCompleted >= 3
    ensures Meets(Catalogue[2], u) <==> u.streak >= 3
    ensures Meets(Catalogue[3], u) <==> u.streak >= 7
    ensures Meets(Catalogue[4], u) <==> u.streak >= 14
    ensures Meets(Catalogue[5], u) <==> u.xp >= 500
    ensures Meets(Catalogue[6], u) <==> u.xp >= 1000
    ensures Meets(Catalogue[7], u) <==> u.totalHoursCoded >= 10.0
  {
  }

  /** No two catalogue entries share a criterion. */
  lemma CatalogueCriteriaDistinct()
    ensures forall i, j :: 0 <= i < j < |Catalogue| ==> Catalogue[i].criteria != Catalogue[j].criteria
  {
    forall i, j | 0 <= i < j < |Catalogue|
      ensures Catalogue[i].criteria != Catalogue[j].criteria
    {
      var a, b := Catalogue[i].criteria, Catalogue[j].criteria;
      assert |a| != |b| || a[0] != b[0] || a[|a| - 1] != b[|b| - 1];
    }
  }

  // ---------------------------------------------------------------------------
  // Display strings derived from the criterion when an achievement is unlocked

  function CapitalizeAll(words: seq<string>): (r: seq<string>)
    ensures |r| == |words|
  {
    if words == [] then [] else [Capitalize(words[0])] + CapitalizeAll(words[1..])
  }

  /** `criteria.split('_').map(capitalize).join(' ')`. */
  function AchievementName(criteria: string): string
  {
    Join(CapitalizeAll(Split(criteria, '_')), ' ')
  }

  /**
   * Title case read character by character: every '_' becomes a space and a
   * letter is upper-cased when it starts a word (`atStart`).
   */
  function TitleCase(s: string, atStart: bool): (r: string)
    ensures |r| == |s|
  {
    if s == [] then []
    else if s[0] == '_' then [' '] + TitleCase(s[1..], true)
    else [if atStart then Upper(s[0]) else s[0]] + TitleCase(s[1..], false)
  }

  lemma JoinCons(a: string, rest: seq<string>, sep: char)
    ensures Join([a] + rest, sep) == a + (if rest == [] then [] else [sep] + Join(rest, sep))
  {
    if rest != [] {
      assert ([a] + rest)[1..] == rest;
    }
  }

  /** Prefixing a character to the first word prefixes it to the joined string. */
  lemma JoinConsChar(c: char, a: string, rest: seq<string>, sep: char)
    ensures Join([[c] + a] + rest, sep) == [c] + Join([a] + rest, sep)
  {
    JoinCons([c] + a, rest, sep);
    JoinCons(a, rest, sep);
  }

  /**
   * The split-capitalise-join name agrees with TitleCase; the second clause is
   * the same statement for a first word that is not capitalised.
   */
  lemma {:induction false} SplitJoinIsTitleCase(s: string)
    ensures Join(CapitalizeAll(Split(s, '_')), ' ') == TitleCase(s, true)
    ensures var parts := Split(s, '_');
            Join([parts[0]] + CapitalizeAll(parts[1..]), ' ') == TitleCase(s, false)
  {
    if s != [] {
      SplitJoinIsTitleCase(s[1..]);
      if s[0] == '_' {
        SeparatorStep(s);
      } else {
        LetterStep(s);
      }
    }
  }

  /** Inductive step of SplitJoinIsTitleCase when `s` starts with '_'. */
  lemma SeparatorStep(s: string)
    requires s != [] && s[0] == '_'
    requires Join(CapitalizeAll(Split(s[1..], '_')), ' ') == TitleCase(s[1..], true)
    ensures Join(CapitalizeAll(Split(s, '_')), ' ') == TitleCase(s, true)
    ensures var parts := Split(s, '_');
            Join([parts[0]] + CapitalizeAll(parts[1..]), ' ') == TitleCase(s, false)
  {
    var rest := Split(s[1..], '_');
    var parts := Split(s, '_');
    assert parts == [[]] + rest;
    assert parts[1..] == rest;
    assert CapitalizeAll(parts) == [[]] + CapitalizeAll(rest);
    JoinCons([], CapitalizeAll(rest), ' ');
  }

  /** Inductive step of SplitJoinIsTitleCase when `s` starts with another character. */
  lemma LetterStep(s: string)
    requires s != [] && s[0] != '_'
    requires var rest := Split(s[1..], '_');
             Join([rest[0]] + CapitalizeAll(rest[1..]), ' ') == TitleCase(s[1..], false)
    ensures Join(CapitalizeAll(Split(s, '_')), ' ') == TitleCase(s, true)
    ensures var parts := Split(s, '_');
            Join([parts[0]] + CapitalizeAll(parts[1..]), ' ') == TitleCase(s, false)
  {
    var rest := Split(s[1..], '_');
    var tail := CapitalizeAll(rest[1..]);
    var parts := Split(s, '_');
    assert parts == [[s[0]] + rest[0]] + rest[1..];
    assert parts[1..] == rest[1..];
    assert CapitalizeAll(parts) == [[Upper(s[0])] + rest[0]] + tail;
    JoinConsChar(Upper(s[0]), rest[0], tail, ' ');
    JoinConsChar(s[0], rest[0], tail, ' ');
  }

  /** The unlocked name turns underscores into spaces and capitalises every word. */
  lemma NameIsTitleCase(criteria: string)
    ensures AchievementName(criteria) == TitleCase(criteria, true)
    ensures |AchievementName(criteria)| == |criteria|
  {
    SplitJoinIsTitleCase(criteria);
  }

  /** The `achievementData` passed to `unlockAchievement`. */
  datatype UnlockData = UnlockData(criteria: string, name: string, description: string, icon: string)

  /** Name, description and icon derived from a criterion. */
  function DataFor(criteria: string): (d: UnlockData)
    ensures d.criteria == criteria
    ensures d.name == TitleCase(criteria, true)
    ensures |d.description| == 9 + |criteria| && d.description[..9] == "Achieved "
    ensures d.icon == criteria + "-badge.jpg"
  {
    NameIsTitleCase(criteria);
    UnlockData(criteria, AchievementName(criteria),
               "Achieved " + ReplaceFirst(criteria, '_', ' '), criteria + "-badge.jpg")
  }

  /**
   * The description is 'Achieved ' and the criterion with its first '_', and
   * only that one, turned into a space.
   */
  lemma DescriptionReplacesFirst(criteria: string)
    ensures '_' !in criteria ==> DataFor(criteria).description == "Achieved " + criteria
    ensures '_' in criteria ==>
              var k := IndexOf(criteria, '_');
              DataFor(criteria).description == "Achieved " + criteria[..k] + " " + criteria[k + 1..]
  {
    var d := DataFor(criteria);
    assert d.description == "Achieved " + ReplaceFirst(criteria, '_', ' ');
    if '_' in criteria {
      ReplaceFirstOnlyFirst(criteria, '_', ' ');
      var k := IndexOf(criteria, '_');
      assert "Achieved " + (criteria[..k] + [' '] + criteria[k + 1..]) == "Achieved " + criteria[..k] + " " + criteria[k + 1..];
    }
  }

  /** A worked example: 'xp_500' unlocks under the name 'Xp 500'. */
  lemma Xp500Name()
    ensures TitleCase("xp_500", true) == "Xp 500"
  {
    assert TitleCase("0", false) == "0" by { assert "0"[1..] == []; }
    assert TitleCase("00", false) == "00" by { assert "00"[1..] == "0"; }
    assert TitleCase("500", true) == "500" by { assert "500"[1..] == "00"; }
    assert TitleCase("_500", false) == " 500" by { assert "_500"[1..] == "500"; }
    assert TitleCase("p_500", false) == "p 500" by { assert "p_500"[1..] == "_500"; }
    assert "xp_500"[1..] == "p_500";
    assert Upper('x') == 'X';
  }

  /** ... with the description 'Achieved xp 500': only the first '_' becomes a space. */
  lemma Xp500Description()
    ensures ReplaceFirst("xp_500", '_', ' ') == "xp 500"
  {
    assert "xp_500"[0] == 'x' && "xp_500"[1..] == "p_500";
    assert "p_500"[0] == 'p' && "p_500"[1..] == "_500";
    assert "_500"[0] == '_' && "_500"[1..] == "500";
    calc {
      ReplaceFirst("xp_500", '_', ' ');
      ['x'] + ReplaceFirst("p_500", '_', ' ');
      ['x'] + (['p'] + ReplaceFirst("_500", '_', ' '));
      ['x'] + (['p'] + ([' '] + "500"));
    }
  }

  /** The stored record: the data plus the owner and `unlockedAt` (defaults to now). */
  function Record(data: UnlockData, uid: UserId, now: int): (a: Achievement)
    ensures a.user == uid && a.criteria == data.criteria && a.unlockedAt == now
  {
    Achievement(data.name, data.description, data.icon, data.criteria, now, uid)
  }

  // ---------------------------------------------------------------------------
  // Unlocking

  /** The user document differs at most in ids appended to its `achievements` list. */
  predicate GrewAchievements(before: User, after: User)
  {
    && after == before.(achievements := after.achievements)
    && before.achievements <= after.achievements
  }

  /** The users are the same documents, each one at most grown by appended achievement ids. */
  predicate UsersGrew(before: map<UserId, User>, after: map<UserId, User>)
  {
    && after.Keys == before.Keys
    && forall v :: v in before ==> GrewAchievements(before[v], after[v])
  }

  /** Every record of `before` is still there, unchanged, in `after`. */
  predicate RecordsKept(before: map<AchievementId, Achievement>, after: map<AchievementId, Achievement>)
  {
    forall a :: a in before ==> a in after && after[a] == before[a]
  }

  /**
   * `t` is `l` after a new unlock: the record under the next id, that id
   * appended to the user's `achievements` list and 'achievementUnlocked' then
   * 'statsUpdated' emitted; for a missing user the users are untouched and
   * only 'achievementUnlocked' is emitted.
   */
  predicate NewUnlock(l: Ledger, t: Ledger, uid: UserId, data: UnlockData, now: int)
  {
    && t.achievements == l.achievements[l.nextId := Record(data, uid, now)]
    && t.nextId == l.nextId + 1
    && (uid in l.users ==>
          && t.users == l.users[uid := l.users[uid].(achievements := l.users[uid].achievements + [l.nextId])]
          && t.events == l.events + [AchievementUnlocked(uid, l.nextId), StatsUpdated(uid)])
    && (uid !in l.users ==>
          t.users == l.users && t.events == l.events + [AchievementUnlocked(uid, l.nextId)])
  }

  /**
   * What `unlockAchievement` does to the ledger. An existing record for the
   * (user, criterion) pair leaves everything as it was. Otherwise the record is
   * created under the next id, the id is appended to the user's list and
   * 'achievementUnlocked' is emitted; 'statsUpdated' follows only when the user
   * exists, since reading the missing user's statistics throws first.
   */
  function UnlockStore(l: Ledger, uid: UserId, data: UnlockData, now: int): (t: Ledger)
    requires LedgerValid(l)
    ensures UnlockedIn(t.achievements, uid, data.criteria)
    ensures UnlockedIn(l.achievements, uid, data.criteria) ==> t == l
    ensures RecordsKept(l.achievements, t.achievements)
    ensures UsersGrew(l.users, t.users)
    ensures LedgerValid(t)
    ensures l.nextId <= t.nextId
    ensures l.events <= t.events
  {
    if UnlockedIn(l.achievements, uid, data.criteria) then l
    else
      var id := l.nextId;
      var rec := Record(data, uid, now);
      UnlockedInAdd(l.achievements, id, rec, uid, data.criteria);
      var users :=
        if uid in l.users then l.users[uid := l.users[uid].(achievements := l.users[uid].achievements + [id])]
        else l.users;
      var events :=
        if uid in l.users then l.events + [AchievementUnlocked(uid, id), StatsUpdated(uid)]
        else l.events + [AchievementUnlocked(uid, id)];
      Ledger(users, l.achievements[id := rec], id + 1, events)
  }

  /**
   * An unlock changes the status of no other (user, criterion) pair, and the
   * only record it adds is the derived record of the data.
   */
  lemma UnlockStoreOthers(l: Ledger, uid: UserId, data: UnlockData, now: int)
    requires LedgerValid(l)
    ensures var t := UnlockStore(l, uid, data, now);
            && (forall v, c :: v != uid || c != data.criteria ==>
                  (UnlockedIn(t.achievements, v, c) <==> UnlockedIn(l.achievements, v, c)))
            && forall a :: a in t.achievements && a !in l.achievements ==> t.achievements[a] == Record(data, uid, now)
  {
    if !UnlockedIn(l.achievements, uid, data.criteria) {
      var rec := Record(data, uid, now);
      forall v, c | v != uid || c != data.criteria
        ensures UnlockedIn(l.achievements[l.nextId := rec], v, c) <==> UnlockedIn(l.achievements, v, c)
      {
        UnlockedInAdd(l.achievements, l.nextId, rec, v, c);
      }
    }
  }

  /**
   * A new unlock creates its record under the next id, appends that id to the
   * user's `achievements` list and emits its events; other users are untouched.
   */
  lemma UnlockStoreAppends(l: Ledger, uid: UserId, data: UnlockData, now: int)
    requires LedgerValid(l) && !UnlockedIn(l.achievements, uid, data.criteria)
    ensures NewUnlock(l, UnlockStore(l, uid, data, now), uid, data, now)
  {
  }

  /**
   * `unlockAchievement`: the ledger becomes UnlockStore of the old one. The
   * result is the existing record, the new one, or none when the user is missing
   * (the caught error yields null).
   */
  method UnlockAchievement(db: Database, uid: UserId, data: UnlockData, now: int)
    returns (r: Option<AchievementId>)
    requires db.Valid()
    modifies db
    ensures db.Valid()
    ensures db.tasks == old(db.tasks) && db.challenges == old(db.challenges)
    ensures db.CurrentLedger() == UnlockStore(old(db.CurrentLedger()), uid, data, now)
    ensures old(UnlockedIn(db.achievements, uid, data.criteria)) ==>
      && r.Some? && r.value in db.achievements
      && db.achievements[r.value].user == uid && db.achievements[r.value].criteria == data.criteria
    ensures !old(UnlockedIn(db.achievements, uid, data.criteria)) ==>
      r == (if uid in old(db.users) then Some(old(db.nextId)) else None)
  {
    if existing :| existing in db.achievements && db.achievements[existing].user == uid
                   && db.achievements[existing].criteria == data.criteria {
      return Some(existing);
    }
    ghost var before := db.CurrentLedger();
    var id := db.nextId;
    db.nextId := db.nextId + 1;
    var achievement := Record(data, uid, now);
    db.achievements := db.achievements[id := achievement];
    if uid in db.users {
      var user := db.users[uid];
      user := user.(achievements := user.achievements + [id]);
      db.users := db.users[uid := user];
    }
    db.events := db.events + [AchievementUnlocked(uid, id)];
    if uid !in db.users {
      assert db.CurrentLedger() == UnlockStore(before, uid, data, now);
      return None;
    }
    db.events := db.events + [StatsUpdated(uid)];
    r := Some(id);
    assert db.CurrentLedger() == UnlockStore(before, uid, data, now);
  }

  /**
   * One round of the loop of `checkAndUnlockAchievements`: entry `i` is
   * unlocked when it is not among `found`, the user's records as read before
   * the loop, and the user, as read before the loop, meets it.
   */
  function Step(l: Ledger, found: map<AchievementId, Achievement>, uid: UserId, user: User,
                now: int, i: nat): (t: Ledger)
    requires i < |Catalogue| && LedgerValid(l)
    ensures LedgerValid(t)
    ensures !UnlockedIn(found, uid, Catalogue[i].criteria) && Meets(Catalogue[i], user) ==>
              t == UnlockStore(l, uid, DataFor(Catalogue[i].criteria), now)
    ensures UnlockedIn(found, uid, Catalogue[i].criteria) || !Meets(Catalogue[i], user) ==> t == l
  {
    var definition := Catalogue[i];
    if !UnlockedIn(found, uid, definition.criteria) && Meets(definition, user)
    then UnlockStore(l, uid, DataFor(definition.criteria), now)
    else l
  }

  /** The loop from entry `i` on. */
  function CheckFrom(l: Ledger, found: map<AchievementId, Achievement>, uid: UserId, user: User,
                     now: int, i: nat): (t: Ledger)
    requires i <= |Catalogue| && LedgerValid(l)
    ensures RecordsKept(l.achievements, t.achievements)
    ensures UsersGrew(l.users, t.users)
    ensures LedgerValid(t)
    ensures l.nextId <= t.nextId
    ensures l.events <= t.events
    decreases |Catalogue| - i
  {
    if i == |Catalogue| then l
    else CheckFrom(Step(l, found, uid, user, now, i), found, uid, user, now, i + 1)
  }

  /** `checkAndUnlockAchievements(uid)` as a function of the ledger; a missing user changes nothing. */
  function Check(l: Ledger, uid: UserId, now: int): (t: Ledger)
    requires LedgerValid(l)
    ensures uid !in l.users ==> t == l
    ensures RecordsKept(l.achievements, t.achievements)
    ensures UsersGrew(l.users, t.users)
    ensures LedgerValid(t)
    ensures l.nextId <= t.nextId
    ensures l.events <= t.events
  {
    if uid !in l.users then l
    else CheckFrom(l, l.achievements, uid, l.users[uid], now, 0)
  }

  /**
   * `checkAndUnlockAchievements`: the ledger becomes Check of the old one.
   * Check's properties are the lemmas below.
   */
  method CheckAndUnlockAchievements(db: Database, uid: UserId, now: int)
    requires db.Valid()
    modifies db
    ensures db.Valid()
    ensures db.tasks == old(db.tasks) && db.challenges == old(db.challenges)
    ensures db.CurrentLedger() == Check(old(db.CurrentLedger()), uid, now)
  {
    if uid !in db.users {
      return;
    }
    var user := db.users[uid];
    var achievements := db.achievements;
    CheckAll(db, uid, user, achievements, now, 0);
  }

  /**
   * The loop over the catalogue from entry `start`, against the user and the
   * records read before it.
   */
  method CheckAll(db: Database, uid: UserId, user: User, found: map<AchievementId, Achievement>, now: int,
                  start: nat)
    requires db.Valid() && start <= |Catalogue|
    modifies db
    ensures db.Valid()
    ensures db.tasks == old(db.tasks) && db.challenges == old(db.challenges)
    ensures db.CurrentLedger() == CheckFrom(old(db.CurrentLedger()), found, uid, user, now, start)
  {
    ghost var target := CheckFrom(db.CurrentLedger(), found, uid, user, now, start);
    for i := start to |Catalogue|
      invariant db.Valid()
      invariant db.tasks == old(db.tasks) && db.challenges == old(db.challenges)
      invariant CheckFrom(db.CurrentLedger(), found, uid, user, now, i) == target
    {
      CheckEntry(db, uid, user, found, now, i);
    }
  }

  /**
   * One round of the loop: entry `i` is unlocked when it is not in `found` and
   * `user` meets it, which is Step, so the rest of the loop is left to do.
   */
  method CheckEntry(db: Database, uid: UserId, user: User, found: map<AchievementId, Achievement>, now: int, i: nat)
    requires db.Valid() && i < |Catalogue|
    modifies db
    ensures db.Valid()
    ensures db.tasks == old(db.tasks) && db.challenges == old(db.challenges)
    ensures CheckFrom(db.CurrentLedger(), found, uid, user, now, i + 1) ==
              CheckFrom(old(db.CurrentLedger()), found, uid, user, now, i)
  {
    ghost var before := db.CurrentLedger();
    var definition := Catalogue[i];
    var alreadyUnlocked := UnlockedIn(found, uid, definition.criteria);
    if !alreadyUnlocked && Meets(definition, user) {
      var data := DataFor(definition.criteria);
      var _ := UnlockAchievement(db, uid, data, now);
    }
    assert db.CurrentLedger() == Step(before, found, uid, user, now, i);
    CheckFromUnfold(before, found, uid, user, now, i);
  }


  // ---------------------------------------------------------------------------
  // What the check guarantees

  /** One round changes the status of entry `i` only, and only by unlocking it. */
  lemma StepUnlocks(l: Ledger, found: map<AchievementId, Achievement>, uid: UserId, user: User, now: int, i: nat)
    requires i < |Catalogue| && LedgerValid(l)
    ensures var t := Step(l, found, uid, user, now, i);
            && (UnlockedIn(t.achievements, uid, Catalogue[i].criteria) <==>
                  UnlockedIn(l.achievements, uid, Catalogue[i].criteria) ||
                  (!UnlockedIn(found, uid, Catalogue[i].criteria) && Meets(Catalogue[i], user)))
            && forall j :: 0 <= j < |Catalogue| && j != i ==>
                 (UnlockedIn(t.achievements, uid, Catalogue[j].criteria) <==> UnlockedIn(l.achievements, uid, Catalogue[j].criteria))
  {
    CatalogueCriteriaDistinct();
  }

  /** The check's outcome entry by entry, from entry `i` on, given the records unlocked so far. */
  lemma {:induction false} CheckFromUnlocks(l: Ledger, found: map<AchievementId, Achievement>, uid: UserId,
                                            user: User, now: int, i: nat)
    requires i <= |Catalogue| && LedgerValid(l)
    requires forall j :: i <= j < |Catalogue| ==>
               (UnlockedIn(l.achievements, uid, Catalogue[j].criteria) <==> UnlockedIn(found, uid, Catalogue[j].criteria))
    ensures var t := CheckFrom(l, found, uid, user, now, i);
            forall j :: 0 <= j < |Catalogue| ==>
              (UnlockedIn(t.achievements, uid, Catalogue[j].criteria) <==>
                 if j < i then UnlockedIn(l.achievements, uid, Catalogue[j].criteria)
                 else UnlockedIn(found, uid, Catalogue[j].criteria) || Meets(Catalogue[j], user))
    decreases |Catalogue| - i
  {
    if i < |Catalogue| {
      var next := Step(l, found, uid, user, now, i);
      var t := CheckFrom(l, found, uid, user, now, i);
      StepUnlocks(l, found, uid, user, now, i);
      CheckFromUnlocks(next, found, uid, user, now, i + 1);
      assert t == CheckFrom(next, found, uid, user, now, i + 1);
      forall j | 0 <= j < |Catalogue|
        ensures UnlockedIn(t.achievements, uid, Catalogue[j].criteria) <==>
                  if j < i then UnlockedIn(l.achievements, uid, Catalogue[j].criteria)
                  else UnlockedIn(found, uid, Catalogue[j].criteria) || Meets(Catalogue[j], user)
      {
        var c := Catalogue[j].criteria;
        assert UnlockedIn(t.achievements, uid, c) <==>
                 if j < i + 1 then UnlockedIn(next.achievements, uid, c)
                 else UnlockedIn(found, uid, c) || Meets(Catalogue[j], user);
      }
    }
  }

  /** Every record the loop creates from entry `i` on is the derived record of an entry the user meets. */
  lemma {:induction false} CheckFromNewRecords(l: Ledger, found: map<AchievementId, Achievement>, uid: UserId,
                                               user: User, now: int, i: nat)
    requires i <= |Catalogue| && LedgerValid(l)
    ensures var t := CheckFrom(l, found, uid, user, now, i);
            forall a :: a in t.achievements && a !in l.achievements ==>
              exists j :: i <= j < |Catalogue| && Meets(Catalogue[j], user) &&
                          t.achievements[a] == Record(DataFor(Catalogue[j].criteria), uid, now)
    decreases |Catalogue| - i
  {
    if i < |Catalogue| {
      var next := Step(l, found, uid, user, now, i);
      CheckFromNewRecords(next, found, uid, user, now, i + 1);
      var t := CheckFrom(l, found, uid, user, now, i);
      assert t == CheckFrom(next, found, uid, user, now, i + 1);
      forall a | a in t.achievements && a !in l.achievements
        ensures exists j :: i <= j < |Catalogue| && Meets(Catalogue[j], user) &&
                            t.achievements[a] == Record(DataFor(Catalogue[j].criteria), uid, now)
      {
        if a !in next.achievements {
          var j :| i + 1 <= j < |Catalogue| && Meets(Catalogue[j], user) &&
                   t.achievements[a] == Record(DataFor(Catalogue[j].criteria), uid, now);
        } else {
          assert next != l;
          assert t.achievements[a] == next.achievements[a];
          assert Meets(Catalogue[i], user);
        }
      }
    }
  }

  /**
   * For a user that exists, a catalogue criterion is unlocked after the check
   * exactly when it was before or the user meets it, and every new record is
   * the derived record of a criterion the user meets.
   */
  lemma CheckUnlocksExactly(l: Ledger, uid: UserId, now: int)
    requires uid in l.users && LedgerValid(l)
    ensures var t := Check(l, uid, now);
            forall i :: 0 <= i < |Catalogue| ==>
              (UnlockedIn(t.achievements, uid, Catalogue[i].criteria) <==>
                 UnlockedIn(l.achievements, uid, Catalogue[i].criteria) || Meets(Catalogue[i], l.users[uid]))
    ensures var t := Check(l, uid, now);
            forall a :: a in t.achievements && a !in l.achievements ==>
              exists i :: 0 <= i < |Catalogue| && Meets(Catalogue[i], l.users[uid]) &&
                          t.achievements[a] == Record(DataFor(Catalogue[i].criteria), uid, now)
  {
    CheckFromUnlocks(l, l.achievements, uid, l.users[uid], now, 0);
    CheckFromNewRecords(l, l.achievements, uid, l.users[uid], now, 0);
  }

  /** Every catalogue criterion the user meets is already unlocked in `achievements`. */
  predicate AllMetUnlocked(achievements: map<AchievementId, Achievement>, uid: UserId, u: User)
  {
    forall i :: 0 <= i < |Catalogue| && Meets(Catalogue[i], u) ==> UnlockedIn(achievements, uid, Catalogue[i].criteria)
  }

  /** With everything met already unlocked, the loop changes nothing. */
  lemma {:induction false} NothingLeftToUnlock(l: Ledger, found: map<AchievementId, Achievement>, uid: UserId,
                                               user: User, now: int, i: nat)
    requires i <= |Catalogue| && LedgerValid(l) && AllMetUnlocked(found, uid, user)
    ensures CheckFrom(l, found, uid, user, now, i) == l
    decreases |Catalogue| - i
  {
    if i < |Catalogue| {
      NothingLeftToUnlock(l, found, uid, user, now, i + 1);
    }
  }

  /**
   * Running the check again, at any later time, creates nothing and emits
   * nothing: the user's statistics are unchanged by the first run and every
   * criterion they meet is unlocked.
   */
  lemma CheckIdempotent(l: Ledger, uid: UserId, now1: int, now2: int)
    requires LedgerValid(l)
    ensures var t := Check(l, uid, now1); Check(t, uid, now2) == t
  {
    var t := Check(l, uid, now1);
    if uid in l.users {
      var u := l.users[uid];
      assert uid in t.users;
      var u' := t.users[uid];
      assert GrewAchievements(u, u');
      CheckUnlocksExactly(l, uid, now1);
      forall i | 0 <= i < |Catalogue| && Meets(Catalogue[i], u')
        ensures UnlockedIn(t.achievements, uid, Catalogue[i].criteria)
      {
        assert Meets(Catalogue[i], u);
      }
      NothingLeftToUnlock(t, t.achievements, uid, u', now2, 0);
    }
  }

  // ---------------------------------------------------------------------------
  // What the check appends

  /** The catalogue entries from `i` on that the loop unlocks, in catalogue order. */
  function ToUnlock(found: map<AchievementId, Achievement>, uid: UserId, user: User, i: nat): (p: seq<nat>)
    requires i <= |Catalogue|
    ensures forall k :: 0 <= k < |p| ==> i <= p[k] < |Catalogue|
    ensures forall k :: 0 <= k < |p| ==>
              !UnlockedIn(found, uid, Catalogue[p[k]].criteria) && Meets(Catalogue[p[k]], user)
    ensures forall k, m :: 0 <= k < m < |p| ==> p[k] < p[m]
    decreases |Catalogue| - i
  {
    if i == |Catalogue| then []
    else if !UnlockedIn(found, uid, Catalogue[i].criteria) && Meets(Catalogue[i], user)
    then [i] + ToUnlock(found, uid, user, i + 1)
    else ToUnlock(found, uid, user, i + 1)
  }

  /** The consecutive ids `start`, `start + 1`, ..., `start + n - 1`. */
  function Ids(start: nat, n: nat): (r: seq<AchievementId>)
    ensures |r| == n && forall k :: 0 <= k < n ==> r[k] == start + k
  {
    seq(n, k => start + k)
  }

  /** The criteria of the catalogue entries `p`, in the same order. */
  function CriteriaOf(p: seq<nat>): (cs: seq<string>)
    requires forall k :: 0 <= k < |p| ==> p[k] < |Catalogue|
    ensures |cs| == |p| && forall k :: 0 <= k < |p| ==> cs[k] == Catalogue[p[k]].criteria
  {
    seq(|p|, k requires 0 <= k < |p| => Catalogue[p[k]].criteria)
  }

  /** The records unlocking the criteria `cs` creates, in the same order. */
  function NewRecords(cs: seq<string>, uid: UserId, now: int): (r: seq<Achievement>)
    ensures |r| == |cs|
    ensures forall k :: 0 <= k < |cs| ==> r[k] == Record(DataFor(cs[k]), uid, now)
  {
    if cs == [] then [] else [Record(DataFor(cs[0]), uid, now)] + NewRecords(cs[1..], uid, now)
  }

  /** Each id in `ids` is a key of `records` holding the matching element of `recs`. */
  predicate StoredUnder(records: map<AchievementId, Achievement>, ids: seq<AchievementId>, recs: seq<Achievement>)
    requires |ids| == |recs|
  {
    forall k :: 0 <= k < |ids| ==> ids[k] in records && records[ids[k]] == recs[k]
  }

  /**
   * `t` is `l` after unlocking the criteria `cs` for a user that exists: one
   * record per criterion under consecutive ids, those ids appended to the
   * user's list in the same order, and each unlock's events in the same order.
   */
  predicate AppendedFor(l: Ledger, t: Ledger, uid: UserId, cs: seq<string>, now: int)
    requires uid in l.users
  {
    && t.nextId == l.nextId + |cs|
    && t.users == l.users[uid := l.users[uid].(achievements := l.users[uid].achievements + Ids(l.nextId, |cs|))]
    && t.events == l.events + UnlockEvents(uid, l.nextId, |cs|)
    && StoredUnder(t.achievements, Ids(l.nextId, |cs|), NewRecords(cs, uid, now))
  }

  /** The events of `n` unlocks, with consecutive ids from `start`, for a user that exists. */
  function UnlockEvents(uid: UserId, start: nat, n: nat): (r: seq<Event>)
    ensures |r| == 2 * n
    decreases n
  {
    if n == 0 then [] else [AchievementUnlocked(uid, start), StatsUpdated(uid)] + UnlockEvents(uid, start + 1, n - 1)
  }

  /** Unlocking the criteria `cs` one after the other. */
  function Unlocks(l: Ledger, uid: UserId, cs: seq<string>, now: int): (t: Ledger)
    requires LedgerValid(l)
    ensures LedgerValid(t)
    ensures RecordsKept(l.achievements, t.achievements)
    decreases |cs|
  {
    if cs == [] then l
    else Unlocks(UnlockStore(l, uid, DataFor(cs[0]), now), uid, cs[1..], now)
  }

  /** The loop from entry `i` on unlocks exactly the criteria of the entries ToUnlock picks, in order. */
  lemma {:induction false} CheckFromIsUnlocks(l: Ledger, found: map<AchievementId, Achievement>, uid: UserId,
                                              user: User, now: int, i: nat)
    requires i <= |Catalogue| && LedgerValid(l)
    ensures CheckFrom(l, found, uid, user, now, i) == Unlocks(l, uid, CriteriaOf(ToUnlock(found, uid, user, i)), now)
    decreases |Catalogue| - i
  {
    if i < |Catalogue| {
      var next := Step(l, found, uid, user, now, i);
      var rest := ToUnlock(found, uid, user, i + 1);
      CheckFromIsUnlocks(next, found, uid, user, now, i + 1);
      CheckFromUnfold(l, found, uid, user, now, i);
      if !UnlockedIn(found, uid, Catalogue[i].criteria) && Meets(Catalogue[i], user) {
        CriteriaOfCons(i, rest);
        UnlocksCons(l, uid, Catalogue[i].criteria, CriteriaOf(rest), now);
      }
    }
  }

  /** The criteria of `[i] + rest` are entry `i`'s criterion, then those of `rest`. */
  lemma CriteriaOfCons(i: nat, rest: seq<nat>)
    requires i < |Catalogue| && forall k :: 0 <= k < |rest| ==> rest[k] < |Catalogue|
    ensures CriteriaOf([i] + rest) == [Catalogue[i].criteria] + CriteriaOf(rest)
  {
  }

  /** Unlocking `[c] + cs` is unlocking `c`, then `cs`. */
  lemma UnlocksCons(l: Ledger, uid: UserId, c: string, cs: seq<string>, now: int)
    requires LedgerValid(l)
    ensures Unlocks(l, uid, [c] + cs, now) == Unlocks(UnlockStore(l, uid, DataFor(c), now), uid, cs, now)
  {
    assert ([c] + cs)[1..] == cs;
  }

  /** The criteria ToUnlock picks are distinct and none is unlocked in `found`. */
  lemma ToUnlockFresh(found: map<AchievementId, Achievement>, uid: UserId, user: User)
    ensures FreshCriteria(found, uid, CriteriaOf(ToUnlock(found, uid, user, 0)))
  {
    CatalogueCriteriaDistinct();
  }

  /** The loop from entry `i` is round `i` followed by the loop from `i + 1`. */
  lemma CheckFromUnfold(l: Ledger, found: map<AchievementId, Achievement>, uid: UserId, user: User,
                        now: int, i: nat)
    requires i < |Catalogue| && LedgerValid(l)
    ensures CheckFrom(l, found, uid, user, now, i) ==
              CheckFrom(Step(l, found, uid, user, now, i), found, uid, user, now, i + 1)
  {
  }

  /** `cs` holds no criterion twice and none the user has unlocked in `records`. */
  predicate FreshCriteria(records: map<AchievementId, Achievement>, uid: UserId, cs: seq<string>)
  {
    && (forall k, m :: 0 <= k < m < |cs| ==> cs[k] != cs[m])
    && (forall k :: 0 <= k < |cs| ==> !UnlockedIn(records, uid, cs[k]))
  }

  /**
   * Unlocking distinct criteria, none of them unlocked yet, for a user that
   * exists: one record each under consecutive ids, those ids appended to the
   * user's list in the same order, and each unlock's events in order.
   */
  lemma {:induction false} UnlocksAppend(l: Ledger, uid: UserId, cs: seq<string>, now: int)
    requires LedgerValid(l) && uid in l.users && FreshCriteria(l.achievements, uid, cs)
    ensures AppendedFor(l, Unlocks(l, uid, cs, now), uid, cs, now)
    decreases |cs|
  {
    if cs == [] {
      assert l.users[uid].achievements + Ids(l.nextId, 0) == l.users[uid].achievements;
    } else {
      var next := UnlockStore(l, uid, DataFor(cs[0]), now);
      UnlockStoreAppends(l, uid, DataFor(cs[0]), now);
      RestStillFresh(l, next, uid, cs, now);
      UnlocksAppend(next, uid, cs[1..], now);
      UnlockFirst(l, next, Unlocks(l, uid, cs, now), uid, cs, now);
    }
  }

  /** After unlocking the first criterion, the others are still fresh. */
  lemma RestStillFresh(l: Ledger, next: Ledger, uid: UserId, cs: seq<string>, now: int)
    requires |cs| > 0 && FreshCriteria(l.achievements, uid, cs) && l.nextId !in l.achievements
    requires next.achievements == l.achievements[l.nextId := Record(DataFor(cs[0]), uid, now)]
    ensures FreshCriteria(next.achievements, uid, cs[1..])
  {
    var rec := Record(DataFor(cs[0]), uid, now);
    forall k | 0 <= k < |cs| - 1
      ensures !UnlockedIn(next.achievements, uid, cs[1..][k])
    {
      assert cs[1..][k] == cs[k + 1] != cs[0];
      UnlockedInAdd(l.achievements, l.nextId, rec, uid, cs[k + 1]);
    }
    forall k, m | 0 <= k < m < |cs| - 1
      ensures cs[1..][k] != cs[1..][m]
    {
      assert cs[1..][k] == cs[k + 1] && cs[1..][m] == cs[m + 1];
    }
  }

  /** The step case of UnlocksAppend: the first criterion's id, events and record come first. */
  lemma UnlockFirst(l: Ledger, next: Ledger, t: Ledger, uid: UserId, cs: seq<string>, now: int)
    requires uid in l.users && |cs| > 0
    requires NewUnlock(l, next, uid, DataFor(cs[0]), now)
    requires RecordsKept(next.achievements, t.achievements)
    requires uid in next.users && AppendedFor(next, t, uid, cs[1..], now)
    ensures AppendedFor(l, t, uid, cs, now)
  {
    AppendOne(l, next, t, uid, |cs| - 1, |cs|);
    RecordsStep(t.achievements, l.nextId, next.nextId, cs, uid, now);
  }

  /** The records under consecutive ids from `base`: the first one, then those from `base + 1`. */
  lemma ShiftRecords(base: nat, records: map<AchievementId, Achievement>, first: Achievement, rest: seq<Achievement>)
    requires base in records && records[base] == first
    requires StoredUnder(records, Ids(base + 1, |rest|), rest)
    ensures StoredUnder(records, Ids(base, |rest| + 1), [first] + rest)
  {
    var p, ids, ids' := [first] + rest, Ids(base, |rest| + 1), Ids(base + 1, |rest|);
    forall k | 0 <= k < |p|
      ensures ids[k] in records && records[ids[k]] == p[k]
    {
      if k > 0 {
        assert p[k] == rest[k - 1] && ids[k] == ids'[k - 1];
      }
    }
  }

  /** The step case of UnlocksAppend: the first criterion's id and events come first. */
  lemma AppendOne(l: Ledger, next: Ledger, t: Ledger, uid: UserId, n: nat, m: nat)
    requires uid in l.users && m == n + 1
    requires next.users == l.users[uid := l.users[uid].(achievements := l.users[uid].achievements + [l.nextId])]
    requires next.events == l.events + [AchievementUnlocked(uid, l.nextId), StatsUpdated(uid)]
    requires next.nextId == l.nextId + 1
    requires t.users == next.users[uid := next.users[uid].(achievements := next.users[uid].achievements + Ids(next.nextId, n))]
    requires t.events == next.events + UnlockEvents(uid, next.nextId, n)
    ensures t.users == l.users[uid := l.users[uid].(achievements := l.users[uid].achievements + Ids(l.nextId, m))]
    ensures t.events == l.events + UnlockEvents(uid, l.nextId, m)
  {
    var u := l.users[uid];
    assert [l.nextId] + Ids(next.nextId, n) == Ids(l.nextId, m);
    assert u.achievements + [l.nextId] + Ids(next.nextId, n) == u.achievements + Ids(l.nextId, m);
    assert l.events + [AchievementUnlocked(uid, l.nextId), StatsUpdated(uid)] + UnlockEvents(uid, next.nextId, n)
        == l.events + UnlockEvents(uid, l.nextId, m);
  }

  /** ... and its record comes first, under the first of the new ids. */
  lemma RecordsStep(records: map<AchievementId, Achievement>, base: nat, second: nat, cs: seq<string>,
                    uid: UserId, now: int)
    requires second == base + 1 && |cs| > 0
    requires base in records && records[base] == Record(DataFor(cs[0]), uid, now)
    requires StoredUnder(records, Ids(second, |cs| - 1), NewRecords(cs[1..], uid, now))
    ensures StoredUnder(records, Ids(base, |cs|), NewRecords(cs, uid, now))
  {
    var rec := Record(DataFor(cs[0]), uid, now);
    assert NewRecords(cs, uid, now) == [rec] + NewRecords(cs[1..], uid, now);
    ShiftRecords(base, records, rec, NewRecords(cs[1..], uid, now));
  }

  /**
   * `checkAndUnlockAchievements` for a user that exists: the user's list grows
   * by exactly the ids of the new records, one per catalogue entry met and not
   * yet unlocked, in catalogue order, and each unlock emits
   * 'achievementUnlocked' followed by 'statsUpdated'.
   */
  lemma CheckAppendsIds(l: Ledger, uid: UserId, now: int)
    requires uid in l.users && LedgerValid(l)
    ensures AppendedFor(l, Check(l, uid, now), uid, CriteriaOf(ToUnlock(l.achievements, uid, l.users[uid], 0)), now)
  {
    var p := ToUnlock(l.achievements, uid, l.users[uid], 0);
    var cs := CriteriaOf(p);
    CheckFromIsUnlocks(l, l.achievements, uid, l.users[uid], now, 0);
    ToUnlockFresh(l.achievements, uid, l.users[uid]);
    UnlocksAppend(l, uid, cs, now);
  }
}
