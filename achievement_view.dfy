/**
 * controllers/achievementController.js, `getUserAchievementsAndStats`: the
 * user's statistics and, for each of the eight achievements, whether it is
 * unlocked and how far the user has come.
 */
module AchievementView {
  import opened Common
  import opened Text
  import opened Models
  import opened Achievements

  /** The fixed display strings the view shows for an achievement. */
  datatype Display = Display(criteria: string, name: string, description: string, icon: string)

  const Displays: seq<Display> := [
    Display("first_task", "First Quest", "Completed your first task", "first-badge.jpg"),
    Display("three_tasks", "Task Trifecta", "Completed 3 tasks", "trifecta-badge.jpg"),
    Display("streak_3", "3-Day Sprinter", "Achieved a 3-day streak", "streak-3-badge.jpg"),
    Display("streak_7", "Streak Starter", "Achieved a 7-day streak", "streak-badge.jpg"),
    Display("streak_14", "Streak Master", "Achieved a 14-day streak", "streak-14-badge.jpg"),
    Display("xp_500", "XP Novice", "Earned 500 XP", "xp-badge.jpg"),
    Display("xp_1000", "XP Adept", "Earned 1000 XP", "xp-adept-badge.jpg"),
    Display("hours_10", "Code Marathoner", "Coded for 10 hours", "hours-badge.jpg")
  ]

  /**
   * The progress text: 'Completed', `current/total`, the same with `current`
   * to one decimal (hours), or the empty string for an unknown criterion.
   */
  datatype Progress = Done | Fraction | FixedFraction | Blank

  /** The current value and the target a criterion is measured against. */
  datatype Measured = Measured(current: real, total: int, progress: Progress)

  /**
   * The value of the leading decimal digits of the text after the first '_':
   * the number in 'streak_7' or 'xp_500', which `parseInt` reads.
   */
  function SuffixNumber(criteria: string): nat
    requires '_' in criteria
  {
    SplitHasSecondPart(criteria, '_');
    DigitsValue(Split(criteria, '_')[1])
  }

  /** The if-chain that picks the value and the target for a criterion. */
  function Measure(criteria: string, u: User): (m: Measured)
    ensures m.progress != Done
    ensures m.progress == Blank ==> m.current == 0.0 && m.total == 0
  {
    if criteria == "first_task" then Measured(u.tasksCompleted as real, 1, Fraction)
    else if criteria == "three_tasks" then Measured(u.tasksCompleted as real, 3, Fraction)
    else if Includes(criteria, "streak_") then
      IncludesSeparator(criteria, "streak_");
      Measured(u.streak as real, SuffixNumber(criteria), Fraction)
    else if Includes(criteria, "xp_") then
      IncludesSeparator(criteria, "xp_");
      Measured(u.xp as real, SuffixNumber(criteria), Fraction)
    else if criteria == "hours_10" then Measured(u.totalHoursCoded, 10, FixedFraction)
    else Measured(0.0, 0, Blank)
  }

  /** A pattern ending in '_' that occurs in `s` puts a '_' in `s`. */
  lemma IncludesSeparator(s: string, sub: string)
    requires |sub| > 0 && sub[|sub| - 1] == '_' && Includes(s, sub)
    ensures '_' in s
  {
    var i :| 0 <= i <= |s| - |sub| && OccursAt(s, sub, i);
    assert s[i + |sub| - 1] == s[i..i + |sub|][|sub| - 1];
  }

  /** The first record with the criterion, in the order of `records`. */
  function FindCriteria(records: seq<Achievement>, criteria: string): (k: Option<nat>)
    ensures k.None? <==> forall j :: 0 <= j < |records| ==> records[j].criteria != criteria
    ensures k.Some? ==> k.value < |records| && records[k.value].criteria == criteria &&
                        forall j :: 0 <= j < k.value ==> records[j].criteria != criteria
  {
    if records == [] then None
    else if records[0].criteria == criteria then Some(0)
    else
      match FindCriteria(records[1..], criteria)
      case None => None
      case Some(k) => Some(k + 1)
  }

  /** One element of the view's `achievements` array. */
  datatype ViewEntry = ViewEntry(
    display: Display,
    unlocked: bool,
    unlockedAt: Option<int>,
    progress: Progress,
    current: real,
    total: int)

  function Entry(d: Display, u: User, records: seq<Achievement>): (e: ViewEntry)
    ensures e.display == d
    ensures e.unlocked <==> exists j :: 0 <= j < |records| && records[j].criteria == d.criteria
    ensures e.unlocked <==> e.progress == Done
    ensures e.unlocked <==> e.unlockedAt.Some?
    ensures e.unlockedAt.Some? ==>
              exists j :: 0 <= j < |records| && records[j].criteria == d.criteria &&
                          records[j].unlockedAt == e.unlockedAt.value
  {
    var found := FindCriteria(records, d.criteria);
    var m := Measure(d.criteria, u);
    ViewEntry(d, found.Some?,
              if found.Some? then Some(records[found.value].unlockedAt) else None,
              if found.Some? then Done else m.progress,
              m.current, m.total)
  }

  /** The user's statistics as the view reports them. */
  datatype Stats = Stats(xp: int, streak: nat, coins: int, totalHoursCoded: real, tasksCompleted: nat)

  datatype AchievementsAndStats = AchievementsAndStats(stats: Stats, achievements: seq<ViewEntry>)

  function ProgressView(u: User, records: seq<Achievement>): (v: seq<ViewEntry>)
    ensures |v| == |Displays|
  {
    seq(|Displays|, i requires 0 <= i < |Displays| => Entry(Displays[i], u, records))
  }

  /** The statistic an entry is measured on, as a number. */
  function MetricValue(m: Metric, u: User): real
  {
    match m
    case TasksDone => u.tasksCompleted as real
    case StreakDays => u.streak as real
    case Xp => u.xp as real
    case HoursCoded => u.totalHoursCoded
  }

  /** The check's test is "the statistic reaches the threshold". */
  lemma MeetsIsReaching(d: Definition, u: User)
    ensures Meets(d, u) <==> MetricValue(d.metric, u) >= d.threshold as real
  {
  }

  // ---------------------------------------------------------------------------
  // The view measures each achievement as the check does

  lemma DigitsOfTargets()
    ensures DigitsValue("3") == 3 && DigitsValue("7") == 7 && DigitsValue("14") == 14
    ensures DigitsValue("500") == 500 && DigitsValue("1000") == 1000
  {
    assert DigitsFrom("", 14) == 14;
    assert "14"[1..] == "4" && "4"[1..] == "";
    assert "3"[1..] == "" && "7"[1..] == "";
    assert "500"[1..] == "00" && "00"[1..] == "0" && "0"[1..] == "";
    assert "1000"[1..] == "000" && "000"[1..] == "00";
  }

  /** A criterion `prefix_digits` has `digits` after its first '_'. */
  lemma SuffixAfterPrefix(c: string, prefix: string, digits: string)
    requires c == prefix + "_" + digits && '_' !in prefix && '_' !in digits
    ensures '_' in c && SuffixNumber(c) == DigitsValue(digits)
  {
    var k := |prefix|;
    assert c[k] == '_' && c[..k] == prefix && c[k + 1..] == digits;
    SplitAtFirst(c, '_', k);
    SplitNoSeparator(digits, '_');
  }

  /** 'streak_<n>' is measured on the streak against n. */
  lemma MeasureStreak(c: string, digits: string, u: User)
    requires c == "streak_" + digits && '_' !in digits
    ensures Measure(c, u) == Measured(u.streak as real, DigitsValue(digits), Fraction)
  {
    assert OccursAt(c, "streak_", 0) by { assert c[0..7] == "streak_"; }
    assert c != "first_task" && c != "three_tasks" by { assert c[0] == 's'; }
    assert "streak_" == "streak" + "_";
    SuffixAfterPrefix(c, "streak", digits);
  }

  /** 'xp_<n>' is measured on the XP against n. */
  lemma MeasureXp(c: string, digits: string, u: User)
    requires c == "xp_" + digits && '_' !in digits
    ensures Measure(c, u) == Measured(u.xp as real, DigitsValue(digits), Fraction)
  {
    assert OccursAt(c, "xp_", 0) by { assert c[0..3] == "xp_"; }
    assert c != "first_task" && c != "three_tasks" by { assert c[0] == 'x'; }
    assert !Includes(c, "streak_") by {
      forall i | 0 <= i <= |c| - 7 ensures !OccursAt(c, "streak_", i) {
        // the only '_' of c is at index 2, but "streak_" needs one at i + 6
        assert c[i + 6] == c[3..][i + 3] == digits[i + 3];
        assert c[i..i + 7][6] == c[i + 6];
      }
    }
    assert "xp_" == "xp" + "_";
    SuffixAfterPrefix(c, "xp", digits);
  }

  /** 'hours_10' is measured on the hours coded against 10, to one decimal. */
  lemma MeasureHours(c: string, u: User)
    requires c == "hours_10"
    ensures Measure(c, u) == Measured(u.totalHoursCoded, 10, FixedFraction)
  {
    assert c != "first_task" && c != "three_tasks" by { assert c[0] == 'h'; }
    assert !Includes(c, "streak_") by {
      forall i | 0 <= i <= |c| - 7 ensures !OccursAt(c, "streak_", i) {
        assert c[i] != 's';
        assert c[i..i + 7][0] == c[i];
      }
    }
    assert !Includes(c, "xp_") by {
      forall i | 0 <= i <= |c| - 3 ensures !OccursAt(c, "xp_", i) {
        assert c[i] != 'x';
        assert c[i..i + 3][0] == c[i];
      }
    }
  }

  /**
   * The empty progress text is shown exactly for a criterion the if-chain does
   * not know; any other criterion containing 'streak_' or 'xp_' is measured.
   */
  lemma MeasureBlank(criteria: string, u: User)
    ensures Measure(criteria, u).progress == Blank <==>
              && criteria != "first_task" && criteria != "three_tasks" && criteria != "hours_10"
              && !Includes(criteria, "streak_") && !Includes(criteria, "xp_")
  {
  }

  /** Entry by entry, the view's criterion, target and value are the check's. */
  lemma {:induction false} MeasureMatchesCatalogue(i: nat, u: User)
    requires i < |Catalogue|
    ensures Displays[i].criteria == Catalogue[i].criteria
    ensures Measure(Displays[i].criteria, u) ==
              Measured(MetricValue(Catalogue[i].metric, u), Catalogue[i].threshold,
                       if i == 7 then FixedFraction else Fraction)
  {
    DigitsOfTargets();
    var c := Displays[i].criteria;
    if i == 2 { MeasureStreak(c, "3", u); }
    else if i == 3 { MeasureStreak(c, "7", u); }
    else if i == 4 { MeasureStreak(c, "14", u); }
    else if i == 5 { MeasureXp(c, "500", u); }
    else if i == 6 { MeasureXp(c, "1000", u); }
    else if i == 7 { MeasureHours(c, u); }
  }

  /**
   * The view and the check agree: the view lists the catalogue in its order,
   * shows as target each entry's threshold, and an entry's value reaches its
   * target exactly when the check's test holds. An entry shows 'Completed'
   * exactly when one of the user's records carries its criterion.
   */
  lemma ViewAgreesWithCheck(u: User, records: seq<Achievement>)
    ensures var v := ProgressView(u, records);
            && |v| == |Catalogue|
            && forall i :: 0 <= i < |v| ==>
                 && v[i].display.criteria == Catalogue[i].criteria
                 && v[i].total == Catalogue[i].threshold
                 && v[i].current == MetricValue(Catalogue[i].metric, u)
                 && (v[i].current >= v[i].total as real <==> Meets(Catalogue[i], u))
                 && (v[i].progress == Done <==>
                       exists j :: 0 <= j < |records| && records[j].criteria == Catalogue[i].criteria)
                 && (v[i].progress != Done ==> v[i].progress == (if i == 7 then FixedFraction else Fraction))
  {
    var v := ProgressView(u, records);
    forall i | 0 <= i < |v|
      ensures && v[i].display.criteria == Catalogue[i].criteria
              && v[i].total == Catalogue[i].threshold
              && v[i].current == MetricValue(Catalogue[i].metric, u)
              && (v[i].current >= v[i].total as real <==> Meets(Catalogue[i], u))
              && (v[i].progress == Done <==>
                    exists j :: 0 <= j < |records| && records[j].criteria == Catalogue[i].criteria)
              && (v[i].progress != Done ==> v[i].progress == (if i == 7 then FixedFraction else Fraction))
    {
      assert v[i] == Entry(Displays[i], u, records);
      MeasureMatchesCatalogue(i, u);
      MeetsIsReaching(Catalogue[i], u);
    }
  }

  // ---------------------------------------------------------------------------
  // The handler

  /** `records` holds exactly the user's achievement records. */
  predicate UserRecords(achievements: map<AchievementId, Achievement>, uid: UserId, records: seq<Achievement>)
  {
    && (forall j :: 0 <= j < |records| ==> records[j].user == uid && records[j] in achievements.Values)
    && (forall a :: a in achievements && achievements[a].user == uid ==> achievements[a] in records)
  }

  /** Over exactly the user's records, "some record carries the criterion" is UnlockedIn. */
  lemma FoundIffUnlocked(achievements: map<AchievementId, Achievement>, uid: UserId,
                         records: seq<Achievement>, criteria: string)
    requires UserRecords(achievements, uid, records)
    ensures (exists j :: 0 <= j < |records| && records[j].criteria == criteria) <==>
            UnlockedIn(achievements, uid, criteria)
  {
    if j :| 0 <= j < |records| && records[j].criteria == criteria {
      var a :| a in achievements && achievements[a] == records[j];
      assert achievements[a].user == uid && achievements[a].criteria == criteria;
    }
    if UnlockedIn(achievements, uid, criteria) {
      var a :| a in achievements && achievements[a].user == uid && achievements[a].criteria == criteria;
      var j :| 0 <= j < |records| && records[j] == achievements[a];
    }
  }

  /**
   * `getUserAchievementsAndStats`: 404 for a missing user; otherwise the
   * user's statistics and the eight entries in catalogue order. Each entry is
   * unlocked exactly when the user holds a record with its criterion, and then
   * shows 'Completed' and that record's `unlockedAt`; otherwise it shows the
   * `current/total` form (one decimal for hours) and no time. `current` is the
   * statistic and `total` the threshold the check compares.
   */
  method GetUserAchievementsAndStats(db: Database, uid: UserId) returns (r: Result<AchievementsAndStats>)
    ensures uid !in db.users <==> r == Err(NotFound("User not found"))
    ensures r.Ok? ==>
      var u := db.users[uid];
      var v := r.value.achievements;
      && r.value.stats == Stats(u.xp, u.streak, u.coins, u.totalHoursCoded, u.tasksCompleted)
      && |v| == |Catalogue|
      && forall i :: 0 <= i < |v| ==>
           && v[i].display == Displays[i]
           && (v[i].unlocked <==> UnlockedIn(db.achievements, uid, Catalogue[i].criteria))
           && (v[i].unlocked <==> v[i].progress == Done)
           && v[i].total == Catalogue[i].threshold
           && v[i].current == MetricValue(Catalogue[i].metric, u)
           && (v[i].current >= v[i].total as real <==> Meets(Catalogue[i], u))
           && (!v[i].unlocked ==> v[i].progress == (if i == 7 then FixedFraction else Fraction))
           && (!v[i].unlocked <==> v[i].unlockedAt.None?)
           && (v[i].unlocked ==>
                 exists a :: a in db.achievements && db.achievements[a].user == uid &&
                             db.achievements[a].criteria == Catalogue[i].criteria &&
                             db.achievements[a].unlockedAt == v[i].unlockedAt.value)
  {
    if uid !in db.users {
      return Err(NotFound("User not found"));
    }
    var user := db.users[uid];
    var records: seq<Achievement> := [];
    var keys := db.achievements.Keys;
    while keys != {}
      invariant keys <= db.achievements.Keys
      invariant forall j :: 0 <= j < |records| ==> records[j].user == uid && records[j] in db.achievements.Values
      invariant forall a :: a in db.achievements && a !in keys && db.achievements[a].user == uid ==>
                  db.achievements[a] in records
      decreases |keys|
    {
      var a :| a in keys;
      if db.achievements[a].user == uid {
        records := records + [db.achievements[a]];
      }
      keys := keys - {a};
    }
    var view := ProgressView(user, records);
    ViewAgreesWithCheck(user, records);
    forall i | 0 <= i < |view|
      ensures view[i].display == Displays[i]
      ensures view[i].unlocked <==> UnlockedIn(db.achievements, uid, Catalogue[i].criteria)
      ensures view[i].unlocked ==>
                exists a :: a in db.achievements && db.achievements[a].user == uid &&
                            db.achievements[a].criteria == Catalogue[i].criteria &&
                            db.achievements[a].unlockedAt == view[i].unlockedAt.value
    {
      assert view[i] == Entry(Displays[i], user, records);
      FoundIffUnlocked(db.achievements, uid, records, Catalogue[i].criteria);
      if view[i].unlocked {
        var j :| 0 <= j < |records| && records[j].criteria == Displays[i].criteria &&
                 records[j].unlockedAt == view[i].unlockedAt.value;
        var a :| a in db.achievements && db.achievements[a] == records[j];
      }
    }
    var stats := Stats(user.xp, user.streak, user.coins, user.totalHoursCoded, user.tasksCompleted);
    r := Ok(AchievementsAndStats(stats, view));
  }
}
