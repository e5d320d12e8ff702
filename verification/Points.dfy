/**
 The stored points of levels and grades. A level is worth the total points of its lessons a learner can reach, and its
 quiz points while it has an active quiz row; a grade is worth its levels that are on and not deleted. Many operations
 recompute them, each only what it thinks it changed.
 */
module Points {
  import opened Values
  import opened Sums
  import ImportSlots

  type Id = ImportSlots.Id

  datatype Lesson = Lesson(level: Id, total: int, on: bool, deleted: bool)

  datatype Level = Level(grade: Id, points: int, quizPoints: int, on: bool, deleted: bool)

  datatype QuizRow = QuizRow(level: Id, on: bool)

  /** The rows: lessons, levels, level-quiz rows, and the points of the grades. */
  datatype State = State(lessons: map<Id, Lesson>, levels: map<Id, Level>, grades: map<Id, int>,
                         quizRows: map<Id, QuizRow>)

  const DEFAULT_TOTAL := 100
  const DEFAULT_QUIZ_POINTS := 10
  const RESET_QUIZ_POINTS := 100

  // ---- the defining sums -------------------------------------------------------------------------

  predicate Reached(s: State, l: Id, level: Id) {
    l in s.lessons && s.lessons[l].level == level && !s.lessons[l].deleted && s.lessons[l].on
  }

  ghost function LessonPoints(s: State, level: Id): map<Id, int> {
    map l | l in s.lessons && Reached(s, l, level) :: s.lessons[l].total
  }

  ghost predicate HasQuiz(s: State, level: Id) {
    exists q :: q in s.quizRows && s.quizRows[q].level == level && s.quizRows[q].on
  }

  ghost function LevelSum(s: State, level: Id): int
    requires level in s.levels
  {
    SumOf(LessonPoints(s, level)) + if HasQuiz(s, level) then s.levels[level].quizPoints else 0
  }

  predicate Counts(s: State, l: Id, grade: Id) {
    l in s.levels && s.levels[l].grade == grade && s.levels[l].on && !s.levels[l].deleted
  }

  ghost function LevelPointsOf(s: State, grade: Id): map<Id, int> {
    map l | l in s.levels && Counts(s, l, grade) :: s.levels[l].points
  }

  ghost function GradeSum(s: State, grade: Id): int {
    SumOf(LevelPointsOf(s, grade))
  }

  /** Every cache but the named ones is its defining sum. */
  ghost predicate CachedExcept(s: State, stale: set<Id>, staleGrades: set<Id>) {
    (forall l :: l in s.levels && l !in stale ==> s.levels[l].points == LevelSum(s, l)) &&
    (forall g :: g in s.grades && g !in staleGrades ==> s.grades[g] == GradeSum(s, g))
  }

  ghost predicate Cached(s: State) {
    CachedExcept(s, {}, {})
  }

  // ---- the operations ----------------------------------------------------------------------------

  datatype Operation =
    | CreateGrade(grade: Id)
    | CreateLevel(level: Id, grade: Id, quizPoints: int)
    | UpdateLevel(level: Id, grade: Id, quiz: Option<int>)
    | DeleteLevel(level: Id)
    | SwitchLevel(level: Id, on: bool)
    | ResetQuizPoints(levels: seq<Id>)
    | CreateLesson(lesson: Id, level: Id, total: int)
    | UpdateLesson(lesson: Id, level: Id, points: Option<int>)
    | DeleteLesson(lesson: Id)
    | SwitchLesson(lesson: Id, on: bool)
    | ResetLessons(lessons: seq<Id>)
    | ChangeItems(lesson: Id)
    | CreateQuizRow(row: Id, level: Id)
    | SwitchQuizRow(row: Id, on: bool)
    | DeleteQuizRow(row: Id)

  ghost function UpdateGradePoints(s: State, grade: Id): State {
    if grade in s.grades then s.(grades := s.grades[grade := GradeSum(s, grade)]) else s
  }

  /** `updateLevelPoints`: the level's own points, then its grade's. */
  ghost function UpdateLevelPoints(s: State, level: Id): State {
    if level in s.levels then
      UpdateGradePoints(s.(levels := s.levels[level := s.levels[level].(points := LevelSum(s, level))]),
                        s.levels[level].grade)
    else s
  }

  function LevelLives(s: State, level: Id): bool {
    level in s.levels && !s.levels[level].deleted
  }

  function LessonLives(s: State, lesson: Id): bool {
    lesson in s.lessons && !s.lessons[lesson].deleted
  }

  function WithLevel(s: State, level: Id, l: Level): State {
    s.(levels := s.levels[level := l])
  }

  function WithLesson(s: State, lesson: Id, l: Lesson): State {
    s.(lessons := s.lessons[lesson := l])
  }

  ghost function ResetQuizPointsOf(s: State, levels: seq<Id>): State
    decreases |levels|
  {
    if levels == [] then s
    else if levels[0] !in s.levels then ResetQuizPointsOf(s, levels[1..])
    else
      var l := s.levels[levels[0]].(quizPoints := RESET_QUIZ_POINTS);
      ResetQuizPointsOf(UpdateLevelPoints(WithLevel(s, levels[0], l), levels[0]), levels[1..])
  }

  ghost function ResetLessonsOf(s: State, lessons: seq<Id>): State
    decreases |lessons|
  {
    if lessons == [] then s
    else if !LessonLives(s, lessons[0]) then ResetLessonsOf(s, lessons[1..])
    else
      var l := s.lessons[lessons[0]];
      ResetLessonsOf(UpdateLevelPoints(WithLesson(s, lessons[0], l.(total := DEFAULT_TOTAL)), l.level), lessons[1..])
  }

  /** One operation, after all its writes. What is not there, or deleted, or would hang from nothing, is left alone. */
  ghost function After(s: State, op: Operation): State {
    match op
    case CreateGrade(g) => if g in s.grades then s else s.(grades := s.grades[g := 0])
    case CreateLevel(id, grade, quizPoints) =>
      if id in s.levels || grade !in s.grades then s
      else UpdateLevelPoints(WithLevel(s, id, Level(grade, 0, quizPoints, true, false)), id)
    case UpdateLevel(id, grade, quiz) =>
      if !LevelLives(s, id) || grade !in s.grades then s
      else
        var previous := s.levels[id].grade;
        var quizPoints := if quiz.Some? then quiz.value else DEFAULT_QUIZ_POINTS;
        var moved := UpdateLevelPoints(WithLevel(s, id, s.levels[id].(grade := grade, quizPoints := quizPoints)), id);
        if previous != grade then UpdateGradePoints(moved, previous) else moved
    case DeleteLevel(id) =>
      if !LevelLives(s, id) then s else UpdateLevelPoints(WithLevel(s, id, s.levels[id].(deleted := true)), id)
    case SwitchLevel(id, on) =>
      if !LevelLives(s, id) then s else UpdateGradePoints(WithLevel(s, id, s.levels[id].(on := on)), s.levels[id].grade)
    case ResetQuizPoints(levels) => ResetQuizPointsOf(s, levels)
    case CreateLesson(id, level, total) =>
      if id in s.lessons || level !in s.levels then s
      else UpdateLevelPoints(WithLesson(s, id, Lesson(level, total, true, false)), level)
    case UpdateLesson(id, level, points) =>
      if !LessonLives(s, id) || level !in s.levels then s
      else
        var previous := s.lessons[id].level;
        var total := if points.Some? then points.value else DEFAULT_TOTAL;
        var moved := UpdateLevelPoints(WithLesson(s, id, s.lessons[id].(level := level, total := total)), level);
        if previous != level then UpdateLevelPoints(moved, previous) else moved
    case DeleteLesson(id) =>
      if !LessonLives(s, id) then s
      else UpdateLevelPoints(WithLesson(s, id, s.lessons[id].(deleted := true)), s.lessons[id].level)
    case SwitchLesson(id, on) =>
      if !LessonLives(s, id) then s
      else UpdateLevelPoints(WithLesson(s, id, s.lessons[id].(on := on)), s.lessons[id].level)
    case ResetLessons(lessons) => ResetLessonsOf(s, lessons)
    case ChangeItems(lesson) => if !LessonLives(s, lesson) then s else UpdateLevelPoints(s, s.lessons[lesson].level)
    case CreateQuizRow(id, level) =>
      if id in s.quizRows || level !in s.levels then s
      else UpdateLevelPoints(s.(quizRows := s.quizRows[id := QuizRow(level, true)]), level)
    case SwitchQuizRow(id, on) =>
      if id !in s.quizRows then s
      else UpdateLevelPoints(s.(quizRows := s.quizRows[id := s.quizRows[id].(on := on)]), s.quizRows[id].level)
    case DeleteQuizRow(id) =>
      if id !in s.quizRows then s else UpdateLevelPoints(s.(quizRows := s.quizRows - {id}), s.quizRows[id].level)
  }

  ghost function Run(s: State, ops: seq<Operation>): State
    decreases |ops|
  {
    if ops == [] then s else Run(After(s, ops[0]), ops[1..])
  }

  // ---- what a write makes stale, and what a recompute repairs --------------------------------------

  /** A grade's sum depends on the levels that count towards it, and their points. */
  lemma SameGradeSum(s: State, s': State, g: Id)
    requires forall l :: Counts(s, l, g) <==> Counts(s', l, g)
    requires forall l :: Counts(s, l, g) && Counts(s', l, g) ==> s.levels[l].points == s'.levels[l].points
    ensures GradeSum(s, g) == GradeSum(s', g)
  {
    assert LevelPointsOf(s, g) == LevelPointsOf(s', g);
  }

  lemma SameLevelSum(s: State, s': State, level: Id)
    requires level in s.levels && level in s'.levels && s.levels[level].quizPoints == s'.levels[level].quizPoints
    requires forall l :: Reached(s, l, level) <==> Reached(s', l, level)
    requires forall l :: Reached(s, l, level) && Reached(s', l, level) ==> s.lessons[l].total == s'.lessons[l].total
    requires HasQuiz(s, level) <==> HasQuiz(s', level)
    ensures LevelSum(s, level) == LevelSum(s', level)
  {
    assert LessonPoints(s, level) == LessonPoints(s', level);
  }

  lemma GradeRepaired(s: State, grade: Id, stale: set<Id>, staleGrades: set<Id>)
    requires CachedExcept(s, stale, staleGrades)
    ensures CachedExcept(UpdateGradePoints(s, grade), stale, staleGrades - {grade})
  {
    var s' := UpdateGradePoints(s, grade);
    forall l | l in s.levels ensures LevelSum(s', l) == LevelSum(s, l) {
      SameLevelSum(s, s', l);
    }
    forall g ensures GradeSum(s', g) == GradeSum(s, g) {
      SameGradeSum(s, s', g);
    }
  }

  lemma LevelRepaired(s: State, level: Id, stale: set<Id>, staleGrades: set<Id>)
    requires CachedExcept(s, stale, staleGrades)
    ensures CachedExcept(UpdateLevelPoints(s, level), stale - {level},
                         if level in s.levels then staleGrades - {s.levels[level].grade} else staleGrades)
  {
    if level in s.levels {
      var grade := s.levels[level].grade;
      var s' := s.(levels := s.levels[level := s.levels[level].(points := LevelSum(s, level))]);
      forall l | l in s.levels ensures LevelSum(s', l) == LevelSum(s, l) {
        SameLevelSum(s, s', l);
      }
      forall g | g != grade ensures GradeSum(s', g) == GradeSum(s, g) {
        SameGradeSum(s, s', g);
      }
      assert CachedExcept(s', stale - {level}, staleGrades + {grade});
      GradeRepaired(s', grade, stale - {level}, staleGrades + {grade});
      assert staleGrades + {grade} - {grade} == staleGrades - {grade};
    }
  }

  /** A lesson's row matters to the level it leaves and the one it comes to. */
  lemma LessonWritten(s: State, lesson: Id, l: Lesson, stale: set<Id>)
    requires Cached(s) && l.level in stale && (lesson in s.lessons ==> s.lessons[lesson].level in stale)
    ensures CachedExcept(WithLesson(s, lesson, l), stale, {})
  {
    var s' := WithLesson(s, lesson, l);
    forall level | level in s.levels && level !in stale ensures LevelSum(s', level) == LevelSum(s, level) {
      SameLevelSum(s, s', level);
    }
    forall g ensures GradeSum(s', g) == GradeSum(s, g) {
      SameGradeSum(s, s', g);
    }
  }

  /** A level's row matters to itself, and to the grade it leaves and the one it comes to. */
  lemma LevelWritten(s: State, level: Id, l: Level, staleGrades: set<Id>)
    requires Cached(s) && l.grade in staleGrades && (level in s.levels ==> s.levels[level].grade in staleGrades)
    ensures CachedExcept(WithLevel(s, level, l), {level}, staleGrades)
  {
    var s' := WithLevel(s, level, l);
    forall other | other in s.levels && other != level ensures LevelSum(s', other) == LevelSum(s, other) {
      SameLevelSum(s, s', other);
    }
    forall g | g !in staleGrades ensures GradeSum(s', g) == GradeSum(s, g) {
      SameGradeSum(s, s', g);
    }
  }

  lemma QuizRowsWritten(s: State, rows: map<Id, QuizRow>, level: Id)
    requires Cached(s)
    requires forall other :: other != level ==> (HasQuiz(s, other) <==> HasQuiz(s.(quizRows := rows), other))
    ensures CachedExcept(s.(quizRows := rows), {level}, {})
  {
    var s' := s.(quizRows := rows);
    forall other | other in s.levels && other != level ensures LevelSum(s', other) == LevelSum(s, other) {
      SameLevelSum(s, s', other);
    }
    forall g ensures GradeSum(s', g) == GradeSum(s, g) {
      SameGradeSum(s, s', g);
    }
  }

  /** A row of another level's quiz says nothing about this one's. */
  lemma QuizRowPut(s: State, id: Id, row: QuizRow, other: Id)
    requires other != row.level && (id in s.quizRows ==> s.quizRows[id].level != other)
    ensures HasQuiz(s, other) <==> HasQuiz(s.(quizRows := s.quizRows[id := row]), other)
  {
    var s' := s.(quizRows := s.quizRows[id := row]);
    if q :| q in s.quizRows && s.quizRows[q].level == other && s.quizRows[q].on {
      assert q in s'.quizRows && s'.quizRows[q] == s.quizRows[q];
    }
  }

  lemma QuizRowTaken(s: State, id: Id, other: Id)
    requires id in s.quizRows && s.quizRows[id].level != other
    ensures HasQuiz(s, other) <==> HasQuiz(s.(quizRows := s.quizRows - {id}), other)
  {
    var s' := s.(quizRows := s.quizRows - {id});
    if q :| q in s.quizRows && s.quizRows[q].level == other && s.quizRows[q].on {
      assert q in s'.quizRows && s'.quizRows[q] == s.quizRows[q];
    }
  }

  // ---- every operation keeps every cache ---------------------------------------------------------

  lemma LevelRowKeepsCached(s: State, level: Id, l: Level, staleGrades: set<Id>)
    requires Cached(s) && staleGrades == {l.grade} && (level in s.levels ==> s.levels[level].grade == l.grade)
    ensures Cached(UpdateLevelPoints(WithLevel(s, level, l), level))
  {
    LevelWritten(s, level, l, staleGrades);
    LevelRepaired(WithLevel(s, level, l), level, {level}, staleGrades);
    assert {level} - {level} == {} && staleGrades - {l.grade} == {};
  }

  lemma LessonRowKeepsCached(s: State, lesson: Id, l: Lesson)
    requires Cached(s) && (lesson in s.lessons ==> s.lessons[lesson].level == l.level)
    ensures Cached(UpdateLevelPoints(WithLesson(s, lesson, l), l.level))
  {
    var s' := WithLesson(s, lesson, l);
    LessonWritten(s, lesson, l, {l.level});
    LevelRepaired(s', l.level, {l.level}, {});
    assert {l.level} - {l.level} == {};
    if l.level in s'.levels { assert {} - {s'.levels[l.level].grade} == {}; }
  }

  lemma LevelUpdateKeepsCached(s: State, id: Id, grade: Id, quiz: Option<int>)
    requires Cached(s)
    ensures Cached(After(s, UpdateLevel(id, grade, quiz)))
  {
    if LevelLives(s, id) && grade in s.grades {
      var previous := s.levels[id].grade;
      var l := s.levels[id].(grade := grade, quizPoints := if quiz.Some? then quiz.value else DEFAULT_QUIZ_POINTS);
      var stale := {previous, grade};
      LevelWritten(s, id, l, stale);
      LevelRepaired(WithLevel(s, id, l), id, {id}, stale);
      var moved := UpdateLevelPoints(WithLevel(s, id, l), id);
      assert {id} - {id} == {};
      GradeRepaired(moved, previous, {}, stale - {grade});
      assert stale - {grade} - {previous} == {} && (previous == grade ==> stale - {grade} == {});
    }
  }

  lemma LessonUpdateKeepsCached(s: State, id: Id, level: Id, points: Option<int>)
    requires Cached(s)
    ensures Cached(After(s, UpdateLesson(id, level, points)))
  {
    if LessonLives(s, id) && level in s.levels {
      var previous := s.lessons[id].level;
      var l := s.lessons[id].(level := level, total := if points.Some? then points.value else DEFAULT_TOTAL);
      LessonWritten(s, id, l, {previous, level});
      LevelRepaired(WithLesson(s, id, l), level, {previous, level}, {});
      var moved := UpdateLevelPoints(WithLesson(s, id, l), level);
      assert CachedExcept(moved, {previous, level} - {level}, {}) by { NoGradeStale(); }
      LevelRepaired(moved, previous, {previous, level} - {level}, {});
      NoGradeStale();
      assert {previous, level} - {level} - {previous} == {} &&
             (previous == level ==> {previous, level} - {level} == {});
    }
  }

  lemma NoGradeStale()
    ensures forall g: Id :: {} - {g} == {}
  {
  }

  lemma SwitchKeepsCached(s: State, id: Id, on: bool)
    requires Cached(s) && LevelLives(s, id)
    ensures Cached(After(s, SwitchLevel(id, on)))
  {
    var l := s.levels[id].(on := on);
    var s' := WithLevel(s, id, l);
    LevelWritten(s, id, l, {l.grade});
    SameLevelSum(s, s', id);
    assert CachedExcept(s', {}, {l.grade});
    GradeRepaired(s', l.grade, {}, {l.grade});
    assert {l.grade} - {l.grade} == {};
  }

  lemma QuizRowKeepsCached(s: State, rows: map<Id, QuizRow>, level: Id)
    requires CachedExcept(s.(quizRows := rows), {level}, {})
    ensures Cached(UpdateLevelPoints(s.(quizRows := rows), level))
  {
    LevelRepaired(s.(quizRows := rows), level, {level}, {});
    NoGradeStale();
    assert {level} - {level} == {};
  }

  lemma {:induction false} ResetQuizPointsKeepsCached(s: State, levels: seq<Id>)
    requires Cached(s)
    ensures Cached(ResetQuizPointsOf(s, levels))
    decreases |levels|
  {
    if levels != [] {
      if levels[0] in s.levels {
        var l := s.levels[levels[0]].(quizPoints := RESET_QUIZ_POINTS);
        LevelRowKeepsCached(s, levels[0], l, {l.grade});
        ResetQuizPointsKeepsCached(UpdateLevelPoints(WithLevel(s, levels[0], l), levels[0]), levels[1..]);
      } else {
        ResetQuizPointsKeepsCached(s, levels[1..]);
      }
    }
  }

  lemma {:induction false} ResetLessonsKeepsCached(s: State, lessons: seq<Id>)
    requires Cached(s)
    ensures Cached(ResetLessonsOf(s, lessons))
    decreases |lessons|
  {
    if lessons != [] {
      if LessonLives(s, lessons[0]) {
        var l := s.lessons[lessons[0]].(total := DEFAULT_TOTAL);
        LessonRowKeepsCached(s, lessons[0], l);
        ResetLessonsKeepsCached(UpdateLevelPoints(WithLesson(s, lessons[0], l), l.level), lessons[1..]);
      } else {
        ResetLessonsKeepsCached(s, lessons[1..]);
      }
    }
  }

  /** Every level hangs from a grade that is there: the foreign key. */
  ghost predicate GradesAreThere(s: State) {
    forall l :: l in s.levels ==> s.levels[l].grade in s.grades
  }

  lemma UpdateKeepsGrades(s: State, level: Id)
    ensures UpdateLevelPoints(s, level).grades.Keys == s.grades.Keys &&
            UpdateLevelPoints(s, level).levels.Keys == s.levels.Keys
    ensures forall l :: l in s.levels ==> UpdateLevelPoints(s, level).levels[l].grade == s.levels[l].grade
  {
  }

  lemma {:induction false} ResetsKeepGrades(s: State, list: seq<Id>)
    requires GradesAreThere(s)
    ensures GradesAreThere(ResetQuizPointsOf(s, list)) && GradesAreThere(ResetLessonsOf(s, list))
    decreases |list|
  {
    hide UpdateLevelPoints;
    if list != [] {
      if list[0] in s.levels {
        var s' := WithLevel(s, list[0], s.levels[list[0]].(quizPoints := RESET_QUIZ_POINTS));
        UpdateKeepsGrades(s', list[0]);
        ResetsKeepGrades(UpdateLevelPoints(s', list[0]), list[1..]);
      } else {
        ResetsKeepGrades(s, list[1..]);
      }
      if LessonLives(s, list[0]) {
        var l := s.lessons[list[0]];
        var s' := WithLesson(s, list[0], l.(total := DEFAULT_TOTAL));
        UpdateKeepsGrades(s', l.level);
        ResetsKeepGrades(UpdateLevelPoints(s', l.level), list[1..]);
      } else {
        ResetsKeepGrades(s, list[1..]);
      }
    }
  }

  /** A recompute writes points alone. */
  lemma UpdatesWritePoints()
    ensures forall s, level :: SameGrades(s, UpdateLevelPoints(s, level))
    ensures forall s, grade :: SameGrades(s, UpdateGradePoints(s, grade))
  {
    hide LevelSum, GradeSum;
  }

  ghost predicate SameGrades(s: State, s': State) {
    s'.grades.Keys == s.grades.Keys && s'.levels.Keys == s.levels.Keys &&
    forall l :: l in s.levels ==> s'.levels[l].grade == s.levels[l].grade
  }

  lemma OperationKeepsGrades(s: State, op: Operation)
    requires GradesAreThere(s)
    ensures GradesAreThere(After(s, op))
  {
    hide UpdateLevelPoints, UpdateGradePoints, ResetQuizPointsOf, ResetLessonsOf;
    UpdatesWritePoints();
    match op
    case ResetQuizPoints(list) => ResetsKeepGrades(s, list);
    case ResetLessons(list) => ResetsKeepGrades(s, list);
    case _ =>
  }

  lemma UnusedGradeIsZero(s: State, g: Id)
    requires GradesAreThere(s) && g !in s.grades
    ensures GradeSum(s, g) == 0
  {
    assert LevelPointsOf(s, g) == map[];
  }

  lemma NewGradeIsZero(s: State, g: Id)
    requires Cached(s) && GradesAreThere(s) && g !in s.grades
    ensures Cached(s.(grades := s.grades[g := 0]))
  {
    hide LevelSum, GradeSum;
    var s' := s.(grades := s.grades[g := 0]);
    UnusedGradeIsZero(s, g);
    forall l | l in s.levels ensures LevelSum(s', l) == LevelSum(s, l) {
      SameLevelSum(s, s', l);
    }
    forall other ensures GradeSum(s', other) == GradeSum(s, other) {
      SameGradeSum(s, s', other);
    }
  }

  lemma QuizOperationKeepsCached(s: State, op: Operation)
    requires Cached(s) && (op.CreateQuizRow? || op.SwitchQuizRow? || op.DeleteQuizRow?)
    ensures Cached(After(s, op))
  {
    hide UpdateLevelPoints, CachedExcept, HasQuiz;
    match op
    case CreateQuizRow(id, level) =>
      if id !in s.quizRows && level in s.levels {
        var rows := s.quizRows[id := QuizRow(level, true)];
        forall other | other != level ensures HasQuiz(s, other) <==> HasQuiz(s.(quizRows := rows), other) {
          QuizRowPut(s, id, QuizRow(level, true), other);
        }
        QuizRowsWritten(s, rows, level);
        QuizRowKeepsCached(s, rows, level);
      }
    case SwitchQuizRow(id, on) =>
      if id in s.quizRows {
        var row := s.quizRows[id].(on := on);
        forall other | other != row.level
          ensures HasQuiz(s, other) <==> HasQuiz(s.(quizRows := s.quizRows[id := row]), other)
        {
          QuizRowPut(s, id, row, other);
        }
        QuizRowsWritten(s, s.quizRows[id := row], row.level);
        QuizRowKeepsCached(s, s.quizRows[id := row], row.level);
      }
    case DeleteQuizRow(id) =>
      if id in s.quizRows {
        var level := s.quizRows[id].level;
        forall other | other != level ensures HasQuiz(s, other) <==> HasQuiz(s.(quizRows := s.quizRows - {id}), other) {
          QuizRowTaken(s, id, other);
        }
        QuizRowsWritten(s, s.quizRows - {id}, level);
        QuizRowKeepsCached(s, s.quizRows - {id}, level);
      }
  }

  lemma OperationKeepsCached(s: State, op: Operation)
    requires Cached(s) && GradesAreThere(s)
    ensures Cached(After(s, op))
  {
    hide UpdateLevelPoints, UpdateGradePoints, CachedExcept, GradesAreThere;
    match op
    case CreateGrade(g) => if g !in s.grades { NewGradeIsZero(s, g); }
    case CreateLevel(id, grade, quizPoints) =>
      if id !in s.levels { LevelRowKeepsCached(s, id, Level(grade, 0, quizPoints, true, false), {grade}); }
    case UpdateLevel(id, grade, quiz) => LevelUpdateKeepsCached(s, id, grade, quiz);
    case DeleteLevel(id) =>
      if LevelLives(s, id) { LevelRowKeepsCached(s, id, s.levels[id].(deleted := true), {s.levels[id].grade}); }
    case SwitchLevel(id, on) => if LevelLives(s, id) { SwitchKeepsCached(s, id, on); }
    case ResetQuizPoints(levels) => ResetQuizPointsKeepsCached(s, levels);
    case CreateLesson(id, level, total) =>
      if id !in s.lessons { LessonRowKeepsCached(s, id, Lesson(level, total, true, false)); }
    case UpdateLesson(id, level, points) => LessonUpdateKeepsCached(s, id, level, points);
    case DeleteLesson(id) => if LessonLives(s, id) { LessonRowKeepsCached(s, id, s.lessons[id].(deleted := true)); }
    case SwitchLesson(id, on) => if LessonLives(s, id) { LessonRowKeepsCached(s, id, s.lessons[id].(on := on)); }
    case ResetLessons(lessons) => ResetLessonsKeepsCached(s, lessons);
    case ChangeItems(lesson) =>
      if LessonLives(s, lesson) {
        LessonRowKeepsCached(s, lesson, s.lessons[lesson]);
        assert s.lessons[lesson := s.lessons[lesson]] == s.lessons;
        assert WithLesson(s, lesson, s.lessons[lesson]) == s;
      }
    case _ => QuizOperationKeepsCached(s, op);
  }

  /**
   After every sequence of operations, moves between levels and between grades included, every level's and every grade's
   stored points are the defining sum.
   */
  lemma {:induction false} EveryCacheIsTheSum(s: State, ops: seq<Operation>)
    requires Cached(s) && GradesAreThere(s)
    ensures Cached(Run(s, ops))
    decreases |ops|
  {
    hide After, CachedExcept, GradesAreThere;
    if ops != [] {
      OperationKeepsCached(s, ops[0]);
      OperationKeepsGrades(s, ops[0]);
      EveryCacheIsTheSum(After(s, ops[0]), ops[1..]);
    }
  }

  lemma ResetNone(s: State)
    ensures ResetQuizPointsOf(s, []) == s
  {
  }

  lemma {:induction false} ResetOneMore(s: State, levels: seq<Id>, level: Id)
    ensures var done := ResetQuizPointsOf(s, levels);
            level in done.levels ==>
              ResetQuizPointsOf(s, levels + [level]) ==
              UpdateLevelPoints(WithLevel(done, level, done.levels[level].(quizPoints := RESET_QUIZ_POINTS)), level)
    decreases |levels|
  {
    hide UpdateLevelPoints;
    if levels == [] {
      assert levels + [level] == [level];
      ResetNone(s);
    } else {
      assert (levels + [level])[1..] == levels[1..] + [level];
      if levels[0] in s.levels {
        var l := s.levels[levels[0]].(quizPoints := RESET_QUIZ_POINTS);
        ResetOneMore(UpdateLevelPoints(WithLevel(s, levels[0], l), levels[0]), levels[1..], level);
      } else {
        ResetOneMore(s, levels[1..], level);
      }
    }
  }

  // ---- the operations, in place ------------------------------------------------------------------

  class Central {
    var lessons: map<Id, Lesson>
    var levels: map<Id, Level>
    var grades: map<Id, int>
    var quizRows: map<Id, QuizRow>

    constructor (s: State)
      ensures Now() == s
    {
      lessons, levels, grades, quizRows := s.lessons, s.levels, s.grades, s.quizRows;
    }

    function Now(): State
      reads this
    {
      State(lessons, levels, grades, quizRows)
    }

    /** The sum over the lessons of a level that a learner can reach. */
    method SumLessons(level: Id) returns (sum: int)
      ensures sum == SumOf(LessonPoints(Now(), level))
    {
      var keys := lessons.Keys;
      sum := 0;
      ghost var all := LessonPoints(Now(), level);
      ghost var left := all;
      while keys != {}
        invariant keys <= lessons.Keys && left == (map k | k in all && k in keys :: all[k])
        invariant sum + SumOf(left) == SumOf(all)
        decreases keys
      {
        var k :| k in keys;
        keys := keys - {k};
        if lessons[k].level == level && !lessons[k].deleted && lessons[k].on {
          TakeOut(left, k);
          sum := sum + lessons[k].total;
        }
        ghost var rest := map j | j in all && j in keys :: all[j];
        assert rest == if k in left then left - {k} else left;
        left := rest;
      }
      assert left == map[];
    }

    method SumLevels(grade: Id) returns (sum: int)
      ensures sum == GradeSum(Now(), grade)
    {
      var keys := levels.Keys;
      sum := 0;
      ghost var all := LevelPointsOf(Now(), grade);
      ghost var left := all;
      while keys != {}
        invariant keys <= levels.Keys && left == (map k | k in all && k in keys :: all[k])
        invariant sum + SumOf(left) == SumOf(all)
        decreases keys
      {
        var k :| k in keys;
        keys := keys - {k};
        if levels[k].grade == grade && levels[k].on && !levels[k].deleted {
          TakeOut(left, k);
          sum := sum + levels[k].points;
        }
        ghost var rest := map j | j in all && j in keys :: all[j];
        assert rest == if k in left then left - {k} else left;
        left := rest;
      }
      assert left == map[];
    }

    method RecomputeGrade(grade: Id)
      modifies this`grades
      ensures Now() == UpdateGradePoints(old(Now()), grade)
    {
      if grade !in grades { return; }
      var sum := SumLevels(grade);
      grades := grades[grade := sum];
    }

    method RecomputeLevel(level: Id)
      modifies this`levels, this`grades
      ensures Now() == UpdateLevelPoints(old(Now()), level)
    {
      if level !in levels { return; }
      var sum := SumLessons(level);
      var hasQuiz := exists q :: q in quizRows && quizRows[q].level == level && quizRows[q].on;
      levels := levels[level := levels[level].(points := sum + if hasQuiz then levels[level].quizPoints else 0)];
      RecomputeGrade(levels[level].grade);
    }

    method AddLevel(level: Id, grade: Id, quizPoints: int)
      modifies this`levels, this`grades
      ensures Now() == After(old(Now()), CreateLevel(level, grade, quizPoints))
    {
      if level in levels || grade !in grades { return; }
      levels := levels[level := Level(grade, 0, quizPoints, true, false)];
      RecomputeLevel(level);
    }

    method ChangeLevel(level: Id, grade: Id, quiz: Option<int>) returns (found: bool)
      modifies this`levels, this`grades
      ensures found <==> level in old(levels) && !old(levels)[level].deleted && grade in grades
      ensures Now() == After(old(Now()), UpdateLevel(level, grade, quiz))
    {
      if level !in levels || levels[level].deleted || grade !in grades { return false; }
      var previous := levels[level].grade;
      var quizPoints := if quiz.Some? then quiz.value else DEFAULT_QUIZ_POINTS;
      levels := levels[level := levels[level].(grade := grade, quizPoints := quizPoints)];
      RecomputeLevel(level);
      if previous != grade { RecomputeGrade(previous); }
      return true;
    }

    method RemoveLevel(level: Id) returns (found: bool)
      modifies this`levels, this`grades
      ensures found <==> level in old(levels) && !old(levels)[level].deleted
      ensures Now() == After(old(Now()), DeleteLevel(level))
    {
      if level !in levels || levels[level].deleted { return false; }
      levels := levels[level := levels[level].(deleted := true)];
      RecomputeLevel(level);
      return true;
    }

    method TurnLevel(level: Id, on: bool) returns (found: bool)
      modifies this`levels, this`grades
      ensures found <==> level in old(levels) && !old(levels)[level].deleted
      ensures Now() == After(old(Now()), SwitchLevel(level, on))
    {
      if level !in levels || levels[level].deleted { return false; }
      levels := levels[level := levels[level].(on := on)];
      RecomputeGrade(levels[level].grade);
      return true;
    }

    method AddLesson(lesson: Id, level: Id, total: int)
      modifies this`lessons, this`levels, this`grades
      ensures Now() == After(old(Now()), CreateLesson(lesson, level, total))
    {
      if lesson in lessons || level !in levels { return; }
      lessons := lessons[lesson := Lesson(level, total, true, false)];
      RecomputeLevel(level);
    }

    method ChangeLesson(lesson: Id, level: Id, points: Option<int>) returns (found: bool)
      modifies this`lessons, this`levels, this`grades
      ensures found <==> lesson in old(lessons) && !old(lessons)[lesson].deleted && level in levels
      ensures Now() == After(old(Now()), UpdateLesson(lesson, level, points))
    {
      if lesson !in lessons || lessons[lesson].deleted || level !in levels { return false; }
      var previous := lessons[lesson].level;
      lessons := lessons[lesson := lessons[lesson].(level := level, total := if points.Some? then points.value
                                                                             else DEFAULT_TOTAL)];
      RecomputeLevel(level);
      if previous != level { RecomputeLevel(previous); }
      return true;
    }

    method TurnLesson(lesson: Id, on: bool) returns (found: bool)
      modifies this`lessons, this`levels, this`grades
      ensures found <==> lesson in old(lessons) && !old(lessons)[lesson].deleted
      ensures Now() == After(old(Now()), SwitchLesson(lesson, on))
    {
      if lesson !in lessons || lessons[lesson].deleted { return false; }
      lessons := lessons[lesson := lessons[lesson].(on := on)];
      RecomputeLevel(lessons[lesson].level);
      return true;
    }

    method RemoveLesson(lesson: Id) returns (found: bool)
      modifies this`lessons, this`levels, this`grades
      ensures found <==> lesson in old(lessons) && !old(lessons)[lesson].deleted
      ensures Now() == After(old(Now()), DeleteLesson(lesson))
    {
      if lesson !in lessons || lessons[lesson].deleted { return false; }
      lessons := lessons[lesson := lessons[lesson].(deleted := true)];
      RecomputeLevel(lessons[lesson].level);
      return true;
    }

    /** `updateLevelQuizPoints`: the levels that are on and not deleted, one after the other, in whatever order. */
    method ResetAllQuizPoints() returns (ghost order: seq<Id>)
      modifies this`levels, this`grades
      ensures Distinct(order) && forall l :: l in order <==>
              l in old(levels) && old(levels)[l].on && !old(levels)[l].deleted
      ensures Now() == After(old(Now()), ResetQuizPoints(order))
    {
      hide UpdateLevelPoints, ResetQuizPointsOf;
      order := [];
      var live := set l | l in levels && levels[l].on && !levels[l].deleted;
      var left := live;
      ResetNone(old(Now()));
      while left != {}
        invariant left <= live && Distinct(order) && forall l :: l in order <==> l in live - left
        invariant levels.Keys == old(levels).Keys && Now() == ResetQuizPointsOf(old(Now()), order)
        decreases left
      {
        var l :| l in left;
        assert l !in order;
        left := left - {l};
        ResetOneMore(old(Now()), order, l);
        UpdateKeepsGrades(WithLevel(Now(), l, levels[l].(quizPoints := RESET_QUIZ_POINTS)), l);
        levels := levels[l := levels[l].(quizPoints := RESET_QUIZ_POINTS)];
        RecomputeLevel(l);
        order := order + [l];
      }
    }

    method AddQuizRow(row: Id, level: Id)
      modifies this`quizRows, this`levels, this`grades
      ensures Now() == After(old(Now()), CreateQuizRow(row, level))
    {
      if row in quizRows || level !in levels { return; }
      quizRows := quizRows[row := QuizRow(level, true)];
      RecomputeLevel(level);
    }

    method TurnQuizRow(row: Id, on: bool) returns (found: bool)
      modifies this`quizRows, this`levels, this`grades
      ensures found <==> row in old(quizRows)
      ensures Now() == After(old(Now()), SwitchQuizRow(row, on))
    {
      if row !in quizRows { return false; }
      quizRows := quizRows[row := quizRows[row].(on := on)];
      RecomputeLevel(quizRows[row].level);
      return true;
    }

    method RemoveQuizRow(row: Id) returns (found: bool)
      modifies this`quizRows, this`levels, this`grades
      ensures found <==> row in old(quizRows)
      ensures Now() == After(old(Now()), DeleteQuizRow(row))
    {
      if row !in quizRows { return false; }
      var level := quizRows[row].level;
      quizRows := quizRows - {row};
      RecomputeLevel(level);
      return true;
    }
  }
}
