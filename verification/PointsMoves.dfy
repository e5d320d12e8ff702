/**
 How points move: an operation on a lesson, a quiz row or a level moves the points stored above it by exactly what that
 one thing is worth there afterwards less what it was worth before.
 */
module PointsMoves {
  import opened Values
  import opened Sums
  import opened Points
  import opened PointsLaws

  /** What a lesson is worth to a level: its points, when it is in it, on and not deleted. */
  ghost function WorthIn(s: State, id: Id, level: Id): int {
    if id in s.lessons && s.lessons[id].level == level && s.lessons[id].on && !s.lessons[id].deleted
    then s.lessons[id].total else 0
  }

  /** What its quiz is worth to a level: its quiz points, when it has a quiz row that is on. */
  ghost function QuizWorth(s: State, level: Id): int
    requires level in s.levels
  {
    if exists q :: q in s.quizRows && s.quizRows[q].level == level && s.quizRows[q].on
    then s.levels[level].quizPoints else 0
  }

  /** What a level is worth to a grade: its points, when it is in it, on and not deleted. */
  ghost function CountsFor(s: State, id: Id, grade: Id): int {
    if id in s.levels && s.levels[id].grade == grade && s.levels[id].on && !s.levels[id].deleted
    then s.levels[id].points else 0
  }

  predicate IsOfLesson(op: Operation, id: Id) {
    match op
    case CreateLesson(l, _, _) => l == id
    case UpdateLesson(l, _, _) => l == id
    case DeleteLesson(l) => l == id
    case SwitchLesson(l, _) => l == id
    case _ => false
  }

  predicate IsOfQuizRow(op: Operation, id: Id) {
    match op
    case CreateQuizRow(q, _) => q == id
    case SwitchQuizRow(q, _) => q == id
    case DeleteQuizRow(q) => q == id
    case _ => false
  }

  predicate IsOfLevel(op: Operation, id: Id) {
    match op
    case CreateLevel(l, _, _) => l == id
    case UpdateLevel(l, _, _) => l == id
    case DeleteLevel(l) => l == id
    case SwitchLevel(l, _) => l == id
    case _ => false
  }

  ghost predicate OnlyLesson(s: State, s': State, id: Id) {
    forall l :: l != id ==>
      (l in s'.lessons <==> l in s.lessons) && (l in s.lessons ==> s'.lessons[l] == s.lessons[l])
  }

  ghost predicate SameQuizRows(s: State, s': State) {
    forall q ::
      (q in s'.quizRows <==> q in s.quizRows) && (q in s.quizRows ==> s'.quizRows[q] == s.quizRows[q])
  }

  ghost predicate OnlyLevel(s: State, s': State, id: Id) {
    forall l :: l != id ==>
      (l in s'.levels <==> l in s.levels) && (l in s.levels ==> s'.levels[l] == s.levels[l])
  }

  // ---- one entry of a sum ------------------------------------------------------------------------

  lemma AllButOne(a: map<Id, int>, b: map<Id, int>, id: Id)
    requires a - {id} == b - {id}
    ensures SumOf(a) - (if id in a then a[id] else 0) == SumOf(b) - if id in b then b[id] else 0
  {
    if id in a { TakeOut(a, id); } else { assert a - {id} == a; }
    if id in b { TakeOut(b, id); } else { assert b - {id} == b; }
  }

  lemma LessonsSum(s: State, s': State, id: Id, level: Id)
    requires OnlyLesson(s, s', id)
    ensures SumOf(LessonPoints(s', level)) - WorthIn(s', id, level) ==
            SumOf(LessonPoints(s, level)) - WorthIn(s, id, level)
  {
    AllButOne(LessonPoints(s, level), LessonPoints(s', level), id);
  }

  lemma LevelsSum(s: State, s': State, id: Id, grade: Id)
    requires OnlyLevel(s, s', id)
    ensures GradeSum(s', grade) - CountsFor(s', id, grade) == GradeSum(s, grade) - CountsFor(s, id, grade)
  {
    AllButOne(LevelPointsOf(s, grade), LevelPointsOf(s', grade), id);
  }

  lemma SumsAre(s: State, level: Id)
    requires Cached(s) && level in s.levels
    ensures s.levels[level].points == SumOf(LessonPoints(s, level)) + QuizWorth(s, level)
  {
  }

  // ---- lessons -----------------------------------------------------------------------------------

  lemma WritesOneLesson(s: State, s': State, id: Id, levels: set<Id>, grades: set<Id>, level: Id)
    requires OnlyIn(s, s', {id}, levels, grades, {}) && OnlyPoints(s, s', levels) && level in s.levels
    ensures OnlyLesson(s, s', id) && SameQuizRows(s, s')
    ensures level in s'.levels && s'.levels[level].quizPoints == s.levels[level].quizPoints
  {
  }

  lemma NothingDone(s: State, id: Id)
    ensures OnlyLesson(s, s, id) && SameQuizRows(s, s) && OnlyLevel(s, s, id)
  {
  }

  lemma LessonOpWrites(s: State, op: Operation, id: Id, level: Id)
    requires IsOfLesson(op, id) && level in s.levels
    ensures var s' := After(s, op);
            OnlyLesson(s, s', id) && SameQuizRows(s, s') &&
            level in s'.levels && s'.levels[level].quizPoints == s.levels[level].quizPoints
  {
    hide After, GradesOf, OnlyIn, OnlyPoints, OnlyLesson, SameQuizRows;
    var s' := After(s, op);
    NothingDone(s, id);
    if s' != s {
      match op
      case CreateLesson(_, of, total) =>
        CreateLessonWrites(s, id, of, total);
        WritesOneLesson(s, s', id, {of}, GradesOf(s, {of}), level);
      case UpdateLesson(_, of, points) =>
        UpdateLessonWrites(s, id, of, points);
        var levels := {of, s.lessons[id].level};
        WritesOneLesson(s, s', id, levels, GradesOf(s, levels), level);
      case DeleteLesson(_) =>
        LessonSwitchesWrite(s, id, true);
        WritesOneLesson(s, s', id, {s.lessons[id].level}, GradesOf(s, {s.lessons[id].level}), level);
      case SwitchLesson(_, on) =>
        LessonSwitchesWrite(s, id, on);
        WritesOneLesson(s, s', id, {s.lessons[id].level}, GradesOf(s, {s.lessons[id].level}), level);
    }
  }

  /** Whatever is done to one lesson, each level's points move by what that lesson is worth to it. */
  lemma LessonMovesPoints(s: State, op: Operation, id: Id, level: Id)
    requires Cached(s) && GradesAreThere(s) && IsOfLesson(op, id) && level in s.levels
    ensures var s' := After(s, op);
            level in s'.levels &&
            s'.levels[level].points - s.levels[level].points == WorthIn(s', id, level) - WorthIn(s, id, level)
  {
    hide After, Cached, GradesAreThere;
    OperationKeepsCached(s, op);
    LessonOpWrites(s, op, id, level);
    LessonsSum(s, After(s, op), id, level);
    SumsAre(s, level);
    SumsAre(After(s, op), level);
  }

  // ---- quiz rows ---------------------------------------------------------------------------------

  lemma QuizOpWrites(s: State, op: Operation, id: Id, level: Id)
    requires IsOfQuizRow(op, id) && level in s.levels
    ensures After(s, op).lessons == s.lessons && level in After(s, op).levels
  {
    hide After, GradesOf;
    match op
    case CreateQuizRow(_, of) => QuizRowsWrite(s, id, of, true);
    case SwitchQuizRow(_, on) => QuizRowsWrite(s, id, level, on);
    case DeleteQuizRow(_) => QuizRowsWrite(s, id, level, true);
  }

  /** Whatever is done to one quiz row, each level's points move by what its quiz is worth. */
  lemma QuizRowMovesPoints(s: State, op: Operation, id: Id, level: Id)
    requires Cached(s) && GradesAreThere(s) && IsOfQuizRow(op, id) && level in s.levels
    ensures var s' := After(s, op);
            level in s'.levels &&
            s'.levels[level].points - s.levels[level].points == QuizWorth(s', level) - QuizWorth(s, level)
  {
    hide After, Cached, GradesAreThere, QuizWorth;
    OperationKeepsCached(s, op);
    QuizOpWrites(s, op, id, level);
    SumsAre(s, level);
    SumsAre(After(s, op), level);
    assert LessonPoints(s, level) == LessonPoints(After(s, op), level);
  }

  // ---- levels ------------------------------------------------------------------------------------

  lemma WritesOneLevel(s: State, s': State, id: Id, grades: set<Id>)
    requires OnlyIn(s, s', {}, {id}, grades, {})
    ensures OnlyLevel(s, s', id) && forall g :: g in s.grades ==> g in s'.grades
  {
  }

  lemma LevelOpWrites(s: State, op: Operation, id: Id)
    requires IsOfLevel(op, id)
    ensures var s' := After(s, op);
            OnlyLevel(s, s', id) && forall g :: g in s.grades ==> g in s'.grades
  {
    hide After, OnlyIn, OnlyLevel;
    var s' := After(s, op);
    NothingDone(s, id);
    if s' != s {
      match op
      case CreateLevel(_, grade, quizPoints) =>
        CreatesWrite(s, id, grade, quizPoints);
        WritesOneLevel(s, s', id, {grade});
      case UpdateLevel(_, grade, quiz) =>
        UpdateLevelWrites(s, id, grade, quiz);
        WritesOneLevel(s, s', id, {grade, s.levels[id].grade});
      case DeleteLevel(_) =>
        LevelSwitchesWrite(s, id, true);
        WritesOneLevel(s, s', id, {s.levels[id].grade});
      case SwitchLevel(_, on) =>
        LevelSwitchesWrite(s, id, on);
        WritesOneLevel(s, s', id, {s.levels[id].grade});
    }
  }

  /** Whatever is done to one level, each grade's points move by what that level is worth to it. */
  lemma LevelMovesPoints(s: State, op: Operation, id: Id, grade: Id)
    requires Cached(s) && GradesAreThere(s) && IsOfLevel(op, id) && grade in s.grades
    ensures var s' := After(s, op);
            grade in s'.grades &&
            s'.grades[grade] - s.grades[grade] == CountsFor(s', id, grade) - CountsFor(s, id, grade)
  {
    hide After, GradesAreThere, LevelSum, GradeSum, CountsFor;
    OperationKeepsCached(s, op);
    LevelOpWrites(s, op, id);
    LevelsSum(s, After(s, op), id, grade);
  }
}
