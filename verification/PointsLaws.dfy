/**
 What each operation on lessons, levels and level-quiz rows writes besides points, and what it leaves alone. The points
 themselves are the sums, which `Points` proves.
 */
module PointsLaws {
  import opened Values
  import opened Points

  /** Outside these lessons, levels, grades and quiz rows nothing is written. */
  ghost predicate OnlyIn(s: State, s': State, lessons: set<Id>, levels: set<Id>, grades: set<Id>, rows: set<Id>) {
    (forall l :: l !in lessons ==>
     (l in s'.lessons <==> l in s.lessons) && (l in s.lessons ==> s'.lessons[l] == s.lessons[l])) &&
    (forall l :: l !in levels ==>
     (l in s'.levels <==> l in s.levels) && (l in s.levels ==> s'.levels[l] == s.levels[l])) &&
    (forall g :: g !in grades ==>
     (g in s'.grades <==> g in s.grades) && (g in s.grades ==> s'.grades[g] == s.grades[g])) &&
    (forall q :: q !in rows ==>
     (q in s'.quizRows <==> q in s.quizRows) && (q in s.quizRows ==> s'.quizRows[q] == s.quizRows[q])) &&
    forall g :: g in s.grades ==> g in s'.grades
  }

  /** Of these levels points alone may change. */
  ghost predicate OnlyPoints(s: State, s': State, levels: set<Id>) {
    forall l :: l in levels && l in s.levels ==>
      l in s'.levels && s'.levels[l].grade == s.levels[l].grade && s'.levels[l].quizPoints == s.levels[l].quizPoints &&
      s'.levels[l].on == s.levels[l].on && s'.levels[l].deleted == s.levels[l].deleted
  }

  ghost function GradesOf(s: State, levels: set<Id>): set<Id> {
    set l | l in levels && l in s.levels :: s.levels[l].grade
  }

  lemma GradeWrites(s: State, grade: Id)
    ensures OnlyIn(s, UpdateGradePoints(s, grade), {}, {}, {grade}, {})
    ensures UpdateGradePoints(s, grade).lessons == s.lessons && UpdateGradePoints(s, grade).quizRows == s.quizRows
    ensures UpdateGradePoints(s, grade).levels == s.levels && UpdateGradePoints(s, grade).grades.Keys == s.grades.Keys
  {
    hide GradeSum;
  }

  lemma Then(a: State, b: State, c: State, lessons: set<Id>, levels: set<Id>, grades: set<Id>, rows: set<Id>)
    requires OnlyIn(a, b, lessons, levels, grades, rows) && OnlyIn(b, c, lessons, levels, grades, rows)
    ensures OnlyIn(a, c, lessons, levels, grades, rows)
  {
  }

  lemma Wider(a: State, b: State, lessons: set<Id>, levels: set<Id>, grades: set<Id>, rows: set<Id>, lessons': set<Id>,
              levels': set<Id>, grades': set<Id>, rows': set<Id>)
    requires OnlyIn(a, b, lessons, levels, grades, rows)
    requires lessons <= lessons' && levels <= levels' && grades <= grades' && rows <= rows'
    ensures OnlyIn(a, b, lessons', levels', grades', rows')
  {
  }

  lemma PointsWritten(s: State, level: Id, points: int)
    requires level in s.levels
    ensures var s' := WithLevel(s, level, s.levels[level].(points := points));
            OnlyIn(s, s', {}, {level}, {}, {}) && OnlyPoints(s, s', {level}) && s'.levels.Keys == s.levels.Keys
  {
  }

  lemma NothingWritten(s: State, levels: set<Id>)
    ensures OnlyIn(s, s, {}, levels, {}, {}) && OnlyPoints(s, s, levels)
  {
  }

  lemma RecomputeWrites(s: State, level: Id)
    ensures var s' := UpdateLevelPoints(s, level);
            OnlyIn(s, s', {}, {level}, GradesOf(s, {level}), {}) && OnlyPoints(s, s', {level}) &&
            s'.levels.Keys == s.levels.Keys && s'.grades.Keys == s.grades.Keys
    ensures UpdateLevelPoints(s, level).lessons == s.lessons && UpdateLevelPoints(s, level).quizRows == s.quizRows
  {
    hide LevelSum, GradeSum, OnlyIn, UpdateGradePoints;
    if level in s.levels {
      var grade := s.levels[level].grade;
      var counted := WithLevel(s, level, s.levels[level].(points := LevelSum(s, level)));
      PointsWritten(s, level, LevelSum(s, level));
      GradeWrites(counted, grade);
      var s' := UpdateGradePoints(counted, grade);
      Wider(s, counted, {}, {level}, {}, {}, {}, {level}, {grade}, {});
      Wider(counted, s', {}, {}, {grade}, {}, {}, {level}, {grade}, {});
      Then(s, counted, s', {}, {level}, {grade}, {});
      assert GradesOf(s, {level}) == {grade};
    } else {
      NothingWritten(s, {level});
      assert GradesOf(s, {level}) == {};
    }
  }

  /** A lesson's row written, then its level and the level's grade counted again. */
  lemma LessonThenLevel(s: State, id: Id, l: Lesson, level: Id)
    ensures var s' := UpdateLevelPoints(WithLesson(s, id, l), level);
            OnlyIn(s, s', {id}, {level}, GradesOf(s, {level}), {}) && OnlyPoints(s, s', {level}) && id in s'.lessons &&
            s'.lessons[id] == l && s'.levels.Keys == s.levels.Keys
  {
    hide UpdateLevelPoints;
    RecomputeWrites(WithLesson(s, id, l), level);
  }

  /** A level's row written, then it and its grade counted again. */
  lemma LevelThenItself(s: State, id: Id, l: Level)
    ensures var s' := UpdateLevelPoints(WithLevel(s, id, l), id);
            OnlyIn(s, s', {}, {id}, {l.grade}, {}) && id in s'.levels && s'.levels[id].(points := l.points) == l
  {
    hide UpdateLevelPoints;
    RecomputeWrites(WithLevel(s, id, l), id);
  }

  lemma RowsThenLevel(s: State, rows: map<Id, QuizRow>, id: Id, level: Id)
    requires forall q :: q != id ==> (q in rows <==> q in s.quizRows) && (q in rows ==> rows[q] == s.quizRows[q])
    ensures var s' := UpdateLevelPoints(s.(quizRows := rows), level);
            OnlyIn(s, s', {}, {level}, GradesOf(s, {level}), {id}) && OnlyPoints(s, s', {level}) && s'.quizRows == rows
  {
    hide UpdateLevelPoints;
    RecomputeWrites(s.(quizRows := rows), level);
  }

  // ---- lessons -----------------------------------------------------------------------------------

  /** A new lesson is on, in its level, worth what was asked. */
  lemma CreateLessonWrites(s: State, id: Id, level: Id, total: int)
    ensures var s' := After(s, CreateLesson(id, level, total));
            if id in s.lessons || level !in s.levels then s' == s
            else
              OnlyIn(s, s', {id}, {level}, GradesOf(s, {level}), {}) && OnlyPoints(s, s', {level}) &&
              id in s'.lessons && s'.lessons[id].level == level && s'.lessons[id].total == total &&
              s'.lessons[id].on && !s'.lessons[id].deleted
  {
    hide UpdateLevelPoints, OnlyIn, OnlyPoints;
    LessonThenLevel(s, id, Lesson(level, total, true, false), level);
  }

  lemma PreviousIsLeft(s: State, moved: State, id: Id, level: Id, previous: Id)
    requires OnlyIn(s, moved, {id}, {level}, GradesOf(s, {level}), {}) && previous != level
    ensures GradesOf(moved, {previous}) <= GradesOf(s, {level, previous})
    ensures previous in moved.levels <==> previous in s.levels
    ensures previous in s.levels ==> moved.levels[previous] == s.levels[previous]
  {
  }

  lemma OtherPoints(s: State, moved: State, s': State, level: Id, previous: Id)
    requires OnlyPoints(s, moved, {level}) && OnlyPoints(moved, s', {previous}) && previous != level
    requires OnlyIn(moved, s', {}, {previous}, GradesOf(moved, {previous}), {})
    requires previous in moved.levels <==> previous in s.levels
    requires previous in s.levels ==> moved.levels[previous] == s.levels[previous]
    ensures OnlyPoints(s, s', {level, previous})
  {
  }

  /** A changed lesson is in the level asked for, worth what was asked or 100, as on as it was. */
  lemma UpdateLessonWrites(s: State, id: Id, level: Id, points: Option<int>)
    ensures var s' := After(s, UpdateLesson(id, level, points));
            if id !in s.lessons || s.lessons[id].deleted || level !in s.levels then s' == s
            else
              var levels := {level, s.lessons[id].level};
              OnlyIn(s, s', {id}, levels, GradesOf(s, levels), {}) && OnlyPoints(s, s', levels) && id in s'.lessons &&
              s'.lessons[id].level == level && s'.lessons[id].on == s.lessons[id].on && !s'.lessons[id].deleted &&
              match points case Some(n) => s'.lessons[id].total == n case None => s'.lessons[id].total == 100
  {
    hide UpdateLevelPoints, OnlyIn;
    if LessonLives(s, id) && level in s.levels {
      var previous, total := s.lessons[id].level, if points.Some? then points.value else DEFAULT_TOTAL;
      var l := s.lessons[id].(level := level, total := total);
      LessonThenLevel(s, id, l, level);
      var moved, grades := UpdateLevelPoints(WithLesson(s, id, l), level), GradesOf(s, {level, previous});
      Wider(s, moved, {id}, {level}, GradesOf(s, {level}), {}, {id}, {level, previous}, grades, {});
      if previous != level {
        RecomputeWrites(moved, previous);
        PreviousIsLeft(s, moved, id, level, previous);
        Wider(moved, UpdateLevelPoints(moved, previous), {}, {previous}, GradesOf(moved, {previous}), {},
              {id}, {level, previous}, grades, {});
        Then(s, moved, UpdateLevelPoints(moved, previous), {id}, {level, previous}, grades, {});
        OtherPoints(s, moved, UpdateLevelPoints(moved, previous), level, previous);
      }
    }
  }

  /** A lesson taken away, or turned on or off, keeps its level and its worth. */
  lemma LessonSwitchesWrite(s: State, id: Id, on: bool)
    ensures var gone, turned := After(s, DeleteLesson(id)), After(s, SwitchLesson(id, on));
            if id !in s.lessons || s.lessons[id].deleted then gone == s && turned == s
            else
              var level := s.lessons[id].level;
              OnlyIn(s, gone, {id}, {level}, GradesOf(s, {level}), {}) && OnlyPoints(s, gone, {level}) &&
              OnlyIn(s, turned, {id}, {level}, GradesOf(s, {level}), {}) && OnlyPoints(s, turned, {level}) &&
              id in gone.lessons && gone.lessons[id].deleted && gone.lessons[id].level == level &&
              gone.lessons[id].total == s.lessons[id].total && gone.lessons[id].on == s.lessons[id].on &&
              id in turned.lessons && turned.lessons[id].on == on && turned.lessons[id].level == level &&
              turned.lessons[id].total == s.lessons[id].total && !turned.lessons[id].deleted
  {
    hide UpdateLevelPoints, OnlyIn, OnlyPoints;
    if LessonLives(s, id) {
      LessonThenLevel(s, id, s.lessons[id].(deleted := true), s.lessons[id].level);
      LessonThenLevel(s, id, s.lessons[id].(on := on), s.lessons[id].level);
    }
  }

  /** A change of a lesson's items writes points only. */
  lemma ChangeItemsWrites(s: State, id: Id)
    ensures var s' := After(s, ChangeItems(id));
            if id !in s.lessons || s.lessons[id].deleted then s' == s
            else OnlyIn(s, s', {}, {s.lessons[id].level}, GradesOf(s, {s.lessons[id].level}), {}) &&
                 OnlyPoints(s, s', {s.lessons[id].level})
  {
    hide UpdateLevelPoints;
    if LessonLives(s, id) { RecomputeWrites(s, s.lessons[id].level); }
  }

  // ---- levels ------------------------------------------------------------------------------------

  /** A new grade is worth nothing yet; a new level is on, in its grade, its quiz worth what was asked. */
  lemma CreatesWrite(s: State, id: Id, grade: Id, quizPoints: int)
    ensures var s' := After(s, CreateGrade(grade));
            if grade in s.grades then s' == s
            else OnlyIn(s, s', {}, {}, {grade}, {}) && grade in s'.grades && s'.grades[grade] == 0
    ensures var s' := After(s, CreateLevel(id, grade, quizPoints));
            if id in s.levels || grade !in s.grades then s' == s
            else
              OnlyIn(s, s', {}, {id}, {grade}, {}) && id in s'.levels && s'.levels[id].grade == grade &&
              s'.levels[id].quizPoints == quizPoints && s'.levels[id].on && !s'.levels[id].deleted
  {
    hide UpdateLevelPoints;
    LevelThenItself(s, id, Level(grade, 0, quizPoints, true, false));
  }

  /** A changed level is in the grade asked for, its quiz worth what was asked or 10. */
  lemma UpdateLevelWrites(s: State, id: Id, grade: Id, quiz: Option<int>)
    ensures var s' := After(s, UpdateLevel(id, grade, quiz));
            if id !in s.levels || s.levels[id].deleted || grade !in s.grades then s' == s
            else
              OnlyIn(s, s', {}, {id}, {grade, s.levels[id].grade}, {}) && id in s'.levels &&
              s'.levels[id].grade == grade && s'.levels[id].on == s.levels[id].on && !s'.levels[id].deleted &&
              match quiz case Some(n) => s'.levels[id].quizPoints == n case None => s'.levels[id].quizPoints == 10
  {
    hide UpdateLevelPoints, UpdateGradePoints, OnlyIn;
    if LevelLives(s, id) && grade in s.grades {
      var previous, quizPoints := s.levels[id].grade, if quiz.Some? then quiz.value else DEFAULT_QUIZ_POINTS;
      var l := s.levels[id].(grade := grade, quizPoints := quizPoints);
      LevelThenItself(s, id, l);
      var moved := UpdateLevelPoints(WithLevel(s, id, l), id);
      Wider(s, moved, {}, {id}, {grade}, {}, {}, {id}, {grade, previous}, {});
      GradeWrites(moved, previous);
      Wider(moved, UpdateGradePoints(moved, previous), {}, {}, {previous}, {}, {}, {id}, {grade, previous}, {});
      Then(s, moved, UpdateGradePoints(moved, previous), {}, {id}, {grade, previous}, {});
    }
  }

  lemma LevelTurned(s: State, id: Id, on: bool)
    requires LevelLives(s, id)
    ensures var l := s.levels[id].(on := on);
            var turned := UpdateGradePoints(WithLevel(s, id, l), s.levels[id].grade);
            OnlyIn(s, turned, {}, {id}, {s.levels[id].grade}, {}) && id in turned.levels && turned.levels[id] == l
  {
    hide UpdateGradePoints;
    GradeWrites(WithLevel(s, id, s.levels[id].(on := on)), s.levels[id].grade);
  }

  /** A level taken away, or turned on or off, keeps its grade and its quiz's worth; turning it leaves its points. */
  lemma LevelSwitchesWrite(s: State, id: Id, on: bool)
    ensures var gone, turned := After(s, DeleteLevel(id)), After(s, SwitchLevel(id, on));
            if id !in s.levels || s.levels[id].deleted then gone == s && turned == s
            else
              var grade := s.levels[id].grade;
              OnlyIn(s, gone, {}, {id}, {grade}, {}) && OnlyIn(s, turned, {}, {id}, {grade}, {}) &&
              id in gone.levels && gone.levels[id].deleted && gone.levels[id].grade == grade &&
              gone.levels[id].quizPoints == s.levels[id].quizPoints && gone.levels[id].on == s.levels[id].on &&
              id in turned.levels && turned.levels[id].on == on && turned.levels[id].grade == grade &&
              turned.levels[id].quizPoints == s.levels[id].quizPoints && !turned.levels[id].deleted &&
              turned.levels[id].points == s.levels[id].points
  {
    hide UpdateLevelPoints, UpdateGradePoints, OnlyIn;
    if LevelLives(s, id) {
      LevelThenItself(s, id, s.levels[id].(deleted := true));
      LevelTurned(s, id, on);
    }
  }

  // ---- level-quiz rows ---------------------------------------------------------------------------

  /** A new quiz row is on, in its level; turning one sets its switch; removing one takes it away. */
  lemma QuizRowsWrite(s: State, id: Id, level: Id, on: bool)
    ensures var s' := After(s, CreateQuizRow(id, level));
            if id in s.quizRows || level !in s.levels then s' == s
            else OnlyIn(s, s', {}, {level}, GradesOf(s, {level}), {id}) && OnlyPoints(s, s', {level}) &&
                 id in s'.quizRows && s'.quizRows[id].level == level && s'.quizRows[id].on
    ensures var turned, gone := After(s, SwitchQuizRow(id, on)), After(s, DeleteQuizRow(id));
            if id !in s.quizRows then turned == s && gone == s
            else
              var of := s.quizRows[id].level;
              OnlyIn(s, turned, {}, {of}, GradesOf(s, {of}), {id}) && OnlyPoints(s, turned, {of}) &&
              OnlyIn(s, gone, {}, {of}, GradesOf(s, {of}), {id}) && OnlyPoints(s, gone, {of}) &&
              id in turned.quizRows && turned.quizRows[id].level == of && turned.quizRows[id].on == on &&
              id !in gone.quizRows
  {
    hide UpdateLevelPoints, OnlyIn, OnlyPoints;
    RowsThenLevel(s, s.quizRows[id := QuizRow(level, true)], id, level);
    if id in s.quizRows {
      var of := s.quizRows[id].level;
      RowsThenLevel(s, s.quizRows[id := s.quizRows[id].(on := on)], id, of);
      RowsThenLevel(s, s.quizRows - {id}, id, of);
    }
  }

  // ---- the resets --------------------------------------------------------------------------------

  /** A reset makes the quiz of every level listed worth 100, and writes no other level but points of none. */
  lemma {:induction false} ResetQuizPointsWrites(s: State, levels: seq<Id>)
    ensures var s' := After(s, ResetQuizPoints(levels));
            s'.lessons == s.lessons && s'.quizRows == s.quizRows && s'.levels.Keys == s.levels.Keys &&
            s'.grades.Keys == s.grades.Keys &&
            forall l :: l in s.levels ==>
              if l in levels
              then s'.levels[l].quizPoints == 100 && s'.levels[l].grade == s.levels[l].grade &&
                   s'.levels[l].on == s.levels[l].on && s'.levels[l].deleted == s.levels[l].deleted
              else s'.levels[l] == s.levels[l]
    decreases |levels|
  {
    hide UpdateLevelPoints;
    if levels != [] {
      assert levels == [levels[0]] + levels[1..];
      if levels[0] in s.levels {
        var set1 := WithLevel(s, levels[0], s.levels[levels[0]].(quizPoints := RESET_QUIZ_POINTS));
        RecomputeWrites(set1, levels[0]);
        ResetQuizPointsWrites(UpdateLevelPoints(set1, levels[0]), levels[1..]);
      } else {
        ResetQuizPointsWrites(s, levels[1..]);
      }
    }
  }

  lemma ResetLessonStep(s: State, id: Id, l: Lesson)
    ensures var next := UpdateLevelPoints(WithLesson(s, id, l), l.level);
            next.quizRows == s.quizRows && next.lessons == s.lessons[id := l] && next.levels.Keys == s.levels.Keys &&
            next.grades.Keys == s.grades.Keys && OnlyPoints(s, next, s.levels.Keys)
  {
    hide UpdateLevelPoints;
    RecomputeWrites(WithLesson(s, id, l), l.level);
  }

  lemma SamePoints(s: State)
    ensures OnlyPoints(s, s, s.levels.Keys)
  {
  }

  lemma PointsThenPoints(a: State, b: State, c: State, levels: set<Id>)
    requires OnlyPoints(a, b, levels) && OnlyPoints(b, c, levels)
    ensures OnlyPoints(a, c, levels)
  {
  }

  /** A reset makes every lesson listed that is not deleted worth 100, and writes no other lesson. */
  lemma {:induction false} ResetLessonsWrites(s: State, lessons: seq<Id>)
    ensures var s' := After(s, ResetLessons(lessons));
            s'.quizRows == s.quizRows && s'.lessons.Keys == s.lessons.Keys && s'.levels.Keys == s.levels.Keys &&
            s'.grades.Keys == s.grades.Keys && OnlyPoints(s, s', s.levels.Keys) &&
            forall l :: l in s.lessons ==>
              s'.lessons[l] == if l in lessons && !s.lessons[l].deleted then s.lessons[l].(total := 100)
                               else s.lessons[l]
    decreases |lessons|
  {
    hide UpdateLevelPoints, OnlyPoints, WithLesson;
    SamePoints(s);
    if lessons != [] {
      assert lessons == [lessons[0]] + lessons[1..];
      if LessonLives(s, lessons[0]) {
        var l := s.lessons[lessons[0]];
        var next := UpdateLevelPoints(WithLesson(s, lessons[0], l.(total := DEFAULT_TOTAL)), l.level);
        ResetLessonStep(s, lessons[0], l.(total := DEFAULT_TOTAL));
        ResetLessonsWrites(next, lessons[1..]);
        PointsThenPoints(s, next, After(s, ResetLessons(lessons)), s.levels.Keys);
      } else {
        ResetLessonsWrites(s, lessons[1..]);
      }
    }
  }
}
