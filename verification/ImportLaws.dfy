/**
 What one accepted run of the import does: a second one changes nothing, and nothing outside its module is touched.
 */
module ImportLaws {
  import opened Values
  import opened Sums
  import opened ImportSlots
  import opened ImportContent
  import opened ImportSteps
  import opened ImportPlan
  import opened ImportRows
  import opened ImportRun

  /** The steps of a run against what this database holds. */
  ghost function StepsFor(c: Content, f: Flags, db: Db): seq<Step>
    requires Acceptable(c)
  {
    AcceptableIsWellPlaced(c);
    var m, placed := c.number, PlacedOf(c);
    var status, levelPoints := LevelStatus(db, m, f.live), LevelPoints(db, m, placed);
    PlanSteps(c, f, placed, status, levelPoints, GradePoints(db, m, status, levelPoints))
  }

  /** The database after an accepted run. */
  ghost function Imported(c: Content, f: Flags, stamp: string, db: Db): Db
    requires Acceptable(c) && f.organisation in db.languages
  {
    Apply(WithLanguage(db, f.organisation), stamp, StepsFor(c, f, db))
  }

  ghost predicate Accepted(c: Content, f: Flags, stamp: string, holders: Placeholders, db: Db) {
    Import(c, f, stamp, holders, db).Ok?
  }

  lemma AcceptedRunIs(c: Content, f: Flags, stamp: string, holders: Placeholders, db: Db)
    requires Accepted(c, f, stamp, holders, db)
    ensures Acceptable(c) && f.organisation in db.languages &&
            Import(c, f, stamp, holders, db).value.0 == Imported(c, f, stamp, db)
    ensures Separate(StepsFor(c, f, db)) && ArePlaced(c.number, PlacedOf(c)) && WellPlaced(c.number, PlacedOf(c))
  {
    hide PlanSteps, PlacedOf, ArePlaced, WellPlaced, ChangesSome, RenamesSome, Needed, Owned, LevelPoints, GradePoints,
         Apply, Tally, LessonsOk, Separate;
    PlanTouchesDifferentRows(c, f, LevelStatus(db, c.number, f.live), LevelPoints(db, c.number, PlacedOf(c)),
                             GradePoints(db, c.number, LevelStatus(db, c.number, f.live),
                                         LevelPoints(db, c.number, PlacedOf(c))));
    AcceptableIsWellPlaced(c);
  }

  // ---- the steps of a plan -----------------------------------------------------------------------

  lemma {:induction false} InForEach(round: Round, m: nat, f: Flags, placed: seq<Placed>, i: nat, step: Step)
    requires ArePlaced(m, placed) && i < |placed| && step in RoundSteps(round, m, f, placed[i])
    ensures step in ForEach(round, m, f, placed)
  {
    hide RoundSteps, IsPlaced;
    if i > 0 { InForEach(round, m, f, placed[1..], i - 1, step); }
  }

  lemma {:induction false} FromForEach(round: Round, m: nat, f: Flags, placed: seq<Placed>, step: Step) returns (i: nat)
    requires ArePlaced(m, placed) && step in ForEach(round, m, f, placed)
    ensures i < |placed| && step in RoundSteps(round, m, f, placed[i])
  {
    hide RoundSteps, IsPlaced;
    if step in RoundSteps(round, m, f, placed[0]) {
      i := 0;
    } else {
      var j := FromForEach(round, m, f, placed[1..], step);
      i := j + 1;
    }
  }

  /** Where a step of a plan comes from. */
  ghost predicate IsStepOf(c: Content, f: Flags, placed: seq<Placed>, status: int, levelPoints: int, gradePoints: int,
                           step: Step)
    requires c.number >= 0 && ArePlaced(c.number, placed)
  {
    step in ProgrammeSteps(c, f, status, levelPoints, gradePoints) || step in ProgrammeTexts(c, f) ||
    step in HideSteps(c.number, placed) ||
    exists round: Round :: step in ForEach(round, c.number, f, placed)
  }

  lemma StepsComeFrom(c: Content, f: Flags, placed: seq<Placed>, status: int, levelPoints: int, gradePoints: int,
                      step: Step)
    requires c.number >= 0 && ArePlaced(c.number, placed)
    ensures step in PlanSteps(c, f, placed, status, levelPoints, gradePoints) <==>
            IsStepOf(c, f, placed, status, levelPoints, gradePoints, step)
  {
    hide ProgrammeSteps, ProgrammeTexts, HideSteps, ForEach, IsPlaced, ArePlaced;
    if round: Round :| step in ForEach(round, c.number, f, placed) {
      match round
      case LessonRows =>
      case QuestionRows =>
      case JoinRows =>
      case LessonTexts =>
      case QuestionTexts =>
    }
  }

  lemma StepsForComeFrom(c: Content, f: Flags, db: Db, step: Step)
    requires Acceptable(c) && ArePlaced(c.number, PlacedOf(c))
    ensures var status, levelPoints := LevelStatus(db, c.number, f.live), LevelPoints(db, c.number, PlacedOf(c));
            step in StepsFor(c, f, db) <==>
            IsStepOf(c, f, PlacedOf(c), status, levelPoints, GradePoints(db, c.number, status, levelPoints), step)
  {
    hide IsStepOf, PlacedOf, ArePlaced, LessonsOk;
    var status, levelPoints := LevelStatus(db, c.number, f.live), LevelPoints(db, c.number, PlacedOf(c));
    StepsComeFrom(c, f, PlacedOf(c), status, levelPoints, GradePoints(db, c.number, status, levelPoints), step);
  }

  /** The columns no import ever updates in a row that is there. */
  const KEPT_COLUMNS: set<Column> :=
    {OrganisationCol, GradeCol, LevelCol, TotalPointsCol, PassingPointsCol, LearningPointsCol, QuizzesPointsCol,
     PracticesPointsCol, QuizPointsCol}

  ghost predicate LeavesKept(f: Flags, step: Step) {
    (forall col :: col in KEPT_COLUMNS ==> Leaves(step, col)) && Sound(step) &&
    (step.Upsert? ==>
       Cell(step.values, OrganisationCol) == Val.Null || Cell(step.values, OrganisationCol) == Text(f.organisation)) &&
    (step.Translate? ==> step.row.organisation == f.organisation)
  }

  lemma HideLeaves(m: nat, f: Flags, placed: seq<Placed>, step: Step)
    requires ArePlaced(m, placed) && step in HideSteps(m, placed)
    ensures LeavesKept(f, step) && step.Hide? && step.column in {DeletedCol, StatusCol}
  {
    hide HideSteps, ArePlaced;
    HidesAreHides(m, placed, step);
  }

  lemma HidesAreHides(m: nat, placed: seq<Placed>, step: Step)
    requires ArePlaced(m, placed) && step in HideSteps(m, placed)
    ensures step.Hide? && step.column in {DeletedCol, StatusCol}
  {
    hide JoinIds, UsedJoins, HiddenIds, Named, Assigned, QuestionIds, ArePlaced;
  }

  lemma LessonStepsLeave(m: nat, f: Flags, p: Placed, step: Step)
    requires IsPlaced(m, p) && step in LessonSteps(m, f, p)
    ensures LeavesKept(f, step) && step.Upsert?
  {
    hide SlotId, LevelId, PassingPoints;
  }

  lemma JoinStepsLeave(m: nat, f: Flags, s: Slot, kind: Kind, ids: seq<Id>, step: Step)
    requires IsSlot(m, s) && |ids| <= SETS_PER_LESSON && step in JoinSteps(m, s, kind, ids)
    ensures LeavesKept(f, step) && step.Upsert?
  {
    hide SlotId;
  }

  lemma QuestionStepsLeave(f: Flags, questions: seq<Question>, ids: seq<Id>, step: Step)
    requires |questions| == |ids| && step in QuestionSteps(f, questions, ids)
    ensures LeavesKept(f, step) && step.Upsert?
  {
    hide StoredOptions;
  }

  lemma RoundLeaves(round: Round, m: nat, f: Flags, p: Placed, step: Step)
    requires IsPlaced(m, p) && step in RoundSteps(round, m, f, p)
    ensures LeavesKept(f, step) && (step.Translate? <==> RoundWritesTexts(round)) && !step.Hide?
  {
    hide LessonSteps, JoinSteps, QuestionSteps, TextsOfSet, SlotId, LeavesKept;
    match round
    case LessonRows => LessonStepsLeave(m, f, p, step);
    case QuestionRows =>
      if step in QuestionSteps(f, p.lesson.practice, p.practiceIds) {
        QuestionStepsLeave(f, p.lesson.practice, p.practiceIds, step);
      } else {
        QuestionStepsLeave(f, p.lesson.quiz, p.quizIds, step);
      }
    case JoinRows =>
      if step in JoinSteps(m, p.slot, Practice, p.practiceIds) {
        JoinStepsLeave(m, f, p.slot, Practice, p.practiceIds, step);
      } else {
        JoinStepsLeave(m, f, p.slot, Quiz, p.quizIds, step);
      }
    case LessonTexts => TextLeaves(f, step);
    case QuestionTexts =>
      if step in TextsOfSet(m, f, p.lesson.practice, p.practiceIds) {
        SetTextsAreTexts(m, f, p.lesson.practice, p.practiceIds, step);
      } else {
        SetTextsAreTexts(m, f, p.lesson.quiz, p.quizIds, step);
      }
      TextLeaves(f, step);
  }

  lemma TextLeaves(f: Flags, step: Step)
    requires step.Translate? && step.row.organisation == f.organisation
    ensures LeavesKept(f, step)
  {
  }

  lemma {:induction false} SetTextsAreTexts(m: nat, f: Flags, questions: seq<Question>, ids: seq<Id>, step: Step)
    requires |questions| == |ids| && step in TextsOfSet(m, f, questions, ids)
    ensures step.Translate? && step.row.organisation == f.organisation
  {
    if step !in TextsOfQuestion(m, f, questions[0], ids[0]) {
      SetTextsAreTexts(m, f, questions[1..], ids[1..], step);
    }
  }

  lemma ProgrammeLeaves(c: Content, f: Flags, status: int, levelPoints: int, gradePoints: int, step: Step)
    requires c.number >= 0
    requires step in ProgrammeSteps(c, f, status, levelPoints, gradePoints) || step in ProgrammeTexts(c, f)
    ensures LeavesKept(f, step)
  {
    hide LevelId;
  }

  lemma StepLeavesKept(c: Content, f: Flags, db: Db, step: Step)
    requires Acceptable(c) && step in StepsFor(c, f, db)
    ensures LeavesKept(f, step)
  {
    hide HideSteps, ForEach, IsPlaced, LessonsOk, PlacedOf, GradePoints, LevelPoints, LevelStatus, LevelId, StepsFor,
         ProgrammeSteps, ProgrammeTexts, LeavesKept;
    AcceptableIsWellPlaced(c);
    var placed := PlacedOf(c);
    StepsForComeFrom(c, f, db, step);
    if step in HideSteps(c.number, placed) {
      HideLeaves(c.number, f, placed, step);
    } else if round: Round :| step in ForEach(round, c.number, f, placed) {
      var i := FromForEach(round, c.number, f, placed, step);
      RoundLeaves(round, c.number, f, placed[i], step);
    } else {
      var status, levelPoints := LevelStatus(db, c.number, f.live), LevelPoints(db, c.number, placed);
      ProgrammeLeaves(c, f, status, levelPoints, GradePoints(db, c.number, status, levelPoints), step);
    }
  }

  // ---- which rows a plan touches -----------------------------------------------------------------

  /** In the tables of the programme a plan touches three rows only. */
  lemma ProgrammeRowsTouched(c: Content, f: Flags, db: Db, step: Step, k: Key)
    requires Acceptable(c) && step in StepsFor(c, f, db) && Touches(step, RowTarget(k)) && k.table in PROGRAMME_TABLES
    ensures k in {Key(Curriculums, CURRICULUM), Key(Grades, GRADE), Key(Levels, LevelId(c.number))}
  {
    hide HideSteps, ForEach, IsPlaced, AskApart, AsksFrom, LessonsOk, PlacedOf, GradePoints, LevelPoints, LevelStatus,
         LevelId, StepsFor, AllRoundIds;
    AcceptableIsWellPlaced(c);
    var m, placed := c.number, PlacedOf(c);
    StepsForComeFrom(c, f, db, step);
    if step in HideSteps(m, placed) {
      HidesFit(m, placed);
      InZone(HideSteps(m, placed), ANY_ID, LESSON_TABLES + JOIN_TABLES + {Questions}, false, step, RowTarget(k));
    } else if round: Round :| step in ForEach(round, m, f, placed) {
      ForEachFits(round, m, f, placed);
      InZone(ForEach(round, m, f, placed), AllRoundIds(round, m, placed), RoundTables(round), RoundWritesTexts(round),
             step, RowTarget(k));
    }
  }

  lemma OtherLevelsStay(c: Content, f: Flags, stamp: string, holders: Placeholders, db: Db, k: Key)
    requires Accepted(c, f, stamp, holders, db) && k.table == Levels && k.id != LevelId(c.number)
    ensures k in Import(c, f, stamp, holders, db).value.0.rows <==> k in db.rows
    ensures k in db.rows ==> Import(c, f, stamp, holders, db).value.0.rows[k] == db.rows[k]
  {
    hide Import, StepsFor, Touches, Apply, LessonsOk;
    AcceptedRunIs(c, f, stamp, holders, db);
    forall step | step in StepsFor(c, f, db) ensures !Touches(step, RowTarget(k)) {
      if Touches(step, RowTarget(k)) {
        ProgrammeRowsTouched(c, f, db, step, k);
      }
    }
    UntouchedRow(WithLanguage(db, f.organisation), stamp, StepsFor(c, f, db), k);
  }

  lemma ProgrammeStepsAreIn(c: Content, f: Flags, db: Db, gradePoints: int)
    requires Acceptable(c) && ArePlaced(c.number, PlacedOf(c))
    ensures var status, levelPoints := LevelStatus(db, c.number, f.live), LevelPoints(db, c.number, PlacedOf(c));
            gradePoints == GradePoints(db, c.number, status, levelPoints) ==>
            forall step :: step in ProgrammeSteps(c, f, status, levelPoints, gradePoints) ==> step in StepsFor(c, f, db)
  {
    hide ProgrammeSteps, LessonsOk, PlacedOf, LevelPoints, LevelStatus, GradePoints, ArePlaced, StepsFor;
    var status, levelPoints := LevelStatus(db, c.number, f.live), LevelPoints(db, c.number, PlacedOf(c));
    if gradePoints == GradePoints(db, c.number, status, levelPoints) {
      forall step | step in ProgrammeSteps(c, f, status, levelPoints, gradePoints) ensures step in StepsFor(c, f, db) {
        StepsForComeFrom(c, f, db, step);
      }
    }
  }

  lemma RoundStepIsIn(round: Round, c: Content, f: Flags, db: Db, i: nat, step: Step)
    requires Acceptable(c) && ArePlaced(c.number, PlacedOf(c)) && i < |PlacedOf(c)| &&
             step in RoundSteps(round, c.number, f, PlacedOf(c)[i])
    ensures step in StepsFor(c, f, db)
  {
    hide RoundSteps, LessonsOk, PlacedOf, LevelPoints, LevelStatus, GradePoints, ArePlaced, StepsFor, ForEach;
    InForEach(round, c.number, f, PlacedOf(c), i, step);
    StepsForComeFrom(c, f, db, step);
  }

  /** The row an upsert of an accepted run leaves. */
  lemma RowAfter(c: Content, f: Flags, stamp: string, holders: Placeholders, db: Db, step: Step)
    requires Accepted(c, f, stamp, holders, db) && Acceptable(c) && step in StepsFor(c, f, db) && step.Upsert?
    ensures var after := Import(c, f, stamp, holders, db).value.0;
            step.key in after.rows &&
            after.rows[step.key] == if step.key in db.rows then db.rows[step.key] + Written(step.values, step.update)
                                    else step.values
  {
    hide Import, StepsFor, Apply, LessonsOk, Separate;
    AcceptedRunIs(c, f, stamp, holders, db);
    UpsertResult(WithLanguage(db, f.organisation), stamp, StepsFor(c, f, db), step);
  }

  // ---- the level's row, and the points -----------------------------------------------------------

  /** What the level's step writes into a row that is there, and what it leaves. */
  lemma LevelStepIs(c: Content, f: Flags, status: int, levelPoints: int, gradePoints: int)
    requires c.number >= 0
    ensures |ProgrammeSteps(c, f, status, levelPoints, gradePoints)| == 3
    ensures var step := ProgrammeSteps(c, f, status, levelPoints, gradePoints)[2];
            step.Upsert? && step.key == Key(Levels, LevelId(c.number)) && Sound(step) &&
            {PointsCol, DeletedCol} <= step.update && step.update !! {GradeCol, QuizPointsCol} &&
            (StatusCol in step.update <==> f.live.Some?) &&
            Cell(step.values, GradeCol) == Ref(GRADE) && Cell(step.values, StatusCol) == Int(status) &&
            Cell(step.values, PointsCol) == Int(levelPoints) && Cell(step.values, DeletedCol) == Int(0)
  {
    hide LevelId;
  }

  lemma OwnLevelAfter(c: Content, f: Flags, stamp: string, holders: Placeholders, db: Db)
    requires Accepted(c, f, stamp, holders, db)
    ensures var after, m := Import(c, f, stamp, holders, db).value.0, c.number;
            var k := Key(Levels, LevelId(m));
            m >= 0 && k in after.rows && (HasLevel(after, m) <==> HasLevel(db, m) || k !in db.rows) &&
            (k in db.rows ==> Cell(after.rows[k], QuizPointsCol) == Cell(db.rows[k], QuizPointsCol)) &&
            NumberIn(Cell(after.rows[k], StatusCol)) ==
            (if k in db.rows && f.live.None? then NumberIn(Cell(db.rows[k], StatusCol))
             else LevelStatus(db, m, f.live)) &&
            Cell(after.rows[k], PointsCol) == Int(LevelPoints(db, m, PlacedOf(c))) &&
            Cell(after.rows[k], DeletedCol) == Int(0)
  {
    hide Import, StepsFor, LessonsOk, LevelPoints, PlacedOf, LevelId, GradePoints, Separate, ProgrammeSteps, Cell,
         Written;
    AcceptedRunIs(c, f, stamp, holders, db);
    var m := c.number;
    var status, levelPoints := LevelStatus(db, m, f.live), LevelPoints(db, m, PlacedOf(c));
    var gradePoints := GradePoints(db, m, status, levelPoints);
    ProgrammeStepsAreIn(c, f, db, gradePoints);
    LevelStepIs(c, f, status, levelPoints, gradePoints);
    var step := ProgrammeSteps(c, f, status, levelPoints, gradePoints)[2];
    assert step in StepsFor(c, f, db);
    RowAfter(c, f, stamp, holders, db, step);
    if step.key in db.rows {
      forall col ensures Cell(db.rows[step.key] + Written(step.values, step.update), col) ==
                         if col in step.update then Cell(step.values, col) else Cell(db.rows[step.key], col) {
        CellWritten(db.rows[step.key], step.values, step.update, col);
      }
    }
  }

  /** The row of a named lesson after the run: its columns of points are kept, or written new with the lesson. */
  lemma LessonAfter(c: Content, f: Flags, stamp: string, holders: Placeholders, db: Db, i: nat)
    requires Accepted(c, f, stamp, holders, db) && Acceptable(c) && ArePlaced(c.number, PlacedOf(c)) &&
             i < |PlacedOf(c)|
    ensures var after, step := Import(c, f, stamp, holders, db).value.0, LessonStep(c.number, PlacedOf(c)[i]);
            step.key in after.rows && Cell(after.rows[step.key], NameCol) == Text(PlacedOf(c)[i].lesson.name.en) &&
            Cell(after.rows[step.key], DeletedCol) == Int(0) && Cell(after.rows[step.key], StatusCol) == Int(1) &&
            forall col :: col in KEPT_COLUMNS ==>
              Cell(after.rows[step.key], col) == if step.key in db.rows then Cell(db.rows[step.key], col)
                                                 else Cell(step.values, col)
  {
    hide Import, StepsFor, LessonsOk, PlacedOf, Separate, LevelId, SlotId, PassingPoints, LessonStep, Written, Cell;
    var p := PlacedOf(c)[i];
    var step := LessonStep(c.number, p);
    assert step in LessonSteps(c.number, f, p);
    RoundStepIsIn(LessonRows, c, f, db, i, step);
    LessonStepIs(c.number, p);
    RowAfter(c, f, stamp, holders, db, step);
    LessonStepsLeave(c.number, f, p, step);
    forall col
      ensures step.key in db.rows ==>
              Cell(db.rows[step.key] + Written(step.values, step.update), col) == if col in step.update
              then Cell(step.values, col) else Cell(db.rows[step.key], col)
    {
      if step.key in db.rows { CellWritten(db.rows[step.key], step.values, step.update, col); }
    }
  }

  lemma LessonStepIs(m: nat, p: Placed)
    requires IsPlaced(m, p)
    ensures var step := LessonStep(m, p);
            step.Upsert? && step.key == Key(Lessons, SlotId(m, p.slot, LessonPart)) &&
            NameCol in step.update && DeletedCol in step.update && StatusCol in step.update &&
            Cell(step.values, LevelCol) == Ref(LevelId(m)) &&
            Cell(step.values, TotalPointsCol) == Int(LESSON_TOTAL_POINTS) &&
            Cell(step.values, NameCol) == Text(p.lesson.name.en) && Cell(step.values, DeletedCol) == Int(0) &&
            Cell(step.values, StatusCol) == Int(1)
  {
  }

  lemma CellWritten(row: Columns, values: Columns, update: set<Column>, col: Column)
    requires update <= values.Keys
    ensures Cell(row + Written(values, update), col) == if col in update then Cell(values, col) else Cell(row, col)
  {
  }

  /** Level-quiz rows hang from a level that is there: the foreign key. */
  ghost predicate Consistent(db: Db) {
    forall id :: id in db.quizRows && db.quizRows[id] > 0 ==> Key(Levels, id) in db.rows
  }

  lemma RestAfter(c: Content, f: Flags, stamp: string, holders: Placeholders, db: Db)
    requires Accepted(c, f, stamp, holders, db)
    ensures Import(c, f, stamp, holders, db).value.0.quizRows == db.quizRows
    ensures var languages := Import(c, f, stamp, holders, db).value.0.languages;
            f.organisation in languages && languages[f.organisation].Some? &&
            Lower(languages[f.organisation].value) == BASE_LANGUAGE
  {
    hide StepsFor, LessonsOk, Separate, PlanContent, Apply, Tally;
    AcceptedRunIs(c, f, stamp, holders, db);
    ApplyKeepsTheRest(WithLanguage(db, f.organisation), stamp, StepsFor(c, f, db));
    PlanOrganisation(c, f, stamp, holders, db);
  }

  lemma PlanOrganisation(c: Content, f: Flags, stamp: string, holders: Placeholders, db: Db)
    requires PlanContent(c, f, stamp, holders, db).Ok?
    ensures PlanContent(c, f, stamp, holders, db).value.organisation == f.organisation
  {
    hide PlanSteps, PlacedOf, ArePlaced, WellPlaced, ChangesSome, RenamesSome, Needed, Owned, LevelPoints, GradePoints,
         LessonsOk;
  }

  lemma LessonIsWorthTheSame(c: Content, f: Flags, stamp: string, holders: Placeholders, db: Db, i: nat)
    requires Accepted(c, f, stamp, holders, db) && Acceptable(c) && i < |PlacedOf(c)|
    ensures var after, s := Import(c, f, stamp, holders, db).value.0, PlacedOf(c)[i].slot;
            LessonPoints(after, c.number, s) == LessonPoints(db, c.number, s)
  {
    hide Import, LessonsOk, PlacedOf, LevelId, SlotId, LessonStep, Cell, StepsFor, Separate, WellPlaced, Imported;
    AcceptedRunIs(c, f, stamp, holders, db);
    assert IsPlaced(c.number, PlacedOf(c)[i]);
    LessonStepIs(c.number, PlacedOf(c)[i]);
    LessonAfter(c, f, stamp, holders, db, i);
    assert TotalPointsCol in KEPT_COLUMNS;
  }

  lemma QuizIsWorthTheSame(c: Content, f: Flags, stamp: string, holders: Placeholders, db: Db)
    requires Accepted(c, f, stamp, holders, db) && Consistent(db)
    ensures c.number >= 0
    ensures LevelQuizPoints(Import(c, f, stamp, holders, db).value.0, c.number) == LevelQuizPoints(db, c.number)
  {
    hide Import, LevelId, Cell, LevelStatus, PlacedOf;
    OwnLevelAfter(c, f, stamp, holders, db);
    RestAfter(c, f, stamp, holders, db);
  }

  lemma LevelPointsAgain(c: Content, f: Flags, stamp: string, holders: Placeholders, db: Db)
    requires Accepted(c, f, stamp, holders, db) && Consistent(db) && Acceptable(c)
    ensures LevelPoints(Import(c, f, stamp, holders, db).value.0, c.number, PlacedOf(c)) ==
            LevelPoints(db, c.number, PlacedOf(c))
  {
    hide Import, StepsFor, LessonsOk, PlacedOf, Separate, LessonPoints, LevelQuizPoints;
    AcceptedRunIs(c, f, stamp, holders, db);
    var after, m, placed := Import(c, f, stamp, holders, db).value.0, c.number, PlacedOf(c);
    forall i | 0 <= i < |placed| ensures LessonPoints(after, m, placed[i].slot) == LessonPoints(db, m, placed[i].slot) {
      LessonIsWorthTheSame(c, f, stamp, holders, db, i);
    }
    assert LessonPointsOf(after, m, placed) == LessonPointsOf(db, m, placed);
    QuizIsWorthTheSame(c, f, stamp, holders, db);
  }

  lemma GradePointsAgain(c: Content, f: Flags, stamp: string, holders: Placeholders, db: Db, status: int,
                         levelPoints: int)
    requires Accepted(c, f, stamp, holders, db) && Acceptable(c)
    ensures GradePoints(Import(c, f, stamp, holders, db).value.0, c.number, status, levelPoints) ==
            GradePoints(db, c.number, status, levelPoints)
  {
    hide Import, LessonsOk, LevelId, Cell;
    var after, m := Import(c, f, stamp, holders, db).value.0, c.number;
    forall k: Key | k.table == Levels && k.id != LevelId(m)
      ensures (k in after.rows <==> k in db.rows) && (k in db.rows ==> after.rows[k] == db.rows[k])
    {
      OtherLevelsStay(c, f, stamp, holders, db, k);
    }
    assert SiblingPoints(after, m) == SiblingPoints(db, m);
  }

  /** Against the database a run left, the same file and flags give the very same steps. */
  lemma SameStepsAgain(c: Content, f: Flags, stamp: string, holders: Placeholders, db: Db)
    requires Accepted(c, f, stamp, holders, db) && Consistent(db) && Acceptable(c)
    ensures StepsFor(c, f, Import(c, f, stamp, holders, db).value.0) == StepsFor(c, f, db)
    ensures !BadSwitch(Import(c, f, stamp, holders, db).value.0, c.number, f.live)
  {
    hide Import, LessonsOk, LevelId, PlanSteps, PlacedOf, LevelPoints, GradePoints, Cell, Separate;
    var after, m := Import(c, f, stamp, holders, db).value.0, c.number;
    FlagsWereGood(c, f, stamp, holders, db);
    OwnLevelAfter(c, f, stamp, holders, db);
    LevelPointsAgain(c, f, stamp, holders, db);
    GradePointsAgain(c, f, stamp, holders, db, LevelStatus(db, m, f.live), LevelPoints(db, m, PlacedOf(c)));
    assert LevelStatus(after, m, f.live) == LevelStatus(db, m, f.live);
  }

  lemma FlagsWereGood(c: Content, f: Flags, stamp: string, holders: Placeholders, db: Db)
    requires Accepted(c, f, stamp, holders, db)
    ensures Acceptable(c) && ArePlaced(c.number, PlacedOf(c)) && IsText(f.organisation) &&
            !BadSwitch(db, c.number, f.live)
    ensures (f.rename || !RenamesSome(db, c)) && !ChangesSome(db, holders, c.number, PlacedOf(c))
    ensures Preflight(db, PlanContent(c, f, stamp, holders, db).value).None?
  {
    hide PlanSteps, PlacedOf, ChangesSome, RenamesSome, Needed, Owned, LevelPoints, GradePoints, LessonsOk, IsPlaced,
         IsText, Preflight, ApplyPlan;
    if Acceptable(c) { AcceptableIsWellPlaced(c); }
  }

  // ---- the second run is not refused -------------------------------------------------------------

  lemma NamedIsPlaced(c: Content, l: Lesson) returns (i: nat)
    requires Acceptable(c) && l in c.lessons
    ensures i < |PlacedOf(c)| && PlacedOf(c)[i].lesson == l && PlacedOf(c)[i].slot == SlotOf(l)
  {
    var list := ByOrder(c.lessons);
    assert l in multiset(list);
    i :| 0 <= i < |list| && list[i] == l;
  }

  lemma NoRenameAgain(c: Content, f: Flags, stamp: string, holders: Placeholders, db: Db)
    requires Accepted(c, f, stamp, holders, db) && Acceptable(c)
    ensures !RenamesSome(Import(c, f, stamp, holders, db).value.0, c)
  {
    hide Import, LessonsOk, PlacedOf, StepsFor, Separate, SlotId;
    AcceptedRunIs(c, f, stamp, holders, db);
    forall l | l in c.lessons ensures !RenamesLesson(Import(c, f, stamp, holders, db).value.0, c.number, l) {
      var i := NamedIsPlaced(c, l);
      LessonAfter(c, f, stamp, holders, db, i);
      assert IsPlaced(c.number, PlacedOf(c)[i]);
    }
  }

  lemma QuestionAfter(c: Content, f: Flags, stamp: string, holders: Placeholders, db: Db, i: nat, kind: Kind,
                      q: Question, id: Id)
    requires Accepted(c, f, stamp, holders, db) && Acceptable(c) && ArePlaced(c.number, PlacedOf(c)) &&
             i < |PlacedOf(c)|
    requires QuestionStep(f, q, id) in RoundSteps(QuestionRows, c.number, f, PlacedOf(c)[i])
    ensures var after := Import(c, f, stamp, holders, db).value.0;
            Key(Questions, id) in after.rows &&
            Cell(after.rows[Key(Questions, id)], OptionsCol) == Options(StoredOptions(id, q.choices))
  {
    hide Import, StepsFor, LessonsOk, PlacedOf, Separate, RoundSteps, QuestionStep, Written, Cell, StoredOptions;
    var step := QuestionStep(f, q, id);
    QuestionStepIs(f, q, id);
    RoundStepIsIn(QuestionRows, c, f, db, i, step);
    RowAfter(c, f, stamp, holders, db, step);
    if step.key in db.rows { CellWritten(db.rows[step.key], step.values, step.update, OptionsCol); }
  }

  lemma QuestionStepIs(f: Flags, q: Question, id: Id)
    ensures var step := QuestionStep(f, q, id);
            step.Upsert? && step.key == Key(Questions, id) && OptionsCol in step.update &&
            Cell(step.values, OptionsCol) == Options(StoredOptions(id, q.choices)) && Sound(step)
  {
  }

  lemma JoinAfter(c: Content, f: Flags, stamp: string, holders: Placeholders, db: Db, i: nat, kind: Kind, j: nat)
    requires Accepted(c, f, stamp, holders, db) && Acceptable(c) && ArePlaced(c.number, PlacedOf(c)) &&
             i < |PlacedOf(c)|
    requires j < |IdsOfKind(PlacedOf(c)[i], kind)|
    ensures InSet(Import(c, f, stamp, holders, db).value.0, kind, IdsOfKind(PlacedOf(c)[i], kind)[j])
  {
    hide Import, StepsFor, LessonsOk, PlacedOf, Separate, SlotId;
    var p, m := PlacedOf(c)[i], c.number;
    assert IsPlaced(m, p);
    var step := JoinStep(m, p.slot, kind, j + 1, IdsOfKind(p, kind)[j]);
    assert step == JoinSteps(m, p.slot, kind, IdsOfKind(p, kind))[j];
    assert step in RoundSteps(JoinRows, m, f, p);
    RoundStepIsIn(JoinRows, c, f, db, i, step);
    RowAfter(c, f, stamp, holders, db, step);
    assert IsActiveJoin(Import(c, f, stamp, holders, db).value.0.rows[step.key], IdsOfKind(p, kind)[j]);
  }

  function SetOf(p: Placed, kind: Kind): seq<Question> {
    if kind == Practice then p.lesson.practice else p.lesson.quiz
  }

  lemma SetKeepsMeaning(c: Content, f: Flags, stamp: string, holders: Placeholders, db: Db, i: nat, kind: Kind)
    requires Accepted(c, f, stamp, holders, db) && Acceptable(c) && ArePlaced(c.number, PlacedOf(c)) &&
             i < |PlacedOf(c)|
    requires IsPlaced(c.number, PlacedOf(c)[i])
    ensures !ChangesSet(Import(c, f, stamp, holders, db).value.0, holders, kind, SetOf(PlacedOf(c)[i], kind),
                        IdsOfKind(PlacedOf(c)[i], kind))
  {
    hide Import, StepsFor, LessonsOk, PlacedOf, Separate, QuestionStep, InSet;
    var after, p := Import(c, f, stamp, holders, db).value.0, PlacedOf(c)[i];
    var questions, ids := SetOf(p, kind), IdsOfKind(p, kind);
    forall j | 0 <= j < |ids| ensures !AltersQuestion(after, holders, kind, questions[j], ids[j]) {
      assert QuestionStep(f, questions[j], ids[j]) == QuestionSteps(f, questions, ids)[j];
      QuestionAfter(c, f, stamp, holders, db, i, kind, questions[j], ids[j]);
      JoinAfter(c, f, stamp, holders, db, i, kind, j);
      assert StoredFlags(StoredOptions(ids[j], questions[j].choices)) == FileFlags(questions[j].choices);
    }
  }

  lemma ReachDependsOnKept(row: Columns, row': Columns, l: Lesson)
    requires forall col :: col in KEPT_COLUMNS ==> Cell(row, col) == Cell(row', col)
    ensures OutOfReach(row, l) == OutOfReach(row', l)
  {
    hide Cell;
    assert TotalPointsCol in KEPT_COLUMNS && PassingPointsCol in KEPT_COLUMNS && LearningPointsCol in KEPT_COLUMNS &&
           QuizzesPointsCol in KEPT_COLUMNS && PracticesPointsCol in KEPT_COLUMNS;
  }

  /** A lesson written new can be passed: its mark is 80, or all there is to reach. */
  lemma NewLessonIsInReach(m: nat, p: Placed)
    requires IsPlaced(m, p)
    ensures !OutOfReach(LessonStep(m, p).values, p.lesson)
  {
  }

  lemma AcceptedIsInReach(c: Content, f: Flags, stamp: string, holders: Placeholders, db: Db, i: nat)
    requires Accepted(c, f, stamp, holders, db) && Acceptable(c) && i < |PlacedOf(c)|
    ensures var row := RowOf(db, Lessons, LessonId(c.number, PlacedOf(c)[i].slot));
            row.Some? ==> !OutOfReach(row.value, PlacedOf(c)[i].lesson)
    ensures IsPlaced(c.number, PlacedOf(c)[i])
  {
    hide Import, LessonsOk, PlacedOf, IsPlaced, SlotId, ChangesSet, OutOfReach, RowOf;
    FlagsWereGood(c, f, stamp, holders, db);
    assert !ChangesLesson(db, holders, c.number, PlacedOf(c)[i]);
  }

  /** After an accepted run every lesson it names that has a finite pass mark can still reach it. */
  lemma NamedLessonsCanBePassed(c: Content, f: Flags, stamp: string, holders: Placeholders, db: Db, i: nat)
    requires Accepted(c, f, stamp, holders, db) && Acceptable(c) && i < |PlacedOf(c)|
    ensures var row := RowOf(Import(c, f, stamp, holders, db).value.0, Lessons,
                             LessonId(c.number, PlacedOf(c)[i].slot));
            row.Some? && !OutOfReach(row.value, PlacedOf(c)[i].lesson)
  {
    hide Import, LessonsOk, PlacedOf, SlotId, OutOfReach, Cell, PassingPoints, LevelId, WellPlaced, Separate, StepsFor;
    AcceptedRunIs(c, f, stamp, holders, db);
    AcceptedIsInReach(c, f, stamp, holders, db, i);
    LessonAfter(c, f, stamp, holders, db, i);
    var p, k := PlacedOf(c)[i], LessonStep(c.number, PlacedOf(c)[i]).key;
    var after := Import(c, f, stamp, holders, db).value.0;
    ReachedAsBefore(c.number, p, db, after, k);
  }

  /** The lesson's row has kept what its reach depends on, or is as it was written new. */
  lemma ReachedAsBefore(m: nat, p: Placed, db: Db, after: Db, k: Key)
    requires IsPlaced(m, p) && k == LessonStep(m, p).key && k in after.rows
    requires forall col :: col in KEPT_COLUMNS ==>
               Cell(after.rows[k], col) == if k in db.rows then Cell(db.rows[k], col)
                                           else Cell(LessonStep(m, p).values, col)
    requires k in db.rows ==> !OutOfReach(db.rows[k], p.lesson)
    ensures !OutOfReach(after.rows[k], p.lesson)
  {
    hide Cell, OutOfReach, SlotId, LevelId, PassingPoints;
    if k in db.rows {
      ReachDependsOnKept(after.rows[k], db.rows[k], p.lesson);
    } else {
      NewLessonIsInReach(m, p);
      ReachDependsOnKept(after.rows[k], LessonStep(m, p).values, p.lesson);
    }
  }

  /**
   The plan is made against what was read, and written later. A lesson it names is out of reach afterwards exactly when
   its row was there by then and was out of reach, whatever the plan had read.
   */
  lemma RowsThatAppearDecideThePassMark(c: Content, f: Flags, stamp: string, db: Db, later: Db, i: nat)
    requires Acceptable(c) && i < |PlacedOf(c)|
    ensures var k := Key(Lessons, LessonId(c.number, PlacedOf(c)[i].slot));
            var after := Apply(later, stamp, StepsFor(c, f, db));
            k in after.rows && (OutOfReach(after.rows[k], PlacedOf(c)[i].lesson) <==>
                                k in later.rows && OutOfReach(later.rows[k], PlacedOf(c)[i].lesson))
  {
    hide Apply, LessonsOk, PlacedOf, SlotId, OutOfReach, Cell, PassingPoints, LevelId, Separate, LevelPoints,
         LevelStatus, GradePoints, Written;
    var m, p := c.number, PlacedOf(c)[i];
    AcceptableIsWellPlaced(c);
    assert IsPlaced(m, p);
    PlanTouchesDifferentRows(c, f, LevelStatus(db, m, f.live), LevelPoints(db, m, PlacedOf(c)),
                             GradePoints(db, m, LevelStatus(db, m, f.live), LevelPoints(db, m, PlacedOf(c))));
    var step, steps := LessonStep(m, p), StepsFor(c, f, db);
    assert step in LessonSteps(m, f, p);
    RoundStepIsIn(LessonRows, c, f, db, i, step);
    UpsertResult(later, stamp, steps, step);
    var row := Apply(later, stamp, steps).rows[step.key];
    if step.key in later.rows {
      forall col | col in KEPT_COLUMNS ensures Cell(row, col) == Cell(later.rows[step.key], col) {
        forall s | s in steps ensures Leaves(s, col) { StepLeavesKept(c, f, db, s); }
        ApplyKeepsColumn(later, stamp, steps, step.key, col);
      }
      ReachDependsOnKept(row, later.rows[step.key], p.lesson);
    } else {
      NewLessonIsInReach(m, p);
    }
  }

  lemma NoChangeAgain(c: Content, f: Flags, stamp: string, holders: Placeholders, db: Db)
    requires Accepted(c, f, stamp, holders, db) && Acceptable(c) && ArePlaced(c.number, PlacedOf(c))
    ensures !ChangesSome(Import(c, f, stamp, holders, db).value.0, holders, c.number, PlacedOf(c))
  {
    hide Import, StepsFor, LessonsOk, PlacedOf, Separate, SlotId, ChangesSet, OutOfReach;
    var after, m, placed := Import(c, f, stamp, holders, db).value.0, c.number, PlacedOf(c);
    forall i | 0 <= i < |placed| ensures !ChangesLesson(after, holders, m, placed[i]) {
      assert IsPlaced(m, placed[i]);
      SetKeepsMeaning(c, f, stamp, holders, db, i, Practice);
      SetKeepsMeaning(c, f, stamp, holders, db, i, Quiz);
      NamedLessonsCanBePassed(c, f, stamp, holders, db, i);
    }
  }

  // ---- the rows a run hangs from -----------------------------------------------------------------

  lemma OwnersAfter(c: Content, f: Flags, stamp: string, holders: Placeholders, db: Db, k: Key)
    requires Accepted(c, f, stamp, holders, db) && Acceptable(c) && !IsForeign(db, f.organisation, k)
    ensures !IsForeign(Import(c, f, stamp, holders, db).value.0, f.organisation, k)
  {
    hide Import, StepsFor, LessonsOk, PlacedOf, Separate, Apply, Cell;
    AcceptedRunIs(c, f, stamp, holders, db);
    var start, steps := WithLanguage(db, f.organisation), StepsFor(c, f, db);
    forall step | step in steps ensures Leaves(step, OrganisationCol) {
      StepLeavesKept(c, f, db, step);
      assert OrganisationCol in KEPT_COLUMNS;
    }
    if k in db.rows {
      ApplyKeepsColumn(start, stamp, steps, k, OrganisationCol);
    } else if k in Imported(c, f, stamp, db).rows {
      var step := NewRowComesFrom(start, stamp, steps, k, OrganisationCol);
      StepLeavesKept(c, f, db, step);
    }
  }

  lemma RowsStay(c: Content, f: Flags, stamp: string, holders: Placeholders, db: Db, k: Key)
    requires Accepted(c, f, stamp, holders, db) && Acceptable(c) && k in db.rows
    ensures k in Import(c, f, stamp, holders, db).value.0.rows
  {
    hide Import, StepsFor, LessonsOk, PlacedOf, Separate, Apply, Cell;
    AcceptedRunIs(c, f, stamp, holders, db);
    forall step | step in StepsFor(c, f, db) ensures Leaves(step, OrganisationCol) {
      StepLeavesKept(c, f, db, step);
      assert OrganisationCol in KEPT_COLUMNS;
    }
    ApplyKeepsColumn(WithLanguage(db, f.organisation), stamp, StepsFor(c, f, db), k, OrganisationCol);
  }

  lemma {:induction false} PartsAreRoundIds(m: nat, placed: seq<Placed>, i: nat, part: Part)
    requires ArePlaced(m, placed) && i < |placed| && part in {LessonPart, DocPart, LearningPart, PracticePart, QuizPart}
    ensures SlotId(m, placed[i].slot, part) in AllRoundIds(LessonRows, m, placed)
  {
    hide SlotId;
    if i > 0 { PartsAreRoundIds(m, placed[1..], i - 1, part); }
  }

  lemma KeptVideoStepIsOwn(m: nat, f: Flags, p: Placed, q: Placed, step: Step)
    requires IsPlaced(m, p) && IsPlaced(m, q) && q.lesson.video.Keep? && step in LessonSteps(m, f, p) &&
             (p.slot == q.slot ==> p == q)
    ensures !Touches(step, RowTarget(Key(Documents, SlotId(m, q.slot, DocPart))))
  {
    hide SlotId, LevelId, PassingPoints;
    SlotIdsAreDistinct(m, p.slot, DocPart, m, q.slot, DocPart);
  }

  /** No step of a plan touches the document of a video that is kept. */
  lemma KeptVideoIsNotTouched(c: Content, f: Flags, db: Db, i: nat, step: Step)
    requires Acceptable(c) && step in StepsFor(c, f, db) && i < |PlacedOf(c)| && PlacedOf(c)[i].lesson.video.Keep? &&
             IsSlot(c.number, PlacedOf(c)[i].slot)
    ensures !Touches(step, RowTarget(Key(Documents, SlotId(c.number, PlacedOf(c)[i].slot, DocPart))))
  {
    hide HideSteps, ForEach, AskApart, AsksFrom, LessonsOk, PlacedOf, GradePoints, LevelPoints, LevelStatus, LevelId,
         StepsFor, AllRoundIds, SlotId, Touches, LessonSteps, IsPlaced;
    AcceptableIsWellPlaced(c);
    var m, placed := c.number, PlacedOf(c);
    var t := RowTarget(Key(Documents, SlotId(m, placed[i].slot, DocPart)));
    StepsForComeFrom(c, f, db, step);
    if Touches(step, t) {
      if step in HideSteps(m, placed) {
        HideLeavesVideo(m, placed, i, step);
      } else if round: Round :| step in ForEach(round, m, f, placed) {
        ForEachFits(round, m, f, placed);
        InZone(ForEach(round, m, f, placed), AllRoundIds(round, m, placed), RoundTables(round),
               RoundWritesTexts(round), step, t);
        assert round == LessonRows;
        var j := FromForEach(round, m, f, placed, step);
        KeptVideoStepIsOwn(m, f, placed[j], placed[i], step);
      } else {
        ProgrammeTouchesNoVideo(c, f, db, step, t);
      }
    }
  }

  lemma ProgrammeTouchesNoVideo(c: Content, f: Flags, db: Db, step: Step, t: Target)
    requires c.number >= 0 && ArePlaced(c.number, PlacedOf(c)) && t.RowTarget? && t.key.table == Documents
    requires var status, levelPoints := LevelStatus(db, c.number, f.live), LevelPoints(db, c.number, PlacedOf(c));
             step in ProgrammeSteps(c, f, status, levelPoints, GradePoints(db, c.number, status, levelPoints)) ||
             step in ProgrammeTexts(c, f)
    ensures !Touches(step, t)
  {
    hide PlacedOf, GradePoints, LevelPoints, LevelStatus, LevelId, ArePlaced;
  }

  lemma HideLeavesVideo(m: nat, placed: seq<Placed>, i: nat, step: Step)
    requires WellPlaced(m, placed) && i < |placed| && step in HideSteps(m, placed) && IsSlot(m, placed[i].slot)
    ensures !Touches(step, RowTarget(Key(Documents, SlotId(m, placed[i].slot, DocPart))))
  {
    hide HideLessons, HideJoins, HideStep, AllRoundIds, SlotId, Touches, IsPlaced, QuestionIds, Assigned, Named,
         AskApart, AsksFrom, Within;
    var t := RowTarget(Key(Documents, SlotId(m, placed[i].slot, DocPart)));
    if Touches(step, t) {
      PartsAreRoundIds(m, placed, i, DocPart);
      HideLessonsFit(m, placed);
      HideJoinsFit(m, placed);
      HideQuestionsFit(m, placed);
      if step in HideLessons(m, Named(placed)) {
        InZone(HideLessons(m, Named(placed)), Others(LessonRows, m, placed), LESSON_TABLES, false, step, t);
      } else if step in HideJoins(m, placed) {
        InZone(HideJoins(m, placed), Others(JoinRows, m, placed), JOIN_TABLES, false, step, t);
      } else {
        InZone(HideStep(Questions, QuestionIds(m) - Assigned(placed), DeletedCol, Int(1)),
               Others(QuestionRows, m, placed), {Questions}, false, step, t);
      }
    }
  }

  lemma {:induction false} KeptVideoIsNamed(m: nat, placed: seq<Placed>, r: Requirement) returns (i: nat)
    requires ArePlaced(m, placed) && r in KeptVideos(m, placed)
    ensures i < |placed| && placed[i].lesson.video.Keep? && IsSlot(m, placed[i].slot) &&
            r.key == Key(Documents, SlotId(m, placed[i].slot, DocPart))
  {
    hide SlotId;
    if r in KeptVideos(m, placed[1..]) {
      var j := KeptVideoIsNamed(m, placed[1..], r);
      i := j + 1;
    } else {
      i := 0;
    }
  }

  lemma NothingMissingAgain(c: Content, f: Flags, stamp: string, holders: Placeholders, db: Db, r: Requirement)
    requires Accepted(c, f, stamp, holders, db) && Acceptable(c) && ArePlaced(c.number, PlacedOf(c)) &&
             r in Needed(c.number, PlacedOf(c)) && !Missing(db, r)
    ensures !Missing(Import(c, f, stamp, holders, db).value.0, r)
  {
    hide Import, StepsFor, LessonsOk, PlacedOf, Separate, SlotId, ArePlaced, KeptVideos, Touches;
    RowsStay(c, f, stamp, holders, db, r.key);
    if r in KeptVideos(c.number, PlacedOf(c)) {
      var i := KeptVideoIsNamed(c.number, PlacedOf(c), r);
      AcceptedRunIs(c, f, stamp, holders, db);
      forall step | step in StepsFor(c, f, db) ensures !Touches(step, RowTarget(r.key)) {
        KeptVideoIsNotTouched(c, f, db, i, step);
      }
      UntouchedRow(WithLanguage(db, f.organisation), stamp, StepsFor(c, f, db), r.key);
    }
  }

  lemma PlanIs(c: Content, f: Flags, stamp: string, holders: Placeholders, db: Db)
    requires Acceptable(c) && ArePlaced(c.number, PlacedOf(c)) && IsText(f.organisation) &&
             !BadSwitch(db, c.number, f.live)
    requires (f.rename || !RenamesSome(db, c)) && !ChangesSome(db, holders, c.number, PlacedOf(c))
    ensures PlanContent(c, f, stamp, holders, db) ==
            Ok(Plan(f.organisation, stamp, StepsFor(c, f, db), Needed(c.number, PlacedOf(c)),
                    Owned(c.number, PlacedOf(c))))
  {
    hide PlanSteps, PlacedOf, ArePlaced, ChangesSome, RenamesSome, Needed, Owned, LevelPoints, GradePoints,
         LevelStatus, LessonsOk, IsText, BadSwitch;
  }

  lemma PreflightPasses(db: Db, plan: Plan)
    ensures Preflight(db, plan).None? <==>
            LanguageRefusal(db, plan.organisation).None? && (forall r :: r in plan.needed ==> !Missing(db, r)) &&
            forall k :: k in plan.owned ==> !IsForeign(db, plan.organisation, k)
  {
    hide Missing, IsForeign, LanguageRefusal;
  }

  lemma PreflightAgain(c: Content, f: Flags, stamp: string, holders: Placeholders, db: Db, plan: Plan)
    requires Accepted(c, f, stamp, holders, db) && Acceptable(c) && ArePlaced(c.number, PlacedOf(c))
    requires plan.organisation == f.organisation && plan.needed == Needed(c.number, PlacedOf(c)) &&
             plan.owned == Owned(c.number, PlacedOf(c))
    ensures Preflight(Import(c, f, stamp, holders, db).value.0, plan).None?
  {
    hide Import, StepsFor, LessonsOk, PlacedOf, ArePlaced, Needed, Owned, Missing, IsForeign, BadSwitch, IsText,
         RenamesSome, ChangesSome, Acceptable, Preflight, PlanContent;
    FlagsWereGood(c, f, stamp, holders, db);
    PlanIs(c, f, stamp, holders, db);
    RestAfter(c, f, stamp, holders, db);
    var after := Import(c, f, stamp, holders, db).value.0;
    PreflightPasses(db, PlanContent(c, f, stamp, holders, db).value);
    forall r | r in plan.needed ensures !Missing(after, r) {
      NothingMissingAgain(c, f, stamp, holders, db, r);
    }
    forall k | k in plan.owned ensures !IsForeign(after, f.organisation, k) {
      OwnersAfter(c, f, stamp, holders, db, k);
    }
    PreflightPasses(after, plan);
  }

  lemma AcceptedIsVerified(c: Content, f: Flags, stamp: string, holders: Placeholders, db: Db)
    requires Accepted(c, f, stamp, holders, db) && Acceptable(c)
    ensures forall step :: step in StepsFor(c, f, db) ==> Verified(Import(c, f, stamp, holders, db).value.0, step)
  {
    hide StepsFor, LessonsOk, PlacedOf, ArePlaced, Needed, Owned, BadSwitch, IsText, RenamesSome, ChangesSome,
         PlanContent, Preflight, Verified, Apply, Tally;
    FlagsWereGood(c, f, stamp, holders, db);
    PlanIs(c, f, stamp, holders, db);
  }

  /**
   The import is a fixpoint: after an accepted run, the same file with the same flags is accepted again at any later
   time, its check cannot fail, and it inserts, updates and hides nothing in any table.
   */
  lemma ImportIsAFixpoint(c: Content, f: Flags, stamp: string, stamp': string, holders: Placeholders, db: Db)
    requires Accepted(c, f, stamp, holders, db) && Consistent(db)
    ensures var after := Import(c, f, stamp, holders, db).value.0;
            var again := Import(c, f, stamp', holders, after);
            again.Ok? && again.value.0 == after && Quiet(again.value.1)
  {
    hide StepsFor, LessonsOk, PlacedOf, ArePlaced, Needed, Owned, BadSwitch, IsText, RenamesSome, ChangesSome,
         Preflight, Verified, Apply, Tally, PlanContent, Holds, Separate;
    AcceptedRunIs(c, f, stamp, holders, db);
    FlagsWereGood(c, f, stamp, holders, db);
    var after := Import(c, f, stamp, holders, db).value.0;
    SameStepsAgain(c, f, stamp, holders, db);
    NoRenameAgain(c, f, stamp, holders, db);
    NoChangeAgain(c, f, stamp, holders, db);
    PlanIs(c, f, stamp', holders, after);
    PreflightAgain(c, f, stamp, holders, db, PlanContent(c, f, stamp', holders, after).value);
    RestAfter(c, f, stamp, holders, db);
    ApplyMakesEachHold(WithLanguage(db, f.organisation), stamp, StepsFor(c, f, db));
    HoldingStepsChangeNothing(after, stamp', StepsFor(c, f, db), LanguageCount(after, f.organisation));
    AcceptedIsVerified(c, f, stamp, holders, db);
  }
}
