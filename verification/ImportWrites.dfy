/**
 The rows an import writes: after an accepted run every row of the file holds the file's own values, column by column.
 */
module ImportWrites {
  import opened Values
  import opened ImportSlots
  import opened ImportContent
  import opened ImportSteps
  import opened ImportPlan
  import opened ImportRows
  import opened ImportRun
  import opened ImportLaws
  import opened ImportSequence
  import opened ImportFile

  /** The row was there before, and of it these columns alone were written. */
  ghost predicate Keeps(was: Option<Columns>, row: Columns, written: set<Column>) {
    was.Some? ==> forall col :: col !in written ==> Cell(row, col) == Cell(was.value, col)
  }

  ghost function RowAt(db: Db, table: Table, id: Id): Option<Columns> {
    if Key(table, id) in db.rows then Some(db.rows[Key(table, id)]) else None
  }

  function On(some: bool): Val {
    Int(if some then 1 else 0)
  }

  // ---- what each row holds -----------------------------------------------------------------------

  /** The curriculum is named as the programme; Module 1 also clears and shows it. A new one is the organisation's. */
  ghost predicate IsCurriculumRow(c: Content, f: Flags, was: Option<Columns>, row: Columns) {
    Cell(row, NameCol) == Text(c.programme.en) &&
    Keeps(was, row, if c.number == 1 then {NameCol, DescriptionCol, StatusCol, DeletedCol} else {NameCol}) &&
    (c.number == 1 || was.None? ==>
       Cell(row, DescriptionCol) == Text("") && Cell(row, StatusCol) == Int(1) && Cell(row, DeletedCol) == Int(0)) &&
    (was.None? ==> Cell(row, SubjectCol) == Ref(SUBJECT) && Cell(row, OrganisationCol) == Text(f.organisation))
  }

  ghost predicate IsGradeRow(c: Content, was: Option<Columns>, row: Columns) {
    Cell(row, NameCol) == Text(c.programme.en) &&
    Keeps(was, row, if c.number == 1 then {NameCol, DescriptionCol, StatusCol, DeletedCol, PointsCol}
                    else {NameCol, PointsCol}) &&
    (c.number == 1 || was.None? ==>
       Cell(row, DescriptionCol) == Text("") && Cell(row, StatusCol) == Int(1) && Cell(row, DeletedCol) == Int(0)) &&
    (was.None? ==>
       Cell(row, CurriculumCol) == Ref(CURRICULUM) && Cell(row, OrderCol) == Int(1) &&
       Cell(row, PassingPointsCol) == Int(80))
  }

  /**
   The level is named as the module, shown as the switch says; a later module's has the module's number as its order.
   */
  ghost predicate IsLevelRow(c: Content, f: Flags, was: Option<Columns>, row: Columns) {
    Cell(row, NameCol) == Text(c.moduleName.en) && Cell(row, DescriptionCol) == Text("") &&
    Cell(row, DeletedCol) == Int(0) &&
    (f.live.Some? ==> Cell(row, StatusCol) == On(f.live.value)) &&
    (c.number != 1 || was.None? ==> Cell(row, OrderCol) == Int(c.number)) &&
    Keeps(was, row, {NameCol, DescriptionCol, PointsCol, DeletedCol} + (if f.live.Some? then {StatusCol} else {}) +
                    (if c.number != 1 then {OrderCol} else {})) &&
    (was.None? ==>
       Cell(row, GradeCol) == Ref(GRADE) && Cell(row, PassingPointsCol) == Int(80) &&
       Cell(row, QuizPointsCol) == Int(20))
  }

  /** The mark of a new lesson: 80, or all a learner can reach. */
  function NewMark(l: Lesson): int {
    var reach := 20 + (if l.practice != [] then 40 else 0) + (if l.quiz != [] then 40 else 0);
    if reach < 80 then reach else 80
  }

  ghost predicate IsLessonRow(m: nat, l: Lesson, was: Option<Columns>, row: Columns) {
    Cell(row, NameCol) == Text(l.name.en) && Cell(row, DescriptionCol) == Text("") &&
    Cell(row, OrderCol) == Int(l.order) &&
    Cell(row, StatusCol) == Int(1) && Cell(row, DeletedCol) == Int(0) &&
    Keeps(was, row, {NameCol, DescriptionCol, OrderCol, StatusCol, DeletedCol}) &&
    (was.None? ==>
       Cell(row, LevelCol) == Ref(LevelId(m)) && Cell(row, PracticeCountCol) == On(l.practice != []) &&
       Cell(row, QuizCountCol) == On(l.quiz != []) && Cell(row, PassPercentageCol) == Int(80) &&
       Cell(row, TotalPointsCol) == Int(100) && Cell(row, PassingPointsCol) == Int(NewMark(l)) &&
       Cell(row, LearningPointsCol) == Int(20) && Cell(row, QuizzesPointsCol) == Int(40) &&
       Cell(row, PracticesPointsCol) == Int(40))
  }

  /** The document of a video with a file; a kept video's is left alone. */
  ghost predicate IsVideoRow(f: Flags, filename: string, was: Option<Columns>, row: Columns) {
    Cell(row, NameCol) == Text(filename) && Cell(row, MetaCol) == Text("{\"seeded\":true,\"media\":\"folder\"}") &&
    Cell(row, DeletedCol) == Int(0) && Keeps(was, row, {NameCol, MetaCol, DeletedCol}) &&
    (was.None? ==>
       Cell(row, DocTypeCol) == Int(2) && Cell(row, TagsCol) == Text("[\"dcrs\"]") &&
       Cell(row, OrganisationCol) == Text(f.organisation))
  }

  /** A learning item, a practice or a quiz has its lesson's name and is shown when there is something in it. */
  ghost predicate IsItemRow(l: Lesson, lesson: Id, shown: bool, points: int, was: Option<Columns>, row: Columns) {
    Cell(row, NameCol) == Text(l.name.en) && Cell(row, DescriptionCol) == Text("") &&
    Cell(row, StatusCol) == On(shown) &&
    Keeps(was, row, {NameCol, DescriptionCol, StatusCol}) &&
    (was.None? ==>
       Cell(row, LessonCol) == Ref(lesson) && Cell(row, OrderCol) == Int(1) && Cell(row, PointsCol) == Int(points))
  }

  /** The options as they are stored: each with its text and flag, in the file's order, under the question's id. */
  ghost predicate AreOptions(q: Question, id: Id, list: seq<StoredOption>) {
    |list| == |q.choices| &&
    forall i :: 0 <= i < |list| ==>
      list[i].text == q.choices[i].text.en && list[i].correct == q.choices[i].correct && list[i].sequence == i + 1 &&
      list[i].id == OptionKey(id, i + 1)
  }

  ghost predicate IsMessage(stored: Option<string>, m: Option<Bilingual>) {
    match m case Some(text) => stored == Some(text.en) case None => stored == None
  }

  /** What a question asks: its text, heading and identifier, its options, its messages. */
  ghost predicate AsksTheFiles(q: Question, id: Id, row: Columns) {
    Cell(row, TextCol) == Text(q.text.en) && Cell(row, HeadingCol) == HeadingOf(q.text.en) &&
    Cell(row, IdentifierCol) == Text(q.ident) && Cell(row, OptionsCol).Options? &&
    AreOptions(q, id, Cell(row, OptionsCol).list) &&
    match q.feedback
    case None => Cell(row, FeedbackCol) == Val.Null
    case Some(b) =>
      Cell(row, FeedbackCol).Messages? && IsMessage(Cell(row, FeedbackCol).good, b.good) &&
      IsMessage(Cell(row, FeedbackCol).bad, b.bad)
  }

  ghost predicate IsQuestionRow(f: Flags, q: Question, id: Id, was: Option<Columns>, row: Columns) {
    AsksTheFiles(q, id, row) && Cell(row, DeletedCol) == Int(0) && Cell(row, StatusCol) == Int(1) &&
    Cell(row, TemplateCol) == Int(1) && Cell(row, DistractorsCol) == Text("[]") && Cell(row, FileCol) == Val.Null &&
    Cell(row, CorrectValueCol) == Val.Null && Cell(row, TagsCol) == Text("[\"demo\",\"dcrs\"]") &&
    match was
    case Some(before) => Cell(row, OrganisationCol) == Cell(before, OrganisationCol)
    case None => Cell(row, OrganisationCol) == Text(f.organisation)
  }

  ghost predicate IsJoinRow(question: Id, place: nat, column: Column, of: Id, row: Columns) {
    Cell(row, QuestionCol) == Ref(question) && Cell(row, OrderCol) == Int(place) && Cell(row, StatusCol) == Int(1) &&
    Cell(row, column) == Ref(of)
  }

  // ---- an upsert's row, column by column ---------------------------------------------------------

  /** The row is what the step makes of what was there. */
  ghost predicate Follows(was: Option<Columns>, row: Columns, step: Step) {
    step.Upsert? && Keeps(was, row, step.update) &&
    (forall col :: col in step.update ==> Cell(row, col) == Cell(step.values, col)) &&
    (was.None? ==> forall col :: Cell(row, col) == Cell(step.values, col))
  }

  ghost predicate FollowsAt(db: Db, after: Db, step: Step) {
    step.Upsert? && step.key in after.rows &&
    Follows(RowAt(db, step.key.table, step.key.id), after.rows[step.key], step)
  }

  lemma RowIs(c: Content, f: Flags, stamp: string, holders: Placeholders, db: Db, step: Step)
    requires Accepted(c, f, stamp, holders, db) && Acceptable(c) && step in StepsFor(c, f, db) && step.Upsert?
    requires step.update <= step.values.Keys
    ensures FollowsAt(db, Import(c, f, stamp, holders, db).value.0, step)
  {
    hide Import, StepsFor, LessonsOk, Accepted, Cell, Written;
    RowAfter(c, f, stamp, holders, db, step);
    if step.key in db.rows {
      forall col ensures Cell(db.rows[step.key] + Written(step.values, step.update), col) ==
                         if col in step.update then Cell(step.values, col) else Cell(db.rows[step.key], col) {
        CellWritten(db.rows[step.key], step.values, step.update, col);
      }
    }
  }

  // ---- the programme -----------------------------------------------------------------------------

  lemma CurriculumRowIs(c: Content, f: Flags, status: int, levelPoints: int, gradePoints: int, was: Option<Columns>,
                        row: Columns)
    requires c.number >= 0 && Follows(was, row, ProgrammeSteps(c, f, status, levelPoints, gradePoints)[0])
    ensures IsCurriculumRow(c, f, was, row)
  {
    hide LevelId;
  }

  lemma GradeRowIs(c: Content, f: Flags, status: int, levelPoints: int, gradePoints: int, was: Option<Columns>,
                   row: Columns)
    requires c.number >= 0 && Follows(was, row, ProgrammeSteps(c, f, status, levelPoints, gradePoints)[1])
    ensures IsGradeRow(c, was, row)
  {
    hide LevelId;
  }

  lemma LevelRowIs(c: Content, f: Flags, status: int, levelPoints: int, gradePoints: int, was: Option<Columns>,
                   row: Columns)
    requires c.number >= 0 && Follows(was, row, ProgrammeSteps(c, f, status, levelPoints, gradePoints)[2])
    requires f.live.Some? ==> Int(status) == On(f.live.value)
    ensures IsLevelRow(c, f, was, row)
  {
    hide LevelId;
  }

  lemma ProgrammeStepsAre(c: Content, f: Flags, status: int, levelPoints: int, gradePoints: int)
    requires c.number >= 0
    ensures var steps := ProgrammeSteps(c, f, status, levelPoints, gradePoints);
            |steps| == 3 && (forall step :: step in steps ==> step.Upsert? && step.update <= step.values.Keys) &&
            steps[0].key == Key(Curriculums, CURRICULUM) && steps[1].key == Key(Grades, GRADE) &&
            steps[2].key == Key(Levels, LevelId(c.number))
  {
    hide LevelId;
  }

  /** The curriculum, the grade and the level after an accepted run. */
  lemma ProgrammeIsWritten(c: Content, f: Flags, stamp: string, holders: Placeholders, db: Db)
    requires Accepted(c, f, stamp, holders, db) && Acceptable(c)
    ensures var after, level := Import(c, f, stamp, holders, db).value.0, Key(Levels, LevelId(c.number));
            Key(Curriculums, CURRICULUM) in after.rows && Key(Grades, GRADE) in after.rows && level in after.rows &&
            IsCurriculumRow(c, f, RowAt(db, Curriculums, CURRICULUM), after.rows[Key(Curriculums, CURRICULUM)]) &&
            IsGradeRow(c, RowAt(db, Grades, GRADE), after.rows[Key(Grades, GRADE)]) &&
            IsLevelRow(c, f, RowAt(db, Levels, level.id), after.rows[level])
  {
    hide Import, StepsFor, LessonsOk, LevelPoints, PlacedOf, LevelId, GradePoints, Separate, LevelStatus, ArePlaced,
         ProgrammeSteps, IsCurriculumRow, IsGradeRow, IsLevelRow, Follows;
    AcceptedRunIs(c, f, stamp, holders, db);
    var m, after := c.number, Import(c, f, stamp, holders, db).value.0;
    var status, levelPoints := LevelStatus(db, m, f.live), LevelPoints(db, m, PlacedOf(c));
    var gradePoints := GradePoints(db, m, status, levelPoints);
    ProgrammeStepsAreIn(c, f, db, gradePoints);
    ProgrammeStepsAre(c, f, status, levelPoints, gradePoints);
    var steps := ProgrammeSteps(c, f, status, levelPoints, gradePoints);
    forall n | 0 <= n < 3 ensures FollowsAt(db, after, steps[n]) {
      assert steps[n] in steps;
      RowIs(c, f, stamp, holders, db, steps[n]);
    }
    CurriculumRowIs(c, f, status, levelPoints, gradePoints, RowAt(db, Curriculums, CURRICULUM),
                    after.rows[steps[0].key]);
    GradeRowIs(c, f, status, levelPoints, gradePoints, RowAt(db, Grades, GRADE), after.rows[steps[1].key]);
    StatusIs(db, m, f.live);
    LevelRowIs(c, f, status, levelPoints, gradePoints, RowAt(db, Levels, steps[2].key.id), after.rows[steps[2].key]);
  }

  lemma StatusIs(db: Db, m: nat, live: Option<bool>)
    ensures live.Some? ==> Int(LevelStatus(db, m, live)) == On(live.value)
  {
  }

  // ---- a lesson ----------------------------------------------------------------------------------

  lemma LessonRowIs(m: nat, p: Placed, was: Option<Columns>, row: Columns)
    requires IsPlaced(m, p) && Follows(was, row, LessonStep(m, p))
    ensures IsLessonRow(m, p.lesson, was, row)
  {
    hide SlotId, LevelId;
  }

  /** Which step of a lesson writes which row: the video's comes second, when there is one; three items come last. */
  lemma LessonStepsAre(m: nat, f: Flags, p: Placed)
    requires IsPlaced(m, p)
    ensures var steps := LessonSteps(m, f, p);
            |steps| == (if p.lesson.video.File? then 5 else 4) && steps[0] == LessonStep(m, p) &&
            (forall step :: step in steps ==> step.Upsert? && step.update <= step.values.Keys) &&
            steps[0].key == Key(Lessons, SlotId(m, p.slot, LessonPart)) &&
            (p.lesson.video.File? ==> steps[1].key == Key(Documents, SlotId(m, p.slot, DocPart))) &&
            steps[|steps| - 3].key == Key(LessonLearnings, SlotId(m, p.slot, LearningPart)) &&
            steps[|steps| - 2].key == Key(LessonPractices, SlotId(m, p.slot, PracticePart)) &&
            steps[|steps| - 1].key == Key(LessonQuizzes, SlotId(m, p.slot, QuizPart))
  {
    hide SlotId, LevelId, PassingPoints;
  }

  lemma VideoRowIs(m: nat, f: Flags, p: Placed, was: Option<Columns>, row: Columns)
    requires IsPlaced(m, p) && p.lesson.video.File? && |LessonSteps(m, f, p)| == 5 &&
             Follows(was, row, LessonSteps(m, f, p)[1])
    ensures IsVideoRow(f, p.lesson.video.filename, was, row)
  {
    hide SlotId, LevelId, PassingPoints;
  }

  lemma LearningRowIs(m: nat, f: Flags, p: Placed, was: Option<Columns>, row: Columns)
    requires IsPlaced(m, p) && |LessonSteps(m, f, p)| >= 3
    requires Follows(was, row, LessonSteps(m, f, p)[|LessonSteps(m, f, p)| - 3])
    ensures IsItemRow(p.lesson, SlotId(m, p.slot, LessonPart), true, 20, was, row)
    ensures was.None? ==> Cell(row, DocumentCol) == Ref(SlotId(m, p.slot, DocPart))
  {
    hide SlotId, LevelId, PassingPoints;
  }

  lemma PracticeRowIs(m: nat, f: Flags, p: Placed, was: Option<Columns>, row: Columns)
    requires IsPlaced(m, p) && |LessonSteps(m, f, p)| >= 3
    requires Follows(was, row, LessonSteps(m, f, p)[|LessonSteps(m, f, p)| - 2])
    ensures IsItemRow(p.lesson, SlotId(m, p.slot, LessonPart), p.lesson.practice != [], 40, was, row)
  {
    hide SlotId, LevelId, PassingPoints;
  }

  lemma QuizRowIs(m: nat, f: Flags, p: Placed, was: Option<Columns>, row: Columns)
    requires IsPlaced(m, p) && |LessonSteps(m, f, p)| >= 3
    requires Follows(was, row, LessonSteps(m, f, p)[|LessonSteps(m, f, p)| - 1])
    ensures IsItemRow(p.lesson, SlotId(m, p.slot, LessonPart), p.lesson.quiz != [], 40, was, row)
  {
    hide SlotId, LevelId, PassingPoints;
  }

  /** The rows of a lesson of the file, after an accepted run. */
  ghost predicate IsLessonWritten(m: nat, f: Flags, l: Lesson, db: Db, after: Db) {
    var lesson, doc := RowId(m, l, LessonPart), RowId(m, l, DocPart);
    var learning, practice, quiz := RowId(m, l, LearningPart), RowId(m, l, PracticePart), RowId(m, l, QuizPart);
    Key(Lessons, lesson) in after.rows &&
    IsLessonRow(m, l, RowAt(db, Lessons, lesson), after.rows[Key(Lessons, lesson)]) &&
    (match l.video
     case Keep(_) => true
     case File(_, filename, _) =>
       Key(Documents, doc) in after.rows &&
       IsVideoRow(f, filename, RowAt(db, Documents, doc), after.rows[Key(Documents, doc)])) &&
    Key(LessonLearnings, learning) in after.rows &&
    IsItemRow(l, lesson, true, 20, RowAt(db, LessonLearnings, learning), after.rows[Key(LessonLearnings, learning)]) &&
    (Key(LessonLearnings, learning) !in db.rows ==>
     Cell(after.rows[Key(LessonLearnings, learning)], DocumentCol) == Ref(doc)) &&
    Key(LessonPractices, practice) in after.rows &&
    IsItemRow(l, lesson, l.practice != [], 40, RowAt(db, LessonPractices, practice),
              after.rows[Key(LessonPractices, practice)]) &&
    Key(LessonQuizzes, quiz) in after.rows &&
    IsItemRow(l, lesson, l.quiz != [], 40, RowAt(db, LessonQuizzes, quiz), after.rows[Key(LessonQuizzes, quiz)])
  }

  lemma LessonRowsAre(m: nat, f: Flags, p: Placed, db: Db, after: Db)
    requires IsPlaced(m, p) && p.slot == SlotOf(p.lesson) && PlaceOk(m, p.lesson)
    requires forall step :: step in LessonSteps(m, f, p) ==> FollowsAt(db, after, step)
    ensures IsLessonWritten(m, f, p.lesson, db, after)
  {
    hide SlotId, RowId, Follows, LessonSteps, LessonStep, IsLessonRow, IsVideoRow, IsItemRow, Cell, PlaceOk;
    var l, steps := p.lesson, LessonSteps(m, f, p);
    LessonStepsAre(m, f, p);
    RowIdIs(m, l, LessonPart);
    RowIdIs(m, l, DocPart);
    RowIdIs(m, l, LearningPart);
    RowIdIs(m, l, PracticePart);
    RowIdIs(m, l, QuizPart);
    forall n | 0 <= n < |steps| ensures FollowsAt(db, after, steps[n]) {
      assert steps[n] in steps;
    }
    var last := |steps| - 1;
    LessonRowIs(m, p, RowAt(db, Lessons, steps[0].key.id), after.rows[steps[0].key]);
    if l.video.File? { VideoRowIs(m, f, p, RowAt(db, Documents, steps[1].key.id), after.rows[steps[1].key]); }
    LearningRowIs(m, f, p, RowAt(db, LessonLearnings, steps[last - 2].key.id), after.rows[steps[last - 2].key]);
    PracticeRowIs(m, f, p, RowAt(db, LessonPractices, steps[last - 1].key.id), after.rows[steps[last - 1].key]);
    QuizRowIs(m, f, p, RowAt(db, LessonQuizzes, steps[last].key.id), after.rows[steps[last].key]);
  }

  lemma FileIsPlaced(c: Content, l: Lesson) returns (i: nat)
    requires Acceptable(c) && l in c.lessons
    ensures i < |PlacedOf(c)| && PlacedOf(c)[i].lesson == l && PlacedOf(c)[i].slot == SlotOf(l)
    ensures IsPlaced(c.number, PlacedOf(c)[i]) && PlaceOk(c.number, l) && ArePlaced(c.number, PlacedOf(c))
  {
    hide LessonsOk, PlacedOf, PlaceOk, IsPlaced;
    i := NamedIsPlaced(c, l);
    AcceptableIsWellPlaced(c);
    LessonsOkParts(c.number, c.lessons);
  }

  /**
   Every lesson of the file: its row, its video's, its learning item, its practice and its quiz hold what the file says.
   */
  lemma LessonIsWritten(c: Content, f: Flags, stamp: string, holders: Placeholders, db: Db, l: Lesson)
    requires Accepted(c, f, stamp, holders, db) && Acceptable(c) && l in c.lessons
    ensures IsLessonWritten(c.number, f, l, db, Import(c, f, stamp, holders, db).value.0)
  {
    hide Import, StepsFor, LessonsOk, PlacedOf, LessonSteps, FollowsAt, PlaceOk, IsLessonWritten;
    var i := FileIsPlaced(c, l);
    var m, p, after := c.number, PlacedOf(c)[i], Import(c, f, stamp, holders, db).value.0;
    LessonStepsAre(m, f, p);
    forall step | step in LessonSteps(m, f, p) ensures FollowsAt(db, after, step) {
      assert step in RoundSteps(LessonRows, m, f, p);
      RoundStepIsIn(LessonRows, c, f, db, i, step);
      RowIs(c, f, stamp, holders, db, step);
    }
    LessonRowsAre(m, f, p, db, after);
  }

  // ---- a question --------------------------------------------------------------------------------

  lemma QuestionValuesAre(f: Flags, q: Question, id: Id)
    ensures var step := QuestionStep(f, q, id);
            step.Upsert? && {TextCol, HeadingCol, IdentifierCol, OptionsCol, FeedbackCol} <= step.update &&
            Cell(step.values, TextCol) == Text(q.text.en) && Cell(step.values, HeadingCol) == HeadingOf(q.text.en) &&
            Cell(step.values, IdentifierCol) == Text(q.ident) &&
            Cell(step.values, OptionsCol) == Options(StoredOptions(id, q.choices)) &&
            Cell(step.values, FeedbackCol) ==
            if q.feedback.Some? then Messages(MessageText(q.feedback.value.good), MessageText(q.feedback.value.bad))
            else Val.Null
  {
    hide StoredOptions, MessageText;
  }

  lemma QuestionAsksTheFiles(f: Flags, q: Question, id: Id, was: Option<Columns>, row: Columns)
    requires Follows(was, row, QuestionStep(f, q, id))
    ensures AsksTheFiles(q, id, row)
  {
    hide QuestionStep, Cell, Keeps;
    QuestionValuesAre(f, q, id);
  }

  lemma QuestionRowIs(f: Flags, q: Question, id: Id, was: Option<Columns>, row: Columns)
    requires Follows(was, row, QuestionStep(f, q, id))
    ensures IsQuestionRow(f, q, id, was, row)
  {
    hide AsksTheFiles, StoredOptions, MessageText;
    QuestionAsksTheFiles(f, q, id, was, row);
  }

  lemma JoinRowIs(m: nat, s: Slot, kind: Kind, j: nat, id: Id, was: Option<Columns>, row: Columns)
    requires IsSlot(m, s) && IsPlace(j) && Follows(was, row, JoinStep(m, s, kind, j, id))
    ensures IsJoinRow(id, j, SetCol(kind), SlotId(m, s, SetPart(kind)), row)
  {
    hide SlotId;
  }

  /** Every question of the file holds what the file says, and stands in its place of its lesson's set. */
  lemma QuestionIsWritten(c: Content, f: Flags, stamp: string, holders: Placeholders, db: Db, l: Lesson, kind: Kind,
                          j: nat)
    requires Accepted(c, f, stamp, holders, db) && Acceptable(c) && l in c.lessons && j < |SetIn(l, kind)|
    ensures IsSlot(c.number, SlotOf(l)) && j < SETS_PER_LESSON
    ensures var after, id := Import(c, f, stamp, holders, db).value.0, AskedId(c.number, c.lessons, l, kind, j);
            var join := Key(if kind == Practice then PracticeQuestions else QuizQuestions,
                            SlotId(c.number, SlotOf(l), JoinPart(kind, j + 1)));
            Key(Questions, id) in after.rows && join in after.rows &&
            IsQuestionRow(f, SetIn(l, kind)[j], id, RowAt(db, Questions, id), after.rows[Key(Questions, id)]) &&
            IsJoinRow(id, j + 1, if kind == Practice then PracticeCol else QuizCol,
                      RowId(c.number, l, if kind == Practice then PracticePart else QuizPart), after.rows[join])
  {
    hide Import, StepsFor, LessonsOk, PlacedOf, SlotId, RowId, AskedId, FollowsAt, PlaceOk, IsQuestionRow, IsJoinRow,
         QuestionStep, JoinStep;
    var i := FileIsPlaced(c, l);
    var m, p, after := c.number, PlacedOf(c)[i], Import(c, f, stamp, holders, db).value.0;
    QuestionsGetTheirIds(c, i, kind, j);
    var q, id := SetIn(l, kind)[j], IdsOfKind(p, kind)[j];
    QuestionStepIsIn(c, f, db, i, kind, j);
    JoinStepIsIn(c, f, db, i, kind, j);
    StepsAreSound(m, p.slot, f, kind, j + 1, q, id);
    RowIs(c, f, stamp, holders, db, QuestionStep(f, q, id));
    RowIs(c, f, stamp, holders, db, JoinStep(m, p.slot, kind, j + 1, id));
    QuestionRowAfter(f, q, id, db, after);
    JoinRowAfter(m, p.slot, kind, j + 1, id, db, after);
    RowIdIs(m, l, if kind == Practice then PracticePart else QuizPart);
  }

  lemma QuestionStepIsIn(c: Content, f: Flags, db: Db, i: nat, kind: Kind, j: nat)
    requires Acceptable(c) && i < |PlacedOf(c)| && ArePlaced(c.number, PlacedOf(c)) &&
             IsPlaced(c.number, PlacedOf(c)[i])
    requires j < |SetIn(PlacedOf(c)[i].lesson, kind)| && j < |IdsOfKind(PlacedOf(c)[i], kind)|
    ensures QuestionStep(f, SetIn(PlacedOf(c)[i].lesson, kind)[j], IdsOfKind(PlacedOf(c)[i], kind)[j]) in StepsFor(c,
        f, db)
  {
    hide StepsFor, LessonsOk, PlacedOf, QuestionStep, ArePlaced;
    var p := PlacedOf(c)[i];
    var step := QuestionStep(f, SetIn(p.lesson, kind)[j], IdsOfKind(p, kind)[j]);
    assert QuestionSteps(f, SetIn(p.lesson, kind), IdsOfKind(p, kind))[j] == step;
    assert step in RoundSteps(QuestionRows, c.number, f, p);
    RoundStepIsIn(QuestionRows, c, f, db, i, step);
  }

  lemma JoinStepIsIn(c: Content, f: Flags, db: Db, i: nat, kind: Kind, j: nat)
    requires Acceptable(c) && i < |PlacedOf(c)| && ArePlaced(c.number, PlacedOf(c)) &&
             IsPlaced(c.number, PlacedOf(c)[i])
    requires j < |IdsOfKind(PlacedOf(c)[i], kind)|
    ensures IsPlace(j + 1)
    ensures JoinStep(c.number, PlacedOf(c)[i].slot, kind, j + 1, IdsOfKind(PlacedOf(c)[i], kind)[j]) in StepsFor(c, f,
        db)
  {
    hide StepsFor, LessonsOk, PlacedOf, JoinStep, ArePlaced;
    var p := PlacedOf(c)[i];
    var step := JoinStep(c.number, p.slot, kind, j + 1, IdsOfKind(p, kind)[j]);
    assert JoinSteps(c.number, p.slot, kind, IdsOfKind(p, kind))[j] == step;
    assert step in RoundSteps(JoinRows, c.number, f, p);
    RoundStepIsIn(JoinRows, c, f, db, i, step);
  }

  lemma StepsAreSound(m: nat, s: Slot, f: Flags, kind: Kind, j: nat, q: Question, id: Id)
    requires IsSlot(m, s) && IsPlace(j)
    ensures var step := QuestionStep(f, q, id);
            step.Upsert? && step.update <= step.values.Keys && step.key == Key(Questions, id)
    ensures var step := JoinStep(m, s, kind, j, id);
            step.Upsert? && step.update <= step.values.Keys &&
            step.key == Key(if kind == Practice then PracticeQuestions
                            else QuizQuestions, SlotId(m, s, JoinPart(kind, j)))
  {
    hide SlotId;
  }

  lemma QuestionRowAfter(f: Flags, q: Question, id: Id, db: Db, after: Db)
    requires FollowsAt(db, after, QuestionStep(f, q, id))
    ensures Key(Questions, id) in after.rows
    ensures IsQuestionRow(f, q, id, RowAt(db, Questions, id), after.rows[Key(Questions, id)])
  {
    hide QuestionStep, IsQuestionRow, Follows;
    assert QuestionStep(f, q, id).key == Key(Questions, id) by { QuestionStepIs(f, q, id); }
    QuestionRowIs(f, q, id, RowAt(db, Questions, id), after.rows[Key(Questions, id)]);
  }

  lemma JoinRowAfter(m: nat, s: Slot, kind: Kind, j: nat, id: Id, db: Db, after: Db)
    requires IsSlot(m, s) && IsPlace(j) && FollowsAt(db, after, JoinStep(m, s, kind, j, id))
    ensures var k := Key(if kind == Practice then PracticeQuestions
                         else QuizQuestions, SlotId(m, s, JoinPart(kind, j)));
            k in after.rows &&
            IsJoinRow(id, j, if kind == Practice then PracticeCol else QuizCol,
                      SlotId(m, s, if kind == Practice then PracticePart else QuizPart), after.rows[k])
  {
    hide SlotId, IsJoinRow, Follows;
    var k := JoinStep(m, s, kind, j, id).key;
    JoinRowIs(m, s, kind, j, id, RowAt(db, k.table, k.id), after.rows[k]);
  }
}
