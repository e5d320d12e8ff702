/** The plan of an import: the refusals, the points, and the steps, from a content file and what the database holds. */
module ImportPlan {
  import opened Values
  import opened Sums
  import opened ImportSlots
  import opened ImportContent
  import opened ImportSteps

  /** The flags of a run. `live` is the level switch: on (`--live`), off (`--draft`), or neither. */
  datatype Flags = Flags(organisation: string, live: Option<bool>, rename: bool)

  /** What the seed's placeholder pass writes for a question. */
  datatype Placeholder = Placeholder(ident: string, choices: seq<(string, bool)>)

  type Placeholders = map<Id, Placeholder>

  const LESSON_TOTAL_POINTS := 100
  const DEFAULT_QUIZ_POINTS := 20
  const LEARNING_POINTS := 20
  const QUIZ_POINTS := 40
  const PRACTICE_POINTS := 40
  const PASS_POINTS := 80
  const APP_PASS_PERCENTAGE := 80

  // ---- the lessons in order, each in its slot, each question with its id ----------------------------

  function SlotOf(l: Lesson): Slot {
    if l.id.Some? && l.id.value.Seed? && l.id.value.n > 7 then Fixed(l.id.value.n - 7)
    else Further(if l.order >= 0 then l.order else 0)
  }

  function InsertByOrder(l: Lesson, list: seq<Lesson>): (r: seq<Lesson>)
    ensures multiset(r) == multiset(list) + multiset{l}
  {
    if list == [] then [l]
    else if l.order <= list[0].order then
      [l] + list
    else
      assert list == [list[0]] + list[1..];
      [list[0]] + InsertByOrder(l, list[1..])
  }

  function ByOrder(lessons: seq<Lesson>): (r: seq<Lesson>)
    ensures multiset(r) == multiset(lessons)
  {
    if lessons == [] then []
    else
      assert lessons == [lessons[0]] + lessons[1..];
      InsertByOrder(lessons[0], ByOrder(lessons[1..]))
  }

  datatype Placed = Placed(slot: Slot, lesson: Lesson, practiceIds: seq<Id>, quizIds: seq<Id>)

  function FromPool(next: nat, n: nat): (r: seq<Id>)
    ensures |r| == n
  {
    seq(n, i requires 0 <= i < n => if next + i < |POOL| then POOL[next + i] else Other("undefined"))
  }

  function OwnQuestions(m: nat, s: Slot, kind: Kind, n: nat): (r: seq<Id>)
    requires s.Further?
    ensures |r| == n
  {
    seq(n, i requires 0 <= i < n => Derived(m, SlotRole(s.n, QuestionPart(kind, i + 1))))
  }

  /** The question ids: from the pool in turn, practice before quiz, for a fixed lesson; its own for any other. */
  function Place(m: nat, list: seq<Lesson>, next: nat): (r: seq<Placed>)
    ensures |r| == |list| && forall i :: 0 <= i < |r| ==> r[i].lesson == list[i] && r[i].slot == SlotOf(list[i])
    ensures forall i :: 0 <= i < |r| ==>
            |r[i].practiceIds| == |r[i].lesson.practice| && |r[i].quizIds| == |r[i].lesson.quiz|
  {
    if list == [] then []
    else
      var l, s := list[0], SlotOf(list[0]);
      if s.Fixed? then
        [Placed(s, l, FromPool(next, |l.practice|), FromPool(next + |l.practice|, |l.quiz|))] +
        Place(m, list[1..], next + |l.practice| + |l.quiz|)
      else
        [Placed(s, l, OwnQuestions(m, s, Practice, |l.practice|), OwnQuestions(m, s, Quiz, |l.quiz|))] +
        Place(m, list[1..], next)
  }

  function PlacedOf(c: Content): seq<Placed>
    requires c.number >= 0
  {
    Place(c.number, ByOrder(c.lessons), 0)
  }

  // ---- what the database holds -------------------------------------------------------------------

  function RowOf(db: Db, table: Table, id: Id): Option<Columns> {
    if Key(table, id) in db.rows then Some(db.rows[Key(table, id)]) else None
  }

  /** A column as a number: NULL counts as 0. */
  function NumberIn(v: Val): int {
    if v.Int? then v.n else 0
  }

  predicate IsLevelOfGrade(db: Db, k: Key) {
    k in db.rows && k.table == Levels && Cell(db.rows[k], GradeCol) == Ref(GRADE)
  }

  predicate HasLevel(db: Db, m: nat) {
    IsLevelOfGrade(db, Key(Levels, LevelId(m)))
  }

  predicate IsOn(row: Columns) {
    NumberIn(Cell(row, StatusCol)) == 1 && NumberIn(Cell(row, DeletedCol)) == 0
  }

  /** The switch the level is written with; without a flag the level keeps the one it has. */
  function LevelStatus(db: Db, m: nat, live: Option<bool>): int {
    if live.Some? then if live.value then 1 else 0
    else if HasLevel(db, m) then NumberIn(Cell(db.rows[Key(Levels, LevelId(m))], StatusCol))
    else 1
  }

  function LessonId(m: nat, s: Slot): Id {
    if IsSlot(m, s) then SlotId(m, s, LessonPart) else Other("undefined")
  }

  /** A lesson already there keeps its points; a new one is written with 100. */
  function LessonPoints(db: Db, m: nat, s: Slot): int {
    var row := RowOf(db, Lessons, LessonId(m, s));
    if row.Some? then NumberIn(Cell(row.value, TotalPointsCol)) else LESSON_TOTAL_POINTS
  }

  function LevelQuizPoints(db: Db, m: nat): int {
    var id := LevelId(m);
    if HasLevel(db, m) && id in db.quizRows &&
        db.quizRows[id] > 0 then NumberIn(Cell(db.rows[Key(Levels, id)], QuizPointsCol)) else 0
  }

  function LessonPointsOf(db: Db, m: nat, placed: seq<Placed>): seq<int> {
    seq(|placed|, i requires 0 <= i < |placed| => LessonPoints(db, m, placed[i].slot))
  }

  function LevelPoints(db: Db, m: nat, placed: seq<Placed>): int {
    Total(LessonPointsOf(db, m, placed)) + LevelQuizPoints(db, m)
  }

  /** The points of the grade's other levels that are on and not deleted. */
  ghost function SiblingPoints(db: Db, m: nat): map<Key, int> {
    map k | k in db.rows && IsLevelOfGrade(db, k) && k.id != LevelId(m) &&
    IsOn(db.rows[k]) :: NumberIn(Cell(db.rows[k], PointsCol))
  }

  ghost function GradePoints(db: Db, m: nat, status: int, levelPoints: int): int {
    SumOf(SiblingPoints(db, m)) + if status == 0 then 0 else levelPoints
  }

  // ---- the refusals ------------------------------------------------------------------------------

  /** A further lesson's slot holds a lesson of another name. */
  predicate RenamesLesson(db: Db, m: nat, l: Lesson) {
    var row := RowOf(db, Lessons, LessonId(m, SlotOf(l)));
    SlotOf(l).Further? && row.Some? && Cell(row.value, NameCol) != Text(l.name.en)
  }

  /** An active join row puts the question in a set of this kind. */
  predicate InSet(db: Db, kind: Kind, id: Id) {
    exists k :: k in db.rows && k.table == JoinTable(kind) && IsActiveJoin(db.rows[k], id)
  }

  function JoinTable(kind: Kind): Table {
    if kind == Practice then PracticeQuestions else QuizQuestions
  }

  predicate IsActiveJoin(row: Columns, id: Id) {
    Cell(row, StatusCol) == Int(1) && Cell(row, QuestionCol) == Ref(id)
  }

  /** The first position with a true flag, or the length. */
  function FirstTrue(flags: seq<bool>): (r: nat)
    ensures r <= |flags| && (r < |flags| ==> flags[r]) && forall i :: 0 <= i < r ==> !flags[i]
  {
    if flags == [] then 0 else if flags[0] then 0 else 1 + FirstTrue(flags[1..])
  }

  function StoredFlags(list: seq<StoredOption>): seq<bool> {
    seq(|list|, i requires 0 <= i < |list| => list[i].correct)
  }

  function FileFlags(choices: seq<Choice>): seq<bool> {
    seq(|choices|, i requires 0 <= i < |choices| => choices[i].correct)
  }

  predicate IsPlaceholder(row: Columns, p: Placeholder) {
    Cell(row, IdentifierCol) == Text(p.ident) && Cell(row, OptionsCol).Options? &&
    var list := Cell(row, OptionsCol).list;
    |list| == |p.choices| && forall i :: 0 <= i < |list| ==>
    list[i].text == p.choices[i].0 && list[i].correct == p.choices[i].1
  }

  /** The file would move the question to the other set, or change how many options it has or which is correct. */
  predicate AltersQuestion(db: Db, holders: Placeholders, kind: Kind, q: Question, id: Id) {
    var row := RowOf(db, Questions, id);
    row.Some? && !(id in holders && IsPlaceholder(row.value, holders[id])) &&
    (((InSet(db, Practice, id) || InSet(db, Quiz, id)) && !InSet(db, kind, id)) ||
     (Cell(row.value, OptionsCol).Options? &&
      var stored, file := StoredFlags(Cell(row.value, OptionsCol).list), FileFlags(q.choices);
      |stored| != |file| || FirstTrue(stored) != FirstTrue(file)))
  }

  predicate ChangesSet(db: Db, holders: Placeholders, kind: Kind, questions: seq<Question>, ids: seq<Id>)
    requires |questions| == |ids|
  {
    exists j :: 0 <= j < |ids| && AltersQuestion(db, holders, kind, questions[j], ids[j])
  }

  /** The mark the student app applies to a lesson row; none when the row has no points to take one from. */
  function StoredPassMark(row: Columns): Option<int> {
    var passing, total := NumberIn(Cell(row, PassingPointsCol)), NumberIn(Cell(row, TotalPointsCol));
    if passing > 0 then Some(passing)
    else if total > 0 then Some((total * APP_PASS_PERCENTAGE + 99) / 100)
    else None
  }

  function Pts(v: Val, fallback: int): int {
    if NumberIn(v) > 0 then NumberIn(v) else fallback
  }

  /** The points a learner can reach in a lesson row with the sets a file gives it. */
  function Reachable(row: Columns, l: Lesson): int {
    Pts(Cell(row, LearningPointsCol), LEARNING_POINTS) +
    (if |l.quiz| > 0 then Pts(Cell(row, QuizzesPointsCol), QUIZ_POINTS) else 0) +
    (if |l.practice| > 0 then Pts(Cell(row, PracticesPointsCol), PRACTICE_POINTS) else 0)
  }

  /** The pass mark of a new lesson: 80, or what a learner can reach when that is less. */
  function PassingPoints(l: Lesson): int {
    var reachable := LEARNING_POINTS + (if |l.quiz| > 0 then QUIZ_POINTS else 0) +
        (if |l.practice| > 0 then PRACTICE_POINTS else 0);
    if reachable < PASS_POINTS then reachable else PASS_POINTS
  }

  predicate OutOfReach(row: Columns, l: Lesson) {
    var mark := StoredPassMark(row);
    mark.Some? && mark.value > Reachable(row, l)
  }

  /** A lesson in a slot of its module, with room for its sets. */
  predicate IsPlaced(m: nat, p: Placed) {
    IsSlot(m, p.slot) && |p.practiceIds| == |p.lesson.practice| <= SETS_PER_LESSON &&
    |p.quizIds| == |p.lesson.quiz| <= SETS_PER_LESSON
  }

  predicate ArePlaced(m: nat, placed: seq<Placed>) {
    forall i :: 0 <= i < |placed| ==> IsPlaced(m, placed[i])
  }

  predicate ChangesLesson(db: Db, holders: Placeholders, m: nat, p: Placed)
    requires IsPlaced(m, p)
  {
    ChangesSet(db, holders, Practice, p.lesson.practice, p.practiceIds) ||
    ChangesSet(db, holders, Quiz, p.lesson.quiz, p.quizIds) ||
    (RowOf(db, Lessons, LessonId(m, p.slot)).Some? &&
     OutOfReach(RowOf(db, Lessons, LessonId(m, p.slot)).value, p.lesson))
  }

  predicate BadSwitch(db: Db, m: nat, live: Option<bool>) {
    (live == Some(false) && m == 1) || (!HasLevel(db, m) && live.None?)
  }

  // ---- the steps ---------------------------------------------------------------------------------

  function En(b: Bilingual): Val {
    Text(b.en)
  }

  function ProgrammeSteps(c: Content, f: Flags, status: int, levelPoints: int, gradePoints: int): seq<Step>
    requires c.number >= 0
  {
    var later := c.number != 1;
    [Upsert(Key(Curriculums, CURRICULUM),
            map[NameCol := En(c.programme), StatusCol := Int(1), DescriptionCol := Text(""), DeletedCol := Int(0),
                SubjectCol := Ref(SUBJECT), OrganisationCol := Text(f.organisation)],
            if later then {NameCol} else {NameCol, DescriptionCol, StatusCol, DeletedCol}),
     Upsert(Key(Grades, GRADE),
            map[CurriculumCol := Ref(CURRICULUM), StatusCol := Int(1), NameCol := En(c.programme),
                DescriptionCol := Text(""),
                OrderCol := Int(1), DeletedCol := Int(0), PassingPointsCol := Int(80), PointsCol := Int(gradePoints)],
            if later then {NameCol, PointsCol} else {NameCol, DescriptionCol, StatusCol, DeletedCol, PointsCol}),
     Upsert(Key(Levels, LevelId(c.number)),
            map[GradeCol := Ref(GRADE), NameCol := En(c.moduleName), DescriptionCol := Text(""), DeletedCol := Int(0),
                StatusCol := Int(status),
                OrderCol := Int(c.number), PassingPointsCol := Int(80), QuizPointsCol := Int(DEFAULT_QUIZ_POINTS),
                PointsCol := Int(levelPoints)],
            {NameCol, DescriptionCol, PointsCol, DeletedCol} + (if f.live.Some? then {StatusCol} else {}) +
            (if later then {OrderCol} else {}))]
  }

  function Shown(questions: seq<Question>): Val {
    Int(if |questions| > 0 then 1 else 0)
  }

  function LessonStep(m: nat, p: Placed): Step
    requires IsSlot(m, p.slot)
  {
    var l := p.lesson;
    Upsert(Key(Lessons, SlotId(m, p.slot, LessonPart)),
           map[LevelCol := Ref(LevelId(m)), NameCol := En(l.name), DescriptionCol := Text(""),
               PracticeCountCol := Shown(l.practice),
               QuizCountCol := Shown(l.quiz), PassPercentageCol := Int(80), OrderCol := Int(l.order),
               StatusCol := Int(1), DeletedCol := Int(0),
               TotalPointsCol := Int(LESSON_TOTAL_POINTS), PassingPointsCol := Int(PassingPoints(l)),
               LearningPointsCol := Int(LEARNING_POINTS),
               QuizzesPointsCol := Int(QUIZ_POINTS), PracticesPointsCol := Int(PRACTICE_POINTS)],
           {NameCol, DescriptionCol, OrderCol, StatusCol, DeletedCol})
  }

  /** A kept video has no step: its document row is left as it is. */
  function VideoSteps(m: nat, f: Flags, p: Placed): seq<Step>
    requires IsSlot(m, p.slot)
  {
    match p.lesson.video
    case Keep(_) => []
    case File(_, filename, _) =>
      [Upsert(Key(Documents, SlotId(m, p.slot, DocPart)),
              map[DocTypeCol := Int(2), NameCol := Text(filename),
                  MetaCol := Text("{\"seeded\":true,\"media\":\"folder\"}"), DeletedCol := Int(0),
                  TagsCol := Text("[\"dcrs\"]"), OrganisationCol := Text(f.organisation)],
              {NameCol, MetaCol, DeletedCol})]
  }

  function LessonSteps(m: nat, f: Flags, p: Placed): seq<Step>
    requires IsSlot(m, p.slot)
  {
    var lesson, l := Ref(SlotId(m, p.slot, LessonPart)), p.lesson;
    [LessonStep(m, p)] + VideoSteps(m, f, p) +
    [Upsert(Key(LessonLearnings, SlotId(m, p.slot, LearningPart)),
            map[NameCol := En(l.name), DescriptionCol := Text(""), StatusCol := Int(1), LessonCol := lesson,
                DocumentCol := Ref(SlotId(m, p.slot, DocPart)), OrderCol := Int(1), PointsCol := Int(LEARNING_POINTS)],
            {NameCol, DescriptionCol, StatusCol}),
     Upsert(Key(LessonPractices, SlotId(m, p.slot, PracticePart)),
            map[LessonCol := lesson, OrderCol := Int(1), StatusCol := Shown(l.practice), NameCol := En(l.name),
                DescriptionCol := Text(""), PointsCol := Int(PRACTICE_POINTS)],
            {NameCol, DescriptionCol, StatusCol}),
     Upsert(Key(LessonQuizzes, SlotId(m, p.slot, QuizPart)),
            map[LessonCol := lesson, OrderCol := Int(1), NameCol := En(l.name), StatusCol := Shown(l.quiz),
                DescriptionCol := Text(""), PointsCol := Int(QUIZ_POINTS)],
            {NameCol, DescriptionCol, StatusCol})]
  }

  function StoredOptions(id: Id, choices: seq<Choice>): seq<StoredOption> {
    seq(|choices|, i requires 0 <= i < |choices| =>
        StoredOption(OptionKey(id, i + 1), choices[i].text.en, choices[i].correct, i + 1))
  }

  function MessageText(m: Option<Bilingual>): Option<string> {
    if m.Some? then Some(m.value.en) else None
  }

  function QuestionStep(f: Flags, q: Question, id: Id): Step {
    Upsert(Key(Questions, id),
           map[HeadingCol := HeadingOf(q.text.en), OptionsCol := Options(StoredOptions(id, q.choices)),
               TextCol := En(q.text),
               DistractorsCol := Text("[]"), FileCol := Val.Null, TemplateCol := Int(1), DeletedCol := Int(0),
               StatusCol := Int(1),
               IdentifierCol := Text(q.ident), TagsCol := Text("[\"demo\",\"dcrs\"]"), CorrectValueCol := Val.Null,
               FeedbackCol := if q.feedback.Some?
               then Messages(MessageText(q.feedback.value.good), MessageText(q.feedback.value.bad)) else Val.Null,
               OrganisationCol := Text(f.organisation)],
           {HeadingCol, OptionsCol, TextCol, DistractorsCol, FileCol, TemplateCol, DeletedCol, StatusCol,
            IdentifierCol, TagsCol, CorrectValueCol, FeedbackCol})
  }

  function QuestionSteps(f: Flags, questions: seq<Question>, ids: seq<Id>): seq<Step>
    requires |questions| == |ids|
  {
    seq(|ids|, j requires 0 <= j < |ids| => QuestionStep(f, questions[j], ids[j]))
  }

  function SetPart(kind: Kind): Part {
    if kind == Practice then PracticePart else QuizPart
  }

  function SetCol(kind: Kind): Column {
    if kind == Practice then PracticeCol else QuizCol
  }

  function JoinStep(m: nat, s: Slot, kind: Kind, j: nat, id: Id): Step
    requires IsSlot(m, s) && IsPlace(j)
  {
    Upsert(Key(JoinTable(kind), SlotId(m, s, JoinPart(kind, j))),
           map[SetCol(kind) := Ref(SlotId(m, s, SetPart(kind))), StatusCol := Int(1), QuestionCol := Ref(id),
               OrderCol := Int(j)],
           {SetCol(kind), StatusCol, QuestionCol, OrderCol})
  }

  function JoinSteps(m: nat, s: Slot, kind: Kind, ids: seq<Id>): seq<Step>
    requires IsSlot(m, s) && |ids| <= SETS_PER_LESSON
  {
    seq(|ids|, j requires 0 <= j < |ids| => JoinStep(m, s, kind, j + 1, ids[j]))
  }

  /** The Khmer of one text. The programme's own texts keep the id Module 1 gives them, whichever module writes them. */
  function TextStep(m: nat, f: Flags, k: TKey, text: Bilingual): Step {
    var programme := k.table == Curriculums || k.table == Grades;
    Translate(k, Translation(if m != 1 && !programme then Derived(m, TranslationRole(k))
                             else Digest(k), f.organisation, text.km, Sha256(text.en)))
  }

  function NameText(m: nat, f: Flags, table: Table, id: Id, text: Bilingual): Step {
    TextStep(m, f, TKey(table, id, NameField, Whole), text)
  }

  function ProgrammeTexts(c: Content, f: Flags): seq<Step>
    requires c.number >= 0
  {
    [NameText(c.number, f, Curriculums, CURRICULUM, c.programme), NameText(c.number, f, Grades, GRADE, c.programme),
     NameText(c.number, f, Levels, LevelId(c.number), c.moduleName)]
  }

  function TextsOfLesson(m: nat, f: Flags, p: Placed): seq<Step>
    requires IsSlot(m, p.slot)
  {
    [NameText(m, f, Lessons, SlotId(m, p.slot, LessonPart), p.lesson.name),
     NameText(m, f, LessonLearnings, SlotId(m, p.slot, LearningPart), p.lesson.name),
     NameText(m, f, LessonPractices, SlotId(m, p.slot, PracticePart), p.lesson.name),
     NameText(m, f, LessonQuizzes, SlotId(m, p.slot, QuizPart), p.lesson.name)]
  }

  function MessageTexts(m: nat, f: Flags, id: Id, good: bool, text: Option<Bilingual>): seq<Step> {
    if text.Some? then [TextStep(m, f, TKey(Questions, id, FeedbackField, Message(good)), text.value)] else []
  }

  /** The texts of one question; template 1 has none that an answer is graded by. */
  function TextsOfQuestion(m: nat, f: Flags, q: Question, id: Id): seq<Step> {
    [TextStep(m, f, TKey(Questions, id, QuestionTextField, Whole), q.text),
     TextStep(m, f, TKey(Questions, id, HeadingField, Whole), q.text)] +
    seq(|q.choices|, j requires 0 <= j < |q.choices| =>
        TextStep(m, f, TKey(Questions, id, OptionField, OptionKey(id, j + 1)), q.choices[j].text)) +
    if q.feedback.Some? then MessageTexts(m, f, id, true, q.feedback.value.good) +
        MessageTexts(m, f, id, false, q.feedback.value.bad) else []
  }

  function TextsOfSet(m: nat, f: Flags, questions: seq<Question>, ids: seq<Id>): seq<Step>
    requires |questions| == |ids|
  {
    if ids == [] then [] else TextsOfQuestion(m, f, questions[0], ids[0]) + TextsOfSet(m, f, questions[1..], ids[1..])
  }

  /** What the file does not name, of this module's own rows. */
  function HideStep(table: Table, ids: set<Id>, column: Column, value: Val): seq<Step> {
    if ids == {} then [] else [Hide(table, ids, column, value)]
  }

  function HiddenIds(m: nat, named: set<Slot>, part: Part): set<Id>
    requires !part.JoinPart? && !part.QuestionPart?
  {
    set s | s in AllSlots(m) && s !in named :: SlotId(m, s, part)
  }

  function FirstJoins(m: nat, s: Slot, kind: Kind, n: nat): (r: set<Id>)
    requires IsSlot(m, s) && n <= SETS_PER_LESSON
    ensures forall id :: id in r <==> exists j: nat :: IsPlace(j) && j <= n && id == SlotId(m, s, JoinPart(kind, j))
  {
    if n == 0 then {}
    else
      assert IsPlace(n);
      FirstJoins(m, s, kind, n - 1) + {SlotId(m, s, JoinPart(kind, n))}
  }

  function UsedJoins(m: nat, placed: seq<Placed>, kind: Kind): set<Id>
    requires ArePlaced(m, placed)
  {
    if placed == [] then {}
    else FirstJoins(m, placed[0].slot, kind, |IdsOfKind(placed[0], kind)|) + UsedJoins(m, placed[1..], kind)
  }

  function IdsOfKind(p: Placed, kind: Kind): seq<Id> {
    if kind == Practice then p.practiceIds else p.quizIds
  }

  function Assigned(placed: seq<Placed>): set<Id> {
    if placed == [] then {} else (set id | id in placed[0].practiceIds + placed[0].quizIds) + Assigned(placed[1..])
  }

  function Named(placed: seq<Placed>): set<Slot> {
    set i | 0 <= i < |placed| :: placed[i].slot
  }

  function HideLessons(m: nat, named: set<Slot>): seq<Step> {
    HideStep(Lessons, HiddenIds(m, named, LessonPart), DeletedCol, Int(1)) +
    HideStep(Documents, HiddenIds(m, named, DocPart), DeletedCol, Int(1)) +
    HideStep(LessonLearnings, HiddenIds(m, named, LearningPart), StatusCol, Int(0)) +
    HideStep(LessonPractices, HiddenIds(m, named, PracticePart), StatusCol, Int(0)) +
    HideStep(LessonQuizzes, HiddenIds(m, named, QuizPart), StatusCol, Int(0))
  }

  function HideJoins(m: nat, placed: seq<Placed>): seq<Step>
    requires ArePlaced(m, placed)
  {
    HideStep(PracticeQuestions, JoinIds(m, Practice) - UsedJoins(m, placed, Practice), StatusCol, Int(0)) +
    HideStep(QuizQuestions, JoinIds(m, Quiz) - UsedJoins(m, placed, Quiz), StatusCol, Int(0))
  }

  function HideSteps(m: nat, placed: seq<Placed>): seq<Step>
    requires ArePlaced(m, placed)
  {
    HideLessons(m, Named(placed)) + HideJoins(m, placed) +
    HideStep(Questions, QuestionIds(m) - Assigned(placed), DeletedCol, Int(1))
  }

  /** The parts of the plan that go lesson by lesson. */
  datatype Round = LessonRows | QuestionRows | JoinRows | LessonTexts | QuestionTexts

  function RoundSteps(round: Round, m: nat, f: Flags, p: Placed): seq<Step>
    requires IsPlaced(m, p)
  {
    match round
    case LessonRows => LessonSteps(m, f, p)
    case QuestionRows => QuestionSteps(f, p.lesson.practice, p.practiceIds) + QuestionSteps(f, p.lesson.quiz, p.quizIds)
    case JoinRows => JoinSteps(m, p.slot, Practice, p.practiceIds) + JoinSteps(m, p.slot, Quiz, p.quizIds)
    case LessonTexts => TextsOfLesson(m, f, p)
    case QuestionTexts =>
      TextsOfSet(m, f, p.lesson.practice, p.practiceIds) + TextsOfSet(m, f, p.lesson.quiz, p.quizIds)
  }

  function ForEach(round: Round, m: nat, f: Flags, placed: seq<Placed>): seq<Step>
    requires ArePlaced(m, placed)
  {
    if placed == [] then [] else RoundSteps(round, m, f, placed[0]) + ForEach(round, m, f, placed[1..])
  }

  /** Every row of the plan, parents before the rows that hang from them. */
  function RowSteps(c: Content, f: Flags, placed: seq<Placed>, status: int, levelPoints: int,
                    gradePoints: int): seq<Step>
    requires c.number >= 0 && ArePlaced(c.number, placed)
  {
    var m := c.number;
    ProgrammeSteps(c, f, status, levelPoints, gradePoints) +
    ForEach(LessonRows, m, f, placed) + ForEach(QuestionRows, m, f, placed) + ForEach(JoinRows, m, f, placed)
  }

  function TextSteps(c: Content, f: Flags, placed: seq<Placed>): seq<Step>
    requires c.number >= 0 && ArePlaced(c.number, placed)
  {
    ProgrammeTexts(c, f) + ForEach(LessonTexts, c.number, f, placed) + ForEach(QuestionTexts, c.number, f, placed)
  }

  /** The steps in order: the rows, the texts that hang from them, then what is hidden. */
  function PlanSteps(c: Content, f: Flags, placed: seq<Placed>, status: int, levelPoints: int,
                     gradePoints: int): seq<Step>
    requires c.number >= 0 && ArePlaced(c.number, placed)
  {
    RowSteps(c, f, placed, status, levelPoints, gradePoints) + TextSteps(c, f, placed) + HideSteps(c.number, placed)
  }
}
