/** What an import switches off: after an accepted run whatever of the module the file does not name is hidden. */
module ImportHides {
  import opened Values
  import opened ImportSlots
  import opened ImportContent
  import opened ImportSteps
  import opened ImportPlan
  import opened ImportRows
  import opened ImportRun
  import opened ImportLaws
  import opened ImportFile

  /** The row, when it is there, has this value in this column. */
  ghost predicate IsSet(db: Db, table: Table, id: Id, column: Column, value: Val) {
    Key(table, id) in db.rows ==> Cell(db.rows[Key(table, id)], column) == value
  }

  /** The plan hides these rows of the table. */
  ghost predicate IsHideOf(m: nat, placed: seq<Placed>, table: Table, ids: set<Id>, column: Column, value: Val)
    requires ArePlaced(m, placed)
  {
    forall step :: step in HideStep(table, ids, column, value) ==> step in HideSteps(m, placed)
  }

  /** A hide of the plan has been done. */
  lemma HideIsDone(c: Content, f: Flags, stamp: string, holders: Placeholders, db: Db, table: Table, ids: set<Id>,
                   column: Column, value: Val, id: Id)
    requires Accepted(c, f, stamp, holders, db) && Acceptable(c) && ArePlaced(c.number, PlacedOf(c))
    requires IsHideOf(c.number, PlacedOf(c), table, ids, column, value) && id in ids
    ensures IsSet(Import(c, f, stamp, holders, db).value.0, table, id, column, value)
  {
    hide Import, StepsFor, LessonsOk, PlacedOf, HideSteps, Separate, Apply, ArePlaced, Touches, Holds, LevelPoints,
         GradePoints, LevelStatus, Cell;
    AcceptedRunIs(c, f, stamp, holders, db);
    var step := Hide(table, ids, column, value);
    assert step in HideStep(table, ids, column, value);
    StepsForComeFrom(c, f, db, step);
    ApplyMakesEachHold(WithLanguage(db, f.organisation), stamp, StepsFor(c, f, db));
    var k, after := Key(table, id), Imported(c, f, stamp, db);
    HidesTouch(table, ids, column, value, id);
    if k in after.rows { HeldHide(after, step, k); }
  }

  lemma HidesTouch(table: Table, ids: set<Id>, column: Column, value: Val, id: Id)
    requires id in ids
    ensures Touches(Hide(table, ids, column, value), RowTarget(Key(table, id)))
  {
  }

  lemma HidesAreIn(m: nat, placed: seq<Placed>)
    requires ArePlaced(m, placed)
    ensures IsHideOf(m, placed, Lessons, HiddenIds(m, Named(placed), LessonPart), DeletedCol, Int(1))
    ensures IsHideOf(m, placed, Documents, HiddenIds(m, Named(placed), DocPart), DeletedCol, Int(1))
    ensures IsHideOf(m, placed, LessonLearnings, HiddenIds(m, Named(placed), LearningPart), StatusCol, Int(0))
    ensures IsHideOf(m, placed, LessonPractices, HiddenIds(m, Named(placed), PracticePart), StatusCol, Int(0))
    ensures IsHideOf(m, placed, LessonQuizzes, HiddenIds(m, Named(placed), QuizPart), StatusCol, Int(0))
    ensures IsHideOf(m, placed, PracticeQuestions, JoinIds(m, Practice) - UsedJoins(m, placed, Practice), StatusCol,
                     Int(0))
    ensures IsHideOf(m, placed, QuizQuestions, JoinIds(m, Quiz) - UsedJoins(m, placed, Quiz), StatusCol, Int(0))
    ensures IsHideOf(m, placed, Questions, QuestionIds(m) - Assigned(placed), DeletedCol, Int(1))
  {
    hide HideStep, HiddenIds, Named, JoinIds, UsedJoins, QuestionIds, Assigned, ArePlaced;
  }

  // ---- lessons -----------------------------------------------------------------------------------

  /** The file has a lesson in this slot: of this id, or of this order. */
  ghost predicate HasLesson(c: Content, s: Slot) {
    exists l :: l in c.lessons && match s
                                  case Fixed(n) => l.id == Some(Seed(0x07 + n))
                                  case Further(n) => l.id.None? && l.order == n
  }

  lemma NamedIsInFile(c: Content, s: Slot)
    requires Acceptable(c) && IsSlot(c.number, s) && s in Named(PlacedOf(c))
    ensures HasLesson(c, s)
  {
    hide LessonsOk, PlacedOf;
    var i :| 0 <= i < |PlacedOf(c)| && PlacedOf(c)[i].slot == s;
    PlacedIsItsLesson(c, i);
    LessonsOkParts(c.number, c.lessons);
    assert PlaceOk(c.number, PlacedOf(c)[i].lesson);
  }

  lemma PlacedIsItsLesson(c: Content, i: nat)
    requires Acceptable(c) && i < |PlacedOf(c)|
    ensures PlacedOf(c)[i].lesson in c.lessons && PlacedOf(c)[i].slot == SlotOf(PlacedOf(c)[i].lesson)
  {
    PlacedAt(c, i);
  }

  lemma SlotIsHidden(m: nat, named: set<Slot>, s: Slot, part: Part)
    requires IsSlot(m, s) && s !in named && IsMain(part)
    ensures IsPart(s, part) && SlotId(m, s, part) in HiddenIds(m, named, part)
  {
    hide SlotId;
    assert s in AllSlots(m);
  }

  lemma PartIsHidden(c: Content, f: Flags, stamp: string, holders: Placeholders, db: Db, s: Slot, part: Part,
                     table: Table,
                     column: Column, value: Val)
    requires Accepted(c, f, stamp, holders, db) && Acceptable(c) && ArePlaced(c.number, PlacedOf(c)) && IsMain(part)
    requires IsSlot(c.number, s) && s !in Named(PlacedOf(c))
    requires IsHideOf(c.number, PlacedOf(c), table, HiddenIds(c.number, Named(PlacedOf(c)), part), column, value)
    ensures IsSet(Import(c, f, stamp, holders, db).value.0, table, SlotId(c.number, s, part), column, value)
  {
    hide Import, LessonsOk, PlacedOf, Named, HiddenIds, IsHideOf, IsSet, ArePlaced, SlotId;
    SlotIsHidden(c.number, Named(PlacedOf(c)), s, part);
    HideIsDone(c, f, stamp, holders, db, table, HiddenIds(c.number, Named(PlacedOf(c)), part), column, value,
               SlotId(c.number, s, part));
  }

  ghost predicate IsDeleted(m: nat, s: Slot, after: Db)
    requires IsSlot(m, s)
  {
    IsSet(after, Lessons, SlotId(m, s, LessonPart), DeletedCol, Int(1)) &&
    IsSet(after, Documents, SlotId(m, s, DocPart), DeletedCol, Int(1))
  }

  ghost predicate AreItemsOff(m: nat, s: Slot, after: Db)
    requires IsSlot(m, s)
  {
    IsSet(after, LessonLearnings, SlotId(m, s, LearningPart), StatusCol, Int(0)) &&
    IsSet(after, LessonPractices, SlotId(m, s, PracticePart), StatusCol, Int(0)) &&
    IsSet(after, LessonQuizzes, SlotId(m, s, QuizPart), StatusCol, Int(0))
  }

  lemma UnnamedIs(c: Content, s: Slot)
    requires Acceptable(c) && IsSlot(c.number, s) && !HasLesson(c, s)
    ensures ArePlaced(c.number, PlacedOf(c)) && s !in Named(PlacedOf(c))
  {
    hide LessonsOk, PlacedOf, HasLesson;
    AcceptableIsWellPlaced(c);
    if s in Named(PlacedOf(c)) { NamedIsInFile(c, s); }
  }

  lemma UnnamedPartIsSet(c: Content, f: Flags, stamp: string, holders: Placeholders, db: Db, s: Slot, part: Part,
                         table: Table,
                  column: Column, value: Val)
    requires Accepted(c, f, stamp, holders, db) && Acceptable(c) && IsSlot(c.number, s) && !HasLesson(c, s)
    requires (table, part, column, value) in
             {(Lessons, LessonPart, DeletedCol, Int(1)), (Documents, DocPart, DeletedCol, Int(1)),
              (LessonLearnings, LearningPart, StatusCol, Int(0)), (LessonPractices, PracticePart, StatusCol, Int(0)),
              (LessonQuizzes, QuizPart, StatusCol, Int(0))}
    ensures IsSet(Import(c, f, stamp, holders, db).value.0, table, SlotId(c.number, s, part), column, value)
  {
    hide Accepted, Import, LessonsOk, PlacedOf, Named, SlotId, IsHideOf, HiddenIds, IsSet, HasLesson, ArePlaced, IsSlot;
    UnnamedIs(c, s);
    assert IsHideOf(c.number, PlacedOf(c), table, HiddenIds(c.number, Named(PlacedOf(c)), part), column, value) by {
      HidesAreIn(c.number, PlacedOf(c));
    }
    PartIsHidden(c, f, stamp, holders, db, s, part, table, column, value);
  }

  /** A lesson of the module that the file does not name is deleted, with its document. */
  lemma UnnamedLessonIsDeleted(c: Content, f: Flags, stamp: string, holders: Placeholders, db: Db, s: Slot)
    requires Accepted(c, f, stamp, holders, db) && Acceptable(c) && IsSlot(c.number, s) && !HasLesson(c, s)
    ensures IsDeleted(c.number, s, Import(c, f, stamp, holders, db).value.0)
  {
    hide Accepted, Import, LessonsOk, IsSet, HasLesson, IsSlot, SlotId;
    UnnamedPartIsSet(c, f, stamp, holders, db, s, LessonPart, Lessons, DeletedCol, Int(1));
    UnnamedPartIsSet(c, f, stamp, holders, db, s, DocPart, Documents, DeletedCol, Int(1));
  }

  /** And its learning item, its practice and its quiz are switched off. */
  lemma UnnamedItemsAreOff(c: Content, f: Flags, stamp: string, holders: Placeholders, db: Db, s: Slot)
    requires Accepted(c, f, stamp, holders, db) && Acceptable(c) && IsSlot(c.number, s) && !HasLesson(c, s)
    ensures AreItemsOff(c.number, s, Import(c, f, stamp, holders, db).value.0)
  {
    hide Accepted, Import, LessonsOk, IsSet, HasLesson, IsSlot, SlotId;
    UnnamedPartIsSet(c, f, stamp, holders, db, s, LearningPart, LessonLearnings, StatusCol, Int(0));
    UnnamedPartIsSet(c, f, stamp, holders, db, s, PracticePart, LessonPractices, StatusCol, Int(0));
    UnnamedPartIsSet(c, f, stamp, holders, db, s, QuizPart, LessonQuizzes, StatusCol, Int(0));
  }

  // ---- places in a set ---------------------------------------------------------------------------

  /** The file's lesson in this slot has a question of this kind in this place. */
  ghost predicate HasQuestion(c: Content, s: Slot, kind: Kind, place: nat) {
    exists l :: l in c.lessons && place <= |SetIn(l, kind)| && match s
                                                               case Fixed(n) => l.id == Some(Seed(0x07 + n))
                                                               case Further(n) => l.id.None? && l.order == n
  }

  lemma {:induction false} UsedJoinIsOf(m: nat, placed: seq<Placed>, kind: Kind, s: Slot, place: nat) returns (i: nat)
    requires ArePlaced(m, placed) && IsSlot(m, s) && IsPlace(place) &&
             SlotId(m, s, JoinPart(kind, place)) in UsedJoins(m, placed, kind)
    ensures i < |placed| && placed[i].slot == s && place <= |IdsOfKind(placed[i], kind)|
  {
    hide SlotId, FirstJoins;
    var id := SlotId(m, s, JoinPart(kind, place));
    assert IsPlaced(m, placed[0]);
    if id in FirstJoins(m, placed[0].slot, kind, |IdsOfKind(placed[0], kind)|) {
      i := 0;
      var j: nat :| IsPlace(j) && j <= |IdsOfKind(placed[0], kind)| &&
          id == SlotId(m, placed[0].slot, JoinPart(kind, j));
      SlotIdsAreDistinct(m, s, JoinPart(kind, place), m, placed[0].slot, JoinPart(kind, j));
    } else {
      var rest := UsedJoinIsOf(m, placed[1..], kind, s, place);
      i := rest + 1;
    }
  }

  lemma JoinIdIsIn(m: nat, s: Slot, kind: Kind, place: nat)
    requires IsSlot(m, s) && IsPlace(place)
    ensures SlotId(m, s, JoinPart(kind, place)) in JoinIds(m, kind)
  {
    hide SlotId, FourOf, FourOfEach, AllSlots;
    assert s in AllSlots(m);
    assert SlotId(m, s, JoinPart(kind, place)) == SlotId(m, s, PlacePart(true, kind, place));
    assert SlotId(m, s, JoinPart(kind, place)) in FourOf(m, s, true, kind);
  }

  lemma UsedPlaceIsAsked(c: Content, s: Slot, kind: Kind, place: nat)
    requires Acceptable(c) && ArePlaced(c.number, PlacedOf(c)) && IsSlot(c.number, s) && IsPlace(place)
    requires SlotId(c.number, s, JoinPart(kind, place)) in UsedJoins(c.number, PlacedOf(c), kind)
    ensures HasQuestion(c, s, kind, place)
  {
    hide LessonsOk, PlacedOf, SlotId, UsedJoins;
    var i := UsedJoinIsOf(c.number, PlacedOf(c), kind, s, place);
    PlacedIsItsLesson(c, i);
    LessonsOkParts(c.number, c.lessons);
    assert IsPlaced(c.number, PlacedOf(c)[i]) && PlaceOk(c.number, PlacedOf(c)[i].lesson);
  }

  /** A place of a set that the file leaves empty is switched off. */
  lemma UnusedPlaceIsOff(c: Content, f: Flags, stamp: string, holders: Placeholders, db: Db, s: Slot, kind: Kind,
                         place: nat)
    requires Accepted(c, f, stamp, holders, db) && Acceptable(c) && IsSlot(c.number, s) && IsPlace(place)
    requires !HasQuestion(c, s, kind, place)
    ensures IsSet(Import(c, f, stamp, holders, db).value.0, if kind == Practice then PracticeQuestions
                                                            else QuizQuestions,
                  SlotId(c.number, s, JoinPart(kind, place)), StatusCol, Int(0))
  {
    hide Import, LessonsOk, PlacedOf, SlotId, IsHideOf, IsSet, UsedJoins, JoinIds, HiddenIds, QuestionIds, Assigned;
    var m, placed := c.number, PlacedOf(c);
    AcceptableIsWellPlaced(c);
    HidesAreIn(m, placed);
    var id := SlotId(m, s, JoinPart(kind, place));
    JoinIdIsIn(m, s, kind, place);
    if id in UsedJoins(m, placed, kind) { UsedPlaceIsAsked(c, s, kind, place); }
    HideIsDone(c, f, stamp, holders, db, if kind == Practice then PracticeQuestions else QuizQuestions,
               JoinIds(m, kind) - UsedJoins(m, placed, kind), StatusCol, Int(0), id);
  }

  // ---- questions ---------------------------------------------------------------------------------

  /** The file gives this id to one of its questions. */
  ghost predicate IsAsked(c: Content, id: Id) {
    c.number >= 0 &&
    exists l, kind, j: nat :: l in c.lessons && j < |SetIn(l, kind)| && id == AskedId(c.number, c.lessons, l, kind, j)
  }

  lemma {:induction false} AssignedIsOf(placed: seq<Placed>, id: Id) returns (i: nat, kind: Kind, j: nat)
    requires id in Assigned(placed)
    ensures i < |placed| && j < |IdsOfKind(placed[i], kind)| && IdsOfKind(placed[i], kind)[j] == id
  {
    if id in placed[0].practiceIds {
      i, kind := 0, Practice;
      j :| 0 <= j < |placed[0].practiceIds| && placed[0].practiceIds[j] == id;
    } else if id in placed[0].quizIds {
      i, kind := 0, Quiz;
      j :| 0 <= j < |placed[0].quizIds| && placed[0].quizIds[j] == id;
    } else {
      i, kind, j := AssignedIsOf(placed[1..], id);
      i := i + 1;
    }
  }

  /** A question of the module's own ids that the file does not ask is deleted. */
  lemma UnaskedQuestionIsHidden(c: Content, f: Flags, stamp: string, holders: Placeholders, db: Db, id: Id)
    requires Accepted(c, f, stamp, holders, db) && Acceptable(c) && IsQuestionId(c.number, id) && !IsAsked(c, id)
    ensures IsSet(Import(c, f, stamp, holders, db).value.0, Questions, id, DeletedCol, Int(1))
  {
    hide Import, LessonsOk, PlacedOf, SlotId, IsHideOf, IsSet, UsedJoins, JoinIds, HiddenIds, QuestionIds, Assigned,
         AskedId,
         IsQuestionId, IsAsked, ArePlaced;
    var m, placed := c.number, PlacedOf(c);
    AcceptableIsWellPlaced(c);
    HidesAreIn(m, placed);
    QuestionIdsAre(m, id);
    if id in Assigned(placed) {
      AssignedIsAsked(c, id);
    }
    HideIsDone(c, f, stamp, holders, db, Questions, QuestionIds(m) - Assigned(placed), DeletedCol, Int(1), id);
  }

  lemma AssignedIsAsked(c: Content, id: Id)
    requires Acceptable(c) && id in Assigned(PlacedOf(c))
    ensures IsAsked(c, id)
  {
    hide LessonsOk, PlacedOf, AskedId, Assigned;
    var i, kind, j := AssignedIsOf(PlacedOf(c), id);
    AcceptableIsWellPlaced(c);
    assert IsPlaced(c.number, PlacedOf(c)[i]);
    PlacedIsItsLesson(c, i);
    QuestionsGetTheirIds(c, i, kind, j);
  }
}
