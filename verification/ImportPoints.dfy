/** The points an import computes in closed form are the sums that central keeps. */
module ImportPoints {
  import opened Values
  import opened Sums
  import opened ImportSlots
  import opened ImportContent
  import opened ImportSteps
  import opened ImportPlan
  import opened ImportRows
  import opened ImportRun
  import opened ImportLaws
  import opened ImportSequence
  import Points

  // ---- the database as central's points read it --------------------------------------------------

  function RefOf(v: Val): Id {
    if v.Ref? then v.id else Other("")
  }

  function CentralLesson(row: Columns): Points.Lesson {
    Points.Lesson(RefOf(Cell(row, LevelCol)), NumberIn(Cell(row, TotalPointsCol)),
                  NumberIn(Cell(row, StatusCol)) == 1, NumberIn(Cell(row, DeletedCol)) != 0)
  }

  function CentralLevel(row: Columns): Points.Level {
    Points.Level(RefOf(Cell(row, GradeCol)), NumberIn(Cell(row, PointsCol)), NumberIn(Cell(row, QuizPointsCol)),
                 NumberIn(Cell(row, StatusCol)) == 1, NumberIn(Cell(row, DeletedCol)) != 0)
  }

  function RowIds(db: Db, table: Table): (ids: set<Id>)
    ensures forall id :: id in ids <==> Key(table, id) in db.rows
  {
    var ids := set k | k in db.rows && k.table == table :: k.id;
    assert forall id :: Key(table, id) in db.rows ==> Key(table, id).id in ids;
    ids
  }

  /** The rows central's points are made of. One row stands for all the active quiz rows of a level. */
  function CentralOf(db: Db): Points.State {
    Points.State(
      map id | id in RowIds(db, Lessons) :: CentralLesson(db.rows[Key(Lessons, id)]),
      map id | id in RowIds(db, Levels) :: CentralLevel(db.rows[Key(Levels, id)]),
      map id | id in RowIds(db, Grades) :: NumberIn(Cell(db.rows[Key(Grades, id)], PointsCol)),
      map id | id in db.quizRows && db.quizRows[id] > 0 :: Points.QuizRow(id, true))
  }

  // ---- the lessons of a level, the module's and others -------------------------------------------

  /** A lesson of the module's level that a learner can reach. */
  predicate IsLiveLesson(db: Db, m: nat, id: Id) {
    Key(Lessons, id) in db.rows && Cell(db.rows[Key(Lessons, id)], LevelCol) == Ref(LevelId(m)) &&
    IsOn(db.rows[Key(Lessons, id)])
  }

  function Worth(db: Db, id: Id): int
    requires Key(Lessons, id) in db.rows
  {
    NumberIn(Cell(db.rows[Key(Lessons, id)], TotalPointsCol))
  }

  function LiveLessons(db: Db, m: nat): map<Id, int> {
    map id | id in RowIds(db, Lessons) && IsLiveLesson(db, m, id) :: Worth(db, id)
  }

  /** Lessons of the module's level that are none of the module's: a person put them there. */
  function Strangers(db: Db, m: nat): map<Id, int> {
    map id | id in RowIds(db, Lessons) && IsLiveLesson(db, m, id) && !IsSlotLesson(m, id) :: Worth(db, id)
  }

  /** Lessons of the file that a person moved to another level. */
  function Away(db: Db, m: nat, named: seq<Id>): map<Id, int> {
    map id | id in RowIds(db, Lessons) && id in named &&
    Cell(db.rows[Key(Lessons, id)], LevelCol) != Ref(LevelId(m)) :: Worth(db, id)
  }

  /** The quiz points of a level that has a quiz, and that a person moved to another grade. */
  function QuizElsewhere(db: Db, m: nat): int {
    var k := Key(Levels, LevelId(m));
    var withQuiz := LevelId(m) in db.quizRows && db.quizRows[LevelId(m)] > 0;
    if k in db.rows && !HasLevel(db, m) && withQuiz then NumberIn(Cell(db.rows[k], QuizPointsCol)) else 0
  }

  predicate IsSlotLesson(m: nat, id: Id) {
    exists s :: s in AllSlots(m) && id == SlotId(m, s, LessonPart)
  }

  /** The level holds the module's lessons, and no others. */
  ghost predicate HoldsOnlyItsLessons(db: Db, m: nat) {
    forall k :: k in db.rows && k.table == Lessons ==>
        (Cell(db.rows[k], LevelCol) == Ref(LevelId(m)) <==> IsSlotLesson(m, k.id))
  }

  function LessonKey(m: nat, p: Placed): Key
    requires IsPlaced(m, p)
  {
    Key(Lessons, SlotId(m, p.slot, LessonPart))
  }

  /** The ids of the lessons a file names. */
  function LessonIdsOf(m: nat, placed: seq<Placed>): seq<Id>
    requires ArePlaced(m, placed)
  {
    seq(|placed|, i requires 0 <= i < |placed| => LessonKey(m, placed[i]).id)
  }

  lemma LessonRoundOf(c: Content, f: Flags, db: Db, step: Step, k: Key) returns (i: nat)
    requires Acceptable(c) && step in StepsFor(c, f, db) && step.Upsert? && step.key == k && k.table == Lessons
    ensures i < |PlacedOf(c)| && IsPlaced(c.number, PlacedOf(c)[i]) && k == LessonKey(c.number, PlacedOf(c)[i])
  {
    hide HideSteps, ForEach, AskApart, AsksFrom, LessonsOk, PlacedOf, GradePoints, LevelPoints, LevelStatus, LevelId,
         StepsFor, AllRoundIds, RoundSteps, IsPlaced, SlotId;
    AcceptableIsWellPlaced(c);
    var m, placed, t := c.number, PlacedOf(c), RowTarget(k);
    StepsForComeFrom(c, f, db, step);
    if step in HideSteps(m, placed) { HideLeaves(m, f, placed, step); }
    var round: Round :| step in ForEach(round, m, f, placed);
    ForEachFits(round, m, f, placed);
    InZone(ForEach(round, m, f, placed), AllRoundIds(round, m, placed), RoundTables(round), RoundWritesTexts(round),
           step, t);
    i := FromForEach(round, m, f, placed, step);
    LessonUpsertIs(m, f, placed[i], step);
  }

  lemma LessonUpsertIs(m: nat, f: Flags, p: Placed, step: Step)
    requires IsPlaced(m, p) && step in RoundSteps(LessonRows, m, f, p) && step.Upsert? && step.key.table == Lessons
    ensures step.key == LessonKey(m, p)
  {
    hide SlotId, LevelId, PassingPoints;
  }

  lemma UnnamedHasItsHide(m: nat, placed: seq<Placed>, s: Slot) returns (step: Step)
    requires ArePlaced(m, placed) && IsSlot(m, s) && s !in Named(placed)
    ensures step in HideSteps(m, placed) && step.Hide? && step.column == DeletedCol && step.value == Int(1)
    ensures Touches(step, RowTarget(Key(Lessons, SlotId(m, s, LessonPart))))
  {
    hide Named, SlotId, HideSteps, IsPlaced;
    var ids := HiddenIds(m, Named(placed), LessonPart);
    assert s in AllSlots(m) && SlotId(m, s, LessonPart) in ids;
    step := Hide(Lessons, ids, DeletedCol, Int(1));
    assert step in HideStep(Lessons, ids, DeletedCol, Int(1));
    HideLessonIsIn(m, placed, step);
  }

  /** A lesson of the module that the file does not name is hidden. */
  lemma UnnamedIsHidden(c: Content, f: Flags, stamp: string, holders: Placeholders, db: Db, s: Slot)
    requires Accepted(c, f, stamp, holders, db) && Acceptable(c) && IsSlot(c.number, s) && s !in Named(PlacedOf(c))
    ensures var after, k := Import(c, f, stamp, holders, db).value.0, Key(Lessons, SlotId(c.number, s, LessonPart));
            k in after.rows ==> Cell(after.rows[k], DeletedCol) == Int(1)
  {
    hide Import, StepsFor, LessonsOk, PlacedOf, Separate, Apply, Named, SlotId, HideSteps, Touches, Holds, Cell,
         LevelStatus, LevelPoints, GradePoints;
    AcceptedRunIs(c, f, stamp, holders, db);
    var step := UnnamedHasItsHide(c.number, PlacedOf(c), s);
    StepsForComeFrom(c, f, db, step);
    ApplyMakesEachHold(WithLanguage(db, f.organisation), stamp, StepsFor(c, f, db));
    var k := Key(Lessons, SlotId(c.number, s, LessonPart));
    if k in Imported(c, f, stamp, db).rows { HeldHide(Imported(c, f, stamp, db), step, k); }
  }

  lemma HideLessonIsIn(m: nat, placed: seq<Placed>, step: Step)
    requires ArePlaced(m, placed) &&
             step in HideStep(Lessons, HiddenIds(m, Named(placed), LessonPart), DeletedCol, Int(1))
    ensures step in HideSteps(m, placed)
  {
    hide HideStep, HiddenIds, Named, HideJoins, QuestionIds, Assigned, IsPlaced;
  }

  /** A lesson row that a step touches is in one of the module's slots. */
  lemma TouchedLessonIsSlots(c: Content, f: Flags, db: Db, step: Step, id: Id)
    requires Acceptable(c) && step in StepsFor(c, f, db) && Touches(step, RowTarget(Key(Lessons, id)))
    ensures IsSlotLesson(c.number, id)
  {
    hide HideSteps, ForEach, LessonsOk, PlacedOf, GradePoints, LevelPoints, LevelStatus, LevelId, StepsFor, RoundSteps,
         IsPlaced, SlotId;
    AcceptableIsWellPlaced(c);
    StepsForComeFrom(c, f, db, step);
    if step in HideSteps(c.number, PlacedOf(c)) {
      HiddenLessonIsSlots(c.number, PlacedOf(c), step, id);
    } else {
      if round: Round :| step in ForEach(round, c.number, f, PlacedOf(c)) {
        var j := FromForEach(round, c.number, f, PlacedOf(c), step);
        RoundLeaves(round, c.number, f, PlacedOf(c)[j], step);
      }
      var i := LessonRoundOf(c, f, db, step, Key(Lessons, id));
      SlotLessonIs(c.number, PlacedOf(c)[i]);
    }
  }

  lemma SlotLessonIs(m: nat, p: Placed)
    requires IsPlaced(m, p)
    ensures IsSlotLesson(m, LessonKey(m, p).id)
  {
    hide SlotId;
    assert p.slot in AllSlots(m);
  }

  lemma HiddenLessonIsSlots(m: nat, placed: seq<Placed>, step: Step, id: Id)
    requires ArePlaced(m, placed) && step in HideSteps(m, placed) && Touches(step, RowTarget(Key(Lessons, id)))
    ensures IsSlotLesson(m, id)
  {
    hide SlotId, JoinIds, UsedJoins, Named, Assigned, QuestionIds, IsPlaced, ArePlaced;
  }

  /** A lesson row in none of the module's slots stays as it is. */
  lemma StrangerStays(c: Content, f: Flags, stamp: string, holders: Placeholders, db: Db, id: Id)
    requires Accepted(c, f, stamp, holders, db) && Acceptable(c) && !IsSlotLesson(c.number, id)
    ensures var after, k := Import(c, f, stamp, holders, db).value.0, Key(Lessons, id);
            (k in after.rows <==> k in db.rows) && (k in db.rows ==> after.rows[k] == db.rows[k])
  {
    hide Import, StepsFor, Touches, Apply, LessonsOk, IsSlotLesson;
    AcceptedRunIs(c, f, stamp, holders, db);
    var k := Key(Lessons, id);
    forall step | step in StepsFor(c, f, db) ensures !Touches(step, RowTarget(k)) {
      if Touches(step, RowTarget(k)) { TouchedLessonIsSlots(c, f, db, step, id); }
    }
    UntouchedRow(WithLanguage(db, f.organisation), stamp, StepsFor(c, f, db), k);
  }

  lemma LiveSlotIsNamed(c: Content, f: Flags, stamp: string, holders: Placeholders, db: Db, id: Id)
    requires Accepted(c, f, stamp, holders, db) && Acceptable(c) && ArePlaced(c.number, PlacedOf(c)) &&
             IsSlotLesson(c.number, id)
    requires IsLiveLesson(Import(c, f, stamp, holders, db).value.0, c.number, id)
    ensures id in LessonIdsOf(c.number, PlacedOf(c))
  {
    hide Import, LessonsOk, PlacedOf, Named, SlotId, LevelId;
    var m, placed := c.number, PlacedOf(c);
    var s :| s in AllSlots(m) && id == SlotId(m, s, LessonPart);
    if s in Named(placed) {
      NamedSlotIsListed(m, placed, s);
    } else {
      UnnamedIsHidden(c, f, stamp, holders, db, s);
      assert false;
    }
  }

  lemma NamedSlotIsListed(m: nat, placed: seq<Placed>, s: Slot)
    requires ArePlaced(m, placed) && s in Named(placed) && IsSlot(m, s)
    ensures SlotId(m, s, LessonPart) in LessonIdsOf(m, placed)
  {
    hide SlotId;
    var i :| 0 <= i < |placed| && placed[i].slot == s;
    assert LessonIdsOf(m, placed)[i] == SlotId(m, s, LessonPart);
  }

  /** A named lesson is on after the run, in the level it was in, and worth what it was worth. */
  lemma NamedIsOn(c: Content, f: Flags, stamp: string, holders: Placeholders, db: Db, i: nat)
    requires Accepted(c, f, stamp, holders, db) && Acceptable(c) && ArePlaced(c.number, PlacedOf(c)) &&
             i < |PlacedOf(c)|
    ensures var after, k := Import(c, f, stamp, holders, db).value.0, LessonKey(c.number, PlacedOf(c)[i]);
            k in after.rows && IsOn(after.rows[k]) && IsSlotLesson(c.number, k.id) &&
            (k !in db.rows ==> Cell(after.rows[k], LevelCol) == Ref(LevelId(c.number))) &&
            (k in db.rows ==> Cell(after.rows[k], LevelCol) == Cell(db.rows[k], LevelCol) &&
                              Cell(after.rows[k], TotalPointsCol) == Cell(db.rows[k], TotalPointsCol))
  {
    hide Import, LessonsOk, PlacedOf, SlotId, LevelId, LessonStep, Cell, IsSlotLesson;
    var p := PlacedOf(c)[i];
    assert IsPlaced(c.number, p);
    LessonAfter(c, f, stamp, holders, db, i);
    LessonStepIs(c.number, p);
    SlotLessonIs(c.number, p);
    assert LevelCol in KEPT_COLUMNS && TotalPointsCol in KEPT_COLUMNS;
  }

  lemma LessonIdsDiffer(m: nat, placed: seq<Placed>, i: nat, j: nat)
    requires WellPlaced(m, placed) && ArePlaced(m, placed) && i < j < |placed|
    ensures LessonIdsOf(m, placed)[i] != LessonIdsOf(m, placed)[j]
  {
    hide SlotId, AskApart, AsksFrom;
    assert IsPlaced(m, placed[i]) && IsPlaced(m, placed[j]);
    SlotIdsAreDistinct(m, placed[i].slot, LessonPart, m, placed[j].slot, LessonPart);
  }

  // ---- the level's points ------------------------------------------------------------------------

  function NamedLessons(db: Db, named: seq<Id>): map<Id, int> {
    map id | id in RowIds(db, Lessons) && id in named :: Worth(db, id)
  }

  /** The plan's sum over the placed lessons is the sum over their rows, in whatever order. */
  lemma NamedSumIs(after: Db, m: nat, placed: seq<Placed>)
    requires ArePlaced(m, placed) && forall id :: id in LessonIdsOf(m, placed) ==> Key(Lessons, id) in after.rows
    requires forall i, j :: 0 <= i < j < |placed| ==> LessonIdsOf(m, placed)[i] != LessonIdsOf(m, placed)[j]
    ensures SumOf(NamedLessons(after, LessonIdsOf(m, placed))) == Total(LessonPointsOf(after, m, placed))
  {
    hide SlotId, LevelId, Cell;
    var ids := LessonIdsOf(m, placed);
    var named := NamedLessons(after, ids);
    assert named.Keys == set id | id in ids;
    SumOfKeys(named, ids);
    var values := seq(|ids|, i requires 0 <= i < |ids| && ids[i] in named => named[ids[i]]);
    forall i | 0 <= i < |placed| ensures values[i] == LessonPoints(after, m, placed[i].slot) {
      assert ids[i] in ids && IsPlaced(m, placed[i]);
    }
    assert values == LessonPointsOf(after, m, placed);
  }

  /** The file's lessons that are in the level. */
  function Here(db: Db, m: nat, named: seq<Id>): map<Id, int> {
    map id | id in RowIds(db, Lessons) && id in named &&
    Cell(db.rows[Key(Lessons, id)], LevelCol) == Ref(LevelId(m)) :: Worth(db, id)
  }

  lemma LiveAreHereOrStrangers(db: Db, m: nat, named: seq<Id>)
    requires forall id :: IsLiveLesson(db, m, id) && IsSlotLesson(m, id) <==>
             id in named && Key(Lessons, id) in db.rows && Cell(db.rows[Key(Lessons, id)], LevelCol) == Ref(LevelId(m))
    ensures SumOf(LiveLessons(db, m)) == SumOf(Here(db, m, named)) + SumOf(Strangers(db, m))
  {
    hide IsSlotLesson, LevelId, IsOn, Worth, Cell, IsLiveLesson, SumOf;
    SumSplits(LiveLessons(db, m), Here(db, m, named), Strangers(db, m));
  }

  lemma NamedAreHereOrAway(db: Db, m: nat, named: seq<Id>)
    ensures SumOf(NamedLessons(db, named)) == SumOf(Here(db, m, named)) + SumOf(Away(db, m, named))
  {
    hide LevelId, Worth, Cell, SumOf;
    SumSplits(NamedLessons(db, named), Here(db, m, named), Away(db, m, named));
  }

  /** A run neither brings strangers nor moves lessons. */
  lemma RestIsAsBefore(c: Content, f: Flags, stamp: string, holders: Placeholders, db: Db)
    requires Accepted(c, f, stamp, holders, db) && Acceptable(c) && ArePlaced(c.number, PlacedOf(c))
    ensures var after, m, named := Import(c, f, stamp, holders, db).value.0, c.number,
            LessonIdsOf(c.number, PlacedOf(c));
            Strangers(after, m) == Strangers(db, m) && Away(after, m, named) == Away(db, m, named)
  {
    hide Import, LessonsOk, PlacedOf, SlotId, LevelId, Cell, IsSlotLesson, IsOn;
    var after, m, placed := Import(c, f, stamp, holders, db).value.0, c.number, PlacedOf(c);
    forall id | !IsSlotLesson(m, id)
      ensures (id in RowIds(after, Lessons) <==> id in RowIds(db, Lessons)) &&
              (id in RowIds(db, Lessons) ==> after.rows[Key(Lessons, id)] == db.rows[Key(Lessons, id)])
    {
      StrangerStays(c, f, stamp, holders, db, id);
    }
    assert Strangers(after, m) == Strangers(db, m);
    forall id | id in LessonIdsOf(m, placed)
      ensures var k := Key(Lessons, id);
              k in after.rows && (k !in db.rows ==> Cell(after.rows[k], LevelCol) == Ref(LevelId(m))) &&
              (k in db.rows ==>
                 Cell(after.rows[k], LevelCol) == Cell(db.rows[k], LevelCol) && Worth(after, id) == Worth(db, id))
    {
      var i :| 0 <= i < |placed| && LessonIdsOf(m, placed)[i] == id;
      NamedIsOn(c, f, stamp, holders, db, i);
    }
    assert Away(after, m, LessonIdsOf(m, placed)) == Away(db, m, LessonIdsOf(m, placed));
  }

  lemma LiveLessonIs(db: Db, m: nat, id: Id)
    ensures IsLiveLesson(db, m, id) <==>
            Key(Lessons, id) in db.rows && Cell(db.rows[Key(Lessons, id)], LevelCol) == Ref(LevelId(m)) &&
            IsOn(db.rows[Key(Lessons, id)])
  {
  }

  lemma CentralLessonsAre(db: Db, m: nat)
    ensures Points.LessonPoints(CentralOf(db), LevelId(m)) == LiveLessons(db, m)
  {
    hide Cell;
    var s := CentralOf(db);
    forall id ensures Points.Reached(s, id, LevelId(m)) <==> IsLiveLesson(db, m, id) {
    }
    assert Points.LessonPoints(s, LevelId(m)).Keys == LiveLessons(db, m).Keys;
  }

  /** Central counts a level's quiz points whatever grade it is in; the plan, in its own grade only. */
  lemma CentralQuizIs(db: Db, m: nat)
    requires Consistent(db) && Key(Levels, LevelId(m)) in db.rows
    ensures var s := CentralOf(db);
            (if Points.HasQuiz(s, LevelId(m)) then s.levels[LevelId(m)].quizPoints else 0) == LevelQuizPoints(db, m) +
            QuizElsewhere(db, m)
  {
    hide Cell, LevelId;
    var s, id := CentralOf(db), LevelId(m);
    if id in db.quizRows && db.quizRows[id] > 0 {
      assert id in s.quizRows && s.quizRows[id] == Points.QuizRow(id, true);
    }
  }

  /**
   What an import writes as the level's points, and central's own sum over what is there afterwards: they differ by the
   strangers' points, the quiz points of a level in another grade, and the points of the lessons that are away.
   */
  lemma LevelPointsAreOffBy(c: Content, f: Flags, stamp: string, holders: Placeholders, db: Db)
    requires Accepted(c, f, stamp, holders, db) && Acceptable(c) && Consistent(db) && ArePlaced(c.number, PlacedOf(c))
    ensures var s, m := CentralOf(Import(c, f, stamp, holders, db).value.0), c.number;
            LevelId(m) in s.levels &&
            s.levels[LevelId(m)].points + SumOf(Strangers(db, m)) + QuizElsewhere(db, m) ==
            Points.LevelSum(s, LevelId(m)) + SumOf(Away(db, m, LessonIdsOf(m, PlacedOf(c))))
  {
    hide Import, StepsFor, LessonsOk, PlacedOf, Separate, SlotId, LevelId, Cell, IsLiveLesson, IsSlotLesson, AskApart,
         AsksFrom, LevelQuizPoints,
         QuizElsewhere, IsOn, Strangers, Away;
    AcceptedRunIs(c, f, stamp, holders, db);
    var after, m, placed := Import(c, f, stamp, holders, db).value.0, c.number, PlacedOf(c);
    var named := LessonIdsOf(m, placed);
    forall i, j | 0 <= i < j < |placed| ensures named[i] != named[j] {
      LessonIdsDiffer(m, placed, i, j);
    }
    forall id | id in named
      ensures Key(Lessons, id) in after.rows && IsOn(after.rows[Key(Lessons, id)]) && IsSlotLesson(m, id)
    {
      var i :| 0 <= i < |placed| && named[i] == id;
      NamedIsOn(c, f, stamp, holders, db, i);
    }
    forall id | IsLiveLesson(after, m, id) && IsSlotLesson(m, id) ensures id in named {
      LiveSlotIsNamed(c, f, stamp, holders, db, id);
    }
    NamedSumIs(after, m, placed);
    forall id ensures IsLiveLesson(after, m, id) && IsSlotLesson(m, id) <==>
                      id in named && Key(Lessons, id) in after.rows &&
                      Cell(after.rows[Key(Lessons, id)], LevelCol) == Ref(LevelId(m)) {
      LiveLessonIs(after, m, id);
    }
    LiveAreHereOrStrangers(after, m, named);
    NamedAreHereOrAway(after, m, named);
    RestIsAsBefore(c, f, stamp, holders, db);
    LevelIsWorth(c, f, stamp, holders, db);
  }

  lemma LevelIsWorth(c: Content, f: Flags, stamp: string, holders: Placeholders, db: Db)
    requires Accepted(c, f, stamp, holders, db) && Acceptable(c) && Consistent(db)
    ensures var after, m := Import(c, f, stamp, holders, db).value.0, c.number;
            var s := CentralOf(after);
            LevelId(m) in s.levels &&
            s.levels[LevelId(m)].points == Total(LessonPointsOf(after, m, PlacedOf(c))) + LevelQuizPoints(after, m) &&
            Points.LevelSum(s, LevelId(m)) == SumOf(LiveLessons(after, m)) + LevelQuizPoints(after, m) +
            QuizElsewhere(db, m)
  {
    hide Import, LessonsOk, PlacedOf, LevelId, Cell, LevelQuizPoints, LiveLessons, LessonPointsOf;
    var after, m := Import(c, f, stamp, holders, db).value.0, c.number;
    OwnLevelAfter(c, f, stamp, holders, db);
    LevelPointsAgain(c, f, stamp, holders, db);
    RestAfter(c, f, stamp, holders, db);
    forall id | id in after.quizRows && after.quizRows[id] > 0 ensures Key(Levels, id) in after.rows {
      RowsStay(c, f, stamp, holders, db, Key(Levels, id));
    }
    CentralLessonsAre(after, m);
    CentralQuizIs(after, m);
    assert QuizElsewhere(after, m) == QuizElsewhere(db, m);
  }

  /**
   When the level holds the module's lessons and no others, the level's points are central's sum if and only if the
   level is in the programme's grade, or new, or has no quiz worth anything.
   */
  lemma LevelPointsAreTheSum(c: Content, f: Flags, stamp: string, holders: Placeholders, db: Db)
    requires Accepted(c, f, stamp, holders, db) && Acceptable(c) && Consistent(db) && HoldsOnlyItsLessons(db, c.number)
    ensures var s, m := CentralOf(Import(c, f, stamp, holders, db).value.0), c.number;
            var k := Key(Levels, LevelId(m));
            LevelId(m) in s.levels &&
            (s.levels[LevelId(m)].points == Points.LevelSum(s, LevelId(m)) <==>
             k !in db.rows || HasLevel(db, m) || LevelId(m) !in db.quizRows || db.quizRows[LevelId(m)] == 0 ||
             NumberIn(Cell(db.rows[k], QuizPointsCol)) == 0)
  {
    hide Import, PlacedOf, LevelId, Cell, ArePlaced, LessonIdsOf, Strangers, Away, HoldsOnlyItsLessons, HasLevel,
         CentralOf, QuizElsewhere, Points.LevelSum, SumOf, Accepted, LessonsOk, Consistent, Imported, StepsFor,
         Separate, WellPlaced;
    AcceptedRunIs(c, f, stamp, holders, db);
    LevelPointsAreOffBy(c, f, stamp, holders, db);
    NoneElsewhere(db, c.number, PlacedOf(c));
    NothingSumsToZero();
    NoQuizElsewhere(db, c.number);
  }

  lemma NothingSumsToZero()
    ensures SumOf<Id>(map[]) == 0
  {
  }

  lemma NoQuizElsewhere(db: Db, m: nat)
    ensures QuizElsewhere(db, m) == 0 <==>
            Key(Levels, LevelId(m)) !in db.rows || HasLevel(db, m) || LevelId(m) !in db.quizRows ||
            db.quizRows[LevelId(m)] == 0 ||
            NumberIn(Cell(db.rows[Key(Levels, LevelId(m))], QuizPointsCol)) == 0
  {
    hide LevelId, Cell;
  }

  lemma NoneElsewhere(db: Db, m: nat, placed: seq<Placed>)
    requires HoldsOnlyItsLessons(db, m) && ArePlaced(m, placed)
    ensures Strangers(db, m) == map[] && Away(db, m, LessonIdsOf(m, placed)) == map[]
  {
    hide LevelId, Cell, SlotId, IsSlotLesson, IsOn;
    forall id | id in LessonIdsOf(m, placed) ensures IsSlotLesson(m, id) {
      var i :| 0 <= i < |placed| && LessonIdsOf(m, placed)[i] == id;
      SlotLessonIs(m, placed[i]);
    }
    forall id | id in RowIds(db, Lessons)
      ensures Cell(db.rows[Key(Lessons, id)], LevelCol) == Ref(LevelId(m)) <==> IsSlotLesson(m, id)
    {
      assert Key(Lessons, id) in db.rows;
    }
  }

  // ---- the grade's points ------------------------------------------------------------------------

  function LevelsById(points: map<Key, int>): map<Id, int>
    requires forall k :: k in points ==> k.table == Levels
  {
    var ids := set k | k in points :: k.id;
    assert forall id :: id in ids ==> Key(Levels, id) in points;
    map id | id in ids :: points[Key(Levels, id)]
  }

  /** Summing by id is summing by key. */
  lemma {:induction false} SumById(points: map<Key, int>)
    requires forall k :: k in points ==> k.table == Levels
    ensures SumOf(LevelsById(points)) == SumOf(points)
    decreases points
  {
    if points == map[] {
      assert LevelsById(points) == map[];
    } else {
      var k :| k in points;
      TakeOut(points, k);
      TakeOut(LevelsById(points), k.id);
      assert LevelsById(points) - {k.id} == LevelsById(points - {k});
      SumById(points - {k});
    }
  }

  lemma CentralCounts(db: Db, id: Id)
    ensures Points.Counts(CentralOf(db), id, GRADE) <==>
            IsLevelOfGrade(db, Key(Levels, id)) && IsOn(db.rows[Key(Levels, id)])
  {
    hide Cell;
  }

  lemma SiblingsById(db: Db, m: nat, id: Id)
    ensures forall k :: k in SiblingPoints(db, m) ==> k.table == Levels
    ensures id in LevelsById(SiblingPoints(db, m)) <==> id != LevelId(m) && Points.Counts(CentralOf(db), id, GRADE)
    ensures id in LevelsById(SiblingPoints(db, m)) ==>
            LevelsById(SiblingPoints(db, m))[id] == CentralOf(db).levels[id].points
  {
    hide Cell, LevelId;
    CentralCounts(db, id);
    assert Key(Levels, id) in SiblingPoints(db, m) <==> id in LevelsById(SiblingPoints(db, m));
  }

  /** Central's sum over the grade: the other levels, and the module's own when it counts. */
  lemma CentralGradeIs(db: Db, m: nat)
    ensures var s := CentralOf(db);
            Points.GradeSum(s, GRADE) ==
            SumOf(SiblingPoints(db, m)) + if Points.Counts(s, LevelId(m), GRADE) then s.levels[LevelId(m)].points else 0
  {
    hide Cell, LevelId, CentralOf, SiblingPoints, LevelsById, SumOf;
    var s, own := CentralOf(db), LevelId(m);
    var siblings := SiblingPoints(db, m);
    SiblingsById(db, m, own);
    var counted, others := Points.LevelPointsOf(s, GRADE), LevelsById(siblings);
    SumById(siblings);
    forall id
      ensures (id in counted <==> id in others || (id == own && Points.Counts(s, own, GRADE))) &&
              (id in others ==> counted[id] == others[id])
    {
      SiblingsById(db, m, id);
    }
    if Points.Counts(s, own, GRADE) {
      assert counted == others[own := s.levels[own].points];
      PutIn(others, own, s.levels[own].points);
    } else {
      assert counted == others;
    }
  }

  /** Central counts the level towards the grade when it is on and in the grade: it stays where it was. */
  lemma LevelCountsAfter(c: Content, f: Flags, stamp: string, holders: Placeholders, db: Db)
    requires Accepted(c, f, stamp, holders, db) && Acceptable(c)
    ensures var s, m := CentralOf(Import(c, f, stamp, holders, db).value.0), c.number;
            LevelId(m) in s.levels && s.levels[LevelId(m)].points == LevelPoints(db, m, PlacedOf(c)) &&
            (Points.Counts(s, LevelId(m), GRADE) <==>
             LevelStatus(db, m, f.live) == 1 && (Key(Levels, LevelId(m)) !in db.rows || HasLevel(db, m)))
  {
    hide Import, LessonsOk, PlacedOf, LevelId, LevelPoints, Cell;
    OwnLevelAfter(c, f, stamp, holders, db);
    FlagsWereGood(c, f, stamp, holders, db);
    CentralCounts(Import(c, f, stamp, holders, db).value.0, LevelId(c.number));
  }

  /**
   The grade's points are central's sum if and only if the level is worth nothing, or is switched off, or is on and in
   the programme's grade, or new.
   */
  lemma GradePointsAreTheSum(c: Content, f: Flags, stamp: string, holders: Placeholders, db: Db)
    requires Accepted(c, f, stamp, holders, db) && Acceptable(c) && Consistent(db)
    ensures var s, m := CentralOf(Import(c, f, stamp, holders, db).value.0), c.number;
            var status := LevelStatus(db, m, f.live);
            GRADE in s.grades &&
            (s.grades[GRADE] == Points.GradeSum(s, GRADE) <==>
             LevelPoints(db, m, PlacedOf(c)) == 0 || status == 0 ||
             (status == 1 && (Key(Levels, LevelId(m)) !in db.rows || HasLevel(db, m))))
  {
    hide Import, LessonsOk, PlacedOf, LevelId, LevelPoints, LevelStatus, SiblingPoints, Cell, HasLevel,
         Points.GradeSum, Points.Counts, SumOf;
    var after, m := Import(c, f, stamp, holders, db).value.0, c.number;
    GradeRowAfter(c, f, stamp, holders, db);
    LevelCountsAfter(c, f, stamp, holders, db);
    GradePointsAgain(c, f, stamp, holders, db, LevelStatus(db, m, f.live), LevelPoints(db, m, PlacedOf(c)));
    CentralGradeIs(after, m);
  }

  lemma {:induction false} TotalOfNew(values: seq<int>)
    requires forall i :: 0 <= i < |values| ==> values[i] == LESSON_TOTAL_POINTS
    ensures Total(values) == LESSON_TOTAL_POINTS * |values|
  {
    if values != [] {
      TotalOfNew(values[1..]);
    }
  }

  /** Without lesson rows every lesson of the file is new, and worth the same. */
  lemma NewLessonsAreWorth(db: Db, m: nat, placed: seq<Placed>)
    requires forall k :: k in db.rows ==> k.table != Lessons
    ensures LevelPoints(db, m, placed) == LESSON_TOTAL_POINTS * |placed| + LevelQuizPoints(db, m)
  {
    hide LevelQuizPoints, LessonId;
    TotalOfNew(LessonPointsOf(db, m, placed));
  }

  /**
   Module 1's level, moved to another grade and with an active quiz: a live run is accepted, and neither the level's
   points nor the grade's are central's sums.
   */
  lemma MovedLevelIsMiscounted(c: Content, f: Flags, stamp: string, holders: Placeholders, db: Db)
    requires Acceptable(c) && c.number == 1 && !KeepsSome(c.lessons) && f.live == Some(true) && IsText(f.organisation)
    requires f.organisation in db.languages && db.languages[f.organisation].None?
    requires db.rows == map[Key(Levels, LevelId(1)) :=
                            map[GradeCol := Ref(Other("another grade")), QuizPointsCol := Int(20)]]
    requires db.translations == map[] && db.quizRows == map[LevelId(1) := 1]
    ensures Accepted(c, f, stamp, holders, db)
    ensures var s := CentralOf(Import(c, f, stamp, holders, db).value.0);
            LevelId(1) in s.levels && s.levels[LevelId(1)].points != Points.LevelSum(s, LevelId(1)) &&
            GRADE in s.grades && s.grades[GRADE] != Points.GradeSum(s, GRADE)
  {
    hide Import, LessonsOk, PlacedOf, LevelId, LevelPoints, CentralOf, Points.LevelSum, Points.GradeSum, IsText,
         KeepsSome, IsSlotLesson;
    FirstImport(c, f, stamp, holders, db);
    LevelPointsAreTheSum(c, f, stamp, holders, db);
    GradePointsAreTheSum(c, f, stamp, holders, db);
    NewLessonsAreWorth(db, 1, PlacedOf(c));
    SomeArePlaced(c);
  }

  lemma SomeArePlaced(c: Content)
    requires Acceptable(c)
    ensures |PlacedOf(c)| > 0
  {
    hide LessonsOk;
    var i := NamedIsPlaced(c, c.lessons[0]);
  }

  lemma GradeRowAfter(c: Content, f: Flags, stamp: string, holders: Placeholders, db: Db)
    requires Accepted(c, f, stamp, holders, db) && Acceptable(c)
    ensures var after, m := Import(c, f, stamp, holders, db).value.0, c.number;
            var status, levelPoints := LevelStatus(db, m, f.live), LevelPoints(db, m, PlacedOf(c));
            Key(Grades, GRADE) in after.rows &&
            Cell(after.rows[Key(Grades, GRADE)], PointsCol) == Int(GradePoints(db, m, status, levelPoints))
  {
    hide Import, StepsFor, LessonsOk, LevelPoints, PlacedOf, LevelId, GradePoints, Separate, LevelStatus;
    AcceptedRunIs(c, f, stamp, holders, db);
    var m := c.number;
    var status, levelPoints := LevelStatus(db, m, f.live), LevelPoints(db, m, PlacedOf(c));
    var gradePoints := GradePoints(db, m, status, levelPoints);
    ProgrammeStepsAreIn(c, f, db, gradePoints);
    var step := ProgrammeSteps(c, f, status, levelPoints, gradePoints)[1];
    assert step in StepsFor(c, f, db);
    RowAfter(c, f, stamp, holders, db, step);
  }
}
