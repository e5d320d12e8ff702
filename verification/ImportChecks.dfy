/** When an import is accepted, told by the file, the flags and what is stored: exactly which runs go through. */
module ImportChecks {
  import opened Values
  import opened ImportSlots
  import opened ImportContent
  import opened ImportSteps
  import opened ImportPlan
  import opened ImportRows
  import opened ImportRun
  import opened ImportLaws
  import opened ImportSequence
  import opened ImportFile
  import opened ImportTexts

  // ---- the conditions ----------------------------------------------------------------------------

  /** A level shown or hidden: Module 1 is never hidden, and a level that is not in the grade yet needs a flag. */
  ghost predicate SwitchIsGood(c: Content, f: Flags, db: Db)
    requires c.number >= 0
  {
    var k := Key(Levels, LevelId(c.number));
    match f.live
    case Some(on) => on || c.number != 1
    case None => k in db.rows && Cell(db.rows[k], GradeCol) == Ref(GRADE)
  }

  /** A lesson known by its order has the name it had. */
  ghost predicate NamesStay(c: Content, db: Db)
    requires c.number >= 0
  {
    forall l :: l in c.lessons && l.id.None? && Key(Lessons, RowId(c.number, l, LessonPart)) in db.rows ==>
      Cell(db.rows[Key(Lessons, RowId(c.number, l, LessonPart))], NameCol) == Text(l.name.en)
  }

  /** An active row puts the question in the set. */
  ghost predicate IsIn(db: Db, table: Table, question: Id) {
    exists k ::
      k in db.rows && k.table == table && Cell(db.rows[k], StatusCol) == Int(1) &&
      Cell(db.rows[k], QuestionCol) == Ref(question)
  }

  ghost predicate IsFirstStored(list: seq<StoredOption>, i: nat) {
    i < |list| && list[i].correct && forall j :: 0 <= j < i ==> !list[j].correct
  }

  ghost predicate IsFirstInFile(choices: seq<Choice>, i: nat) {
    i < |choices| && choices[i].correct && forall j :: 0 <= j < i ==> !choices[j].correct
  }

  /** A stored question keeps its set, its number of options and its correct option, unless it is still the seed's. */
  ghost predicate QuestionStays(db: Db, holders: Placeholders, kind: Kind, q: Question, id: Id) {
    Key(Questions, id) !in db.rows ||
    var row := db.rows[Key(Questions, id)];
    (id in holders && IsPlaceholder(row, holders[id])) ||
    (((!IsIn(db, PracticeQuestions, id) && !IsIn(db, QuizQuestions, id)) ||
      IsIn(db, if kind == Practice then PracticeQuestions else QuizQuestions, id)) &&
     (Cell(row, OptionsCol).Options? ==>
        var list := Cell(row, OptionsCol).list;
        |list| == |q.choices| && forall i: nat :: IsFirstStored(list, i) <==> IsFirstInFile(q.choices, i)))
  }

  function PointsIn(row: Columns, column: Column, fallback: int): int {
    if Cell(row, column).Int? && Cell(row, column).n > 0 then Cell(row, column).n else fallback
  }

  /**
   A stored lesson can be passed with the sets the file gives it: by its own mark, or by 80 per cent of its points.
   */
  ghost predicate CanBePassed(row: Columns, l: Lesson) {
    var reach := PointsIn(row, LearningPointsCol, 20) +
        (if l.quiz != [] then PointsIn(row, QuizzesPointsCol, 40) else 0) +
                 (if l.practice != [] then PointsIn(row, PracticesPointsCol, 40) else 0);
    var passing, total := NumberIn(Cell(row, PassingPointsCol)), NumberIn(Cell(row, TotalPointsCol));
    if passing > 0 then passing <= reach else total > 0 ==> 80 * total <= 100 * reach
  }

  /** The organisation is there and its content language is English, or not chosen yet. */
  ghost predicate LanguageIsGood(db: Db, organisation: string) {
    organisation in db.languages &&
    (db.languages[organisation].None? || Lower(db.languages[organisation].value) == "en")
  }

  /** What the run hangs from is there: a later module's programme, and the document of every video kept. */
  ghost predicate HangsFromSomething(c: Content, db: Db)
    requires c.number >= 0
  {
    (c.number != 1 ==> Key(Curriculums, CURRICULUM) in db.rows && Key(Grades, GRADE) in db.rows) &&
    forall l :: l in c.lessons && l.video.Keep? ==>
      var k := Key(Documents, RowId(c.number, l, DocPart)); k in db.rows && NumberIn(Cell(db.rows[k], DeletedCol)) == 0
  }

  ghost predicate IsFree(db: Db, organisation: string, table: Table, id: Id) {
    Key(table, id) in db.rows ==>
      Cell(db.rows[Key(table, id)], OrganisationCol) == Val.Null ||
      Cell(db.rows[Key(table, id)], OrganisationCol) == Text(organisation)
  }

  /** The curriculum, the documents and the questions it writes are nobody else's. */
  ghost predicate RowsAreFree(c: Content, f: Flags, db: Db)
    requires c.number >= 0
  {
    IsFree(db, f.organisation, Curriculums, CURRICULUM) &&
    (forall l :: l in c.lessons ==> IsFree(db, f.organisation, Documents, RowId(c.number, l, DocPart))) &&
    forall l, kind, j: nat :: l in c.lessons && j < |SetIn(l, kind)| ==>
        IsFree(db, f.organisation, Questions, AskedId(c.number, c.lessons, l, kind, j))
  }

  // ---- each is what the run checks ---------------------------------------------------------------

  lemma SwitchIs(c: Content, f: Flags, db: Db)
    requires c.number >= 0
    ensures SwitchIsGood(c, f, db) <==> !BadSwitch(db, c.number, f.live)
  {
    hide LevelId;
    if f.live.Some? && f.live.value {
      assert f.live == Some(true);
    } else if f.live.Some? {
      assert f.live == Some(false);
    }
  }

  lemma NamesAre(c: Content, db: Db)
    requires Acceptable(c)
    ensures NamesStay(c, db) <==> !RenamesSome(db, c)
  {
    hide LessonsOk, RowId, SlotId, PlaceOk;
    LessonsOkParts(c.number, c.lessons);
    forall l | l in c.lessons
      ensures RenamesLesson(db, c.number, l) <==>
              l.id.None? && Key(Lessons, RowId(c.number, l, LessonPart)) in db.rows &&
              Cell(db.rows[Key(Lessons, RowId(c.number, l, LessonPart))], NameCol) != Text(l.name.en)
    {
      RowIdIs(c.number, l, LessonPart);
      FurtherIsWithoutId(c.number, l);
    }
  }

  lemma FurtherIsWithoutId(m: nat, l: Lesson)
    requires PlaceOk(m, l)
    ensures SlotOf(l).Further? <==> l.id.None?
  {
  }

  lemma SetsAre(db: Db, kind: Kind, id: Id)
    ensures InSet(db, kind, id) <==> IsIn(db, if kind == Practice then PracticeQuestions else QuizQuestions, id)
  {
  }

  ghost predicate IsFirst(flags: seq<bool>, i: nat) {
    i < |flags| && flags[i] && forall j :: 0 <= j < i ==> !flags[j]
  }

  lemma FirstIs(flags: seq<bool>, i: nat)
    ensures IsFirst(flags, i) <==> i == FirstTrue(flags) && i < |flags|
  {
  }

  lemma FirstStoredIs(list: seq<StoredOption>, i: nat)
    ensures IsFirstStored(list, i) <==> IsFirst(StoredFlags(list), i)
  {
    var flags := StoredFlags(list);
    assert |flags| == |list| && forall j :: 0 <= j < |list| ==> flags[j] == list[j].correct;
  }

  lemma FirstInFileIs(choices: seq<Choice>, i: nat)
    ensures IsFirstInFile(choices, i) <==> IsFirst(FileFlags(choices), i)
  {
    var flags := FileFlags(choices);
    assert |flags| == |choices| && forall j :: 0 <= j < |choices| ==> flags[j] == choices[j].correct;
  }

  lemma FirstsAre(list: seq<StoredOption>, choices: seq<Choice>)
    requires |list| == |choices|
    ensures FirstTrue(StoredFlags(list)) == FirstTrue(FileFlags(choices)) <==>
            forall i: nat :: IsFirstStored(list, i) <==> IsFirstInFile(choices, i)
  {
    hide IsFirst, IsFirstStored, IsFirstInFile, FirstTrue;
    var a, b := StoredFlags(list), FileFlags(choices);
    forall i: nat
      ensures IsFirstStored(list, i) <==> i == FirstTrue(a) && i < |a|
      ensures IsFirstInFile(choices, i) <==> i == FirstTrue(b) && i < |b|
    {
      FirstIs(a, i);
      FirstIs(b, i);
      FirstStoredIs(list, i);
      FirstInFileIs(choices, i);
    }
    assert FirstTrue(a) < |a| ==> IsFirstStored(list, FirstTrue(a));
    assert FirstTrue(b) < |b| ==> IsFirstInFile(choices, FirstTrue(b));
  }

  lemma QuestionIs(db: Db, holders: Placeholders, kind: Kind, q: Question, id: Id)
    ensures QuestionStays(db, holders, kind, q, id) <==> !AltersQuestion(db, holders, kind, q, id)
  {
    hide InSet, IsIn, IsPlaceholder, FirstTrue, StoredFlags, FileFlags, IsFirstStored, IsFirstInFile;
    SetsAre(db, Practice, id);
    SetsAre(db, Quiz, id);
    if Key(Questions, id) in db.rows && Cell(db.rows[Key(Questions, id)], OptionsCol).Options? {
      var list := Cell(db.rows[Key(Questions, id)], OptionsCol).list;
      FlagsAre(list, q.choices);
      if |list| == |q.choices| { FirstsAre(list, q.choices); }
    }
  }

  lemma FlagsAre(list: seq<StoredOption>, choices: seq<Choice>)
    ensures |StoredFlags(list)| == |list| && |FileFlags(choices)| == |choices|
  {
  }

  lemma PassIs(row: Columns, l: Lesson)
    ensures CanBePassed(row, l) <==> !OutOfReach(row, l)
  {
    hide Cell;
  }

  // ---- the questions and the lessons of the whole file -------------------------------------------

  ghost predicate QuestionsStay(c: Content, holders: Placeholders, db: Db)
    requires c.number >= 0
  {
    forall l, kind, j: nat :: l in c.lessons && j < |SetIn(l, kind)| ==>
      QuestionStays(db, holders, kind, SetIn(l, kind)[j], AskedId(c.number, c.lessons, l, kind, j))
  }

  ghost predicate LessonsCanBePassed(c: Content, db: Db)
    requires c.number >= 0
  {
    forall l :: l in c.lessons && Key(Lessons, RowId(c.number, l, LessonPart)) in db.rows ==>
      CanBePassed(db.rows[Key(Lessons, RowId(c.number, l, LessonPart))], l)
  }

  lemma SetChanges(c: Content, holders: Placeholders, db: Db, i: nat, kind: Kind)
    requires Acceptable(c) && i < |PlacedOf(c)| && IsPlaced(c.number, PlacedOf(c)[i])
    ensures |SetIn(PlacedOf(c)[i].lesson, kind)| == |IdsOfKind(PlacedOf(c)[i], kind)|
    ensures !ChangesSet(db, holders, kind, SetIn(PlacedOf(c)[i].lesson, kind), IdsOfKind(PlacedOf(c)[i], kind)) <==>
            forall j: nat :: j < |SetIn(PlacedOf(c)[i].lesson, kind)| ==>
              QuestionStays(db, holders, kind, SetIn(PlacedOf(c)[i].lesson, kind)[j],
                            AskedId(c.number, c.lessons, PlacedOf(c)[i].lesson, kind, j))
  {
    hide LessonsOk, PlacedOf, AltersQuestion, QuestionStays, AskedId;
    var p := PlacedOf(c)[i];
    var questions, ids := SetIn(p.lesson, kind), IdsOfKind(p, kind);
    forall j: nat | j < |questions|
      ensures AltersQuestion(db, holders, kind, questions[j], ids[j]) <==>
              !QuestionStays(db, holders, kind, questions[j], AskedId(c.number, c.lessons, p.lesson, kind, j))
    {
      QuestionsGetTheirIds(c, i, kind, j);
      QuestionIs(db, holders, kind, questions[j], ids[j]);
    }
  }

  lemma LessonChanges(c: Content, holders: Placeholders, db: Db, i: nat)
    requires Acceptable(c) && i < |PlacedOf(c)| && IsPlaced(c.number, PlacedOf(c)[i])
    ensures var l := PlacedOf(c)[i].lesson;
            !ChangesLesson(db, holders, c.number, PlacedOf(c)[i]) <==>
            (forall kind, j: nat :: j < |SetIn(l, kind)| ==>
               QuestionStays(db, holders, kind, SetIn(l, kind)[j], AskedId(c.number, c.lessons, l, kind, j))) &&
            (Key(Lessons, RowId(c.number, l, LessonPart)) in db.rows ==>
             CanBePassed(db.rows[Key(Lessons, RowId(c.number, l, LessonPart))], l))
  {
    hide LessonsOk, PlacedOf, ChangesSet, QuestionStays, AskedId, RowId, SlotId, OutOfReach, CanBePassed, PlaceOk;
    var l := PlacedOf(c)[i].lesson;
    SetChanges(c, holders, db, i, Practice);
    SetChanges(c, holders, db, i, Quiz);
    PlacedAtItsPlace(c, i);
    RowIdIs(c.number, l, LessonPart);
    var k := Key(Lessons, RowId(c.number, l, LessonPart));
    if k in db.rows { PassIs(db.rows[k], l); }
  }

  lemma PlacedAtItsPlace(c: Content, i: nat)
    requires Acceptable(c) && i < |PlacedOf(c)|
    ensures PlacedOf(c)[i].lesson in c.lessons && PlacedOf(c)[i].slot == SlotOf(PlacedOf(c)[i].lesson) &&
            PlaceOk(c.number, PlacedOf(c)[i].lesson)
  {
    hide LessonsOk, PlaceOk, Place, ByOrder;
    PlacedAt(c, i);
    LessonsOkParts(c.number, c.lessons);
  }

  lemma ChangesAre(c: Content, holders: Placeholders, db: Db)
    requires Acceptable(c) && ArePlaced(c.number, PlacedOf(c))
    ensures !ChangesSome(db, holders, c.number, PlacedOf(c)) <==>
            QuestionsStay(c, holders, db) && LessonsCanBePassed(c, db)
  {
    hide LessonsOk, PlacedOf, ChangesLesson, QuestionStays, AskedId, RowId, CanBePassed, PlaceOk;
    forall i | 0 <= i < |PlacedOf(c)|
      ensures IsPlaced(c.number, PlacedOf(c)[i]) && PlacedOf(c)[i].lesson in c.lessons
      ensures var l := PlacedOf(c)[i].lesson;
              !ChangesLesson(db, holders, c.number, PlacedOf(c)[i]) <==>
              (forall kind, j: nat :: j < |SetIn(l, kind)| ==>
                 QuestionStays(db, holders, kind, SetIn(l, kind)[j], AskedId(c.number, c.lessons, l, kind, j))) &&
              (Key(Lessons, RowId(c.number, l, LessonPart)) in db.rows ==>
               CanBePassed(db.rows[Key(Lessons, RowId(c.number, l, LessonPart))], l))
    {
      LessonChanges(c, holders, db, i);
      PlacedAtItsPlace(c, i);
    }
    forall l | l in c.lessons ensures exists i :: 0 <= i < |PlacedOf(c)| && PlacedOf(c)[i].lesson == l {
      var i := NamedIsPlaced(c, l);
    }
  }

  // ---- the language, and what the run hangs from -------------------------------------------------

  lemma LanguageIs(db: Db, organisation: string)
    ensures LanguageIsGood(db, organisation) <==> LanguageRefusal(db, organisation).None?
  {
  }

  lemma {:induction false} KeptVideoIsNeeded(m: nat, placed: seq<Placed>, i: nat)
    requires ArePlaced(m, placed) && i < |placed| && placed[i].lesson.video.Keep? && IsSlot(m, placed[i].slot)
    ensures Requirement(Key(Documents, SlotId(m, placed[i].slot, DocPart)), true) in KeptVideos(m, placed)
  {
    hide SlotId;
    if i > 0 { KeptVideoIsNeeded(m, placed[1..], i - 1); }
  }

  lemma {:induction false} NeededVideoIsKept(m: nat, placed: seq<Placed>, r: Requirement) returns (i: nat)
    requires ArePlaced(m, placed) && r in KeptVideos(m, placed)
    ensures i < |placed| && placed[i].lesson.video.Keep? && IsSlot(m, placed[i].slot)
    ensures r == Requirement(Key(Documents, SlotId(m, placed[i].slot, DocPart)), true)
  {
    hide SlotId;
    if r in KeptVideos(m, placed[1..]) {
      var j := NeededVideoIsKept(m, placed[1..], r);
      i := j + 1;
    } else {
      i := 0;
    }
  }

  ghost predicate VideoIsThere(db: Db, id: Id) {
    Key(Documents, id) in db.rows && NumberIn(Cell(db.rows[Key(Documents, id)], DeletedCol)) == 0
  }

  lemma VideosAre(c: Content, db: Db)
    requires Acceptable(c) && ArePlaced(c.number, PlacedOf(c))
    ensures (forall r :: r in KeptVideos(c.number, PlacedOf(c)) ==> !Missing(db, r)) <==>
            forall l :: l in c.lessons && l.video.Keep? ==> VideoIsThere(db, RowId(c.number, l, DocPart))
  {
    hide LessonsOk, PlacedOf, KeptVideos, RowId, SlotId, PlaceOk, ArePlaced;
    var m, placed := c.number, PlacedOf(c);
    if forall r :: r in KeptVideos(m, placed) ==> !Missing(db, r) {
      forall l | l in c.lessons && l.video.Keep? ensures VideoIsThere(db, RowId(m, l, DocPart)) {
        var i := NamedIsPlaced(c, l);
        PlacedAtItsPlace(c, i);
        RowIdIs(m, l, DocPart);
        KeptVideoIsNeeded(m, placed, i);
      }
    }
    if forall l :: l in c.lessons && l.video.Keep? ==> VideoIsThere(db, RowId(m, l, DocPart)) {
      forall r | r in KeptVideos(m, placed) ensures !Missing(db, r) {
        var i := NeededVideoIsKept(m, placed, r);
        PlacedAtItsPlace(c, i);
        RowIdIs(m, placed[i].lesson, DocPart);
      }
    }
  }

  lemma NeededAre(c: Content, db: Db)
    requires Acceptable(c) && ArePlaced(c.number, PlacedOf(c))
    ensures HangsFromSomething(c, db) <==> forall r :: r in Needed(c.number, PlacedOf(c)) ==> !Missing(db, r)
  {
    hide LessonsOk, PlacedOf, KeptVideos, RowId, ArePlaced;
    VideosAre(c, db);
    var m, videos, all := c.number, KeptVideos(c.number, PlacedOf(c)), Needed(c.number, PlacedOf(c));
    var rows := [Requirement(Key(Curriculums, CURRICULUM), false), Requirement(Key(Grades, GRADE), false)];
    assert all == (if m != 1 then rows else []) + videos;
    assert m != 1 ==> rows[0] in all && rows[1] in all;
    forall l | l in c.lessons && l.video.Keep?
      ensures VideoIsThere(db, RowId(m, l, DocPart)) <==>
              Key(Documents, RowId(m, l, DocPart)) in db.rows &&
              NumberIn(Cell(db.rows[Key(Documents, RowId(m, l, DocPart))], DeletedCol)) == 0
    {
    }
  }

  // ---- the rows that must be nobody else's -------------------------------------------------------

  lemma {:induction false} OwnedBySlot(m: nat, placed: seq<Placed>, i: nat, k: Key)
    requires ArePlaced(m, placed) && i < |placed| && IsSlot(m, placed[i].slot)
    requires k == Key(Documents, SlotId(m, placed[i].slot, DocPart)) ||
             (k.table == Questions && k.id in QuestionsOf(placed[i]))
    ensures k in OwnedBySlots(m, placed)
  {
    hide SlotId, QuestionsOf;
    var asked := QuestionsOf(placed[0]);
    var questions := seq(|asked|, n requires 0 <= n < |asked| => Key(Questions, asked[n]));
    assert OwnedBySlots(m, placed) ==
           [Key(Documents, SlotId(m, placed[0].slot, DocPart))] + questions + OwnedBySlots(m, placed[1..]);
    if i > 0 {
      OwnedBySlot(m, placed[1..], i - 1, k);
    } else if k.table == Questions {
      var n :| 0 <= n < |asked| && asked[n] == k.id;
      assert questions[n] == k;
    }
  }

  lemma {:induction false} OwnedComesFrom(m: nat, placed: seq<Placed>, k: Key) returns (i: nat)
    requires ArePlaced(m, placed) && k in OwnedBySlots(m, placed)
    ensures i < |placed| && IsSlot(m, placed[i].slot)
    ensures k == Key(Documents, SlotId(m, placed[i].slot, DocPart)) ||
            (k.table == Questions && k.id in QuestionsOf(placed[i]))
  {
    hide SlotId, QuestionsOf;
    if k in OwnedBySlots(m, placed[1..]) {
      var j := OwnedComesFrom(m, placed[1..], k);
      i := j + 1;
    } else {
      i := 0;
    }
  }

  lemma FreeIs(db: Db, organisation: string, table: Table, id: Id)
    ensures IsFree(db, organisation, table, id) <==> !IsForeign(db, organisation, Key(table, id))
  {
  }

  /** A question id of a placed lesson is that of one of its questions. */
  lemma QuestionOf(p: Placed, id: Id) returns (kind: Kind, j: nat)
    requires id in QuestionsOf(p)
    ensures j < |IdsOfKind(p, kind)| && IdsOfKind(p, kind)[j] == id
  {
    if id in p.practiceIds {
      kind := Practice;
      j :| 0 <= j < |p.practiceIds| && p.practiceIds[j] == id;
    } else {
      kind := Quiz;
      j :| 0 <= j < |p.quizIds| && p.quizIds[j] == id;
    }
  }

  lemma AskedIsOwned(c: Content, l: Lesson, kind: Kind, j: nat)
    requires Acceptable(c) && ArePlaced(c.number, PlacedOf(c)) && l in c.lessons && j < |SetIn(l, kind)|
    ensures Key(Questions, AskedId(c.number, c.lessons, l, kind, j)) in Owned(c.number, PlacedOf(c))
  {
    hide LessonsOk, PlacedOf, AskedId, SetIn, OwnedBySlots, ArePlaced;
    var i := NamedIsPlaced(c, l);
    QuestionsGetTheirIds(c, i, kind, j);
    assert IsPlaced(c.number, PlacedOf(c)[i]) by { assert ArePlaced(c.number, PlacedOf(c));
                                                  PlacedIs(c.number, PlacedOf(c), i); }
    OwnedBySlot(c.number, PlacedOf(c), i, Key(Questions, AskedId(c.number, c.lessons, l, kind, j)));
  }

  lemma PlacedIs(m: nat, placed: seq<Placed>, i: nat)
    requires ArePlaced(m, placed) && i < |placed|
    ensures IsPlaced(m, placed[i])
  {
  }

  lemma VideoIsOwned(c: Content, l: Lesson)
    requires Acceptable(c) && ArePlaced(c.number, PlacedOf(c)) && l in c.lessons
    ensures Key(Documents, RowId(c.number, l, DocPart)) in Owned(c.number, PlacedOf(c))
  {
    hide LessonsOk, PlacedOf, RowId, SlotId, OwnedBySlots, ArePlaced, PlaceOk;
    var i := NamedIsPlaced(c, l);
    PlacedAtItsPlace(c, i);
    RowIdIs(c.number, l, DocPart);
    OwnedBySlot(c.number, PlacedOf(c), i, Key(Documents, RowId(c.number, l, DocPart)));
  }

  lemma OwnedIsNamed(c: Content, f: Flags, db: Db, k: Key)
    requires Acceptable(c) && ArePlaced(c.number, PlacedOf(c)) && RowsAreFree(c, f, db) &&
             k in Owned(c.number, PlacedOf(c))
    ensures IsFree(db, f.organisation, k.table, k.id)
  {
    hide LessonsOk, PlacedOf, RowId, AskedId, SlotId, OwnedBySlots, ArePlaced, PlaceOk, IsFree;
    var m, placed := c.number, PlacedOf(c);
    if k in OwnedBySlots(m, placed) {
      var i := OwnedComesFrom(m, placed, k);
      var p := placed[i];
      PlacedAtItsPlace(c, i);
      RowIdIs(m, p.lesson, DocPart);
      if k != Key(Documents, SlotId(m, p.slot, DocPart)) {
        var kind, j := QuestionOf(p, k.id);
        PlacedIs(m, placed, i);
        assert |IdsOfKind(p, kind)| == |SetIn(p.lesson, kind)|;
        QuestionsGetTheirIds(c, i, kind, j);
      }
    }
  }

  lemma OwnedAre(c: Content, f: Flags, db: Db)
    requires Acceptable(c) && ArePlaced(c.number, PlacedOf(c))
    ensures RowsAreFree(c, f, db) <==>
            forall k :: k in Owned(c.number, PlacedOf(c)) ==> !IsForeign(db, f.organisation, k)
  {
    hide LessonsOk, PlacedOf, RowId, AskedId, SlotId, OwnedBySlots, ArePlaced, IsFree, IsForeign;
    var owned := Owned(c.number, PlacedOf(c));
    forall table, id ensures IsFree(db, f.organisation, table, id) <==> !IsForeign(db, f.organisation, Key(table, id)) {
      FreeIs(db, f.organisation, table, id);
    }
    if RowsAreFree(c, f, db) {
      forall k | k in owned ensures !IsForeign(db, f.organisation, k) {
        OwnedIsNamed(c, f, db, k);
        assert k == Key(k.table, k.id);
      }
    }
    if forall k :: k in owned ==> !IsForeign(db, f.organisation, k) {
      assert owned[0] == Key(Curriculums, CURRICULUM);
      forall l | l in c.lessons ensures IsFree(db, f.organisation, Documents, RowId(c.number, l, DocPart)) {
        VideoIsOwned(c, l);
      }
      forall l, kind, j: nat | l in c.lessons && j < |SetIn(l, kind)|
        ensures IsFree(db, f.organisation, Questions, AskedId(c.number, c.lessons, l, kind, j))
      {
        AskedIsOwned(c, l, kind, j);
      }
    }
  }

  // ---- the texts ---------------------------------------------------------------------------------

  ghost predicate IsProgrammeText(c: Content, k: TKey)
    requires c.number >= 0
  {
    k.field == NameField && k.subkey == Whole &&
    ((k.table == Curriculums && k.row == CURRICULUM) || (k.table == Grades && k.row == GRADE) ||
     (k.table == Levels && k.row == LevelId(c.number)))
  }

  /** The lesson's name, in its row, its learning item's, its practice's or its quiz's. */
  ghost predicate IsLessonText(m: nat, l: Lesson, k: TKey) {
    k.field == NameField && k.subkey == Whole &&
    ((k.table == Lessons && k.row == RowId(m, l, LessonPart)) ||
     (k.table == LessonLearnings && k.row == RowId(m, l, LearningPart)) ||
     (k.table == LessonPractices && k.row == RowId(m, l, PracticePart)) ||
     (k.table == LessonQuizzes && k.row == RowId(m, l, QuizPart)))
  }

  ghost predicate IsQuestionText(c: Content, l: Lesson, kind: Kind, j: nat, k: TKey)
    requires c.number >= 0
  {
    j < |SetIn(l, kind)| && k.table == Questions && k.row == AskedId(c.number, c.lessons, l, kind, j) &&
    exists text :: IsTextOf(SetIn(l, kind)[j], k.row, k.field, k.subkey, text)
  }

  /** The file gives the text stored under this key. */
  ghost predicate IsTextOfFile(c: Content, k: TKey)
    requires c.number >= 0
  {
    IsProgrammeText(c, k) ||
    (exists l :: l in c.lessons && IsLessonText(c.number, l, k)) ||
    exists l, kind, j: nat :: l in c.lessons && IsQuestionText(c, l, kind, j, k)
  }

  ghost predicate TextsAreFree(c: Content, f: Flags, db: Db)
    requires c.number >= 0
  {
    forall k :: k in db.translations && IsTextOfFile(c, k) ==> db.translations[k].row.organisation == f.organisation
  }

  lemma ProgrammeTextsAre(c: Content, f: Flags, k: TKey)
    requires c.number >= 0
    ensures IsProgrammeText(c, k) <==> exists step :: step in ProgrammeTexts(c, f) && step.Translate? && step.tkey == k
  {
    hide LevelId;
    var texts := ProgrammeTexts(c, f);
    assert |texts| == 3;
    assert forall n :: 0 <= n < 3 ==> texts[n].Translate? && texts[n] in texts && IsProgrammeText(c, texts[n].tkey);
    assert IsProgrammeText(c, k) ==> k == texts[0].tkey || k == texts[1].tkey || k == texts[2].tkey;
  }

  lemma LessonTextsAre(m: nat, f: Flags, p: Placed, k: TKey)
    requires IsPlaced(m, p) && PlaceOk(m, p.lesson) && p.slot == SlotOf(p.lesson)
    ensures IsLessonText(m, p.lesson, k) <==>
            exists step :: step in TextsOfLesson(m, f, p) && step.Translate? && step.tkey == k
  {
    hide RowId, SlotId, PlaceOk;
    var l, texts := p.lesson, TextsOfLesson(m, f, p);
    RowIdIs(m, l, LessonPart);
    RowIdIs(m, l, LearningPart);
    RowIdIs(m, l, PracticePart);
    RowIdIs(m, l, QuizPart);
    assert |texts| == 4;
    assert forall n :: 0 <= n < 4 ==> texts[n].Translate? && texts[n] in texts && IsLessonText(m, l, texts[n].tkey);
    assert IsLessonText(m, l, k) ==>
           k == texts[0].tkey || k == texts[1].tkey || k == texts[2].tkey || k == texts[3].tkey;
  }

  lemma MessageTextIs(m: nat, f: Flags, q: Question, id: Id, good: bool, text: Option<Bilingual>, step: Step)
    requires step in MessageTexts(m, f, id, good, text)
    ensures text.Some? && step == TextStep(m, f, TKey(Questions, id, FeedbackField, Message(good)), text.value)
  {
    hide TextStep;
  }

  /** A text step of a question writes one of its texts. */
  lemma QuestionTextIs(m: nat, f: Flags, q: Question, id: Id, step: Step)
    requires step in TextsOfQuestion(m, f, q, id)
    ensures step.Translate? && step.tkey.table == Questions && step.tkey.row == id
    ensures exists text :: IsTextOf(q, id, step.tkey.field, step.tkey.subkey, text)
  {
    hide TextStep, MessageTexts, IsTextOf;
    var texts := TextsOfQuestion(m, f, q, id);
    var n :| 0 <= n < |texts| && texts[n] == step;
    if n < 2 {
      var k := TKey(Questions, id, if n == 0 then QuestionTextField else HeadingField, Whole);
      assert step == TextStep(m, f, k, q.text);
      TextStepIs(m, f, k, q.text);
      WholeTextIs(q, id);
    } else if n < 2 + |q.choices| {
      var k := TKey(Questions, id, OptionField, OptionKey(id, n - 1));
      assert step == TextStep(m, f, k, q.choices[n - 2].text);
      TextStepIs(m, f, k, q.choices[n - 2].text);
      OptionTextIs(q, id, n - 2);
    } else {
      FeedbackTextIs(m, f, q, id, step);
    }
  }

  lemma TextStepIs(m: nat, f: Flags, k: TKey, text: Bilingual)
    ensures TextStep(m, f, k, text).Translate? && TextStep(m, f, k, text).tkey == k
  {
  }

  lemma WholeTextIs(q: Question, id: Id)
    ensures IsTextOf(q, id, QuestionTextField, Whole, q.text) && IsTextOf(q, id, HeadingField, Whole, q.text)
  {
  }

  lemma OptionTextIs(q: Question, id: Id, n: nat)
    requires n < |q.choices|
    ensures IsTextOf(q, id, OptionField, OptionKey(id, n + 1), q.choices[n].text)
  {
  }

  lemma FeedbackTextIs(m: nat, f: Flags, q: Question, id: Id, step: Step)
    requires q.feedback.Some?
    requires step in MessageTexts(m, f, id, true, q.feedback.value.good) ||
             step in MessageTexts(m, f, id, false, q.feedback.value.bad)
    ensures step.Translate? && step.tkey.table == Questions && step.tkey.row == id
    ensures exists text :: IsTextOf(q, id, step.tkey.field, step.tkey.subkey, text)
  {
    hide TextStep;
    var good := step in MessageTexts(m, f, id, true, q.feedback.value.good);
    var text := if good then q.feedback.value.good else q.feedback.value.bad;
    MessageTextIs(m, f, q, id, good, text, step);
    var k := TKey(Questions, id, FeedbackField, Message(good));
    TextStepIs(m, f, k, text.value);
    assert IsTextOf(q, id, FeedbackField, Message(good), text.value);
  }

  lemma {:induction false} FromTextsOfSet(m: nat, f: Flags, questions: seq<Question>, ids: seq<Id>, step: Step)
      returns (j: nat)
    requires |questions| == |ids| && step in TextsOfSet(m, f, questions, ids)
    ensures j < |ids| && step in TextsOfQuestion(m, f, questions[j], ids[j])
  {
    hide TextsOfQuestion;
    if step in TextsOfQuestion(m, f, questions[0], ids[0]) {
      j := 0;
    } else {
      var n := FromTextsOfSet(m, f, questions[1..], ids[1..], step);
      j := n + 1;
    }
  }

  /** Each text of the file is written by a step of the run. */
  lemma FileTextHasStep(c: Content, f: Flags, db: Db, k: TKey) returns (step: Step)
    requires Acceptable(c) && ArePlaced(c.number, PlacedOf(c)) && IsTextOfFile(c, k)
    ensures step in StepsFor(c, f, db) && step.Translate? && step.tkey == k
  {
    hide StepsFor, LessonsOk, PlacedOf, TextStep, TextsOfLesson, TextsOfQuestion, IsTextOf, AskedId, RowId, SetIn,
         IdsOfKind,
         ProgrammeTexts, IsLessonText, IsProgrammeText, PlaceOk, ArePlaced, LevelPoints, GradePoints, LevelStatus;
    var m := c.number;
    if IsProgrammeText(c, k) {
      ProgrammeTextsAre(c, f, k);
      step :| step in ProgrammeTexts(c, f) && step.Translate? && step.tkey == k;
      StepsForComeFrom(c, f, db, step);
    } else if l :| l in c.lessons && IsLessonText(m, l, k) {
      var i := NamedIsPlaced(c, l);
      PlacedAtItsPlace(c, i);
      PlacedIs(m, PlacedOf(c), i);
      LessonTextsAre(m, f, PlacedOf(c)[i], k);
      step :| step in TextsOfLesson(m, f, PlacedOf(c)[i]) && step.Translate? && step.tkey == k;
      LessonTextIsIn(c, f, db, i, step);
    } else {
      var l, kind, j: nat :| l in c.lessons && IsQuestionText(c, l, kind, j, k);
      var i := NamedIsPlaced(c, l);
      PlacedIs(m, PlacedOf(c), i);
      QuestionsGetTheirIds(c, i, kind, j);
      var text :| IsTextOf(SetIn(l, kind)[j], k.row, k.field, k.subkey, text);
      QuestionHasItsTexts(m, f, SetIn(l, kind)[j], k.row, k.field, k.subkey, text);
      step := TextStep(m, f, k, text);
      TextStepIs(m, f, k, text);
      QuestionTextIsIn(c, f, db, i, kind, j, step);
    }
  }

  lemma RoundsWithoutTexts(round: Round, m: nat, f: Flags, p: Placed, step: Step)
    requires IsPlaced(m, p) && step in RoundSteps(round, m, f, p) && step.Translate?
    ensures round == LessonTexts || round == QuestionTexts
  {
    hide SlotId, LessonStep, QuestionStep, JoinStep;
    match round
    case LessonRows => LessonRowsAreNoTexts(m, f, p, step);
    case QuestionRows => QuestionsAreNoTexts(f, p.lesson.practice, p.practiceIds);
        QuestionsAreNoTexts(f, p.lesson.quiz, p.quizIds);
    case JoinRows => JoinsAreNoTexts(m, p.slot, Practice, p.practiceIds); JoinsAreNoTexts(m, p.slot, Quiz, p.quizIds);
    case _ =>
  }

  lemma LessonRowsAreNoTexts(m: nat, f: Flags, p: Placed, step: Step)
    requires IsSlot(m, p.slot) && step in LessonSteps(m, f, p)
    ensures step.Upsert?
  {
    hide SlotId, LevelId, PassingPoints;
  }

  lemma QuestionsAreNoTexts(f: Flags, questions: seq<Question>, ids: seq<Id>)
    requires |questions| == |ids|
    ensures forall step :: step in QuestionSteps(f, questions, ids) ==> step.Upsert?
  {
    hide StoredOptions, MessageText;
  }

  lemma JoinsAreNoTexts(m: nat, s: Slot, kind: Kind, ids: seq<Id>)
    requires IsSlot(m, s) && |ids| <= SETS_PER_LESSON
    ensures forall step :: step in JoinSteps(m, s, kind, ids) ==> step.Upsert?
  {
    hide SlotId;
  }

  lemma ProgrammeHasNoTexts(c: Content, f: Flags, status: int, levelPoints: int, gradePoints: int, step: Step)
    requires c.number >= 0 && step in ProgrammeSteps(c, f, status, levelPoints, gradePoints)
    ensures step.Upsert?
  {
    hide LevelId;
  }

  /** A step of the run that writes a text writes one the file gives. */
  lemma StepIsFileText(c: Content, f: Flags, db: Db, step: Step)
    requires Acceptable(c) && ArePlaced(c.number, PlacedOf(c)) && step in StepsFor(c, f, db) && step.Translate?
    ensures IsTextOfFile(c, step.tkey)
  {
    hide StepsFor, LessonsOk, PlacedOf, ProgrammeTexts, ProgrammeSteps, HideSteps, ForEach, RoundSteps, ArePlaced,
         IsPlaced,
         LevelPoints, GradePoints, LevelStatus, IsProgrammeText, PlaceOk;
    var m, placed := c.number, PlacedOf(c);
    StepsForComeFrom(c, f, db, step);
    var status, levelPoints := LevelStatus(db, m, f.live), LevelPoints(db, m, placed);
    var gradePoints := GradePoints(db, m, status, levelPoints);
    if step in ProgrammeSteps(c, f, status, levelPoints, gradePoints) {
      ProgrammeHasNoTexts(c, f, status, levelPoints, gradePoints, step);
    } else if step in ProgrammeTexts(c, f) {
      ProgrammeTextsAre(c, f, step.tkey);
    } else if step in HideSteps(m, placed) {
      HidesAreHides(m, placed, step);
    } else {
      var round: Round :| step in ForEach(round, m, f, placed);
      var i := FromForEach(round, m, f, placed, step);
      PlacedIs(m, placed, i);
      PlacedAtItsPlace(c, i);
      RoundIsFileText(c, f, i, round, step);
    }
  }

  lemma RoundIsFileText(c: Content, f: Flags, i: nat, round: Round, step: Step)
    requires Acceptable(c) && i < |PlacedOf(c)| && IsPlaced(c.number, PlacedOf(c)[i]) &&
             PlaceOk(c.number, PlacedOf(c)[i].lesson)
    requires PlacedOf(c)[i].lesson in c.lessons && PlacedOf(c)[i].slot == SlotOf(PlacedOf(c)[i].lesson)
    requires step in RoundSteps(round, c.number, f, PlacedOf(c)[i]) && step.Translate?
    ensures IsTextOfFile(c, step.tkey)
  {
    hide LessonsOk, PlacedOf, TextsOfLesson, TextsOfSet, LessonSteps, QuestionSteps, JoinSteps, PlaceOk, IsLessonText,
         SlotOf,
         IsProgrammeText, IsQuestionText;
    var m, p := c.number, PlacedOf(c)[i];
    RoundsWithoutTexts(round, m, f, p, step);
    if round == LessonTexts {
      LessonTextsAre(m, f, p, step.tkey);
    } else {
      var kind := if step in TextsOfSet(m, f, p.lesson.practice, p.practiceIds) then Practice else Quiz;
      var j := FromTextsOfSet(m, f, SetIn(p.lesson, kind), IdsOfKind(p, kind), step);
      QuestionTextIs(m, f, SetIn(p.lesson, kind)[j], IdsOfKind(p, kind)[j], step);
      QuestionsGetTheirIds(c, i, kind, j);
      assert IsQuestionText(c, p.lesson, kind, j, step.tkey) by { QuestionTextHas(c, p.lesson, kind, j, step.tkey); }
    }
  }

  lemma QuestionTextHas(c: Content, l: Lesson, kind: Kind, j: nat, k: TKey)
    requires c.number >= 0 && j < |SetIn(l, kind)| && k.table == Questions &&
             k.row == AskedId(c.number, c.lessons, l, kind, j)
    requires exists text :: IsTextOf(SetIn(l, kind)[j], k.row, k.field, k.subkey, text)
    ensures IsQuestionText(c, l, kind, j, k)
  {
    hide AskedId, IsTextOf;
  }

  lemma TextsAre(c: Content, f: Flags, db: Db)
    requires Acceptable(c) && ArePlaced(c.number, PlacedOf(c))
    ensures TextsAreFree(c, f, db) <==>
            forall step :: step in StepsFor(c, f, db) && step.Translate? && step.tkey in db.translations ==>
              db.translations[step.tkey].row.organisation == f.organisation
  {
    hide StepsFor, LessonsOk, PlacedOf, ArePlaced, IsTextOfFile;
    forall step | step in StepsFor(c, f, db) && step.Translate? ensures IsTextOfFile(c, step.tkey) {
      StepIsFileText(c, f, db, step);
    }
    forall k | IsTextOfFile(c, k)
      ensures exists step :: step in StepsFor(c, f, db) && step.Translate? && step.tkey == k
    {
      var step := FileTextHasStep(c, f, db, k);
    }
  }

  // ---- exactly which runs go through -------------------------------------------------------------

  /** What a run must meet beyond an acceptable file. */
  ghost predicate GoesThrough(c: Content, f: Flags, holders: Placeholders, db: Db)
    requires c.number >= 0
  {
    IsText(f.organisation) && LanguageIsGood(db, f.organisation) && SwitchIsGood(c, f, db) &&
    (f.rename || NamesStay(c, db)) &&
    QuestionsStay(c, holders, db) && LessonsCanBePassed(c, db) && HangsFromSomething(c, db) && RowsAreFree(c, f, db) &&
    TextsAreFree(c, f, db)
  }

  lemma PlannedExactly(c: Content, f: Flags, stamp: string, holders: Placeholders, db: Db)
    requires Acceptable(c) && ArePlaced(c.number, PlacedOf(c))
    ensures PlanContent(c, f, stamp, holders, db).Ok? <==>
            IsText(f.organisation) && SwitchIsGood(c, f, db) && (f.rename || NamesStay(c, db)) &&
            QuestionsStay(c, holders, db) &&
            LessonsCanBePassed(c, db)
    ensures PlanContent(c, f, stamp, holders, db).Ok? ==>
            PlanContent(c, f, stamp, holders, db) ==
            Ok(Plan(f.organisation, stamp, StepsFor(c, f, db), Needed(c.number, PlacedOf(c)),
                    Owned(c.number, PlacedOf(c))))
  {
    hide PlanSteps, PlacedOf, ArePlaced, ChangesSome, RenamesSome, Needed, Owned, LevelPoints, GradePoints,
         LevelStatus, LessonsOk,
         IsText, BadSwitch, NamesStay, QuestionsStay, LessonsCanBePassed, SwitchIsGood, StepsFor;
    SwitchIs(c, f, db);
    NamesAre(c, db);
    ChangesAre(c, holders, db);
    if IsText(f.organisation) && !BadSwitch(db, c.number, f.live) && (f.rename || !RenamesSome(db, c)) &&
       !ChangesSome(db, holders, c.number, PlacedOf(c)) {
      PlanIs(c, f, stamp, holders, db);
    }
  }

  lemma PreflightExactly(c: Content, f: Flags, db: Db, plan: Plan)
    requires Acceptable(c) && ArePlaced(c.number, PlacedOf(c)) && plan.organisation == f.organisation
    requires plan.needed == Needed(c.number, PlacedOf(c)) && plan.owned == Owned(c.number, PlacedOf(c))
    ensures Preflight(db, plan).None? <==>
            LanguageIsGood(db, f.organisation) && HangsFromSomething(c, db) && RowsAreFree(c, f, db)
  {
    hide PlacedOf, ArePlaced, Needed, Owned, LessonsOk, Preflight, LanguageRefusal, LanguageIsGood, HangsFromSomething,
         RowsAreFree,
         Missing, IsForeign;
    PreflightPasses(db, plan);
    LanguageIs(db, f.organisation);
    NeededAre(c, db);
    OwnedAre(c, f, db);
  }

  lemma RefusedUnplanned(c: Content, f: Flags, stamp: string, holders: Placeholders, db: Db)
    ensures Accepted(c, f, stamp, holders, db) ==>
            Acceptable(c) && PlanContent(c, f, stamp, holders, db).Ok? &&
            Preflight(db, PlanContent(c, f, stamp, holders, db).value).None?
  {
    hide LessonsOk, PlacedOf, PlanSteps, Preflight, ApplyPlan, ChangesSome, RenamesSome, Needed, Owned, LevelPoints,
         GradePoints,
         LevelStatus, BadSwitch, IsText;
  }

  /** A run is accepted exactly when the file is acceptable and it goes through against what is stored. */
  lemma AcceptedExactly(c: Content, f: Flags, stamp: string, holders: Placeholders, db: Db)
    ensures Accepted(c, f, stamp, holders, db) <==> Acceptable(c) && GoesThrough(c, f, holders, db)
  {
    hide LessonsOk, PlacedOf, ArePlaced, WellPlaced, Accepted, PlanContent, Preflight, LanguageIsGood, SwitchIsGood,
         NamesStay,
         QuestionsStay, LessonsCanBePassed, HangsFromSomething, RowsAreFree, TextsAreFree, IsText, StepsFor, Needed,
         Owned;
    RefusedUnplanned(c, f, stamp, holders, db);
    if Acceptable(c) {
      AcceptableIsWellPlaced(c);
      PlannedExactly(c, f, stamp, holders, db);
      if PlanContent(c, f, stamp, holders, db).Ok? {
        var plan := PlanContent(c, f, stamp, holders, db).value;
        PreflightExactly(c, f, db, plan);
        if Preflight(db, plan).None? {
          RunFailsOnlyOnForeignTexts(c, f, stamp, holders, db);
          TextsAre(c, f, db);
        }
      }
    }
  }

  /** Why a run is refused: the first of these that is not met, in this order. */
  ghost function FirstUnmet(c: Content, f: Flags, holders: Placeholders, db: Db): Refusal {
    if !Acceptable(c) then BadContent
    else if !IsText(f.organisation) || !SwitchIsGood(c, f, db) || (!f.rename && !NamesStay(c, db)) then BadFlags
    else if !QuestionsStay(c, holders, db) || !LessonsCanBePassed(c, db) then ChangesMeaning
    else if f.organisation !in db.languages then NoOrganisation
    else if !LanguageIsGood(db, f.organisation) then OtherLanguage
    else if !HangsFromSomething(c, db) then MissingRow
    else if !RowsAreFree(c, f, db) then OtherOwner
    else NotAsPlanned
  }

  lemma PlanRefusal(c: Content, f: Flags, stamp: string, holders: Placeholders, db: Db)
    requires Acceptable(c) && ArePlaced(c.number, PlacedOf(c)) && PlanContent(c, f, stamp, holders, db).Err?
    ensures PlanContent(c, f, stamp, holders, db) == Err(FirstUnmet(c, f, holders, db))
  {
    hide PlanSteps, PlacedOf, ArePlaced, ChangesSome, RenamesSome, Needed, Owned, LevelPoints, GradePoints,
         LevelStatus, LessonsOk,
         IsText, BadSwitch, NamesStay, QuestionsStay, LessonsCanBePassed, SwitchIsGood, StepsFor;
    SwitchIs(c, f, db);
    NamesAre(c, db);
    ChangesAre(c, holders, db);
  }

  lemma PreflightRefusal(c: Content, f: Flags, holders: Placeholders, db: Db, plan: Plan)
    requires Acceptable(c) && ArePlaced(c.number, PlacedOf(c)) && plan.organisation == f.organisation
    requires plan.needed == Needed(c.number, PlacedOf(c)) && plan.owned == Owned(c.number, PlacedOf(c))
    requires IsText(f.organisation) && SwitchIsGood(c, f, db) && (f.rename || NamesStay(c, db)) &&
             QuestionsStay(c, holders, db) &&
             LessonsCanBePassed(c, db)
    requires Preflight(db, plan).Some?
    ensures Preflight(db, plan).value == FirstUnmet(c, f, holders, db)
  {
    hide PlacedOf, ArePlaced, Needed, Owned, LessonsOk, LanguageIsGood, HangsFromSomething, RowsAreFree, Missing,
         IsForeign, IsText,
         NamesStay, QuestionsStay, LessonsCanBePassed, SwitchIsGood;
    LanguageIs(db, f.organisation);
    NeededAre(c, db);
    OwnedAre(c, f, db);
  }

  /** A refused run says which: the first check, in the order they are made, that is not met. */
  lemma RefusedForTheFirst(c: Content, f: Flags, stamp: string, holders: Placeholders, db: Db)
    requires Import(c, f, stamp, holders, db).Err?
    ensures Import(c, f, stamp, holders, db).error == FirstUnmet(c, f, holders, db)
  {
    hide LessonsOk, PlacedOf, ArePlaced, WellPlaced, Preflight, LanguageIsGood, SwitchIsGood, NamesStay, PlanSteps,
         QuestionsStay, LessonsCanBePassed, HangsFromSomething, RowsAreFree, TextsAreFree, IsText, StepsFor, Needed,
         Owned,
         Apply, Tally, Verified, LanguageRefusal, PlanContent;
    if Acceptable(c) {
      AcceptableIsWellPlaced(c);
      if PlanContent(c, f, stamp, holders, db).Err? {
        PlanRefusal(c, f, stamp, holders, db);
      } else {
        PlannedExactly(c, f, stamp, holders, db);
        var plan := PlanContent(c, f, stamp, holders, db).value;
        if Preflight(db, plan).Some? {
          PreflightRefusal(c, f, holders, db, plan);
        } else {
          PreflightExactly(c, f, db, plan);
          PreflightPasses(db, plan);
          LanguageIsThere(db, f.organisation);
        }
      }
    } else {
      NotPlanned(c, f, stamp, holders, db);
    }
  }

  lemma LanguageIsThere(db: Db, organisation: string)
    ensures LanguageIsGood(db, organisation) ==> organisation in db.languages
  {
  }

  lemma NotPlanned(c: Content, f: Flags, stamp: string, holders: Placeholders, db: Db)
    requires !Acceptable(c)
    ensures PlanContent(c, f, stamp, holders, db) == Err(BadContent)
  {
  }
}
