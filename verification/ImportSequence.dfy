/** What every sequence of import runs keeps: other modules' rows, and the meaning of a question already written. */
module ImportSequence {
  import opened Values
  import opened Sums
  import opened ImportSlots
  import opened ImportContent
  import opened ImportSteps
  import opened ImportPlan
  import opened ImportRows
  import opened ImportRun
  import opened ImportLaws

  // ---- a run touches its own module --------------------------------------------------------------

  lemma {:induction false} RoundIdsAreOwn(round: Round, m: nat, placed: seq<Placed>, id: Id)
    requires WellPlaced(m, placed) && id in AllRoundIds(round, m, placed)
    ensures OwnId(m, id)
  {
    hide SlotId, AskApart;
    if id in RoundIds(round, m, placed[0]) {
      var p := placed[0];
      assert IsPlaced(m, p) && AsksFrom(m, p, 0, |POOL|);
      if round.JoinRows? {
        var kind := if id in FirstJoins(m, p.slot, Practice, |p.practiceIds|) then Practice else Quiz;
        var j: nat :| IsPlace(j) && id == SlotId(m, p.slot, JoinPart(kind, j));
      } else if round.QuestionRows? || round.QuestionTexts? {
        if p.slot.Further? { OwnQuestionIsSlotId(m, p.slot, id); }
      }
    } else {
      RoundIdsAreOwn(round, m, placed[1..], id);
    }
  }

  lemma OwnQuestionIsSlotId(m: nat, s: Slot, id: Id)
    requires IsSlot(m, s) && IsOwn(m, s, id)
    ensures IsPart(s, id.role.part) && id == SlotId(m, s, id.role.part)
  {
  }

  lemma HiddenIdsAreOwn(m: nat, placed: seq<Placed>, step: Step, t: Target)
    requires ArePlaced(m, placed) && step in HideSteps(m, placed) && Touches(step, t)
    ensures OwnId(m, IdOfTarget(t)) && t.RowTarget?
  {
    hide JoinIds, QuestionIds, SlotId, UsedJoins, Assigned, Named, IsPlaced, AllSlots;
    var id := IdOfTarget(t);
    if id in JoinIds(m, Practice) { JoinIdIsOwn(m, Practice, id); }
    if id in JoinIds(m, Quiz) { JoinIdIsOwn(m, Quiz, id); }
    if id in QuestionIds(m) {
      QuestionIdsAre(m, id);
      if IsFurtherQuestion(m, Practice, id) || IsFurtherQuestion(m, Quiz, id) {
        OwnQuestionIsSlotId(m, Further(id.role.n), id);
      }
    }
  }

  lemma JoinIdIsOwn(m: nat, kind: Kind, id: Id)
    requires id in JoinIds(m, kind)
    ensures OwnId(m, id)
  {
    hide SlotId, AllSlots;
    var s :| s in AllSlots(m) && id in FourOf(m, s, true, kind);
    var j :| IsPlace(j) && id == SlotId(m, s, PlacePart(true, kind, j));
  }

  predicate IsProgramme(t: Target) {
    (TableOf(t) == Curriculums && IdOfTarget(t) == CURRICULUM) || (TableOf(t) == Grades && IdOfTarget(t) == GRADE)
  }

  /** A run touches rows and texts of its own module, and the curriculum's and the grade's. */
  lemma StepsTouchOwn(c: Content, f: Flags, db: Db, step: Step, t: Target)
    requires Acceptable(c) && step in StepsFor(c, f, db) && Touches(step, t)
    ensures OwnId(c.number, IdOfTarget(t)) || IsProgramme(t)
  {
    hide HideSteps, ForEach, IsPlaced, AskApart, AsksFrom, LessonsOk, PlacedOf, GradePoints, LevelPoints, LevelStatus,
         LevelId, StepsFor, AllRoundIds, OwnId;
    AcceptableIsWellPlaced(c);
    var m, placed := c.number, PlacedOf(c);
    StepsForComeFrom(c, f, db, step);
    LevelIsOwn(m);
    if step in HideSteps(m, placed) {
      HiddenIdsAreOwn(m, placed, step, t);
    } else if round: Round :| step in ForEach(round, m, f, placed) {
      ForEachFits(round, m, f, placed);
      InZone(ForEach(round, m, f, placed), AllRoundIds(round, m, placed), RoundTables(round), RoundWritesTexts(round),
             step, t);
      RoundIdsAreOwn(round, m, placed, IdOfTarget(t));
    }
  }

  lemma LevelIsOwn(m: nat)
    ensures OwnId(m, LevelId(m))
  {
  }

  /**
   A run changes no row and no text of another module, nor any row outside the programme: only its own module's, and
   the curriculum's and the grade's.
   */
  lemma OtherModulesStay(c: Content, f: Flags, stamp: string, holders: Placeholders, db: Db, t: Target)
    requires Accepted(c, f, stamp, holders, db) && !IsProgramme(t) && c.number >= 0
    requires !OwnId(c.number, IdOfTarget(t))
    ensures At(Import(c, f, stamp, holders, db).value.0, t) == At(db, t)
  {
    hide Import, StepsFor, LessonsOk, PlacedOf, Separate, Apply, OwnId, Touches;
    AcceptedRunIs(c, f, stamp, holders, db);
    forall step | step in StepsFor(c, f, db) ensures !Touches(step, t) {
      if Touches(step, t) { StepsTouchOwn(c, f, db, step, t); }
    }
    ApplyIsLocal(WithLanguage(db, f.organisation), stamp, StepsFor(c, f, db), t);
  }

  /** A later module's run leaves every id of every other module alone. */
  lemma ModulesDoNotInterfere(c: Content, f: Flags, stamp: string, holders: Placeholders, db: Db, m: nat, t: Target)
    requires Accepted(c, f, stamp, holders, db) && OwnId(m, IdOfTarget(t)) && m != c.number
    ensures At(Import(c, f, stamp, holders, db).value.0, t) == At(db, t)
  {
    hide Import, LessonsOk, Accepted;
    assert Acceptable(c) by { AcceptedRunIs(c, f, stamp, holders, db); }
    var id := IdOfTarget(t);
    if OwnId(c.number, id) {
      ModulesShareNoId(m, c.number, id);
    }
    ProgrammeIsNoModules(m, id);
    OtherModulesStay(c, f, stamp, holders, db, t);
  }

  lemma ProgrammeIsNoModules(m: nat, id: Id)
    requires OwnId(m, id)
    ensures id != CURRICULUM && id != GRADE
  {
    hide SlotId;
    if s, part :| IsSlot(m, s) && IsPart(s, part) && id == SlotId(m, s, part) {
      SlotIdsAreDistinct(m, s, part, m, s, part);
    }
  }

  // ---- a question keeps its meaning --------------------------------------------------------------

  /** What a stored question's answers were given against: how many options, and which is the first correct one. */
  function MeaningOf(db: Db, id: Id): Option<(nat, nat)> {
    var row := RowOf(db, Questions, id);
    if row.Some? && Cell(row.value, OptionsCol).Options? then
      var flags := StoredFlags(Cell(row.value, OptionsCol).list);
      Some((|flags|, FirstTrue(flags)))
    else None
  }

  lemma PlaceUnfolds(m: nat, list: seq<Lesson>, next: nat) returns (next': nat)
    requires list != []
    ensures Place(m, list, next)[1..] == Place(m, list[1..], next')
    ensures SlotOf(list[0]).Further? ==> forall kind: Kind ::
              IdsOfKind(Place(m, list, next)[0], kind) ==
              OwnQuestions(m, SlotOf(list[0]), kind, |SetOf(Place(m, list, next)[0], kind)|)
  {
    hide SlotOf, OwnQuestions, FromPool;
    next' := if SlotOf(list[0]).Fixed? then next + |list[0].practice| + |list[0].quiz| else next;
  }

  lemma {:induction false} PlaceGivesOwn(m: nat, list: seq<Lesson>, next: nat, i: nat, kind: Kind)
    requires i < |list| && SlotOf(list[i]).Further?
    ensures IdsOfKind(Place(m, list, next)[i], kind) ==
            OwnQuestions(m, SlotOf(list[i]), kind, |SetOf(Place(m, list, next)[i], kind)|)
  {
    hide SlotOf, OwnQuestions, Place, IdsOfKind, SetOf;
    var next' := PlaceUnfolds(m, list, next);
    if i > 0 {
      PlaceGivesOwn(m, list[1..], next', i - 1, kind);
      assert Place(m, list, next)[i] == Place(m, list, next)[1..][i - 1];
    }
  }

  /** A further question id is only ever assigned to its own place and kind. */
  lemma FurtherIdIsAssignedInItsKind(c: Content, i: nat, kind: Kind, j: nat, m: nat, of: Kind, id: Id)
    requires Acceptable(c) && i < |PlacedOf(c)| && j < |IdsOfKind(PlacedOf(c)[i], kind)|
    requires id == IdsOfKind(PlacedOf(c)[i], kind)[j] && IsFurtherQuestion(m, of, id)
    ensures kind == of
  {
    hide Place, ByOrder, LessonsOk, SlotOf, IsPlaced, AskApart;
    AcceptableIsWellPlaced(c);
    var p := PlacedOf(c)[i];
    assert AsksFrom(c.number, p, 0, |POOL|);
    assert id in IdsOfKind(p, kind) && id in QuestionsOf(p);
    if p.slot.Further? {
      PlaceGivesOwn(c.number, ByOrder(c.lessons), 0, i, kind);
    }
  }

  lemma QuestionRowIs(m: nat, f: Flags, p: Placed, step: Step) returns (kind: Kind, j: nat)
    requires IsPlaced(m, p) && step in RoundSteps(QuestionRows, m, f, p)
    ensures j < |IdsOfKind(p, kind)| && |SetOf(p, kind)| == |IdsOfKind(p, kind)|
    ensures step == QuestionStep(f, SetOf(p, kind)[j], IdsOfKind(p, kind)[j]) &&
            step.key == Key(Questions, IdsOfKind(p, kind)[j])
  {
    hide QuestionStep;
    kind := if step in QuestionSteps(f, p.lesson.practice, p.practiceIds) then Practice else Quiz;
    var steps := QuestionSteps(f, SetOf(p, kind), IdsOfKind(p, kind));
    j :| 0 <= j < |steps| && step == steps[j];
    QuestionStepIs(f, SetOf(p, kind)[j], IdsOfKind(p, kind)[j]);
  }

  lemma QuestionRoundOf(c: Content, f: Flags, db: Db, step: Step, k: Key) returns (i: nat)
    requires Acceptable(c) && step in StepsFor(c, f, db) && step.Upsert? && step.key == k && k.table == Questions
    ensures i < |PlacedOf(c)| && IsPlaced(c.number, PlacedOf(c)[i]) &&
            step in RoundSteps(QuestionRows, c.number, f, PlacedOf(c)[i])
  {
    hide HideSteps, ForEach, AskApart, AsksFrom, LessonsOk, PlacedOf, GradePoints, LevelPoints, LevelStatus, LevelId,
         StepsFor, AllRoundIds, RoundSteps, IsPlaced;
    AcceptableIsWellPlaced(c);
    var m, placed, t := c.number, PlacedOf(c), RowTarget(k);
    StepsForComeFrom(c, f, db, step);
    if step in HideSteps(m, placed) { HideLeaves(m, f, placed, step); }
    var round: Round :| step in ForEach(round, m, f, placed);
    ForEachFits(round, m, f, placed);
    InZone(ForEach(round, m, f, placed), AllRoundIds(round, m, placed), RoundTables(round), RoundWritesTexts(round),
           step, t);
    i := FromForEach(round, m, f, placed, step);
  }

  /** An upsert of a question row is one the file names: its place and its question. */
  lemma QuestionUpsertIs(c: Content, f: Flags, db: Db, step: Step, id: Id) returns (i: nat, kind: Kind, j: nat)
    requires Acceptable(c) && step in StepsFor(c, f, db) && step.Upsert? && step.key == Key(Questions, id)
    ensures i < |PlacedOf(c)| && IsPlaced(c.number, PlacedOf(c)[i]) &&
            j < |IdsOfKind(PlacedOf(c)[i], kind)| == |SetOf(PlacedOf(c)[i], kind)|
    ensures IdsOfKind(PlacedOf(c)[i], kind)[j] == id && step == QuestionStep(f, SetOf(PlacedOf(c)[i], kind)[j], id)
  {
    hide LessonsOk, PlacedOf, StepsFor, RoundSteps, IsPlaced, QuestionStep;
    i := QuestionRoundOf(c, f, db, step, Key(Questions, id));
    kind, j := QuestionRowIs(c.number, f, PlacedOf(c)[i], step);
  }

  lemma AcceptedAltersNoQuestion(c: Content, f: Flags, stamp: string, holders: Placeholders, db: Db, i: nat,
                                 kind: Kind, j: nat)
    requires Accepted(c, f, stamp, holders, db) && Acceptable(c) && i < |PlacedOf(c)| &&
             IsPlaced(c.number, PlacedOf(c)[i])
    requires j < |IdsOfKind(PlacedOf(c)[i], kind)|
    ensures !AltersQuestion(db, holders, kind, SetOf(PlacedOf(c)[i], kind)[j], IdsOfKind(PlacedOf(c)[i], kind)[j])
  {
    hide Import, LessonsOk, PlacedOf, IsPlaced, AltersQuestion, OutOfReach;
    FlagsWereGood(c, f, stamp, holders, db);
    assert !ChangesLesson(db, holders, c.number, PlacedOf(c)[i]);
  }

  function OptionsIn(db: Db, id: Id): Val {
    if Key(Questions, id) in db.rows then Cell(db.rows[Key(Questions, id)], OptionsCol) else Val.Null
  }

  lemma MeaningIsOfOptions(db: Db, id: Id)
    ensures MeaningOf(db, id) == if OptionsIn(db, id).Options? then
              Some((|OptionsIn(db, id).list|, FirstTrue(StoredFlags(OptionsIn(db, id).list)))) else None
  {
  }

  /** The question as the file names it, after the run and, when nothing was altered, before. */
  lemma NamedQuestionKeepsMeaning(c: Content, f: Flags, stamp: string, holders: Placeholders, db: Db, id: Id,
                                  step: Step)
    requires Accepted(c, f, stamp, holders, db) && id !in holders && MeaningOf(db, id).Some? && Acceptable(c)
    requires step in StepsFor(c, f, db) && step.Upsert? && step.key == Key(Questions, id)
    ensures MeaningOf(Import(c, f, stamp, holders, db).value.0, id) == MeaningOf(db, id)
  {
    hide Import, LessonsOk, PlacedOf, StepsFor, Cell, QuestionStep, IsPlaced, Written, InSet, MeaningOf, FirstTrue;
    var i, kind, j := QuestionUpsertIs(c, f, db, step, id);
    AcceptedAltersNoQuestion(c, f, stamp, holders, db, i, kind, j);
    var q := SetOf(PlacedOf(c)[i], kind)[j];
    RowAfter(c, f, stamp, holders, db, step);
    QuestionStepIs(f, q, id);
    MeaningIsOfOptions(db, id);
    MeaningIsOfOptions(Import(c, f, stamp, holders, db).value.0, id);
    CellWritten(db.rows[Key(Questions, id)], step.values, step.update, OptionsCol);
    assert StoredFlags(StoredOptions(id, q.choices)) == FileFlags(q.choices);
  }

  lemma UnnamedQuestionKeepsOptions(c: Content, f: Flags, stamp: string, holders: Placeholders, db: Db, id: Id)
    requires Accepted(c, f, stamp, holders, db) && Key(Questions, id) in db.rows && Acceptable(c)
    requires forall step :: step in StepsFor(c, f, db) && step.Upsert? ==> step.key != Key(Questions, id)
    ensures OptionsIn(Import(c, f, stamp, holders, db).value.0, id) == OptionsIn(db, id)
  {
    hide Import, LessonsOk, PlacedOf, StepsFor, Separate, Apply, Touches, Cell;
    AcceptedRunIs(c, f, stamp, holders, db);
    var k, steps := Key(Questions, id), StepsFor(c, f, db);
    forall step | step in steps && Touches(step, RowTarget(k)) ensures Leaves(step, OptionsCol) {
      NonUpsertLeavesOptions(c, f, db, step, k);
    }
    ApplyKeepsCell(WithLanguage(db, f.organisation), stamp, steps, k, OptionsCol);
  }

  /** One accepted run keeps the option count and the correct option of every question that has them, named or not. */
  lemma RunKeepsMeaning(c: Content, f: Flags, stamp: string, holders: Placeholders, db: Db, id: Id)
    requires Accepted(c, f, stamp, holders, db) && id !in holders && MeaningOf(db, id).Some?
    ensures MeaningOf(Import(c, f, stamp, holders, db).value.0, id) == MeaningOf(db, id)
  {
    hide Import, LessonsOk, StepsFor, MeaningOf, OptionsIn, PlacedOf, ArePlaced, WellPlaced, Separate;
    AcceptedRunIs(c, f, stamp, holders, db);
    MeaningIsOfOptions(db, id);
    if step :| step in StepsFor(c, f, db) && step.Upsert? && step.key == Key(Questions, id) {
      NamedQuestionKeepsMeaning(c, f, stamp, holders, db, id, step);
    } else {
      OptionsAreOfRow(db, id);
      UnnamedQuestionKeepsOptions(c, f, stamp, holders, db, id);
      MeaningIsOfOptions(Import(c, f, stamp, holders, db).value.0, id);
    }
  }

  lemma OptionsAreOfRow(db: Db, id: Id)
    requires OptionsIn(db, id).Options?
    ensures Key(Questions, id) in db.rows
  {
  }

  lemma NonUpsertLeavesOptions(c: Content, f: Flags, db: Db, step: Step, k: Key)
    requires Acceptable(c) && step in StepsFor(c, f, db) && Touches(step, RowTarget(k)) &&
             !(step.Upsert? && step.key == k)
    ensures Leaves(step, OptionsCol)
  {
    hide HideSteps, ForEach, AskApart, AsksFrom, LessonsOk, PlacedOf, GradePoints, LevelPoints, LevelStatus, LevelId,
         StepsFor, IsPlaced, RoundSteps;
    AcceptableIsWellPlaced(c);
    StepsForComeFrom(c, f, db, step);
    if step in HideSteps(c.number, PlacedOf(c)) {
      HideLeaves(c.number, f, PlacedOf(c), step);
    } else if round: Round :| step in ForEach(round, c.number, f, PlacedOf(c)) {
      var i := FromForEach(round, c.number, f, PlacedOf(c), step);
      RoundLeaves(round, c.number, f, PlacedOf(c)[i], step);
    }
  }

  // ---- a question keeps its set ------------------------------------------------------------------

  lemma JoinRowIs(m: nat, f: Flags, p: Placed, step: Step, kind: Kind) returns (j: nat)
    requires IsPlaced(m, p) && step in RoundSteps(JoinRows, m, f, p) && step.key.table == JoinTable(kind)
    ensures j < |IdsOfKind(p, kind)| && IsPlace(j + 1) &&
            step == JoinStep(m, p.slot, kind, j + 1, IdsOfKind(p, kind)[j])
  {
    hide SlotId;
    var steps := JoinSteps(m, p.slot, kind, IdsOfKind(p, kind));
    assert step in steps;
    j :| 0 <= j < |steps| && step == steps[j];
  }

  lemma JoinRoundOf(c: Content, f: Flags, db: Db, step: Step, k: Key, kind: Kind) returns (i: nat)
    requires Acceptable(c) && step in StepsFor(c, f, db) && step.Upsert? && step.key == k && k.table == JoinTable(kind)
    ensures i < |PlacedOf(c)| && IsPlaced(c.number, PlacedOf(c)[i]) &&
            step in RoundSteps(JoinRows, c.number, f, PlacedOf(c)[i])
  {
    hide HideSteps, ForEach, AskApart, AsksFrom, LessonsOk, PlacedOf, GradePoints, LevelPoints, LevelStatus, LevelId,
         StepsFor, AllRoundIds, RoundSteps, IsPlaced;
    AcceptableIsWellPlaced(c);
    var m, placed, t := c.number, PlacedOf(c), RowTarget(k);
    StepsForComeFrom(c, f, db, step);
    if step in HideSteps(m, placed) { HideLeaves(m, f, placed, step); }
    var round: Round :| step in ForEach(round, m, f, placed);
    ForEachFits(round, m, f, placed);
    InZone(ForEach(round, m, f, placed), AllRoundIds(round, m, placed), RoundTables(round), RoundWritesTexts(round),
           step, t);
    i := FromForEach(round, m, f, placed, step);
  }

  /** What an upsert of a join row writes is active, and joins a question the file puts in that set. */
  lemma JoinUpsertJoins(c: Content, f: Flags, stamp: string, holders: Placeholders, db: Db, step: Step, kind: Kind)
      returns (i: nat, j: nat)
    requires Accepted(c, f, stamp, holders, db) && Acceptable(c)
    requires step in StepsFor(c, f, db) && step.Upsert? && step.key.table == JoinTable(kind)
    ensures i < |PlacedOf(c)| && j < |IdsOfKind(PlacedOf(c)[i], kind)|
    ensures step.key in Import(c, f, stamp, holders, db).value.0.rows &&
            Cell(Import(c, f, stamp, holders, db).value.0.rows[step.key], QuestionCol) ==
            Ref(IdsOfKind(PlacedOf(c)[i], kind)[j])
  {
    hide Import, LessonsOk, PlacedOf, StepsFor, RoundSteps, IsPlaced, SlotId;
    i := JoinRoundOf(c, f, db, step, step.key, kind);
    j := JoinRowIs(c.number, f, PlacedOf(c)[i], step, kind);
    RowAfter(c, f, stamp, holders, db, step);
  }

  lemma ActiveJoinWasThere(c: Content, f: Flags, stamp: string, holders: Placeholders, db: Db, kind: Kind, k: Key,
                           id: Id)
    requires Accepted(c, f, stamp, holders, db) && Acceptable(c) && k.table == JoinTable(kind)
    requires k in Import(c, f, stamp, holders, db).value.0.rows &&
             IsActiveJoin(Import(c, f, stamp, holders, db).value.0.rows[k], id)
    requires forall step :: step in StepsFor(c, f, db) && step.Upsert? ==> step.key != k
    ensures k in db.rows && IsActiveJoin(db.rows[k], id)
  {
    hide Import, LessonsOk, PlacedOf, StepsFor, Separate, Apply, Touches;
    AcceptedRunIs(c, f, stamp, holders, db);
    var start, steps := WithLanguage(db, f.organisation), StepsFor(c, f, db);
    if k !in db.rows {
      var step := NewRowIsUpserted(start, stamp, steps, k);
      assert false;
    } else if step :| step in steps && Touches(step, RowTarget(k)) {
      HideOfJoinSwitchesOff(c, f, db, step, k, kind);
      ApplyMakesEachHold(start, stamp, steps);
      HeldHide(Imported(c, f, stamp, db), step, k);
      assert false;
    } else {
      UntouchedRow(start, stamp, steps, k);
    }
  }

  lemma HideOfJoinSwitchesOff(c: Content, f: Flags, db: Db, step: Step, k: Key, kind: Kind)
    requires Acceptable(c) && step in StepsFor(c, f, db) && Touches(step, RowTarget(k)) && k.table == JoinTable(kind)
    requires !(step.Upsert? && step.key == k)
    ensures step.Hide? && step.column == StatusCol && step.value == Int(0)
  {
    hide ForEach, AskApart, AsksFrom, LessonsOk, PlacedOf, GradePoints, LevelPoints, LevelStatus, LevelId, StepsFor,
         IsPlaced, RoundSteps, JoinIds, UsedJoins, QuestionIds, Assigned, HiddenIds, Named;
    AcceptableIsWellPlaced(c);
    StepsForComeFrom(c, f, db, step);
    if round: Round :| step in ForEach(round, c.number, f, PlacedOf(c)) {
      var i := FromForEach(round, c.number, f, PlacedOf(c), step);
      RoundLeaves(round, c.number, f, PlacedOf(c)[i], step);
    }
  }

  /** A run puts a further question in no other set than its own. */
  lemma RunKeepsSet(c: Content, f: Flags, stamp: string, holders: Placeholders, db: Db, m: nat, of: Kind, id: Id,
                    kind: Kind)
    requires Accepted(c, f, stamp, holders, db) && IsFurtherQuestion(m, of, id) && kind != of
    ensures InSet(Import(c, f, stamp, holders, db).value.0, kind, id) ==> InSet(db, kind, id)
  {
    hide Import, LessonsOk, PlacedOf, StepsFor, Separate, IsFurtherQuestion, WellPlaced, ArePlaced;
    AcceptedRunIs(c, f, stamp, holders, db);
    var after := Import(c, f, stamp, holders, db).value.0;
    if InSet(after, kind, id) {
      var k :| k in after.rows && k.table == JoinTable(kind) && IsActiveJoin(after.rows[k], id);
      if step :| step in StepsFor(c, f, db) && step.Upsert? && step.key == k {
        var i, j := JoinUpsertJoins(c, f, stamp, holders, db, step, kind);
        FurtherIdIsAssignedInItsKind(c, i, kind, j, m, of, id);
      } else {
        ActiveJoinWasThere(c, f, stamp, holders, db, kind, k, id);
      }
    }
  }

  // ---- sequences of runs -------------------------------------------------------------------------

  datatype Run = Run(content: Content, flags: Flags, stamp: string)

  /** A refused run leaves the database as it was. */
  ghost function AfterRun(db: Db, holders: Placeholders, r: Run): Db {
    match Import(r.content, r.flags, r.stamp, holders, db)
    case Ok(done) => done.0
    case Err(_) => db
  }

  ghost function AfterRuns(db: Db, holders: Placeholders, runs: seq<Run>): Db
    decreases |runs|
  {
    if runs == [] then db else AfterRuns(AfterRun(db, holders, runs[0]), holders, runs[1..])
  }

  /**
   Over every sequence of runs, of whatever modules and files, a derived question id that has been written keeps its
   number of options and its correct option, and is never put in the other set.
   */
  lemma {:induction false} DerivedQuestionsKeepTheirMeaning(db: Db, holders: Placeholders, runs: seq<Run>, m: nat,
                                                            of: Kind, id: Id)
    requires IsFurtherQuestion(m, of, id) && MeaningOf(db, id).Some? && forall h :: h in holders ==> h.Seed?
    ensures MeaningOf(AfterRuns(db, holders, runs), id) == MeaningOf(db, id)
    ensures forall kind :: kind != of && InSet(AfterRuns(db, holders, runs), kind, id) ==> InSet(db, kind, id)
    decreases |runs|
  {
    hide Import, MeaningOf, InSet;
    if runs != [] {
      var r := runs[0];
      if Import(r.content, r.flags, r.stamp, holders, db).Ok? {
        RunKeepsMeaning(r.content, r.flags, r.stamp, holders, db, id);
        RunKeepsSet(r.content, r.flags, r.stamp, holders, db, m, of, id, if of == Practice then Quiz else Practice);
      }
      DerivedQuestionsKeepTheirMeaning(AfterRun(db, holders, r), holders, runs[1..], m, of, id);
    }
  }

  /** A question a run names is in its set from then on, with the options and the correct option of the file. */
  lemma NamedQuestionIsWritten(c: Content, f: Flags, stamp: string, holders: Placeholders, db: Db, i: nat, kind: Kind,
                               j: nat)
    requires Accepted(c, f, stamp, holders, db) && Acceptable(c) && i < |PlacedOf(c)| &&
             IsPlaced(c.number, PlacedOf(c)[i])
    requires j < |IdsOfKind(PlacedOf(c)[i], kind)|
    ensures var after, p := Import(c, f, stamp, holders, db).value.0, PlacedOf(c)[i];
            InSet(after, kind, IdsOfKind(p, kind)[j]) &&
            MeaningOf(after, IdsOfKind(p, kind)[j]) ==
            Some((|SetOf(p, kind)[j].choices|, FirstTrue(FileFlags(SetOf(p, kind)[j].choices))))
  {
    hide Import, LessonsOk, PlacedOf, StepsFor, InSet, QuestionStep;
    AcceptedRunIs(c, f, stamp, holders, db);
    var p := PlacedOf(c)[i];
    var q, id := SetOf(p, kind)[j], IdsOfKind(p, kind)[j];
    JoinAfter(c, f, stamp, holders, db, i, kind, j);
    assert QuestionStep(f, q, id) == QuestionSteps(f, SetOf(p, kind), IdsOfKind(p, kind))[j];
    QuestionAfter(c, f, stamp, holders, db, i, kind, q, id);
    assert StoredFlags(StoredOptions(id, q.choices)) == FileFlags(q.choices);
  }

  /** Over every sequence of other modules' runs, what a run left of its module stays as it is. */
  lemma {:induction false} OtherModulesRunsChangeNothing(db: Db, holders: Placeholders, runs: seq<Run>, m: nat,
                                                         t: Target)
    requires OwnId(m, IdOfTarget(t)) && forall r :: r in runs ==> r.content.number != m
    ensures At(AfterRuns(db, holders, runs), t) == At(db, t)
    decreases |runs|
  {
    hide Import, OwnId;
    if runs != [] {
      var r := runs[0];
      assert r in runs && forall s :: s in runs[1..] ==> s in runs;
      if Import(r.content, r.flags, r.stamp, holders, db).Ok? {
        ModulesDoNotInterfere(r.content, r.flags, r.stamp, holders, db, m, t);
      }
      OtherModulesRunsChangeNothing(AfterRun(db, holders, r), holders, runs[1..], m, t);
    }
  }

  /**
   Once planned and past its first checks, a run is rolled back in one case only: a text it writes is there already as
   another organisation's.
   */
  lemma RunFailsOnlyOnForeignTexts(c: Content, f: Flags, stamp: string, holders: Placeholders, db: Db)
    requires PlanContent(c, f, stamp, holders, db).Ok? &&
             Preflight(db, PlanContent(c, f, stamp, holders, db).value).None? && Acceptable(c)
    ensures Accepted(c, f, stamp, holders, db) <==>
            forall step :: step in StepsFor(c, f, db) && step.Translate? && step.tkey in db.translations ==>
              db.translations[step.tkey].row.organisation == f.organisation
  {
    hide StepsFor, LessonsOk, PlacedOf, ArePlaced, WellPlaced, Separate, Apply, Tally, Verified, Missing, IsForeign;
    PlannedIs(c, f, stamp, holders, db);
    forall step | step in StepsFor(c, f, db)
      ensures Sound(step) && (step.Translate? ==> step.row.organisation == f.organisation)
    {
      StepLeavesKept(c, f, db, step);
    }
    CheckFailsOnlyOnForeignTexts(WithLanguage(db, f.organisation), stamp, StepsFor(c, f, db));
  }

  lemma PlannedIs(c: Content, f: Flags, stamp: string, holders: Placeholders, db: Db)
    requires PlanContent(c, f, stamp, holders, db).Ok?
    ensures Acceptable(c) && Separate(StepsFor(c, f, db))
    ensures var plan := PlanContent(c, f, stamp, holders, db).value;
            plan.steps == StepsFor(c, f, db) && plan.organisation == f.organisation && plan.stamp == stamp
  {
    hide PlanSteps, PlacedOf, ArePlaced, WellPlaced, ChangesSome, RenamesSome, Needed, Owned, LevelPoints, GradePoints,
         LessonsOk, Separate;
    PlanTouchesDifferentRows(c, f, LevelStatus(db, c.number, f.live), LevelPoints(db, c.number, PlacedOf(c)),
                             GradePoints(db, c.number, LevelStatus(db, c.number, f.live),
                                         LevelPoints(db, c.number, PlacedOf(c))));
  }

  // ---- the seed's own pass, between the plan and its application ---------------------------------

  /** A fixed lesson as the pass writes it, under any name and description. */
  predicate IsSeedLesson(row: Columns, n: nat) {
    row - {NameCol, DescriptionCol} ==
    map[LevelCol := Ref(LevelId(1)), PracticeCountCol := Int(1), QuizCountCol := Int(1), PassPercentageCol := Int(80),
        OrderCol := Int(n), StatusCol := Int(1), DeletedCol := Int(0), TotalPointsCol := Int(100),
        PassingPointsCol := Int(80),
        LearningPointsCol := Int(20), QuizzesPointsCol := Int(40), PracticesPointsCol := Int(40)]
  }

  /** The pass inserts the fixed lessons that are not there and touches no other; other tables may become anything. */
  ghost predicate IsSeedPass(db: Db, later: Db) {
    (forall id :: Key(Lessons, id) in db.rows ==> RowOf(later, Lessons, id) == RowOf(db, Lessons, id)) &&
    (forall n :: 1 <= n <= 4 && Key(Lessons, FixedId(n, LessonPart)) !in db.rows ==>
       var row := RowOf(later, Lessons, FixedId(n, LessonPart)); row.Some? && IsSeedLesson(row.value, n)) &&
    (forall id :: Key(Lessons, id) in later.rows && Key(Lessons, id) !in db.rows ==>
     exists n :: 1 <= n <= 4 && id == FixedId(n, LessonPart))
  }

  /** A lesson as the pass writes it is out of reach exactly when the file leaves it a set without questions. */
  lemma SeedLessonReach(row: Columns, n: nat, l: Lesson)
    requires IsSeedLesson(row, n)
    ensures OutOfReach(row, l) <==> |l.practice| == 0 || |l.quiz| == 0
  {
    hide LevelId;
    forall col | col !in {NameCol, DescriptionCol}
      ensures Cell(row, col) == Cell(row - {NameCol, DescriptionCol}, col)
    {
    }
  }

  lemma PlannedIsInReach(c: Content, f: Flags, stamp: string, holders: Placeholders, db: Db, i: nat)
    requires PlanContent(c, f, stamp, holders, db).Ok? && Acceptable(c) && i < |PlacedOf(c)|
    ensures IsPlaced(c.number, PlacedOf(c)[i])
    ensures var row := RowOf(db, Lessons, LessonId(c.number, PlacedOf(c)[i].slot));
            row.Some? ==> !OutOfReach(row.value, PlacedOf(c)[i].lesson)
  {
    hide LessonsOk, PlacedOf, IsPlaced, SlotId, ChangesSet, OutOfReach, RowOf, LessonId, PlanSteps, Needed, Owned,
         LevelPoints, GradePoints, IsText, RenamesSome;
    AcceptableIsWellPlaced(c);
    assert !ChangesLesson(db, holders, c.number, PlacedOf(c)[i]);
  }

  /**
   The seed reads and plans, runs its own pass, then applies the plan. A lesson the file names then ends with a mark it
   cannot reach if and only if it is a fixed one, was not there when the seed read, and the file leaves it a set empty.
   */
  lemma SeedRunLeavesOutOfReach(c: Content, f: Flags, stamp: string, holders: Placeholders, db: Db, later: Db, i: nat)
    requires PlanContent(c, f, stamp, holders, db).Ok? && Acceptable(c) && i < |PlacedOf(c)| && IsSeedPass(db, later)
    requires ApplyPlan(later, PlanContent(c, f, stamp, holders, db).value).Ok?
    ensures var after := ApplyPlan(later, PlanContent(c, f, stamp, holders, db).value).value.0;
            var p := PlacedOf(c)[i];
            var k := Key(Lessons, LessonId(c.number, p.slot));
            k in after.rows &&
            (OutOfReach(after.rows[k], p.lesson) <==>
             p.slot.Fixed? && k !in db.rows && (|p.lesson.practice| == 0 || |p.lesson.quiz| == 0))
  {
    hide PlanContent, LessonsOk, PlacedOf, OutOfReach, StepsFor, Apply, Tally, Separate, IsSeedLesson;
    PlannedIs(c, f, stamp, holders, db);
    PlannedIsInReach(c, f, stamp, holders, db, i);
    var p := PlacedOf(c)[i];
    var id := LessonId(c.number, p.slot);
    RowsThatAppearDecideThePassMark(c, f, stamp, db, WithLanguage(later, f.organisation), i);
    if Key(Lessons, id) in db.rows {
      assert RowOf(later, Lessons, id) == RowOf(db, Lessons, id);
    } else if p.slot.Fixed? {
      assert id == FixedId(p.slot.n, LessonPart);
      SeedLessonReach(later.rows[Key(Lessons, id)], p.slot.n, p.lesson);
    }
  }

  // ---- the first run -----------------------------------------------------------------------------

  ghost predicate KeepsSome(lessons: seq<Lesson>) {
    exists l :: l in lessons && l.video.Keep?
  }

  lemma {:induction false} KeptVideosOf(m: nat, placed: seq<Placed>)
    requires ArePlaced(m, placed)
    ensures KeptVideos(m, placed) == [] <==> forall i :: 0 <= i < |placed| ==> !placed[i].lesson.video.Keep?
  {
    hide IsPlaced;
    if placed != [] {
      KeptVideosOf(m, placed[1..]);
    }
  }

  lemma PlacedKeeps(c: Content)
    requires c.number >= 0
    ensures (forall i :: 0 <= i < |PlacedOf(c)| ==> !PlacedOf(c)[i].lesson.video.Keep?) <==> !KeepsSome(c.lessons)
  {
    var list := ByOrder(c.lessons);
    forall l ensures l in list <==> l in c.lessons {
      assert l in list <==> l in multiset(list);
    }
    assert forall i :: 0 <= i < |list| ==> PlacedOf(c)[i].lesson == list[i] && list[i] in list;
  }

  lemma NothingNeeded(c: Content)
    requires Acceptable(c) && ArePlaced(c.number, PlacedOf(c))
    ensures Needed(c.number, PlacedOf(c)) == [] <==> c.number == 1 && !KeepsSome(c.lessons)
  {
    hide LessonsOk, PlacedOf, KeptVideos, ArePlaced;
    KeptVideosOf(c.number, PlacedOf(c));
    PlacedKeeps(c);
  }

  /** No rows but levels, and no texts. */
  ghost predicate HoldsOnlyLevels(db: Db) {
    (forall k :: k in db.rows ==> k.table == Levels && Cell(db.rows[k], OrganisationCol) == Val.Null) &&
    db.translations == map[]
  }

  /** Against no rows but levels no question is altered, no lesson renamed and no mark is out of reach. */
  lemma NothingToChange(c: Content, holders: Placeholders, db: Db)
    requires Acceptable(c) && ArePlaced(c.number, PlacedOf(c)) && HoldsOnlyLevels(db)
    ensures !RenamesSome(db, c) && !ChangesSome(db, holders, c.number, PlacedOf(c))
  {
    hide LessonsOk, PlacedOf, AltersQuestion, LevelId, LessonId;
    forall kind, q, id ensures !AltersQuestion(db, holders, kind, q, id) {
      NoRowNoChange(db, holders, kind, q, id);
    }
  }

  lemma NoRowNoChange(db: Db, holders: Placeholders, kind: Kind, q: Question, id: Id)
    requires HoldsOnlyLevels(db)
    ensures !AltersQuestion(db, holders, kind, q, id)
  {
    assert Key(Questions, id) !in db.rows;
  }

  lemma NoSwitchNeeded(db: Db, live: Option<bool>)
    ensures !BadSwitch(db, 1, live) <==> live == Some(true) || (live.None? && HasLevel(db, 1))
  {
    if live.Some? && live.value {
      assert live == Some(true);
    } else if live.Some? {
      assert live == Some(false);
    }
  }

  /**
   A file can be the first to be imported, into no content but perhaps levels, exactly when it is Module 1, with all its
   videos, and live, or with its level there already.
   */
  lemma FirstImport(c: Content, f: Flags, stamp: string, holders: Placeholders, db: Db)
    requires HoldsOnlyLevels(db)
    ensures Accepted(c, f, stamp, holders, db) <==>
            Acceptable(c) && c.number == 1 && !KeepsSome(c.lessons) &&
            (f.live == Some(true) || (f.live.None? && HasLevel(db, 1))) &&
            IsText(f.organisation) && LanguageRefusal(db, f.organisation).None?
  {
    hide LessonsOk, PlacedOf, ArePlaced, WellPlaced, Separate, ApplyPlan, LanguageRefusal, Owned, Needed, PlanSteps,
         LevelPoints, GradePoints, LevelStatus,
         ChangesSome, RenamesSome, KeepsSome, StepsFor, HasLevel, IsText;
    if Acceptable(c) {
      AcceptableIsWellPlaced(c);
      NothingToChange(c, holders, db);
      NothingNeeded(c);
      NoSwitchNeeded(db, f.live);
      if PlanContent(c, f, stamp, holders, db).Ok? {
        var plan := PlanContent(c, f, stamp, holders, db).value;
        assert plan.needed == Needed(c.number, PlacedOf(c));
        if plan.needed != [] { NeededIsNoLevel(c, plan.needed[0]); }
        assert plan.needed != [] ==> Missing(db, plan.needed[0]) && plan.needed[0] in plan.needed;
        if Preflight(db, plan).None? {
          RunFailsOnlyOnForeignTexts(c, f, stamp, holders, db);
        }
      }
    }
  }

  lemma {:induction false} KeptVideoIsNoLevel(m: nat, placed: seq<Placed>, r: Requirement)
    requires ArePlaced(m, placed) && r in KeptVideos(m, placed)
    ensures r.key.table == Documents
  {
    hide SlotId;
    if r in KeptVideos(m, placed[1..]) {
      KeptVideoIsNoLevel(m, placed[1..], r);
    }
  }

  lemma NeededIsNoLevel(c: Content, r: Requirement)
    requires Acceptable(c) && ArePlaced(c.number, PlacedOf(c)) && r in Needed(c.number, PlacedOf(c))
    ensures r.key.table != Levels
  {
    hide LessonsOk, PlacedOf, ArePlaced, KeptVideos;
    if r in KeptVideos(c.number, PlacedOf(c)) { KeptVideoIsNoLevel(c.number, PlacedOf(c), r); }
  }
}
