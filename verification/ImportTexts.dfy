/** The Khmer an import writes: after an accepted run every text of the file has its translation, under its own key. */
module ImportTexts {
  import opened Values
  import opened ImportSlots
  import opened ImportContent
  import opened ImportSteps
  import opened ImportPlan
  import opened ImportRows
  import opened ImportRun
  import opened ImportLaws
  import opened ImportSequence
  import ImportFile

  /**
   The translation stored under this key is the text's Khmer, made of its English, the organisation's own. A new one has
   the module's id, or the programme's; one that was there keeps its id, and its time unless it changed.
   */
  ghost predicate IsTranslated(run: Run, db: Db, after: Db, k: TKey, text: Bilingual) {
    k in after.translations &&
    var now := after.translations[k];
    now.row.text == text.km && now.row.hash == Sha256(text.en) && now.row.organisation == run.flags.organisation &&
    if k in db.translations then
      var was := db.translations[k];
      now.row.id == was.row.id &&
      now.updated == if was.row.text == text.km && was.row.hash == Sha256(text.en) then was.updated else run.stamp
    else
      now.updated == run.stamp &&
      now.row.id == if run.content.number == 1 || k.table in {Curriculums, Grades} then Digest(k)
                    else if run.content.number >= 0 then Derived(run.content.number, TranslationRole(k)) else Digest(k)
  }

  lemma TextIsVerified(c: Content, f: Flags, stamp: string, holders: Placeholders, db: Db, step: Step)
    requires Accepted(c, f, stamp, holders, db) && Acceptable(c) && step in StepsFor(c, f, db) && step.Translate?
    ensures Verified(Import(c, f, stamp, holders, db).value.0, step)
  {
    hide StepsFor, LessonsOk, PlanContent, Preflight, Apply, Tally, Separate, Verified;
    PlannedIs(c, f, stamp, holders, db);
  }

  /** A translating step of an accepted run has been done, and for this organisation. */
  lemma TextAfter(c: Content, f: Flags, stamp: string, holders: Placeholders, db: Db, step: Step)
    requires Accepted(c, f, stamp, holders, db) && Acceptable(c) && step in StepsFor(c, f, db) && step.Translate?
    ensures var after := Import(c, f, stamp, holders, db).value.0;
            step.tkey in after.translations &&
            after.translations[step.tkey] == Effect(db, stamp, step).translations[step.tkey] &&
            after.translations[step.tkey].row.organisation == step.row.organisation
  {
    hide StepsFor, LessonsOk, Import, Apply, Separate, Accepted;
    TextIsVerified(c, f, stamp, holders, db, step);
    AcceptedRunIs(c, f, stamp, holders, db);
    var steps := StepsFor(c, f, db);
    var i :| 0 <= i < |steps| && steps[i] == step;
    var start, t := WithLanguage(db, f.organisation), TextTarget(step.tkey);
    ApplyActsOnce(start, stamp, steps, i, t);
    assert At(Effect(start, stamp, step), t).1.Some?;
  }

  lemma TextIsTranslated(c: Content, f: Flags, stamp: string, holders: Placeholders, db: Db, k: TKey, text: Bilingual)
    requires Accepted(c, f, stamp, holders, db) && Acceptable(c) && TextStep(c.number, f, k, text) in StepsFor(c, f, db)
    ensures IsTranslated(Run(c, f, stamp), db, Import(c, f, stamp, holders, db).value.0, k, text)
  {
    hide Import, StepsFor, LessonsOk, Accepted;
    TextAfter(c, f, stamp, holders, db, TextStep(c.number, f, k, text));
  }

  // ---- the programme and the module --------------------------------------------------------------

  /** The curriculum and the grade are named as the programme, the level as the module. */
  lemma ProgrammeIsTranslated(c: Content, f: Flags, stamp: string, holders: Placeholders, db: Db)
    requires Accepted(c, f, stamp, holders, db) && Acceptable(c)
    ensures var after := Import(c, f, stamp, holders, db).value.0;
            IsTranslated(Run(c, f, stamp), db, after, TKey(Curriculums, CURRICULUM, NameField, Whole), c.programme) &&
            IsTranslated(Run(c, f, stamp), db, after, TKey(Grades, GRADE, NameField, Whole), c.programme) &&
            IsTranslated(Run(c, f, stamp), db, after, TKey(Levels, LevelId(c.number), NameField, Whole), c.moduleName)
  {
    hide Import, StepsFor, LessonsOk, PlacedOf, TextStep, IsTranslated, LevelId, Accepted, ArePlaced, LevelPoints,
         GradePoints, LevelStatus;
    AcceptableIsWellPlaced(c);
    var m := c.number;
    var curriculum, grade := TKey(Curriculums, CURRICULUM, NameField, Whole), TKey(Grades, GRADE, NameField, Whole);
    var level := TKey(Levels, LevelId(m), NameField, Whole);
    forall step | step in ProgrammeTexts(c, f) ensures step in StepsFor(c, f, db) {
      StepsForComeFrom(c, f, db, step);
    }
    assert TextStep(m, f, curriculum, c.programme) == ProgrammeTexts(c, f)[0];
    assert TextStep(m, f, grade, c.programme) == ProgrammeTexts(c, f)[1];
    assert TextStep(m, f, level, c.moduleName) == ProgrammeTexts(c, f)[2];
    TextIsTranslated(c, f, stamp, holders, db, curriculum, c.programme);
    TextIsTranslated(c, f, stamp, holders, db, grade, c.programme);
    TextIsTranslated(c, f, stamp, holders, db, level, c.moduleName);
  }

  // ---- a lesson ----------------------------------------------------------------------------------

  lemma LessonTextIsIn(c: Content, f: Flags, db: Db, i: nat, step: Step)
    requires Acceptable(c) && i < |PlacedOf(c)| && IsPlaced(c.number, PlacedOf(c)[i])
    requires step in TextsOfLesson(c.number, f, PlacedOf(c)[i])
    ensures step in StepsFor(c, f, db)
  {
    hide StepsFor, LessonsOk, PlacedOf, TextsOfLesson;
    AcceptableIsWellPlaced(c);
    assert step in RoundSteps(LessonTexts, c.number, f, PlacedOf(c)[i]);
    RoundStepIsIn(LessonTexts, c, f, db, i, step);
  }

  /** The lesson's name is translated in its four rows. */
  lemma LessonIsTranslated(c: Content, f: Flags, stamp: string, holders: Placeholders, db: Db, l: Lesson)
    requires Accepted(c, f, stamp, holders, db) && Acceptable(c) && l in c.lessons
    ensures var after := Import(c, f, stamp, holders, db).value.0;
            IsTranslated(Run(c, f, stamp), db, after,
                         TKey(Lessons, ImportFile.RowId(c.number, l, LessonPart), NameField, Whole), l.name) &&
            IsTranslated(Run(c, f, stamp), db, after,
                         TKey(LessonLearnings, ImportFile.RowId(c.number, l, LearningPart), NameField, Whole),
                         l.name) &&
            IsTranslated(Run(c, f, stamp), db, after,
                         TKey(LessonPractices, ImportFile.RowId(c.number, l, PracticePart), NameField, Whole),
                         l.name) &&
            IsTranslated(Run(c, f, stamp), db, after,
                         TKey(LessonQuizzes, ImportFile.RowId(c.number, l, QuizPart), NameField, Whole), l.name)
  {
    hide Import, StepsFor, LessonsOk, PlacedOf, TextStep, IsTranslated, Accepted, SlotId, ImportFile.RowId;
    AcceptableIsWellPlaced(c);
    var m := c.number;
    var i := NamedIsPlaced(c, l);
    var p := PlacedOf(c)[i];
    LessonTextKeys(c, l, p.slot);
    assert IsPlaced(m, p);
    forall step | step in TextsOfLesson(m, f, p) ensures step in StepsFor(c, f, db) {
      LessonTextIsIn(c, f, db, i, step);
    }
    var texts := TextsOfLesson(m, f, p);
    var k0, k1 := TKey(Lessons, SlotId(m, p.slot, LessonPart), NameField, Whole),
                  TKey(LessonLearnings, SlotId(m, p.slot, LearningPart), NameField, Whole);
    var k2, k3 := TKey(LessonPractices, SlotId(m, p.slot, PracticePart), NameField, Whole),
                  TKey(LessonQuizzes, SlotId(m, p.slot, QuizPart), NameField, Whole);
    assert texts[0] == TextStep(m, f, k0, l.name) && texts[1] == TextStep(m, f, k1, l.name);
    assert texts[2] == TextStep(m, f, k2, l.name) && texts[3] == TextStep(m, f, k3, l.name);
    TextIsTranslated(c, f, stamp, holders, db, k0, l.name);
    TextIsTranslated(c, f, stamp, holders, db, k1, l.name);
    TextIsTranslated(c, f, stamp, holders, db, k2, l.name);
    TextIsTranslated(c, f, stamp, holders, db, k3, l.name);
  }

  lemma LessonTextKeys(c: Content, l: Lesson, s: Slot)
    requires Acceptable(c) && l in c.lessons && s == SlotOf(l)
    ensures IsSlot(c.number, s)
    ensures forall part :: ImportFile.IsMain(part) ==> ImportFile.RowId(c.number, l, part) == SlotId(c.number, s, part)
  {
    hide LessonsOk, ImportFile.RowId, SlotId, PlaceOk;
    LessonsOkParts(c.number, c.lessons);
    forall part | ImportFile.IsMain(part)
      ensures IsSlot(c.number, s) && ImportFile.RowId(c.number, l, part) == SlotId(c.number, s, part)
    {
      ImportFile.RowIdIs(c.number, l, part);
    }
    ImportFile.RowIdIs(c.number, l, LessonPart);
  }

  // ---- a question --------------------------------------------------------------------------------

  lemma {:induction false} InTextsOfSet(m: nat, f: Flags, questions: seq<Question>, ids: seq<Id>, j: nat, step: Step)
    requires |questions| == |ids| && j < |ids| && step in TextsOfQuestion(m, f, questions[j], ids[j])
    ensures step in TextsOfSet(m, f, questions, ids)
  {
    hide TextsOfQuestion;
    if j > 0 { InTextsOfSet(m, f, questions[1..], ids[1..], j - 1, step); }
  }

  lemma QuestionTextIsIn(c: Content, f: Flags, db: Db, i: nat, kind: Kind, j: nat, step: Step)
    requires Acceptable(c) && i < |PlacedOf(c)| && IsPlaced(c.number, PlacedOf(c)[i])
    requires j < |ImportFile.SetIn(PlacedOf(c)[i].lesson, kind)| && j < |IdsOfKind(PlacedOf(c)[i], kind)|
    requires step in TextsOfQuestion(c.number, f, ImportFile.SetIn(PlacedOf(c)[i].lesson, kind)[j],
                                     IdsOfKind(PlacedOf(c)[i], kind)[j])
    ensures step in StepsFor(c, f, db)
  {
    hide StepsFor, LessonsOk, PlacedOf, TextsOfQuestion, TextsOfSet;
    AcceptableIsWellPlaced(c);
    var p := PlacedOf(c)[i];
    InTextsOfSet(c.number, f, ImportFile.SetIn(p.lesson, kind), IdsOfKind(p, kind), j, step);
    assert step in RoundSteps(QuestionTexts, c.number, f, p);
    RoundStepIsIn(QuestionTexts, c, f, db, i, step);
  }

  /** What a question of the file says, and where in its row: its text and heading, each option, each message. */
  ghost predicate IsTextOf(q: Question, id: Id, field: ImportSlots.Field, subkey: Subkey, text: Bilingual) {
    match field
    case QuestionTextField => subkey == Whole && text == q.text
    case HeadingField => subkey == Whole && text == q.text
    case OptionField => exists n: nat :: n < |q.choices| && subkey == OptionKey(id, n + 1) && text == q.choices[n].text
    case FeedbackField =>
      q.feedback.Some? && ((subkey == Message(true) && q.feedback.value.good == Some(text)) ||
                           (subkey == Message(false) && q.feedback.value.bad == Some(text)))
    case NameField => false
  }

  lemma QuestionHasItsTexts(m: nat, f: Flags, q: Question, id: Id, field: ImportSlots.Field, subkey: Subkey,
                            text: Bilingual)
    requires IsTextOf(q, id, field, subkey, text)
    ensures TextStep(m, f, TKey(Questions, id, field, subkey), text) in TextsOfQuestion(m, f, q, id)
  {
    hide TextStep;
    var step, texts := TextStep(m, f, TKey(Questions, id, field, subkey), text), TextsOfQuestion(m, f, q, id);
    match field
    case QuestionTextField => assert texts[0] == step;
    case HeadingField => assert texts[1] == step;
    case OptionField =>
      var n: nat :| n < |q.choices| && subkey == OptionKey(id, n + 1) && text == q.choices[n].text;
      assert texts[2 + n] == step;
    case FeedbackField =>
      assert step in MessageTexts(m, f, id, true, q.feedback.value.good) ||
             step in MessageTexts(m, f, id, false, q.feedback.value.bad);
  }

  /** Every text of every question of the file is translated, under the id the file gives the question. */
  lemma QuestionIsTranslated(c: Content, f: Flags, stamp: string, holders: Placeholders, db: Db, l: Lesson, kind: Kind,
                             j: nat, field: ImportSlots.Field, subkey: Subkey, text: Bilingual)
    requires Accepted(c, f, stamp, holders, db) && Acceptable(c) && l in c.lessons && j < |ImportFile.SetIn(l, kind)|
    requires IsTextOf(ImportFile.SetIn(l, kind)[j], ImportFile.AskedId(c.number, c.lessons, l, kind, j), field, subkey,
                      text)
    ensures IsTranslated(Run(c, f, stamp), db, Import(c, f, stamp, holders, db).value.0,
                         TKey(Questions, ImportFile.AskedId(c.number, c.lessons, l, kind, j), field, subkey), text)
  {
    hide Import, StepsFor, LessonsOk, PlacedOf, TextStep, IsTranslated, Accepted, TextsOfQuestion, IsTextOf, IdsOfKind,
         ImportFile.AskedId, ImportFile.SetIn;
    AcceptableIsWellPlaced(c);
    var m := c.number;
    var i := NamedIsPlaced(c, l);
    var id := ImportFile.AskedId(m, c.lessons, l, kind, j);
    ImportFile.QuestionsGetTheirIds(c, i, kind, j);
    assert IsPlaced(m, PlacedOf(c)[i]);
    QuestionHasItsTexts(m, f, ImportFile.SetIn(l, kind)[j], id, field, subkey, text);
    QuestionTextIsIn(c, f, db, i, kind, j, TextStep(m, f, TKey(Questions, id, field, subkey), text));
    TextIsTranslated(c, f, stamp, holders, db, TKey(Questions, id, field, subkey), text);
  }
}
