/**
 The database half of an import: a plan's steps, what each does to the rows, the counts, and the check of the result,
 all in one transaction.
 */
module ImportSteps {
  import opened Values
  import opened ImportSlots

  /** The columns an import writes or reads. A table's own status, name and points columns go by one name each. */
  datatype Column =
    | NameCol | DescriptionCol | StatusCol | DeletedCol | OrderCol | PointsCol | QuizPointsCol
    | TotalPointsCol | PassingPointsCol | LearningPointsCol | QuizzesPointsCol | PracticesPointsCol
    | PracticeCountCol | QuizCountCol | PassPercentageCol
    | CurriculumCol | SubjectCol | OrganisationCol | GradeCol | LevelCol | LessonCol | DocumentCol
    | PracticeCol | QuizCol | QuestionCol
    | DocTypeCol | MetaCol | TagsCol | HeadingCol | OptionsCol | TextCol | DistractorsCol | FileCol | TemplateCol
    | IdentifierCol | CorrectValueCol | FeedbackCol

  datatype StoredOption = StoredOption(id: Subkey, text: string, correct: bool, sequence: nat)

  datatype Val =
    | Null | Int(n: int) | Text(s: string) | Ref(id: Id)
    | Options(list: seq<StoredOption>) | HeadingOf(text: string) | Messages(good: Option<string>, bad: Option<string>)

  type Columns = map<Column, Val>

  datatype Key = Key(table: Table, id: Id)

  /** The sha-256 of a base text, which tells texts apart. */
  datatype Hash = Sha256(text: string)

  datatype Translation = Translation(id: Id, organisation: string, text: string, hash: Hash)

  /** A stored translation and the time of the run that last changed it. */
  datatype Stored = Stored(row: Translation, updated: string)

  /** `quizRows` is how many active level-quiz rows a level has; `languages` each organisation's content language. */
  datatype Db = Db(rows: map<Key, Columns>, translations: map<TKey, Stored>, languages: map<string, Option<string>>,
                   quizRows: map<Id, nat>)

  datatype Step =
    | Upsert(key: Key, values: Columns, update: set<Column>)
    | Translate(tkey: TKey, row: Translation)
    | Hide(table: Table, ids: set<Id>, column: Column, value: Val)

  function Cell(row: Columns, c: Column): Val {
    if c in row then row[c] else Val.Null
  }

  function Written(values: Columns, update: set<Column>): Columns {
    map c | c in update && c in values :: values[c]
  }

  function Hides(step: Step, k: Key): bool
    requires step.Hide?
  {
    k.table == step.table && k.id in step.ids
  }

  /**
   INSERT ... ON DUPLICATE KEY UPDATE of the update columns, or an UPDATE of the rows there are; `stamp` is the time of
   the run.
   */
  function Effect(db: Db, stamp: string, step: Step): Db {
    match step
    case Upsert(key, values, update) =>
      db.(rows := db.rows[key := if key in db.rows then db.rows[key] + Written(values, update) else values])
    case Translate(tkey, row) =>
      db.(translations := db.translations[tkey :=
        if tkey !in db.translations then Stored(row, stamp)
        else
          var there := db.translations[tkey];
          var changed := there.row.text != row.text || there.row.hash != row.hash;
          Stored(there.row.(text := row.text, hash := row.hash), if changed then stamp else there.updated)])
    case Hide(_, _, column, value) =>
      db.(rows := map k | k in db.rows :: if Hides(step, k) then db.rows[k][column := value] else db.rows[k])
  }

  // ---- counts ------------------------------------------------------------------------------------

  datatype Counted = Of(table: Table) | Translations | Organisations

  datatype Count = Count(inserted: nat, updated: nat, same: nat, hidden: nat)

  type Report = map<Counted, Count>

  function CountOf(report: Report, t: Counted): Count {
    if t in report then report[t] else Count(0, 0, 0, 0)
  }

  function RowsHidden(db: Db, step: Step): nat
    requires step.Hide?
  {
    |set k | k in db.rows && Hides(step, k) && db.rows[k][step.column := step.value] != db.rows[k]|
  }

  /** The count of a step: one row inserted, changed or left as it was; or the rows a hide changed. */
  function Counting(report: Report, db: Db, stamp: string, step: Step): Report {
    match step
    case Upsert(key, _, _) =>
      var c := CountOf(report, Of(key.table));
      report[Of(key.table) :=
        if key !in db.rows then c.(inserted := c.inserted + 1)
        else if Effect(db, stamp, step).rows[key] != db.rows[key] then c.(updated := c.updated + 1)
        else c.(same := c.same + 1)]
    case Translate(tkey, _) =>
      var c := CountOf(report, Translations);
      report[Translations :=
        if tkey !in db.translations then c.(inserted := c.inserted + 1)
        else if Effect(db, stamp, step).translations[tkey] != db.translations[tkey] then c.(updated := c.updated + 1)
        else c.(same := c.same + 1)]
    case Hide(table, _, _, _) =>
      var c := CountOf(report, Of(table));
      report[Of(table) := c.(hidden := c.hidden + RowsHidden(db, step))]
  }

  function Apply(db: Db, stamp: string, steps: seq<Step>): Db
    decreases |steps|
  {
    if steps == [] then db else Apply(Effect(db, stamp, steps[0]), stamp, steps[1..])
  }

  function Tally(report: Report, db: Db, stamp: string, steps: seq<Step>): Report
    decreases |steps|
  {
    if steps == [] then report else Tally(Counting(report, db, stamp, steps[0]), Effect(db, stamp, steps[0]), stamp,
                                          steps[1..])
  }

  // ---- the check of the result -------------------------------------------------------------------

  /** The switch columns a row is checked by: the step's own `isdeleted` and status. */
  predicate SwitchesAre(row: Columns, values: Columns, update: set<Column>) {
    forall c :: c in update && c in {DeletedCol, StatusCol} ==> Cell(row, c) == Cell(values, c)
  }

  predicate Verified(db: Db, step: Step) {
    match step
    case Upsert(key, values, update) => key in db.rows && SwitchesAre(db.rows[key], values, update)
    case Translate(tkey, row) =>
      tkey in db.translations && db.translations[tkey].row.organisation == row.organisation &&
      db.translations[tkey].row.text == row.text && db.translations[tkey].row.hash == row.hash
    case Hide(_, _, column, value) => forall k :: k in db.rows && Hides(step, k) ==> Cell(db.rows[k], column) == value
  }

  const BASE_LANGUAGE := "en"

  datatype Requirement = Requirement(key: Key, kept: bool)

  datatype Plan = Plan(organisation: string, stamp: string, steps: seq<Step>, needed: seq<Requirement>, owned: seq<Key>)

  datatype Refusal =
    | NoOrganisation | OtherLanguage | NotAsPlanned | BadContent | BadFlags | ChangesMeaning | MissingRow | OtherOwner

  /** The organisation's content language must be the base language, or not set yet. */
  function LanguageRefusal(db: Db, organisation: string): Option<Refusal> {
    if organisation !in db.languages then Some(NoOrganisation)
    else if db.languages[organisation].Some? &&
         Lower(db.languages[organisation].value) != BASE_LANGUAGE then Some(OtherLanguage)
    else None
  }

  function WithLanguage(db: Db, organisation: string): Db
    requires organisation in db.languages
  {
    if db.languages[organisation].None? then db.(languages := db.languages[organisation := Some(BASE_LANGUAGE)]) else db
  }

  function LanguageCount(db: Db, organisation: string): Report
    requires organisation in db.languages
  {
    map[Organisations := if db.languages[organisation].None? then Count(0, 1, 0, 0) else Count(0, 0, 1, 0)]
  }

  /** `applyPlan`: the language, the steps in order, the check; all of it or nothing. */
  function ApplyPlan(db: Db, plan: Plan): Result<(Db, Report), Refusal> {
    var refusal := LanguageRefusal(db, plan.organisation);
    if refusal.Some? then Err(refusal.value)
    else
      var start := WithLanguage(db, plan.organisation);
      var end := Apply(start, plan.stamp, plan.steps);
      if forall step :: step in plan.steps ==> Verified(end, step)
      then Ok((end, Tally(LanguageCount(db, plan.organisation), start, plan.stamp, plan.steps)))
      else Err(NotAsPlanned)
  }

  class Connection {
    var db: Db

    constructor (given: Db)
      ensures db == given
    {
      db := given;
    }

    /** Every step's rows are as the plan wrote them. */
    method VerifyPlan(plan: Plan) returns (ok: bool)
      ensures ok <==> forall step :: step in plan.steps ==> Verified(db, step)
    {
      for i := 0 to |plan.steps|
        invariant forall k :: 0 <= k < i ==> Verified(db, plan.steps[k])
      {
        if !Verified(db, plan.steps[i]) { return false; }
      }
      return true;
    }

    method RunPlan(plan: Plan) returns (r: Result<Report, Refusal>)
      modifies this
      ensures match ApplyPlan(old(db), plan)
              case Ok(done) => db == done.0 && r == Ok(done.1)
              case Err(e) => db == old(db) && r == Err(e)
    {
      var before := db;
      if plan.organisation !in db.languages { return Err(NoOrganisation); }
      var language := db.languages[plan.organisation];
      if language.Some? && Lower(language.value) != BASE_LANGUAGE { return Err(OtherLanguage); }
      var report: Report := map[];
      if language.None? {
        db := db.(languages := db.languages[plan.organisation := Some(BASE_LANGUAGE)]);
        report := report[Organisations := Count(0, 1, 0, 0)];
      } else {
        report := report[Organisations := Count(0, 0, 1, 0)];
      }
      ghost var start, first := db, report;
      for i := 0 to |plan.steps|
        invariant Apply(db, plan.stamp, plan.steps[i..]) == Apply(start, plan.stamp, plan.steps)
        invariant Tally(report, db, plan.stamp, plan.steps[i..]) == Tally(first, start, plan.stamp, plan.steps)
      {
        assert plan.steps[i..][1..] == plan.steps[i + 1..];
        report := Counting(report, db, plan.stamp, plan.steps[i]);
        db := Effect(db, plan.stamp, plan.steps[i]);
      }
      var ok := VerifyPlan(plan);
      if !ok {
        db := before;
        return Err(NotAsPlanned);
      }
      return Ok(report);
    }
  }

  // ---- steps that touch different rows -----------------------------------------------------------

  datatype Target = RowTarget(key: Key) | TextTarget(tkey: TKey)

  predicate Touches(step: Step, t: Target) {
    match step
    case Upsert(key, _, _) => t == RowTarget(key)
    case Translate(tkey, _) => t == TextTarget(tkey)
    case Hide(_, _, _, _) => t.RowTarget? && Hides(step, t.key)
  }

  ghost predicate Apart(a: Step, b: Step) {
    forall t: Target :: Touches(a, t) ==> !Touches(b, t)
  }

  /** No row and no text is touched by two steps. */
  ghost predicate Separate(steps: seq<Step>) {
    forall i, j :: 0 <= i < j < |steps| ==> Apart(steps[i], steps[j])
  }

  /** An upsert names every column it updates. */
  predicate Sound(step: Step) {
    step.Upsert? ==> step.update <= step.values.Keys
  }

  /** The step has nothing left to do. */
  ghost predicate Holds(db: Db, step: Step) {
    match step
    case Upsert(key, values, update) =>
        key in db.rows && forall c :: c in update && c in values ==> c in db.rows[key] && db.rows[key][c] == values[c]
    case Translate(tkey, row) => tkey in db.translations && db.translations[tkey].row.text == row.text &&
        db.translations[tkey].row.hash == row.hash
    case Hide(_, _, column, value) =>
        forall k :: k in db.rows && Hides(step, k) ==> column in db.rows[k] && db.rows[k][column] == value
  }

  lemma HoldsOnceDone(db: Db, stamp: string, step: Step)
    ensures Holds(Effect(db, stamp, step), step)
  {
  }

  /** What one target holds. */
  ghost function At(db: Db, t: Target): (Option<Columns>, Option<Stored>) {
    match t
    case RowTarget(k) => (if k in db.rows then Some(db.rows[k]) else None, None)
    case TextTarget(k) => (None, if k in db.translations then Some(db.translations[k]) else None)
  }

  lemma EffectIsLocal(db: Db, stamp: string, step: Step, t: Target)
    requires !Touches(step, t)
    ensures At(Effect(db, stamp, step), t) == At(db, t)
  {
  }

  lemma HoldsDependsOnTargets(db: Db, db': Db, step: Step)
    requires Holds(db, step) && forall t :: Touches(step, t) ==> At(db', t) == At(db, t)
    ensures Holds(db', step)
  {
    match step
    case Upsert(key, _, _) => assert Touches(step, RowTarget(key));
    case Translate(tkey, _) => assert Touches(step, TextTarget(tkey));
    case Hide(_, _, _, _) =>
      forall k | k in db'.rows && Hides(step, k)
        ensures step.column in db'.rows[k] && db'.rows[k][step.column] == step.value
      {
        assert Touches(step, RowTarget(k)) && At(db', RowTarget(k)) == At(db, RowTarget(k));
      }
  }

  /** A target that no step touches stays as it is. */
  lemma {:induction false} ApplyIsLocal(db: Db, stamp: string, steps: seq<Step>, t: Target)
    requires forall step :: step in steps ==> !Touches(step, t)
    ensures At(Apply(db, stamp, steps), t) == At(db, t)
    decreases |steps|
  {
    if steps != [] {
      EffectIsLocal(db, stamp, steps[0], t);
      assert forall step :: step in steps[1..] ==> step in steps;
      ApplyIsLocal(Effect(db, stamp, steps[0]), stamp, steps[1..], t);
    }
  }

  lemma {:induction false} ApplyKeepsHolding(db: Db, stamp: string, steps: seq<Step>, step: Step)
    requires Holds(db, step) && forall s :: s in steps ==> Apart(step, s)
    ensures Holds(Apply(db, stamp, steps), step)
  {
    hide Touches, Holds;
    forall t | Touches(step, t) ensures At(Apply(db, stamp, steps), t) == At(db, t) {
      ApplyIsLocal(db, stamp, steps, t);
    }
    HoldsDependsOnTargets(db, Apply(db, stamp, steps), step);
  }

  /** Of a target one step touches, only that step decides. */
  lemma {:induction false} ApplyActsOnce(db: Db, stamp: string, steps: seq<Step>, i: nat, t: Target)
    requires Separate(steps) && i < |steps| && Touches(steps[i], t)
    ensures At(Apply(db, stamp, steps), t) == At(Effect(db, stamp, steps[i]), t)
    decreases |steps|
  {
    hide Effect, Touches;
    if i == 0 {
      forall s | s in steps[1..] ensures !Touches(s, t) {
        var j :| 0 <= j < |steps[1..]| && s == steps[1..][j];
        assert Apart(steps[0], steps[j + 1]);
      }
      ApplyIsLocal(Effect(db, stamp, steps[0]), stamp, steps[1..], t);
    } else {
      assert Apart(steps[0], steps[i]);
      assert !Touches(steps[0], t);
      EffectIsLocal(db, stamp, steps[0], t);
      TailIsSeparate(steps);
      ApplyActsOnce(Effect(db, stamp, steps[0]), stamp, steps[1..], i - 1, t);
      EffectDependsOnTarget(db, Effect(db, stamp, steps[0]), stamp, steps[i], t);
    }
  }

  lemma TailIsSeparate(steps: seq<Step>)
    requires Separate(steps) && steps != []
    ensures Separate(steps[1..])
  {
    hide Apart;
  }

  lemma EffectDependsOnTarget(db: Db, db': Db, stamp: string, step: Step, t: Target)
    requires At(db, t) == At(db', t) && Touches(step, t)
    ensures At(Effect(db, stamp, step), t) == At(Effect(db', stamp, step), t)
  {
  }

  /** The row an upsert leaves, whatever the other steps do. */
  lemma UpsertResult(db: Db, stamp: string, steps: seq<Step>, step: Step)
    requires Separate(steps) && step in steps && step.Upsert?
    ensures step.key in Apply(db, stamp, steps).rows
    ensures Apply(db, stamp, steps).rows[step.key] == if step.key in db.rows
            then db.rows[step.key] + Written(step.values, step.update) else step.values
  {
    hide Apply, Separate;
    var i :| 0 <= i < |steps| && steps[i] == step;
    ApplyActsOnce(db, stamp, steps, i, RowTarget(step.key));
    assert At(Effect(db, stamp, step), RowTarget(step.key)).0.Some?;
  }

  lemma UntouchedRow(db: Db, stamp: string, steps: seq<Step>, k: Key)
    requires forall step :: step in steps ==> !Touches(step, RowTarget(k))
    ensures k in Apply(db, stamp, steps).rows <==> k in db.rows
    ensures k in db.rows ==> Apply(db, stamp, steps).rows[k] == db.rows[k]
  {
    hide Apply, Touches;
    ApplyIsLocal(db, stamp, steps, RowTarget(k));
  }

  /** After the steps of a plan, none of them has anything left to do. */
  lemma {:induction false} ApplyMakesEachHold(db: Db, stamp: string, steps: seq<Step>)
    requires Separate(steps)
    ensures forall step :: step in steps ==> Holds(Apply(db, stamp, steps), step)
    decreases |steps|
  {
    hide Holds, Effect, Apart;
    if steps != [] {
      HoldsOnceDone(db, stamp, steps[0]);
      TailIsSeparate(steps);
      ApplyMakesEachHold(Effect(db, stamp, steps[0]), stamp, steps[1..]);
      forall s | s in steps[1..] ensures Apart(steps[0], s) {
        var j :| 0 <= j < |steps[1..]| && s == steps[1..][j];
        assert Apart(steps[0], steps[j + 1]);
      }
      ApplyKeepsHolding(Effect(db, stamp, steps[0]), stamp, steps[1..], steps[0]);
    }
  }

  lemma HoldingStepChangesNothing(db: Db, stamp: string, step: Step, report: Report)
    requires Holds(db, step)
    ensures Effect(db, stamp, step) == db
    ensures Quiet(report) ==> Quiet(Counting(report, db, stamp, step))
  {
    match step
    case Upsert(key, values, update) => assert db.rows[key] + Written(values, update) == db.rows[key];
    case Translate(_, _) =>
    case Hide(_, _, column, value) =>
      assert forall k :: k in db.rows && Hides(step, k) ==> db.rows[k][column := value] == db.rows[k];
      assert Effect(db, stamp, step).rows == db.rows;
  }

  /** Nothing inserted, nothing changed, nothing hidden, in any table. */
  ghost predicate Quiet(report: Report) {
    forall t :: t in report ==> report[t].inserted == 0 && report[t].updated == 0 && report[t].hidden == 0
  }

  /** Steps with nothing left to do leave the database as it is, and count nothing. */
  lemma {:induction false} HoldingStepsChangeNothing(db: Db, stamp: string, steps: seq<Step>, report: Report)
    requires forall step :: step in steps ==> Holds(db, step)
    ensures Apply(db, stamp, steps) == db
    ensures Quiet(report) ==> Quiet(Tally(report, db, stamp, steps))
    decreases |steps|
  {
    hide Holds, Effect, Counting, Quiet;
    if steps != [] {
      assert steps[0] in steps;
      HoldingStepChangesNothing(db, stamp, steps[0], report);
      assert forall step :: step in steps[1..] ==> step in steps;
      HoldingStepsChangeNothing(db, stamp, steps[1..], Counting(report, db, stamp, steps[0]));
    }
  }

  /** A held step is verified, but for a text that is another organisation's. */
  lemma HoldingIsVerified(db: Db, step: Step)
    requires Holds(db, step) && Sound(step)
    ensures Verified(db, step) <==>
            (step.Translate? ==> db.translations[step.tkey].row.organisation == step.row.organisation)
  {
  }

  lemma TextKeepsOwner(db: Db, stamp: string, steps: seq<Step>, i: nat)
    requires Separate(steps) && i < |steps| && steps[i].Translate?
    ensures var k := steps[i].tkey;
            k in Apply(db, stamp, steps).translations &&
            Apply(db, stamp, steps).translations[k].row.organisation == if k in db.translations
            then db.translations[k].row.organisation else steps[i].row.organisation
  {
    hide Apply;
    var t := TextTarget(steps[i].tkey);
    ApplyActsOnce(db, stamp, steps, i, t);
    assert At(Effect(db, stamp, steps[i]), t).1.Some?;
  }

  /**
   The check after the steps can fail in one way only: a text the plan writes was there already, as another
   organisation's.
   */
  lemma {:induction false} CheckFailsOnlyOnForeignTexts(db: Db, stamp: string, steps: seq<Step>)
    requires Separate(steps) && forall step :: step in steps ==> Sound(step)
    ensures (forall step :: step in steps ==> Verified(Apply(db, stamp, steps), step)) <==>
            (forall step :: step in steps && step.Translate? && step.tkey in db.translations ==>
             db.translations[step.tkey].row.organisation == step.row.organisation)
  {
    hide Verified, Apply, Holds, Sound;
    var end := Apply(db, stamp, steps);
    ApplyMakesEachHold(db, stamp, steps);
    forall step | step in steps
      ensures Verified(end, step) <==>
              (step.Translate? && step.tkey in db.translations ==>
               db.translations[step.tkey].row.organisation == step.row.organisation)
    {
      HoldingIsVerified(end, step);
      if step.Translate? {
        var i :| 0 <= i < |steps| && steps[i] == step;
        TextKeepsOwner(db, stamp, steps, i);
      }
    }
  }

  // ---- columns no step updates -------------------------------------------------------------------

  predicate Leaves(step: Step, c: Column) {
    match step
    case Upsert(_, _, update) => c !in update
    case Translate(_, _) => true
    case Hide(_, _, column, _) => column != c
  }

  /** A row that was there keeps its value in a column that no step updates, and no row goes away. */
  lemma {:induction false} ApplyKeepsColumn(db: Db, stamp: string, steps: seq<Step>, k: Key, c: Column)
    requires k in db.rows && forall step :: step in steps ==> Leaves(step, c)
    ensures k in Apply(db, stamp, steps).rows && Cell(Apply(db, stamp, steps).rows[k], c) == Cell(db.rows[k], c)
    decreases |steps|
  {
    if steps != [] {
      assert steps[0] in steps && Leaves(steps[0], c);
      assert forall step :: step in steps[1..] ==> step in steps;
      ApplyKeepsColumn(Effect(db, stamp, steps[0]), stamp, steps[1..], k, c);
    }
  }

  lemma EffectKeepsCell(db: Db, stamp: string, step: Step, k: Key, c: Column)
    requires k in db.rows && (Touches(step, RowTarget(k)) ==> Leaves(step, c))
    ensures k in Effect(db, stamp, step).rows && Cell(Effect(db, stamp, step).rows[k], c) == Cell(db.rows[k], c)
  {
  }

  /** A column of one row is kept when every step that touches the row leaves the column. */
  lemma {:induction false} ApplyKeepsCell(db: Db, stamp: string, steps: seq<Step>, k: Key, c: Column)
    requires k in db.rows && forall step :: step in steps && Touches(step, RowTarget(k)) ==> Leaves(step, c)
    ensures k in Apply(db, stamp, steps).rows && Cell(Apply(db, stamp, steps).rows[k], c) == Cell(db.rows[k], c)
    decreases |steps|
  {
    hide Effect, Touches, Leaves, Cell;
    if steps != [] {
      assert steps[0] in steps && forall step :: step in steps[1..] ==> step in steps;
      EffectKeepsCell(db, stamp, steps[0], k, c);
      ApplyKeepsCell(Effect(db, stamp, steps[0]), stamp, steps[1..], k, c);
    }
  }

  /** A row that was not there is as some upsert inserted it, in a column that no step updates. */
  lemma {:induction false} NewRowComesFrom(db: Db, stamp: string, steps: seq<Step>, k: Key, c: Column)
      returns (step: Step)
    requires k !in db.rows && k in Apply(db, stamp, steps).rows && forall s :: s in steps ==> Leaves(s, c)
    ensures step in steps && step.Upsert? && Cell(Apply(db, stamp, steps).rows[k], c) == Cell(step.values, c)
    decreases |steps|
  {
    assert steps[0] in steps && forall s :: s in steps[1..] ==> s in steps;
    if k in Effect(db, stamp, steps[0]).rows {
      step := steps[0];
      ApplyKeepsColumn(Effect(db, stamp, steps[0]), stamp, steps[1..], k, c);
    } else {
      step := NewRowComesFrom(Effect(db, stamp, steps[0]), stamp, steps[1..], k, c);
    }
  }

  lemma {:induction false} NewRowIsUpserted(db: Db, stamp: string, steps: seq<Step>, k: Key) returns (step: Step)
    requires k !in db.rows && k in Apply(db, stamp, steps).rows
    ensures step in steps && step.Upsert? && step.key == k
    decreases |steps|
  {
    if k in Effect(db, stamp, steps[0]).rows {
      step := steps[0];
    } else {
      step := NewRowIsUpserted(Effect(db, stamp, steps[0]), stamp, steps[1..], k);
    }
  }

  lemma HeldHide(db: Db, step: Step, k: Key)
    requires step.Hide? && Holds(db, step) && k in db.rows && Touches(step, RowTarget(k))
    ensures Cell(db.rows[k], step.column) == step.value
  {
  }

  lemma {:induction false} ApplyKeepsTheRest(db: Db, stamp: string, steps: seq<Step>)
    ensures Apply(db, stamp, steps).quizRows == db.quizRows && Apply(db, stamp, steps).languages == db.languages
    decreases |steps|
  {
    if steps != [] {
      ApplyKeepsTheRest(Effect(db, stamp, steps[0]), stamp, steps[1..]);
    }
  }
}
