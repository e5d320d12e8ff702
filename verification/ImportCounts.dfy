/**
 What the report of an import counts: the rows that appear, those an upsert changes or leaves, those a hide changes.
 */
module ImportCounts {
  import opened Values
  import opened ImportSlots
  import opened ImportContent
  import opened ImportSteps
  import opened ImportPlan
  import opened ImportRows
  import opened ImportRun
  import opened ImportLaws
  import opened ImportSequence

  function Plus(a: Count, b: Count): Count {
    Count(a.inserted + b.inserted, a.updated + b.updated, a.same + b.same, a.hidden + b.hidden)
  }

  const NONE := Count(0, 0, 0, 0)

  /** What one step adds to the count of a table, against what was there before the run. */
  function Adds(db: Db, stamp: string, step: Step, t: Table): Count {
    match step
    case Upsert(key, _, _) =>
      if key.table != t then NONE
      else if key !in db.rows then Count(1, 0, 0, 0)
      else if Effect(db, stamp, step).rows[key] != db.rows[key] then Count(0, 1, 0, 0)
      else Count(0, 0, 1, 0)
    case Translate(_, _) => NONE
    case Hide(table, _, _, _) => if table != t then NONE else Count(0, 0, 0, RowsHidden(db, step))
  }

  function AddsAll(db: Db, stamp: string, steps: seq<Step>, t: Table): Count {
    if steps == [] then NONE else Plus(Adds(db, stamp, steps[0], t), AddsAll(db, stamp, steps[1..], t))
  }

  // ---- each step counts against what was there before the run ------------------------------------

  lemma AddsDependOnTargets(db: Db, other: Db, stamp: string, step: Step, t: Table)
    requires forall target :: Touches(step, target) ==> At(db, target) == At(other, target)
    ensures Adds(db, stamp, step, t) == Adds(other, stamp, step, t)
  {
    match step
    case Upsert(key, _, _) => assert Touches(step, RowTarget(key));
    case Translate(_, _) =>
    case Hide(_, _, _, _) =>
      forall k | Hides(step, k)
        ensures (k in db.rows <==> k in other.rows) && (k in db.rows ==> db.rows[k] == other.rows[k])
      {
        assert Touches(step, RowTarget(k));
      }
      assert (set k | k in db.rows && Hides(step, k) && db.rows[k][step.column := step.value] != db.rows[k]) ==
             (set k | k in other.rows && Hides(step, k) && other.rows[k][step.column := step.value] != other.rows[k]);
  }

  lemma CountPut(report: Report, of: Counted, count: Count, t: Table)
    ensures CountOf(report[of := count], Of(t)) == if of == Of(t) then count else CountOf(report, Of(t))
  {
  }

  lemma CountingAdds(report: Report, db: Db, stamp: string, step: Step, t: Table)
    ensures CountOf(Counting(report, db, stamp, step), Of(t)) == Plus(CountOf(report, Of(t)), Adds(db, stamp, step, t))
  {
    hide Effect, RowsHidden, CountOf;
    match step
    case Upsert(key, _, _) => CountPut(report, Of(key.table), Counting(report, db, stamp, step)[Of(key.table)], t);
    case Translate(_, _) => CountPut(report, Translations, Counting(report, db, stamp, step)[Translations], t);
    case Hide(table, _, _, _) => CountPut(report, Of(table), Counting(report, db, stamp, step)[Of(table)], t);
  }

  /** Later steps touch nothing an earlier one does, so a later step finds its targets as the run found them. */
  lemma RestFindsTheSame(start: Db, db: Db, stamp: string, steps: seq<Step>, step: Step, target: Target)
    requires Separate(steps) && steps != [] && step in steps[1..] && Touches(step, target)
    requires forall s, t :: s in steps && Touches(s, t) ==> At(db, t) == At(start, t)
    ensures At(Effect(db, stamp, steps[0]), target) == At(start, target)
  {
    hide Effect, At, Touches;
    var i :| 0 <= i < |steps[1..]| && steps[1..][i] == step;
    assert Apart(steps[0], steps[i + 1]);
    assert !Touches(steps[0], target);
    EffectIsLocal(db, stamp, steps[0], target);
    assert steps[i + 1] in steps;
  }

  lemma {:induction false} TallyAdds(start: Db, report: Report, db: Db, stamp: string, steps: seq<Step>, t: Table)
    requires Separate(steps)
    requires forall s, target :: s in steps && Touches(s, target) ==> At(db, target) == At(start, target)
    ensures CountOf(Tally(report, db, stamp, steps), Of(t)) ==
            Plus(CountOf(report, Of(t)), AddsAll(start, stamp, steps, t))
    decreases |steps|
  {
    hide Effect, At, Touches, Counting, Adds, Separate, CountOf;
    if steps != [] {
      var next := Effect(db, stamp, steps[0]);
      AddsDependOnTargets(db, start, stamp, steps[0], t);
      CountingAdds(report, db, stamp, steps[0], t);
      forall s, target | s in steps[1..] && Touches(s, target) ensures At(next, target) == At(start, target) {
        RestFindsTheSame(start, db, stamp, steps, s, target);
      }
      TailIsSeparate(steps);
      TallyAdds(start, Counting(report, db, stamp, steps[0]), next, stamp, steps[1..], t);
    }
  }

  // ---- the counts are of sets of rows ------------------------------------------------------------

  /** The rows that the chosen upserts write. */
  ghost function KeysOf(steps: seq<Step>, chosen: Step -> bool): set<Key> {
    set step | step in steps && step.Upsert? && chosen(step) :: step.key
  }

  /** The rows of a table that the steps upsert: new ones and changed ones. */
  function IsNew(db: Db, t: Table): Step -> bool {
    (step: Step) => step.Upsert? && step.key.table == t && step.key !in db.rows
  }

  function IsUpdate(db: Db, stamp: string, t: Table): Step -> bool {
    (step: Step) => step.Upsert? && step.key.table == t && step.key in db.rows && ChangesRow(db, stamp, step)
  }

  predicate ChangesRow(db: Db, stamp: string, step: Step)
    requires step.Upsert? && step.key in db.rows
  {
    Effect(db, stamp, step).rows[step.key] != db.rows[step.key]
  }

  ghost function NewRows(db: Db, steps: seq<Step>, t: Table): set<Key> {
    KeysOf(steps, IsNew(db, t))
  }

  ghost function UpdatedRows(db: Db, stamp: string, steps: seq<Step>, t: Table): set<Key> {
    KeysOf(steps, IsUpdate(db, stamp, t))
  }

  ghost predicate IsHidden(db: Db, steps: seq<Step>, k: Key) {
    exists step :: step in steps && HidesRow(db, step, k)
  }

  predicate HidesRow(db: Db, step: Step, k: Key) {
    step.Hide? && Hides(step, k) && k in db.rows && db.rows[k][step.column := step.value] != db.rows[k]
  }

  ghost function HiddenRows(db: Db, steps: seq<Step>, t: Table): set<Key> {
    set k | k in db.rows && k.table == t && IsHidden(db, steps, k)
  }

  lemma NotInRest(steps: seq<Step>, k: Key, step: Step)
    requires Separate(steps) && steps != [] && Touches(steps[0], RowTarget(k)) && step in steps[1..]
    ensures !Touches(step, RowTarget(k))
  {
    var i :| 0 <= i < |steps[1..]| && steps[1..][i] == step;
    assert Apart(steps[0], steps[i + 1]);
  }

  lemma Disjoint<T>(a: set<T>, b: set<T>, all: set<T>)
    requires a !! b && all == a + b
    ensures |all| == |a| + |b|
  {
  }

  lemma KeysCount(steps: seq<Step>, chosen: Step -> bool)
    requires Separate(steps) && steps != []
    ensures |KeysOf(steps, chosen)| == (if steps[0].Upsert? && chosen(steps[0]) then 1 else 0) +
            |KeysOf(steps[1..], chosen)|
  {
    hide Separate;
    var step, rest := steps[0], steps[1..];
    assert steps == [step] + rest;
    var one: set<Key> := if step.Upsert? && chosen(step) then {step.key} else {};
    if step.Upsert? {
      forall s | s in rest && s.Upsert? ensures s.key != step.key {
        assert Touches(step, RowTarget(step.key));
        NotInRest(steps, step.key, s);
      }
    }
    Disjoint(one, KeysOf(rest, chosen), KeysOf(steps, chosen));
  }

  lemma UpsertedRowsCount(db: Db, stamp: string, steps: seq<Step>, t: Table)
    requires Separate(steps) && steps != []
    ensures |NewRows(db, steps, t)| == Adds(db, stamp, steps[0], t).inserted + |NewRows(db, steps[1..], t)|
    ensures |UpdatedRows(db, stamp, steps, t)| == Adds(db, stamp, steps[0], t).updated +
            |UpdatedRows(db, stamp, steps[1..], t)|
  {
    hide Effect, Separate, KeysOf, RowsHidden;
    KeysCount(steps, IsNew(db, t));
    KeysCount(steps, IsUpdate(db, stamp, t));
  }

  lemma HiddenByFirst(db: Db, steps: seq<Step>, t: Table, here: set<Key>)
    requires Separate(steps) && steps != [] && steps[0].Hide? && steps[0].table == t
    requires forall k :: k in here <==> HidesRow(db, steps[0], k)
    ensures |HiddenRows(db, steps, t)| == |here| + |HiddenRows(db, steps[1..], t)|
  {
    hide Separate;
    var rest := steps[1..];
    assert steps == [steps[0]] + rest;
    forall k | k in here ensures !IsHidden(db, rest, k) {
      forall s | s in rest ensures !HidesRow(db, s, k) {
        NotInRest(steps, k, s);
      }
    }
    forall k ensures k in HiddenRows(db, steps, t) <==> k in here || k in HiddenRows(db, rest, t) {
    }
    Disjoint(here, HiddenRows(db, rest, t), HiddenRows(db, steps, t));
  }

  lemma HiddenRowsCount(db: Db, stamp: string, steps: seq<Step>, t: Table)
    requires Separate(steps) && steps != []
    ensures |HiddenRows(db, steps, t)| == Adds(db, stamp, steps[0], t).hidden + |HiddenRows(db, steps[1..], t)|
  {
    hide Effect, Separate;
    var step, rest := steps[0], steps[1..];
    if step.Hide? && step.table == t {
      var here := set k | k in db.rows && Hides(step, k) && db.rows[k][step.column := step.value] != db.rows[k];
      HiddenByFirst(db, steps, t, here);
    } else {
      assert steps == [step] + rest;
      assert HiddenRows(db, steps, t) == HiddenRows(db, rest, t);
    }
  }

  lemma {:induction false} AddsAreSizes(db: Db, stamp: string, steps: seq<Step>, t: Table)
    requires Separate(steps)
    ensures var adds := AddsAll(db, stamp, steps, t);
            adds.inserted == |NewRows(db, steps, t)| && adds.updated == |UpdatedRows(db, stamp, steps, t)| &&
            adds.hidden == |HiddenRows(db, steps, t)|
  {
    hide Adds, NewRows, UpdatedRows, HiddenRows, Separate;
    if steps == [] {
      NoRows(db, stamp, steps, t);
    } else {
      UpsertedRowsCount(db, stamp, steps, t);
      HiddenRowsCount(db, stamp, steps, t);
      TailIsSeparate(steps);
      AddsAreSizes(db, stamp, steps[1..], t);
    }
  }

  lemma NoRows(db: Db, stamp: string, steps: seq<Step>, t: Table)
    requires steps == []
    ensures NewRows(db, steps, t) == {} && UpdatedRows(db, stamp, steps, t) == {} && HiddenRows(db, steps, t) == {}
  {
  }

  // ---- the report ---------------------------------------------------------------------------------

  lemma NewRowsAppear(db: Db, stamp: string, steps: seq<Step>, t: Table)
    requires Separate(steps)
    ensures NewRows(db, steps, t) == set k | k in Apply(db, stamp, steps).rows && k.table == t && k !in db.rows
  {
    hide Apply, Separate;
    var after := Apply(db, stamp, steps);
    forall k | k in after.rows && k.table == t && k !in db.rows ensures k in NewRows(db, steps, t) {
      var step := NewRowIsUpserted(db, stamp, steps, k);
    }
    forall k | k in NewRows(db, steps, t) ensures k in after.rows {
      var step :| step in steps && step.Upsert? && step.key == k;
      UpsertResult(db, stamp, steps, step);
    }
  }

  /** A row touched by one step is updated or hidden as that step says. */
  lemma TouchedOnce(db: Db, stamp: string, steps: seq<Step>, t: Table, step: Step, k: Key)
    requires k in db.rows && k.table == t && step in steps && Touches(step, RowTarget(k))
    requires forall s :: s in steps && s != step ==> !Touches(s, RowTarget(k))
    ensures k in UpdatedRows(db, stamp, steps, t) <==> step.Upsert? && ChangesRow(db, stamp, step)
    ensures k in HiddenRows(db, steps, t) <==> HidesRow(db, step, k)
  {
    hide ChangesRow;
    forall s | s in steps && s.Upsert? && s.key == k ensures s == step {
      assert Touches(s, RowTarget(k));
    }
    forall s | s in steps && HidesRow(db, s, k) ensures s == step {
      assert Touches(s, RowTarget(k));
    }
  }

  lemma EffectOnRow(db: Db, stamp: string, step: Step, k: Key)
    requires k in db.rows && Touches(step, RowTarget(k))
    ensures k in Effect(db, stamp, step).rows
    ensures Effect(db, stamp, step).rows[k] != db.rows[k] <==>
            (step.Upsert? && ChangesRow(db, stamp, step)) || HidesRow(db, step, k)
    ensures !(step.Upsert? && HidesRow(db, step, k))
  {
  }

  lemma ChangedRowsChange(db: Db, stamp: string, steps: seq<Step>, t: Table, k: Key)
    requires Separate(steps) && k in db.rows && k.table == t
    ensures k in Apply(db, stamp, steps).rows
    ensures Apply(db, stamp, steps).rows[k] != db.rows[k] <==>
            k in UpdatedRows(db, stamp, steps, t) || k in HiddenRows(db, steps, t)
    ensures !(k in UpdatedRows(db, stamp, steps, t) && k in HiddenRows(db, steps, t))
  {
    hide Apply, Separate, Effect, UpdatedRows, HiddenRows, HidesRow, ChangesRow, Touches;
    var target := RowTarget(k);
    if i :| 0 <= i < |steps| && Touches(steps[i], target) {
      ApplyActsOnce(db, stamp, steps, i, target);
      EffectOnRow(db, stamp, steps[i], k);
      assert At(Effect(db, stamp, steps[i]), target).0 == Some(Effect(db, stamp, steps[i]).rows[k]);
      forall s | s in steps && s != steps[i] ensures !Touches(s, target) {
        var j :| 0 <= j < |steps| && steps[j] == s;
        OneTouches(steps, i, j, target);
      }
      TouchedOnce(db, stamp, steps, t, steps[i], k);
    } else {
      ApplyIsLocal(db, stamp, steps, target);
      assert At(Apply(db, stamp, steps), target) == At(db, target);
      NoneTouches(db, stamp, steps, t, k);
    }
  }

  lemma NoneTouches(db: Db, stamp: string, steps: seq<Step>, t: Table, k: Key)
    requires forall s :: s in steps ==> !Touches(s, RowTarget(k))
    ensures k !in UpdatedRows(db, stamp, steps, t) && k !in HiddenRows(db, steps, t)
  {
    forall s | s in steps && s.Upsert? ensures s.key != k {
      assert Touches(s, RowTarget(s.key));
    }
  }

  lemma OneTouches(steps: seq<Step>, i: nat, j: nat, target: Target)
    requires Separate(steps) && i < |steps| && j < |steps| && steps[i] != steps[j] && Touches(steps[i], target)
    ensures !Touches(steps[j], target)
  {
    hide Touches;
    if i < j { assert Apart(steps[i], steps[j]); } else { assert Apart(steps[j], steps[i]); }
  }

  /** The rows that were there and are another now are those updated and those hidden. */
  lemma ChangedRowsAre(db: Db, stamp: string, steps: seq<Step>, t: Table)
    requires Separate(steps)
    ensures forall k :: k in db.rows ==> k in Apply(db, stamp, steps).rows
    ensures |UpdatedRows(db, stamp, steps, t)| + |HiddenRows(db, steps, t)| ==
            |set k | k in db.rows && k.table == t && Apply(db, stamp, steps).rows[k] != db.rows[k]|
  {
    hide Apply, Separate, UpdatedRows, HiddenRows;
    var after := Apply(db, stamp, steps);
    forall k | k in db.rows ensures k in after.rows {
      ChangedRowsChange(db, stamp, steps, k.table, k);
    }
    var changed := set k | k in db.rows && k.table == t && after.rows[k] != db.rows[k];
    forall k ensures k in changed <==> k in UpdatedRows(db, stamp, steps, t) || k in HiddenRows(db, steps, t)
      ensures !(k in UpdatedRows(db, stamp, steps, t) && k in HiddenRows(db, steps, t))
    {
      WrittenWereThere(db, stamp, steps, t, k);
      if k in db.rows && k.table == t { ChangedRowsChange(db, stamp, steps, t, k); }
    }
    Disjoint(UpdatedRows(db, stamp, steps, t), HiddenRows(db, steps, t), changed);
  }

  /**
   Per table the report says how many rows appeared, and how many of those that were there changed: updated by an
   upsert, or hidden.
   */
  lemma ReportCountsRows(db: Db, stamp: string, steps: seq<Step>, report: Report, t: Table)
    requires Separate(steps) && CountOf(report, Of(t)) == NONE
    ensures forall k :: k in db.rows ==> k in Apply(db, stamp, steps).rows
    ensures var after, count := Apply(db, stamp, steps), CountOf(Tally(report, db, stamp, steps), Of(t));
            count.inserted == |set k | k in after.rows && k.table == t && k !in db.rows| &&
            count.updated + count.hidden == |set k | k in db.rows && k.table == t && after.rows[k] != db.rows[k]| &&
            count.hidden == |HiddenRows(db, steps, t)|
  {
    hide Apply, Separate, Tally, UpdatedRows, HiddenRows, NewRows, AddsAll, CountOf;
    TallyAdds(db, report, db, stamp, steps, t);
    AddsAreSizes(db, stamp, steps, t);
    NewRowsAppear(db, stamp, steps, t);
    ChangedRowsAre(db, stamp, steps, t);
  }

  lemma WrittenWereThere(db: Db, stamp: string, steps: seq<Step>, t: Table, k: Key)
    ensures k in UpdatedRows(db, stamp, steps, t) || k in HiddenRows(db, steps, t) ==> k in db.rows && k.table == t
  {
  }

  lemma RunReports(c: Content, f: Flags, stamp: string, holders: Placeholders, db: Db)
    requires Accepted(c, f, stamp, holders, db) && Acceptable(c)
    ensures f.organisation in db.languages
    ensures Import(c, f, stamp, holders, db).value.1 ==
            Tally(LanguageCount(db, f.organisation), WithLanguage(db, f.organisation), stamp, StepsFor(c, f, db))
  {
    hide StepsFor, LessonsOk, PlanContent, Preflight, Apply, Tally, Separate, Verified;
    PlannedIs(c, f, stamp, holders, db);
  }

  /**
   The report of an accepted run, table by table: inserted, the rows that were not there; updated and hidden together,
   the rows that were there and are another now.
   */
  lemma ReportIsOfTheRun(c: Content, f: Flags, stamp: string, holders: Placeholders, db: Db, t: Table)
    requires Accepted(c, f, stamp, holders, db) && Acceptable(c)
    ensures forall k :: k in db.rows ==> k in Import(c, f, stamp, holders, db).value.0.rows
    ensures var (after, report) := Import(c, f, stamp, holders, db).value;
            var count := CountOf(report, Of(t));
            count.inserted == |set k | k in after.rows && k.table == t && k !in db.rows| &&
            count.updated + count.hidden == |set k | k in db.rows && k.table == t && after.rows[k] != db.rows[k]| &&
            count.hidden == |HiddenRows(db, StepsFor(c, f, db), t)|
  {
    hide StepsFor, LessonsOk, Import, Apply, Tally, Separate, HiddenRows;
    AcceptedRunIs(c, f, stamp, holders, db);
    RunReports(c, f, stamp, holders, db);
    ReportCountsRows(WithLanguage(db, f.organisation), stamp, StepsFor(c, f, db), LanguageCount(db, f.organisation), t);
    SameHidden(db, WithLanguage(db, f.organisation), StepsFor(c, f, db), t);
  }

  lemma SameHidden(a: Db, b: Db, steps: seq<Step>, t: Table)
    requires a.rows == b.rows
    ensures HiddenRows(a, steps, t) == HiddenRows(b, steps, t)
  {
  }

  // ---- the texts ---------------------------------------------------------------------------------

  ghost function NewTexts(db: Db, after: Db): set<TKey> {
    set k | k in after.translations && k !in db.translations
  }

  ghost function ChangedTexts(db: Db, after: Db): set<TKey> {
    set k | k in db.translations && k in after.translations && after.translations[k] != db.translations[k]
  }

  lemma StepCountsTexts(report: Report, db: Db, stamp: string, step: Step)
    ensures var was, now := CountOf(report, Translations), CountOf(Counting(report, db, stamp, step), Translations);
            var next := Effect(db, stamp, step);
            now.inserted == was.inserted + |NewTexts(db, next)| && now.hidden == was.hidden &&
            now.updated == was.updated + |ChangedTexts(db, next)|
  {
    var next := Effect(db, stamp, step);
    if step.Translate? {
      var k := step.tkey;
      assert NewTexts(db, next) == if k in db.translations then {} else {k};
      assert ChangedTexts(db, next) ==
             if k in db.translations && next.translations[k] != db.translations[k] then {k} else {};
    } else {
      assert next.translations == db.translations;
      assert NewTexts(db, next) == {} && ChangedTexts(db, next) == {};
    }
  }

  /** What a first step does to a text no later one touches, and the other way about. */
  lemma FirstOrRest(db: Db, stamp: string, steps: seq<Step>, k: TKey)
    requires Separate(steps) && steps != []
    ensures var next, after := Effect(db, stamp, steps[0]), Apply(db, stamp, steps);
            At(next, TextTarget(k)).1 == At(db, TextTarget(k)).1 ||
            At(after, TextTarget(k)).1 == At(next, TextTarget(k)).1
    ensures k in db.translations ==> k in Effect(db, stamp, steps[0]).translations
  {
    hide At, Separate, Touches;
    var target, rest := TextTarget(k), steps[1..];
    if Touches(steps[0], target) {
      forall step | step in rest ensures !Touches(step, target) {
        var i :| 0 <= i < |rest| && rest[i] == step;
        NotTwice(steps, i + 1, target);
      }
      ApplyIsLocal(Effect(db, stamp, steps[0]), stamp, rest, target);
    } else {
      EffectIsLocal(db, stamp, steps[0], target);
    }
  }

  lemma NotTwice(steps: seq<Step>, i: nat, target: Target)
    requires Separate(steps) && 0 < i < |steps| && Touches(steps[0], target)
    ensures !Touches(steps[i], target)
  {
    hide Touches;
    assert Apart(steps[0], steps[i]);
  }

  lemma {:induction false} TextsStay(db: Db, stamp: string, steps: seq<Step>)
    ensures forall k :: k in db.translations ==> k in Apply(db, stamp, steps).translations
    decreases |steps|
  {
    if steps != [] { TextsStay(Effect(db, stamp, steps[0]), stamp, steps[1..]); }
  }

  lemma FirstThenRest(db: Db, stamp: string, steps: seq<Step>)
    requires Separate(steps) && steps != []
    ensures var next, after := Effect(db, stamp, steps[0]), Apply(db, stamp, steps);
            |NewTexts(db, after)| == |NewTexts(db, next)| + |NewTexts(next, after)| &&
            |ChangedTexts(db, after)| == |ChangedTexts(db, next)| + |ChangedTexts(next, after)|
  {
    hide Effect, Separate;
    var next, after := Effect(db, stamp, steps[0]), Apply(db, stamp, steps);
    TextsStay(next, stamp, steps[1..]);
    hide Apply;
    forall k
      ensures k in db.translations ==> k in next.translations
      ensures At(next, TextTarget(k)).1 == At(db, TextTarget(k)).1 ||
              At(after, TextTarget(k)).1 == At(next, TextTarget(k)).1
    {
      FirstOrRest(db, stamp, steps, k);
    }
    DisjointTexts(NewTexts(db, next), NewTexts(next, after), NewTexts(db, after));
    DisjointTexts(ChangedTexts(db, next), ChangedTexts(next, after), ChangedTexts(db, after));
  }

  lemma DisjointTexts(a: set<TKey>, b: set<TKey>, all: set<TKey>)
    requires a !! b && forall k :: k in all <==> k in a || k in b
    ensures |all| == |a| + |b|
  {
    assert all == a + b;
  }

  lemma {:induction false} TallyCountsTexts(report: Report, db: Db, stamp: string, steps: seq<Step>)
    requires Separate(steps)
    ensures var was, now := CountOf(report, Translations), CountOf(Tally(report, db, stamp, steps), Translations);
            var after := Apply(db, stamp, steps);
            now.inserted == was.inserted + |NewTexts(db, after)| && now.hidden == was.hidden &&
            now.updated == was.updated + |ChangedTexts(db, after)|
    decreases |steps|
  {
    hide Effect, Counting, Separate, CountOf, NewTexts, ChangedTexts;
    if steps == [] {
      NoTexts(db);
    } else {
      StepCountsTexts(report, db, stamp, steps[0]);
      FirstThenRest(db, stamp, steps);
      TailIsSeparate(steps);
      TallyCountsTexts(Counting(report, db, stamp, steps[0]), Effect(db, stamp, steps[0]), stamp, steps[1..]);
    }
  }

  lemma NoTexts(db: Db)
    ensures NewTexts(db, db) == {} && ChangedTexts(db, db) == {}
  {
  }

  lemma {:induction false} LanguagesStay(report: Report, db: Db, stamp: string, steps: seq<Step>)
    ensures Apply(db, stamp, steps).languages == db.languages
    ensures CountOf(Tally(report, db, stamp, steps), Organisations) == CountOf(report, Organisations)
    decreases |steps|
  {
    if steps != [] {
      LanguagesStay(Counting(report, db, stamp, steps[0]), Effect(db, stamp, steps[0]), stamp, steps[1..]);
    }
  }

  /**
   And of the texts: inserted, those that were not there; updated, those that were and are another now. The organisation
   counts as updated when it had no language yet, and has English then; no other organisation's language moves.
   */
  lemma ReportCountsTexts(c: Content, f: Flags, stamp: string, holders: Placeholders, db: Db)
    requires Accepted(c, f, stamp, holders, db) && Acceptable(c)
    ensures f.organisation in db.languages
    ensures var (after, report) := Import(c, f, stamp, holders, db).value;
            var texts, organisations := CountOf(report, Translations), CountOf(report, Organisations);
            texts.inserted == |set k | k in after.translations && k !in db.translations| && texts.hidden == 0 &&
            texts.updated ==
            |set k | k in db.translations && k in after.translations && after.translations[k] != db.translations[k]| &&
            if db.languages[f.organisation].None? then
              organisations == Count(0, 1, 0, 0) && after.languages == db.languages[f.organisation := Some("en")]
            else organisations == Count(0, 0, 1, 0) && after.languages == db.languages
  {
    hide StepsFor, LessonsOk, Import, Apply, Tally, Separate;
    AcceptedRunIs(c, f, stamp, holders, db);
    RunReports(c, f, stamp, holders, db);
    var start, report, steps := WithLanguage(db, f.organisation), LanguageCount(db, f.organisation), StepsFor(c, f, db);
    TallyCountsTexts(report, start, stamp, steps);
    LanguagesStay(report, start, stamp, steps);
    var after := Import(c, f, stamp, holders, db).value.0;
    assert NewTexts(start, after) == set k | k in after.translations && k !in db.translations;
    assert ChangedTexts(start, after) ==
           set k | k in db.translations && k in after.translations && after.translations[k] != db.translations[k];
  }
}
