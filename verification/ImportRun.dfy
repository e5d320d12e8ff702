/** One run of the import: read, plan or refuse, check the rows it hangs from, write. */
module ImportRun {
  import opened Values
  import opened Sums
  import opened ImportSlots
  import opened ImportContent
  import opened ImportSteps
  import opened ImportPlan
  import opened ImportRows

  predicate RenamesSome(db: Db, c: Content)
    requires c.number >= 0
  {
    exists l :: l in c.lessons && RenamesLesson(db, c.number, l)
  }

  ghost predicate ChangesSome(db: Db, holders: Placeholders, m: nat, placed: seq<Placed>)
    requires ArePlaced(m, placed)
  {
    exists i :: 0 <= i < |placed| && ChangesLesson(db, holders, m, placed[i])
  }

  /** The rows that must be there: the programme's, for a later module, and the documents of the videos kept. */
  function KeptVideos(m: nat, placed: seq<Placed>): seq<Requirement>
    requires ArePlaced(m, placed)
  {
    if placed == [] then []
    else (if placed[0].lesson.video.Keep? then [Requirement(Key(Documents, SlotId(m, placed[0].slot, DocPart)), true)]
          else []) + KeptVideos(m, placed[1..])
  }

  function Needed(m: nat, placed: seq<Placed>): seq<Requirement>
    requires ArePlaced(m, placed)
  {
    (if m != 1 then [Requirement(Key(Curriculums, CURRICULUM), false), Requirement(Key(Grades, GRADE), false)]
     else []) + KeptVideos(m, placed)
  }

  /** The rows that must be the organisation's, or nobody's. */
  function OwnedBySlots(m: nat, placed: seq<Placed>): seq<Key>
    requires ArePlaced(m, placed)
  {
    if placed == [] then []
    else
      var p := placed[0];
      [Key(Documents, SlotId(m, p.slot, DocPart))] +
      seq(|QuestionsOf(p)|, i requires 0 <= i < |QuestionsOf(p)| => Key(Questions, QuestionsOf(p)[i])) +
      OwnedBySlots(m, placed[1..])
  }

  function Owned(m: nat, placed: seq<Placed>): seq<Key>
    requires ArePlaced(m, placed)
  {
    [Key(Curriculums, CURRICULUM)] + OwnedBySlots(m, placed)
  }

  /** `planContent`, with what `readExisting` reads taken from the database it is given. */
  ghost function PlanContent(c: Content, f: Flags, stamp: string, holders: Placeholders, db: Db): Result<Plan,
      Refusal> {
    if !Acceptable(c) then Err(BadContent)
    else
      AcceptableIsWellPlaced(c);
      var m, placed := c.number, PlacedOf(c);
      if !IsText(f.organisation) || BadSwitch(db, m, f.live) || (!f.rename && RenamesSome(db, c)) then Err(BadFlags)
      else if ChangesSome(db, holders, m, placed) then Err(ChangesMeaning)
      else
        var status, levelPoints := LevelStatus(db, m, f.live), LevelPoints(db, m, placed);
        var steps := PlanSteps(c, f, placed, status, levelPoints, GradePoints(db, m, status, levelPoints));
        Ok(Plan(f.organisation, stamp, steps, Needed(m, placed), Owned(m, placed)))
  }

  predicate Missing(db: Db, r: Requirement) {
    r.key !in db.rows || (r.kept && NumberIn(Cell(db.rows[r.key], DeletedCol)) != 0)
  }

  predicate IsForeign(db: Db, organisation: string, k: Key) {
    k in db.rows && Cell(db.rows[k], OrganisationCol) != Val.Null &&
    Cell(db.rows[k], OrganisationCol) != Text(organisation)
  }

  function Preflight(db: Db, plan: Plan): Option<Refusal> {
    if LanguageRefusal(db, plan.organisation).Some? then LanguageRefusal(db, plan.organisation)
    else if exists r :: r in plan.needed && Missing(db, r) then Some(MissingRow)
    else if exists k :: k in plan.owned && IsForeign(db, plan.organisation, k) then Some(OtherOwner)
    else None
  }

  /** A whole run. A refusal writes nothing. */
  ghost function Import(c: Content, f: Flags, stamp: string, holders: Placeholders, db: Db): Result<(Db, Report),
      Refusal> {
    match PlanContent(c, f, stamp, holders, db)
    case Err(e) => Err(e)
    case Ok(plan) => if Preflight(db, plan).Some? then Err(Preflight(db, plan).value) else ApplyPlan(db, plan)
  }

  // ---- the run, step by step ---------------------------------------------------------------------

  /** The points of the grade's other live levels, row by row. */
  method AddSiblings(db: Db, m: nat) returns (sum: int)
    ensures sum == SumOf(SiblingPoints(db, m))
  {
    hide IsLevelOfGrade, LevelId, IsOn, Cell;
    var keys := db.rows.Keys;
    sum := 0;
    ghost var all := SiblingPoints(db, m);
    ghost var left := all;
    while keys != {}
      invariant keys <= db.rows.Keys && left == (map k | k in all && k in keys :: all[k])
      invariant sum + SumOf(left) == SumOf(all)
      decreases keys
    {
      var k :| k in keys;
      keys := keys - {k};
      if IsLevelOfGrade(db, k) && k.id != LevelId(m) && IsOn(db.rows[k]) {
        TakeOut(left, k);
        sum := sum + NumberIn(Cell(db.rows[k], PointsCol));
      }
      ghost var rest := map j | j in all && j in keys :: all[j];
      assert rest == if k in left then left - {k} else left;
      left := rest;
    }
    assert left == map[];
  }

  method BuildRows(c: Content, f: Flags, placed: seq<Placed>, status: int, levelPoints: int, gradePoints: int)
      returns (steps: seq<Step>)
    requires c.number >= 0 && ArePlaced(c.number, placed)
    ensures steps == RowSteps(c, f, placed, status, levelPoints, gradePoints)
  {
    hide ForEach, ProgrammeSteps, ArePlaced;
    steps := ProgrammeSteps(c, f, status, levelPoints, gradePoints);
    steps := PushRound(steps, LessonRows, c.number, f, placed);
    steps := PushRound(steps, QuestionRows, c.number, f, placed);
    steps := PushRound(steps, JoinRows, c.number, f, placed);
  }

  method BuildTexts(c: Content, f: Flags, placed: seq<Placed>) returns (steps: seq<Step>)
    requires c.number >= 0 && ArePlaced(c.number, placed)
    ensures steps == TextSteps(c, f, placed)
  {
    hide ForEach, ProgrammeTexts, ArePlaced;
    steps := ProgrammeTexts(c, f);
    steps := PushRound(steps, LessonTexts, c.number, f, placed);
    steps := PushRound(steps, QuestionTexts, c.number, f, placed);
  }

  /** The steps, pushed group by group and lesson by lesson. */
  method BuildSteps(c: Content, f: Flags, placed: seq<Placed>, status: int, levelPoints: int, gradePoints: int)
      returns (steps: seq<Step>)
    requires c.number >= 0 && ArePlaced(c.number, placed)
    ensures steps == PlanSteps(c, f, placed, status, levelPoints, gradePoints)
  {
    hide RowSteps, TextSteps, HideSteps, ArePlaced;
    steps := BuildRows(c, f, placed, status, levelPoints, gradePoints);
    var texts := BuildTexts(c, f, placed);
    steps := steps + texts + HideSteps(c.number, placed);
  }

  method PushRound(before: seq<Step>, round: Round, m: nat, f: Flags, placed: seq<Placed>) returns (steps: seq<Step>)
    requires ArePlaced(m, placed)
    ensures steps == before + ForEach(round, m, f, placed)
  {
    hide RoundSteps, IsPlaced;
    steps := before;
    for i := 0 to |placed|
      invariant steps + ForEach(round, m, f, placed[i..]) == before + ForEach(round, m, f, placed)
    {
      assert placed[i..][1..] == placed[i + 1..];
      steps := steps + RoundSteps(round, m, f, placed[i]);
    }
  }

  class Importer {
    const connection: Connection

    constructor (given: Connection)
      ensures connection == given
    {
      connection := given;
    }

    /** Read, plan, check and write: the database is as the run leaves it, and a refusal leaves it alone. */
    method Run(c: Content, f: Flags, stamp: string, holders: Placeholders) returns (r: Result<Report, Refusal>)
      modifies connection
      ensures match Import(c, f, stamp, holders, old(connection.db))
              case Ok(done) => connection.db == done.0 && r == Ok(done.1)
              case Err(e) => connection.db == old(connection.db) && r == Err(e)
    {
      hide PlanSteps, PlacedOf, Place, ByOrder, IsPlaced, WellPlaced, ChangesLesson, RenamesLesson, Needed, Owned,
           LevelPoints, SiblingPoints, ApplyPlan;
      var problems := Validate(c);
      if problems > 0 { return Err(BadContent); }
      AcceptableIsWellPlaced(c);
      var db, m, placed := connection.db, c.number, PlacedOf(c);
      if !IsText(f.organisation) || BadSwitch(db, m, f.live) || (!f.rename && RenamesSome(db, c)) {
        return Err(BadFlags);
      }
      for i := 0 to |placed|
        invariant forall k :: 0 <= k < i ==> !ChangesLesson(db, holders, m, placed[k])
      {
        if ChangesLesson(db, holders, m, placed[i]) { return Err(ChangesMeaning); }
      }
      var status, levelPoints := LevelStatus(db, m, f.live), LevelPoints(db, m, placed);
      var gradePoints := AddSiblings(db, m);
      if status != 0 { gradePoints := gradePoints + levelPoints; }
      var steps := BuildSteps(c, f, placed, status, levelPoints, gradePoints);
      var plan := Plan(f.organisation, stamp, steps, Needed(m, placed), Owned(m, placed));
      assert PlanContent(c, f, stamp, holders, db) == Ok(plan);
      var refusal := Preflight(db, plan);
      if refusal.Some? { return Err(refusal.value); }
      r := connection.RunPlan(plan);
    }
  }
}
