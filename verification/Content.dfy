/**
 The tables of an organisation's content, how their rows hang together, and `confine`: the pass that leaves out
 what hangs from nothing, refuses what names a row that is not there, and trims the id lists.
 */
module Content {
  import opened Values

  datatype Table =
    | Countries | Schools | Standards | Subjects | Curriculums | Questions | Documents
    | CurriculumBaselines | BaselineQuestion | Grades | Levels | Lessons
    | LessonLearnings | LessonLearningDocuments | LessonPlans | LessonPractices | LessonQuizzes
    | LessonPracticeQuestions | LessonQuizQuestions | LevelQuizQuestions | ContentTranslations

  /** Every table, parents before the rows that hang from them. */
  const CONTENT_TABLE_KEYS: seq<Table> := [
    Countries, Schools, Standards, Subjects, Curriculums, Questions, Documents,
    CurriculumBaselines, BaselineQuestion, Grades, Levels, Lessons,
    LessonLearnings, LessonLearningDocuments, LessonPlans, LessonPractices, LessonQuizzes,
    LessonPracticeQuestions, LessonQuizQuestions, LevelQuizQuestions, ContentTranslations]

  /** The tables of one curriculum's payload; the other four are the organisation's own and stay live. */
  predicate InCurriculum(t: Table) {
    !t.Countries? && !t.Schools? && !t.Standards? && !t.Subjects?
  }

  /** The curriculum tables that have rows of their own right: all but the translations. */
  predicate Substantive(t: Table) {
    InCurriculum(t) && t != ContentTranslations
  }

  /** The question and document banks, which hang from nothing and are drawn on. */
  predicate IsBank(t: Table) {
    t == Questions || t == Documents
  }

  datatype Reference = Reference(fk: string, to: Table, optional: bool)

  function Pk(t: Table): string {
    match t
    case Countries => "countryid"
    case Schools => "schoolid"
    case Standards => "standardid"
    case Subjects => "subjectid"
    case Curriculums => "curriculumid"
    case Questions => "questionid"
    case Documents => "documentid"
    case CurriculumBaselines => "curriculumbaselineid"
    case BaselineQuestion => "baselinequestionid"
    case Grades => "gradeid"
    case Levels => "levelid"
    case Lessons => "lessonid"
    case LessonLearnings => "lessonlearningid"
    case LessonLearningDocuments => "lessonlearningdocumentid"
    case LessonPlans => "lessonplanid"
    case LessonPractices => "lessonpracticeid"
    case LessonQuizzes => "lessonquizid"
    case LessonPracticeQuestions => "lessonpracticequestionid"
    case LessonQuizQuestions => "lessonquizquestionid"
    case LevelQuizQuestions => "levelquizquestionid"
    case ContentTranslations => "translationid"
  }

  function ParentOf(t: Table): Option<Reference> {
    match t
    case Standards => Some(Reference("schoolid", Schools, false))
    case CurriculumBaselines => Some(Reference("curriculumid", Curriculums, false))
    case BaselineQuestion => Some(Reference("curriculumbaselineid", CurriculumBaselines, false))
    case Grades => Some(Reference("curriculumid", Curriculums, false))
    case Levels => Some(Reference("gradeid", Grades, false))
    case Lessons => Some(Reference("levelid", Levels, false))
    case LessonLearnings => Some(Reference("lessonid", Lessons, false))
    case LessonLearningDocuments => Some(Reference("lessonlearningid", LessonLearnings, false))
    case LessonPlans => Some(Reference("lessonid", Lessons, false))
    case LessonPractices => Some(Reference("lessonid", Lessons, false))
    case LessonQuizzes => Some(Reference("lessonid", Lessons, false))
    case LessonPracticeQuestions => Some(Reference("lessonpracticeid", LessonPractices, false))
    case LessonQuizQuestions => Some(Reference("lessonquizid", LessonQuizzes, false))
    case LevelQuizQuestions => Some(Reference("levelid", Levels, false))
    case _ => None
  }

  function Refs(t: Table): seq<Reference> {
    match t
    case Schools => [Reference("countryid", Countries, true)]
    case Curriculums => [Reference("subjectid", Subjects, true)]
    case BaselineQuestion => [Reference("questionid", Questions, false)]
    case LessonLearnings => [Reference("documentid", Documents, true)]
    case LessonLearningDocuments => [Reference("documentid", Documents, false)]
    case LessonPlans => [Reference("documentid", Documents, true)]
    case LessonPracticeQuestions => [Reference("questionid", Questions, false)]
    case LessonQuizQuestions => [Reference("questionid", Questions, false)]
    case LevelQuizQuestions => [Reference("questionid", Questions, false), Reference("lessonid", Lessons, true)]
    case _ => []
  }

  /** The list column a table has, and the table its entries name. */
  function IdList(t: Table): Option<Reference> {
    match t
    case Schools => Some(Reference("curriculums", Curriculums, true))
    case CurriculumBaselines => Some(Reference("schoolid", Schools, true))
    case _ => None
  }

  /** How far a table hangs below a table with no parent. */
  function Depth(t: Table): nat {
    match t
    case Standards | CurriculumBaselines | Grades => 1
    case BaselineQuestion | Levels => 2
    case Lessons | LevelQuizQuestions => 3
    case LessonLearnings | LessonPlans | LessonPractices | LessonQuizzes => 4
    case LessonLearningDocuments | LessonPracticeQuestions | LessonQuizQuestions => 5
    case _ => 0
  }

  /** The table a translation's `tablename` names. */
  function TableNamed(name: string): Option<Table> {
    if name == "curriculums" then Some(Curriculums)
    else if name == "grades" then Some(Grades)
    else if name == "levels" then Some(Levels)
    else if name == "lessons" then Some(Lessons)
    else if name == "lessonlearnings" then Some(LessonLearnings)
    else if name == "lessonpractices" then Some(LessonPractices)
    else if name == "lessonquizzes" then Some(LessonQuizzes)
    else if name == "lessonplans" then Some(LessonPlans)
    else if name == "questions" then Some(Questions)
    else if name == "documents" then Some(Documents)
    else if name == "curriculumbaselines" then Some(CurriculumBaselines)
    else if name == "baselinequestion" then Some(BaselineQuestion)
    else if name == "lessonlearningdocuments" then Some(LessonLearningDocuments)
    else if name == "lessonpracticequestions" then Some(LessonPracticeQuestions)
    else if name == "lessonquizquestions" then Some(LessonQuizQuestions)
    else if name == "levelquizquestions" then Some(LevelQuizQuestions)
    else None
  }

  /** The nine tables whose rows may be translated. */
  predicate Translatable(t: Table) {
    t.Curriculums? || t.Grades? || t.Levels? || t.Lessons? || t.LessonLearnings? ||
    t.LessonPractices? || t.LessonQuizzes? || t.LessonPlans? || t.Questions?
  }

  /** The table a translation hangs from, when it names one. */
  function PolyTable(row: Row): (r: Option<Table>)
    ensures r.Some? ==> Substantive(r.value)
  {
    var name := Get(row, "tablename");
    if name.Str? then TableNamed(name.s) else None
  }

  function PolyKey(row: Row): Option<string> {
    KeyOf(Get(row, "rowid"))
  }

  /** The given tables; a table that is not a key was not given, and nothing is checked against it. */
  type Tables = map<Table, seq<Row>>

  function KeyIn(row: Row, t: Table): Option<string> {
    KeyOf(Get(row, Pk(t)))
  }

  /** The keys of the rows of `t`. */
  function Ids(rows: seq<Row>, t: Table): set<string> {
    set r | r in rows && KeyIn(r, t).Some? :: KeyIn(r, t).value
  }

  predicate Names(row: Row, fk: string, ids: set<string>) {
    KeyOf(Get(row, fk)).Some? && KeyOf(Get(row, fk)).value in ids
  }

  /** The rows whose `fk` names one of `ids`, in their order. */
  function Under(rows: seq<Row>, fk: string, ids: set<string>): seq<Row> {
    if rows == [] then []
    else (if Names(rows[0], fk, ids) then [rows[0]] else []) + Under(rows[1..], fk, ids)
  }

  lemma {:induction false} UnderHolds(rows: seq<Row>, fk: string, ids: set<string>)
    ensures forall r :: multiset(Under(rows, fk, ids))[r] == if Names(r, fk, ids) then multiset(rows)[r] else 0
    ensures forall r :: r in Under(rows, fk, ids) <==> r in rows && Names(r, fk, ids)
    ensures |Under(rows, fk, ids)| <= |rows|
    ensures |Under(rows, fk, ids)| == |rows| <==> forall r :: r in rows ==> Names(r, fk, ids)
    ensures |Under(rows, fk, ids)| == |rows| ==> Under(rows, fk, ids) == rows
  {
    hide Names;
    if rows != [] {
      UnderHolds(rows[1..], fk, ids);
      assert rows == [rows[0]] + rows[1..];
    }
  }

  lemma ParentIsAbove(t: Table)
    requires ParentOf(t).Some?
    ensures Depth(ParentOf(t).value.to) < Depth(t)
    ensures InCurriculum(t) ==> Substantive(t) && Substantive(ParentOf(t).value.to)
    ensures !IsBank(t)
  {
  }

  // ---- the parent pass -------------------------------------------------------------------------

  /** The rows of `t` that hang, step by step, from rows that are there. */
  function Kept(given: Tables, t: Table): seq<Row>
    requires t in given
    decreases Depth(t)
  {
    match ParentOf(t)
    case None => given[t]
    case Some(p) =>
      ParentIsAbove(t);
      if p.to in given then Under(given[t], p.fk, Ids(Kept(given, p.to), p.to)) else given[t]
  }

  lemma KeptUnfolds(given: Tables, t: Table)
    requires t in given
    ensures Kept(given, t) == if ParentOf(t).Some? && ParentOf(t).value.to in given
            then Under(given[t], ParentOf(t).value.fk,
                       Ids(Kept(given, ParentOf(t).value.to), ParentOf(t).value.to)) else given[t]
  {
    hide Under, Ids;
  }

  function Anchored(given: Tables): Tables {
    map t | t in given :: Kept(given, t)
  }

  /** A translation stays when its table is translatable and, if that table was given, its row is there. */
  predicate PolyOk(tables: Tables, row: Row) {
    PolyTable(row).Some? && Translatable(PolyTable(row).value) &&
    var t := PolyTable(row).value;
    t in tables ==> PolyKey(row).Some? && PolyKey(row).value in Ids(tables[t], t)
  }

  function PolyKept(tables: Tables, rows: seq<Row>): seq<Row> {
    if rows == [] then []
    else (if PolyOk(tables, rows[0]) then [rows[0]] else []) + PolyKept(tables, rows[1..])
  }

  function Dropped(given: Tables): Tables {
    var anchored := Anchored(given);
    if ContentTranslations in anchored
    then anchored[ContentTranslations := PolyKept(anchored, anchored[ContentTranslations])]
    else anchored
  }

  lemma {:induction false} PolyKeptHolds(tables: Tables, rows: seq<Row>)
    ensures forall r :: multiset(PolyKept(tables, rows))[r] == if PolyOk(tables, r) then multiset(rows)[r] else 0
    ensures forall r :: r in PolyKept(tables, rows) <==> r in rows && PolyOk(tables, r)
    ensures |PolyKept(tables, rows)| <= |rows|
    ensures |PolyKept(tables, rows)| == |rows| <==> forall r :: r in rows ==> PolyOk(tables, r)
    ensures |PolyKept(tables, rows)| == |rows| ==> PolyKept(tables, rows) == rows
  {
    hide PolyOk;
    if rows != [] {
      PolyKeptHolds(tables, rows[1..]);
      assert rows == [rows[0]] + rows[1..];
    }
  }

  // ---- the references ---------------------------------------------------------------------------

  datatype Problem = Problem(table: Table, missing: nat, to: Table)

  predicate RefOk(row: Row, ref: Reference, targets: set<string>) {
    match KeyOf(Get(row, ref.fk))
    case None => ref.optional
    case Some(id) => id in targets
  }

  /** How many of the rows name nothing that is there. */
  function Missing(rows: seq<Row>, ref: Reference, targets: set<string>): nat {
    if rows == [] then 0
    else (if RefOk(rows[0], ref, targets) then 0 else 1) + Missing(rows[1..], ref, targets)
  }

  lemma {:induction false} MissingIsZero(rows: seq<Row>, ref: Reference, targets: set<string>)
    ensures Missing(rows, ref, targets) == 0 <==> forall r :: r in rows ==> RefOk(r, ref, targets)
  {
    if rows != [] {
      MissingIsZero(rows[1..], ref, targets);
      assert rows == [rows[0]] + rows[1..];
    }
  }

  function ProblemOf(tables: Tables, t: Table, ref: Reference): seq<Problem>
    requires t in tables
  {
    if ref.to in tables && Missing(tables[t], ref, Ids(tables[ref.to], ref.to)) > 0
    then [Problem(t, Missing(tables[t], ref, Ids(tables[ref.to], ref.to)), ref.to)]
    else []
  }

  function ProblemsOf(tables: Tables, t: Table, refs: seq<Reference>): seq<Problem>
    requires t in tables
  {
    if refs == [] then [] else ProblemOf(tables, t, refs[0]) + ProblemsOf(tables, t, refs[1..])
  }

  function Problems(tables: Tables, keys: seq<Table>): seq<Problem> {
    if keys == [] then []
    else (if keys[0] in tables then ProblemsOf(tables, keys[0], Refs(keys[0])) else []) + Problems(tables, keys[1..])
  }

  // ---- the id lists -----------------------------------------------------------------------------

  /** The entries of a list column: a list as it is, a text as `readList` parses it, anything else none. */
  function Entries(value: Json, readList: string -> Option<seq<Json>>): seq<Json> {
    match value
    case List(items) => items
    case Str(s) => if readList(s).Some? then readList(s).value else []
    case _ => []
  }

  function Listed(entries: seq<Json>, ids: set<string>): seq<Json> {
    if entries == [] then []
    else (if KeyOf(entries[0]).Some? && KeyOf(entries[0]).value in ids then [entries[0]] else []) +
         Listed(entries[1..], ids)
  }

  function TrimRow(row: Row, column: string, ids: set<string>, readList: string -> Option<seq<Json>>): Row {
    if Get(row, column) == Null then row
    else Put(row, column, List(Listed(Entries(Get(row, column), readList), ids)))
  }

  function TrimRows(rows: seq<Row>, column: string, ids: set<string>,
                    readList: string -> Option<seq<Json>>): (r: seq<Row>)
    ensures |r| == |rows|
    ensures forall i :: 0 <= i < |rows| ==> r[i] == TrimRow(rows[i], column, ids, readList)
  {
    seq(|rows|, i requires 0 <= i < |rows| => TrimRow(rows[i], column, ids, readList))
  }

  function Trimmed(tables: Tables, readList: string -> Option<seq<Json>>): Tables {
    map t | t in tables ::
      if IdList(t).Some? && IdList(t).value.to in tables
      then var l := IdList(t).value; TrimRows(tables[t], l.fk, Ids(tables[l.to], l.to), readList)
      else tables[t]
  }

  // ---- confine ----------------------------------------------------------------------------------

  function Confined(given: Tables, readList: string -> Option<seq<Json>>): Result<Tables, seq<Problem>> {
    var problems := Problems(Dropped(given), CONTENT_TABLE_KEYS);
    if problems != [] then Err(problems) else Ok(Trimmed(Dropped(given), readList))
  }

  function PlaceOf(t: Table): (i: nat)
    ensures i < |CONTENT_TABLE_KEYS| && CONTENT_TABLE_KEYS[i] == t
  {
    match t
    case Countries => 0 case Schools => 1 case Standards => 2 case Subjects => 3 case Curriculums => 4
    case Questions => 5 case Documents => 6 case CurriculumBaselines => 7 case BaselineQuestion => 8
    case Grades => 9 case Levels => 10 case Lessons => 11 case LessonLearnings => 12
    case LessonLearningDocuments => 13 case LessonPlans => 14 case LessonPractices => 15
    case LessonQuizzes => 16 case LessonPracticeQuestions => 17 case LessonQuizQuestions => 18
    case LevelQuizQuestions => 19 case ContentTranslations => 20
  }

  /** The key list holds every table once, and a table's parent comes before it: why one pass is enough. */
  lemma KeysAreInParentOrder(i: nat)
    requires i < |CONTENT_TABLE_KEYS|
    ensures PlaceOf(CONTENT_TABLE_KEYS[i]) == i
    ensures ParentOf(CONTENT_TABLE_KEYS[i]).Some? ==> PlaceOf(ParentOf(CONTENT_TABLE_KEYS[i]).value.to) < i
  {
    assert PlaceOf(CONTENT_TABLE_KEYS[i]) == i;
  }

  /** The parents' pass: each table keeps the rows under what its parent kept. */
  method ConfineParents(given: Tables) returns (tables: Tables)
    ensures tables.Keys == given.Keys && forall t :: t in given ==> tables[t] == Kept(given, t)
  {
    hide Under, Ids, Kept;
    tables := given;
    for i := 0 to |CONTENT_TABLE_KEYS|
      invariant tables.Keys == given.Keys
      invariant forall t :: t in given ==> tables[t] == if PlaceOf(t) < i then Kept(given, t) else given[t]
    {
      var key := CONTENT_TABLE_KEYS[i];
      KeysAreInParentOrder(i);
      if key in given { KeptUnfolds(given, key); }
      if key in tables && ParentOf(key).Some? && ParentOf(key).value.to in tables {
        var parent := ParentOf(key).value;
        tables := tables[key := Under(tables[key], parent.fk, Ids(tables[parent.to], parent.to))];
      }
      assert forall t :: PlaceOf(t) == i ==> t == key;
    }
  }

  /** `confine` as the export runs it: one pass for the parents, one for the translations, the references, the lists. */
  method Confine(given: Tables, readList: string -> Option<seq<Json>>) returns (r: Result<Tables, seq<Problem>>)
    ensures r == Confined(given, readList)
  {
    hide Kept, Problems, Trimmed;
    var tables := ConfineParents(given);
    assert tables == Anchored(given);
    if ContentTranslations in tables {
      tables := tables[ContentTranslations := PolyKept(tables, tables[ContentTranslations])];
    }
    var problems := FindProblems(tables, CONTENT_TABLE_KEYS);
    if problems != [] {
      return Err(problems);
    }
    var trimmed := TrimIdLists(tables, readList);
    return Ok(trimmed);
  }

  method FindProblems(tables: Tables, keys: seq<Table>) returns (problems: seq<Problem>)
    ensures problems == Problems(tables, keys)
  {
    hide ProblemsOf;
    problems := [];
    for i := 0 to |keys|
      invariant problems + Problems(tables, keys[i..]) == Problems(tables, keys)
    {
      assert keys[i..][1..] == keys[i + 1..];
      if keys[i] in tables {
        var found := FindProblemsOf(tables, keys[i], Refs(keys[i]));
        problems := problems + found;
      }
    }
  }

  method FindProblemsOf(tables: Tables, t: Table, refs: seq<Reference>) returns (problems: seq<Problem>)
    requires t in tables
    ensures problems == ProblemsOf(tables, t, refs)
  {
    hide ProblemOf;
    problems := [];
    for j := 0 to |refs|
      invariant problems + ProblemsOf(tables, t, refs[j..]) == ProblemsOf(tables, t, refs)
    {
      assert refs[j..][1..] == refs[j + 1..];
      problems := problems + ProblemOf(tables, t, refs[j]);
    }
  }

  /** One table's list column against the ids kept, whether the table it lists has been trimmed before or not. */
  method TrimTable(given: Tables, tables: Tables, key: Table, readList: string -> Option<seq<Json>>)
      returns (rows: seq<Row>)
    requires tables.Keys == given.Keys && key in given && tables[key] == given[key]
    requires forall t :: t in given ==>
             tables[t] == given[t] || (t in Trimmed(given, readList) && tables[t] == Trimmed(given, readList)[t])
    ensures key in Trimmed(given, readList) && rows == Trimmed(given, readList)[key]
  {
    hide Trimmed, Ids, TrimRow, TrimRows;
    rows := tables[key];
    TrimmedUnfolds(given, readList, key);
    if IdList(key).Some? && IdList(key).value.to in tables {
      var list := IdList(key).value;
      TrimmingKeepsIds(given, readList, list.to);
      rows := TrimRows(tables[key], list.fk, Ids(tables[list.to], list.to), readList);
    }
  }

  method TrimIdLists(given: Tables, readList: string -> Option<seq<Json>>) returns (tables: Tables)
    ensures tables == Trimmed(given, readList)
  {
    hide Trimmed, IdList, ParentOf, PlaceOf;
    TrimmedTables(given, readList);
    tables := given;
    for i := 0 to |CONTENT_TABLE_KEYS|
      invariant tables.Keys == given.Keys
      invariant forall t :: t in given ==> tables[t] == if PlaceOf(t) < i then Trimmed(given, readList)[t] else given[t]
    {
      var key := CONTENT_TABLE_KEYS[i];
      KeysAreInParentOrder(i);
      if key in tables {
        var rows := TrimTable(given, tables, key, readList);
        tables := tables[key := rows];
      }
      assert forall t :: PlaceOf(t) == i ==> t == key;
    }
  }

  lemma TrimmedTables(given: Tables, readList: string -> Option<seq<Json>>)
    ensures Trimmed(given, readList).Keys == given.Keys
  {
  }

  lemma TrimmedUnfolds(given: Tables, readList: string -> Option<seq<Json>>, t: Table)
    requires t in given
    ensures t in Trimmed(given, readList)
    ensures Trimmed(given, readList)[t] == if IdList(t).Some? && IdList(t).value.to in given
            then TrimRows(given[t], IdList(t).value.fk, Ids(given[IdList(t).value.to], IdList(t).value.to),
                          readList) else given[t]
  {
    hide TrimRows, Ids;
  }

  /** A list column is never a key: trimming changes no row's key, parent or reference. */
  lemma TrimRowKeepsColumns(t: Table, row: Row, ids: set<string>, readList: string -> Option<seq<Json>>, column: string)
    requires IdList(t).Some? && column != IdList(t).value.fk
    ensures Get(TrimRow(row, IdList(t).value.fk, ids, readList), column) == Get(row, column)
  {
    var l := IdList(t).value.fk;
    GetAfterPut(row, l, List(Listed(Entries(Get(row, l), readList), ids)), column);
  }

  lemma ListColumnIsNoKey(t: Table)
    requires IdList(t).Some?
    ensures Pk(t) != IdList(t).value.fk
    ensures ParentOf(t).Some? ==> ParentOf(t).value.fk != IdList(t).value.fk
    ensures forall ref :: ref in Refs(t) ==> ref.fk != IdList(t).value.fk
  {
    if t == Schools {
      assert "schoolid"[0] != "curriculums"[0] && |"countryid"| != |"curriculums"|;
    } else {
      assert |"curriculumbaselineid"| != |"schoolid"| && "curriculumid"[0] != "schoolid"[0];
    }
  }

  lemma TrimmingKeepsIds(tables: Tables, readList: string -> Option<seq<Json>>, t: Table)
    requires t in tables
    ensures |Trimmed(tables, readList)[t]| == |tables[t]|
    ensures forall i :: 0 <= i < |tables[t]| ==> KeyIn(Trimmed(tables, readList)[t][i], t) == KeyIn(tables[t][i], t)
    ensures Ids(Trimmed(tables, readList)[t], t) == Ids(tables[t], t)
  {
    var trimmed := Trimmed(tables, readList)[t];
    forall i | 0 <= i < |tables[t]| ensures KeyIn(trimmed[i], t) == KeyIn(tables[t][i], t) {
      if IdList(t).Some? && IdList(t).value.to in tables {
        var l := IdList(t).value;
        ListColumnIsNoKey(t);
        TrimRowKeepsColumns(t, tables[t][i], Ids(tables[l.to], l.to), readList, Pk(t));
      }
    }
    assert forall r :: r in trimmed ==> exists i :: 0 <= i < |tables[t]| && trimmed[i] == r;
    forall k | k in Ids(tables[t], t) ensures k in Ids(trimmed, t) {
      var i :| 0 <= i < |tables[t]| && KeyIn(tables[t][i], t) == Some(k);
      assert trimmed[i] in trimmed;
    }
  }
}
