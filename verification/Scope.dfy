/**
 Whose a piece of content is, asked upwards for one row (the owner walk) and downwards for a list (the ids an
 organisation owns). Six kinds carry their owner; every other kind hangs under a parent.
 */
module Scope {
  import opened Values

  datatype Kind =
    | Curriculum | Question | Document | QuestionTag | DocumentTag | Subject
    | Grade | Level | Lesson | Learning | LearningDocument | Plan | Practice | Quiz
    | PracticeQuestion | QuizQuestion | LevelQuizQuestion | Baseline | BaselineQuestion | Feedback

  /**
   A row: its id as it is stored; its owner for a kind that carries one, else the id of its parent; an attach row names
   a question too.
   */
  datatype Row = Row(id: string, link: Option<string>, question: Option<string>)

  /**
   The tables, and the collation: SQL takes two texts for the same when they have the same `form`, as it does texts that
   differ in case. A row is kept under the form of its id, so no two ids of a table are the same to SQL.
   */
  datatype Db = Db(tables: map<Kind, map<string, Row>>, form: string -> string)

  predicate Complete(db: Db) {
    forall kind: Kind :: kind in db.tables &&
        forall key :: key in db.tables[kind] ==> db.form(db.tables[kind][key].id) == key
  }

  /** The row that SQL finds by an id, however the id is written. */
  function Found(db: Db, kind: Kind, id: string): (row: Option<Row>)
    requires Complete(db)
    ensures row.Some? ==> db.form(row.value.id) == db.form(id)
  {
    if db.form(id) in db.tables[kind] then Some(db.tables[kind][db.form(id)]) else None
  }

  function Forms(db: Db, names: set<string>): set<string> {
    set name | name in names :: db.form(name)
  }

  /** `KINDS`: the parent of a kind that has no owner column. */
  function ParentOf(kind: Kind): Option<Kind> {
    match kind
    case Grade => Some(Curriculum)
    case Level => Some(Grade)
    case Lesson => Some(Level)
    case Learning => Some(Lesson)
    case LearningDocument => Some(Learning)
    case Plan => Some(Lesson)
    case Practice => Some(Lesson)
    case Quiz => Some(Lesson)
    case PracticeQuestion => Some(Practice)
    case QuizQuestion => Some(Quiz)
    case LevelQuizQuestion => Some(Level)
    case Baseline => Some(Curriculum)
    case BaselineQuestion => Some(Baseline)
    case Feedback => Some(Curriculum)
    case _ => None
  }

  function Depth(kind: Kind): nat {
    match kind
    case Grade => 1
    case Baseline => 1
    case Feedback => 1
    case Level => 2
    case BaselineQuestion => 2
    case Lesson => 3
    case LevelQuizQuestion => 3
    case Learning => 4
    case Plan => 4
    case Practice => 4
    case Quiz => 4
    case LearningDocument => 5
    case PracticeQuestion => 5
    case QuizQuestion => 5
    case _ => 0
  }

  // ---- upwards: the owner of one row -------------------------------------------------------------

  type Owner = Option<string>

  function NonEmpty(v: Option<string>): Option<string> {
    if v.Some? && v.value != "" then v else None
  }

  /** One column of one row: nothing when the row is not there, or the value is null or empty. */
  function Column(db: Db, kind: Kind, id: string): Option<string>
    requires Complete(db)
  {
    var row := Found(db, kind, id);
    if row.Some? then NonEmpty(row.value.link) else None
  }

  function OwnerOfCurriculum(db: Db, id: string): Owner
    requires Complete(db)
  {
    Column(db, Curriculum, id)
  }

  function OwnerOfQuestion(db: Db, id: string): Owner
    requires Complete(db)
  {
    Column(db, Question, id)
  }

  function OwnerOfGrade(db: Db, id: string): Owner
    requires Complete(db)
  {
    var curriculum := Column(db, Grade, id);
    if curriculum.Some? then OwnerOfCurriculum(db, curriculum.value) else None
  }

  function OwnerOfLevel(db: Db, id: string): Owner
    requires Complete(db)
  {
    var grade := Column(db, Level, id);
    if grade.Some? then OwnerOfGrade(db, grade.value) else None
  }

  function OwnerOfLesson(db: Db, id: string): Owner
    requires Complete(db)
  {
    var level := Column(db, Lesson, id);
    if level.Some? then OwnerOfLevel(db, level.value) else None
  }

  /** Learnings, plans, practices and quizzes name their lesson. */
  function ViaLesson(db: Db, kind: Kind, id: string): Owner
    requires Complete(db)
  {
    var lesson := Column(db, kind, id);
    if lesson.Some? then OwnerOfLesson(db, lesson.value) else None
  }

  function OwnerOfLearningDocument(db: Db, id: string): Owner
    requires Complete(db)
  {
    var learning := Column(db, LearningDocument, id);
    if learning.Some? then ViaLesson(db, Learning, learning.value) else None
  }

  /** Feedback and baselines name their curriculum. */
  function ViaCurriculum(db: Db, kind: Kind, id: string): Owner
    requires Complete(db)
  {
    var curriculum := Column(db, kind, id);
    if curriculum.Some? then OwnerOfCurriculum(db, curriculum.value) else None
  }

  datatype AttachOwners = AttachOwners(parent: Owner, question: Owner)

  /** The owners an attach row joins: the parent's it hangs under, and its question's. */
  function BothEnds(db: Db, kind: Kind, id: string, parentOwner: string -> Owner): AttachOwners
    requires Complete(db)
  {
    var row := Found(db, kind, id);
    if row.None? then AttachOwners(None, None)
    else
      var parent, question := NonEmpty(row.value.link), NonEmpty(row.value.question);
      AttachOwners(if parent.Some? then parentOwner(parent.value) else None,
                   if question.Some? then OwnerOfQuestion(db, question.value) else None)
  }

  /** The owner `KINDS` resolves for a row of each kind. */
  function OwnerOf(db: Db, kind: Kind, id: string): Owner
    requires Complete(db)
  {
    match kind
    case Grade => OwnerOfGrade(db, id)
    case Level => OwnerOfLevel(db, id)
    case Lesson => OwnerOfLesson(db, id)
    case Learning => ViaLesson(db, Learning, id)
    case LearningDocument => OwnerOfLearningDocument(db, id)
    case Plan => ViaLesson(db, Plan, id)
    case Practice => ViaLesson(db, Practice, id)
    case Quiz => ViaLesson(db, Quiz, id)
    case PracticeQuestion =>
      BothEnds(db, PracticeQuestion, id, p => if Complete(db) then ViaLesson(db, Practice, p) else None).parent
    case QuizQuestion =>
      BothEnds(db, QuizQuestion, id, p => if Complete(db) then ViaLesson(db, Quiz, p) else None).parent
    case LevelQuizQuestion =>
      BothEnds(db, LevelQuizQuestion, id, p => if Complete(db) then OwnerOfLevel(db, p) else None).parent
    case Baseline => ViaCurriculum(db, Baseline, id)
    case BaselineQuestion =>
      BothEnds(db, BaselineQuestion, id, p => if Complete(db) then ViaCurriculum(db, Baseline, p) else None).parent
    case Feedback => ViaCurriculum(db, Feedback, id)
    case _ => Column(db, kind, id)
  }

  /** `inScope` for an organisation's caller, who is compared as JavaScript does: an id that is empty is nobody's. */
  predicate InScope(db: Db, org: string, kind: Kind, id: string)
    requires Complete(db)
  {
    id != "" && OwnerOf(db, kind, id) == Some(org)
  }

  /** An attach row's owner on its parent's side. */
  lemma BothEndsParent(db: Db, kind: Kind, id: string)
    requires Complete(db)
    ensures forall parentOwner: string -> Owner ::
              BothEnds(db, kind, id, parentOwner).parent ==
              var up := Column(db, kind, id); if up.Some? then parentOwner(up.value) else None
  {
  }

  /** One step of the walk, whatever the kind: the row's own owner, or its parent's. */
  lemma WalkFollowsTheParents(db: Db, kind: Kind, id: string)
    requires Complete(db)
    ensures OwnerOf(db, kind, id) ==
            match ParentOf(kind)
            case None => Column(db, kind, id)
            case Some(p) => var up := Column(db, kind, id); if up.Some? then OwnerOf(db, p, up.value) else None
  {
    hide BothEnds, Column;
    BothEndsParent(db, kind, id);
  }

  // ---- downwards: the ids an organisation owns ---------------------------------------------------

  /** The ids of the rows whose link is, to SQL, one of `names`. */
  function Linked(db: Db, kind: Kind, names: set<string>): set<string>
    requires Complete(db)
  {
    var rows, forms := db.tables[kind], Forms(db, names);
    set key | key in rows && rows[key].link.Some? && db.form(rows[key].link.value) in forms :: rows[key].id
  }

  /** The ids of the rows in scope: limited on the owner column, or to the rows under the parents in scope. */
  function OwnedIds(db: Db, org: string, kind: Kind): set<string>
    requires Complete(db)
    decreases Depth(kind)
  {
    match ParentOf(kind)
    case None => Linked(db, kind, {org})
    case Some(p) => Linked(db, kind, OwnedIds(db, org, p))
  }

  lemma OwnedIdsUnfold(db: Db, org: string, kind: Kind)
    requires Complete(db)
    ensures OwnedIds(db, org, kind) ==
            Linked(db, kind, if ParentOf(kind).Some? then OwnedIds(db, org, ParentOf(kind).value) else {org})
    ensures ParentOf(kind).Some? ==> Depth(ParentOf(kind).value) < Depth(kind)
  {
  }

  /** A query for this id, limited to the ids in scope, finds a row. */
  predicate Listed(db: Db, org: string, kind: Kind, id: string)
    requires Complete(db)
  {
    db.form(id) in Forms(db, OwnedIds(db, org, kind))
  }

  /** One step of the list: the row's own owner is the organisation to SQL, or its parent is listed. */
  lemma ListFollowsTheParents(db: Db, org: string, kind: Kind, id: string)
    requires Complete(db)
    ensures var row := Found(db, kind, id);
            Listed(db, org, kind, id) <==>
            row.Some? && row.value.link.Some? &&
            match ParentOf(kind)
            case None => db.form(row.value.link.value) == db.form(org)
            case Some(p) => Listed(db, org, p, row.value.link.value)
  {
    hide OwnedIds, ParentOf, Depth;
    OwnedIdsUnfold(db, org, kind);
    LinkedIs(db, kind, if ParentOf(kind).Some? then OwnedIds(db, org, ParentOf(kind).value) else {org}, id);
  }

  lemma LinkedIs(db: Db, kind: Kind, names: set<string>, id: string)
    requires Complete(db)
    ensures var row := Found(db, kind, id);
            db.form(id) in Forms(db, Linked(db, kind, names)) <==>
            row.Some? && row.value.link.Some? && db.form(row.value.link.value) in Forms(db, names)
  {
    var row := Found(db, kind, id);
    if row.Some? && row.value.link.Some? && db.form(row.value.link.value) in Forms(db, names) {
      assert row.value.id in Linked(db, kind, names);
    }
  }

  /** The caller's context for one request: what it has read so far is kept, so each kind is read once. */
  class RequestScope {
    const db: Db
    const org: string
    var memo: map<Kind, set<string>>
    var queries: seq<Kind>

    constructor (given: Db, organisation: string)
      requires Complete(given) && organisation != ""
      ensures Valid() && db == given && org == organisation && queries == []
    {
      db, org, memo, queries := given, organisation, map[], [];
    }

    /** Everything kept is right, and was read by one query. */
    ghost predicate Valid()
      reads this
    {
      Complete(db) && org != "" && (forall kind :: kind in memo ==> memo[kind] == OwnedIds(db, org, kind)) &&
      (forall kind :: kind in queries ==> kind in memo) &&
      forall i, j :: 0 <= i < j < |queries| ==> queries[i] != queries[j]
    }

    /** `ownedIds`: from the memo, or read through the parents, whose ids are read first. */
    method Ids(kind: Kind) returns (ids: set<string>)
      requires Valid()
      modifies this
      ensures Valid() && ids == OwnedIds(db, org, kind)
      ensures kind in memo && forall k :: k in old(memo) ==> k in memo
      ensures forall k :: k in memo && k !in old(memo) ==> Depth(k) <= Depth(kind)
      decreases Depth(kind)
    {
      hide OwnedIds, Depth, ParentOf, Linked;
      if kind in memo { return memo[kind]; }
      OwnedIdsUnfold(db, org, kind);
      var names := {org};
      match ParentOf(kind) {
        case None =>
        case Some(p) => names := Ids(p);
      }
      ids := Linked(db, kind, names);
      queries := queries + [kind];
      memo := memo[kind := ids];
    }
  }

  // ---- the two agree -----------------------------------------------------------------------------

  /** Nothing in the lists has an id that is empty to SQL. */
  ghost predicate NoEmptyKeys(db: Db, org: string)
    requires Complete(db)
  {
    forall kind: Kind :: !Listed(db, org, kind, "")
  }

  /** Every owner in the lists is written as the caller's organisation is. */
  ghost predicate OwnersAreExact(db: Db, org: string)
    requires Complete(db)
  {
    forall kind: Kind, id: string :: ParentOf(kind).None? && Listed(db, org, kind, id) ==>
        Column(db, kind, id) == Some(org)
  }

  lemma {:induction false} ListedIsWalked(db: Db, org: string, kind: Kind, id: string)
    requires Complete(db) && org != "" && NoEmptyKeys(db, org) && OwnersAreExact(db, org)
    ensures Listed(db, org, kind, id) <==> OwnerOf(db, kind, id) == Some(org)
    decreases Depth(kind)
  {
    hide OwnerOf, Listed, NoEmptyKeys, OwnersAreExact;
    WalkFollowsTheParents(db, kind, id);
    ListFollowsTheParents(db, org, kind, id);
    var row := Found(db, kind, id);
    if ParentOf(kind).Some? && row.Some? && row.value.link.Some? {
      assert !Listed(db, org, ParentOf(kind).value, "") by { NotEmpty(db, org, ParentOf(kind).value); }
      ListedIsWalked(db, org, ParentOf(kind).value, row.value.link.value);
    } else if ParentOf(kind).None? {
      ExactOwner(db, org, kind, id);
    }
  }

  lemma NotEmpty(db: Db, org: string, kind: Kind)
    requires Complete(db) && NoEmptyKeys(db, org)
    ensures !Listed(db, org, kind, "")
  {
  }

  lemma ExactOwner(db: Db, org: string, kind: Kind, id: string)
    requires Complete(db) && OwnersAreExact(db, org) && ParentOf(kind).None?
    ensures Listed(db, org, kind, id) ==> Column(db, kind, id) == Some(org)
  {
  }

  /**
   Scope agreement. For an organisation, what its lists find by an id is exactly what the owner walk from that id gives
   it, for every kind and every id, if and only if nothing listed has an empty key and every owner among the listed is
   written as the organisation is: SQL finds an owner written in another case, and `===` does not.
   */
  lemma ListsAgreeWithTheWalk(db: Db, org: string)
    requires Complete(db) && org != ""
    ensures NoEmptyKeys(db, org) && OwnersAreExact(db, org) <==>
            forall kind: Kind, id: string :: Listed(db, org, kind, id) <==> InScope(db, org, kind, id)
  {
    hide OwnerOf, Listed;
    if NoEmptyKeys(db, org) && OwnersAreExact(db, org) {
      forall kind: Kind, id: string ensures Listed(db, org, kind, id) <==> InScope(db, org, kind, id) {
        ListedIsWalked(db, org, kind, id);
      }
    } else if !NoEmptyKeys(db, org) {
      var kind: Kind :| Listed(db, org, kind, "");
      assert !InScope(db, org, kind, "");
    } else {
      var kind: Kind, id: string :| ParentOf(kind).None? && Listed(db, org, kind, id) &&
          Column(db, kind, id) != Some(org);
      WalkFollowsTheParents(db, kind, id);
      assert !InScope(db, org, kind, id);
    }
  }

  /** Tables without empty ids, which is what the database holds, list none. */
  lemma KeysAreNotEmpty(db: Db, org: string)
    requires Complete(db) && forall kind: Kind :: db.form("") !in db.tables[kind]
    ensures NoEmptyKeys(db, org)
  {
    forall kind: Kind ensures !Listed(db, org, kind, "") {
      ListFollowsTheParents(db, org, kind, "");
    }
  }

  /** Whatever the walk gives an organisation, its lists have. */
  lemma {:induction false} WalkedIsListed(db: Db, org: string, kind: Kind, id: string)
    requires Complete(db) && OwnerOf(db, kind, id) == Some(org)
    ensures Listed(db, org, kind, id)
    decreases Depth(kind)
  {
    hide OwnerOf, Listed;
    WalkFollowsTheParents(db, kind, id);
    ListFollowsTheParents(db, org, kind, id);
    if ParentOf(kind).Some? {
      WalkedIsListed(db, org, ParentOf(kind).value, Column(db, kind, id).value);
    }
  }

  ghost predicate Holds(db: Db, kind: Kind, row: Row)
    requires Complete(db)
  {
    Found(db, kind, row.id) == Some(row)
  }

  /** A grade under a curriculum with an empty key is in the list of an organisation the walk does not give it to. */
  lemma EmptyKeysDisagree(db: Db)
    requires Complete(db)
    requires Holds(db, Curriculum, Row("", Some("a"), None)) && Holds(db, Grade, Row("g", Some(""), None))
    ensures "g" in OwnedIds(db, "a", Grade) && !InScope(db, "a", Grade, "g")
  {
    ListFollowsTheParents(db, "a", Curriculum, "");
    assert db.form("") in Forms(db, OwnedIds(db, "a", Curriculum));
    var row := db.tables[Grade][db.form("g")];
    assert row.id in Linked(db, Grade, OwnedIds(db, "a", Curriculum));
    OwnedIdsUnfold(db, "a", Grade);
  }

  /**
   A curriculum whose owner is stored in another case is in the list of an organisation the walk does not give it to.
   */
  lemma OwnersInOtherCaseDisagree(db: Db)
    requires Complete(db) && db.form == Lower && Holds(db, Curriculum, Row("c", Some("ORG"), None))
    ensures "c" in OwnedIds(db, "org", Curriculum) && !InScope(db, "org", Curriculum, "c")
  {
    var row := db.tables[Curriculum][db.form("c")];
    assert Lower("ORG") == Lower("org");
    assert db.form("org") in Forms(db, {"org"});
    assert row.id in Linked(db, Curriculum, {"org"});
  }

  /** No row is in the lists of two organisations; organisations that SQL takes for the same have the same lists. */
  lemma {:induction false} OwnedByOneOrganisation(db: Db, a: string, b: string, kind: Kind)
    requires Complete(db)
    ensures db.form(a) != db.form(b) ==> OwnedIds(db, a, kind) !! OwnedIds(db, b, kind)
    ensures db.form(a) == db.form(b) ==> OwnedIds(db, a, kind) == OwnedIds(db, b, kind)
    decreases Depth(kind)
  {
    hide OwnedIds;
    OwnedIdsUnfold(db, a, kind);
    OwnedIdsUnfold(db, b, kind);
    if ParentOf(kind).Some? {
      var p := ParentOf(kind).value;
      OwnedByOneOrganisation(db, a, b, p);
      if db.form(a) != db.form(b) {
        OwnedAreStored(db, a, p);
        OwnedAreStored(db, b, p);
        StoredFormsDiffer(db, p, OwnedIds(db, a, p), OwnedIds(db, b, p));
        LinkedApart(db, kind, OwnedIds(db, a, p), OwnedIds(db, b, p));
      }
    } else if db.form(a) != db.form(b) {
      LinkedApart(db, kind, {a}, {b});
    } else {
      assert Forms(db, {a}) == Forms(db, {b});
    }
  }

  lemma OwnedAreStored(db: Db, org: string, kind: Kind)
    requires Complete(db)
    ensures forall id :: id in OwnedIds(db, org, kind) ==>
            Found(db, kind, id).Some? && Found(db, kind, id).value.id == id
  {
    hide OwnedIds, Depth, ParentOf;
    OwnedIdsUnfold(db, org, kind);
  }

  lemma LinkedApart(db: Db, kind: Kind, names: set<string>, others: set<string>)
    requires Complete(db) && Forms(db, names) !! Forms(db, others)
    ensures Linked(db, kind, names) !! Linked(db, kind, others)
  {
  }

  /** Ids as stored that differ have different forms. */
  lemma StoredFormsDiffer(db: Db, kind: Kind, ids: set<string>, others: set<string>)
    requires Complete(db) && ids !! others
    requires forall id :: id in ids || id in others ==> Found(db, kind, id).Some? && Found(db, kind, id).value.id == id
    ensures Forms(db, ids) !! Forms(db, others)
  {
    forall id, other | id in ids && other in others ensures db.form(id) != db.form(other) {
      assert Found(db, kind, id).value.id == id && Found(db, kind, other).value.id == other;
    }
  }

  // ---- many rows at once -------------------------------------------------------------------------

  /** The ids asked for; what is null or empty is dropped. */
  function Wanted(ids: set<Option<string>>): set<string> {
    set id | id in ids && NonEmpty(id).Some? :: id.value
  }

  /** The ids of the rows found, as stored. */
  function FoundIds(db: Db, kind: Kind, ids: set<Option<string>>): (found: set<string>)
    requires Complete(db)
    ensures forall id :: id in found ==> Found(db, kind, id).Some? && Found(db, kind, id).value.id == id
  {
    var forms := Forms(db, Wanted(ids));
    set key | key in db.tables[kind] && key in forms :: db.tables[kind][key].id
  }

  /** What the rows found name. */
  function Links(db: Db, kind: Kind, ids: set<Option<string>>): set<Option<string>>
    requires Complete(db)
  {
    set id | id in FoundIds(db, kind, ids) :: Found(db, kind, id).value.link
  }

  /** `Map.get`, which compares as JavaScript does; what it has not is null. */
  function LookUp(owners: map<string, Owner>, id: Option<string>): Owner {
    if id.Some? && id.value in owners then owners[id.value] else None
  }

  function OwnersOfCurricula(db: Db, ids: set<Option<string>>): map<string, Owner>
    requires Complete(db)
  {
    map id | id in FoundIds(db, Curriculum, ids) :: Found(db, Curriculum, id).value.link
  }

  function OwnersOfGrades(db: Db, ids: set<Option<string>>): map<string, Owner>
    requires Complete(db)
  {
    var byCurriculum := OwnersOfCurricula(db, Links(db, Grade, ids));
    map id | id in FoundIds(db, Grade, ids) :: LookUp(byCurriculum, Found(db, Grade, id).value.link)
  }

  function OwnersOfLevels(db: Db, ids: set<Option<string>>): map<string, Owner>
    requires Complete(db)
  {
    var byGrade := OwnersOfGrades(db, Links(db, Level, ids));
    map id | id in FoundIds(db, Level, ids) :: LookUp(byGrade, Found(db, Level, id).value.link)
  }

  /** A stored owner as the walk reads it: an empty one is none. */
  function AsWalked(o: Owner): Owner {
    NonEmpty(o)
  }

  /** The id is written as that of the row it finds, and so is every id on the way up from it. */
  predicate WrittenUp(db: Db, kind: Kind, id: string)
    requires Complete(db)
    decreases Depth(kind)
  {
    var row := Found(db, kind, id);
    row.Some? && row.value.id == id &&
    match ParentOf(kind)
    case None => true
    case Some(p) => row.value.link.Some? && WrittenUp(db, p, row.value.link.value)
  }

  /** A text that is not empty finds no row with an empty id. */
  ghost predicate EmptyIsNotFound(db: Db)
    requires Complete(db)
  {
    forall kind: Kind, id: string :: id != "" && Found(db, kind, id).Some? ==> Found(db, kind, id).value.id != ""
  }

  lemma AskedIsFound(db: Db, kind: Kind, ids: set<Option<string>>, id: string)
    requires Complete(db) && Some(id) in ids && EmptyIsNotFound(db)
    ensures id in FoundIds(db, kind, ids) <==>
            id != "" && Found(db, kind, id).Some? && Found(db, kind, id).value.id == id
  {
    if id != "" {
      assert NonEmpty(Some(id)).Some? && id in Wanted(ids);
      assert db.form(id) in Forms(db, Wanted(ids));
    }
    if id in FoundIds(db, kind, ids) {
      var key :| key in db.tables[kind] && key in Forms(db, Wanted(ids)) && db.tables[kind][key].id == id;
      var name :| name in Wanted(ids) && db.form(name) == key;
      assert Found(db, kind, name).Some?;
    }
  }

  lemma LinkIsAsked(db: Db, kind: Kind, ids: set<Option<string>>, id: string)
    requires Complete(db) && id in FoundIds(db, kind, ids)
    ensures Found(db, kind, id).value.link in Links(db, kind, ids)
  {
  }

  lemma CurriculaAgree(db: Db, ids: set<Option<string>>, id: string)
    requires Complete(db) && Some(id) in ids && EmptyIsNotFound(db)
    ensures var owner := LookUp(OwnersOfCurricula(db, ids), Some(id));
            if id != "" && WrittenUp(db, Curriculum, id) then AsWalked(owner) == OwnerOf(db, Curriculum, id)
            else owner.None?
  {
    hide FoundIds, EmptyIsNotFound;
    AskedIsFound(db, Curriculum, ids, id);
  }

  lemma GradesAgree(db: Db, ids: set<Option<string>>, id: string)
    requires Complete(db) && Some(id) in ids && EmptyIsNotFound(db)
    ensures var owner := LookUp(OwnersOfGrades(db, ids), Some(id));
            if id != "" && WrittenUp(db, Grade, id) then AsWalked(owner) == OwnerOf(db, Grade, id) else owner.None?
  {
    hide FoundIds, EmptyIsNotFound, OwnersOfCurricula, Links;
    AskedIsFound(db, Grade, ids, id);
    if id in FoundIds(db, Grade, ids) {
      LinkIsAsked(db, Grade, ids, id);
      var link := Found(db, Grade, id).value.link;
      if link.Some? { CurriculaAgree(db, Links(db, Grade, ids), link.value); }
    }
  }

  lemma LevelsAgree(db: Db, ids: set<Option<string>>, id: string)
    requires Complete(db) && Some(id) in ids && EmptyIsNotFound(db)
    ensures var owner := LookUp(OwnersOfLevels(db, ids), Some(id));
            if id != "" && WrittenUp(db, Level, id) then AsWalked(owner) == OwnerOf(db, Level, id) else owner.None?
  {
    hide FoundIds, EmptyIsNotFound, OwnersOfGrades, Links;
    AskedIsFound(db, Level, ids, id);
    if id in FoundIds(db, Level, ids) {
      LinkIsAsked(db, Level, ids, id);
      var link := Found(db, Level, id).value.link;
      if link.Some? { GradesAgree(db, Links(db, Level, ids), link.value); }
    }
  }

  /**
   The batched owner maps, asked with the ids of a list, give each row the owner the walk gives it one at a time, if and
   only if the walk gives none, or the id and every id on its way up is written as the key of the row it finds: SQL
   follows an id in another case, and `Map.get` does not. An owner stored as the empty text is none to the walk.
   */
  lemma BatchedOwnersAreTheWalk(db: Db, ids: set<Option<string>>, id: string)
    requires Complete(db) && Some(id) in ids && id != "" && EmptyIsNotFound(db)
    ensures AsWalked(LookUp(OwnersOfCurricula(db, ids), Some(id))) == OwnerOf(db, Curriculum, id) <==>
            OwnerOf(db, Curriculum, id).None? || WrittenUp(db, Curriculum, id)
    ensures AsWalked(LookUp(OwnersOfGrades(db, ids), Some(id))) == OwnerOf(db, Grade, id) <==>
            OwnerOf(db, Grade, id).None? || WrittenUp(db, Grade, id)
    ensures AsWalked(LookUp(OwnersOfLevels(db, ids), Some(id))) == OwnerOf(db, Level, id) <==>
            OwnerOf(db, Level, id).None? || WrittenUp(db, Level, id)
  {
    hide OwnersOfCurricula, OwnersOfGrades, OwnersOfLevels, WrittenUp, OwnerOf;
    CurriculaAgree(db, ids, id);
    GradesAgree(db, ids, id);
    LevelsAgree(db, ids, id);
  }

  /** A grade that stores its curriculum's id in another case has an owner by the walk, and none in the map. */
  lemma LinksInOtherCaseAreLost(db: Db)
    requires Complete(db) && db.form == Lower && EmptyIsNotFound(db)
    requires Holds(db, Curriculum, Row("c", Some("org"), None)) && Holds(db, Grade, Row("g", Some("C"), None))
    ensures OwnerOf(db, Grade, "g") == Some("org") && LookUp(OwnersOfGrades(db, {Some("g")}), Some("g")) == None
  {
    hide OwnersOfGrades, EmptyIsNotFound;
    assert Lower("C") == Lower("c");
    assert Found(db, Curriculum, "C").value.id == "c";
    GradesAgree(db, {Some("g")}, "g");
  }
}
