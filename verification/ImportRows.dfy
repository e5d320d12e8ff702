/** No two steps of a plan touch the same row or the same text. */
module ImportRows {
  import opened Values
  import opened ImportSlots
  import opened ImportContent
  import opened ImportSteps
  import opened ImportPlan

  // ---- the named lessons and their questions -----------------------------------------------------

  ghost predicate Ascends(list: seq<Lesson>) {
    forall i, j :: 0 <= i < j < |list| ==> list[i].order <= list[j].order
  }

  lemma SameLength<T>(a: seq<T>, b: seq<T>)
    requires multiset(a) == multiset(b)
    ensures |a| == |b|
  {
    assert |multiset(a)| == |a| && |multiset(b)| == |b|;
  }

  lemma {:induction false} InsertKeepsAscending(l: Lesson, list: seq<Lesson>)
    requires Ascends(list)
    ensures Ascends(InsertByOrder(l, list))
  {
    if list != [] && l.order > list[0].order {
      InsertKeepsAscending(l, list[1..]);
      var rest := InsertByOrder(l, list[1..]);
      forall j | 0 <= j < |rest| ensures list[0].order <= rest[j].order {
        assert rest[j] in multiset(rest);
        assert rest[j] in multiset(list[1..]) || rest[j] == l;
      }
    }
  }

  lemma {:induction false} ByOrderAscends(lessons: seq<Lesson>)
    ensures Ascends(ByOrder(lessons))
  {
    if lessons != [] {
      ByOrderAscends(lessons[1..]);
      InsertKeepsAscending(lessons[0], ByOrder(lessons[1..]));
    }
  }

  lemma TwiceCounts<T>(t: seq<T>, i: nat, j: nat)
    requires i < j < |t|
    ensures t[i] == t[j] ==> multiset(t)[t[i]] >= 2
  {
    assert t == t[..i] + [t[i]] + t[i + 1..j] + [t[j]] + t[j + 1..];
  }

  lemma SameElementsDistinct<T>(s: seq<T>, t: seq<T>)
    requires Distinct(s) && multiset(s) == multiset(t)
    ensures Distinct(t)
  {
    DistinctCounts(s);
    forall i, j | 0 <= i < j < |t| ensures t[i] != t[j] {
      TwiceCounts(t, i, j);
    }
  }

  lemma {:induction false} LessonIdsDiffer(lessons: seq<Lesson>, i: nat, j: nat)
    requires Distinct(LessonIds(lessons)) && i < j < |lessons| && lessons[i].id.Some? && lessons[j].id.Some?
    ensures lessons[i].id != lessons[j].id
    decreases |lessons|
  {
    var n := |lessons| - 1;
    DistinctAppend(LessonIds(lessons[..n]), IdOf(lessons[n]));
    if j < n {
      LessonIdsDiffer(lessons[..n], i, j);
    } else {
      LessonIdListed(lessons[..n], i);
    }
  }

  lemma {:induction false} LessonIdListed(lessons: seq<Lesson>, i: nat)
    requires i < |lessons| && lessons[i].id.Some?
    ensures lessons[i].id.value in LessonIds(lessons)
    decreases |lessons|
  {
    if i < |lessons| - 1 {
      LessonIdListed(lessons[..|lessons| - 1], i);
    }
  }

  /** The slots of the named lessons, in whatever order, are different. */
  lemma SlotsDiffer(m: nat, lessons: seq<Lesson>, list: seq<Lesson>, i: nat, j: nat)
    requires LessonsOk(m, lessons) && multiset(list) == multiset(lessons) && i < j < |list|
    ensures SlotOf(list[i]) != SlotOf(list[j])
  {
    hide LessonsOk;
    LessonsOkParts(m, lessons);
    forall a, b | 0 <= a < b < |lessons| ensures lessons[a] != lessons[b] {
      assert Orders(lessons)[a] != Orders(lessons)[b];
    }
    SameElementsDistinct(lessons, list);
    assert list[i] in multiset(list) && list[j] in multiset(list);
    var a :| 0 <= a < |lessons| && lessons[a] == list[i];
    var b :| 0 <= b < |lessons| && lessons[b] == list[j];
    assert a != b && Orders(lessons)[a] != Orders(lessons)[b];
    if list[i].id.Some? && list[j].id.Some? {
      if a < b { LessonIdsDiffer(lessons, a, b); } else { LessonIdsDiffer(lessons, b, a); }
    }
  }

  lemma LessonsOkParts(m: nat, lessons: seq<Lesson>)
    requires LessonsOk(m, lessons)
    ensures (forall l :: l in lessons ==> PlaceOk(m, l) && SetOk(l.practice) && SetOk(l.quiz))
    ensures Distinct(Orders(lessons)) && Distinct(LessonIds(lessons))
  {
  }

  function PoolNeed(l: Lesson): nat {
    if l.id.Some? then |l.practice| + |l.quiz| else 0
  }

  function PoolCount(list: seq<Lesson>): nat {
    if list == [] then 0 else PoolNeed(list[0]) + PoolCount(list[1..])
  }

  lemma {:induction false} PoolCountSnoc(list: seq<Lesson>, l: Lesson)
    ensures PoolCount(list + [l]) == PoolCount(list) + PoolNeed(l)
  {
    if list == [] {
      assert list + [l] == [l];
    } else {
      assert (list + [l])[1..] == list[1..] + [l];
      PoolCountSnoc(list[1..], l);
    }
  }

  lemma {:induction false} PoolCountIsPooled(lessons: seq<Lesson>)
    ensures PoolCount(lessons) == Pooled(lessons)
    decreases |lessons|
  {
    if lessons != [] {
      var n := |lessons| - 1;
      PoolCountIsPooled(lessons[..n]);
      PoolCountSnoc(lessons[..n], lessons[n]);
      assert lessons == lessons[..n] + [lessons[n]];
    }
  }

  lemma {:induction false} PoolCountOfInsert(l: Lesson, list: seq<Lesson>)
    ensures PoolCount(InsertByOrder(l, list)) == PoolNeed(l) + PoolCount(list)
  {
    if list != [] && l.order > list[0].order {
      PoolCountOfInsert(l, list[1..]);
      assert InsertByOrder(l, list)[1..] == InsertByOrder(l, list[1..]);
    } else {
      assert ([l] + list)[1..] == list;
    }
  }

  lemma {:induction false} PoolCountByOrder(lessons: seq<Lesson>)
    ensures PoolCount(ByOrder(lessons)) == PoolCount(lessons)
  {
    if lessons != [] {
      PoolCountByOrder(lessons[1..]);
      PoolCountOfInsert(lessons[0], ByOrder(lessons[1..]));
    }
  }

  /** A pool id from the `lo`-th on. */
  predicate IsPooled(id: Id, lo: int, hi: int) {
    id.Seed? && 0x20 + lo <= id.n < 0x20 + hi && id in POOL
  }

  predicate IsOwn(m: nat, s: Slot, id: Id) {
    s.Further? && id.Derived? && id.m == m && id.role.SlotRole? && id.role.n == s.n && id.role.part.QuestionPart? &&
    IsPlace(id.role.part.place)
  }

  function QuestionsOf(p: Placed): seq<Id> {
    p.practiceIds + p.quizIds
  }

  /** Where the questions of a lesson come from: its own ids, or the pool from `lo` to `hi`. */
  ghost predicate AsksFrom(m: nat, p: Placed, lo: int, hi: int) {
    forall id :: id in QuestionsOf(p) ==> if p.slot.Fixed? then IsPooled(id, lo, hi) else IsOwn(m, p.slot, id)
  }

  lemma PoolIds()
    ensures forall k :: 0 <= k < 7 ==> POOL[k] == Seed(0x20 + k)
  {
  }

  lemma PlaceHead(m: nat, list: seq<Lesson>, next: nat)
    requires list != [] && PlaceOk(m, list[0]) && SetOk(list[0].practice) && SetOk(list[0].quiz) &&
             next + PoolCount(list) <= |POOL|
    ensures var p := Place(m, list, next)[0];
            IsPlaced(m, p) && Distinct(QuestionsOf(p)) && AsksFrom(m, p, next, next + PoolNeed(list[0]))
  {
    PoolIds();
  }

  lemma PlaceTail(m: nat, list: seq<Lesson>, next: nat)
    requires list != [] && PlaceOk(m, list[0])
    ensures Place(m, list, next)[1..] == Place(m, list[1..], next + PoolNeed(list[0]))
  {
  }

  ghost predicate PlacesOk(m: nat, list: seq<Lesson>, next: nat) {
    (forall l :: l in list ==> PlaceOk(m, l) && SetOk(l.practice) && SetOk(l.quiz)) && next + PoolCount(list) <= |POOL|
  }

  lemma {:induction false} PlaceHolds(m: nat, list: seq<Lesson>, next: nat)
    requires PlacesOk(m, list, next)
    ensures ArePlaced(m, Place(m, list, next))
    ensures forall i :: 0 <= i < |list| ==>
            Distinct(QuestionsOf(Place(m, list, next)[i])) && AsksFrom(m, Place(m, list, next)[i], next, |POOL|)
  {
    hide PlaceOk, SetOk, Place, IsPlaced;
    if list != [] {
      PlaceHead(m, list, next);
      PlaceTail(m, list, next);
      PlaceHolds(m, list[1..], next + PoolNeed(list[0]));
      var placed := Place(m, list, next);
      forall i | 0 <= i < |list|
        ensures IsPlaced(m, placed[i]) && Distinct(QuestionsOf(placed[i])) && AsksFrom(m, placed[i], next, |POOL|)
      {
        if i > 0 { assert placed[i] == placed[1..][i - 1]; }
      }
    }
  }

  ghost predicate AskApart(p: Placed, q: Placed) {
    forall id :: id in QuestionsOf(p) ==> id !in QuestionsOf(q)
  }

  lemma {:induction false} QuestionsAreApart(m: nat, list: seq<Lesson>, next: nat, i: nat, j: nat)
    requires PlacesOk(m, list, next) && i < j < |list|
    requires forall a, b :: 0 <= a < b < |list| ==> SlotOf(list[a]) != SlotOf(list[b])
    ensures AskApart(Place(m, list, next)[i], Place(m, list, next)[j])
  {
    hide PlaceOk, SetOk, Place, IsPlaced, SlotOf;
    var placed, need := Place(m, list, next), PoolNeed(list[0]);
    PlaceTail(m, list, next);
    assert placed[j] == placed[1..][j - 1];
    if i > 0 {
      assert placed[i] == placed[1..][i - 1];
      QuestionsAreApart(m, list[1..], next + need, i - 1, j - 1);
    } else {
      PlaceHead(m, list, next);
      PlaceHolds(m, list[1..], next + need);
      assert AsksFrom(m, placed[j], next + need, |POOL|) && AsksFrom(m, placed[0], next, next + need);
      assert SlotOf(list[0]) != SlotOf(list[j]);
    }
  }

  /** What an acceptable file's lessons are placed as: different slots, and no question id twice. */
  ghost predicate WellPlaced(m: nat, placed: seq<Placed>) {
    ArePlaced(m, placed) &&
    (forall i, j :: 0 <= i < j < |placed| ==> placed[i].slot != placed[j].slot && AskApart(placed[i], placed[j])) &&
    (forall i :: 0 <= i < |placed| ==> Distinct(QuestionsOf(placed[i])) && AsksFrom(m, placed[i], 0, |POOL|))
  }

  lemma PlacesOkOf(c: Content)
    requires Acceptable(c)
    ensures PlacesOk(c.number, ByOrder(c.lessons), 0)
  {
    hide LessonsOk, PlaceOk, SetOk, BilingualOk, IsOneLine, ByOrder;
    var m, list := c.number, ByOrder(c.lessons);
    LessonsOkParts(m, c.lessons);
    PoolCountByOrder(c.lessons);
    PoolCountIsPooled(c.lessons);
    if m != 1 { LaterNeedNoPool(m, c.lessons); }
    forall l | l in list ensures PlaceOk(m, l) && SetOk(l.practice) && SetOk(l.quiz) {
      assert l in multiset(list);
    }
  }

  lemma AcceptableIsWellPlaced(c: Content)
    requires Acceptable(c)
    ensures WellPlaced(c.number, PlacedOf(c)) && ArePlaced(c.number, PlacedOf(c))
  {
    hide LessonsOk, PlaceOk, SetOk, Place, SlotOf, PlacesOk, AskApart, AsksFrom, IsPlaced, BilingualOk, IsOneLine,
         ByOrder;
    var m, list := c.number, ByOrder(c.lessons);
    PlacesOkOf(c);
    SameLength(list, c.lessons);
    PlaceHolds(m, list, 0);
    forall i, j | 0 <= i < j < |list| ensures SlotOf(list[i]) != SlotOf(list[j]) {
      SlotsDiffer(m, c.lessons, list, i, j);
    }
    forall i, j | 0 <= i < j < |list| ensures AskApart(Place(m, list, 0)[i], Place(m, list, 0)[j]) {
      QuestionsAreApart(m, list, 0, i, j);
    }
  }

  lemma {:induction false} LaterNeedNoPool(m: nat, lessons: seq<Lesson>)
    requires m != 1 && forall l :: l in lessons ==> PlaceOk(m, l)
    ensures PoolCount(lessons) == 0
  {
    if lessons != [] {
      assert lessons[0] in lessons;
      LaterNeedNoPool(m, lessons[1..]);
    }
  }

  // ---- zones -------------------------------------------------------------------------------------

  function TableOf(t: Target): Table {
    if t.RowTarget? then t.key.table else t.tkey.table
  }

  function IdOfTarget(t: Target): Id {
    if t.RowTarget? then t.key.id else t.tkey.row
  }

  /** The steps touch only rows, or only texts of rows, with these ids, in these tables. */
  ghost predicate Within(steps: seq<Step>, ids: iset<Id>, tables: set<Table>, texts: bool) {
    forall i, t: Target :: 0 <= i < |steps| && Touches(steps[i], t) ==>
        t.TextTarget? == texts && TableOf(t) in tables && IdOfTarget(t) in ids
  }

  ghost predicate AllApart(a: seq<Step>, b: seq<Step>) {
    forall i, j :: 0 <= i < |a| && 0 <= j < |b| ==> Apart(a[i], b[j])
  }

  lemma ZonesAreApart(a: seq<Step>, ids: iset<Id>, tables: set<Table>, texts: bool, b: seq<Step>, ids': iset<Id>,
                      tables': set<Table>, texts': bool)
    requires Within(a, ids, tables, texts) && Within(b, ids', tables', texts')
    requires texts != texts' || tables !! tables' || ids !! ids'
    ensures AllApart(a, b)
  {
    hide Touches;
    forall i, j | 0 <= i < |a| && 0 <= j < |b| ensures Apart(a[i], b[j]) {
      forall t: Target ensures Touches(a[i], t) ==> !Touches(b[j], t) {
        TouchedIsInZone(a, ids, tables, texts, i, t);
        TouchedIsInZone(b, ids', tables', texts', j, t);
      }
    }
  }

  lemma TouchedIsInZone(steps: seq<Step>, ids: iset<Id>, tables: set<Table>, texts: bool, i: nat, t: Target)
    requires Within(steps, ids, tables, texts) && i < |steps|
    ensures Touches(steps[i], t) ==> t.TextTarget? == texts && TableOf(t) in tables && IdOfTarget(t) in ids
  {
  }

  lemma InZone(steps: seq<Step>, ids: iset<Id>, tables: set<Table>, texts: bool, step: Step, t: Target)
    requires Within(steps, ids, tables, texts) && step in steps && Touches(step, t)
    ensures t.TextTarget? == texts && TableOf(t) in tables && IdOfTarget(t) in ids
  {
    hide Touches;
    var i :| 0 <= i < |steps| && steps[i] == step;
  }

  lemma JoinSeparate(a: seq<Step>, b: seq<Step>)
    requires Separate(a) && Separate(b) && AllApart(a, b)
    ensures Separate(a + b)
  {
    hide Apart;
  }

  lemma AllApartJoins(a: seq<Step>, b: seq<Step>, c: seq<Step>)
    ensures AllApart(a, c) && AllApart(b, c) ==> AllApart(a + b, c)
  {
    hide Apart;
  }

  lemma WithinJoins(a: seq<Step>, b: seq<Step>, ids: iset<Id>, tables: set<Table>, texts: bool)
    requires Within(a, ids, tables, texts) && Within(b, ids, tables, texts)
    ensures Within(a + b, ids, tables, texts)
  {
    hide Touches;
  }

  lemma WithinGrows(a: seq<Step>, ids: iset<Id>, ids': iset<Id>, tables: set<Table>, tables': set<Table>, texts: bool)
    requires Within(a, ids, tables, texts) && ids <= ids' && tables <= tables'
    ensures Within(a, ids', tables', texts)
  {
    hide Touches;
  }

  // ---- one lesson --------------------------------------------------------------------------------

  const LESSON_TABLES: set<Table> := {Lessons, Documents, LessonLearnings, LessonPractices, LessonQuizzes}
  const JOIN_TABLES: set<Table> := {PracticeQuestions, QuizQuestions}

  ghost function PartsOf(m: nat, s: Slot): iset<Id>
    requires IsSlot(m, s)
  {
    iset part | part in {LessonPart, DocPart, LearningPart, PracticePart, QuizPart} :: SlotId(m, s, part)
  }

  function JoinsOf(m: nat, p: Placed): set<Id>
    requires IsPlaced(m, p)
  {
    FirstJoins(m, p.slot, Practice, |p.practiceIds|) + FirstJoins(m, p.slot, Quiz, |p.quizIds|)
  }

  /** The ids a lesson's part of a round writes to. */
  ghost function RoundIds(round: Round, m: nat, p: Placed): iset<Id>
    requires IsPlaced(m, p)
  {
    match round
    case LessonRows => PartsOf(m, p.slot)
    case LessonTexts => PartsOf(m, p.slot)
    case JoinRows => iset id | id in JoinsOf(m, p)
    case _ => iset id | id in QuestionsOf(p)
  }

  function RoundTables(round: Round): set<Table> {
    match round
    case LessonRows => LESSON_TABLES
    case LessonTexts => LESSON_TABLES
    case JoinRows => JOIN_TABLES
    case _ => {Questions}
  }

  predicate RoundWritesTexts(round: Round) {
    round.LessonTexts? || round.QuestionTexts?
  }

  lemma LessonRoundsFit(m: nat, f: Flags, p: Placed)
    requires IsPlaced(m, p)
    ensures Separate(LessonSteps(m, f, p)) && Within(LessonSteps(m, f, p), PartsOf(m, p.slot), LESSON_TABLES, false)
    ensures Separate(TextsOfLesson(m, f, p)) && Within(TextsOfLesson(m, f, p), PartsOf(m, p.slot), LESSON_TABLES, true)
  {
    hide SlotId, LevelId, PassingPoints;
  }

  /** Upserts of different rows. */
  lemma UpsertsFit(steps: seq<Step>, rows: seq<Id>, ids: iset<Id>, table: Table)
    requires |steps| == |rows| && Distinct(rows)
    requires forall i :: 0 <= i < |steps| ==> steps[i].Upsert? && steps[i].key == Key(table, rows[i]) && rows[i] in ids
    ensures Separate(steps) && Within(steps, ids, {table}, false)
  {
  }

  function JoinRowsOf(m: nat, s: Slot, kind: Kind, n: nat): seq<Id>
    requires IsSlot(m, s) && n <= SETS_PER_LESSON
  {
    seq(n, i requires 0 <= i < n => SlotId(m, s, JoinPart(kind, i + 1)))
  }

  lemma JoinRowsAreDistinct(m: nat, s: Slot, kind: Kind, n: nat)
    requires IsSlot(m, s) && n <= SETS_PER_LESSON
    ensures Distinct(JoinRowsOf(m, s, kind, n)) &&
            forall id :: id in JoinRowsOf(m, s, kind, n) ==> id in FirstJoins(m, s, kind, n)
  {
    hide SlotId, FirstJoins;
    var rows := JoinRowsOf(m, s, kind, n);
    forall i, j | 0 <= i < j < |rows| ensures rows[i] != rows[j] {
      SlotIdsAreDistinct(m, s, JoinPart(kind, i + 1), m, s, JoinPart(kind, j + 1));
    }
    forall id | id in rows ensures id in FirstJoins(m, s, kind, n) {
      var i :| 0 <= i < |rows| && rows[i] == id;
      assert IsPlace(i + 1) && id == SlotId(m, s, JoinPart(kind, i + 1));
    }
  }

  lemma JoinsFit(m: nat, p: Placed, kind: Kind)
    requires IsPlaced(m, p)
    ensures var ids := IdsOfKind(p, kind);
            Separate(JoinSteps(m, p.slot, kind, ids)) &&
            Within(JoinSteps(m, p.slot, kind, ids), iset id | id in JoinsOf(m, p), {JoinTable(kind)}, false)
  {
    hide SlotId, FirstJoins, Separate, Within;
    var ids := IdsOfKind(p, kind);
    var rows := JoinRowsOf(m, p.slot, kind, |ids|);
    JoinRowsAreDistinct(m, p.slot, kind, |ids|);
    forall i | 0 <= i < |rows| ensures rows[i] in JoinsOf(m, p) {
      assert rows[i] in rows;
    }
    UpsertsFit(JoinSteps(m, p.slot, kind, ids), rows, (iset id | id in JoinsOf(m, p)), JoinTable(kind));
  }

  lemma QuestionsFit(m: nat, f: Flags, p: Placed)
    requires IsPlaced(m, p) && Distinct(QuestionsOf(p))
    ensures var steps := QuestionSteps(f, p.lesson.practice, p.practiceIds) +
            QuestionSteps(f, p.lesson.quiz, p.quizIds);
            Separate(steps) && Within(steps, iset id | id in QuestionsOf(p), {Questions}, false)
  {
    hide Separate, Within;
    UpsertsFit(QuestionSteps(f, p.lesson.practice, p.practiceIds) + QuestionSteps(f, p.lesson.quiz, p.quizIds),
               QuestionsOf(p), (iset id | id in QuestionsOf(p)), Questions);
  }

  /** Texts of one row, with different fields or subkeys. */
  lemma TextsOfRowFit(steps: seq<Step>, id: Id)
    requires forall i :: 0 <= i < |steps| ==>
             steps[i].Translate? && steps[i].tkey.table == Questions && steps[i].tkey.row == id
    requires forall i, j :: 0 <= i < j < |steps| ==> steps[i].tkey != steps[j].tkey
    ensures Separate(steps) && Within(steps, iset{id}, {Questions}, true)
  {
  }

  lemma TextsFit(m: nat, f: Flags, q: Question, id: Id)
    ensures Separate(TextsOfQuestion(m, f, q, id)) && Within(TextsOfQuestion(m, f, q, id), iset{id}, {Questions}, true)
  {
    hide Separate, Within;
    TextsOfRowFit(TextsOfQuestion(m, f, q, id), id);
  }

  lemma {:induction false} SetTextsFit(m: nat, f: Flags, questions: seq<Question>, ids: seq<Id>)
    requires |questions| == |ids| && Distinct(ids)
    ensures Separate(TextsOfSet(m, f, questions, ids)) &&
            Within(TextsOfSet(m, f, questions, ids), iset id | id in ids, {Questions}, true)
  {
    hide TextsOfQuestion, Touches;
    if ids != [] {
      var head, tail := TextsOfQuestion(m, f, questions[0], ids[0]), TextsOfSet(m, f, questions[1..], ids[1..]);
      TextsFit(m, f, questions[0], ids[0]);
      SetTextsFit(m, f, questions[1..], ids[1..]);
      ZonesAreApart(head, iset{ids[0]}, {Questions}, true, tail, iset id | id in ids[1..], {Questions}, true);
      JoinSeparate(head, tail);
      WithinGrows(head, iset{ids[0]}, iset id | id in ids, {Questions}, {Questions}, true);
      WithinGrows(tail, iset id | id in ids[1..], iset id | id in ids, {Questions}, {Questions}, true);
      WithinJoins(head, tail, iset id | id in ids, {Questions}, true);
    }
  }

  lemma DistinctParts<T>(a: seq<T>, b: seq<T>)
    requires Distinct(a + b)
    ensures Distinct(a) && Distinct(b) && forall x :: x in a ==> x !in b
  {
    DistinctPrefix(a, b);
    forall i, j | 0 <= i < j < |b| ensures b[i] != b[j] {
      assert (a + b)[|a| + i] != (a + b)[|a| + j];
    }
    forall i, j | 0 <= i < |a| && 0 <= j < |b| ensures a[i] != b[j] {
      assert (a + b)[i] != (a + b)[|a| + j];
    }
  }

  lemma RoundFits(round: Round, m: nat, f: Flags, p: Placed)
    requires IsPlaced(m, p) && Distinct(QuestionsOf(p))
    ensures Separate(RoundSteps(round, m, f, p))
    ensures Within(RoundSteps(round, m, f, p), RoundIds(round, m, p), RoundTables(round), RoundWritesTexts(round))
  {
    hide Touches, LessonSteps, QuestionSteps, JoinSteps, TextsOfLesson, TextsOfSet, SlotId, Separate, Within,
         FirstJoins;
    match round
    case LessonRows => LessonRoundsFit(m, f, p);
    case LessonTexts => LessonRoundsFit(m, f, p);
    case QuestionRows => QuestionsFit(m, f, p);
    case JoinRows =>
      var a, b, ids := JoinSteps(m, p.slot, Practice, p.practiceIds), JoinSteps(m, p.slot, Quiz, p.quizIds),
          iset id | id in JoinsOf(m, p);
      JoinsFit(m, p, Practice);
      JoinsFit(m, p, Quiz);
      ZonesAreApart(a, ids, {PracticeQuestions}, false, b, ids, {QuizQuestions}, false);
      JoinSeparate(a, b);
      WithinGrows(a, ids, ids, {PracticeQuestions}, JOIN_TABLES, false);
      WithinGrows(b, ids, ids, {QuizQuestions}, JOIN_TABLES, false);
      WithinJoins(a, b, ids, JOIN_TABLES, false);
    case QuestionTexts =>
      var a, b := TextsOfSet(m, f, p.lesson.practice, p.practiceIds), TextsOfSet(m, f, p.lesson.quiz, p.quizIds);
      var ids, practice, quiz := iset id | id in QuestionsOf(p), iset id | id in p.practiceIds,
          iset id | id in p.quizIds;
      DistinctParts(p.practiceIds, p.quizIds);
      SetTextsFit(m, f, p.lesson.practice, p.practiceIds);
      SetTextsFit(m, f, p.lesson.quiz, p.quizIds);
      ZonesAreApart(a, practice, {Questions}, true, b, quiz, {Questions}, true);
      JoinSeparate(a, b);
      WithinGrows(a, practice, ids, {Questions}, {Questions}, true);
      WithinGrows(b, quiz, ids, {Questions}, {Questions}, true);
      WithinJoins(a, b, ids, {Questions}, true);
  }

  // ---- all lessons -------------------------------------------------------------------------------

  ghost function AllRoundIds(round: Round, m: nat, placed: seq<Placed>): iset<Id>
    requires ArePlaced(m, placed)
  {
    if placed == [] then iset{} else RoundIds(round, m, placed[0]) + AllRoundIds(round, m, placed[1..])
  }

  lemma PartsAreApart(m: nat, s: Slot, s': Slot)
    requires IsSlot(m, s) && IsSlot(m, s') && s != s'
    ensures PartsOf(m, s) !! PartsOf(m, s')
  {
    hide SlotId;
    forall part, part' | IsPart(s, part) && IsPart(s', part') ensures SlotId(m, s, part) != SlotId(m, s', part') {
      SlotIdsAreDistinct(m, s, part, m, s', part');
    }
  }

  lemma FirstJoinsAreApart(m: nat, s: Slot, kind: Kind, n: nat, s': Slot, kind': Kind, n': nat)
    requires IsSlot(m, s) && IsSlot(m, s') && s != s' && n <= SETS_PER_LESSON && n' <= SETS_PER_LESSON
    ensures FirstJoins(m, s, kind, n) !! FirstJoins(m, s', kind', n')
  {
    hide SlotId, FirstJoins;
    forall j, j' | IsPlace(j) && IsPlace(j')
      ensures SlotId(m, s, JoinPart(kind, j)) != SlotId(m, s', JoinPart(kind', j'))
    {
      SlotIdsAreDistinct(m, s, JoinPart(kind, j), m, s', JoinPart(kind', j'));
    }
  }

  lemma JoinsAreApart(m: nat, p: Placed, q: Placed)
    requires IsPlaced(m, p) && IsPlaced(m, q) && p.slot != q.slot
    ensures JoinsOf(m, p) !! JoinsOf(m, q)
  {
    hide FirstJoins;
    FirstJoinsAreApart(m, p.slot, Practice, |p.practiceIds|, q.slot, Practice, |q.practiceIds|);
    FirstJoinsAreApart(m, p.slot, Practice, |p.practiceIds|, q.slot, Quiz, |q.quizIds|);
    FirstJoinsAreApart(m, p.slot, Quiz, |p.quizIds|, q.slot, Practice, |q.practiceIds|);
    FirstJoinsAreApart(m, p.slot, Quiz, |p.quizIds|, q.slot, Quiz, |q.quizIds|);
  }

  lemma RoundIdsAreApart(round: Round, m: nat, p: Placed, q: Placed)
    requires IsPlaced(m, p) && IsPlaced(m, q) && p.slot != q.slot && AskApart(p, q)
    ensures RoundIds(round, m, p) !! RoundIds(round, m, q)
  {
    hide PartsOf, JoinsOf;
    PartsAreApart(m, p.slot, q.slot);
    JoinsAreApart(m, p, q);
  }

  lemma {:induction false} FirstIsApart(round: Round, m: nat, placed: seq<Placed>, k: nat)
    requires WellPlaced(m, placed) && 1 <= k <= |placed|
    ensures RoundIds(round, m, placed[0]) !! AllRoundIds(round, m, placed[k..])
    decreases |placed| - k
  {
    hide RoundIds, AskApart, AsksFrom, IsPlaced;
    if k < |placed| {
      RoundIdsAreApart(round, m, placed[0], placed[k]);
      FirstIsApart(round, m, placed, k + 1);
      assert placed[k..][1..] == placed[k + 1..] && placed[k..][0] == placed[k];
    }
  }

  lemma {:induction false} ForEachFits(round: Round, m: nat, f: Flags, placed: seq<Placed>)
    requires WellPlaced(m, placed)
    ensures Separate(ForEach(round, m, f, placed))
    ensures Within(ForEach(round, m, f, placed), AllRoundIds(round, m, placed), RoundTables(round),
                   RoundWritesTexts(round))
  {
    hide RoundSteps, RoundIds, Separate, Within, AskApart, AsksFrom, IsPlaced;
    if placed == [] {
      NoStepsFit(ForEach(round, m, f, placed), AllRoundIds(round, m, placed), RoundTables(round),
                 RoundWritesTexts(round));
    } else {
      var head, tail := RoundSteps(round, m, f, placed[0]), ForEach(round, m, f, placed[1..]);
      var all, first, rest := AllRoundIds(round, m, placed), RoundIds(round, m, placed[0]),
          AllRoundIds(round, m, placed[1..]);
      var tables, texts := RoundTables(round), RoundWritesTexts(round);
      RoundFits(round, m, f, placed[0]);
      ForEachFits(round, m, f, placed[1..]);
      FirstIsApart(round, m, placed, 1);
      ZonesAreApart(head, first, tables, texts, tail, rest, tables, texts);
      JoinSeparate(head, tail);
      WithinGrows(head, first, all, tables, tables, texts);
      WithinGrows(tail, rest, all, tables, tables, texts);
      WithinJoins(head, tail, all, tables, texts);
    }
  }

  lemma NoStepsFit(steps: seq<Step>, ids: iset<Id>, tables: set<Table>, texts: bool)
    requires steps == []
    ensures Separate(steps) && Within(steps, ids, tables, texts)
  {
  }

  // ---- the whole plan ----------------------------------------------------------------------------

  const PROGRAMME_TABLES: set<Table> := {Curriculums, Grades, Levels}

  ghost const ANY_ID: iset<Id> := iset id: Id | true

  lemma ProgrammeFits(c: Content, f: Flags, status: int, levelPoints: int, gradePoints: int)
    requires c.number >= 0
    ensures Separate(ProgrammeSteps(c, f, status, levelPoints, gradePoints))
    ensures Within(ProgrammeSteps(c, f, status, levelPoints, gradePoints), ANY_ID, PROGRAMME_TABLES, false)
    ensures Separate(ProgrammeTexts(c, f)) && Within(ProgrammeTexts(c, f), ANY_ID, PROGRAMME_TABLES, true)
  {
    hide LevelId;
  }

  /** A list of steps beside one in other tables. */
  lemma BesideFits(a: seq<Step>, tables: set<Table>, b: seq<Step>, ids: iset<Id>, tables': set<Table>, texts: bool)
    requires Separate(a) && Separate(b) && Within(a, ANY_ID, tables, texts) && Within(b, ids, tables', texts) &&
             tables !! tables'
    ensures Separate(a + b) && Within(a + b, ANY_ID, tables + tables', texts)
  {
    hide Separate, Within;
    ZonesAreApart(a, ANY_ID, tables, texts, b, ids, tables', texts);
    JoinSeparate(a, b);
    WithinGrows(a, ANY_ID, ANY_ID, tables, tables + tables', texts);
    WithinGrows(b, ids, ANY_ID, tables', tables + tables', texts);
    WithinJoins(a, b, ANY_ID, tables + tables', texts);
  }

  lemma RowsFit(c: Content, f: Flags, placed: seq<Placed>, status: int, levelPoints: int, gradePoints: int)
    requires c.number >= 0 && WellPlaced(c.number, placed)
    ensures Separate(RowSteps(c, f, placed, status, levelPoints, gradePoints))
    ensures Within(RowSteps(c, f, placed, status, levelPoints, gradePoints), ANY_ID,
                   PROGRAMME_TABLES + LESSON_TABLES + {Questions} + JOIN_TABLES, false)
  {
    hide Separate, Within, ForEach, ProgrammeSteps, AllRoundIds, AskApart, AsksFrom, IsPlaced;
    var m := c.number;
    var programme := ProgrammeSteps(c, f, status, levelPoints, gradePoints);
    var lessons, questions, joins := ForEach(LessonRows, m, f, placed), ForEach(QuestionRows, m, f, placed),
        ForEach(JoinRows, m, f, placed);
    ProgrammeFits(c, f, status, levelPoints, gradePoints);
    ForEachFits(LessonRows, m, f, placed);
    ForEachFits(QuestionRows, m, f, placed);
    ForEachFits(JoinRows, m, f, placed);
    BesideFits(programme, PROGRAMME_TABLES, lessons, AllRoundIds(LessonRows, m, placed), LESSON_TABLES, false);
    BesideFits(programme + lessons, PROGRAMME_TABLES + LESSON_TABLES, questions, AllRoundIds(QuestionRows, m, placed),
               {Questions}, false);
    BesideFits(programme + lessons + questions, PROGRAMME_TABLES + LESSON_TABLES + {Questions}, joins,
               AllRoundIds(JoinRows, m, placed), JOIN_TABLES, false);
  }

  lemma AllTextsFit(c: Content, f: Flags, placed: seq<Placed>)
    requires c.number >= 0 && WellPlaced(c.number, placed)
    ensures Separate(TextSteps(c, f, placed))
    ensures Within(TextSteps(c, f, placed), ANY_ID, PROGRAMME_TABLES + LESSON_TABLES + {Questions}, true)
  {
    hide Separate, Within, ForEach, ProgrammeTexts, AllRoundIds, AskApart, AsksFrom, IsPlaced;
    var m := c.number;
    ProgrammeFits(c, f, 0, 0, 0);
    ForEachFits(LessonTexts, m, f, placed);
    ForEachFits(QuestionTexts, m, f, placed);
    BesideFits(ProgrammeTexts(c, f), PROGRAMME_TABLES, ForEach(LessonTexts, m, f, placed),
               AllRoundIds(LessonTexts, m, placed), LESSON_TABLES, true);
    BesideFits(ProgrammeTexts(c, f) + ForEach(LessonTexts, m, f, placed), PROGRAMME_TABLES + LESSON_TABLES,
               ForEach(QuestionTexts, m, f, placed), AllRoundIds(QuestionTexts, m, placed), {Questions}, true);
  }

  lemma HideFits(table: Table, ids: set<Id>, column: Column, value: Val)
    ensures Separate(HideStep(table, ids, column, value))
    ensures Within(HideStep(table, ids, column, value), iset id | id in ids, {table}, false)
  {
  }

  lemma HideBeside(a: seq<Step>, tables: set<Table>, zone: iset<Id>, table: Table, ids: set<Id>, column: Column,
                   value: Val, all: set<Table>)
    requires Separate(a) && Within(a, zone, tables, false) && table !in tables && all == tables + {table} &&
             forall id :: id in ids ==> id in zone
    ensures Separate(a + HideStep(table, ids, column, value)) &&
            Within(a + HideStep(table, ids, column, value), zone, all, false)
  {
    hide Separate, Within, HideStep;
    var b, own := HideStep(table, ids, column, value), iset id | id in ids;
    HideFits(table, ids, column, value);
    ZonesAreApart(a, zone, tables, false, b, own, {table}, false);
    JoinSeparate(a, b);
    WithinGrows(a, zone, zone, tables, tables + {table}, false);
    WithinGrows(b, own, zone, {table}, tables + {table}, false);
    WithinJoins(a, b, zone, tables + {table}, false);
  }

  /** What a round does not write to. */
  ghost function Others(round: Round, m: nat, placed: seq<Placed>): iset<Id>
    requires ArePlaced(m, placed)
  {
    iset id: Id | id !in AllRoundIds(round, m, placed)
  }

  lemma PartIsNoOther(m: nat, p: Placed, s: Slot, part: Part)
    requires IsPlaced(m, p) && IsSlot(m, s) && IsPart(s, part) && p.slot != s
    ensures SlotId(m, s, part) !in PartsOf(m, p.slot)
  {
    hide SlotId;
    forall part' | IsPart(p.slot, part') ensures SlotId(m, p.slot, part') != SlotId(m, s, part) {
      SlotIdsAreDistinct(m, p.slot, part', m, s, part);
    }
  }

  lemma {:induction false} HiddenIsNotNamed(m: nat, placed: seq<Placed>, s: Slot, part: Part)
    requires ArePlaced(m, placed) && IsSlot(m, s) && IsPart(s, part) &&
             forall i :: 0 <= i < |placed| ==> placed[i].slot != s
    ensures SlotId(m, s, part) in Others(LessonRows, m, placed)
  {
    hide SlotId, PartsOf;
    if placed != [] {
      HiddenIsNotNamed(m, placed[1..], s, part);
      PartIsNoOther(m, placed[0], s, part);
    }
  }

  lemma HiddenIdsAreOthers(m: nat, placed: seq<Placed>, part: Part)
    requires ArePlaced(m, placed) && !part.JoinPart? && !part.QuestionPart?
    ensures forall id :: id in HiddenIds(m, Named(placed), part) ==> id in Others(LessonRows, m, placed)
  {
    hide SlotId, IsPlaced, Others;
    forall s | s in AllSlots(m) && s !in Named(placed) ensures SlotId(m, s, part) in Others(LessonRows, m, placed) {
      assert forall i :: 0 <= i < |placed| ==> placed[i].slot in Named(placed);
      HiddenIsNotNamed(m, placed, s, part);
    }
  }

  lemma HideLessonsFit(m: nat, placed: seq<Placed>)
    requires ArePlaced(m, placed)
    ensures Separate(HideLessons(m, Named(placed))) &&
            Within(HideLessons(m, Named(placed)), Others(LessonRows, m, placed), LESSON_TABLES, false)
  {
    hide Separate, Within, HideStep, Named, HiddenIds, Others, IsPlaced;
    var named, zone := Named(placed), Others(LessonRows, m, placed);
    HiddenIdsAreOthers(m, placed, LessonPart);
    HiddenIdsAreOthers(m, placed, DocPart);
    HiddenIdsAreOthers(m, placed, LearningPart);
    HiddenIdsAreOthers(m, placed, PracticePart);
    HiddenIdsAreOthers(m, placed, QuizPart);
    NoStepsFit([], zone, {}, false);
    HideBeside([], {}, zone, Lessons, HiddenIds(m, named, LessonPart), DeletedCol, Int(1), {Lessons});
    var a := HideStep(Lessons, HiddenIds(m, named, LessonPart), DeletedCol, Int(1));
    assert [] + a == a;
    HideBeside(a, {Lessons}, zone, Documents, HiddenIds(m, named, DocPart), DeletedCol, Int(1), {Lessons, Documents});
    var b := a + HideStep(Documents, HiddenIds(m, named, DocPart), DeletedCol, Int(1));
    HideBeside(b, {Lessons, Documents}, zone, LessonLearnings, HiddenIds(m, named, LearningPart), StatusCol, Int(0),
               {Lessons, Documents, LessonLearnings});
    var d := b + HideStep(LessonLearnings, HiddenIds(m, named, LearningPart), StatusCol, Int(0));
    HideBeside(d, {Lessons, Documents, LessonLearnings}, zone, LessonPractices, HiddenIds(m, named, PracticePart),
               StatusCol, Int(0), {Lessons, Documents, LessonLearnings, LessonPractices});
    var e := d + HideStep(LessonPractices, HiddenIds(m, named, PracticePart), StatusCol, Int(0));
    HideBeside(e, {Lessons, Documents, LessonLearnings, LessonPractices}, zone, LessonQuizzes,
               HiddenIds(m, named, QuizPart), StatusCol, Int(0), LESSON_TABLES);
  }

  lemma {:induction false} JoinRowIdsAreUsedJoins(m: nat, placed: seq<Placed>, id: Id)
    requires ArePlaced(m, placed)
    ensures id in AllRoundIds(JoinRows, m, placed) <==>
            id in UsedJoins(m, placed, Practice) || id in UsedJoins(m, placed, Quiz)
  {
    hide FirstJoins;
    if placed != [] {
      JoinRowIdsAreUsedJoins(m, placed[1..], id);
    }
  }

  lemma FirstJoinsOfOneKind(m: nat, p: Placed, kind: Kind, other: Kind, id: Id)
    requires IsPlaced(m, p) && kind != other && id in JoinIds(m, kind)
    ensures id !in FirstJoins(m, p.slot, other, |IdsOfKind(p, other)|)
  {
    hide SlotId, FirstJoins, AllSlots;
    var s :| s in AllSlots(m) && id in FourOf(m, s, true, kind);
    var j :| IsPlace(j) && id == SlotId(m, s, PlacePart(true, kind, j));
    forall j' | IsPlace(j') ensures id != SlotId(m, p.slot, JoinPart(other, j')) {
      SlotIdsAreDistinct(m, s, JoinPart(kind, j), m, p.slot, JoinPart(other, j'));
    }
  }

  lemma {:induction false} JoinOfOneKind(m: nat, placed: seq<Placed>, kind: Kind, other: Kind, id: Id)
    requires ArePlaced(m, placed) && kind != other && id in JoinIds(m, kind)
    ensures id !in UsedJoins(m, placed, other)
  {
    hide SlotId, FirstJoins, JoinIds, IsPlaced;
    if placed != [] {
      FirstJoinsOfOneKind(m, placed[0], kind, other, id);
      JoinOfOneKind(m, placed[1..], kind, other, id);
    }
  }

  lemma HideJoinsFit(m: nat, placed: seq<Placed>)
    requires ArePlaced(m, placed)
    ensures Separate(HideJoins(m, placed)) &&
            Within(HideJoins(m, placed), Others(JoinRows, m, placed), JOIN_TABLES, false)
  {
    hide Separate, Within, HideStep, JoinIds, UsedJoins, AllRoundIds, IsPlaced;
    var zone := Others(JoinRows, m, placed);
    var practice, quiz := JoinIds(m, Practice) - UsedJoins(m, placed, Practice),
        JoinIds(m, Quiz) - UsedJoins(m, placed, Quiz);
    forall id | id in practice ensures id in zone {
      JoinRowIdsAreUsedJoins(m, placed, id);
      JoinOfOneKind(m, placed, Practice, Quiz, id);
    }
    forall id | id in quiz ensures id in zone {
      JoinRowIdsAreUsedJoins(m, placed, id);
      JoinOfOneKind(m, placed, Quiz, Practice, id);
    }
    NoStepsFit([], zone, {}, false);
    var a := HideStep(PracticeQuestions, practice, StatusCol, Int(0));
    HideBeside([], {}, zone, PracticeQuestions, practice, StatusCol, Int(0), {PracticeQuestions});
    assert [] + a == a;
    HideBeside(a, {PracticeQuestions}, zone, QuizQuestions, quiz, StatusCol, Int(0), JOIN_TABLES);
  }

  lemma {:induction false} QuestionRowIdsAreAssigned(m: nat, placed: seq<Placed>, id: Id)
    requires ArePlaced(m, placed)
    ensures id in AllRoundIds(QuestionRows, m, placed) <==> id in Assigned(placed)
  {
    if placed != [] {
      QuestionRowIdsAreAssigned(m, placed[1..], id);
    }
  }

  lemma HideQuestionsFit(m: nat, placed: seq<Placed>)
    requires ArePlaced(m, placed)
    ensures var steps := HideStep(Questions, QuestionIds(m) - Assigned(placed), DeletedCol, Int(1));
            Separate(steps) && Within(steps, Others(QuestionRows, m, placed), {Questions}, false)
  {
    hide Separate, Within, HideStep, QuestionIds, Assigned, AllRoundIds, IsPlaced;
    var ids := QuestionIds(m) - Assigned(placed);
    forall id | id in ids ensures id in Others(QuestionRows, m, placed) {
      QuestionRowIdsAreAssigned(m, placed, id);
    }
    HideFits(Questions, ids, DeletedCol, Int(1));
    WithinGrows(HideStep(Questions, ids, DeletedCol, Int(1)), (iset id | id in ids), Others(QuestionRows, m, placed),
                {Questions}, {Questions}, false);
  }

  lemma HidesFit(m: nat, placed: seq<Placed>)
    requires ArePlaced(m, placed)
    ensures Separate(HideSteps(m, placed)) &&
            Within(HideSteps(m, placed), ANY_ID, LESSON_TABLES + JOIN_TABLES + {Questions}, false)
  {
    hide Separate, Within, HideLessons, HideJoins, HideStep, Others, IsPlaced, QuestionIds, Assigned, Named, JoinIds,
         UsedJoins, AllRoundIds;
    var lessons, joins, questions := HideLessons(m, Named(placed)), HideJoins(m, placed),
        HideStep(Questions, QuestionIds(m) - Assigned(placed), DeletedCol, Int(1));
    HideLessonsFit(m, placed);
    HideJoinsFit(m, placed);
    HideQuestionsFit(m, placed);
    WithinGrows(lessons, Others(LessonRows, m, placed), ANY_ID, LESSON_TABLES, LESSON_TABLES, false);
    BesideFits(lessons, LESSON_TABLES, joins, Others(JoinRows, m, placed), JOIN_TABLES, false);
    BesideFits(lessons + joins, LESSON_TABLES + JOIN_TABLES, questions, Others(QuestionRows, m, placed), {Questions},
               false);
  }

  lemma AllApartFromJoin(a: seq<Step>, b: seq<Step>, c: seq<Step>)
    requires AllApart(a, b) && AllApart(a, c)
    ensures AllApart(a, b + c)
  {
    hide Apart;
  }

  /** A round of rows beside the hides: by table, or by id in its own tables. */
  lemma RoundBesideHides(round: Round, m: nat, f: Flags, placed: seq<Placed>)
    requires WellPlaced(m, placed) && !RoundWritesTexts(round)
    ensures AllApart(ForEach(round, m, f, placed), HideSteps(m, placed))
  {
    hide Separate, Within, HideLessons, HideJoins, HideStep, ForEach, AllApart, IsPlaced, AskApart, AsksFrom,
         AllRoundIds, QuestionIds, Assigned, Named;
    var steps, ids, tables := ForEach(round, m, f, placed), AllRoundIds(round, m, placed), RoundTables(round);
    ForEachFits(round, m, f, placed);
    HideLessonsFit(m, placed);
    HideJoinsFit(m, placed);
    HideQuestionsFit(m, placed);
    var lessons, joins, questions := HideLessons(m, Named(placed)), HideJoins(m, placed),
        HideStep(Questions, QuestionIds(m) - Assigned(placed), DeletedCol, Int(1));
    ZonesAreApart(steps, ids, tables, false, lessons, Others(LessonRows, m, placed), LESSON_TABLES, false);
    ZonesAreApart(steps, ids, tables, false, joins, Others(JoinRows, m, placed), JOIN_TABLES, false);
    ZonesAreApart(steps, ids, tables, false, questions, Others(QuestionRows, m, placed), {Questions}, false);
    AllApartFromJoin(steps, lessons, joins);
    AllApartFromJoin(steps, lessons + joins, questions);
  }

  lemma RowsBesideHides(c: Content, f: Flags, placed: seq<Placed>, status: int, levelPoints: int, gradePoints: int)
    requires c.number >= 0 && WellPlaced(c.number, placed)
    ensures AllApart(RowSteps(c, f, placed, status, levelPoints, gradePoints), HideSteps(c.number, placed))
  {
    hide Separate, Within, HideSteps, ForEach, ProgrammeSteps, AllApart, IsPlaced, AskApart, AsksFrom;
    var m := c.number;
    var programme, hides := ProgrammeSteps(c, f, status, levelPoints, gradePoints), HideSteps(m, placed);
    var lessons, questions, joins := ForEach(LessonRows, m, f, placed), ForEach(QuestionRows, m, f, placed),
        ForEach(JoinRows, m, f, placed);
    ProgrammeFits(c, f, status, levelPoints, gradePoints);
    HidesFit(m, placed);
    ZonesAreApart(programme, ANY_ID, PROGRAMME_TABLES, false, hides, ANY_ID, LESSON_TABLES + JOIN_TABLES + {Questions},
                  false);
    RoundBesideHides(LessonRows, m, f, placed);
    RoundBesideHides(QuestionRows, m, f, placed);
    RoundBesideHides(JoinRows, m, f, placed);
    AllApartJoins(programme, lessons, hides);
    AllApartJoins(programme + lessons, questions, hides);
    AllApartJoins(programme + lessons + questions, joins, hides);
  }

  /**
   No two steps of the plan of an acceptable file touch the same row or the same text: upserts and hides are disjoint.
   */
  lemma PlanTouchesDifferentRows(c: Content, f: Flags, status: int, levelPoints: int, gradePoints: int)
    requires Acceptable(c)
    ensures ArePlaced(c.number, PlacedOf(c)) && Separate(PlanSteps(c, f, PlacedOf(c), status, levelPoints, gradePoints))
  {
    hide Separate, Within, HideSteps, RowSteps, TextSteps, AllApart, IsPlaced, AskApart, AsksFrom, PlacedOf, LessonsOk;
    var m, placed := c.number, PlacedOf(c);
    AcceptableIsWellPlaced(c);
    var rows, texts, hides := RowSteps(c, f, placed, status, levelPoints, gradePoints), TextSteps(c, f, placed),
        HideSteps(m, placed);
    RowsFit(c, f, placed, status, levelPoints, gradePoints);
    AllTextsFit(c, f, placed);
    HidesFit(m, placed);
    RowsBesideHides(c, f, placed, status, levelPoints, gradePoints);
    ZonesAreApart(rows, ANY_ID, PROGRAMME_TABLES + LESSON_TABLES + {Questions} + JOIN_TABLES, false, texts, ANY_ID,
                  PROGRAMME_TABLES + LESSON_TABLES + {Questions}, true);
    ZonesAreApart(texts, ANY_ID, PROGRAMME_TABLES + LESSON_TABLES + {Questions}, true, hides, ANY_ID,
                  LESSON_TABLES + JOIN_TABLES + {Questions}, false);
    JoinSeparate(rows, texts);
    AllApartJoins(rows, texts, hides);
    JoinSeparate(rows + texts, hides);
  }
}
