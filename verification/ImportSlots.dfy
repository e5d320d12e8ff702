/**
 The ids an import writes to. Module 1 has the seed's fixed ids; every other id is a version-5 UUID of a role path in
 its module (RFC 4122, section 4.3), here a value built from the path itself, so that different paths give different
 ids.
 */
module ImportSlots {

  datatype Kind = Practice | Quiz

  datatype Table =
    | Curriculums | Grades | Levels | Lessons | Documents | LessonLearnings | LessonPractices | LessonQuizzes
    | Questions | PracticeQuestions | QuizQuestions

  datatype Part =
    | LessonPart | DocPart | LearningPart | PracticePart | QuizPart
    | JoinPart(joins: Kind, place: nat)
    | QuestionPart(asks: Kind, place: nat)

  datatype Role = LevelRole | SlotRole(n: nat, part: Part) | TranslationRole(key: TKey)

  datatype Field = NameField | QuestionTextField | HeadingField | OptionField | FeedbackField

  datatype Subkey = Whole | OptionKey(question: Id, n: nat) | Message(correct: bool)

  datatype TKey = TKey(table: Table, row: Id, field: Field, subkey: Subkey)

  /**
   `Seed(n)` is the n-th id of the seed's own namespace; `Derived` a role path of a module; `Digest` a translation key's
   hash.
   */
  datatype Id = Seed(n: nat) | Derived(m: nat, role: Role) | Digest(key: TKey) | Other(s: string)

  const CURRICULUM: Id := Seed(0x03)
  const SUBJECT: Id := Seed(0x02)
  const GRADE: Id := Seed(0x05)
  const LAST_SEED_ID := 0x31
  const SETS_PER_LESSON := 4
  const LESSONS_PER_MODULE := 12

  /** A lesson's place in its module: one of Module 1's fixed four, or one known by its order. */
  datatype Slot = Fixed(n: nat) | Further(n: nat)

  predicate IsSlot(m: nat, s: Slot) {
    match s
    case Fixed(n) => m == 1 && 1 <= n <= 4
    case Further(n) => FirstFurther(m) <= n <= LESSONS_PER_MODULE
  }

  function FirstFurther(m: nat): nat {
    if m == 1 then 2 else 1
  }

  function FurtherSlots(m: nat): (r: seq<Slot>)
    ensures forall s :: s in r <==> s.Further? && IsSlot(m, s)
  {
    var r := seq(LESSONS_PER_MODULE + 1 - FirstFurther(m), i requires 0 <= i => Further(FirstFurther(m) + i));
    assert forall s: Slot :: s.Further? && IsSlot(m, s) ==> r[s.n - FirstFurther(m)] == s;
    r
  }

  function AllSlots(m: nat): (r: seq<Slot>)
    ensures forall s :: s in r <==> IsSlot(m, s)
  {
    if m == 1 then
      var fixed := [Fixed(1), Fixed(2), Fixed(3), Fixed(4)];
      assert forall s: Slot :: s.Fixed? && IsSlot(1, s) ==> s == fixed[s.n - 1];
      fixed + FurtherSlots(m)
    else FurtherSlots(m)
  }

  function LevelId(m: nat): Id {
    if m == 1 then Seed(0x06) else Derived(m, LevelRole)
  }

  predicate IsPlace(j: nat) {
    1 <= j <= SETS_PER_LESSON
  }

  predicate IsPart(s: Slot, part: Part) {
    match part
    case JoinPart(_, j) => IsPlace(j)
    case QuestionPart(_, j) => s.Further? && IsPlace(j)
    case _ => true
  }

  /** The join rows the seed made for a fixed lesson's quiz: how many, and the first of them. */
  function SeededQuizJoins(n: nat): (nat, nat) {
    if n == 1 then (1, 0x2b) else if n == 2 then (2, 0x2c) else if n == 3 then (3, 0x2e) else (1, 0x31)
  }

  /**
   The first id after the seed's own that a fixed lesson takes: its practice takes three, its quiz what is missing to
   four.
   */
  function FirstExtra(n: nat): nat
    requires 1 <= n
  {
    if n == 1 then LAST_SEED_ID + 1 else FirstExtra(n - 1) + 3 + (SETS_PER_LESSON - SeededQuizJoins(n - 1).0)
  }

  function FixedId(n: nat, part: Part): Id
    requires 1 <= n <= 4 && IsPart(Fixed(n), part)
  {
    match part
    case LessonPart => Seed(0x07 + n)
    case DocPart => Seed(0x0b + n)
    case LearningPart => Seed(0x0f + n)
    case PracticePart => Seed(0x13 + n)
    case QuizPart => Seed(0x17 + n)
    case JoinPart(kind, j) =>
      if kind == Practice then if j == 1 then Seed(0x26 + n) else Seed(FirstExtra(n) + j - 2)
      else
        var (count, first) := SeededQuizJoins(n);
        if j <= count then Seed(first + j - 1) else Seed(FirstExtra(n) + 3 + j - 1 - count)
  }

  function SlotId(m: nat, s: Slot, part: Part): Id
    requires IsSlot(m, s) && IsPart(s, part)
  {
    if s.Fixed? then FixedId(s.n, part) else Derived(m, SlotRole(s.n, part))
  }

  /** The seven question ids that Module 1's fixed lessons draw from. */
  const POOL: seq<Id> := [Seed(0x20), Seed(0x21), Seed(0x22), Seed(0x23), Seed(0x24), Seed(0x25), Seed(0x26)]

  /** A further lesson's own question id, of this kind. */
  predicate IsFurtherQuestion(m: nat, kind: Kind, id: Id) {
    id.Derived? && id.m == m && id.role.SlotRole? && id.role.part.QuestionPart? && id.role.part.asks == kind &&
    IsSlot(m, Further(id.role.n)) && IsPlace(id.role.part.place)
  }

  predicate IsQuestionId(m: nat, id: Id) {
    (m == 1 && id in POOL) || IsFurtherQuestion(m, Practice, id) || IsFurtherQuestion(m, Quiz, id)
  }

  function PlacePart(join: bool, kind: Kind, j: nat): Part {
    if join then JoinPart(kind, j) else QuestionPart(kind, j)
  }

  function FourOf(m: nat, s: Slot, join: bool, kind: Kind): (r: set<Id>)
    requires IsSlot(m, s) && (join || s.Further?)
    ensures forall id :: id in r <==> exists j :: IsPlace(j) && id == SlotId(m, s, PlacePart(join, kind, j))
  {
    assert IsPlace(1) && IsPlace(2) && IsPlace(3) && IsPlace(4);
    {SlotId(m, s, PlacePart(join, kind, 1)), SlotId(m, s, PlacePart(join, kind, 2)),
     SlotId(m, s, PlacePart(join, kind, 3)), SlotId(m, s, PlacePart(join, kind, 4))}
  }

  /** The four joins, or the four questions, of a kind of every slot. */
  function FourOfEach(m: nat, slots: seq<Slot>, join: bool, kind: Kind): (r: set<Id>)
    requires forall s :: s in slots ==> IsSlot(m, s) && (join || s.Further?)
    ensures forall id :: id in r <==> exists s :: s in slots && id in FourOf(m, s, join, kind)
  {
    if slots == [] then {} else FourOf(m, slots[0], join, kind) + FourOfEach(m, slots[1..], join, kind)
  }

  function JoinIds(m: nat, kind: Kind): set<Id> {
    FourOfEach(m, AllSlots(m), true, kind)
  }

  /** Every question id of a module: the pool, for Module 1, and each further lesson's own. */
  function QuestionIds(m: nat): set<Id> {
    (if m == 1 then set id | id in POOL else {}) + FourOfEach(m, FurtherSlots(m), false, Practice) +
    FourOfEach(m, FurtherSlots(m), false, Quiz)
  }

  lemma FurtherQuestionIdsAre(m: nat, kind: Kind, id: Id)
    ensures id in FourOfEach(m, FurtherSlots(m), false, kind) <==> IsFurtherQuestion(m, kind, id)
  {
    hide FourOfEach, FurtherSlots;
    if IsFurtherQuestion(m, kind, id) {
      var n, j := id.role.n, id.role.part.place;
      assert Further(n) in FurtherSlots(m) && id == SlotId(m, Further(n), PlacePart(false, kind, j));
      assert id in FourOf(m, Further(n), false, kind);
    }
    if id in FourOfEach(m, FurtherSlots(m), false, kind) {
      var s :| s in FurtherSlots(m) && id in FourOf(m, s, false, kind);
      var j :| IsPlace(j) && id == SlotId(m, s, PlacePart(false, kind, j));
      assert s == Further(s.n);
    }
  }

  lemma QuestionIdsAre(m: nat, id: Id)
    ensures id in QuestionIds(m) <==> IsQuestionId(m, id)
  {
    hide FourOfEach, FurtherSlots;
    FurtherQuestionIdsAre(m, Practice, id);
    FurtherQuestionIdsAre(m, Quiz, id);
  }

  /** The ids of one lesson, as the slots list them. */
  datatype SlotIds = SlotIds(n: nat, id: Id, doc: Id, learning: Id, practice: Id, quiz: Id, practiceJoins: seq<Id>,
                             quizJoins: seq<Id>)

  function IdsOf(m: nat, s: Slot): SlotIds
    requires IsSlot(m, s)
  {
    SlotIds(s.n, SlotId(m, s, LessonPart), SlotId(m, s, DocPart), SlotId(m, s, LearningPart),
            SlotId(m, s, PracticePart), SlotId(m, s, QuizPart),
            seq(SETS_PER_LESSON, j requires 0 <= j < SETS_PER_LESSON => SlotId(m, s, JoinPart(Practice, j + 1))),
            seq(SETS_PER_LESSON, j requires 0 <= j < SETS_PER_LESSON => SlotId(m, s, JoinPart(Quiz, j + 1))))
  }

  /**
   Module 1's fixed lessons: each keeps the joins the seed gave it and takes the next unused ids up to four of a kind.
   */
  method FixedLessons() returns (lessons: seq<SlotIds>)
    ensures |lessons| == 4 && forall i :: 0 <= i < 4 ==> lessons[i] == IdsOf(1, Fixed(i + 1))
  {
    var extra := LAST_SEED_ID + 1;
    lessons := [];
    for n := 1 to 5
      invariant |lessons| == n - 1 && extra == FirstExtra(n)
      invariant forall i :: 0 <= i < n - 1 ==> lessons[i] == IdsOf(1, Fixed(i + 1))
    {
      var practiceJoins := [Seed(0x26 + n)];
      while |practiceJoins| < SETS_PER_LESSON
        invariant 1 <= |practiceJoins| <= SETS_PER_LESSON && extra == FirstExtra(n) + |practiceJoins| - 1
        invariant forall j :: 0 <= j < |practiceJoins| ==> practiceJoins[j] == FixedId(n, JoinPart(Practice, j + 1))
      {
        practiceJoins := practiceJoins + [Seed(extra)];
        extra := extra + 1;
      }
      var (count, first) := SeededQuizJoins(n);
      var quizJoins := seq(count, j requires 0 <= j => Seed(first + j));
      while |quizJoins| < SETS_PER_LESSON
        invariant count <= |quizJoins| <= SETS_PER_LESSON && extra == FirstExtra(n) + 3 + |quizJoins| - count
        invariant forall j :: 0 <= j < |quizJoins| ==> quizJoins[j] == FixedId(n, JoinPart(Quiz, j + 1))
      {
        quizJoins := quizJoins + [Seed(extra)];
        extra := extra + 1;
      }
      lessons := lessons + [SlotIds(n, Seed(0x07 + n), Seed(0x0b + n), Seed(0x0f + n), Seed(0x13 + n), Seed(0x17 + n),
                                    practiceJoins, quizJoins)];
      assert practiceJoins == IdsOf(1, Fixed(n)).practiceJoins && quizJoins == IdsOf(1, Fixed(n)).quizJoins;
    }
  }

  lemma FirstExtras()
    ensures FirstExtra(1) == 0x32 && FirstExtra(2) == 0x38 && FirstExtra(3) == 0x3d && FirstExtra(4) == 0x41
  {
  }

  lemma FixedIdsAreDistinct(n: nat, part: Part, n': nat, part': Part)
    requires 1 <= n <= 4 && 1 <= n' <= 4 && IsPart(Fixed(n), part) && IsPart(Fixed(n'), part')
    requires FixedId(n, part) == FixedId(n', part')
    ensures n == n' && part == part'
  {
    hide FirstExtra;
    FirstExtras();
    if part.JoinPart? && part'.JoinPart? { FixedJoinsAreDistinct(n, part, n', part'); }
  }

  lemma FixedJoinsAreDistinct(n: nat, part: Part, n': nat, part': Part)
    requires 1 <= n <= 4 && 1 <= n' <= 4 && part.JoinPart? && part'.JoinPart?
    requires IsPart(Fixed(n), part) && IsPart(Fixed(n'), part') && FixedId(n, part) == FixedId(n', part')
    ensures n == n' && part == part'
  {
    hide FirstExtra;
    FirstExtras();
  }

  /**
   No two slots, and no two parts of a slot, share an id, and none is a curriculum's, a grade's, a level's or a pooled
   question's.
   */
  lemma SlotIdsAreDistinct(m: nat, s: Slot, part: Part, m': nat, s': Slot, part': Part)
    requires IsSlot(m, s) && IsPart(s, part) && IsSlot(m', s') && IsPart(s', part')
    ensures SlotId(m, s, part) == SlotId(m', s', part') ==> m == m' && s == s' && part == part'
    ensures SlotId(m, s, part) != LevelId(m') && SlotId(m, s, part) !in POOL
    ensures SlotId(m, s, part) != CURRICULUM && SlotId(m, s, part) != GRADE
  {
    hide FirstExtra;
    FirstExtras();
    if s.Fixed? && s'.Fixed? && SlotId(m, s, part) == SlotId(m', s', part') {
      FixedIdsAreDistinct(s.n, part, s'.n, part');
    }
  }

  /** Every id of a module: its level's, its lessons' and its questions'. */
  ghost predicate OwnId(m: nat, id: Id) {
    id == LevelId(m) || (m == 1 && id in POOL) ||
    exists s, part :: IsSlot(m, s) && IsPart(s, part) && id == SlotId(m, s, part)
  }

  /** The checks that the ids of a module are no other module's, and not the seed's own, can never fail. */
  lemma ModulesShareNoId(m: nat, m': nat, id: Id)
    requires OwnId(m, id) && OwnId(m', id)
    ensures m == m'
    ensures id.Derived? ==> id.m == m
    ensures m != 1 ==> id.Derived?
  {
    hide FirstExtra;
    FirstExtras();
    if s, part :| IsSlot(m, s) && IsPart(s, part) && id == SlotId(m, s, part) {
      if s', part' :| IsSlot(m', s') && IsPart(s', part') && id == SlotId(m', s', part') {
        SlotIdsAreDistinct(m, s, part, m', s', part');
      } else {
        SlotIdsAreDistinct(m, s, part, m, s, part);
        SlotIdsAreDistinct(m, s, part, m', s, part);
      }
    } else if s', part' :| IsSlot(m', s') && IsPart(s', part') && id == SlotId(m', s', part') {
      SlotIdsAreDistinct(m', s', part', m, s', part');
    }
  }
}
