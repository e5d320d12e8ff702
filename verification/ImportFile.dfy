/** Where the things of a content file go: the ids of a lesson's rows and of its questions, told by the file alone. */
module ImportFile {
  import opened Values
  import opened ImportSlots
  import opened ImportContent
  import opened ImportSteps
  import opened ImportPlan
  import opened ImportRows

  // ---- the rows of a lesson ----------------------------------------------------------------------

  /** How far the rows of a fixed lesson's parts lie from the lesson's own id: four lessons of each kind. */
  function Offset(part: Part): nat {
    match part
    case DocPart => 4
    case LearningPart => 8
    case PracticePart => 12
    case QuizPart => 16
    case _ => 0
  }

  predicate IsMain(part: Part) {
    part in {LessonPart, DocPart, LearningPart, PracticePart, QuizPart}
  }

  /** A lesson with an id keeps the seed's rows; any other is known by its order. */
  function RowId(m: nat, l: Lesson, part: Part): Id {
    if l.id.Some? then (if l.id.value.Seed? then Seed(l.id.value.n + Offset(part)) else l.id.value)
    else Derived(m, SlotRole(if l.order >= 0 then l.order else 0, part))
  }

  lemma RowIdIs(m: nat, l: Lesson, part: Part)
    requires PlaceOk(m, l) && IsMain(part)
    ensures IsSlot(m, SlotOf(l)) && RowId(m, l, part) == SlotId(m, SlotOf(l), part)
  {
  }

  // ---- its questions -----------------------------------------------------------------------------

  /** How many questions the lessons with an id, and of a smaller order, have. */
  function AskedBefore(lessons: seq<Lesson>, order: int): nat {
    if lessons == [] then 0
    else (if lessons[0].id.Some? && lessons[0].order < order then |lessons[0].practice| + |lessons[0].quiz| else 0) +
         AskedBefore(lessons[1..], order)
  }

  function SetIn(l: Lesson, kind: Kind): seq<Question> {
    if kind == Practice then l.practice else l.quiz
  }

  /**
   The id of a lesson's j-th question of a kind: its own, by place; or, for the lessons with an id, the next of the
   seed's seven, in order of the lessons, practice before quiz.
   */
  function AskedId(m: nat, lessons: seq<Lesson>, l: Lesson, kind: Kind, j: nat): Id {
    if l.id.None? then Derived(m, SlotRole(if l.order >= 0 then l.order else 0, QuestionPart(kind, j + 1)))
    else
      var k := AskedBefore(lessons, l.order) + (if kind == Quiz then |l.practice| else 0) + j;
      Seed(0x20 + k)
  }

  lemma {:induction false} AskedBeforeInsert(l: Lesson, list: seq<Lesson>, order: int)
    ensures AskedBefore(InsertByOrder(l, list), order) == AskedBefore([l] + list, order)
  {
    assert ([l] + list)[1..] == list;
    if list != [] && l.order > list[0].order {
      AskedBeforeInsert(l, list[1..], order);
      assert ([l] + list[1..])[1..] == list[1..];
      var rest := InsertByOrder(l, list[1..]);
      assert ([list[0]] + rest)[1..] == rest;
    }
  }

  lemma {:induction false} AskedBeforeByOrder(lessons: seq<Lesson>, order: int)
    ensures AskedBefore(ByOrder(lessons), order) == AskedBefore(lessons, order)
  {
    if lessons != [] {
      AskedBeforeByOrder(lessons[1..], order);
      AskedBeforeInsert(lessons[0], ByOrder(lessons[1..]), order);
      var rest := ByOrder(lessons[1..]);
      assert ([lessons[0]] + rest)[1..] == rest;
    }
  }

  /** In a list by order, without two of one order, the lessons before the i-th are those of a smaller order. */
  lemma {:induction false} NoneAskedBefore(list: seq<Lesson>, order: int)
    requires forall i :: 0 <= i < |list| ==> list[i].order >= order
    ensures AskedBefore(list, order) == 0
  {
    if list != [] { NoneAskedBefore(list[1..], order); }
  }

  function NextFree(l: Lesson, next: nat): nat {
    if SlotOf(l).Fixed? then next + |l.practice| + |l.quiz| else next
  }

  lemma PlaceRest(m: nat, list: seq<Lesson>, next: nat, i: nat)
    requires 0 < i < |list|
    ensures Place(m, list, next)[i] == Place(m, list[1..], NextFree(list[0], next))[i - 1]
  {
  }

  lemma FirstHandsOut(m: nat, list: seq<Lesson>, next: nat, kind: Kind, j: nat)
    requires list != [] && j < |SetIn(list[0], kind)| && PlaceOk(m, list[0])
    ensures var ids := IdsOfKind(Place(m, list, next)[0], kind);
            j < |ids| &&
            ids[j] == if list[0].id.None? then AskedId(m, list, list[0], kind, j)
                      else
                        var k := next + (if kind == Quiz then |list[0].practice| else 0) + j;
                        if k < |POOL| then POOL[k] else Other("undefined")
  {
  }

  /** In order, no order twice, each lesson in a place of its own kind. */
  ghost predicate IsSorted(m: nat, list: seq<Lesson>) {
    Ascends(list) && (forall a, b :: 0 <= a < b < |list| ==> list[a].order != list[b].order) &&
    forall i :: 0 <= i < |list| ==> PlaceOk(m, list[i])
  }

  lemma SortedRest(m: nat, list: seq<Lesson>, i: nat)
    requires IsSorted(m, list) && 0 < i < |list|
    ensures IsSorted(m, list[1..]) && list[1..][i - 1] == list[i] && list[0].order < list[i].order
    ensures list[0].id.Some? <==> SlotOf(list[0]).Fixed?
  {
    assert Ascends(list[1..]);
  }

  lemma SortedFirst(m: nat, list: seq<Lesson>)
    requires IsSorted(m, list) && list != []
    ensures PlaceOk(m, list[0]) && AskedBefore(list, list[0].order) == 0
  {
    NoneAskedBefore(list, list[0].order);
  }

  /** What `Place` hands out: a fixed lesson's questions draw on the pool from where the lessons before it stopped. */
  lemma {:induction false} PlaceHandsOut(m: nat, list: seq<Lesson>, next: nat, i: nat, kind: Kind, j: nat)
    requires IsSorted(m, list) && i < |list| && j < |SetIn(list[i], kind)|
    ensures j < |IdsOfKind(Place(m, list, next)[i], kind)|
    ensures IdsOfKind(Place(m, list, next)[i], kind)[j] ==
            if list[i].id.None? then AskedId(m, list, list[i], kind, j)
            else
              var k := next + AskedBefore(list, list[i].order) + (if kind == Quiz then |list[i].practice| else 0) + j;
              if k < |POOL| then POOL[k] else Other("undefined")
  {
    hide Place, PlaceOk, SlotOf, IdsOfKind, IsSorted, SetIn;
    if i == 0 {
      SortedFirst(m, list);
      FirstHandsOut(m, list, next, kind, j);
    } else {
      var l, rest := list[0], list[1..];
      SortedRest(m, list, i);
      PlaceRest(m, list, next, i);
      PlaceHandsOut(m, rest, NextFree(l, next), i - 1, kind, j);
      if list[i].id.None? { OwnIdIgnoresTheList(m, rest, list, list[i], kind, j); }
    }
  }

  lemma OrdersAreDistinct(lessons: seq<Lesson>, list: seq<Lesson>)
    requires Distinct(Orders(lessons)) && multiset(lessons) == multiset(list)
    ensures forall a, b :: 0 <= a < b < |list| ==> list[a].order != list[b].order
  {
    forall i, j | 0 <= i < j < |lessons| ensures lessons[i] != lessons[j] {
      assert Orders(lessons)[i] != Orders(lessons)[j];
    }
    SameElementsDistinct(lessons, list);
    forall a, b | 0 <= a < b < |list| ensures list[a].order != list[b].order {
      assert list[a] in multiset(list) && list[b] in multiset(list) && list[a] != list[b];
      var i :| 0 <= i < |lessons| && lessons[i] == list[a];
      var j :| 0 <= j < |lessons| && lessons[j] == list[b];
      assert Orders(lessons)[i] != Orders(lessons)[j] by {
        if i < j {
          assert Orders(lessons)[i] != Orders(lessons)[j];
          } else { assert Orders(lessons)[j] != Orders(lessons)[i];
        }
      }
    }
  }

  lemma FileIsSorted(c: Content)
    requires Acceptable(c)
    ensures IsSorted(c.number, ByOrder(c.lessons))
  {
    hide PlaceOk, SetOk, ByOrder;
    var list := ByOrder(c.lessons);
    LessonsOkParts(c.number, c.lessons);
    ByOrderAscends(c.lessons);
    OrdersAreDistinct(c.lessons, list);
    forall i | 0 <= i < |list| ensures PlaceOk(c.number, list[i]) {
      assert list[i] in multiset(list);
    }
  }

  lemma PlacedAt(c: Content, i: nat)
    requires Acceptable(c) && i < |PlacedOf(c)|
    ensures i < |ByOrder(c.lessons)| && PlacedOf(c)[i] == Place(c.number, ByOrder(c.lessons), 0)[i]
    ensures PlacedOf(c)[i].lesson == ByOrder(c.lessons)[i] && PlacedOf(c)[i].lesson in c.lessons
  {
    hide LessonsOk, Place;
    assert ByOrder(c.lessons)[i] in multiset(c.lessons);
  }

  /** The questions of an acceptable file get the ids the file says, and the pool is never overdrawn. */
  lemma QuestionsGetTheirIds(c: Content, i: nat, kind: Kind, j: nat)
    requires Acceptable(c) && i < |PlacedOf(c)| && j < |SetIn(PlacedOf(c)[i].lesson, kind)|
    ensures j < |IdsOfKind(PlacedOf(c)[i], kind)|
    ensures IdsOfKind(PlacedOf(c)[i], kind)[j] == AskedId(c.number, c.lessons, PlacedOf(c)[i].lesson, kind, j)
  {
    hide LessonsOk, AskedBefore, Place, Pooled, IsSorted, PlacedOf, IdsOfKind, SetIn, ByOrder;
    var m, list := c.number, ByOrder(c.lessons);
    FileIsSorted(c);
    PlacedAt(c, i);
    PlaceHandsOut(m, list, 0, i, kind, j);
    AskedBeforeByOrder(c.lessons, list[i].order);
    if list[i].id.Some? {
      PoolIsEnough(c, list[i], kind, j);
      PoolIds();
    } else {
      OwnIdIgnoresTheList(m, list, c.lessons, list[i], kind, j);
    }
  }

  lemma OwnIdIgnoresTheList(m: nat, a: seq<Lesson>, b: seq<Lesson>, l: Lesson, kind: Kind, j: nat)
    requires l.id.None?
    ensures AskedId(m, a, l, kind, j) == AskedId(m, b, l, kind, j)
  {
  }

  lemma {:induction false} AskedBeforeIsPooled(lessons: seq<Lesson>, l: Lesson)
    requires l in lessons && l.id.Some?
    ensures AskedBefore(lessons, l.order) + |l.practice| + |l.quiz| <= PoolCount(lessons)
  {
    if lessons[0] == l {
      AskedBeforeIsLess(lessons[1..], l.order);
    } else {
      AskedBeforeIsPooled(lessons[1..], l);
    }
  }

  lemma {:induction false} AskedBeforeIsLess(lessons: seq<Lesson>, order: int)
    ensures AskedBefore(lessons, order) <= PoolCount(lessons)
  {
    if lessons != [] { AskedBeforeIsLess(lessons[1..], order); }
  }

  lemma PoolIsEnough(c: Content, l: Lesson, kind: Kind, j: nat)
    requires Acceptable(c) && l in c.lessons && l.id.Some? && j < |SetIn(l, kind)|
    ensures AskedBefore(c.lessons, l.order) + (if kind == Quiz then |l.practice| else 0) + j < |POOL| == 7
  {
    hide LessonsOk;
    AskedBeforeIsPooled(c.lessons, l);
    PoolCountIsPooled(c.lessons);
    FixedIsModuleOne(c, l);
  }

  lemma FixedIsModuleOne(c: Content, l: Lesson)
    requires Acceptable(c) && l in c.lessons && l.id.Some?
    ensures c.number == 1
  {
  }
}
