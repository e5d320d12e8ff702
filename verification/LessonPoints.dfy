/**
 A lesson's total points spread over its items: every item the floor share, and what is left over to one last item of
 the first kind there is, quizzes before practices before learnings.
 */
module LessonPoints {
  import opened Values

  datatype Kind = Learning | Practice | Quiz

  /** An item of a lesson. A soft-deleted item is not counted, but its row is still updated. */
  datatype Item = Item(order: int, points: int, gone: bool)

  datatype Lesson = Lesson(total: int, brick: int, points: map<Kind, int>, items: map<Kind, seq<Item>>)

  predicate Valid(l: Lesson) {
    l.points.Keys == {Learning, Practice, Quiz} && l.items.Keys == {Learning, Practice, Quiz}
  }

  function Live(items: seq<Item>): nat {
    if items == [] then 0 else (if items[0].gone then 0 else 1) + Live(items[1..])
  }

  function Gone(items: seq<Item>): nat {
    if items == [] then 0 else (if items[0].gone then 1 else 0) + Gone(items[1..])
  }

  function PointsOf(items: seq<Item>): int {
    if items == [] then 0 else items[0].points + PointsOf(items[1..])
  }

  function LiveItems(l: Lesson): nat
    requires Valid(l)
  {
    Live(l.items[Learning]) + Live(l.items[Practice]) + Live(l.items[Quiz])
  }

  function Share(l: Lesson): int
    requires Valid(l)
  {
    if LiveItems(l) != 0 then l.total / LiveItems(l) else 0
  }

  function LeftOver(l: Lesson): int
    requires Valid(l)
  {
    l.total - Share(l) * LiveItems(l)
  }

  /** The kind that takes what is left over, when something is and there is an item to take it. */
  function Bearer(l: Lesson): Option<Kind>
    requires Valid(l)
  {
    if Share(l) * LiveItems(l) >= l.total then None
    else if Live(l.items[Quiz]) > 0 then Some(Quiz)
    else if Live(l.items[Practice]) > 0 then Some(Practice)
    else if Live(l.items[Learning]) > 0 then Some(Learning)
    else None
  }

  predicate IsLast(items: seq<Item>, i: int) {
    0 <= i < |items| && forall j :: 0 <= j < |items| ==> items[j].order <= items[i].order
  }

  /** Every item holds the share, and the `last` one `extra` more. */
  predicate Spread(before: seq<Item>, after: seq<Item>, share: int, last: int, extra: int) {
    |after| == |before| && forall i :: 0 <= i < |after| ==>
    after[i] == before[i].(points := share + if i == last then extra else 0)
  }

  /** What the recompute leaves, when `last` is the item that took the rest. */
  ghost predicate IsSpread(before: Lesson, after: Lesson, last: int)
    requires Valid(before)
  {
    Valid(after) && after.total == before.total && after.brick == Share(before) &&
    forall kind: Kind :: kind in {Learning, Practice, Quiz} ==>
      var extra := if Bearer(before) == Some(kind) then LeftOver(before) else 0;
      after.points[kind] == Live(before.items[kind]) * Share(before) + extra &&
      Spread(before.items[kind], after.items[kind], Share(before), last, extra) &&
      (Bearer(before) == Some(kind) ==> IsLast(before.items[kind], last))
  }

  /** Every row at the share, and every kind's total at as many shares as it has live rows. */
  ghost predicate IsHandedOut(before: Lesson, after: Lesson, share: int)
    requires Valid(before)
  {
    Valid(after) && after.total == before.total && after.brick == share &&
    forall kind: Kind :: kind in {Learning, Practice, Quiz} ==>
      after.points[kind] == Live(before.items[kind]) * share &&
      Spread(before.items[kind], after.items[kind], share, -1, 0)
  }

  /** The rest on top, for the kind that bears it. */
  ghost predicate TakesRest(handed: Lesson, after: Lesson, kind: Kind, last: int, extra: int)
    requires Valid(handed) && kind in {Learning, Practice, Quiz}
  {
    IsLast(handed.items[kind], last) && after.total == handed.total && after.brick == handed.brick &&
    after.points == handed.points[kind := handed.points[kind] + extra] &&
    after.items == handed.items[kind :=
                                handed.items[kind][last := handed.items[kind][last].(points :=
                                    handed.items[kind][last].points + extra)]]
  }

  lemma RestMakesSpread(before: Lesson, handed: Lesson, after: Lesson, kind: Kind, last: int)
    requires Valid(before) && IsHandedOut(before, handed, Share(before)) && Bearer(before) == Some(kind) &&
             kind in {Learning, Practice, Quiz}
    requires TakesRest(handed, after, kind, last, LeftOver(before))
    ensures IsSpread(before, after, last)
  {
    hide Live, Share, Bearer, LeftOver, Spread;
    var share := Share(before);
    SameOrders(before.items[kind], handed.items[kind], share, last);
    OneMore(before.items[kind], handed.items[kind], share, last, LeftOver(before));
    forall other: Kind | other in {Learning, Practice, Quiz} && other != kind
      ensures Spread(before.items[other], after.items[other], share, last, 0)
    {
      Elsewhere(before.items[other], handed.items[other], share, last);
    }
  }

  lemma HandedOutIsSpread(before: Lesson, handed: Lesson)
    requires Valid(before) && IsHandedOut(before, handed, Share(before)) && Bearer(before).None?
    ensures IsSpread(before, handed, -1)
  {
    hide Live, IsLast, Share, Bearer, LeftOver, Spread;
  }

  class LessonRow {
    var total: int
    var brick: int
    var points: map<Kind, int>
    var items: map<Kind, seq<Item>>

    constructor (l: Lesson)
      ensures Now() == l
    {
      total, brick, points, items := l.total, l.brick, l.points, l.items;
    }

    function Now(): Lesson
      reads this
    {
      Lesson(total, brick, points, items)
    }

    /** One kind's rows, deleted or not, all set to the share. */
    method UpdateAll(kind: Kind, share: int)
      requires kind in items
      modifies this`items
      ensures kind in items && items == old(items)[kind := items[kind]] &&
              Spread(old(items)[kind], items[kind], share, -1, 0)
    {
      var rows := items[kind];
      for i := 0 to |rows|
        invariant |rows| == |old(items)[kind]|
        invariant forall j :: 0 <= j < |rows| ==> rows[j] == if j < i then old(items)[kind][j].(points := share)
                                                             else old(items)[kind][j]
      {
        rows := rows[i := rows[i].(points := share)];
      }
      items := items[kind := rows];
    }

    /** The rest goes to the row of the highest order, and to the lesson's points of that kind. */
    method UpdateLast(kind: Kind, extra: int) returns (last: int)
      requires kind in items && kind in points && items[kind] != []
      modifies this`items, this`points
      ensures IsLast(old(items)[kind], last)
      ensures items == old(items)[kind :=
                                  old(items)[kind][last := old(items)[kind][last].(points :=
                                      old(items)[kind][last].points + extra)]]
      ensures points == old(points)[kind := old(points)[kind] + extra]
    {
      var rows := items[kind];
      last := 0;
      for i := 1 to |rows|
        invariant 0 <= last < |rows| && forall j :: 0 <= j < i ==> rows[j].order <= rows[last].order
      {
        if rows[i].order > rows[last].order { last := i; }
      }
      items := items[kind := rows[last := rows[last].(points := rows[last].points + extra)]];
      points := points[kind := points[kind] + extra];
    }

    /** Every row of every kind set to the share, and the kinds' totals to as many shares as they have live rows. */
    method HandOut(share: int)
      requires Valid(Now())
      modifies this
      ensures IsHandedOut(old(Now()), Now(), share)
    {
      hide Spread, Live;
      var learnings, practices, quizzes := Live(items[Learning]), Live(items[Practice]), Live(items[Quiz]);
      brick := share;
      points := points[Learning := learnings * share][Practice := practices * share][Quiz := quizzes * share];
      UpdateAll(Learning, share);
      UpdateAll(Practice, share);
      UpdateAll(Quiz, share);
    }

    /** `updatelearningpracticequiz` up to the level's own points. */
    method UpdateLearningPracticeQuiz() returns (last: int)
      requires Valid(Now())
      modifies this
      ensures IsSpread(old(Now()), Now(), last)
    {
      hide Live, IsLast, IsHandedOut, IsSpread, Spread;
      ghost var before := Now();
      var learnings, practices, quizzes := Live(items[Learning]), Live(items[Practice]), Live(items[Quiz]);
      var n := learnings + practices + quizzes;
      var share := if n != 0 then total / n else 0;
      HandOut(share);
      ghost var handed := Now();
      HandedOutIsValid(before, handed, share);
      last := -1;
      if share * n < total && n > 0 {
        var kind := if quizzes > 0 then Quiz else if practices > 0 then Practice else Learning;
        assert kind in {Learning, Practice, Quiz} && Bearer(before) == Some(kind);
        HandedOutHas(before, handed, share, kind);
        last := UpdateLast(kind, total - share * n);
        assert TakesRest(handed, Now(), kind, last, LeftOver(before));
        RestMakesSpread(before, handed, Now(), kind, last);
      } else {
        HandedOutIsSpread(before, handed);
      }
    }
  }

  lemma HandedOutIsValid(before: Lesson, handed: Lesson, share: int)
    requires Valid(before) && IsHandedOut(before, handed, share)
    ensures Valid(handed) && handed.total == before.total
  {
  }

  lemma HandedOutHas(before: Lesson, handed: Lesson, share: int, kind: Kind)
    requires Valid(before) && IsHandedOut(before, handed, share) && kind in {Learning, Practice, Quiz} &&
             Live(before.items[kind]) > 0
    ensures kind in handed.items && handed.items[kind] != []
  {
    LiveIsThere(before.items[kind]);
  }

  lemma Elsewhere(before: seq<Item>, after: seq<Item>, share: int, last: int)
    requires Spread(before, after, share, -1, 0)
    ensures Spread(before, after, share, last, 0)
  {
  }

  lemma SameOrders(before: seq<Item>, after: seq<Item>, share: int, last: int)
    requires Spread(before, after, share, -1, 0) && IsLast(after, last)
    ensures IsLast(before, last)
  {
    assert forall j :: 0 <= j < |before| ==> after[j].order == before[j].order;
  }

  lemma OneMore(before: seq<Item>, after: seq<Item>, share: int, last: int, extra: int)
    requires Spread(before, after, share, -1, 0) && 0 <= last < |after|
    ensures Spread(before, after[last := after[last].(points := after[last].points + extra)], share, last, extra)
  {
  }

  lemma {:induction false} LiveIsThere(items: seq<Item>)
    ensures Live(items) + Gone(items) == |items|
  {
    if items != [] { LiveIsThere(items[1..]); }
  }

  lemma {:induction false} SpreadSum(before: seq<Item>, after: seq<Item>, share: int, last: int, extra: int)
    requires Spread(before, after, share, last, extra)
    ensures PointsOf(after) == |after| * share + if 0 <= last < |after| then extra else 0
    decreases |after|
  {
    if after != [] {
      assert Spread(before[1..], after[1..], share, last - 1, extra);
      SpreadSum(before[1..], after[1..], share, last - 1, extra);
      assert |after| * share == share + |after[1..]| * share;
    }
  }

  function AllPoints(l: Lesson): int
    requires Valid(l)
  {
    PointsOf(l.items[Learning]) + PointsOf(l.items[Practice]) + PointsOf(l.items[Quiz])
  }

  function AllGone(l: Lesson): nat
    requires Valid(l)
  {
    Gone(l.items[Learning]) + Gone(l.items[Practice]) + Gone(l.items[Quiz])
  }

  lemma ShareAndRest(total: int, n: int)
    requires n > 0
    ensures 0 <= total - total / n * n < n
  {
  }

  lemma KindSum(before: Lesson, after: Lesson, last: int, kind: Kind)
    requires Valid(before) && IsSpread(before, after, last)
    ensures var extra := if Bearer(before) == Some(kind) then LeftOver(before) else 0;
            PointsOf(after.items[kind]) == (Live(before.items[kind]) + Gone(before.items[kind])) * Share(before) + extra
  {
    var extra := if Bearer(before) == Some(kind) then LeftOver(before) else 0;
    assert kind in {Learning, Practice, Quiz};
    SpreadSum(before.items[kind], after.items[kind], Share(before), last, extra);
    LiveIsThere(before.items[kind]);
  }

  /** Counts of shares, the kinds' extras, and the rest make up the total and one share for each of the others. */
  lemma Together(a: int, b: int, c: int, others: int, share: int, extra: int, total: int)
    requires extra == total - share * (a + b + c)
    ensures a * share + b * share + c * share + others * share + extra == total + others * share
  {
  }

  lemma Apart(a: int, b: int, share: int)
    ensures (a + b) * share == a * share + b * share
  {
  }

  lemma AllTogether(a: int, b: int, c: int, ga: int, gb: int, gc: int, share: int, extra: int, total: int, ea: int,
                    eb: int, ec: int)
    requires extra == total - share * (a + b + c) && ea + eb + ec == extra
    ensures (a * share + ea) + (b * share + eb) + (c * share + ec) == total
    ensures (a * share + ga * share + ea) + (b * share + gb * share + eb) + (c * share + gc * share + ec) == total +
            (ga + gb + gc) * share
  {
    Together(a, b, c, 0, share, extra, total);
    Apart(ga, gb, share);
    Apart(ga + gb, gc, share);
  }

  /** One kind takes all that is left over. */
  lemma BearerTakesAll(before: Lesson)
    requires Valid(before) && LiveItems(before) > 0
    ensures 0 <= LeftOver(before) < LiveItems(before)
    ensures (if Bearer(before) == Some(Learning) then LeftOver(before) else 0) +
            (if Bearer(before) == Some(Practice) then LeftOver(before) else 0) +
            (if Bearer(before) == Some(Quiz) then LeftOver(before) else 0) == LeftOver(before)
  {
    hide Live;
    ShareAndRest(before.total, LiveItems(before));
  }

  function Extra(l: Lesson, kind: Kind): int
    requires Valid(l)
  {
    if Bearer(l) == Some(kind) then LeftOver(l) else 0
  }

  lemma KindTotal(before: Lesson, after: Lesson, last: int, kind: Kind)
    requires Valid(before) && IsSpread(before, after, last)
    ensures after.points[kind] == Live(before.items[kind]) * Share(before) + Extra(before, kind)
    ensures PointsOf(after.items[kind]) == Live(before.items[kind]) * Share(before) +
            Gone(before.items[kind]) * Share(before) + Extra(before, kind)
  {
    assert kind in {Learning, Practice, Quiz};
    KindSum(before, after, last, kind);
    Apart(Live(before.items[kind]), Gone(before.items[kind]), Share(before));
  }

  /**
   The points of a lesson are conserved: the three totals of the kinds sum to the lesson's total, what is left over is
   less than the number of items, and the items hold the total, plus one share for every soft-deleted row.
   */
  lemma PointsAreConserved(before: Lesson, after: Lesson, last: int)
    requires Valid(before) && IsSpread(before, after, last) && LiveItems(before) > 0
    ensures after.points[Learning] + after.points[Practice] + after.points[Quiz] == before.total
    ensures AllPoints(after) == before.total + AllGone(before) * Share(before)
    ensures 0 <= LeftOver(before) < LiveItems(before)
  {
    KindTotal(before, after, last, Learning);
    KindTotal(before, after, last, Practice);
    KindTotal(before, after, last, Quiz);
    BearerTakesAll(before);
    hide IsSpread, Share, PointsOf, Live, Gone, Bearer, Spread;
    AllTogether(Live(before.items[Learning]), Live(before.items[Practice]), Live(before.items[Quiz]),
                Gone(before.items[Learning]), Gone(before.items[Practice]), Gone(before.items[Quiz]), Share(before),
                LeftOver(before), before.total,
                Extra(before, Learning), Extra(before, Practice), Extra(before, Quiz));
  }

  /** The items hold exactly the lesson's total if and only if no row is soft-deleted, or the share is nothing. */
  lemma ItemsHoldTheTotalExactly(before: Lesson, after: Lesson, last: int)
    requires Valid(before) && IsSpread(before, after, last) && LiveItems(before) > 0
    ensures AllPoints(after) == before.total <==> AllGone(before) == 0 || Share(before) == 0
  {
    PointsAreConserved(before, after, last);
    if AllGone(before) > 0 && Share(before) != 0 {
      NotZero(AllGone(before), Share(before));
    }
  }

  lemma NotZero(a: int, b: int)
    requires a > 0 && b != 0
    ensures a * b != 0
  {
  }

  /** A lesson with a soft-deleted quiz hands out more than it has. */
  lemma SoftDeletedRowsAddPoints()
    ensures exists before: Lesson, after: Lesson, last: int ::
              Valid(before) && IsSpread(before, after, last) && LiveItems(before) > 0 &&
              AllPoints(after) != before.total
  {
    var rows := [Item(1, 0, false), Item(2, 0, true)];
    var spread := [Item(1, 100, false), Item(2, 100, true)];
    var none: seq<Item> := [];
    var before := Lesson(100, 0, map[Learning := 0, Practice := 0, Quiz := 0],
                         map[Learning := none, Practice := none, Quiz := rows]);
    var after := Lesson(100, 100, map[Learning := 0, Practice := 0, Quiz := 100],
                        map[Learning := none, Practice := none, Quiz := spread]);
    assert rows[1..] == [Item(2, 0, true)] && rows[1..][1..] == [] && spread[1..] == [Item(2, 100, true)] &&
           spread[1..][1..] == [];
    assert Live(rows) == 1 && Gone(rows) == 1 && PointsOf(spread) == 200;
    assert LiveItems(before) == 1 && Share(before) == 100 && Bearer(before) == None;
    assert IsSpread(before, after, -1);
    assert AllPoints(after) == 200;
  }

  // ---- who holds what ----------------------------------------------------------------------------

  predicate HasLive(items: seq<Item>) {
    exists item :: item in items && !item.gone
  }

  lemma {:induction false} LiveIsSome(items: seq<Item>)
    ensures Live(items) > 0 <==> HasLive(items)
  {
    if items != [] {
      LiveIsSome(items[1..]);
      assert items == [items[0]] + items[1..];
    }
  }

  /** Which items the rest goes to: quizzes when there is one, else practices when there is one, else learning items. */
  predicate TakesTheRest(l: Lesson, kind: Kind)
    requires Valid(l)
  {
    match kind
    case Quiz => HasLive(l.items[Quiz])
    case Practice => HasLive(l.items[Practice]) && !HasLive(l.items[Quiz])
    case Learning => HasLive(l.items[Learning]) && !HasLive(l.items[Practice]) && !HasLive(l.items[Quiz])
  }

  /**
   With `n` items not soft-deleted, every row holds the total by `n`, rounded down, and one row of the highest order of
   the kind that takes the rest holds the remainder more. Nothing else of a row changes.
   */
  lemma RowsHoldTheirShare(before: Lesson, after: Lesson, last: int, kind: Kind, i: nat)
    requires Valid(before) && IsSpread(before, after, last) && LiveItems(before) > 0
    requires kind in {Learning, Practice, Quiz} && i < |before.items[kind]|
    ensures |after.items[kind]| == |before.items[kind]|
    ensures var n, was, now := LiveItems(before), before.items[kind][i], after.items[kind][i];
            now.order == was.order && now.gone == was.gone &&
            now.points == before.total / n + if TakesTheRest(before, kind) && i == last then before.total % n else 0
    ensures TakesTheRest(before, kind) && before.total % LiveItems(before) != 0 ==>
              0 <= last < |before.items[kind]| &&
              forall j :: 0 <= j < |before.items[kind]| ==>
                  before.items[kind][j].order <= before.items[kind][last].order
  {
    hide Live;
    LiveIsSome(before.items[Learning]);
    LiveIsSome(before.items[Practice]);
    LiveIsSome(before.items[Quiz]);
    RestIsTheRemainder(before);
  }

  lemma RestIsTheRemainder(before: Lesson)
    requires Valid(before) && LiveItems(before) > 0
    ensures Share(before) == before.total / LiveItems(before) && LeftOver(before) == before.total % LiveItems(before)
    ensures Share(before) * LiveItems(before) < before.total <==> before.total % LiveItems(before) != 0
  {
    hide Live;
  }
}
