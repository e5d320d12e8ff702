/** The initial publication: publishing every curriculum and merging the payloads gives back the live export. */
module PublishAll {
  import opened Values
  import opened Content
  import opened ConfineLaws
  import opened Selection
  import opened Merge
  import opened MergeLaws

  // ---- the content the promise is made for -------------------------------------------------------

  /** Some row of a curriculum names this bank row. */
  ghost predicate BankRowIsUsed(all: Tables, bank: Table, row: Row)
    requires IsContent(all)
  {
    exists t, ref, r :: IsTree(t) && ref in Refs(t) && ref.to == bank && r in all[t] &&
                        KeyOf(Get(r, ref.fk)) == KeyIn(row, bank)
  }

  /** The lesson a level-quiz row names sits in the row's own curriculum. */
  ghost predicate QuizLessonAtHome(all: Tables, row: Row)
    requires IsContent(all)
  {
    forall lesson :: lesson in all[Lessons] && KeyIn(lesson, Lessons) == KeyOf(Get(row, "lessonid")) ==>
      HomeOf(all, Lessons, lesson) == HomeOf(all, LevelQuizQuestions, row)
  }

  /**
   Closed content with unique keys, no deleted curriculum, no unused bank row, no quiz lesson of another curriculum.
   */
  ghost predicate Publishable(all: Tables, subjects: seq<Row>) {
    IsContent(all) && UniqueKeys(all) && ParentClosed(all) && TranslationsHang(all) && NamesResolve(all, subjects) &&
    (forall c :: c in all[Curriculums] ==> !IsDeleted(c)) &&
    (forall bank, r :: IsBank(bank) && r in all[bank] ==> BankRowIsUsed(all, bank, r)) &&
    (forall r :: r in all[LevelQuizQuestions] ==> QuizLessonAtHome(all, r))
  }

  // ---- the plan and the writes -------------------------------------------------------------------

  type Parse = string -> Option<seq<Json>>

  function TitleOf(c: Row): string {
    var name := Get(c, "curriculumname");
    if name.Null? then "" else StringOf(name)
  }

  function IdTextOf(c: Row): string {
    StringOf(Get(c, "curriculumid"))
  }

  /** By name, then by id, both as the locale orders them. */
  predicate Earlier(a: Row, b: Row, collate: string -> real) {
    collate(TitleOf(a)) < collate(TitleOf(b)) ||
    (collate(TitleOf(a)) == collate(TitleOf(b)) && collate(IdTextOf(a)) < collate(IdTextOf(b)))
  }

  function InsertByName(c: Row, list: seq<Row>, collate: string -> real): (r: seq<Row>)
    ensures multiset(r) == multiset(list) + multiset{c}
  {
    if list == [] then [c]
    else if Earlier(list[0], c, collate) then
      assert list == [list[0]] + list[1..];
      [list[0]] + InsertByName(c, list[1..], collate)
    else [c] + list
  }

  function ByName(list: seq<Row>, collate: string -> real): (r: seq<Row>)
    ensures multiset(r) == multiset(list)
  {
    if list == [] then []
    else
      assert list == [list[0]] + list[1..];
      InsertByName(list[0], ByName(list[1..], collate), collate)
  }

  ghost predicate InNameOrder(list: seq<Row>, collate: string -> real) {
    forall i, j :: 0 <= i < j < |list| ==> !Earlier(list[j], list[i], collate)
  }

  lemma {:induction false} InsertKeepsNameOrder(c: Row, list: seq<Row>, collate: string -> real)
    requires InNameOrder(list, collate)
    ensures InNameOrder(InsertByName(c, list, collate), collate)
  {
    hide TitleOf, IdTextOf;
    if list != [] && Earlier(list[0], c, collate) {
      InsertKeepsNameOrder(c, list[1..], collate);
      var rest := InsertByName(c, list[1..], collate);
      forall j | 0 <= j < |rest| ensures !Earlier(rest[j], list[0], collate) {
        assert rest[j] in multiset(rest);
      }
    }
  }

  lemma {:induction false} ByNameIsInOrder(list: seq<Row>, collate: string -> real)
    ensures InNameOrder(ByName(list, collate), collate)
  {
    if list != [] {
      ByNameIsInOrder(list[1..], collate);
      InsertKeepsNameOrder(list[0], ByName(list[1..], collate), collate);
    }
  }

  /** The live curricula that have no publication of any status. */
  function Unpublished(rows: seq<Row>, have: set<string>): seq<Row> {
    if rows == [] then []
    else (if !IsDeleted(rows[0]) && !HasOne(rows[0], have) then [rows[0]] else []) + Unpublished(rows[1..], have)
  }

  lemma {:induction false} UnpublishedHolds(rows: seq<Row>, have: set<string>)
    ensures forall c ::
              multiset(Unpublished(rows, have))[c] ==
              if !IsDeleted(c) && !HasOne(c, have) then multiset(rows)[c] else 0
  {
    hide IsDeleted, HasOne;
    if rows != [] {
      UnpublishedHolds(rows[1..], have);
      assert rows == [rows[0]] + rows[1..];
    }
  }

  predicate HasOne(c: Row, have: set<string>) {
    KeyIn(c, Curriculums).Some? && KeyIn(c, Curriculums).value in have
  }

  /** What an initial run publishes, in the order it publishes it. */
  function Wanted(all: Tables, have: set<string>, collate: string -> real): seq<Row>
    requires IsContent(all)
  {
    ByName(Unpublished(all[Curriculums], have), collate)
  }

  ghost function Keys(have: set<string>): set<Option<string>> {
    set id | id in have :: Some(id)
  }

  /** A run wants each live curriculum without a publication, once for every row of it, in order of name. */
  lemma WantedAreTheUnpublished(all: Tables, have: set<string>, collate: string -> real)
    requires IsContent(all)
    ensures forall i, j :: 0 <= i < j < |Wanted(all, have, collate)| ==>
              var a, b := Wanted(all, have, collate)[i], Wanted(all, have, collate)[j];
              collate(TitleOf(a)) < collate(TitleOf(b)) ||
              (collate(TitleOf(a)) == collate(TitleOf(b)) && collate(IdTextOf(a)) <= collate(IdTextOf(b)))
    ensures forall c :: multiset(Wanted(all, have, collate))[c] ==
                        if Get(c, "isdeleted") !in {Bool(true), Num(1)} && KeyIn(c, Curriculums) !in Keys(have)
                        then multiset(all[Curriculums])[c] else 0
  {
    hide Unpublished, ByName, TitleOf, IdTextOf, KeyIn, Get;
    ByNameIsInOrder(Unpublished(all[Curriculums], have), collate);
    UnpublishedHolds(all[Curriculums], have);
  }

  /** The payloads of the curricula wanted, in their order; the refusals of those that have none. */
  function Payloads(all: Tables, wanted: seq<Row>, subjects: seq<Row>, readList: Parse): (seq<Tables>, seq<Refusal>)
    requires IsContent(all)
  {
    if wanted == [] then ([], [])
    else
      var rest := Payloads(all, wanted[1..], subjects, readList);
      match PayloadOf(all, Str(IdTextOf(wanted[0])), subjects, readList)
      case Ok(p) => ([p] + rest.0, rest.1)
      case Err(e) => (rest.0, [e] + rest.1)
  }

  lemma UnpublishedFrom(rows: seq<Row>, have: set<string>, i: nat)
    requires i < |rows|
    ensures Unpublished(rows[i..], have) ==
            (if !IsDeleted(rows[i]) && !HasOne(rows[i], have) then [rows[i]] else []) + Unpublished(rows[i + 1..], have)
  {
    hide IsDeleted, HasOne;
    assert rows[i..][1..] == rows[i + 1..];
  }

  method FindUnpublished(rows: seq<Row>, have: set<string>) returns (candidates: seq<Row>)
    ensures candidates == Unpublished(rows, have)
  {
    hide IsDeleted, HasOne, Unpublished;
    candidates := [];
    assert rows[0..] == rows;
    for i := 0 to |rows|
      invariant candidates + Unpublished(rows[i..], have) == Unpublished(rows, have)
    {
      UnpublishedFrom(rows, have, i);
      if !IsDeleted(rows[i]) && !HasOne(rows[i], have) { candidates := candidates + [rows[i]]; }
    }
    assert Unpublished(rows[|rows|..], have) == [] by { NoneUnpublished(rows[|rows|..], have); }
  }

  lemma NoneUnpublished(rows: seq<Row>, have: set<string>)
    requires rows == []
    ensures Unpublished(rows, have) == []
  {
  }

  lemma PayloadsFrom(all: Tables, wanted: seq<Row>, subjects: seq<Row>, readList: Parse, i: nat)
    requires IsContent(all) && i < |wanted|
    ensures var here, rest := Payloads(all, wanted[i..], subjects, readList),
                              Payloads(all, wanted[i + 1..], subjects, readList);
            match PayloadOf(all, Str(IdTextOf(wanted[i])), subjects, readList)
            case Ok(p) => here == ([p] + rest.0, rest.1)
            case Err(e) => here == (rest.0, [e] + rest.1)
  {
    hide PayloadOf, IdTextOf;
    assert wanted[i..][1..] == wanted[i + 1..];
  }

  lemma NoPayloads(all: Tables, wanted: seq<Row>, subjects: seq<Row>, readList: Parse)
    requires IsContent(all) && wanted == []
    ensures Payloads(all, wanted, subjects, readList) == ([], [])
  {
  }

  method BuildPayloads(all: Tables, wanted: seq<Row>, subjects: seq<Row>, readList: Parse)
    returns (payloads: seq<Tables>, problems: seq<Refusal>)
    requires IsContent(all)
    ensures payloads == Payloads(all, wanted, subjects, readList).0 &&
            problems == Payloads(all, wanted, subjects, readList).1
  {
    hide PayloadOf, IdTextOf, Payloads;
    payloads, problems := [], [];
    assert wanted[0..] == wanted;
    for i := 0 to |wanted|
      invariant payloads + Payloads(all, wanted[i..], subjects, readList).0 ==
                Payloads(all, wanted, subjects, readList).0
      invariant problems + Payloads(all, wanted[i..], subjects, readList).1 ==
                Payloads(all, wanted, subjects, readList).1
    {
      PayloadsFrom(all, wanted, subjects, readList, i);
      match PayloadOf(all, Str(IdTextOf(wanted[i])), subjects, readList) {
        case Ok(p) => payloads := payloads + [p];
        case Err(e) => problems := problems + [e];
      }
    }
    NoPayloads(all, wanted[|wanted|..], subjects, readList);
  }

  /**
   `plan`: the live curricula without a publication, in order of name; every one is built before any is written, and one
   refusal refuses the organisation.
   */
  method Plan(all: Tables, have: set<string>, subjects: seq<Row>, readList: Parse, collate: string -> real)
    returns (payloads: seq<Tables>, problems: seq<Refusal>)
    requires IsContent(all)
    ensures payloads == Payloads(all, Wanted(all, have, collate), subjects, readList).0
    ensures problems == Payloads(all, Wanted(all, have, collate), subjects, readList).1
  {
    hide Payloads;
    var candidates := FindUnpublished(all[Curriculums], have);
    payloads, problems := BuildPayloads(all, ByName(candidates, collate), subjects, readList);
  }

  /** The publications written for the payloads: one each, under its own id, one millisecond apart. */
  function Written(wanted: seq<Row>, payloads: seq<Tables>, ids: seq<string>, base: int): seq<PublishedSet>
    requires |wanted| == |payloads| == |ids|
  {
    seq(|wanted|, i requires 0 <= i < |wanted| => PublishedSet(ids[i], IdTextOf(wanted[i]), base + i, payloads[i]))
  }

  /** One publication per curriculum, each the curriculum's selection. */
  ghost predicate PublishedAll(sets: seq<PublishedSet>, all: Tables)
    requires IsContent(all)
  {
    DistinctSets(sets) &&
    (forall c :: c in all[Curriculums] ==>
     exists s :: s in sets && s.payload == Selected(all, KeyIn(c, Curriculums))) &&
    (forall s :: s in sets ==> exists c :: c in all[Curriculums] && s.payload == Selected(all, KeyIn(c, Curriculums)))
  }

  // ---- every curriculum has a payload ------------------------------------------------------------

  /** A row of the content is picked with some curriculum. */
  lemma {:induction false} EveryTreeRowIsPicked(all: Tables, t: Table, row: Row) returns (c: Row)
    requires IsContent(all) && ParentClosed(all) && IsTree(t) && row in all[t]
    ensures c in all[Curriculums] && row in TreeRows(all, KeyIn(c, Curriculums), t)
    decreases Depth(t)
  {
    if t == Curriculums {
      c := row;
      WithKeyHolds(all[t], t, KeyIn(c, Curriculums));
    } else {
      TreeTable(t);
      var p := ParentOf(t).value;
      assert HangsIn(all, t);
      var parent :| parent in all[p.to] && KeyIn(parent, p.to) == KeyOf(Get(row, p.fk));
      c := EveryTreeRowIsPicked(all, p.to, parent);
      UnderHolds(all[t], p.fk, Ids(TreeRows(all, KeyIn(c, Curriculums), p.to), p.to));
    }
  }

  lemma NamedRowIsPicked(all: Tables, wanted: Option<string>, bank: Table, t: Table, ref: Reference, r: Row, row: Row)
    requires IsContent(all) && IsBank(bank) && IsTree(t) && ref in Refs(t) && ref.to == bank
    requires r in TreeRows(all, wanted, t) && row in all[bank] && KeyIn(row, bank).Some? &&
             KeyOf(Get(r, ref.fk)) == KeyIn(row, bank)
    ensures row in Selected(all, wanted)[bank]
  {
    hide Get, Pk, TreeRows, KeyOf, NamedVia, Under;
    var id := KeyIn(row, bank).value;
    assert id in NamedBy(TreeRows(all, wanted, t), ref.fk);
    NamedViaHolds(TreeRows(all, wanted, t), Refs(t), bank, id);
    assert id in NamedIn(all, wanted, bank, t);
    UnderHolds(all[bank], Pk(bank), Named(all, wanted, bank));
  }

  lemma SelectedRowsAreRows(all: Tables, wanted: Option<string>, t: Table)
    requires IsContent(all) && InCurriculum(t)
    ensures forall r :: r in Selected(all, wanted)[t] ==>
            r in all[t] && multiset(Selected(all, wanted)[t])[r] == multiset(all[t])[r]
  {
    hide TreeRows, Under, Named, TranslationsOf, Pk;
    if IsTree(t) {
      TreeRowsAreRows(all, wanted, t);
    } else if t == ContentTranslations {
      TranslationsOfHolds(Picked(all, wanted), all[t]);
    } else {
      UnderHolds(all[t], Pk(t), Named(all, wanted, t));
    }
  }

  lemma BankRefHolds(all: Tables, wanted: Option<string>, t: Table, ref: Reference, row: Row)
    requires IsContent(all) && IsTree(t) && ref in Refs(t) && IsBank(ref.to) && row in TreeRows(all, wanted, t)
    requires RefOk(row, ref, Ids(all[ref.to], ref.to))
    ensures RefOk(row, ref, Ids(Selected(all, wanted)[ref.to], ref.to))
  {
    hide Pk, Get;
    var key := KeyOf(Get(row, ref.fk));
    if key.Some? {
      var target :| target in all[ref.to] && KeyIn(target, ref.to) == key;
      NamedRowIsPicked(all, wanted, ref.to, t, ref, row, target);
    }
  }

  lemma LessonRefHolds(all: Tables, c: string, ref: Reference, row: Row)
    requires IsContent(all) && UniqueKeys(all) && row in TreeRows(all, Some(c), LevelQuizQuestions)
    requires ref == Reference("lessonid", Lessons, true)
    requires QuizLessonAtHome(all, row) && RefOk(row, ref, Ids(all[Lessons], Lessons))
    ensures RefOk(row, ref, Ids(TreeRows(all, Some(c), Lessons), Lessons))
  {
    hide Pk, Get, TreeRows, HomeOf, KeyOf;
    var key := KeyOf(Get(row, ref.fk));
    if key.Some? {
      var target :| target in all[Lessons] && KeyIn(target, Lessons) == key;
      TreeRowsAreRows(all, Some(c), LevelQuizQuestions);
      DownwardSelectionIsUpwardWalk(all, c, LevelQuizQuestions, row);
      DownwardSelectionIsUpwardWalk(all, c, Lessons, target);
    }
  }

  /** A curriculum's row names a subject, a bank row, or, a level-quiz row, a lesson. */
  lemma RefShape(t: Table, ref: Reference)
    requires InCurriculum(t) && ref in Refs(t)
    ensures IsTree(t) && (ref.to == Subjects || IsBank(ref.to) ||
                          (t == LevelQuizQuestions && ref == Reference("lessonid", Lessons, true)))
  {
  }

  lemma SelectedTree(all: Tables, wanted: Option<string>, t: Table)
    requires IsContent(all) && IsTree(t)
    ensures Selected(all, wanted)[t] == TreeRows(all, wanted, t)
  {
  }

  /** Every name of a picked row is either a subject's or a row picked with it. */
  lemma SelectedRefHolds(all: Tables, subjects: seq<Row>, c: string, t: Table, ref: Reference, row: Row)
    requires IsContent(all) && UniqueKeys(all) && InCurriculum(t) && ref in Refs(t) && row in Selected(all, Some(c))[t]
    requires RefHolds(all[Subjects := LiveRows(subjects)], t, ref)
    requires t == LevelQuizQuestions ==> QuizLessonAtHome(all, row)
    ensures ref.to in all || ref.to == Subjects
    ensures RefOk(row, ref, Ids(Selected(all, Some(c))[Subjects := LiveRows(subjects)][ref.to], ref.to))
  {
    hide Pk, Get, Refs, TreeRows, UniqueKeysIn, QuizLessonAtHome, RefOk, KeyIn, Named, Picked;
    RefShape(t, ref);
    SelectedIsContent(all, Some(c));
    SelectedRowsAreRows(all, Some(c), t);
    SelectedTree(all, Some(c), t);
    SelectedTree(all, Some(c), Lessons);
    var whole := all[Subjects := LiveRows(subjects)];
    assert row in whole[t] && RefOk(row, ref, Ids(whole[ref.to], ref.to));
    if IsBank(ref.to) {
      BankRefHolds(all, Some(c), t, ref, row);
    } else if ref.to == Lessons {
      LessonRefHolds(all, c, ref, row);
    }
  }

  lemma SelectionNamesResolve(all: Tables, subjects: seq<Row>, c: string)
    requires IsContent(all) && UniqueKeys(all) && NamesResolve(all, subjects)
    requires forall r :: r in all[LevelQuizQuestions] ==> QuizLessonAtHome(all, r)
    ensures NamesResolve(Selected(all, Some(c)), subjects)
  {
    hide Pk, Get, QuizLessonAtHome, UniqueKeys;
    var s := Selected(all, Some(c));
    var given := s[Subjects := LiveRows(subjects)];
    forall t, ref | t in given && ref in Refs(t) ensures RefHolds(given, t, ref) {
      assert RefHolds(all[Subjects := LiveRows(subjects)], t, ref);
      if t != Subjects && ref.to in given {
        forall r | r in s[t] ensures RefOk(r, ref, Ids(given[ref.to], ref.to)) {
          SelectedRowsAreRows(all, Some(c), t);
          SelectedRefHolds(all, subjects, c, t, ref, r);
        }
      }
    }
  }

  lemma SelectionTranslationsHang(all: Tables, wanted: Option<string>)
    requires IsContent(all) && TranslationsHang(all)
    ensures TranslationsHang(Selected(all, wanted))
  {
    hide Pk, Get, TableNamed;
    var s := Selected(all, wanted);
    SelectedRowsAreRows(all, wanted, ContentTranslations);
    forall r | r in s[ContentTranslations] ensures PolyOk(s, r) {
      assert PolyOk(all, r);
      SelectedTranslationsHang(all, wanted, r);
    }
  }

  lemma TheCurriculumIsPicked(all: Tables, c: Row)
    requires IsContent(all) && c in all[Curriculums] && forall r :: r in all[Curriculums] ==> !IsDeleted(r)
    ensures var s := Selected(all, KeyIn(c, Curriculums)); s[Curriculums] != [] && !IsDeleted(s[Curriculums][0])
  {
    hide Pk, Get, IsDeleted, TreeRows, WithKey, Under, TranslationsOf, Named;
    CurriculumRowsAre(all, KeyIn(c, Curriculums));
    WithKeyHolds(all[Curriculums], Curriculums, KeyIn(c, Curriculums));
    var rows := Selected(all, KeyIn(c, Curriculums))[Curriculums];
    assert c in rows;
    assert rows[0] in rows;
  }

  /** No curriculum of such content is refused: its payload is its selection, closed. */
  lemma EveryCurriculumHasAPayload(all: Tables, subjects: seq<Row>, c: Row, readList: Parse)
    requires Publishable(all, subjects) && c in all[Curriculums]
    ensures PayloadOf(all, Get(c, "curriculumid"), subjects, readList) == Ok(Selected(all, KeyIn(c, Curriculums)))
    ensures ClosedPayload(Selected(all, KeyIn(c, Curriculums)))
  {
    hide Get, Selected, PayloadOf, NamesResolve, TranslationsHang, ParentClosed, IsDeleted, BankRowIsUsed,
         QuizLessonAtHome, RefsHold;
    var key := KeyIn(c, Curriculums);
    SelectionIsClosed(all, key);
    SelectedIsContent(all, key);
    SelectionNamesResolve(all, subjects, key.value);
    SelectionTranslationsHang(all, key);
    TheCurriculumIsPicked(all, c);
    PayloadIsTheSelectionOrRefused(all, Get(c, "curriculumid"), subjects, readList);
    ResolvedNamesHoldInside(Selected(all, key), subjects);
  }

  lemma ResolvedNamesHoldInside(s: Tables, subjects: seq<Row>)
    requires IsContent(s) && NamesResolve(s, subjects)
    ensures RefsHold(s)
  {
    forall t, ref | t in s && ref in Refs(t) ensures RefHolds(s, t, ref) {
      assert RefHolds(s[Subjects := LiveRows(subjects)], t, ref);
    }
  }

  lemma PublishableHasIds(all: Tables, subjects: seq<Row>, c: Row)
    requires Publishable(all, subjects) && c in all[Curriculums]
    ensures Str(IdTextOf(c)) == Get(c, "curriculumid")
  {
    hide ParentClosed, TranslationsHang, NamesResolve, BankRowIsUsed, QuizLessonAtHome, Get;
    assert KeyIn(c, Curriculums).Some?;
  }

  lemma {:induction false} NothingIsRefused(all: Tables, subjects: seq<Row>, wanted: seq<Row>, readList: Parse)
    requires Publishable(all, subjects) && forall c :: c in wanted ==> c in all[Curriculums]
    ensures var p := Payloads(all, wanted, subjects, readList);
            p.1 == [] && |p.0| == |wanted| &&
            forall i :: 0 <= i < |wanted| ==> p.0[i] == Selected(all, KeyIn(wanted[i], Curriculums))
  {
    hide Get, Selected, PayloadOf, KeyOf, ClosedPayload, NamesResolve, ParentClosed, TranslationsHang, BankRowIsUsed,
         QuizLessonAtHome;
    if wanted != [] {
      EveryCurriculumHasAPayload(all, subjects, wanted[0], readList);
      PublishableHasIds(all, subjects, wanted[0]);
      NothingIsRefused(all, subjects, wanted[1..], readList);
    }
  }

  /**
   The initial run of an organisation that has published nothing yet refuses nothing and publishes every curriculum as
   it stands.
   */
  lemma InitialRunPublishesAll(all: Tables, subjects: seq<Row>, readList: Parse, collate: string -> real,
                               ids: seq<string>, base: int)
    requires Publishable(all, subjects) && |ids| == |Wanted(all, {}, collate)| && Distinct(ids)
    ensures var planned := Payloads(all, Wanted(all, {}, collate), subjects, readList);
            planned.1 == [] && |planned.0| == |ids| &&
            PublishedAll(Written(Wanted(all, {}, collate), planned.0, ids, base), all)
  {
    hide Payloads, Selected, Get, NamesResolve, TranslationsHang, ParentClosed, IsDeleted, BankRowIsUsed,
         QuizLessonAtHome, Publishable, Wanted;
    assert IsContent(all) && UniqueKeysIn(all[Curriculums], Curriculums) by { PublishableKeys(all, subjects); }
    var wanted := Wanted(all, {}, collate);
    AllAreWanted(all, subjects, collate);
    SameMembers(wanted, all[Curriculums]);
    NothingIsRefused(all, subjects, wanted, readList);
    WrittenIsPublishedAll(all, wanted, Payloads(all, wanted, subjects, readList).0, ids, base);
  }

  lemma AllAreWanted(all: Tables, subjects: seq<Row>, collate: string -> real)
    requires Publishable(all, subjects)
    ensures multiset(Wanted(all, {}, collate)) == multiset(all[Curriculums])
  {
    hide NamesResolve, TranslationsHang, ParentClosed, UniqueKeys, BankRowIsUsed, QuizLessonAtHome, Wanted;
    WantedAreTheUnpublished(all, {}, collate);
    forall c ensures multiset(Wanted(all, {}, collate))[c] == multiset(all[Curriculums])[c] {
      assert multiset(all[Curriculums])[c] > 0 ==> c in all[Curriculums];
    }
  }

  lemma PublishableKeys(all: Tables, subjects: seq<Row>)
    requires Publishable(all, subjects)
    ensures IsContent(all) && forall t :: t in all ==> UniqueKeysIn(all[t], t)
  {
  }

  lemma WrittenIsPublishedAll(all: Tables, wanted: seq<Row>, payloads: seq<Tables>, ids: seq<string>, base: int)
    requires IsContent(all) && UniqueKeysIn(all[Curriculums], Curriculums) &&
             multiset(wanted) == multiset(all[Curriculums])
    requires |ids| == |wanted| == |payloads| && Distinct(ids)
    requires forall i :: 0 <= i < |wanted| ==> payloads[i] == Selected(all, KeyIn(wanted[i], Curriculums))
    ensures PublishedAll(Written(wanted, payloads, ids, base), all)
  {
    hide Selected, UniqueKeysIn, KeyIn, DistinctSets;
    SameMembers(wanted, all[Curriculums]);
    var sets := Written(wanted, payloads, ids, base);
    forall c | c in all[Curriculums]
      ensures exists s :: s in sets && s.payload == Selected(all, KeyIn(c, Curriculums))
    {
      var i :| 0 <= i < |wanted| && wanted[i] == c;
      assert sets[i] in sets;
    }
    forall s | s in sets
      ensures exists c :: c in all[Curriculums] && s.payload == Selected(all, KeyIn(c, Curriculums))
    {
      var i :| 0 <= i < |sets| && sets[i] == s;
      assert wanted[i] in all[Curriculums];
    }
    WrittenAreDistinct(all[Curriculums], wanted, payloads, ids, base);
  }

  lemma WrittenAreDistinct(rows: seq<Row>, wanted: seq<Row>, payloads: seq<Tables>, ids: seq<string>, base: int)
    requires UniqueKeysIn(rows, Curriculums) && multiset(wanted) == multiset(rows)
    requires |ids| == |wanted| == |payloads| && Distinct(ids)
    ensures DistinctSets(Written(wanted, payloads, ids, base))
  {
    hide Get, UniqueKeysIn;
    SameMembers(wanted, rows);
    var sets := Written(wanted, payloads, ids, base);
    UniqueIsDistinct(rows, Curriculums);
    PermutedDistinct(rows, wanted);
    forall i, j | 0 <= i < j < |sets|
      ensures sets[i].publicationid != sets[j].publicationid && sets[i].curriculumid != sets[j].curriculumid
    {
      DifferentCurricula(rows, wanted[i], wanted[j]);
    }
  }

  lemma DifferentCurricula(rows: seq<Row>, a: Row, b: Row)
    requires UniqueKeysIn(rows, Curriculums) && a in rows && b in rows && a != b
    ensures Get(a, "curriculumid").Str? && Get(b, "curriculumid").Str? &&
            Get(a, "curriculumid").s != Get(b, "curriculumid").s
  {
    hide Get;
    if KeyIn(a, Curriculums) == KeyIn(b, Curriculums) {
      SameKeySameRow(rows, Curriculums, a, b);
    }
  }

  lemma UniqueIsDistinct(rows: seq<Row>, t: Table)
    requires UniqueKeysIn(rows, t)
    ensures Distinct(rows)
  {
  }

  lemma {:induction false} DistinctIffCounts<T>(s: seq<T>)
    ensures Distinct(s) <==> forall x :: multiset(s)[x] <= 1
  {
    if Distinct(s) {
      DistinctCounts(s);
    } else {
      var i, j :| 0 <= i < j < |s| && s[i] == s[j];
      assert s == s[..i] + [s[i]] + s[i + 1..j] + [s[j]] + s[j + 1..];
      assert multiset(s)[s[i]] >= 2;
    }
  }

  lemma PermutedDistinct<T>(s: seq<T>, t: seq<T>)
    requires Distinct(s) && multiset(s) == multiset(t)
    ensures Distinct(t)
  {
    DistinctIffCounts(s);
    DistinctIffCounts(t);
  }

  // ---- and the merge gives the content back ------------------------------------------------------

  lemma PublishedRowIsARow(sets: seq<PublishedSet>, all: Tables, s: PublishedSet, t: Table)
    requires IsContent(all) && PublishedAll(sets, all) && s in sets && InCurriculum(t)
    ensures forall r :: r in RowsOf(s, t) ==> r in all[t] && multiset(RowsOf(s, t))[r] == multiset(all[t])[r]
  {
    hide Selected, KeyIn, PublishedAll;
    var c := PublishedCurriculum(sets, all, s);
    SelectedRowsAreRows(all, KeyIn(c, Curriculums), t);
    SelectedIsContent(all, KeyIn(c, Curriculums));
  }

  lemma EveryRowIsPicked(all: Tables, t: Table, row: Row) returns (c: Row)
    requires IsContent(all) && ParentClosed(all) && Substantive(t) && row in all[t] && KeyIn(row, t).Some?
    requires IsBank(t) ==> BankRowIsUsed(all, t, row)
    ensures c in all[Curriculums] && row in Selected(all, KeyIn(c, Curriculums))[t]
  {
    hide Pk, Get, ParentClosed;
    if IsTree(t) {
      c := EveryTreeRowIsPicked(all, t, row);
    } else {
      var u, ref, r :| IsTree(u) && ref in Refs(u) && ref.to == t && r in all[u] &&
          KeyOf(Get(r, ref.fk)) == KeyIn(row, t);
      c := EveryTreeRowIsPicked(all, u, r);
      NamedRowIsPicked(all, KeyIn(c, Curriculums), t, u, ref, r, row);
    }
  }

  lemma EveryRowIsPublished(sets: seq<PublishedSet>, all: Tables, subjects: seq<Row>, t: Table, row: Row)
      returns (s: PublishedSet)
    requires Publishable(all, subjects) && PublishedAll(sets, all) && Substantive(t) && row in all[t]
    ensures s in sets && row in RowsOf(s, t)
  {
    hide Selected, KeyIn, ParentClosed, TranslationsHang, NamesResolve, QuizLessonAtHome, BankRowIsUsed, DistinctSets,
         IsDeleted;
    var c := EveryRowIsPicked(all, t, row);
    SelectedIsContent(all, KeyIn(c, Curriculums));
    s :| s in sets && s.payload == Selected(all, KeyIn(c, Curriculums));
  }

  /** Publications that together hold exactly the rows of a table merge into exactly those rows. */
  lemma MergeOfACover(sets: seq<PublishedSet>, collate: string -> real, rows: seq<Row>, t: Table)
    requires Substantive(t) && UniqueKeysIn(rows, t)
    requires forall s, r :: s in sets && r in RowsOf(s, t) ==> r in rows
    requires forall r :: r in rows ==> exists s :: s in sets && r in RowsOf(s, t)
    ensures multiset(Merged(sets, collate)[t]) == multiset(rows)
  {
    hide Pk, Get;
    var out := Merged(sets, collate)[t];
    EachRowOnceFromItsNewestPublication(sets, collate, t);
    forall r | r in rows ensures r in out {
      var s :| s in sets && r in RowsOf(s, t);
      MergedHoldsWhatAPayloadHolds(sets, collate, s, t, KeyIn(r, t).value);
      var copy :| copy in out && KeyIn(copy, t) == KeyIn(r, t);
      SameKeySameRow(rows, t, copy, r);
    }
    UniqueIsDistinct(out, t);
    UniqueIsDistinct(rows, t);
    DistinctSameElements(out, rows);
  }

  lemma MergedHasTheRows(sets: seq<PublishedSet>, collate: string -> real, all: Tables, subjects: seq<Row>, t: Table)
    requires Publishable(all, subjects) && PublishedAll(sets, all) && Substantive(t)
    ensures multiset(Merged(sets, collate)[t]) == multiset(all[t])
  {
    hide Publishable, PublishedAll, Merged, RowsOf, UniqueKeysIn;
    PublishableKeys(all, subjects);
    forall s, r | s in sets && r in RowsOf(s, t) ensures r in all[t] {
      PublishedRowIsARow(sets, all, s, t);
    }
    forall r | r in all[t] ensures exists s :: s in sets && r in RowsOf(s, t) {
      var s := EveryRowIsPublished(sets, all, subjects, t, r);
    }
    MergeOfACover(sets, collate, all[t], t);
  }

  lemma ConcatDistinct<T>(a: seq<T>, b: seq<T>)
    requires Distinct(a) && Distinct(b) && forall x :: x in a ==> x !in b
    ensures Distinct(a + b)
  {
    forall i, j | 0 <= i < j < |a + b| ensures (a + b)[i] != (a + b)[j] {
      if i < |a| <= j {
        assert (a + b)[i] in a && (a + b)[j] in b;
      }
    }
  }

  lemma {:induction false} MergedTranslationsAreDistinct(emit: seq<PublishedSet>, sets: seq<PublishedSet>)
    requires Distinct(emit) && forall s :: s in emit ==> Distinct(RowsOf(s, ContentTranslations))
    ensures Distinct(MergedTranslations(emit, sets))
  {
    hide RowsOf, PolyTable, PolyKey, WinnerOf;
    if emit != [] {
      MergedTranslationsAreDistinct(emit[1..], sets);
      var rows := RowsOf(emit[0], ContentTranslations);
      var here, rest := TranslationsFrom(rows, emit[0], sets), MergedTranslations(emit[1..], sets);
      TranslationsFromHolds(rows, emit[0], sets);
      DistinctIffCounts(rows);
      DistinctIffCounts(here);
      forall r | r in here ensures r !in rest {
        MergedTranslationsHolds(emit[1..], sets, r);
      }
      ConcatDistinct(here, rest);
    }
  }

  lemma MergedTranslationsDistinct(sets: seq<PublishedSet>, collate: string -> real, all: Tables)
    requires IsContent(all) && PublishedAll(sets, all) && Distinct(all[ContentTranslations])
    ensures Distinct(Merged(sets, collate)[ContentTranslations])
  {
    hide Selected, RowsOf, MergedTranslations, Emit;
    DistinctIffCounts(all[ContentTranslations]);
    forall s | s in sets ensures Distinct(RowsOf(s, ContentTranslations)) {
      PublishedRowIsARow(sets, all, s, ContentTranslations);
      DistinctIffCounts(RowsOf(s, ContentTranslations));
    }
    EmitHolds(sets, collate);
    EmitHasTheSame(sets, collate);
    assert Distinct(sets);
    PermutedDistinct(sets, Emit(sets, collate));
    MergedTranslationsAreDistinct(Emit(sets, collate), sets);
  }

  lemma MergedHasTheTranslations(sets: seq<PublishedSet>, collate: string -> real, all: Tables, subjects: seq<Row>)
    requires Publishable(all, subjects) && PublishedAll(sets, all)
    ensures multiset(Merged(sets, collate)[ContentTranslations]) == multiset(all[ContentTranslations])
  {
    hide Publishable, PublishedAll, RowsOf, UniqueKeysIn, GoesWithParent, Emit, MergedTranslations;
    PublishableKeys(all, subjects);
    var out := Merged(sets, collate)[ContentTranslations];
    forall r ensures r in out <==> r in all[ContentTranslations] {
      TranslationsGoWithTheirParent(sets, collate, r);
      if r in all[ContentTranslations] {
        TranslationIsMerged(sets, all, subjects, r);
      } else if r in out {
        var s :| s in sets && r in RowsOf(s, ContentTranslations) && GoesWithParent(r, s, sets);
        PublishedRowIsARow(sets, all, s, ContentTranslations);
      }
    }
    UniqueIsDistinct(all[ContentTranslations], ContentTranslations);
    MergedTranslationsDistinct(sets, collate, all);
    DistinctSameElements(out, all[ContentTranslations]);
  }

  /** The publication that wins a row carries every translation of it, so none is lost. */
  lemma TranslationIsMerged(sets: seq<PublishedSet>, all: Tables, subjects: seq<Row>, row: Row)
    requires Publishable(all, subjects) && PublishedAll(sets, all) && row in all[ContentTranslations]
    ensures exists s :: s in sets && row in RowsOf(s, ContentTranslations) && GoesWithParent(row, s, sets)
  {
    hide Publishable, Pk, Get, TableNamed, Selected, Winners;
    PublishableKeys(all, subjects);
    assert PolyOk(all, row) by { PublishableHangs(all, subjects, row); }
    var t, id := PolyTable(row).value, PolyKey(row).value;
    var parent :| parent in all[t] && KeyIn(parent, t) == Some(id);
    var s := EveryRowIsPublished(sets, all, subjects, t, parent);
    assert Holds(s, t, id);
    WinnerCarriesTheTranslation(sets, all, t, id, row);
  }

  lemma PublishedCurriculum(sets: seq<PublishedSet>, all: Tables, s: PublishedSet) returns (c: Row)
    requires IsContent(all) && PublishedAll(sets, all) && s in sets
    ensures c in all[Curriculums] && s.payload == Selected(all, KeyIn(c, Curriculums))
  {
    hide Selected, KeyIn;
    c :| c in all[Curriculums] && s.payload == Selected(all, KeyIn(c, Curriculums));
  }

  lemma WinnerCarriesTheTranslation(sets: seq<PublishedSet>, all: Tables, t: Table, id: string, row: Row)
    requires IsContent(all) && PublishedAll(sets, all) && row in all[ContentTranslations]
    requires PolyTable(row) == Some(t) && PolyKey(row) == Some(id) && exists s :: s in sets && Holds(s, t, id)
    ensures exists s :: s in sets && row in RowsOf(s, ContentTranslations) && GoesWithParent(row, s, sets)
  {
    hide PolyTable, PolyKey, Selected, Winners, WinnerOf, KeyIn, Ids, RowsOf, PublishedAll;
    TheNewestHolderWins(sets, t, id);
    var w := WinnerOf(sets, t, id).value;
    var c := PublishedCurriculum(sets, all, w);
    HolderCarriesTheTranslation(all, w, KeyIn(c, Curriculums), t, id, row);
    assert GoesWithParent(row, w, sets);
  }

  lemma HolderCarriesTheTranslation(all: Tables, s: PublishedSet, wanted: Option<string>, t: Table, id: string,
                                    row: Row)
    requires IsContent(all) && row in all[ContentTranslations] && PolyTable(row) == Some(t) && PolyKey(row) == Some(id)
    requires s.payload == Selected(all, wanted) && Holds(s, t, id)
    ensures row in RowsOf(s, ContentTranslations)
  {
    hide PolyTable, PolyKey, Selected, KeyIn;
    SelectedIsContent(all, wanted);
    TranslationsArePicked(all, wanted, t, id, row);
  }

  lemma PublishableHangs(all: Tables, subjects: seq<Row>, row: Row)
    requires Publishable(all, subjects) && row in all[ContentTranslations]
    ensures PolyOk(all, row)
  {
  }

  lemma TranslationsArePicked(all: Tables, wanted: Option<string>, t: Table, id: string, row: Row)
    requires IsContent(all) && row in all[ContentTranslations] && PolyTable(row) == Some(t) && PolyKey(row) == Some(id)
    requires t in Selected(all, wanted) && id in Ids(Selected(all, wanted)[t], t)
    ensures row in Selected(all, wanted)[ContentTranslations]
  {
    hide Pk, Get, TableNamed;
    SelectedIsContent(all, wanted);
    TranslationsOfHolds(Picked(all, wanted), all[ContentTranslations]);
    assert HangsFromPicked(Picked(all, wanted), row);
  }

  /** Per table, the merge of all publications is exactly the content's rows, translations included. */
  lemma PublishAllThenMergeGivesTheContent(sets: seq<PublishedSet>, collate: string -> real, all: Tables,
                                           subjects: seq<Row>, t: Table)
    requires Publishable(all, subjects) && PublishedAll(sets, all) && InCurriculum(t)
    ensures multiset(Merged(sets, collate)[t]) == multiset(all[t])
  {
    if t == ContentTranslations {
      MergedHasTheTranslations(sets, collate, all, subjects);
    } else {
      MergedHasTheRows(sets, collate, all, subjects, t);
    }
  }

  // ---- so what is served is what the live export sent --------------------------------------------

  /** The same tables with the same rows, in whatever order. */
  ghost predicate SameRows(a: Tables, b: Tables) {
    a.Keys == b.Keys && forall t :: t in a ==> multiset(a[t]) == multiset(b[t])
  }

  lemma SameRowsSameIds(a: seq<Row>, b: seq<Row>, t: Table)
    requires multiset(a) == multiset(b)
    ensures Ids(a, t) == Ids(b, t)
  {
    SameMembers(a, b);
  }

  lemma TrimmedHead(a: seq<Row>, column: string, ids: set<string>, readList: Parse)
    requires a != []
    ensures multiset(TrimRows(a, column, ids, readList)) ==
            multiset(TrimRows(a[1..], column, ids, readList)) + multiset{TrimRow(a[0], column, ids, readList)}
  {
    hide TrimRow, TrimRows;
    TrimmedWithoutOne(a, 0, column, ids, readList);
    assert a[..0] + a[1..] == a[1..];
  }

  lemma {:induction false} TrimmedSameRows(a: seq<Row>, b: seq<Row>, column: string, ids: set<string>, readList: Parse)
    requires multiset(a) == multiset(b)
    ensures multiset(TrimRows(a, column, ids, readList)) == multiset(TrimRows(b, column, ids, readList))
  {
    hide TrimRow, TrimRows;
    if a == [] {
      assert |b| == |multiset(b)| == 0;
    } else {
      assert a[0] in multiset(b);
      var j :| 0 <= j < |b| && b[j] == a[0];
      HeadRemoved(a, b, j);
      TrimmedSameRows(a[1..], b[..j] + b[j + 1..], column, ids, readList);
      TrimmedHead(a, column, ids, readList);
      TrimmedWithoutOne(b, j, column, ids, readList);
    }
  }

  lemma TakenAway<T>(a: multiset<T>, b: multiset<T>, x: T)
    requires a + multiset{x} == b + multiset{x}
    ensures a == b
  {
    assert a == (a + multiset{x}) - multiset{x};
    assert b == (b + multiset{x}) - multiset{x};
  }

  lemma HeadRemoved<T>(a: seq<T>, b: seq<T>, j: nat)
    requires multiset(a) == multiset(b) && a != [] && j < |b| && b[j] == a[0]
    ensures multiset(a[1..]) == multiset(b[..j] + b[j + 1..])
  {
    WithoutOne(a, 0);
    WithoutOne(b, j);
    assert a[..0] + a[1..] == a[1..];
    TakenAway(multiset(a[1..]), multiset(b[..j] + b[j + 1..]), a[0]);
  }

  lemma WithoutOne<T>(b: seq<T>, j: nat)
    requires j < |b|
    ensures multiset(b) == multiset(b[..j] + b[j + 1..]) + multiset{b[j]}
  {
    assert b == b[..j] + [b[j]] + b[j + 1..];
  }

  lemma TrimmedWithoutOne(b: seq<Row>, j: nat, column: string, ids: set<string>, readList: Parse)
    requires j < |b|
    ensures multiset(TrimRows(b, column, ids, readList)) ==
            multiset(TrimRows(b[..j] + b[j + 1..], column, ids, readList)) +
            multiset{TrimRow(b[j], column, ids, readList)}
  {
    hide TrimRow;
    var t := TrimRows(b, column, ids, readList);
    assert TrimRows(b[..j] + b[j + 1..], column, ids, readList) == t[..j] + t[j + 1..];
    WithoutOne(t, j);
  }

  lemma ConfinedSameRows(a: Tables, b: Tables, readList: Parse)
    requires SameRows(a, b)
    ensures SameRows(Trimmed(a, readList), Trimmed(b, readList))
    ensures RefsHold(a) <==> RefsHold(b)
  {
    forall t | t in a ensures Ids(a[t], t) == Ids(b[t], t) && forall r :: r in a[t] <==> r in b[t] {
      SameRowsSameIds(a[t], b[t], t);
      SameMembers(a[t], b[t]);
    }
    forall t | t in a ensures multiset(Trimmed(a, readList)[t]) == multiset(Trimmed(b, readList)[t]) {
      if IdList(t).Some? && IdList(t).value.to in a {
        var l := IdList(t).value;
        TrimmedSameRows(a[t], b[t], l.fk, Ids(a[l.to], l.to), readList);
      }
    }
    forall t, ref | t in a && ref in Refs(t) ensures RefHolds(a, t, ref) <==> RefHolds(b, t, ref) {
    }
  }

  lemma LiveTablesDropAlike(live: Tables, a: Tables, b: Tables, t: Table)
    requires IsLive(live) && IsContent(a) && IsContent(b) && t in live
    ensures Dropped(live + a)[t] == Dropped(live + b)[t]
  {
    assert ParentOf(t).Some? ==>
             ParentOf(t).value.to == Schools && Kept(live + a, Schools) == live[Schools] == Kept(live + b, Schools);
    assert Kept(live + a, t) == Kept(live + b, t);
  }

  /**
   The promise of the initial publication. For closed content with unique keys, no deleted curriculum, every bank row
   used and every quiz lesson at home: what is served after publishing everything, and what the live export sent,
   are refused together or hold the same rows in every table.
   */
  lemma PublishAllEqualsTheLiveExport(sets: seq<PublishedSet>, collate: string -> real, all: Tables,
                                      subjects: seq<Row>, live: Tables, readList: Parse)
    requires Publishable(all, subjects) && PublishedAll(sets, all) && IsLive(live)
    ensures var served, exported := Confined(live + Merged(sets, collate), readList), Confined(live + all, readList);
            (served.Ok? <==> exported.Ok?) && (served.Ok? ==> SameRows(served.value, exported.value))
  {
    hide Merged, Publishable, Selected, Trimmed, RefsHold, IsDeleted, Kept, PolyKept, Problems;
    PublishableKeys(all, subjects);
    var m := Merged(sets, collate);
    assert IsContent(m) by { MergedIsContent(sets, collate); }
    var a, b := Dropped(live + m), Dropped(live + all);
    forall s | s in sets ensures ClosedPayload(s.payload) {
      var c := PublishedCurriculum(sets, all, s);
      EveryCurriculumHasAPayload(all, subjects, c, readList);
    }
    forall t: Table ensures t in a && t in b && multiset(a[t]) == multiset(b[t]) {
      if InCurriculum(t) {
        ConfineDropsNothingOfTheMerge(sets, collate, live, t);
        PublishableStaysWhole(all, subjects, live, t);
        PublishAllThenMergeGivesTheContent(sets, collate, all, subjects, t);
      } else {
        LiveTablesDropAlike(live, m, all, t);
      }
    }
    ConfinedSameRows(a, b, readList);
    ConfineRefusesExactlyDanglingNames(live + m, readList);
    ConfineRefusesExactlyDanglingNames(live + all, readList);
  }

  lemma MergedIsContent(sets: seq<PublishedSet>, collate: string -> real)
    ensures IsContent(Merged(sets, collate))
  {
  }

  lemma PublishableStaysWhole(all: Tables, subjects: seq<Row>, live: Tables, t: Table)
    requires Publishable(all, subjects) && IsLive(live) && InCurriculum(t)
    ensures Dropped(live + all)[t] == all[t]
  {
    hide Dropped, ParentClosed, TranslationsHang, NamesResolve;
    ContentStaysWhole(all, live, t);
  }

  lemma ContentStaysWhole(all: Tables, live: Tables, t: Table)
    requires IsContent(all) && ParentClosed(all) && TranslationsHang(all) && IsLive(live) && InCurriculum(t)
    ensures Dropped(live + all)[t] == all[t]
  {
    var whole := live + all;
    forall u | InCurriculum(u) ensures Kept(whole, u) == all[u] {
      ContentTableStays(all, live, u);
    }
    if t == ContentTranslations {
      forall r | r in all[t] ensures PolyOk(Anchored(whole), r) {
        assert PolyOk(all, r);
      }
      PolyKeptHolds(Anchored(whole), all[t]);
    }
  }

  lemma {:induction false} ContentTableStays(all: Tables, live: Tables, t: Table)
    requires IsContent(all) && ParentClosed(all) && IsLive(live) && InCurriculum(t)
    ensures Kept(live + all, t) == all[t]
    decreases Depth(t)
  {
    if ParentOf(t).Some? {
      var p := ParentOf(t).value;
      ParentIsAbove(t);
      ContentTableStays(all, live, p.to);
      assert HangsIn(all, t);
      UnderHolds(all[t], p.fk, Ids(all[p.to], p.to));
    }
  }
}
