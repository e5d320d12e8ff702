/** Picking one curriculum's rows out of an organisation's content, and the payload a publish makes of them. */
module Selection {
  import opened Values
  import opened Content
  import opened ConfineLaws

  const CURRICULUM_CONTENT_KEYS: seq<Table> := [
    Curriculums, Questions, Documents, CurriculumBaselines, BaselineQuestion, Grades, Levels, Lessons,
    LessonLearnings, LessonLearningDocuments, LessonPlans, LessonPractices, LessonQuizzes,
    LessonPracticeQuestions, LessonQuizQuestions, LevelQuizQuestions, ContentTranslations]

  /** The seventeen tables of an organisation's curriculum content. */
  ghost predicate IsContent(all: Tables) {
    forall t :: t in all <==> InCurriculum(t)
  }

  /** The tables that hang from a curriculum, the curricula themselves included. */
  predicate IsTree(t: Table) {
    Substantive(t) && !IsBank(t)
  }

  function WithKey(rows: seq<Row>, t: Table, wanted: Option<string>): seq<Row> {
    if rows == [] then []
    else (if KeyIn(rows[0], t) == wanted then [rows[0]] else []) + WithKey(rows[1..], t, wanted)
  }

  lemma {:induction false} WithKeyHolds(rows: seq<Row>, t: Table, wanted: Option<string>)
    ensures forall r :: multiset(WithKey(rows, t, wanted))[r] == if KeyIn(r, t) == wanted then multiset(rows)[r] else 0
    ensures forall r :: r in WithKey(rows, t, wanted) <==> r in rows && KeyIn(r, t) == wanted
  {
    if rows != [] {
      WithKeyHolds(rows[1..], t, wanted);
      assert rows == [rows[0]] + rows[1..];
    }
  }

  lemma TreeTable(t: Table)
    requires IsTree(t)
    ensures t == Curriculums || ParentOf(t).Some?
    ensures ParentOf(t).Some? ==> IsTree(ParentOf(t).value.to) && Depth(ParentOf(t).value.to) < Depth(t)
  {
  }

  /** The rows of `t` under the curriculum wanted: the curriculum, then every row whose parent was picked. */
  function TreeRows(all: Tables, wanted: Option<string>, t: Table): seq<Row>
    requires IsContent(all) && IsTree(t)
    decreases Depth(t)
  {
    if t == Curriculums then WithKey(all[Curriculums], Curriculums, wanted)
    else
      TreeTable(t);
      var p := ParentOf(t).value;
      Under(all[t], p.fk, Ids(TreeRows(all, wanted, p.to), p.to))
  }

  function NamedBy(rows: seq<Row>, fk: string): set<string> {
    set r | r in rows && KeyOf(Get(r, fk)).Some? :: KeyOf(Get(r, fk)).value
  }

  function NamedVia(rows: seq<Row>, refs: seq<Reference>, bank: Table): set<string> {
    if refs == [] then {}
    else (if refs[0].to == bank then NamedBy(rows, refs[0].fk) else {}) + NamedVia(rows, refs[1..], bank)
  }

  /** The ids of a bank that the picked rows of one table name. */
  function NamedIn(all: Tables, wanted: Option<string>, bank: Table, t: Table): set<string>
    requires IsContent(all)
  {
    if IsTree(t) then NamedVia(TreeRows(all, wanted, t), Refs(t), bank) else {}
  }

  /** The ids of a bank that the picked rows name. */
  function Named(all: Tables, wanted: Option<string>, bank: Table): set<string>
    requires IsContent(all)
  {
    set t: Table, id | id in NamedIn(all, wanted, bank, t) :: id
  }

  lemma {:induction false} NamedViaHolds(rows: seq<Row>, refs: seq<Reference>, bank: Table, id: string)
    ensures id in NamedVia(rows, refs, bank) <==>
            exists ref :: ref in refs && ref.to == bank && id in NamedBy(rows, ref.fk)
  {
    if refs != [] {
      NamedViaHolds(rows, refs[1..], bank, id);
      assert refs == [refs[0]] + refs[1..];
    }
  }

  /** A translation is picked with the row it hangs from. */
  predicate HangsFromPicked(picked: Tables, row: Row) {
    PolyTable(row).Some? && PolyKey(row).Some? && PolyTable(row).value in picked &&
    PolyKey(row).value in Ids(picked[PolyTable(row).value], PolyTable(row).value)
  }

  function TranslationsOf(picked: Tables, rows: seq<Row>): seq<Row> {
    if rows == [] then []
    else (if HangsFromPicked(picked, rows[0]) then [rows[0]] else []) + TranslationsOf(picked, rows[1..])
  }

  lemma {:induction false} TranslationsOfHolds(picked: Tables, rows: seq<Row>)
    ensures forall r :: multiset(TranslationsOf(picked, rows))[r] == if HangsFromPicked(picked, r)
            then multiset(rows)[r] else 0
    ensures forall r :: r in TranslationsOf(picked, rows) <==> r in rows && HangsFromPicked(picked, r)
  {
    hide HangsFromPicked;
    if rows != [] {
      TranslationsOfHolds(picked, rows[1..]);
      assert rows == [rows[0]] + rows[1..];
    }
  }

  /** The curriculum's own rows, and the bank rows they name: everything but the translations. */
  function Picked(all: Tables, wanted: Option<string>): Tables
    requires IsContent(all)
  {
    map t | t in all && Substantive(t) ::
      if IsTree(t) then TreeRows(all, wanted, t) else Under(all[t], Pk(t), Named(all, wanted, t))
  }

  function Selected(all: Tables, wanted: Option<string>): (selected: Tables)
    requires IsContent(all)
    ensures IsContent(selected)
  {
    var picked := Picked(all, wanted);
    picked[ContentTranslations := TranslationsOf(picked, all[ContentTranslations])]
  }

  lemma SelectedIsContent(all: Tables, wanted: Option<string>)
    requires IsContent(all)
    ensures IsContent(Selected(all, wanted))
    ensures forall t :: Substantive(t) ==>
            t in Picked(all, wanted) && Selected(all, wanted)[t] == Picked(all, wanted)[t]
  {
  }

  /** `selectCurriculumTables`: parent before child, then the banks, then the translations. */
  method SelectCurriculumTables(all: Tables, curriculumid: Json) returns (picked: Tables)
    requires IsContent(all)
    ensures picked == Selected(all, KeyOf(curriculumid))
  {
    hide TreeRows, Under, Ids, Pk, Refs, KeyOf, Named, TranslationsOf;
    var wanted := KeyOf(curriculumid);
    KeysInOrder();
    picked := PickTree(all, wanted, CURRICULUM_CONTENT_KEYS);
    var questions := NamedInBank(all, wanted, picked, Questions, CURRICULUM_CONTENT_KEYS);
    var documents := NamedInBank(all, wanted, picked, Documents, CURRICULUM_CONTENT_KEYS);
    picked := picked[Questions := Under(all[Questions], Pk(Questions), questions)][Documents :=
        Under(all[Documents], Pk(Documents), documents)];
    assert picked == Picked(all, wanted) by {
      forall t | Substantive(t) ensures t in picked && picked[t] == Picked(all, wanted)[t] {
        assert IsTree(t) || t == Questions || t == Documents;
      }
    }
    picked := picked[ContentTranslations := TranslationsOf(picked, all[ContentTranslations])];
  }

  /** The curriculum's tables in the export's order: a table's parent is before it. */
  ghost predicate InOrder(keys: seq<Table>) {
    |keys| == 17 && forall i :: 0 <= i < |keys| ==> PlaceOf(keys[i]) == i + 4
  }

  lemma KeysInOrder()
    ensures InOrder(CURRICULUM_CONTENT_KEYS)
  {
  }

  lemma TreeRowsAreUnder(all: Tables, wanted: Option<string>, t: Table)
    requires IsContent(all) && IsTree(t) && t != Curriculums
    ensures ParentOf(t).Some? && IsTree(ParentOf(t).value.to)
    ensures var p := ParentOf(t).value;
            TreeRows(all, wanted, t) == Under(all[t], p.fk, Ids(TreeRows(all, wanted, p.to), p.to))
  {
    hide Under, Ids;
    TreeTable(t);
  }

  lemma InPlace(t: Table)
    ensures PlaceOf(t) >= 4 ==> InCurriculum(t)
    ensures IsTree(t) && t != Curriculums ==> ParentOf(t).Some? && IsTree(ParentOf(t).value.to)
  {
  }

  /** The i-th key is one of the curriculum's tables, the only one in its place, and its parent came before. */
  lemma OrderedKey(keys: seq<Table>, i: nat)
    requires InOrder(keys) && i < |keys|
    ensures InCurriculum(keys[i])
    ensures forall t :: PlaceOf(t) == i + 4 <==> t == keys[i]
    ensures IsTree(keys[i]) && keys[i] != Curriculums ==>
              ParentOf(keys[i]).Some? && IsTree(ParentOf(keys[i]).value.to) &&
              PlaceOf(ParentOf(keys[i]).value.to) < i + 4
  {
    hide PlaceOf, InCurriculum, IsTree;
    assert CONTENT_TABLE_KEYS[i + 4] == keys[i];
    KeysAreInParentOrder(i + 4);
    InPlace(keys[i]);
    forall t | PlaceOf(t) == i + 4 ensures t == keys[i] {
      assert CONTENT_TABLE_KEYS[PlaceOf(t)] == t;
    }
  }

  lemma CurriculumRowsAre(all: Tables, wanted: Option<string>)
    requires IsContent(all)
    ensures TreeRows(all, wanted, Curriculums) == WithKey(all[Curriculums], Curriculums, wanted)
  {
  }

  method PickTree(all: Tables, wanted: Option<string>, keys: seq<Table>) returns (picked: Tables)
    requires IsContent(all) && InOrder(keys)
    ensures forall t :: t in picked <==> IsTree(t)
    ensures forall t :: t in picked ==> picked[t] == TreeRows(all, wanted, t)
  {
    hide Under, Ids, TreeRows, WithKey, PlaceOf;
    picked := map[];
    for i := 0 to |keys|
      invariant forall t :: t in picked <==> IsTree(t) && PlaceOf(t) < i + 4
      invariant forall t :: t in picked ==> picked[t] == TreeRows(all, wanted, t)
    {
      var key := keys[i];
      OrderedKey(keys, i);
      if key == Curriculums {
        CurriculumRowsAre(all, wanted);
        picked := picked[Curriculums := WithKey(all[Curriculums], Curriculums, wanted)];
      } else if key != Questions && key != Documents && key != ContentTranslations {
        TreeTable(key);
        TreeRowsAreUnder(all, wanted, key);
        var parent := ParentOf(key).value;
        picked := picked[key := Under(all[key], parent.fk, Ids(picked[parent.to], parent.to))];
      }
    }
  }

  lemma OrderHoldsAll(keys: seq<Table>, t: Table) returns (k: nat)
    requires InOrder(keys) && InCurriculum(t)
    ensures k < |keys| && keys[k] == t
  {
    k := PlaceOf(t) - 4;
    assert CONTENT_TABLE_KEYS[PlaceOf(keys[k])] == keys[k];
  }

  function NamedByKeys(all: Tables, wanted: Option<string>, bank: Table, keys: seq<Table>): set<string>
    requires IsContent(all)
  {
    if keys == [] then {} else NamedIn(all, wanted, bank, keys[0]) + NamedByKeys(all, wanted, bank, keys[1..])
  }

  lemma {:induction false} NamedByKeysHolds(all: Tables, wanted: Option<string>, bank: Table, keys: seq<Table>,
                                            id: string)
    requires IsContent(all)
    ensures id in NamedByKeys(all, wanted, bank, keys) <==> exists t :: t in keys && id in NamedIn(all, wanted, bank, t)
  {
    if keys != [] {
      NamedByKeysHolds(all, wanted, bank, keys[1..], id);
      assert keys == [keys[0]] + keys[1..];
    }
  }

  lemma NamedByAllKeys(all: Tables, wanted: Option<string>, bank: Table, keys: seq<Table>)
    requires IsContent(all) && InOrder(keys)
    ensures NamedByKeys(all, wanted, bank, keys) == Named(all, wanted, bank)
  {
    forall id ensures id in NamedByKeys(all, wanted, bank, keys) <==> id in Named(all, wanted, bank) {
      NamedByKeysHolds(all, wanted, bank, keys, id);
      if id in Named(all, wanted, bank) {
        var t: Table :| id in NamedIn(all, wanted, bank, t);
        var k := OrderHoldsAll(keys, t);
      }
    }
  }

  method NamedInBank(ghost all: Tables, ghost wanted: Option<string>, picked: Tables, bank: Table, keys: seq<Table>)
      returns (named: set<string>)
    requires IsContent(all) && InOrder(keys)
    requires forall t :: t in picked <==> IsTree(t)
    requires forall t :: t in picked ==> picked[t] == TreeRows(all, wanted, t)
    ensures named == Named(all, wanted, bank)
  {
    named := {};
    for i := 0 to |keys|
      invariant named + NamedByKeys(all, wanted, bank, keys[i..]) == NamedByKeys(all, wanted, bank, keys)
    {
      assert keys[i..][1..] == keys[i + 1..];
      var more := NamedByTable(all, wanted, picked, bank, keys[i]);
      named := named + more;
    }
    NamedByAllKeys(all, wanted, bank, keys);
  }

  method NamedByTable(ghost all: Tables, ghost wanted: Option<string>, picked: Tables, bank: Table, t: Table)
      returns (named: set<string>)
    requires IsContent(all)
    requires forall t :: t in picked <==> IsTree(t)
    requires forall t :: t in picked ==> picked[t] == TreeRows(all, wanted, t)
    ensures named == NamedIn(all, wanted, bank, t)
  {
    named := {};
    if t in picked {
      named := NamedByRefs(picked[t], Refs(t), bank);
    }
  }

  method NamedByRefs(rows: seq<Row>, refs: seq<Reference>, bank: Table) returns (named: set<string>)
    ensures named == NamedVia(rows, refs, bank)
  {
    named := {};
    for j := 0 to |refs|
      invariant named + NamedVia(rows, refs[j..], bank) == NamedVia(rows, refs, bank)
    {
      assert refs[j..][1..] == refs[j + 1..];
      if refs[j].to == bank {
        named := named + NamedBy(rows, refs[j].fk);
      }
    }
  }

  // ---- what is picked ----------------------------------------------------------------------------

  lemma SelectedHangs(all: Tables, wanted: Option<string>, t: Table)
    requires IsContent(all) && InCurriculum(t)
    ensures HangsIn(Selected(all, wanted), t)
  {
    hide TreeRows, Ids, Get, Under, Names, Named, TranslationsOf;
    SelectedIsContent(all, wanted);
    if ParentOf(t).Some? {
      ParentIsAbove(t);
      var p := ParentOf(t).value;
      TreeRowsAreUnder(all, wanted, t);
      UnderHolds(all[t], p.fk, Ids(TreeRows(all, wanted, p.to), p.to));
    }
  }

  /**
   Whatever the content holds, a selection is parent-closed: every row hangs from a row picked with it. So
   `confine`'s parent pass finds nothing to leave out.
   */
  lemma SelectionIsClosed(all: Tables, wanted: Option<string>)
    requires IsContent(all)
    ensures ParentClosed(Selected(all, wanted)) && Anchored(Selected(all, wanted)) == Selected(all, wanted)
  {
    var s := Selected(all, wanted);
    SelectedIsContent(all, wanted);
    forall t | t in s ensures HangsIn(s, t) {
      SelectedHangs(all, wanted, t);
    }
    forall t | t in s ensures Kept(s, t) == s[t] {
      ClosedTableIsKept(s, t);
    }
  }

  /** A translation is picked with its parent; `confine` then leaves it out only when its table is not translatable. */
  lemma SelectedTranslationsHang(all: Tables, wanted: Option<string>, row: Row)
    requires IsContent(all) && row in Selected(all, wanted)[ContentTranslations]
    ensures HangsFromPicked(Selected(all, wanted), row)
    ensures PolyOk(Selected(all, wanted), row) <==> Translatable(PolyTable(row).value)
  {
    SelectedIsContent(all, wanted);
    TranslationsOfHolds(Picked(all, wanted), all[ContentTranslations]);
  }

  ghost predicate UniqueKeysIn(rows: seq<Row>, t: Table) {
    (forall r :: r in rows ==> KeyIn(r, t).Some?) &&
    (forall i, j :: 0 <= i < j < |rows| ==> KeyIn(rows[i], t) != KeyIn(rows[j], t))
  }

  /** Every row has a key and no two rows of a table share one: what a primary key guarantees. */
  ghost predicate UniqueKeys(all: Tables)
    requires IsContent(all)
  {
    forall t :: t in all ==> UniqueKeysIn(all[t], t)
  }

  function Find(rows: seq<Row>, t: Table, key: string): Option<Row> {
    if rows == [] then None
    else if KeyIn(rows[0], t) == Some(key) then Some(rows[0])
    else Find(rows[1..], t, key)
  }

  lemma {:induction false} FindHolds(rows: seq<Row>, t: Table, key: string)
    ensures Find(rows, t, key).Some? ==>
            Find(rows, t, key).value in rows && KeyIn(Find(rows, t, key).value, t) == Some(key)
    ensures Find(rows, t, key).None? ==> key !in Ids(rows, t)
  {
    if rows != [] {
      FindHolds(rows[1..], t, key);
      assert rows == [rows[0]] + rows[1..];
    }
  }

  /** The curriculum a row sits under, found upwards: its parent, its parent's parent, to the curriculum's own key. */
  function HomeOf(all: Tables, t: Table, row: Row): Option<string>
    requires IsContent(all) && IsTree(t)
    decreases Depth(t)
  {
    if t == Curriculums then KeyIn(row, t)
    else
      TreeTable(t);
      var p := ParentOf(t).value;
      var key := KeyOf(Get(row, p.fk));
      if key.None? then None
      else
        var parent := Find(all[p.to], p.to, key.value);
        if parent.None? then None else HomeOf(all, p.to, parent.value)
  }

  lemma SameKeySameRow(rows: seq<Row>, t: Table, a: Row, b: Row)
    requires UniqueKeysIn(rows, t) && a in rows && b in rows && KeyIn(a, t) == KeyIn(b, t)
    ensures a == b
  {
    hide KeyIn;
    var i :| 0 <= i < |rows| && rows[i] == a;
    var j :| 0 <= j < |rows| && rows[j] == b;
  }

  /** The two ways agree: a row is picked going down from a curriculum exactly when going up from it leads there. */
  lemma {:induction false} DownwardSelectionIsUpwardWalk(all: Tables, c: string, t: Table, row: Row)
    requires IsContent(all) && UniqueKeys(all) && IsTree(t) && row in all[t]
    ensures row in TreeRows(all, Some(c), t) <==> HomeOf(all, t, row) == Some(c)
    decreases Depth(t)
  {
    if t == Curriculums {
      WithKeyHolds(all[t], t, Some(c));
    } else {
      TreeTable(t);
      var p := ParentOf(t).value;
      UnderHolds(all[t], p.fk, Ids(TreeRows(all, Some(c), p.to), p.to));
      TreeRowsAreRows(all, Some(c), p.to);
      var key := KeyOf(Get(row, p.fk));
      if key.Some? {
        FindHolds(all[p.to], p.to, key.value);
        var parent := Find(all[p.to], p.to, key.value);
        if parent.Some? {
          DownwardSelectionIsUpwardWalk(all, c, p.to, parent.value);
          if key.value in Ids(TreeRows(all, Some(c), p.to), p.to) {
            var q :| q in TreeRows(all, Some(c), p.to) && KeyIn(q, p.to) == key;
            SameKeySameRow(all[p.to], p.to, q, parent.value);
          }
        }
      }
    }
  }

  lemma TreeRowsAreRows(all: Tables, wanted: Option<string>, t: Table)
    requires IsContent(all) && IsTree(t)
    ensures forall r :: r in TreeRows(all, wanted, t) ==> r in all[t]
    ensures forall r :: r in TreeRows(all, wanted, t) ==> multiset(TreeRows(all, wanted, t))[r] == multiset(all[t])[r]
  {
    if t == Curriculums {
      WithKeyHolds(all[t], t, wanted);
    } else {
      TreeTable(t);
      var p := ParentOf(t).value;
      UnderHolds(all[t], p.fk, Ids(TreeRows(all, wanted, p.to), p.to));
    }
  }

  // ---- the payload -------------------------------------------------------------------------------

  datatype Refusal =
    | NotFound
    | NamesDeletedSubject(rows: nat)
    | NamesOutside(problems: seq<Problem>)
    | HangsOutside(tables: set<Table>)

  predicate IsDeleted(row: Row) {
    Get(row, "isdeleted") == Bool(true) || Get(row, "isdeleted") == Num(1)
  }

  function LiveRows(rows: seq<Row>): seq<Row> {
    if rows == [] then [] else (if IsDeleted(rows[0]) then [] else [rows[0]]) + LiveRows(rows[1..])
  }

  predicate NamesDeleted(row: Row, subjects: seq<Row>) {
    var id := KeyOf(Get(row, "subjectid"));
    id.Some? &&
    (exists s :: s in subjects && IsDeleted(s) && KeyIn(s, Subjects) == id) &&
    !(exists s :: s in subjects && !IsDeleted(s) && KeyIn(s, Subjects) == id)
  }

  function NamingDeleted(rows: seq<Row>, subjects: seq<Row>): nat {
    if rows == [] then 0 else (if NamesDeleted(rows[0], subjects) then 1 else 0) + NamingDeleted(rows[1..], subjects)
  }

  /** The tables `confine` left rows out of. */
  function Shrunk(before: Tables, after: Tables): set<Table>
    requires before.Keys <= after.Keys
  {
    set t | t in before && |after[t]| != |before[t]|
  }

  /** `confine` on one curriculum's rows, against the live subjects; a payload it would change is refused. */
  function ConfinedCurriculum(tables: Tables, subjects: seq<Row>,
                              readList: string -> Option<seq<Json>>): Result<Tables, Refusal>
    requires IsContent(tables)
  {
    var deleted := NamingDeleted(tables[Curriculums], subjects);
    if deleted > 0 then Err(NamesDeletedSubject(deleted))
    else
      match Confined(tables[Subjects := LiveRows(subjects)], readList)
      case Err(problems) => Err(NamesOutside(problems))
      case Ok(confined) =>
        ConfinedKeepsTables(tables[Subjects := LiveRows(subjects)], readList);
        var dropped := Shrunk(tables, confined);
        if dropped != {} then Err(HangsOutside(dropped)) else Ok(confined - {Subjects})
  }

  lemma ConfinedKeepsTables(given: Tables, readList: string -> Option<seq<Json>>)
    ensures Confined(given, readList).Ok? ==> Confined(given, readList).value.Keys == given.Keys
  {
  }

  /** The payload of one curriculum out of the organisation's content: its rows, confined. */
  function PayloadOf(all: Tables, curriculumid: Json, subjects: seq<Row>,
                     readList: string -> Option<seq<Json>>): Result<Tables, Refusal>
    requires IsContent(all)
  {
    var picked := Selected(all, KeyOf(curriculumid));
    if picked[Curriculums] == [] || IsDeleted(picked[Curriculums][0]) then Err(NotFound)
    else ConfinedCurriculum(picked, subjects, readList)
  }

  /** The rows of a curriculum name only rows of its own payload and live subjects. */
  ghost predicate NamesResolve(payload: Tables, subjects: seq<Row>) {
    RefsHold(payload[Subjects := LiveRows(subjects)])
  }

  lemma {:induction false} NamingDeletedIsZero(rows: seq<Row>, subjects: seq<Row>)
    ensures NamingDeleted(rows, subjects) == 0 <==> forall r :: r in rows ==> !NamesDeleted(r, subjects)
  {
    if rows != [] {
      NamingDeletedIsZero(rows[1..], subjects);
      assert rows == [rows[0]] + rows[1..];
    }
  }

  lemma {:induction false} LiveRowsHolds(rows: seq<Row>)
    ensures forall r :: r in LiveRows(rows) <==> r in rows && !IsDeleted(r)
  {
    if rows != [] {
      LiveRowsHolds(rows[1..]);
      assert rows == [rows[0]] + rows[1..];
    }
  }

  /**
   A curriculum whose names resolve names no deleted subject, so that refusal is only ever about a name that fails.
   */
  lemma ResolvedNamesNoDeletedSubject(payload: Tables, subjects: seq<Row>)
    requires IsContent(payload) && NamesResolve(payload, subjects)
    ensures NamingDeleted(payload[Curriculums], subjects) == 0
  {
    NamingDeletedIsZero(payload[Curriculums], subjects);
    LiveRowsHolds(subjects);
    var tables := payload[Subjects := LiveRows(subjects)];
    var ref := Reference("subjectid", Subjects, true);
    assert ref in Refs(Curriculums) && RefHolds(tables, Curriculums, ref);
    forall r | r in payload[Curriculums] ensures !NamesDeleted(r, subjects) {
      assert RefOk(r, ref, Ids(LiveRows(subjects), Subjects));
    }
  }

  /** With subjects beside it a closed selection still keeps every row. */
  lemma SubjectsKeepAll(s: Tables, subjects: seq<Row>)
    requires IsContent(s) && ParentClosed(s)
    ensures Anchored(s[Subjects := subjects]) == s[Subjects := subjects]
  {
    var given := s[Subjects := subjects];
    forall t | t in given ensures HangsIn(given, t) {
      if t in s { assert HangsIn(s, t); }
    }
    forall t | t in given ensures Kept(given, t) == given[t] {
      ClosedTableIsKept(given, t);
    }
  }

  lemma SelectionWithSubjects(s: Tables, subjects: seq<Row>)
    requires IsContent(s) && ParentClosed(s)
    ensures var given := s[Subjects := LiveRows(subjects)];
            Dropped(given) == given[ContentTranslations := PolyKept(given, s[ContentTranslations])] &&
            (forall r :: PolyOk(given, r) <==> PolyOk(s, r)) &&
            (RefsHold(Dropped(given)) <==> NamesResolve(s, subjects))
  {
    hide RefsHold, LiveRows;
    var given := s[Subjects := LiveRows(subjects)];
    SubjectsKeepAll(s, LiveRows(subjects));
    RefsIgnoreTranslations(given, Dropped(given));
  }

  /** No row names a translation, so which of them stay does not matter to what the other rows name. */
  lemma RefsIgnoreTranslations(a: Tables, b: Tables)
    requires a.Keys == b.Keys && forall t :: t in a && t != ContentTranslations ==> a[t] == b[t]
    ensures RefsHold(a) <==> RefsHold(b)
  {
    forall t, ref | t in a && ref in Refs(t) ensures RefHolds(a, t, ref) <==> RefHolds(b, t, ref) {
      assert t != ContentTranslations && ref.to != ContentTranslations;
    }
  }

  lemma TrimmingAPayloadChangesNothing(given: Tables, readList: string -> Option<seq<Json>>)
    requires Schools !in given
    ensures Trimmed(given, readList) == given
  {
  }

  /**
   A publish makes a payload exactly when the curriculum is there and not deleted, every name resolves in it, and no
   translation names a table that has none; and the payload is then the selection itself, never a changed one.
   */
  lemma PayloadIsTheSelectionOrRefused(all: Tables, curriculumid: Json, subjects: seq<Row>,
                                       readList: string -> Option<seq<Json>>)
    requires IsContent(all)
    ensures var s := Selected(all, KeyOf(curriculumid)); var p := PayloadOf(all, curriculumid, subjects, readList);
            (p.Ok? ==> p.value == s) &&
            (p.Ok? <==>
             s[Curriculums] != [] && !IsDeleted(s[Curriculums][0]) && NamesResolve(s, subjects) && TranslationsHang(s))
  {
    var s := Selected(all, KeyOf(curriculumid));
    SelectionIsClosed(all, KeyOf(curriculumid));
    SelectedIsContent(all, KeyOf(curriculumid));
    ConfinedCurriculumIsTheRows(s, subjects, readList);
  }

  lemma ConfinedCurriculumIsTheRows(s: Tables, subjects: seq<Row>, readList: string -> Option<seq<Json>>)
    requires IsContent(s) && ParentClosed(s)
    ensures var c := ConfinedCurriculum(s, subjects, readList);
            (c.Ok? ==> c.value == s) && (c.Ok? <==> NamesResolve(s, subjects) && TranslationsHang(s))
  {
    var given := s[Subjects := LiveRows(subjects)];
    var dropped := Dropped(given);
    var same := |dropped[ContentTranslations]| == |s[ContentTranslations]|;
    assert Confined(given, readList) == if NamesResolve(s, subjects) then Ok(dropped)
                                        else Confined(given, readList) by {
      SelectionWithSubjects(s, subjects);
      ConfineRefusesExactlyDanglingNames(given, readList);
      TrimmingAPayloadChangesNothing(dropped, readList);
    }
    assert Confined(given, readList).Ok? <==> NamesResolve(s, subjects) by {
      SelectionWithSubjects(s, subjects);
      ConfineRefusesExactlyDanglingNames(given, readList);
    }
    var kept := PolyKept(given, s[ContentTranslations]);
    assert dropped == given[ContentTranslations := kept] &&
           (|kept| == |s[ContentTranslations]| <==> TranslationsHang(s)) &&
           (|kept| == |s[ContentTranslations]| ==> kept == s[ContentTranslations]) by {
      SelectionWithSubjects(s, subjects);
      PolyKeptHolds(given, s[ContentTranslations]);
    }
    OnlyTranslationsShrink(s, LiveRows(subjects), kept);
    if NamesResolve(s, subjects) {
      ResolvedNamesNoDeletedSubject(s, subjects);
    }
  }

  lemma OnlyTranslationsShrink(s: Tables, subjects: seq<Row>, kept: seq<Row>)
    requires IsContent(s) && (|kept| == |s[ContentTranslations]| ==> kept == s[ContentTranslations])
    ensures var dropped := s[Subjects := subjects][ContentTranslations := kept];
            dropped.Keys == s.Keys + {Subjects} && (Shrunk(s, dropped) == {} <==> |kept| == |s[ContentTranslations]|) &&
            (|kept| == |s[ContentTranslations]| ==> dropped - {Subjects} == s)
  {
    var dropped := s[Subjects := subjects][ContentTranslations := kept];
    assert ContentTranslations in Shrunk(s, dropped) <==> |kept| != |s[ContentTranslations]|;
    assert forall t :: t in s && t != ContentTranslations ==> dropped[t] == s[t];
  }
}
