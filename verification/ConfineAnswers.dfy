/** What `confine` answers, row by row: which rows stay, what a list column is trimmed to, which problems are told. */
module ConfineAnswers {
  import opened Values
  import opened Content
  import opened ConfineLaws

  type ReadList = string -> Option<seq<Json>>

  /** Some row of the table has this key. */
  ghost predicate IsThere(rows: seq<Row>, t: Table, key: Option<string>) {
    key.Some? && exists r :: r in rows && KeyIn(r, t) == key
  }

  lemma IdsAre(rows: seq<Row>, t: Table)
    ensures forall key: Option<string> :: key.Some? && key.value in Ids(rows, t) <==> IsThere(rows, t, key)
  {
    hide KeyIn;
    forall key: Option<string> ensures key.Some? && key.value in Ids(rows, t) <==> IsThere(rows, t, key) {
    }
  }

  // ---- which rows stay ---------------------------------------------------------------------------

  /** What a row needs of the tables it stands in: the row it hangs from, when that table was given. */
  ghost predicate HasItsParent(tables: Tables, t: Table, row: Row) {
    (ParentOf(t).Some? && ParentOf(t).value.to in tables ==>
       IsThere(tables[ParentOf(t).value.to], ParentOf(t).value.to, KeyOf(Get(row, ParentOf(t).value.fk)))) &&
    (t == ContentTranslations ==>
       exists of: Table :: PolyTable(row) == Some(of) && Translatable(of) &&
                           (of in tables ==> IsThere(tables[of], of, PolyKey(row))))
  }

  /** After the dropping passes a row is there, as often as given, exactly when what it hangs from is there. */
  lemma RowsStayWithTheirParents(given: Tables, t: Table, row: Row)
    requires t in given
    ensures Dropped(given).Keys == given.Keys
    ensures multiset(Dropped(given)[t])[row] == if HasItsParent(Dropped(given), t, row) then multiset(given[t])[row]
                                                else 0
  {
    hide Under, Ids, Get, KeyOf, IsThere, Names, PolyKept;
    KeptUnfolds(given, t);
    if t == ContentTranslations {
      TranslationsStay(given, row);
    } else {
      TreeRowsStay(given, t, row);
    }
  }

  lemma TreeRowsStay(given: Tables, t: Table, row: Row)
    requires t in given && t != ContentTranslations
    ensures multiset(Dropped(given)[t])[row] == if HasItsParent(Dropped(given), t, row) then multiset(given[t])[row]
                                                else 0
  {
    hide Under, Ids, Get, KeyOf, IsThere, PolyKept, Kept;
    KeptUnfolds(given, t);
    if ParentOf(t).Some? && ParentOf(t).value.to in given {
      var p := ParentOf(t).value;
      ParentIsAbove(t);
      assert p.to != ContentTranslations;
      UnderHolds(given[t], p.fk, Ids(Kept(given, p.to), p.to));
      IdsAre(Kept(given, p.to), p.to);
    }
  }

  lemma TranslationsStay(given: Tables, row: Row)
    requires ContentTranslations in given
    ensures multiset(Dropped(given)[ContentTranslations])[row] ==
            if HasItsParent(Dropped(given), ContentTranslations, row) then multiset(given[ContentTranslations])[row]
            else 0
  {
    hide Under, Ids, Get, KeyOf, IsThere, PolyKept, Kept;
    KeptUnfolds(given, ContentTranslations);
    var anchored := Anchored(given);
    PolyKeptHolds(anchored, anchored[ContentTranslations]);
    if PolyTable(row).Some? && PolyTable(row).value in given {
      IdsAre(Kept(given, PolyTable(row).value), PolyTable(row).value);
    }
  }

  // ---- what a list column is trimmed to ----------------------------------------------------------

  /** The list as it was stored: as a list, or as a text that reads as one. */
  ghost predicate IsListOf(value: Json, readList: ReadList, entries: seq<Json>) {
    match value
    case List(items) => entries == items
    case Str(s) => entries == if readList(s).Some? then readList(s).value else []
    case _ => entries == []
  }

  /** `kept` is `entries` without those that name nothing in the table: the rest as often, and in the order they had. */
  ghost predicate IsWithoutStrangers(entries: seq<Json>, kept: seq<Json>, rows: seq<Row>, to: Table)
    decreases |entries|
  {
    if entries == [] then kept == []
    else if IsThere(rows, to, KeyOf(entries[0])) then
      kept != [] && kept[0] == entries[0] && IsWithoutStrangers(entries[1..], kept[1..], rows, to)
    else IsWithoutStrangers(entries[1..], kept, rows, to)
  }

  /** The row with its list trimmed, and every other column as it was. */
  ghost predicate IsTrimmedRow(was: Row, row: Row, list: Reference, rows: seq<Row>, readList: ReadList) {
    (forall column :: column != list.fk ==> Get(row, column) == Get(was, column)) &&
    if Get(was, list.fk) == Null then row == was
    else exists entries, kept :: IsListOf(Get(was, list.fk), readList, entries) &&
                                 IsWithoutStrangers(entries, kept, rows, list.to) && Get(row, list.fk) == List(kept)
  }

  lemma {:induction false} ListedIs(entries: seq<Json>, rows: seq<Row>, to: Table)
    ensures IsWithoutStrangers(entries, Listed(entries, Ids(rows, to)), rows, to)
  {
    hide Ids, IsThere;
    IdsAre(rows, to);
    if entries != [] {
      ListedIs(entries[1..], rows, to);
      var rest := Listed(entries[1..], Ids(rows, to));
      assert ([entries[0]] + rest)[1..] == rest;
      assert Listed(entries, Ids(rows, to)) == if IsThere(rows, to, KeyOf(entries[0])) then [entries[0]] + rest
                                               else [] + rest;
      assert [] + rest == rest;
    }
  }

  lemma TrimmedRowIs(t: Table, was: Row, rows: seq<Row>, readList: ReadList)
    requires IdList(t).Some?
    ensures var list := IdList(t).value;
            IsTrimmedRow(was, TrimRow(was, list.fk, Ids(rows, list.to), readList), list, rows, readList)
  {
    hide Ids, Listed, IsWithoutStrangers;
    var list := IdList(t).value;
    forall column | column != list.fk
      ensures Get(TrimRow(was, list.fk, Ids(rows, list.to), readList), column) == Get(was, column)
    {
      TrimRowKeepsColumns(t, was, Ids(rows, list.to), readList, column);
    }
    if Get(was, list.fk) != Null {
      var entries := Entries(Get(was, list.fk), readList);
      ListedIs(entries, rows, list.to);
      GetAfterPut(was, list.fk, List(Listed(entries, Ids(rows, list.to))), list.fk);
    }
  }

  /**
   The answer has the rows that stay, in their order; a table's list column is trimmed, row by row, to the entries whose
   rows stay, and nothing else is touched.
   */
  lemma AnswerIs(given: Tables, readList: ReadList, t: Table)
    requires Confined(given, readList).Ok? && t in given
    ensures var out, stay := Confined(given, readList).value, Dropped(given);
            out.Keys == given.Keys && |out[t]| == |stay[t]| &&
            forall i :: 0 <= i < |stay[t]| ==>
              if IdList(t).Some? && IdList(t).value.to in given
              then IsTrimmedRow(stay[t][i], out[t][i], IdList(t).value, stay[IdList(t).value.to], readList)
              else out[t][i] == stay[t][i]
  {
    hide TrimRow, Ids, Problems, Kept, PolyKept, IsTrimmedRow;
    var stay := Dropped(given);
    if IdList(t).Some? && IdList(t).value.to in given {
      forall i | 0 <= i < |stay[t]|
        ensures IsTrimmedRow(stay[t][i], Confined(given, readList).value[t][i], IdList(t).value,
                             stay[IdList(t).value.to], readList)
      {
        TrimmedRowIs(t, stay[t][i], stay[IdList(t).value.to], readList);
      }
    }
  }

  // ---- which problems are told -------------------------------------------------------------------

  /** The rows of a table whose reference names nothing that is there, though it must, or though it names something. */
  ghost function Dangling(tables: Tables, t: Table, ref: Reference): set<nat>
    requires t in tables && ref.to in tables
  {
    set i: nat | i < |tables[t]| &&
      if KeyOf(Get(tables[t][i], ref.fk)).None? then !ref.optional
      else !IsThere(tables[ref.to], ref.to, KeyOf(Get(tables[t][i], ref.fk)))
  }

  ghost predicate IsProblem(tables: Tables, p: Problem) {
    p.table in tables && p.to in tables &&
    exists ref :: ref in Refs(p.table) && ref.to == p.to && p.missing == |Dangling(tables, p.table, ref)| > 0
  }

  lemma {:induction false} MissingIs(rows: seq<Row>, ref: Reference, targets: set<string>)
    ensures Missing(rows, ref, targets) == |set i: nat | i < |rows| && !RefOk(rows[i], ref, targets)|
  {
    hide RefOk;
    var bad := set i: nat | i < |rows| && !RefOk(rows[i], ref, targets);
    if rows == [] {
      assert bad == {};
    } else {
      var rest := rows[1..];
      var bad' := set i: nat | i < |rest| && !RefOk(rest[i], ref, targets);
      MissingIs(rest, ref, targets);
      var first: set<nat> := if RefOk(rows[0], ref, targets) then {} else {0};
      forall i: nat ensures i in bad <==> i in first || (i > 0 && i - 1 in bad') {
        if 0 < i < |rows| { assert rest[i - 1] == rows[i]; }
      }
      Shifted(bad, first, bad');
    }
  }

  lemma {:induction false} Shifted(all: set<nat>, first: set<nat>, rest: set<nat>)
    requires first <= {0} && forall i: nat :: i in all <==> i in first || (i > 0 && i - 1 in rest)
    ensures |all| == |first| + |rest|
    decreases rest
  {
    if rest == {} {
      assert all == first;
    } else {
      var k :| k in rest;
      assert k + 1 in all;
      Shifted(all - {k + 1}, first, rest - {k});
    }
  }

  lemma DanglingIs(tables: Tables, t: Table, ref: Reference)
    requires t in tables && ref.to in tables
    ensures Missing(tables[t], ref, Ids(tables[ref.to], ref.to)) == |Dangling(tables, t, ref)|
  {
    hide Ids, Get, KeyOf, IsThere;
    var targets := Ids(tables[ref.to], ref.to);
    IdsAre(tables[ref.to], ref.to);
    MissingIs(tables[t], ref, targets);
    assert Dangling(tables, t, ref) == set i: nat | i < |tables[t]| && !RefOk(tables[t][i], ref, targets);
  }

  lemma {:induction false} ProblemsOfAre(tables: Tables, t: Table, refs: seq<Reference>, p: Problem)
    requires t in tables
    ensures p in ProblemsOf(tables, t, refs) <==>
            p.table == t &&
            exists ref ::
              ref in refs && ref.to == p.to && p.to in tables && p.missing == |Dangling(tables, t, ref)| > 0
  {
    hide Dangling, Missing;
    if refs != [] {
      ProblemsOfAre(tables, t, refs[1..], p);
      assert refs == [refs[0]] + refs[1..];
      if refs[0].to in tables { DanglingIs(tables, t, refs[0]); }
    }
  }

  lemma {:induction false} ProblemsAreOf(tables: Tables, keys: seq<Table>, p: Problem)
    ensures p in Problems(tables, keys) <==>
            p.table in keys && p.table in tables && p in ProblemsOf(tables, p.table, Refs(p.table))
  {
    hide ProblemsOf;
    if keys != [] {
      ProblemsAreOf(tables, keys[1..], p);
      assert keys == [keys[0]] + keys[1..];
      if keys[0] in tables && p in ProblemsOf(tables, keys[0], Refs(keys[0])) {
        ProblemsOfAre(tables, keys[0], Refs(keys[0]), p);
      }
    }
  }

  /**
   A refusal tells, for every reference with rows that dangle among those that stay, how many do, and nothing else.
   */
  lemma RefusalTells(given: Tables, readList: ReadList, p: Problem)
    requires Confined(given, readList).Err?
    ensures p in Confined(given, readList).error <==> IsProblem(Dropped(given), p)
  {
    hide Problems, ProblemsOf, Dangling, Refs, Dropped;
    var tables := Dropped(given);
    ProblemsAreOf(tables, CONTENT_TABLE_KEYS, p);
    EveryTableIsAKey(p.table);
    if p.table in tables { ProblemsOfAre(tables, p.table, Refs(p.table), p); }
  }
}
