/** What `confine` guarantees: the greatest closed part, nothing left dangling, and nothing more to do a second time. */
module ConfineLaws {
  import opened Values
  import opened Content

  /** The same tables, each holding only rows the other holds. */
  ghost predicate Within(part: Tables, whole: Tables) {
    part.Keys == whole.Keys && forall t, r :: t in part && r in part[t] ==> r in whole[t]
  }

  ghost predicate HangsIn(tables: Tables, t: Table)
    requires t in tables
  {
    ParentOf(t).Some? && ParentOf(t).value.to in tables ==>
      var p := ParentOf(t).value;
      forall r :: r in tables[t] ==> Names(r, p.fk, Ids(tables[p.to], p.to))
  }

  /** Every row hangs from a row that is there. */
  ghost predicate ParentClosed(tables: Tables) {
    forall t :: t in tables ==> HangsIn(tables, t)
  }

  /** Every translation hangs from a row that is there. */
  ghost predicate TranslationsHang(tables: Tables) {
    ContentTranslations in tables ==> forall r :: r in tables[ContentTranslations] ==> PolyOk(tables, r)
  }

  ghost predicate RefHolds(tables: Tables, t: Table, ref: Reference)
    requires t in tables
  {
    ref.to in tables ==> forall r :: r in tables[t] ==> RefOk(r, ref, Ids(tables[ref.to], ref.to))
  }

  /** Every question, document, subject, country and lesson a row names is there. */
  ghost predicate RefsHold(tables: Tables) {
    forall t, ref :: t in tables && ref in Refs(t) ==> RefHolds(tables, t, ref)
  }

  ghost predicate AllListed(value: Json, ids: set<string>) {
    value == Null || (value.List? && forall e :: e in value.items ==> KeyOf(e).Some? && KeyOf(e).value in ids)
  }

  /** Every entry of an id list names a row that is there. */
  ghost predicate ListsHold(tables: Tables) {
    forall t :: t in tables && IdList(t).Some? && IdList(t).value.to in tables ==>
      var l := IdList(t).value;
      forall r :: r in tables[t] ==> AllListed(Get(r, l.fk), Ids(tables[l.to], l.to))
  }

  // ---- the greatest closed part ------------------------------------------------------------------

  lemma AnchoredIsClosed(given: Tables)
    ensures Within(Anchored(given), given) && ParentClosed(Anchored(given))
  {
    forall t | t in given
      ensures HangsIn(Anchored(given), t) && forall r :: r in Kept(given, t) ==> r in given[t]
    {
      if ParentOf(t).Some? && ParentOf(t).value.to in given {
        var p := ParentOf(t).value;
        ParentIsAbove(t);
        UnderHolds(given[t], p.fk, Ids(Kept(given, p.to), p.to));
      }
    }
  }

  lemma {:induction false} KeptIsGreatest(given: Tables, part: Tables, t: Table)
    requires t in given && Within(part, given) && ParentClosed(part)
    ensures forall r :: r in part[t] ==> r in Kept(given, t)
    decreases Depth(t)
  {
    if ParentOf(t).Some? && ParentOf(t).value.to in given {
      var p := ParentOf(t).value;
      ParentIsAbove(t);
      KeptIsGreatest(given, part, p.to);
      UnderHolds(given[t], p.fk, Ids(Kept(given, p.to), p.to));
      assert HangsIn(part, t);
    }
  }

  /**
   The single pass computes the greatest part of the tables in which every row hangs from a row of the part: that
   part is closed, any other closed part is inside it, and a row that stays stays as often as it was given.
   */
  lemma ConfineKeepsTheGreatestClosedPart(given: Tables, part: Tables)
    requires Within(part, given) && ParentClosed(part)
    ensures Within(Anchored(given), given) && ParentClosed(Anchored(given))
    ensures Within(part, Anchored(given))
    ensures forall t, r :: t in given && r in Anchored(given)[t] ==>
            multiset(Anchored(given)[t])[r] == multiset(given[t])[r]
  {
    AnchoredIsClosed(given);
    forall t | t in given
      ensures forall r :: r in part[t] ==> r in Anchored(given)[t]
      ensures forall r :: r in Anchored(given)[t] ==> multiset(Anchored(given)[t])[r] == multiset(given[t])[r]
    {
      KeptIsGreatest(given, part, t);
      if ParentOf(t).Some? && ParentOf(t).value.to in given {
        var p := ParentOf(t).value;
        ParentIsAbove(t);
        UnderHolds(given[t], p.fk, Ids(Kept(given, p.to), p.to));
      }
    }
  }

  // ---- nothing dangles ----------------------------------------------------------------------------

  lemma DroppedIsClosed(given: Tables)
    ensures Within(Dropped(given), given) && ParentClosed(Dropped(given)) && TranslationsHang(Dropped(given))
    ensures forall t :: t in given && t != ContentTranslations ==> Dropped(given)[t] == Anchored(given)[t]
  {
    AnchoredIsClosed(given);
    var anchored := Anchored(given);
    if ContentTranslations in given {
      PolyKeptHolds(anchored, anchored[ContentTranslations]);
    }
    var d := Dropped(given);
    forall t | t in d ensures HangsIn(d, t) {
      assert HangsIn(anchored, t);
      if ParentOf(t).Some? {
        ParentIsAbove(t);
      }
    }
    if ContentTranslations in d {
      forall r | r in d[ContentTranslations] ensures PolyOk(d, r) {
        assert PolyOk(anchored, r);
      }
    }
  }

  lemma {:induction false} NoProblemsOf(tables: Tables, t: Table, refs: seq<Reference>)
    requires t in tables
    ensures ProblemsOf(tables, t, refs) == [] <==> forall ref :: ref in refs ==> RefHolds(tables, t, ref)
  {
    if refs != [] {
      NoProblemsOf(tables, t, refs[1..]);
      if refs[0].to in tables {
        MissingIsZero(tables[t], refs[0], Ids(tables[refs[0].to], refs[0].to));
      }
      assert RefHolds(tables, t, refs[0]) <==> ProblemOf(tables, t, refs[0]) == [];
      assert refs == [refs[0]] + refs[1..];
    }
  }

  lemma {:induction false} NoProblems(tables: Tables, keys: seq<Table>)
    ensures Problems(tables, keys) == [] <==>
            forall t, ref :: t in keys && t in tables && ref in Refs(t) ==> RefHolds(tables, t, ref)
  {
    if keys != [] {
      NoProblems(tables, keys[1..]);
      assert keys == [keys[0]] + keys[1..];
      if keys[0] in tables {
        NoProblemsOf(tables, keys[0], Refs(keys[0]));
      }
    }
  }

  lemma EveryTableIsAKey(t: Table)
    ensures t in CONTENT_TABLE_KEYS
  {
    assert CONTENT_TABLE_KEYS[PlaceOf(t)] == t;
  }

  /** `confine` refuses exactly when a row that stays names a row that is not there. */
  lemma ConfineRefusesExactlyDanglingNames(given: Tables, readList: string -> Option<seq<Json>>)
    ensures Confined(given, readList).Ok? <==> RefsHold(Dropped(given))
  {
    NoProblems(Dropped(given), CONTENT_TABLE_KEYS);
    forall t: Table ensures t in CONTENT_TABLE_KEYS {
      EveryTableIsAKey(t);
    }
  }

  lemma {:induction false} ListedHolds(entries: seq<Json>, ids: set<string>)
    ensures forall e :: e in Listed(entries, ids) <==> e in entries && KeyOf(e).Some? && KeyOf(e).value in ids
    ensures (forall e :: e in entries ==> KeyOf(e).Some? && KeyOf(e).value in ids) ==> Listed(entries, ids) == entries
  {
    if entries != [] {
      ListedHolds(entries[1..], ids);
      assert entries == [entries[0]] + entries[1..];
    }
  }

  lemma TrimmedRow(t: Table, row: Row, ids: set<string>, readList: string -> Option<seq<Json>>)
    requires IdList(t).Some?
    ensures var trimmed := TrimRow(row, IdList(t).value.fk, ids, readList);
            AllListed(Get(trimmed, IdList(t).value.fk), ids) &&
            TrimRow(trimmed, IdList(t).value.fk, ids, readList) == trimmed
  {
    var l := IdList(t).value.fk;
    if Get(row, l) != Null {
      var entries := Entries(Get(row, l), readList);
      var kept := Listed(entries, ids);
      ListedHolds(entries, ids);
      ListedHolds(kept, ids);
      GetAfterPut(row, l, List(kept), l);
      PutGetIsSame(Put(row, l, List(kept)), l);
    }
  }

  /** The two rows hang from the same row and name the same rows. */
  ghost predicate SameNames(t: Table, a: Row, b: Row) {
    (ParentOf(t).Some? ==> Get(a, ParentOf(t).value.fk) == Get(b, ParentOf(t).value.fk)) &&
    (forall ref :: ref in Refs(t) ==> Get(a, ref.fk) == Get(b, ref.fk)) &&
    (t == ContentTranslations ==> a == b)
  }

  lemma TrimmedRowNamesTheSame(tables: Tables, readList: string -> Option<seq<Json>>, t: Table, i: nat)
    requires t in tables && i < |tables[t]|
    ensures SameNames(t, tables[t][i], Trimmed(tables, readList)[t][i])
  {
    if IdList(t).Some? && IdList(t).value.to in tables {
      var l := IdList(t).value;
      var row := tables[t][i];
      var ids := Ids(tables[l.to], l.to);
      ListColumnIsNoKey(t);
      if ParentOf(t).Some? {
        TrimRowKeepsColumns(t, row, ids, readList, ParentOf(t).value.fk);
      }
      forall ref | ref in Refs(t) ensures Get(row, ref.fk) == Get(TrimRow(row, l.fk, ids, readList), ref.fk) {
        TrimRowKeepsColumns(t, row, ids, readList, ref.fk);
      }
    }
  }

  lemma SameNamesKeepShape(tables: Tables, other: Tables)
    requires ParentClosed(tables) && TranslationsHang(tables) && RefsHold(tables)
    requires other.Keys == tables.Keys && forall t :: t in tables ==> Ids(other[t], t) == Ids(tables[t], t)
    requires forall t, r :: t in other && r in other[t] ==> exists was :: was in tables[t] && SameNames(t, was, r)
    ensures ParentClosed(other) && TranslationsHang(other) && RefsHold(other)
  {
    forall t | t in other ensures HangsIn(other, t) {
      assert HangsIn(tables, t);
    }
    forall t, ref | t in other && ref in Refs(t) ensures RefHolds(other, t, ref) {
      assert RefHolds(tables, t, ref);
    }
    if ContentTranslations in other {
      forall r | r in other[ContentTranslations] ensures PolyOk(other, r) {
        assert PolyOk(tables, r);
      }
    }
  }

  /** Trimming changes no key, parent or reference, so what held of the tables still holds. */
  lemma TrimmingKeepsShape(tables: Tables, readList: string -> Option<seq<Json>>)
    requires ParentClosed(tables) && TranslationsHang(tables) && RefsHold(tables)
    ensures var trimmed := Trimmed(tables, readList);
            ParentClosed(trimmed) && TranslationsHang(trimmed) && RefsHold(trimmed)
  {
    var trimmed := Trimmed(tables, readList);
    forall t | t in tables ensures Ids(trimmed[t], t) == Ids(tables[t], t) {
      TrimmingKeepsIds(tables, readList, t);
    }
    forall t, r | t in trimmed && r in trimmed[t]
      ensures exists was :: was in tables[t] && SameNames(t, was, r)
    {
      var i :| 0 <= i < |trimmed[t]| && trimmed[t][i] == r;
      TrimmingKeepsIds(tables, readList, t);
      TrimmedRowNamesTheSame(tables, readList, t, i);
      assert tables[t][i] in tables[t];
    }
    SameNamesKeepShape(tables, trimmed);
  }

  lemma TrimmedListsHold(tables: Tables, readList: string -> Option<seq<Json>>)
    ensures ListsHold(Trimmed(tables, readList))
    ensures Trimmed(Trimmed(tables, readList), readList) == Trimmed(tables, readList)
  {
    var once := Trimmed(tables, readList);
    var twice := Trimmed(once, readList);
    forall t | t in tables
      ensures twice[t] == once[t]
      ensures IdList(t).Some? && IdList(t).value.to in tables ==>
                forall r :: r in once[t] ==> AllListed(Get(r, IdList(t).value.fk),
                                                       Ids(once[IdList(t).value.to], IdList(t).value.to))
    {
      if IdList(t).Some? && IdList(t).value.to in tables {
        var l := IdList(t).value;
        TrimmingKeepsIds(tables, readList, l.to);
        forall i | 0 <= i < |tables[t]|
          ensures twice[t][i] == once[t][i] && AllListed(Get(once[t][i], l.fk), Ids(once[l.to], l.to))
        {
          TrimmedRow(t, tables[t][i], Ids(tables[l.to], l.to), readList);
        }
      }
    }
  }

  /** Tables that are closed already lose nothing to the passes. */
  lemma ClosedTablesAreKept(tables: Tables)
    requires ParentClosed(tables) && TranslationsHang(tables)
    ensures Dropped(tables) == tables
  {
    forall t | t in tables ensures Kept(tables, t) == tables[t] {
      ClosedTableIsKept(tables, t);
    }
    assert Anchored(tables) == tables;
    if ContentTranslations in tables {
      PolyKeptHolds(tables, tables[ContentTranslations]);
    }
  }

  lemma {:induction false} ClosedTableIsKept(tables: Tables, t: Table)
    requires ParentClosed(tables) && t in tables
    ensures Kept(tables, t) == tables[t]
    decreases Depth(t)
  {
    if ParentOf(t).Some? && ParentOf(t).value.to in tables {
      var p := ParentOf(t).value;
      ParentIsAbove(t);
      ClosedTableIsKept(tables, p.to);
      assert HangsIn(tables, t);
      UnderHolds(tables[t], p.fk, Ids(tables[p.to], p.to));
    }
  }

  /**
   What `confine` answers with: every row hangs from a row of the answer, every name resolves, every list entry is a
   row of the answer; and confining the answer again changes nothing.
   */
  lemma ConfinedIsClosedForGood(given: Tables, readList: string -> Option<seq<Json>>)
    requires Confined(given, readList).Ok?
    ensures var out := Confined(given, readList).value;
            ParentClosed(out) && TranslationsHang(out) && RefsHold(out) && ListsHold(out) &&
            Confined(out, readList) == Ok(out)
  {
    var dropped := Dropped(given);
    DroppedIsClosed(given);
    ConfineRefusesExactlyDanglingNames(given, readList);
    TrimmingKeepsShape(dropped, readList);
    TrimmedListsHold(dropped, readList);
    var out := Trimmed(dropped, readList);
    ClosedTablesAreKept(out);
    ConfineRefusesExactlyDanglingNames(out, readList);
  }
}
