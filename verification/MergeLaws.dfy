/**
 What the merge guarantees: one copy of each row, whole, from its newest publication; closure; no dependence on order.
 */
module MergeLaws {
  import opened Values
  import opened Content
  import opened ConfineLaws
  import opened Selection
  import opened Merge

  /** Publications as the reader hands them over: each its own, one per curriculum. */
  ghost predicate DistinctSets(sets: seq<PublishedSet>) {
    forall i, j :: 0 <= i < j < |sets| ==>
      sets[i].publicationid != sets[j].publicationid && sets[i].curriculumid != sets[j].curriculumid
  }

  // ---- one copy of each row ----------------------------------------------------------------------

  lemma ConcatIds(a: seq<Row>, b: seq<Row>, t: Table)
    ensures Ids(a + b, t) == Ids(a, t) + Ids(b, t)
  {
  }

  lemma ConcatUnique(a: seq<Row>, b: seq<Row>, t: Table)
    requires UniqueKeysIn(a, t) && UniqueKeysIn(b, t) && Ids(a, t) !! Ids(b, t)
    ensures UniqueKeysIn(a + b, t)
  {
    forall i, j | 0 <= i < j < |a + b| ensures KeyIn((a + b)[i], t) != KeyIn((a + b)[j], t) {
      if i < |a| <= j {
        assert a[i] in a && b[j - |a|] in b;
        assert KeyIn(a[i], t).value in Ids(a, t) && KeyIn(b[j - |a|], t).value in Ids(b, t);
      }
    }
  }

  /** The row is one the publication wins under a key not taken before. */
  ghost predicate TakenFrom(r: Row, rows: seq<Row>, t: Table, s: PublishedSet, won: Won, taken: set<string>) {
    r in rows && KeyIn(r, t).Some? && KeyIn(r, t).value !in taken && KeyIn(r, t).value in won &&
    won[KeyIn(r, t).value] == s
  }

  predicate Skips(row: Row, t: Table, s: PublishedSet, won: Won, taken: set<string>) {
    KeyIn(row, t).None? || KeyIn(row, t).value !in won || won[KeyIn(row, t).value] != s || KeyIn(row, t).value in taken
  }

  lemma TakeRowsStep(rows: seq<Row>, t: Table, s: PublishedSet, won: Won, taken: set<string>)
    requires rows != []
    ensures Skips(rows[0], t, s, won, taken) ==>
            TakeRows(rows, t, s, won, taken) == TakeRows(rows[1..], t, s, won, taken)
    ensures !Skips(rows[0], t, s, won, taken) ==>
              var rest := TakeRows(rows[1..], t, s, won, taken + {KeyIn(rows[0], t).value});
              TakeRows(rows, t, s, won, taken) == ([rows[0]] + rest.0, rest.1) &&
              Ids([rows[0]], t) == {KeyIn(rows[0], t).value}
    ensures Ids(rows, t) == Ids([rows[0]], t) + Ids(rows[1..], t)
  {
    ConcatIds([rows[0]], rows[1..], t);
    assert rows == [rows[0]] + rows[1..];
  }

  lemma {:induction false} TakeRowsTakes(rows: seq<Row>, t: Table, s: PublishedSet, won: Won, taken: set<string>)
    ensures forall r :: r in TakeRows(rows, t, s, won, taken).0 ==> TakenFrom(r, rows, t, s, won, taken)
  {
    if rows != [] {
      TakeRowsStep(rows, t, s, won, taken);
      TakeRowsTakes(rows[1..], t, s, won, if Skips(rows[0], t, s, won, taken) then taken
                                          else taken + {KeyIn(rows[0], t).value});
    }
  }

  lemma {:induction false} TakeRowsMarks(rows: seq<Row>, t: Table, s: PublishedSet, won: Won, taken: set<string>)
    ensures TakeRows(rows, t, s, won, taken).1 == taken + Ids(TakeRows(rows, t, s, won, taken).0, t)
  {
    if rows != [] {
      TakeRowsStep(rows, t, s, won, taken);
      var next := if Skips(rows[0], t, s, won, taken) then taken else taken + {KeyIn(rows[0], t).value};
      TakeRowsMarks(rows[1..], t, s, won, next);
      ConcatIds([rows[0]], TakeRows(rows[1..], t, s, won, next).0, t);
    }
  }

  lemma {:induction false} TakeRowsIsComplete(rows: seq<Row>, t: Table, s: PublishedSet, won: Won, taken: set<string>)
    ensures forall id :: id in Ids(rows, t) && id in won && won[id] == s ==> id in TakeRows(rows, t, s, won, taken).1
    ensures taken <= TakeRows(rows, t, s, won, taken).1
  {
    if rows != [] {
      TakeRowsStep(rows, t, s, won, taken);
      TakeRowsIsComplete(rows[1..], t, s, won, if Skips(rows[0], t, s, won, taken) then taken
                                               else taken + {KeyIn(rows[0], t).value});
    }
  }

  lemma {:induction false} TakeRowsIsUnique(rows: seq<Row>, t: Table, s: PublishedSet, won: Won, taken: set<string>)
    ensures UniqueKeysIn(TakeRows(rows, t, s, won, taken).0, t)
  {
    if rows != [] {
      TakeRowsStep(rows, t, s, won, taken);
      if Skips(rows[0], t, s, won, taken) {
        TakeRowsIsUnique(rows[1..], t, s, won, taken);
      } else {
        var next := taken + {KeyIn(rows[0], t).value};
        TakeRowsIsUnique(rows[1..], t, s, won, next);
        TakeRowsTakes(rows[1..], t, s, won, next);
        ConcatUnique([rows[0]], TakeRows(rows[1..], t, s, won, next).0, t);
      }
    }
  }

  /** Each row taken is one that some publication wins. */
  ghost predicate IsTaken(emit: seq<PublishedSet>, r: Row, t: Table, won: Won, taken: set<string>) {
    exists s :: s in emit && TakenFrom(r, RowsOf(s, t), t, s, won, taken)
  }

  lemma {:induction false} TakeSetsTakes(emit: seq<PublishedSet>, t: Table, won: Won, taken: set<string>)
    ensures forall r :: r in TakeSets(emit, t, won, taken) ==> IsTaken(emit, r, t, won, taken)
  {
    hide TakeRows, RowsOf;
    if emit != [] {
      var s := emit[0];
      var here := TakeRows(RowsOf(s, t), t, s, won, taken);
      TakeRowsTakes(RowsOf(s, t), t, s, won, taken);
      TakeRowsMarks(RowsOf(s, t), t, s, won, taken);
      TakeSetsTakes(emit[1..], t, won, here.1);
      forall r | r in TakeSets(emit[1..], t, won, here.1) ensures IsTaken(emit, r, t, won, taken) {
        var s' :| s' in emit[1..] && TakenFrom(r, RowsOf(s', t), t, s', won, here.1);
        assert TakenFrom(r, RowsOf(s', t), t, s', won, taken);
      }
    }
  }

  lemma {:induction false} TakeSetsHolds(emit: seq<PublishedSet>, t: Table, won: Won, taken: set<string>)
    ensures var out := TakeSets(emit, t, won, taken);
            UniqueKeysIn(out, t) &&
            (forall r :: r in out ==> IsTaken(emit, r, t, won, taken)) &&
            (forall id :: id in won && won[id] in emit && Holds(won[id], t, id) && id !in taken ==> id in Ids(out, t))
  {
    hide TakeRows, UniqueKeysIn;
    TakeSetsTakes(emit, t, won, taken);
    if emit != [] {
      var s := emit[0];
      var here := TakeRows(RowsOf(s, t), t, s, won, taken);
      TakeRowsMarks(RowsOf(s, t), t, s, won, taken);
      TakeRowsIsComplete(RowsOf(s, t), t, s, won, taken);
      TakeRowsIsUnique(RowsOf(s, t), t, s, won, taken);
      TakeSetsHolds(emit[1..], t, won, here.1);
      var rest := TakeSets(emit[1..], t, won, here.1);
      ConcatIds(here.0, rest, t);
      ConcatUnique(here.0, rest, t);
    } else {
      assert UniqueKeysIn([], t) by { NoneAreUnique(t); }
    }
  }

  lemma NoneAreUnique(t: Table)
    ensures UniqueKeysIn([], t)
  {
  }

  /**
   The merged copy of a table: each key that some publication holds is there exactly once; its row is a row of the
   newest publication holding the key, whole.
   */
  lemma EachRowOnceFromItsNewestPublication(sets: seq<PublishedSet>, collate: string -> real, t: Table)
    requires Substantive(t)
    ensures var out := Merged(sets, collate)[t];
            UniqueKeysIn(out, t) &&
            (forall id :: id in Ids(out, t) <==> exists s :: s in sets && Holds(s, t, id)) &&
            (forall r :: r in out ==> exists w :: Wins(sets, t, KeyIn(r, t).value, w) && r in RowsOf(w, t))
  {
    var out := Merged(sets, collate)[t];
    var emit := Emit(sets, collate);
    var won := Winners(sets, t, map[]);
    EmitHasTheSame(sets, collate);
    TakeSetsHolds(emit, t, won, {});
    forall id ensures id in Ids(out, t) <==> exists s :: s in sets && Holds(s, t, id) {
      TheNewestHolderWins(sets, t, id);
    }
    forall r | r in out ensures exists w :: Wins(sets, t, KeyIn(r, t).value, w) && r in RowsOf(w, t) {
      TheNewestHolderWins(sets, t, KeyIn(r, t).value);
      assert Wins(sets, t, KeyIn(r, t).value, won[KeyIn(r, t).value]);
    }
  }

  lemma {:induction false} TranslationsFromHolds(rows: seq<Row>, s: PublishedSet, sets: seq<PublishedSet>)
    ensures forall r ::
              multiset(TranslationsFrom(rows, s, sets))[r] == if GoesWithParent(r, s, sets) then multiset(rows)[r]
                                                              else 0
    ensures forall r :: r in TranslationsFrom(rows, s, sets) <==> r in rows && GoesWithParent(r, s, sets)
  {
    hide GoesWithParent;
    if rows != [] {
      TranslationsFromHolds(rows[1..], s, sets);
      assert rows == [rows[0]] + rows[1..];
    }
  }

  lemma {:induction false} MergedTranslationsHolds(emit: seq<PublishedSet>, sets: seq<PublishedSet>, row: Row)
    ensures row in MergedTranslations(emit, sets) <==>
            exists s :: s in emit && row in RowsOf(s, ContentTranslations) && GoesWithParent(row, s, sets)
  {
    hide GoesWithParent, RowsOf, TranslationsFrom;
    if emit != [] {
      MergedTranslationsHolds(emit[1..], sets, row);
      TranslationsFromHolds(RowsOf(emit[0], ContentTranslations), emit[0], sets);
      assert emit == [emit[0]] + emit[1..];
    }
  }

  /** A translation is kept exactly when its own publication won the row it hangs from. */
  lemma TranslationsGoWithTheirParent(sets: seq<PublishedSet>, collate: string -> real, row: Row)
    ensures row in Merged(sets, collate)[ContentTranslations] <==>
            exists s :: s in sets && row in RowsOf(s, ContentTranslations) && GoesWithParent(row, s, sets)
  {
    EmitHasTheSame(sets, collate);
    MergedTranslationsHolds(Emit(sets, collate), sets, row);
  }

  // ---- order does not matter ---------------------------------------------------------------------

  lemma DistinctSetsById(sets: seq<PublishedSet>, a: PublishedSet, b: PublishedSet)
    requires DistinctSets(sets) && a in sets && b in sets
    requires a.publicationid == b.publicationid || a.curriculumid == b.curriculumid
    ensures a == b
  {
    var i :| 0 <= i < |sets| && sets[i] == a;
    var j :| 0 <= j < |sets| && sets[j] == b;
  }

  lemma SameMembers<T>(a: seq<T>, b: seq<T>)
    requires multiset(a) == multiset(b)
    ensures forall x :: x in a <==> x in b
    ensures |a| == |b|
  {
    assert forall x :: x in a <==> x in multiset(a);
    assert |multiset(a)| == |a| && |multiset(b)| == |b|;
  }

  lemma WinnerIgnoresOrder(sets: seq<PublishedSet>, other: seq<PublishedSet>, t: Table, id: string)
    requires DistinctSets(sets) && multiset(sets) == multiset(other)
    ensures WinnerOf(sets, t, id) == WinnerOf(other, t, id)
  {
    SameMembers(sets, other);
    TheNewestHolderWins(sets, t, id);
    TheNewestHolderWins(other, t, id);
    if WinnerOf(sets, t, id).Some? {
      var a, b := WinnerOf(sets, t, id).value, WinnerOf(other, t, id).value;
      OlderIsAnOrder(a, b, a);
      DistinctSetsById(sets, a, b);
    }
  }

  /** The winners do not depend on the order the publications were read in. */
  lemma WinnersIgnoreOrder(sets: seq<PublishedSet>, other: seq<PublishedSet>, t: Table)
    requires DistinctSets(sets) && multiset(sets) == multiset(other)
    ensures Winners(sets, t, map[]) == Winners(other, t, map[])
  {
    var w, v := Winners(sets, t, map[]), Winners(other, t, map[]);
    forall id ensures (id in w <==> id in v) && (id in w ==> w[id] == v[id]) {
      WinnerIgnoresOrder(sets, other, t, id);
    }
  }

  lemma FirstsAgree(a: seq<PublishedSet>, b: seq<PublishedSet>, collate: string -> real)
    requires Merge.InOrder(a, collate) && Merge.InOrder(b, collate) && a != [] && b != [] && a[0] in b && b[0] in a
    requires forall x, y :: x in a && y in a && x.curriculumid == y.curriculumid ==> x == y
    ensures a[0] == b[0]
  {
    hide NameOf, Less;
    LessIsTotal(a[0].curriculumid, b[0].curriculumid);
    var j :| 0 <= j < |b| && b[j] == a[0];
    var i :| 0 <= i < |a| && a[i] == b[0];
  }

  lemma TailOf<T>(a: seq<T>)
    requires a != []
    ensures a == [a[0]] + a[1..] && multiset(a[1..]) == multiset(a) - multiset{a[0]}
  {
    assert a == [a[0]] + a[1..];
  }

  /** Two ordered lists of the same publications of different curricula are the same list. */
  lemma {:induction false} OrderedListsAgree(a: seq<PublishedSet>, b: seq<PublishedSet>, collate: string -> real)
    requires multiset(a) == multiset(b) && Merge.InOrder(a, collate) && Merge.InOrder(b, collate)
    requires forall x, y :: x in a && y in a && x.curriculumid == y.curriculumid ==> x == y
    ensures a == b
  {
    hide Before;
    SameMembers(a, b);
    if a != [] {
      assert a[0] in b && b[0] in a;
      FirstsAgree(a, b, collate);
      TailOf(a);
      TailOf(b);
      OrderedListsAgree(a[1..], b[1..], collate);
    }
  }

  lemma {:induction false} TranslationsIgnoreOrder(emit: seq<PublishedSet>, sets: seq<PublishedSet>,
                                                   other: seq<PublishedSet>)
    requires forall t: Table :: Winners(sets, t, map[]) == Winners(other, t, map[])
    ensures MergedTranslations(emit, sets) == MergedTranslations(emit, other)
  {
    if emit != [] {
      TranslationsIgnoreOrder(emit[1..], sets, other);
      SameTranslations(RowsOf(emit[0], ContentTranslations), emit[0], sets, other);
    }
  }

  lemma {:induction false} SameTranslations(rows: seq<Row>, s: PublishedSet, sets: seq<PublishedSet>,
                                            other: seq<PublishedSet>)
    requires forall t: Table :: Winners(sets, t, map[]) == Winners(other, t, map[])
    ensures TranslationsFrom(rows, s, sets) == TranslationsFrom(rows, s, other)
  {
    if rows != [] {
      SameTranslations(rows[1..], s, sets, other);
      assert GoesWithParent(rows[0], s, sets) == GoesWithParent(rows[0], s, other);
    }
  }

  /** The same publications give the same rows in the same order, whatever order they are passed in. */
  lemma MergeIgnoresOrder(sets: seq<PublishedSet>, other: seq<PublishedSet>, collate: string -> real)
    requires DistinctSets(sets) && multiset(sets) == multiset(other)
    ensures Merged(sets, collate) == Merged(other, collate)
  {
    EmitHolds(sets, collate);
    EmitHolds(other, collate);
    EmitHasTheSame(sets, collate);
    forall x, y | x in Emit(sets, collate) && y in Emit(sets, collate) && x.curriculumid == y.curriculumid
      ensures x == y
    {
      DistinctSetsById(sets, x, y);
    }
    OrderedListsAgree(Emit(sets, collate), Emit(other, collate), collate);
    forall t: Table ensures Winners(sets, t, map[]) == Winners(other, t, map[]) {
      WinnersIgnoreOrder(sets, other, t);
    }
    TranslationsIgnoreOrder(Emit(sets, collate), sets, other);
  }

  // ---- the merge is closed when the payloads are --------------------------------------------------

  /** What a stored payload is: a whole curriculum's tables that `confine` left as they were. */
  ghost predicate ClosedPayload(p: Tables) {
    IsContent(p) && ParentClosed(p) && TranslationsHang(p) && RefsHold(p)
  }

  lemma MergedHoldsWhatAPayloadHolds(sets: seq<PublishedSet>, collate: string -> real, s: PublishedSet, t: Table,
                                     id: string)
    requires s in sets && Substantive(t) && id in Ids(RowsOf(s, t), t)
    ensures id in Ids(Merged(sets, collate)[t], t)
  {
    EachRowOnceFromItsNewestPublication(sets, collate, t);
    assert Holds(s, t, id);
  }

  lemma MergedRowIsAPayloadRow(sets: seq<PublishedSet>, collate: string -> real, t: Table, row: Row)
      returns (s: PublishedSet)
    requires InCurriculum(t) && row in Merged(sets, collate)[t]
    ensures s in sets && row in RowsOf(s, t)
  {
    if t == ContentTranslations {
      TranslationsGoWithTheirParent(sets, collate, row);
      s :| s in sets && row in RowsOf(s, ContentTranslations) && GoesWithParent(row, s, sets);
    } else {
      EachRowOnceFromItsNewestPublication(sets, collate, t);
      s :| Wins(sets, t, KeyIn(row, t).value, s) && row in RowsOf(s, t);
    }
  }

  lemma MergedTables(sets: seq<PublishedSet>, collate: string -> real)
    ensures forall t :: t in Merged(sets, collate) <==> InCurriculum(t)
  {
    hide TakeSets, MergedTranslations, Winners;
  }

  lemma PayloadRowHasItsParent(p: Tables, t: Table, row: Row)
    requires ClosedPayload(p) && InCurriculum(t) && row in p[t] && ParentOf(t).Some?
    ensures var up := ParentOf(t).value;
            KeyOf(Get(row, up.fk)).Some? && up.to in p && KeyOf(Get(row, up.fk)).value in Ids(p[up.to], up.to)
  {
    hide Ids, Get, TranslationsHang, RefsHold, KeyOf;
    ParentIsAbove(t);
    assert HangsIn(p, t);
  }

  lemma MergedRowHasItsParent(sets: seq<PublishedSet>, collate: string -> real, t: Table, row: Row)
    requires forall s :: s in sets ==> ClosedPayload(s.payload)
    requires InCurriculum(t) && row in Merged(sets, collate)[t] && ParentOf(t).Some?
    ensures var up := ParentOf(t).value;
            up.to in Merged(sets, collate) && Names(row, up.fk, Ids(Merged(sets, collate)[up.to], up.to))
  {
    hide Merged, Ids, Get, TranslationsHang, RefsHold, ParentClosed, KeyOf;
    MergedTables(sets, collate);
    var s := MergedRowIsAPayloadRow(sets, collate, t, row);
    var up := ParentOf(t).value;
    ParentIsAbove(t);
    PayloadRowHasItsParent(s.payload, t, row);
    MergedHoldsWhatAPayloadHolds(sets, collate, s, up.to, KeyOf(Get(row, up.fk)).value);
  }

  lemma MergedRowHasItsReference(sets: seq<PublishedSet>, collate: string -> real, t: Table, row: Row, ref: Reference)
    requires forall s :: s in sets ==> ClosedPayload(s.payload)
    requires InCurriculum(t) && row in Merged(sets, collate)[t] && ref in Refs(t) && InCurriculum(ref.to)
    ensures RefOk(row, ref, Ids(Merged(sets, collate)[ref.to], ref.to))
  {
    hide Merged, Ids, Get, TranslationsHang, ParentClosed, KeyOf;
    var s := MergedRowIsAPayloadRow(sets, collate, t, row);
    assert RefHolds(s.payload, t, ref);
    if KeyOf(Get(row, ref.fk)).Some? {
      MergedHoldsWhatAPayloadHolds(sets, collate, s, ref.to, KeyOf(Get(row, ref.fk)).value);
    }
  }

  lemma MergedTranslationHangs(sets: seq<PublishedSet>, collate: string -> real, row: Row)
    requires forall s :: s in sets ==> ClosedPayload(s.payload)
    requires row in Merged(sets, collate)[ContentTranslations]
    ensures PolyOk(Merged(sets, collate), row)
  {
    hide Merged, Ids, Get, RefsHold, ParentClosed, PolyTable, PolyKey;
    var s := MergedRowIsAPayloadRow(sets, collate, ContentTranslations, row);
    assert PolyOk(s.payload, row);
    MergedHoldsWhatAPayloadHolds(sets, collate, s, PolyTable(row).value, PolyKey(row).value);
  }

  /** The organisation's own tables, which no publication carries. */
  ghost predicate IsLive(live: Tables) {
    forall t :: t in live <==> !InCurriculum(t)
  }

  lemma MergedStaysWhole(sets: seq<PublishedSet>, collate: string -> real, live: Tables, t: Table)
    requires forall s :: s in sets ==> ClosedPayload(s.payload)
    requires IsLive(live) && InCurriculum(t)
    ensures Kept(live + Merged(sets, collate), t) == Merged(sets, collate)[t]
    decreases Depth(t)
  {
    hide Merged, Ids, Get, ClosedPayload, Under, Names;
    MergedTables(sets, collate);
    var whole := live + Merged(sets, collate);
    if ParentOf(t).Some? {
      var p := ParentOf(t).value;
      ParentIsAbove(t);
      MergedStaysWhole(sets, collate, live, p.to);
      forall r | r in whole[t] ensures Names(r, p.fk, Ids(Kept(whole, p.to), p.to)) {
        MergedRowHasItsParent(sets, collate, t, r);
      }
      UnderHolds(whole[t], p.fk, Ids(Kept(whole, p.to), p.to));
    }
  }

  /** No curriculum row is left out of the merge by `confine`, although its rows come from different publications. */
  lemma ConfineDropsNothingOfTheMerge(sets: seq<PublishedSet>, collate: string -> real, live: Tables, t: Table)
    requires forall s :: s in sets ==> ClosedPayload(s.payload)
    requires IsLive(live) && InCurriculum(t)
    ensures Dropped(live + Merged(sets, collate))[t] == Merged(sets, collate)[t]
  {
    var m := Merged(sets, collate);
    var whole := live + m;
    MergedStaysWhole(sets, collate, live, t);
    if t == ContentTranslations {
      forall r | r in m[ContentTranslations] ensures PolyOk(Anchored(whole), r) {
        MergedTranslationHangs(sets, collate, r);
        MergedStaysWhole(sets, collate, live, PolyTable(r).value);
      }
      PolyKeptHolds(Anchored(whole), m[ContentTranslations]);
    }
  }

  /** What `confine` can still complain of after a merge is a subject or a country, nothing a publication carries. */
  lemma MergePreservesClosure(sets: seq<PublishedSet>, collate: string -> real, live: Tables, t: Table, ref: Reference)
    requires forall s :: s in sets ==> ClosedPayload(s.payload)
    requires IsLive(live) && ref in Refs(t)
    ensures var whole := live + Merged(sets, collate);
            t in whole && t in Dropped(whole) &&
            (InCurriculum(t) ==> Dropped(whole)[t] == whole[t]) &&
            (!RefHolds(Dropped(whole), t, ref) ==> ref.to == Subjects || ref.to == Countries)
  {
    hide Merged, Ids, Get, ClosedPayload, Kept, RefOk;
    MergedTables(sets, collate);
    var m := Merged(sets, collate);
    var whole := live + m;
    if InCurriculum(t) {
      ConfineDropsNothingOfTheMerge(sets, collate, live, t);
      if InCurriculum(ref.to) {
        ConfineDropsNothingOfTheMerge(sets, collate, live, ref.to);
        forall r | r in m[t] ensures RefOk(r, ref, Ids(m[ref.to], ref.to)) {
          MergedRowHasItsReference(sets, collate, t, r, ref);
        }
        assert RefHolds(Dropped(whole), t, ref);
      }
    }
  }
}
