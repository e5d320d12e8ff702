/**
 A merge told by the publications' own dates, names and rows: which rows it has, and in what order they stand.
 */
module MergeOrder {
  import opened Values
  import opened Content
  import opened Selection
  import opened Merge
  import opened MergeLaws

  // ---- which rows --------------------------------------------------------------------------------

  /** The publication has a row of the table with this key. */
  ghost predicate HasRow(s: PublishedSet, t: Table, key: string) {
    exists r :: t in s.payload && r in s.payload[t] && KeyIn(r, t) == Some(key)
  }

  /** Published before `w`, or at the same moment and not under a larger id. */
  ghost predicate IsNotNewer(s: PublishedSet, w: PublishedSet) {
    s.publishedat < w.publishedat ||
    (s.publishedat == w.publishedat && (s.publicationid == w.publicationid || Less(s.publicationid, w.publicationid)))
  }

  /** The newest of the publications that have the row. */
  ghost predicate IsNewestWith(sets: seq<PublishedSet>, w: PublishedSet, t: Table, key: string) {
    w in sets && HasRow(w, t, key) && forall s :: s in sets && HasRow(s, t, key) ==> IsNotNewer(s, w)
  }

  lemma HoldsIs(s: PublishedSet, t: Table, key: string)
    ensures Holds(s, t, key) <==> HasRow(s, t, key)
  {
  }

  lemma OlderIs(s: PublishedSet, w: PublishedSet)
    ensures !Older(w, s) <==> IsNotNewer(s, w)
  {
    LessIsTotal(s.publicationid, w.publicationid);
  }

  lemma WinsIs(sets: seq<PublishedSet>, t: Table, key: string, w: PublishedSet)
    ensures Wins(sets, t, key, w) <==> IsNewestWith(sets, w, t, key)
  {
    hide Holds, HasRow, Older, IsNotNewer;
    forall s
      ensures Holds(s, t, key) <==> HasRow(s, t, key)
      ensures !Older(w, s) <==> IsNotNewer(s, w)
    {
      HoldsIs(s, t, key);
      OlderIs(s, w);
    }
  }

  /**
   A merged table has each key that some publication has, once; the row is one of the newest publication that has the
   key.
   */
  lemma MergedRowsAreTheNewest(sets: seq<PublishedSet>, collate: string -> real, t: Table)
    requires Substantive(t)
    ensures var out := Merged(sets, collate)[t];
            (forall r :: r in out ==>
               KeyIn(r, t).Some? &&
               exists w :: IsNewestWith(sets, w, t, KeyIn(r, t).value) && t in w.payload && r in w.payload[t]) &&
            (forall i, j :: 0 <= i < j < |out| ==> KeyIn(out[i], t) != KeyIn(out[j], t)) &&
            (forall s, key :: s in sets && HasRow(s, t, key) ==> exists r :: r in out && KeyIn(r, t) == Some(key))
  {
    hide Merged, Wins, IsNewestWith, Holds, HasRow;
    MergedTables(sets, collate);
    var out := Merged(sets, collate)[t];
    EachRowOnceFromItsNewestPublication(sets, collate, t);
    forall r | r in out
      ensures KeyIn(r, t).Some? &&
              exists w :: IsNewestWith(sets, w, t, KeyIn(r, t).value) && t in w.payload && r in w.payload[t]
    {
      var w :| Wins(sets, t, KeyIn(r, t).value, w) && r in RowsOf(w, t);
      WinsIs(sets, t, KeyIn(r, t).value, w);
    }
    forall s, key | s in sets && HasRow(s, t, key) ensures exists r :: r in out && KeyIn(r, t) == Some(key) {
      HoldsIs(s, t, key);
      assert key in Ids(out, t);
    }
  }

  lemma OneNewest(sets: seq<PublishedSet>, t: Table, key: string, s: PublishedSet)
    requires DistinctSets(sets)
    ensures WinnerOf(sets, t, key) == Some(s) <==> IsNewestWith(sets, s, t, key)
  {
    hide WinnerOf, HasRow;
    TheNewestHolderWins(sets, t, key);
    HoldsIs(s, t, key);
    if WinnerOf(sets, t, key).Some? {
      var w := WinnerOf(sets, t, key).value;
      WinsIs(sets, t, key, w);
      if IsNewestWith(sets, s, t, key) {
        assert IsNotNewer(s, w) && IsNotNewer(w, s);
        LessIsTotal(s.publicationid, w.publicationid);
        SameIdSameSet(sets, s, w);
      }
    }
  }

  lemma SameIdSameSet(sets: seq<PublishedSet>, a: PublishedSet, b: PublishedSet)
    requires DistinctSets(sets) && a in sets && b in sets && a.publicationid == b.publicationid
    ensures a == b
  {
  }

  /** A translation is in the merge exactly when the publication it is in is the newest that has the row it is of. */
  lemma MergedTranslationsGoWithTheirRow(sets: seq<PublishedSet>, collate: string -> real, row: Row)
    requires DistinctSets(sets)
    ensures row in Merged(sets, collate)[ContentTranslations] <==>
            exists s, t, key ::
              PolyTable(row) == Some(t) && PolyKey(row) == Some(key) && IsNewestWith(sets, s, t, key) &&
              ContentTranslations in s.payload && row in s.payload[ContentTranslations]
  {
    hide Merged, WinnerOf, IsNewestWith, PolyTable, PolyKey, DistinctSets;
    MergedTables(sets, collate);
    TranslationsGoWithTheirParent(sets, collate, row);
    forall s, t, key
      ensures WinnerOf(sets, t, key) == Some(s) <==> IsNewestWith(sets, s, t, key)
      ensures IsNewestWith(sets, s, t, key) ==> s in sets
    {
      OneNewest(sets, t, key, s);
      NewestIsThere(sets, t, key, s);
    }
  }

  lemma NewestIsThere(sets: seq<PublishedSet>, t: Table, key: string, s: PublishedSet)
    ensures IsNewestWith(sets, s, t, key) ==> s in sets
  {
  }

  // ---- in what order -----------------------------------------------------------------------------

  /** The name of the publication's curriculum. */
  ghost function Title(s: PublishedSet): string {
    if Curriculums in s.payload && s.payload[Curriculums] != [] &&
       Get(s.payload[Curriculums][0], "curriculumname").Str?
    then Get(s.payload[Curriculums][0], "curriculumname").s else ""
  }

  /** By name, as the locale places names, and then by curriculum id. */
  ghost predicate StandsBefore(a: PublishedSet, b: PublishedSet, collate: string -> real) {
    collate(Title(a)) < collate(Title(b)) ||
    (collate(Title(a)) == collate(Title(b)) &&
     (a.curriculumid == b.curriculumid || Less(a.curriculumid, b.curriculumid)))
  }

  lemma BeforeIs(a: PublishedSet, b: PublishedSet, collate: string -> real)
    ensures !Before(b, a, collate) <==> StandsBefore(a, b, collate)
  {
    LessIsTotal(a.curriculumid, b.curriculumid);
  }

  /** `out` is `rows` with some left out, the others in their order. */
  ghost predicate IsSubsequence(out: seq<Row>, rows: seq<Row>)
    decreases |rows|
  {
    if out == [] then true
    else if rows == [] then false
    else (out[0] == rows[0] && IsSubsequence(out[1..], rows[1..])) || IsSubsequence(out, rows[1..])
  }

  /** All the rows the publications hold of a table, publication after publication. */
  function AllRows(emit: seq<PublishedSet>, t: Table): seq<Row> {
    if emit == [] then [] else RowsOf(emit[0], t) + AllRows(emit[1..], t)
  }

  lemma {:induction false} Shorter(out: seq<Row>, rows: seq<Row>, row: Row)
    requires IsSubsequence(out, rows)
    ensures IsSubsequence(out, [row] + rows)
  {
    assert ([row] + rows)[1..] == rows;
  }

  lemma {:induction false} Joined(a: seq<Row>, rows: seq<Row>, b: seq<Row>, more: seq<Row>)
    requires IsSubsequence(a, rows) && IsSubsequence(b, more)
    ensures IsSubsequence(a + b, rows + more)
    decreases |rows|
  {
    if rows == [] {
      assert a + b == b && rows + more == more;
    } else {
      assert (rows + more)[1..] == rows[1..] + more;
      if a != [] && a[0] == rows[0] && IsSubsequence(a[1..], rows[1..]) {
        assert (a + b)[1..] == a[1..] + b;
        Joined(a[1..], rows[1..], b, more);
      } else {
        Joined(a, rows[1..], b, more);
        assert a + b == [] || IsSubsequence(a + b, (rows + more)[1..]);
      }
    }
  }

  lemma {:induction false} TakenInOrder(rows: seq<Row>, t: Table, s: PublishedSet, won: Won, taken: set<string>)
    ensures IsSubsequence(TakeRows(rows, t, s, won, taken).0, rows)
  {
    if rows != [] {
      var id := KeyIn(rows[0], t);
      var takes := id.Some? && id.value in won && won[id.value] == s && id.value !in taken;
      var next := if takes then taken + {id.value} else taken;
      TakenInOrder(rows[1..], t, s, won, next);
      var rest := TakeRows(rows[1..], t, s, won, next).0;
      assert rows == [rows[0]] + rows[1..];
      if takes { assert ([rows[0]] + rest)[1..] == rest; } else { Shorter(rest, rows[1..], rows[0]); }
    }
  }

  lemma {:induction false} SetsInOrder(emit: seq<PublishedSet>, t: Table, won: Won, taken: set<string>)
    ensures IsSubsequence(TakeSets(emit, t, won, taken), AllRows(emit, t))
  {
    if emit != [] {
      var here := TakeRows(RowsOf(emit[0], t), t, emit[0], won, taken);
      TakenInOrder(RowsOf(emit[0], t), t, emit[0], won, taken);
      SetsInOrder(emit[1..], t, won, here.1);
      Joined(here.0, RowsOf(emit[0], t), TakeSets(emit[1..], t, won, here.1), AllRows(emit[1..], t));
    }
  }

  lemma {:induction false} TranslationsInOrder(rows: seq<Row>, s: PublishedSet, sets: seq<PublishedSet>)
    ensures IsSubsequence(TranslationsFrom(rows, s, sets), rows)
  {
    if rows != [] {
      TranslationsInOrder(rows[1..], s, sets);
      var rest := TranslationsFrom(rows[1..], s, sets);
      assert rows == [rows[0]] + rows[1..];
      if GoesWithParent(rows[0], s, sets) {
        assert ([rows[0]] + rest)[1..] == rest;
      } else {
        assert [] + rest == rest;
        Shorter(rest, rows[1..], rows[0]);
      }
    }
  }

  lemma {:induction false} AllTranslationsInOrder(emit: seq<PublishedSet>, sets: seq<PublishedSet>)
    ensures IsSubsequence(MergedTranslations(emit, sets), AllRows(emit, ContentTranslations))
  {
    if emit != [] {
      TranslationsInOrder(RowsOf(emit[0], ContentTranslations), emit[0], sets);
      AllTranslationsInOrder(emit[1..], sets);
      Joined(TranslationsFrom(RowsOf(emit[0], ContentTranslations), emit[0], sets),
             RowsOf(emit[0], ContentTranslations),
             MergedTranslations(emit[1..], sets), AllRows(emit[1..], ContentTranslations));
    }
  }

  /**
   A merged table lists its rows publication by publication, in order of curriculum name and id, each in its payload's
   order.
   */
  lemma MergedInOrder(sets: seq<PublishedSet>, collate: string -> real, t: Table)
    requires InCurriculum(t)
    ensures IsSubsequence(Merged(sets, collate)[t], AllRows(Emit(sets, collate), t))
    ensures multiset(Emit(sets, collate)) == multiset(sets)
    ensures forall i, j :: 0 <= i < j < |Emit(sets, collate)| ==>
                             StandsBefore(Emit(sets, collate)[i], Emit(sets, collate)[j], collate)
  {
    hide TakeSets, MergedTranslations, Emit, AllRows, IsSubsequence;
    var emit := Emit(sets, collate);
    EmitHolds(sets, collate);
    forall i, j | 0 <= i < j < |emit| ensures StandsBefore(emit[i], emit[j], collate) {
      BeforeIs(emit[i], emit[j], collate);
    }
    if t == ContentTranslations {
      AllTranslationsInOrder(emit, sets);
    } else {
      SetsInOrder(emit, t, Winners(sets, t, map[]), {});
    }
  }
}
