/** Merging the newest publication of each curriculum back into one organisation's content. */
module Merge {
  import opened Values
  import opened Content
  import opened ConfineLaws
  import opened Selection

  /** One curriculum's latest publication, whole. */
  datatype PublishedSet = PublishedSet(publicationid: string, curriculumid: string, publishedat: int, payload: Tables)

  /** `byAge(a, b) < 0`: published earlier, or at the same moment under the smaller id. */
  predicate Older(a: PublishedSet, b: PublishedSet) {
    a.publishedat < b.publishedat || (a.publishedat == b.publishedat && Less(a.publicationid, b.publicationid))
  }

  lemma OlderIsAnOrder(a: PublishedSet, b: PublishedSet, c: PublishedSet)
    ensures Older(a, b) && Older(b, c) ==> Older(a, c)
    ensures !Older(a, a)
    ensures a.publicationid == b.publicationid || Older(a, b) || Older(b, a)
  {
    LessIsTotal(a.publicationid, b.publicationid);
    if Less(a.publicationid, b.publicationid) && Less(b.publicationid, c.publicationid) {
      LessIsTransitive(a.publicationid, b.publicationid, c.publicationid);
    }
  }

  /** The rows of `t` in the publication's payload; an absent table is no rows. */
  function RowsOf(s: PublishedSet, t: Table): seq<Row> {
    if t in s.payload then s.payload[t] else []
  }

  ghost predicate Holds(s: PublishedSet, t: Table, id: string) {
    id in Ids(RowsOf(s, t), t)
  }

  // ---- who wins a row ----------------------------------------------------------------------------

  type Won = map<string, PublishedSet>

  function Claim(won: Won, id: Option<string>, s: PublishedSet): Won {
    if id.Some? && (id.value !in won || Older(won[id.value], s)) then won[id.value := s] else won
  }

  function WonByRows(rows: seq<Row>, t: Table, s: PublishedSet, won: Won): Won {
    if rows == [] then won else WonByRows(rows[1..], t, s, Claim(won, KeyIn(rows[0], t), s))
  }

  /** table -> row key -> the publication that wins it */
  function Winners(sets: seq<PublishedSet>, t: Table, won: Won): Won {
    if sets == [] then won else Winners(sets[1..], t, WonByRows(RowsOf(sets[0], t), t, sets[0], won))
  }

  lemma {:induction false} WonByRowsHolds(rows: seq<Row>, t: Table, s: PublishedSet, won: Won, id: string)
    ensures var w := WonByRows(rows, t, s, won);
            (id in w <==> id in won || id in Ids(rows, t)) &&
            (id in Ids(rows, t) ==> !Older(w[id], s)) &&
            (id in won ==> !Older(w[id], won[id])) &&
            (id in w ==> (id in Ids(rows, t) && w[id] == s) || (id in won && w[id] == won[id]))
  {
    if rows == [] {
      if id in won { OlderIsAnOrder(won[id], won[id], won[id]); }
    } else {
      var next := Claim(won, KeyIn(rows[0], t), s);
      WonByRowsHolds(rows[1..], t, s, next, id);
      assert rows == [rows[0]] + rows[1..];
      assert id in Ids(rows, t) <==> KeyIn(rows[0], t) == Some(id) || id in Ids(rows[1..], t);
      OlderIsAnOrder(s, s, s);
      if id in won {
        OlderIsAnOrder(won[id], won[id], won[id]);
        OlderIsAnOrder(WonByRows(rows, t, s, won)[id], won[id], s);
        OlderIsAnOrder(won[id], s, won[id]);
      }
    }
  }

  /** The winner of a key is a publication that holds it, and none that holds it is newer. */
  ghost predicate Wins(sets: seq<PublishedSet>, t: Table, id: string, w: PublishedSet) {
    w in sets && Holds(w, t, id) && forall s :: s in sets && Holds(s, t, id) ==> !Older(w, s)
  }

  lemma {:induction false} WinnersFrom(sets: seq<PublishedSet>, t: Table, won: Won, id: string)
    ensures var w := Winners(sets, t, won);
            (id in w <==> id in won || exists s :: s in sets && Holds(s, t, id)) &&
            (id in w ==> forall s :: s in sets && Holds(s, t, id) ==> !Older(w[id], s)) &&
            (id in won ==> !Older(w[id], won[id])) &&
            (id in w ==> (w[id] in sets && Holds(w[id], t, id)) || (id in won && w[id] == won[id]))
  {
    if sets == [] {
      if id in won { OlderIsAnOrder(won[id], won[id], won[id]); }
    } else {
      var next := WonByRows(RowsOf(sets[0], t), t, sets[0], won);
      WonByRowsHolds(RowsOf(sets[0], t), t, sets[0], won, id);
      WinnersFrom(sets[1..], t, next, id);
      assert sets == [sets[0]] + sets[1..];
      assert Holds(sets[0], t, id) || (exists s :: s in sets[1..] && Holds(s, t, id)) <==>
             exists s :: s in sets && Holds(s, t, id);
      var w := Winners(sets, t, won);
      if id in next {
        if Holds(sets[0], t, id) { NotOlderChains(w[id], next[id], sets[0]); }
        if id in won { NotOlderChains(w[id], next[id], won[id]); }
      }
    }
  }

  /** "Not older than" chains: the order by age is total up to the id. */
  lemma NotOlderChains(a: PublishedSet, b: PublishedSet, c: PublishedSet)
    requires !Older(a, b) && !Older(b, c)
    ensures !Older(a, c)
  {
    LessIsTotal(a.publicationid, b.publicationid);
    LessIsTotal(b.publicationid, c.publicationid);
    if Older(a, c) {
      if Less(b.publicationid, a.publicationid) && Less(a.publicationid, c.publicationid) {
        LessIsTransitive(b.publicationid, a.publicationid, c.publicationid);
      }
    }
  }

  /** The publication a row's copy is taken from. */
  function WinnerOf(sets: seq<PublishedSet>, t: Table, id: string): Option<PublishedSet> {
    var won := Winners(sets, t, map[]);
    if id in won then Some(won[id]) else None
  }

  lemma TheNewestHolderWins(sets: seq<PublishedSet>, t: Table, id: string)
    ensures WinnerOf(sets, t, id).Some? <==> exists s :: s in sets && Holds(s, t, id)
    ensures WinnerOf(sets, t, id).Some? ==> Wins(sets, t, id, WinnerOf(sets, t, id).value)
  {
    WinnersFrom(sets, t, map[], id);
  }

  // ---- the merged rows ---------------------------------------------------------------------------

  /** The rows of one publication that it wins, each key once; and the keys taken so far. */
  function TakeRows(rows: seq<Row>, t: Table, s: PublishedSet, won: Won, taken: set<string>): (seq<Row>, set<string>) {
    if rows == [] then ([], taken)
    else
      var id := KeyIn(rows[0], t);
      if id.None? || id.value !in won || won[id.value] != s || id.value in taken
      then TakeRows(rows[1..], t, s, won, taken)
      else
        var rest := TakeRows(rows[1..], t, s, won, taken + {id.value});
        ([rows[0]] + rest.0, rest.1)
  }

  function TakeSets(emit: seq<PublishedSet>, t: Table, won: Won, taken: set<string>): seq<Row> {
    if emit == [] then []
    else
      var here := TakeRows(RowsOf(emit[0], t), t, emit[0], won, taken);
      here.0 + TakeSets(emit[1..], t, won, here.1)
  }

  /** A translation is taken from the publication its parent row was taken from. */
  predicate GoesWithParent(row: Row, s: PublishedSet, sets: seq<PublishedSet>) {
    PolyTable(row).Some? && PolyKey(row).Some? && WinnerOf(sets, PolyTable(row).value, PolyKey(row).value) == Some(s)
  }

  function TranslationsFrom(rows: seq<Row>, s: PublishedSet, sets: seq<PublishedSet>): seq<Row> {
    if rows == [] then []
    else (if GoesWithParent(rows[0], s, sets) then [rows[0]] else []) + TranslationsFrom(rows[1..], s, sets)
  }

  lemma TranslationsFromUnfolds(rows: seq<Row>, j: nat, s: PublishedSet, sets: seq<PublishedSet>)
    requires j < |rows|
    ensures TranslationsFrom(rows[j..], s, sets) == (if GoesWithParent(rows[j], s, sets) then [rows[j]] else []) +
            TranslationsFrom(rows[j + 1..], s, sets)
  {
    assert rows[j..][1..] == rows[j + 1..];
  }

  lemma NoTranslations(rows: seq<Row>, s: PublishedSet, sets: seq<PublishedSet>)
    ensures TranslationsFrom(rows[|rows|..], s, sets) == []
  {
  }

  function MergedTranslations(emit: seq<PublishedSet>, sets: seq<PublishedSet>): seq<Row> {
    if emit == [] then []
    else TranslationsFrom(RowsOf(emit[0], ContentTranslations), emit[0], sets) + MergedTranslations(emit[1..], sets)
  }

  // ---- the order the publications are emitted in -------------------------------------------------

  /** The curriculum's name: what the publications are ordered by first. */
  function NameOf(s: PublishedSet): string {
    var rows := RowsOf(s, Curriculums);
    if rows != [] && Get(rows[0], "curriculumname").Str? then Get(rows[0], "curriculumname").s else ""
  }

  /** `collate` places a name among all names: any total preorder of names is one such placing. */
  predicate Before(a: PublishedSet, b: PublishedSet, collate: string -> real) {
    collate(NameOf(a)) < collate(NameOf(b)) ||
    (collate(NameOf(a)) == collate(NameOf(b)) && Less(a.curriculumid, b.curriculumid))
  }

  function Insert(x: PublishedSet, list: seq<PublishedSet>, collate: string -> real): seq<PublishedSet> {
    if list == [] then [x]
    else if Before(list[0], x, collate) then [list[0]] + Insert(x, list[1..], collate)
    else [x] + list
  }

  /** A stable sort by name, then curriculum id. */
  function Emit(sets: seq<PublishedSet>, collate: string -> real): seq<PublishedSet> {
    if sets == [] then [] else Insert(sets[0], Emit(sets[1..], collate), collate)
  }

  ghost predicate InOrder(list: seq<PublishedSet>, collate: string -> real) {
    forall i, j :: 0 <= i < j < |list| ==> !Before(list[j], list[i], collate)
  }

  lemma NotBeforeChains(a: PublishedSet, b: PublishedSet, c: PublishedSet, collate: string -> real)
    ensures !Before(a, b, collate) && !Before(b, c, collate) ==> !Before(a, c, collate)
    ensures Before(a, b, collate) ==> !Before(b, a, collate)
  {
    LessIsTotal(a.curriculumid, b.curriculumid);
    LessIsTotal(b.curriculumid, c.curriculumid);
    if Less(b.curriculumid, a.curriculumid) && Less(a.curriculumid, c.curriculumid) {
      LessIsTransitive(b.curriculumid, a.curriculumid, c.curriculumid);
    }
  }

  lemma {:induction false} InsertAdds(x: PublishedSet, list: seq<PublishedSet>, collate: string -> real)
    ensures multiset(Insert(x, list, collate)) == multiset(list) + multiset{x}
  {
    if list != [] {
      InsertAdds(x, list[1..], collate);
      assert list == [list[0]] + list[1..];
    }
  }

  lemma {:induction false} InsertKeepsOrder(x: PublishedSet, list: seq<PublishedSet>, collate: string -> real)
    requires InOrder(list, collate)
    ensures InOrder(Insert(x, list, collate), collate)
  {
    if list == [] {
    } else if Before(list[0], x, collate) {
      InsertKeepsOrder(x, list[1..], collate);
      InsertAdds(x, list[1..], collate);
      var rest := Insert(x, list[1..], collate);
      forall j | 0 <= j < |rest| ensures !Before(rest[j], list[0], collate) {
        assert rest[j] in multiset(rest);
        NotBeforeChains(list[0], x, x, collate);
      }
    } else {
      forall j | 0 <= j < |list| ensures !Before(list[j], x, collate) {
        NotBeforeChains(list[j], list[0], x, collate);
      }
    }
  }

  lemma {:induction false} EmitHolds(sets: seq<PublishedSet>, collate: string -> real)
    ensures multiset(Emit(sets, collate)) == multiset(sets)
    ensures InOrder(Emit(sets, collate), collate)
  {
    if sets != [] {
      EmitHolds(sets[1..], collate);
      InsertAdds(sets[0], Emit(sets[1..], collate), collate);
      InsertKeepsOrder(sets[0], Emit(sets[1..], collate), collate);
      assert sets == [sets[0]] + sets[1..];
    }
  }

  lemma EmitHasTheSame(sets: seq<PublishedSet>, collate: string -> real)
    ensures forall s :: s in Emit(sets, collate) <==> s in sets
  {
    EmitHolds(sets, collate);
    forall s ensures s in Emit(sets, collate) <==> s in sets {
      assert s in multiset(sets) <==> s in multiset(Emit(sets, collate));
    }
  }

  function Merged(sets: seq<PublishedSet>, collate: string -> real): Tables {
    map t: Table | InCurriculum(t) ::
      if t == ContentTranslations then MergedTranslations(Emit(sets, collate), sets)
      else TakeSets(Emit(sets, collate), t, Winners(sets, t, map[]), {})
  }

  // ---- `mergePublished` --------------------------------------------------------------------------

  method FindWinners(sets: seq<PublishedSet>, t: Table) returns (won: Won)
    ensures won == Winners(sets, t, map[])
  {
    won := map[];
    for i := 0 to |sets|
      invariant Winners(sets[i..], t, won) == Winners(sets, t, map[])
    {
      assert sets[i..][1..] == sets[i + 1..];
      var rows := RowsOf(sets[i], t);
      ghost var before := won;
      for j := 0 to |rows|
        invariant WonByRows(rows[j..], t, sets[i], won) == WonByRows(rows, t, sets[i], before)
      {
        assert rows[j..][1..] == rows[j + 1..];
        var id := KeyIn(rows[j], t);
        if id.Some? && (id.value !in won || Older(won[id.value], sets[i])) {
          won := won[id.value := sets[i]];
        }
      }
    }
  }

  method TakeTable(emit: seq<PublishedSet>, t: Table, won: Won) returns (out: seq<Row>)
    ensures out == TakeSets(emit, t, won, {})
  {
    hide TakeRows, RowsOf;
    out := [];
    var taken: set<string> := {};
    for i := 0 to |emit|
      invariant out + TakeSets(emit[i..], t, won, taken) == TakeSets(emit, t, won, {})
    {
      assert emit[i..][1..] == emit[i + 1..];
      var rows;
      rows, taken := TakeOne(RowsOf(emit[i], t), t, emit[i], won, taken);
      out := out + rows;
    }
  }

  method TakeOne(rows: seq<Row>, t: Table, s: PublishedSet, won: Won, before: set<string>)
      returns (out: seq<Row>, taken: set<string>)
    ensures out == TakeRows(rows, t, s, won, before).0 && taken == TakeRows(rows, t, s, won, before).1
  {
    hide KeyIn;
    out, taken := [], before;
    for j := 0 to |rows|
      invariant out + TakeRows(rows[j..], t, s, won, taken).0 == TakeRows(rows, t, s, won, before).0
      invariant TakeRows(rows[j..], t, s, won, taken).1 == TakeRows(rows, t, s, won, before).1
    {
      assert rows[j..][1..] == rows[j + 1..];
      var id := KeyIn(rows[j], t);
      if id.None? || id.value !in won || won[id.value] != s || id.value in taken {
        continue;
      }
      taken := taken + {id.value};
      out := out + [rows[j]];
    }
  }

  /** One publication's translations, those whose parent row it won. */
  method TakeTranslationsOf(rows: seq<Row>, s: PublishedSet, winner: map<Table, Won>, ghost sets: seq<PublishedSet>)
      returns (out: seq<Row>)
    requires forall t :: t in winner <==> Substantive(t)
    requires forall t :: t in winner ==> winner[t] == Winners(sets, t, map[])
    ensures out == TranslationsFrom(rows, s, sets)
  {
    hide Winners, PolyTable, PolyKey, TranslationsFrom;
    out := [];
    assert rows[0..] == rows;
    for j := 0 to |rows|
      invariant out + TranslationsFrom(rows[j..], s, sets) == TranslationsFrom(rows, s, sets)
    {
      TranslationsFromUnfolds(rows, j, s, sets);
      var parentTable := PolyTable(rows[j]);
      var parentId := PolyKey(rows[j]);
      if parentTable.None? || parentId.None? {
        continue;
      }
      var won := winner[parentTable.value];
      if parentId.value in won && won[parentId.value] == s {
        out := out + [rows[j]];
      }
    }
    NoTranslations(rows, s, sets);
  }

  method TakeTranslations(emit: seq<PublishedSet>, winner: map<Table, Won>, ghost sets: seq<PublishedSet>)
      returns (out: seq<Row>)
    requires forall t :: t in winner <==> Substantive(t)
    requires forall t :: t in winner ==> winner[t] == Winners(sets, t, map[])
    ensures out == MergedTranslations(emit, sets)
  {
    hide TranslationsFrom, Winners;
    out := [];
    for i := 0 to |emit|
      invariant out + MergedTranslations(emit[i..], sets) == MergedTranslations(emit, sets)
    {
      assert emit[i..][1..] == emit[i + 1..];
      var rows := TakeTranslationsOf(RowsOf(emit[i], ContentTranslations), emit[i], winner, sets);
      out := out + rows;
    }
  }

  /** `mergePublished`: the winners of every table first, then each table's rows in the emitting order. */
  method MergePublished(sets: seq<PublishedSet>, collate: string -> real) returns (merged: Tables)
    ensures merged == Merged(sets, collate)
  {
    var emit := Emit(sets, collate);
    KeysInOrder();
    merged := MergeTables(sets, emit, CURRICULUM_CONTENT_KEYS);
    assert forall t :: t in merged <==> t in Merged(sets, collate);
  }

  method MergeTables(sets: seq<PublishedSet>, emit: seq<PublishedSet>, keys: seq<Table>) returns (merged: Tables)
    requires Selection.InOrder(keys)
    ensures forall t :: t in merged <==> InCurriculum(t)
    ensures forall t :: t in merged ==> merged[t] == if t == ContentTranslations then MergedTranslations(emit, sets)
                                                     else TakeSets(emit, t, Winners(sets, t, map[]), {})
  {
    hide Winners, TakeSets, MergedTranslations, PlaceOf;
    var winner: map<Table, Won> := map[];
    for i := 0 to |keys|
      invariant forall t :: t in winner <==> Substantive(t) && PlaceOf(t) < i + 4
      invariant forall t :: t in winner ==> winner[t] == Winners(sets, t, map[])
    {
      Selection.OrderedKey(keys, i);
      if keys[i] != ContentTranslations {
        var won := FindWinners(sets, keys[i]);
        winner := winner[keys[i] := won];
      }
    }
    merged := map[];
    for i := 0 to |keys|
      invariant forall t :: t in merged <==> InCurriculum(t) && PlaceOf(t) < i + 4
      invariant forall t :: t in merged ==> merged[t] == if t == ContentTranslations then MergedTranslations(emit, sets)
                                                         else TakeSets(emit, t, Winners(sets, t, map[]), {})
    {
      Selection.OrderedKey(keys, i);
      var out: seq<Row>;
      if keys[i] == ContentTranslations {
        out := TakeTranslations(emit, winner, sets);
      } else {
        out := TakeTable(emit, keys[i], winner[keys[i]]);
      }
      merged := merged[keys[i] := out];
    }
  }
}
