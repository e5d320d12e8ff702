/** Canonical values, row and payload hashes, and what changed between two publications. */
module Canonical {
  import opened Values
  import opened Content

  // ---- key-sorted values -------------------------------------------------------------------------

  function InsertField(f: Field, list: seq<Field>): seq<Field> {
    if list == [] then [f]
    else if Less(list[0].key, f.key) then [list[0]] + InsertField(f, list[1..])
    else [f] + list
  }

  function SortFields(fields: seq<Field>): seq<Field> {
    if fields == [] then [] else InsertField(fields[0], SortFields(fields[1..]))
  }

  /** `sortedValue`: the keys of every object sorted, at every level; lists keep their order. */
  function SortedValue(v: Json): Json {
    match v
    case List(items) => List(seq(|items|, i requires 0 <= i < |items| => SortedValue(items[i])))
    case Obj(fields) =>
      Obj(SortFields(seq(|fields|, i requires 0 <= i < |fields| => Field(fields[i].key, SortedValue(fields[i].value)))))
    case _ => v
  }

  ghost predicate DistinctKeys(fields: seq<Field>) {
    forall i, j :: 0 <= i < j < |fields| ==> fields[i].key != fields[j].key
  }

  /** No object has a key twice. */
  ghost predicate WellFormed(v: Json) {
    match v
    case List(items) => forall i :: 0 <= i < |items| ==> WellFormed(items[i])
    case Obj(fields) => DistinctKeys(fields) && forall i :: 0 <= i < |fields| ==> WellFormed(fields[i].value)
    case _ => true
  }

  ghost predicate HasKey(fields: seq<Field>, key: string) {
    exists i :: 0 <= i < |fields| && fields[i].key == key
  }

  ghost predicate SameKeys(a: seq<Field>, b: seq<Field>) {
    forall key :: HasKey(a, key) <==> HasKey(b, key)
  }

  /** The same value up to the order in which the keys of its objects were written. */
  ghost predicate Equivalent(a: Json, b: Json)
    decreases a
  {
    match a
    case List(items) =>
      b.List? && |items| == |b.items| && forall i :: 0 <= i < |items| ==> Equivalent(items[i], b.items[i])
    case Obj(fields) =>
      b.Obj? && SameKeys(fields, b.fields) &&
      forall i, j :: 0 <= i < |fields| && 0 <= j < |b.fields| && fields[i].key == b.fields[j].key ==>
        Equivalent(fields[i].value, b.fields[j].value)
    case _ => a == b
  }

  ghost predicate Ascending(fields: seq<Field>) {
    forall i, j :: 0 <= i < j < |fields| ==> Less(fields[i].key, fields[j].key)
  }

  lemma {:induction false} InsertFieldHolds(f: Field, list: seq<Field>)
    requires Ascending(list) && !HasKey(list, f.key)
    ensures Ascending(InsertField(f, list))
    ensures forall g :: g in InsertField(f, list) <==> g == f || g in list
  {
    hide Less;
    if list != [] {
      assert list == [list[0]] + list[1..];
      LessIsTotal(list[0].key, f.key);
      if Less(list[0].key, f.key) {
        assert forall i :: 0 <= i < |list[1..]| ==> list[1..][i].key == list[i + 1].key;
        InsertFieldHolds(f, list[1..]);
        var rest := InsertField(f, list[1..]);
        forall j | 0 <= j < |rest| ensures Less(list[0].key, rest[j].key) {
          assert rest[j] in rest;
        }
      } else {
        FirstIsLeast(f, list);
      }
    }
  }

  lemma FirstIsLeast(f: Field, list: seq<Field>)
    requires Ascending(list) && list != [] && Less(f.key, list[0].key)
    ensures Ascending([f] + list)
  {
    hide Less;
    forall j | 0 <= j < |list| ensures Less(f.key, list[j].key) {
      if j > 0 { LessIsTransitive(f.key, list[0].key, list[j].key); }
    }
  }

  lemma {:induction false} SortFieldsHolds(fields: seq<Field>)
    requires DistinctKeys(fields)
    ensures Ascending(SortFields(fields))
    ensures forall g :: g in SortFields(fields) <==> g in fields
  {
    if fields != [] {
      SortFieldsHolds(fields[1..]);
      assert fields == [fields[0]] + fields[1..];
      var rest := SortFields(fields[1..]);
      assert !HasKey(rest, fields[0].key) by {
        forall i | 0 <= i < |rest| ensures rest[i].key != fields[0].key {
          assert rest[i] in rest;
        }
      }
      InsertFieldHolds(fields[0], rest);
    }
  }

  /** An ascending list is determined by its members. */
  lemma {:induction false} AscendingIsUnique(a: seq<Field>, b: seq<Field>)
    requires Ascending(a) && Ascending(b) && forall g :: g in a <==> g in b
    ensures a == b
  {
    assert |b| > 0 ==> b[0] in b;
    if a != [] {
      assert a[0] in b && (b != [] ==> b[0] in a);
      var j :| 0 <= j < |b| && b[j] == a[0];
      var i :| 0 <= i < |a| && a[i] == b[0];
      LessIsTotal(a[0].key, b[0].key);
      assert a[0] == b[0];
      forall g ensures g in a[1..] <==> g in b[1..] {
        LessIsTotal(a[0].key, a[0].key);
        assert g in a <==> g == a[0] || g in a[1..];
        assert g in b <==> g == b[0] || g in b[1..];
      }
      AscendingIsUnique(a[1..], b[1..]);
      assert a == [a[0]] + a[1..] && b == [b[0]] + b[1..];
    }
  }

  function Mapped(fields: seq<Field>): seq<Field> {
    seq(|fields|, i requires 0 <= i < |fields| => Field(fields[i].key, SortedValue(fields[i].value)))
  }

  lemma MappedMember(fields: seq<Field>, g: Field)
    ensures g in Mapped(fields) <==>
            exists i :: 0 <= i < |fields| && fields[i].key == g.key && SortedValue(fields[i].value) == g.value
  {
    if i :| 0 <= i < |fields| && fields[i].key == g.key && SortedValue(fields[i].value) == g.value {
      assert Mapped(fields)[i] == g;
    }
  }

  lemma SortedObject(fields: seq<Field>)
    ensures SortedValue(Obj(fields)) == Obj(SortFields(Mapped(fields)))
  {
    assert seq(|fields|, i requires 0 <= i < |fields| => Field(fields[i].key, SortedValue(fields[i].value))) ==
           Mapped(fields);
  }

  ghost predicate SameSortedFields(a: seq<Field>, b: seq<Field>) {
    SameKeys(a, b) &&
    forall i, j :: 0 <= i < |a| && 0 <= j < |b| && a[i].key == b[j].key ==>
        SortedValue(a[i].value) == SortedValue(b[j].value)
  }

  /** Two objects sort to the same text exactly when they have the same keys and their values under each key do. */
  lemma ObjectsSortAlike(a: seq<Field>, b: seq<Field>)
    requires DistinctKeys(a) && DistinctKeys(b)
    ensures SortedValue(Obj(a)) == SortedValue(Obj(b)) <==> SameSortedFields(a, b)
  {
    SortedObject(a);
    SortedObject(b);
    SortFieldsHolds(Mapped(a));
    SortFieldsHolds(Mapped(b));
    if SameSortedFields(a, b) {
      forall g ensures g in Mapped(a) <==> g in Mapped(b) {
        MappedMember(a, g);
        MappedMember(b, g);
        assert HasKey(a, g.key) <==> HasKey(b, g.key);
      }
      AscendingIsUnique(SortFields(Mapped(a)), SortFields(Mapped(b)));
    } else if SortFields(Mapped(a)) == SortFields(Mapped(b)) {
      forall i, j | 0 <= i < |a| && 0 <= j < |b| && a[i].key == b[j].key ensures SortAlike(a[i], b[j]) {
        var k := FieldSortsAlike(a, b, i);
        assert k == j;
      }
      forall key ensures HasKey(a, key) <==> HasKey(b, key) {
        if i :| 0 <= i < |a| && a[i].key == key {
          var k := FieldSortsAlike(a, b, i);
        }
        if i :| 0 <= i < |b| && b[i].key == key {
          var k := FieldSortsAlike(b, a, i);
        }
      }
    }
  }

  /** Two fields that sort to the same text. */
  ghost predicate SortAlike(f: Field, g: Field) {
    f.key == g.key && SortedValue(f.value) == SortedValue(g.value)
  }

  lemma FieldSortsAlike(a: seq<Field>, b: seq<Field>, i: nat) returns (j: nat)
    requires i < |a| && forall g :: g in Mapped(a) <==> g in Mapped(b)
    ensures j < |b| && SortAlike(a[i], b[j])
  {
    var g := Mapped(a)[i];
    assert g in Mapped(a) && g in Mapped(b);
    MappedMember(b, g);
    j :| 0 <= j < |b| && b[j].key == g.key && SortedValue(b[j].value) == g.value;
  }

  /** Canonical text identifies values exactly up to the order of keys. */
  lemma {:induction false} CanonicalIdentifiesUpToKeyOrder(a: Json, b: Json)
    requires WellFormed(a) && WellFormed(b)
    ensures SortedValue(a) == SortedValue(b) <==> Equivalent(a, b)
    decreases a
  {
    if a.List? && b.List? {
      var sa, sb := SortedValue(a).items, SortedValue(b).items;
      if |a.items| == |b.items| {
        forall i | 0 <= i < |a.items| ensures sa[i] == sb[i] <==> Equivalent(a.items[i], b.items[i]) {
          CanonicalIdentifiesUpToKeyOrder(a.items[i], b.items[i]);
        }
        assert (forall i :: 0 <= i < |sa| ==> sa[i] == sb[i]) <==> sa == sb;
      }
    } else if a.Obj? && b.Obj? {
      ObjectsSortAlike(a.fields, b.fields);
      forall i, j | 0 <= i < |a.fields| && 0 <= j < |b.fields| && a.fields[i].key == b.fields[j].key
        ensures SortedValue(a.fields[i].value) == SortedValue(b.fields[j].value) <==>
                Equivalent(a.fields[i].value, b.fields[j].value)
      {
        CanonicalIdentifiesUpToKeyOrder(a.fields[i].value, b.fields[j].value);
      }
    }
  }

  // ---- row hashes --------------------------------------------------------------------------------

  /** sha256 as an injective function of the canonical text. */
  datatype Digest = Sha256(of: Json)

  const HASH_EXCLUDED: set<string> :=
    {"created_at", "created_by", "updated_at", "updated_by", "deleted_at", "deleted_by", "lastupdated"}

  function Hashed(row: Row): Row {
    if row == [] then []
    else (if row[0].key in HASH_EXCLUDED then [] else [row[0]]) + Hashed(row[1..])
  }

  /** The hash of a row: of its canonical text, without the audit columns. */
  function RowHash(row: Row): Digest {
    Sha256(SortedValue(Obj(Hashed(row))))
  }

  lemma {:induction false} HashedMembers(row: Row)
    ensures forall f :: f in Hashed(row) <==> f in row && f.key !in HASH_EXCLUDED
  {
    if row != [] {
      HashedMembers(row[1..]);
      assert row == [row[0]] + row[1..];
    }
  }

  lemma {:induction false} HashedIsWellFormed(row: Row)
    requires WellFormed(Obj(row))
    ensures WellFormed(Obj(Hashed(row)))
  {
    if row != [] {
      assert forall i :: 0 <= i < |row[1..]| ==> row[1..][i] == row[i + 1];
      HashedIsWellFormed(row[1..]);
      HashedMembers(row[1..]);
      var rest := Hashed(row[1..]);
      forall j | 0 <= j < |rest| ensures rest[j].key != row[0].key {
        assert rest[j] in rest;
      }
    }
  }

  /** The columns that move when a row is saved with the values it has. */
  ghost predicate IsAudit(column: string) {
    column in {"created_at", "created_by", "updated_at", "updated_by", "deleted_at", "deleted_by", "lastupdated"}
  }

  /** The rows have the same columns, but for the audit ones, with the same values, in whatever order they came. */
  ghost predicate SameContent(a: Row, b: Row) {
    (forall column :: !IsAudit(column) ==> (HasKey(a, column) <==> HasKey(b, column))) &&
    forall i, j :: 0 <= i < |a| && 0 <= j < |b| && a[i].key == b[j].key && !IsAudit(a[i].key) ==>
                     Equivalent(a[i].value, b[j].value)
  }

  lemma HashedHasKey(row: Row, column: string)
    ensures HasKey(Hashed(row), column) <==> HasKey(row, column) && !IsAudit(column)
  {
    HashedMembers(row);
    if i :| 0 <= i < |row| && row[i].key == column && !IsAudit(column) {
      assert row[i] in Hashed(row);
    }
    if i :| 0 <= i < |Hashed(row)| && Hashed(row)[i].key == column {
      assert Hashed(row)[i] in row;
    }
  }

  /** The columns that are hashed are those that are no audit columns. */
  lemma HashedIsContent(a: Row, b: Row)
    ensures SameContent(a, b) <==> Equivalent(Obj(Hashed(a)), Obj(Hashed(b)))
  {
    hide HasKey, Hashed;
    var x, y := Hashed(a), Hashed(b);
    HashedMembers(a);
    HashedMembers(b);
    forall column
      ensures HasKey(x, column) <==> HasKey(a, column) && !IsAudit(column)
      ensures HasKey(y, column) <==> HasKey(b, column) && !IsAudit(column)
    {
      HashedHasKey(a, column);
      HashedHasKey(b, column);
    }
    if SameContent(a, b) {
      forall i, j | 0 <= i < |x| && 0 <= j < |y| && x[i].key == y[j].key ensures Equivalent(x[i].value, y[j].value) {
        assert x[i] in x && y[j] in y;
      }
    }
    if Equivalent(Obj(x), Obj(y)) {
      forall i, j | 0 <= i < |a| && 0 <= j < |b| && a[i].key == b[j].key && !IsAudit(a[i].key)
        ensures Equivalent(a[i].value, b[j].value)
      {
        assert a[i] in x && b[j] in y;
      }
    }
  }

  /** Saving a row with the values it has is no change: rows hash alike exactly when they have the same content. */
  lemma RowHashIdentifiesContent(a: Row, b: Row)
    requires WellFormed(Obj(a)) && WellFormed(Obj(b))
    ensures RowHash(a) == RowHash(b) <==> SameContent(a, b)
  {
    HashedIsWellFormed(a);
    HashedIsWellFormed(b);
    HashedIsContent(a, b);
    hide SameContent, Hashed;
    CanonicalIdentifiesUpToKeyOrder(Obj(Hashed(a)), Obj(Hashed(b)));
  }

  // ---- the hashes of a payload -------------------------------------------------------------------

  /** table -> row id -> hash of the row */
  type RowHashes = map<Table, map<string, Digest>>

  function IdText(t: Table, row: Row): string {
    StringOf(Get(row, Pk(t)))
  }

  function HashesOf(rows: seq<Row>, t: Table, so: map<string, Digest>): map<string, Digest> {
    if rows == [] then so else HashesOf(rows[1..], t, so[IdText(t, rows[0]) := RowHash(rows[0])])
  }

  function Hashes(tables: Tables): RowHashes {
    map t | t in tables :: HashesOf(tables[t], t, map[])
  }

  method HashTables(tables: Tables, keys: seq<Table>) returns (hashes: RowHashes)
    requires forall t :: t in keys <==> t in tables
    ensures hashes == Hashes(tables)
  {
    hashes := map[];
    for i := 0 to |keys|
      invariant forall t :: t in hashes <==> t in keys[..i]
      invariant forall t :: t in hashes ==> hashes[t] == Hashes(tables)[t]
    {
      var key := keys[i];
      var rows := tables[key];
      var found: map<string, Digest> := map[];
      for j := 0 to |rows|
        invariant HashesOf(rows[j..], key, found) == HashesOf(rows, key, map[])
      {
        assert rows[j..][1..] == rows[j + 1..];
        found := found[IdText(key, rows[j]) := RowHash(rows[j])];
      }
      hashes := hashes[key := found];
      assert keys[..i + 1] == keys[..i] + [key];
    }
    assert keys[..|keys|] == keys;
  }

  ghost predicate UniqueIdTexts(rows: seq<Row>, t: Table) {
    forall i, j :: 0 <= i < j < |rows| ==> IdText(t, rows[i]) != IdText(t, rows[j])
  }

  lemma {:induction false} HashesOfHolds(rows: seq<Row>, t: Table, so: map<string, Digest>)
    requires UniqueIdTexts(rows, t) && forall r :: r in rows ==> IdText(t, r) !in so
    ensures forall id :: id in HashesOf(rows, t, so) <==> id in so || exists r :: r in rows && IdText(t, r) == id
    ensures forall id :: id in so ==> HashesOf(rows, t, so)[id] == so[id]
    ensures forall r :: r in rows ==> HashesOf(rows, t, so)[IdText(t, r)] == RowHash(r)
  {
    hide RowHash, IdText;
    if rows != [] {
      assert rows == [rows[0]] + rows[1..];
      var next := so[IdText(t, rows[0]) := RowHash(rows[0])];
      forall r | r in rows[1..] ensures IdText(t, r) !in next {
        var i :| 0 <= i < |rows[1..]| && rows[1..][i] == r;
        assert rows[i + 1] == r;
      }
      HashesOfHolds(rows[1..], t, next);
    }
  }

  /** The hash of a payload: of the map of its row hashes, an empty translations table left out. */
  datatype PayloadDigest = Sha256OfHashes(of: RowHashes)

  function PayloadHash(hashes: RowHashes): PayloadDigest {
    Sha256OfHashes(if ContentTranslations in hashes && |hashes[ContentTranslations]| > 0 then hashes
                   else hashes - {ContentTranslations})
  }

  // ---- what changed ------------------------------------------------------------------------------

  datatype TableDiff = TableDiff(added: set<string>, removed: set<string>, changed: set<string>)

  function In(hashes: RowHashes, t: Table): map<string, Digest> {
    if t in hashes then hashes[t] else map[]
  }

  /** The ids of `t` added, removed and changed between two sets of hashes; nothing before is an empty table. */
  function Diff(now: RowHashes, before: RowHashes, t: Table): TableDiff {
    var n, b := In(now, t), In(before, t);
    TableDiff(set id | id in n && id !in b, set id | id in b && id !in n, set id | id in n && id in b && b[id] != n[id])
  }

  /** The counts a summary records for the table. */
  datatype TableChange = TableChange(added: nat, removed: nat, changed: nat)

  function Change(now: RowHashes, before: RowHashes, t: Table): TableChange {
    var d := Diff(now, before, t);
    TableChange(|d.added|, |d.removed|, |d.changed|)
  }

  const NO_CHANGE := TableChange(0, 0, 0)

  /** A table's counts are all zero exactly when its hashes are the same. */
  lemma NoChangeIsSameHashes(now: RowHashes, before: RowHashes, t: Table)
    ensures Change(now, before, t) == NO_CHANGE <==> In(now, t) == In(before, t)
  {
    var n, b := In(now, t), In(before, t);
    var d := Diff(now, before, t);
    if Change(now, before, t) == NO_CHANGE {
      assert d.added == {} && d.removed == {} && d.changed == {};
      forall id ensures id in n <==> id in b ensures id in n ==> n[id] == b[id] {
        assert id !in d.added && id !in d.removed && id !in d.changed;
      }
    }
  }

  /** The hashes a publish stores: of every curriculum table, the translations perhaps absent from an older one. */
  ghost predicate IsHashes(hashes: RowHashes) {
    forall t :: (Substantive(t) ==> t in hashes) && (t in hashes ==> InCurriculum(t))
  }

  /** Leaving an empty translations table out changes nothing a summary counts, and makes absent and empty the same. */
  lemma PayloadHashIgnoresEmptyTranslations(hashes: RowHashes, t: Table)
    requires IsHashes(hashes)
    ensures In(PayloadHash(hashes).of, t) == In(hashes, t)
    ensures t in PayloadHash(hashes).of <==> Substantive(t) || (t == ContentTranslations && In(hashes, t) != map[])
  {
    assert In(hashes, t) == map[] <==> |In(hashes, t)| == 0;
  }

  lemma SameHashesSameMaps(a: RowHashes, b: RowHashes)
    requires a.Keys == b.Keys && forall t :: InCurriculum(t) ==> In(a, t) == In(b, t)
    requires forall t :: t in a ==> InCurriculum(t)
    ensures a == b
  {
    forall t | t in a ensures a[t] == b[t] {
      assert In(a, t) == In(b, t);
    }
  }

  /**
   "Changed since publish" and the pending summary never disagree: the payload's hash differs from the stored one
   exactly when some table's counts are not all zero, an absent translations table counting as an empty one.
   */
  lemma ChangedExactlyWhenSomethingIsPending(now: RowHashes, stored: RowHashes)
    requires IsHashes(now) && IsHashes(stored)
    ensures PayloadHash(now) != PayloadHash(stored) <==>
            exists t :: InCurriculum(t) && Change(now, stored, t) != NO_CHANGE
  {
    hide PayloadHash, Change, In;
    var a, b := PayloadHash(now).of, PayloadHash(stored).of;
    forall t
      ensures In(a, t) == In(now, t) && In(b, t) == In(stored, t)
      ensures Change(now, stored, t) == NO_CHANGE <==> In(now, t) == In(stored, t)
      ensures In(now, t) == In(stored, t) ==> (t in a <==> t in b)
    {
      PayloadHashIgnoresEmptyTranslations(now, t);
      PayloadHashIgnoresEmptyTranslations(stored, t);
      NoChangeIsSameHashes(now, stored, t);
    }
    if forall t :: InCurriculum(t) ==> Change(now, stored, t) == NO_CHANGE {
      forall t ensures t in a <==> t in b {
        PayloadHashIgnoresEmptyTranslations(now, t);
        PayloadHashIgnoresEmptyTranslations(stored, t);
      }
      forall t | t in a ensures InCurriculum(t) {
        PayloadHashIgnoresEmptyTranslations(now, t);
      }
      SameHashesSameMaps(a, b);
    }
  }

  lemma SplitSizes(now: set<string>, before: set<string>)
    ensures |now| == |now * before| + |now - before| && |before| == |now * before| + |before - now|
  {
    assert now == (now * before) + (now - before) && before == (now * before) + (before - now);
    assert |(now * before) + (now - before)| == |now * before| + |now - before|;
    assert |(now * before) + (before - now)| == |now * before| + |before - now|;
  }

  /** Per table: the new size is the old size plus what was added minus what was removed. */
  lemma SizesAddUp(now: RowHashes, before: RowHashes, t: Table)
    ensures |In(now, t)| == |In(before, t)| + Change(now, before, t).added - Change(now, before, t).removed
  {
    var n, b := In(now, t).Keys, In(before, t).Keys;
    var d := Diff(now, before, t);
    assert d.added == n - b && d.removed == b - n;
    SplitSizes(n, b);
    assert |In(now, t)| == |n| && |In(before, t)| == |b|;
  }

  /** Every row has one of the same id and content in the other table. */
  ghost predicate CoveredBy(a: seq<Row>, b: seq<Row>, t: Table) {
    forall r :: r in a ==> exists s :: s in b && SameRow(r, s, t)
  }

  /** The tables have the same rows, by id, with the same content. */
  ghost predicate SameTable(a: seq<Row>, b: seq<Row>, t: Table) {
    CoveredBy(a, b, t) && CoveredBy(b, a, t)
  }

  ghost predicate SameRow(r: Row, s: Row, t: Table) {
    IdText(t, r) == IdText(t, s) && SameContent(r, s)
  }

  ghost predicate Hashable(tables: Tables) {
    (forall t :: t in tables <==> InCurriculum(t)) &&
    (forall t, r :: t in tables && r in tables[t] ==> WellFormed(Obj(r))) &&
    (forall t :: t in tables ==> UniqueIdTexts(tables[t], t))
  }

  ghost predicate Inside(a: map<string, Digest>, b: map<string, Digest>) {
    forall id :: id in a ==> id in b && a[id] == b[id]
  }

  lemma CoveredMeansHashesAreThere(a: seq<Row>, b: seq<Row>, t: Table)
    requires UniqueIdTexts(a, t) && UniqueIdTexts(b, t)
    requires forall r :: r in a || r in b ==> WellFormed(Obj(r))
    ensures CoveredBy(a, b, t) <==> Inside(HashesOf(a, t, map[]), HashesOf(b, t, map[]))
  {
    hide HashesOf, RowHash, IdText, SameContent, UniqueIdTexts, WellFormed;
    HashesOfHolds(a, t, map[]);
    HashesOfHolds(b, t, map[]);
    var ha, hb := HashesOf(a, t, map[]), HashesOf(b, t, map[]);
    forall r, s | r in a && s in b && IdText(t, r) == IdText(t, s)
      ensures SameRow(r, s, t) <==> ha[IdText(t, r)] == hb[IdText(t, s)]
    {
      RowHashIdentifiesContent(r, s);
    }
    if Inside(ha, hb) {
      forall r | r in a ensures exists s :: s in b && SameRow(r, s, t) {
        assert IdText(t, r) in ha;
        var s :| s in b && IdText(t, s) == IdText(t, r);
        assert SameRow(r, s, t);
      }
      assert CoveredBy(a, b, t);
    }
    if CoveredBy(a, b, t) {
      forall id | id in ha ensures id in hb && ha[id] == hb[id] {
        var r :| r in a && IdText(t, r) == id;
        var s :| s in b && SameRow(r, s, t);
      }
      assert Inside(ha, hb);
    }
  }

  lemma SameTableSameHashes(a: seq<Row>, b: seq<Row>, t: Table)
    requires UniqueIdTexts(a, t) && UniqueIdTexts(b, t)
    requires forall r :: r in a || r in b ==> WellFormed(Obj(r))
    ensures HashesOf(a, t, map[]) == HashesOf(b, t, map[]) <==> SameTable(a, b, t)
  {
    hide HashesOf, CoveredBy, UniqueIdTexts, WellFormed;
    CoveredMeansHashesAreThere(a, b, t);
    CoveredMeansHashesAreThere(b, a, t);
  }

  /** Whatever order the readers returned the rows and columns in: equal hashes are equal content, and only that. */
  lemma PayloadHashIdentifiesContent(a: Tables, b: Tables)
    requires Hashable(a) && Hashable(b)
    ensures PayloadHash(Hashes(a)) == PayloadHash(Hashes(b)) <==> forall t :: t in a ==> SameTable(a[t], b[t], t)
  {
    ChangedExactlyWhenSomethingIsPending(Hashes(a), Hashes(b));
    forall t | t in a ensures Change(Hashes(a), Hashes(b), t) == NO_CHANGE <==> SameTable(a[t], b[t], t) {
      NoChangeIsSameHashes(Hashes(a), Hashes(b), t);
      SameTableSameHashes(a[t], b[t], t);
    }
  }

  // ---- the counts, told by the rows --------------------------------------------------------------

  ghost function IdTexts(rows: seq<Row>, t: Table): set<string> {
    set r | r in rows :: IdText(t, r)
  }

  /** The rows of both tables whose content is not the same. */
  ghost function ChangedIds(now: seq<Row>, before: seq<Row>, t: Table): set<string> {
    set id | id in IdTexts(now, t) && DiffersIn(now, before, t, id)
  }

  ghost predicate DiffersIn(now: seq<Row>, before: seq<Row>, t: Table, id: string) {
    exists r, s :: r in now && s in before && IdText(t, r) == id && IdText(t, s) == id && !SameContent(r, s)
  }

  lemma HashedIds(rows: seq<Row>, t: Table)
    requires UniqueIdTexts(rows, t)
    ensures HashesOf(rows, t, map[]).Keys == IdTexts(rows, t)
  {
    HashesOfHolds(rows, t, map[]);
  }

  lemma HashAt(rows: seq<Row>, t: Table, id: string)
    requires UniqueIdTexts(rows, t)
    ensures id in HashesOf(rows, t, map[]) <==> exists r :: r in rows && IdText(t, r) == id
    ensures forall r :: r in rows && IdText(t, r) == id ==>
            id in HashesOf(rows, t, map[]) && HashesOf(rows, t, map[])[id] == RowHash(r)
  {
    hide HashesOf, RowHash, IdText;
    HashesOfHolds(rows, t, map[]);
  }

  lemma ChangedIdsAre(now: seq<Row>, before: seq<Row>, t: Table, id: string)
    requires UniqueIdTexts(now, t) && UniqueIdTexts(before, t)
    requires forall r :: r in now || r in before ==> WellFormed(Obj(r))
    ensures var n, b := HashesOf(now, t, map[]), HashesOf(before, t, map[]);
            id in n && id in b && b[id] != n[id] <==> id in ChangedIds(now, before, t)
  {
    hide HashesOf, RowHash, IdText, SameContent, UniqueIdTexts, WellFormed;
    HashAt(now, t, id);
    HashAt(before, t, id);
    var n, b := HashesOf(now, t, map[]), HashesOf(before, t, map[]);
    if id in n && id in b {
      var r :| r in now && IdText(t, r) == id;
      var s :| s in before && IdText(t, s) == id;
      RowHashIdentifiesContent(r, s);
    }
    if DiffersIn(now, before, t, id) {
      var r, s :| r in now && s in before && IdText(t, r) == id && IdText(t, s) == id && !SameContent(r, s);
      RowHashIdentifiesContent(r, s);
    }
  }

  /**
   The counts of a table: added, the rows whose id only the new one has; removed, those whose id only the old one has;
   changed, those that both have with another content.
   */
  lemma CountsAreOfRows(now: Tables, before: Tables, t: Table)
    requires Hashable(now) && Hashable(before) && t in now && t in before
    ensures var change := Change(Hashes(now), Hashes(before), t);
            change.added == |IdTexts(now[t], t) - IdTexts(before[t], t)| &&
            change.removed == |IdTexts(before[t], t) - IdTexts(now[t], t)| &&
            change.changed == |ChangedIds(now[t], before[t], t)|
  {
    hide HashesOf, RowHash, IdText, SameContent, UniqueIdTexts, WellFormed, ChangedIds, IdTexts;
    HashedIds(now[t], t);
    HashedIds(before[t], t);
    var d := Diff(Hashes(now), Hashes(before), t);
    assert d.added == IdTexts(now[t], t) - IdTexts(before[t], t);
    assert d.removed == IdTexts(before[t], t) - IdTexts(now[t], t);
    forall id ensures id in d.changed <==> id in ChangedIds(now[t], before[t], t) {
      ChangedIdsAre(now[t], before[t], t, id);
    }
    assert d.changed == ChangedIds(now[t], before[t], t);
  }
}
