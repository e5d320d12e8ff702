/**
 A teacher's log upload: the check that everything it names, and every stored row it would overwrite, is of the
 teacher's school, and the upserts by primary key that follow.
 */
module LogImport {
  import opened Values

  datatype Table =
    | Access | Results | Actives | Learning | GradeProgress | LevelProgress | LessonProgress | PointRows | AppUsages

  /** The column that names the learner of a row: a learner's id, a login, or (besides) either of them. */
  predicate HasStudent(t: Table) {
    t != Access && t != AppUsages
  }

  predicate HasLogin(t: Table) {
    t == Access || t == AppUsages
  }

  predicate HasEither(t: Table) {
    t == Learning
  }

  /** A row of the upload, its values as the file has them. */
  datatype Entry = Entry(table: Table, pk: Json, student: Json, login: Json, either: Json, columns: Json)

  datatype Question = Question(pk: Json, parent: Json, columns: Json)

  /** `whole`: the file has its three parts, without which nothing is imported. */
  datatype Upload = Upload(entries: seq<Entry>, questions: seq<Question>, whole: bool)

  datatype StoredRow = StoredRow(student: Option<string>, login: Option<string>, either: Option<string>, columns: Json)

  datatype StoredQuestion = StoredQuestion(parent: string, columns: Json)

  datatype Key = Key(table: Table, id: string)

  /** The log tables, by lower-case primary key. */
  datatype LogDb = LogDb(rows: map<Key, StoredRow>, questions: map<string, StoredQuestion>)

  datatype Student = Student(school: Option<string>, login: Option<string>)

  /** The learners and the logins, by lower-case id. */
  datatype Registry = Registry(students: map<string, Student>, logins: map<string, Option<string>>)

  /** A stored value read back as an id; an absent one is the empty text. */
  function StoredId(v: Option<string>): string {
    if v.Some? then Lower(v.value) else ""
  }

  // ---- whose an id is ----------------------------------------------------------------------------

  datatype Claim = Learner(id: string) | Login(id: string) | LearnerOrLogin(id: string)

  predicate LearnerOk(reg: Registry, school: string, id: string) {
    id in reg.students && StoredId(reg.students[id].school) == school
  }

  predicate Owns(s: Student, login: string) {
    s.login.Some? && Lower(s.login.value) == login
  }

  /** A login passes when its own row is in the school, and so is every learner that owns it. */
  predicate LoginOk(reg: Registry, school: string, id: string) {
    id in reg.logins && StoredId(reg.logins[id]) == school &&
    forall s :: s in reg.students && Owns(reg.students[s], id) ==> StoredId(reg.students[s].school) == school
  }

  predicate ClaimOk(reg: Registry, school: string, c: Claim) {
    match c
    case Learner(id) => LearnerOk(reg, school, id)
    case Login(id) => LoginOk(reg, school, id)
    case LearnerOrLogin(id) => LearnerOk(reg, school, id) || LoginOk(reg, school, id)
  }

  predicate EntryOk(e: Entry) {
    KeyOf(e.pk).Some? && (HasStudent(e.table) ==> KeyOf(e.student).Some?) &&
    (HasLogin(e.table) ==> KeyOf(e.login).Some?) &&
    (HasEither(e.table) && e.either != Null ==> KeyOf(e.either).Some?)
  }

  predicate QuestionOk(q: Question) {
    KeyOf(q.pk).Some? && KeyOf(q.parent).Some?
  }

  function RowKey(e: Entry): Key
    requires EntryOk(e)
  {
    Key(e.table, KeyOf(e.pk).value)
  }

  function Written(e: Entry): StoredRow
    requires EntryOk(e)
  {
    StoredRow(if HasStudent(e.table) then Some(e.student.s) else None, if HasLogin(e.table) then Some(e.login.s)
                                                                       else None,
              if HasEither(e.table) && e.either != Null then Some(e.either.s) else None, e.columns)
  }

  /** Whom a stored row is about, and whom a row of the upload would be about once stored. */
  function Claims(t: Table, row: StoredRow): set<Claim> {
    (if HasStudent(t) then {Learner(StoredId(row.student))} else {}) +
    (if HasLogin(t) then {Login(StoredId(row.login))} else {}) +
    (if HasEither(t) && row.either.Some? then {LearnerOrLogin(StoredId(row.either))} else {})
  }

  /** The row is about the school's own. */
  predicate Belongs(reg: Registry, school: string, t: Table, row: StoredRow) {
    forall c :: c in Claims(t, row) ==> ClaimOk(reg, school, c)
  }

  /** The result a question hangs from is stored, and of the school's own learner. */
  predicate ParentOk(reg: Registry, school: string, db: LogDb, parent: string) {
    Key(Results, parent) in db.rows && LearnerOk(reg, school, StoredId(db.rows[Key(Results, parent)].student))
  }

  // ---- what is accepted --------------------------------------------------------------------------

  predicate Uploads(up: Upload, k: Key) {
    exists e :: e in up.entries && EntryOk(e) && RowKey(e) == k
  }

  /**
   The upload is accepted: every id is one, and, when it names anyone at all, the teacher has a school, every row's
   learner is of it, and so is that of every stored row and every stored question the keys reach.
   */
  predicate Accepts(reg: Registry, db: LogDb, schoolid: Option<string>, up: Upload) {
    (forall e :: e in up.entries ==> EntryOk(e)) && (forall q :: q in up.questions ==> QuestionOk(q)) &&
    ((up.entries == [] && up.questions == []) ||
     (schoolid.Some? && schoolid.value != "" && AllInSchool(reg, db, Lower(schoolid.value), up)))
  }

  predicate EntryInSchool(reg: Registry, db: LogDb, school: string, e: Entry) {
    EntryOk(e) && Belongs(reg, school, e.table, Written(e)) &&
    (RowKey(e) in db.rows ==> Belongs(reg, school, e.table, db.rows[RowKey(e)]))
  }

  predicate QuestionInSchool(reg: Registry, db: LogDb, school: string, up: Upload, q: Question) {
    QuestionOk(q) &&
    (Uploads(up, Key(Results, KeyOf(q.parent).value)) || ParentOk(reg, school, db, KeyOf(q.parent).value)) &&
    (KeyOf(q.pk).value in db.questions ==> ParentOk(reg, school, db, Lower(db.questions[KeyOf(q.pk).value].parent)))
  }

  predicate AllInSchool(reg: Registry, db: LogDb, school: string, up: Upload) {
    (forall e :: e in up.entries ==> EntryInSchool(reg, db, school, e)) &&
    (forall q :: q in up.questions ==> QuestionInSchool(reg, db, school, up, q))
  }

  // ---- lookups in chunks -------------------------------------------------------------------------

  /** A lookup of many ids at once finds what lookups of parts of them find. */
  ghost predicate Distributes<K(!new), R>(find: seq<K> -> set<R>) {
    find([]) == {} && forall a: seq<K>, b: seq<K> :: find(a + b) == find(a) + find(b)
  }

  /** `findInChunks`: for every chunk size from 1, the same rows as one lookup of all the ids. */
  method FindInChunks<K(!new), R>(all: seq<K>, find: seq<K> -> set<R>, size: nat) returns (found: set<R>)
    requires size >= 1 && Distributes(find)
    ensures found == find(all)
  {
    found := {};
    var i := 0;
    assert all[..0] == [];
    while i < |all|
      invariant 0 <= i && found == find(all[..if i < |all| then i else |all|])
    {
      var end := if i + size < |all| then i + size else |all|;
      assert all[..end] == all[..i] + all[i..end];
      found := found + find(all[i..end]);
      i := i + size;
    }
    assert all[..|all|] == all;
  }

  function StoredKeys(db: LogDb, ids: seq<Key>): set<Key> {
    set k | k in ids && k in db.rows
  }

  function StoredQuestions(db: LogDb, ids: seq<string>): set<string> {
    set k | k in ids && k in db.questions
  }

  lemma LookupsDistribute(db: LogDb)
    ensures Distributes((ids: seq<Key>) => StoredKeys(db, ids)) &&
            Distributes((ids: seq<string>) => StoredQuestions(db, ids))
  {
  }

  // ---- the check ---------------------------------------------------------------------------------

  /** The claims of the rows. */
  function AllClaims(entries: seq<Entry>): (r: set<Claim>)
    requires forall e :: e in entries ==> EntryOk(e)
    ensures forall c :: c in r <==> exists e :: e in entries && c in Claims(e.table, Written(e))
  {
    if entries == [] then {}
    else
      var last := |entries| - 1;
      assert entries == entries[..last] + [entries[last]];
      AllClaims(entries[..last]) + Claims(entries[last].table, Written(entries[last]))
  }

  function AllKeys(entries: seq<Entry>): (r: seq<Key>)
    requires forall e :: e in entries ==> EntryOk(e)
    ensures forall k :: k in r <==> exists e :: e in entries && RowKey(e) == k
  {
    if entries == [] then []
    else
      var last := |entries| - 1;
      assert entries == entries[..last] + [entries[last]];
      AllKeys(entries[..last]) + [RowKey(entries[last])]
  }

  /** The ids the rows name, or a refusal when one is no id. */
  method CollectEntries(entries: seq<Entry>) returns (ok: bool, keys: seq<Key>, claims: set<Claim>)
    ensures ok <==> forall e :: e in entries ==> EntryOk(e)
    ensures ok ==> keys == AllKeys(entries) && claims == AllClaims(entries)
  {
    hide EntryOk, Claims, Written;
    keys, claims := [], {};
    for i := 0 to |entries|
      invariant forall e :: e in entries[..i] ==> EntryOk(e)
      invariant keys == AllKeys(entries[..i]) && claims == AllClaims(entries[..i])
    {
      if !EntryOk(entries[i]) { return false, keys, claims; }
      assert entries[..i + 1] == entries[..i] + [entries[i]] && entries[..i + 1][..i] == entries[..i];
      keys := keys + [RowKey(entries[i])];
      claims := claims + Claims(entries[i].table, Written(entries[i]));
    }
    assert entries[..|entries|] == entries;
    ok := true;
  }

  /** The claims of the stored rows the keys reach. */
  method CollectStored(db: LogDb, keys: seq<Key>, chunkSize: nat) returns (claims: set<Claim>)
    requires chunkSize >= 1
    ensures forall c :: c in claims <==> exists k :: k in keys && k in db.rows && c in Claims(k.table, db.rows[k])
  {
    LookupsDistribute(db);
    var found := FindInChunks(keys, (ids: seq<Key>) => StoredKeys(db, ids), chunkSize);
    ghost var all := found;
    claims := {};
    while found != {}
      invariant found <= all
      invariant forall c :: c in claims <==> exists k :: k in all - found && c in Claims(k.table, db.rows[k])
      decreases found
    {
      var k :| k in found;
      claims := claims + Claims(k.table, db.rows[k]);
      assert all - (found - {k}) == (all - found) + {k};
      found := found - {k};
    }
    assert all - {} == all;
  }

  method CheckClaims(reg: Registry, school: string, claims: set<Claim>) returns (ok: bool)
    ensures ok <==> forall c :: c in claims ==> ClaimOk(reg, school, c)
  {
    var left := claims;
    while left != {}
      invariant left <= claims && forall c :: c in claims - left ==> ClaimOk(reg, school, c)
      decreases left
    {
      var c :| c in left;
      if !ClaimOk(reg, school, c) { return false; }
      left := left - {c};
    }
    return true;
  }

  /** The key of a question is stored exactly when the lookup of all the keys finds it. */
  lemma QuestionIsFound(db: LogDb, ids: seq<string>, i: nat)
    requires i < |ids|
    ensures ids[i] in StoredQuestions(db, ids) <==> ids[i] in db.questions
  {
  }

  /** Each question's result, uploaded or stored, and the result a stored question of the same key hangs from now. */
  method CheckQuestions(reg: Registry, db: LogDb, school: string, up: Upload, chunkSize: nat) returns (ok: bool)
    requires chunkSize >= 1 && forall q :: q in up.questions ==> QuestionOk(q)
    ensures ok <==> forall q :: q in up.questions ==> QuestionInSchool(reg, db, school, up, q)
  {
    hide ParentOk, Uploads, StoredQuestions;
    var ids := seq(|up.questions|,
                   i requires 0 <= i < |up.questions| && QuestionOk(up.questions[i]) =>
                   KeyOf(up.questions[i].pk).value);
    LookupsDistribute(db);
    var stored := FindInChunks(ids, (chunk: seq<string>) => StoredQuestions(db, chunk), chunkSize);
    for i := 0 to |up.questions|
      invariant forall j :: 0 <= j < i ==> QuestionInSchool(reg, db, school, up, up.questions[j])
    {
      var q := up.questions[i];
      assert q in up.questions && QuestionOk(q);
      var pk, parent := ids[i], KeyOf(q.parent).value;
      QuestionIsFound(db, ids, i);
      if !Uploads(up, Key(Results, parent)) && !ParentOk(reg, school, db, parent) { return false; }
      if pk in stored && !ParentOk(reg, school, db, Lower(db.questions[pk].parent)) { return false; }
    }
    return true;
  }

  lemma EntriesInSchool(reg: Registry, db: LogDb, school: string, entries: seq<Entry>, stored: set<Claim>)
    requires forall e :: e in entries ==> EntryOk(e)
    requires forall c :: c in stored <==>
             exists k :: k in AllKeys(entries) && k in db.rows && c in Claims(k.table, db.rows[k])
    ensures (forall c :: c in AllClaims(entries) + stored ==> ClaimOk(reg, school, c)) <==>
            forall e :: e in entries ==> EntryInSchool(reg, db, school, e)
  {
    hide ClaimOk, EntryOk, Claims;
    if forall c :: c in AllClaims(entries) + stored ==> ClaimOk(reg, school, c) {
      forall e | e in entries ensures EntryInSchool(reg, db, school, e) {
      }
    }
    if forall e :: e in entries ==> EntryInSchool(reg, db, school, e) {
      forall c | c in AllClaims(entries) + stored ensures ClaimOk(reg, school, c) {
        if c in stored {
          var k :| k in AllKeys(entries) && k in db.rows && c in Claims(k.table, db.rows[k]);
          var e :| e in entries && RowKey(e) == k;
          assert EntryInSchool(reg, db, school, e);
        } else {
          var e :| e in entries && c in Claims(e.table, Written(e));
          assert EntryInSchool(reg, db, school, e);
        }
      }
    }
  }

  /** `assertLogRowsInSchool`: the verdict is that of `Accepts`, whatever the chunk size. */
  method AssertLogRowsInSchool(reg: Registry, db: LogDb, schoolid: Option<string>, up: Upload, chunkSize: nat)
      returns (ok: bool)
    requires chunkSize >= 1
    ensures ok <==> Accepts(reg, db, schoolid, up)
  {
    hide EntryInSchool, QuestionInSchool, EntryOk, QuestionOk, Claims, Written;
    var idsOk, keys, named := CollectEntries(up.entries);
    if !idsOk { return false; }
    for i := 0 to |up.questions|
      invariant forall j :: 0 <= j < i ==> QuestionOk(up.questions[j])
    {
      if !QuestionOk(up.questions[i]) { return false; }
    }
    if up.entries == [] && up.questions == [] { return true; }
    if schoolid.None? || schoolid.value == "" { return false; }
    var school := Lower(schoolid.value);
    var stored := CollectStored(db, keys, chunkSize);
    EntriesInSchool(reg, db, school, up.entries, stored);
    var claimsOk := CheckClaims(reg, school, named + stored);
    if !claimsOk { return false; }
    ok := CheckQuestions(reg, db, school, up, chunkSize);
  }

  // ---- the upserts -------------------------------------------------------------------------------

  function WriteEntry(db: LogDb, e: Entry): LogDb
    requires EntryOk(e)
  {
    db.(rows := db.rows[RowKey(e) := Written(e)])
  }

  function WriteEntries(db: LogDb, entries: seq<Entry>): LogDb
    requires forall e :: e in entries ==> EntryOk(e)
    decreases |entries|
  {
    if entries == [] then db else WriteEntries(WriteEntry(db, entries[0]), entries[1..])
  }

  function WriteQuestion(db: LogDb, q: Question): LogDb
    requires QuestionOk(q)
  {
    db.(questions := db.questions[KeyOf(q.pk).value := StoredQuestion(q.parent.s, q.columns)])
  }

  function WriteQuestions(db: LogDb, questions: seq<Question>): LogDb
    requires forall q :: q in questions ==> QuestionOk(q)
    decreases |questions|
  {
    if questions == [] then db else WriteQuestions(WriteQuestion(db, questions[0]), questions[1..])
  }

  /** `importstudentsprogress`, by primary key, in the tables' order. */
  function Import(db: LogDb, up: Upload): LogDb
    requires (forall e :: e in up.entries ==> EntryOk(e)) && forall q :: q in up.questions ==> QuestionOk(q)
  {
    if up.whole then WriteQuestions(WriteEntries(db, up.entries), up.questions) else db
  }

  class LogTables {
    var db: LogDb

    constructor (given: LogDb)
      ensures db == given
    {
      db := given;
    }

    /** The upload as the service handles it: checked, then written whole, or refused with nothing written. */
    method ImportLogs(reg: Registry, schoolid: Option<string>, up: Upload, chunkSize: nat) returns (ok: bool)
      requires chunkSize >= 1
      modifies this
      ensures ok <==> Accepts(reg, old(db), schoolid, up)
      ensures db == if Accepts(reg, old(db), schoolid, up) then Import(old(db), up) else old(db)
    {
      ok := AssertLogRowsInSchool(reg, db, schoolid, up, chunkSize);
      if !ok || !up.whole { return; }
      hide EntryOk, QuestionOk, AllInSchool;
      ghost var start := db;
      for i := 0 to |up.entries|
        invariant WriteEntries(db, up.entries[i..]) == WriteEntries(start, up.entries)
      {
        assert up.entries[i..][1..] == up.entries[i + 1..];
        db := WriteEntry(db, up.entries[i]);
      }
      ghost var rowsDone := db;
      for i := 0 to |up.questions|
        invariant WriteQuestions(db, up.questions[i..]) == WriteQuestions(rowsDone, up.questions)
      {
        assert up.questions[i..][1..] == up.questions[i + 1..];
        db := WriteQuestion(db, up.questions[i]);
      }
    }
  }

  // ---- what the check frames ---------------------------------------------------------------------

  /** A row of the result is one of the upload's, or the one that was stored; the questions are left for later. */
  lemma {:induction false} WrittenRowsComeFrom(db: LogDb, entries: seq<Entry>, k: Key)
    requires forall e :: e in entries ==> EntryOk(e)
    ensures var after := WriteEntries(db, entries);
            after.questions == db.questions &&
            if exists e :: e in entries && RowKey(e) == k
            then k in after.rows && exists e :: e in entries && RowKey(e) == k && after.rows[k] == Written(e)
            else (k in after.rows <==> k in db.rows) && (k in db.rows ==> after.rows[k] == db.rows[k])
    decreases |entries|
  {
    hide EntryOk;
    if entries != [] {
      assert entries == [entries[0]] + entries[1..];
      WrittenRowsComeFrom(WriteEntry(db, entries[0]), entries[1..], k);
    }
  }

  lemma {:induction false} WrittenQuestionsComeFrom(db: LogDb, questions: seq<Question>, k: string)
    requires forall q :: q in questions ==> QuestionOk(q)
    ensures var after := WriteQuestions(db, questions);
            after.rows == db.rows &&
            if exists q :: q in questions && KeyOf(q.pk).value == k
            then k in after.questions &&
                 exists q :: q in questions && KeyOf(q.pk).value == k &&
                             after.questions[k] == StoredQuestion(q.parent.s, q.columns)
            else (k in after.questions <==> k in db.questions) &&
                 (k in db.questions ==> after.questions[k] == db.questions[k])
    decreases |questions|
  {
    hide QuestionOk;
    if questions != [] {
      assert questions == [questions[0]] + questions[1..];
      WrittenQuestionsComeFrom(WriteQuestion(db, questions[0]), questions[1..], k);
    }
  }

  lemma AcceptedParts(reg: Registry, db: LogDb, schoolid: Option<string>, up: Upload)
    requires Accepts(reg, db, schoolid, up)
    ensures (forall e :: e in up.entries ==> EntryOk(e)) && forall q :: q in up.questions ==> QuestionOk(q)
    ensures (up.entries != [] || up.questions != []) ==>
            schoolid.Some? && AllInSchool(reg, db, Lower(schoolid.value), up)
  {
  }

  function SchoolOf(schoolid: Option<string>): string {
    if schoolid.Some? then Lower(schoolid.value) else ""
  }

  /** Accepted, the import leaves every stored row about anyone outside the school as it is. */
  lemma OutsideRowsStay(reg: Registry, db: LogDb, schoolid: Option<string>, up: Upload, k: Key)
    requires Accepts(reg, db, schoolid, up) && k in db.rows && !Belongs(reg, SchoolOf(schoolid), k.table, db.rows[k])
    ensures k in Import(db, up).rows && Import(db, up).rows[k] == db.rows[k]
  {
    hide EntryOk, QuestionOk, Accepts, Belongs, Written;
    AcceptedParts(reg, db, schoolid, up);
    WrittenRowsComeFrom(db, up.entries, k);
    RowsAfterQuestions(db, up);
    if e :| e in up.entries && RowKey(e) == k {
      assert EntryInSchool(reg, db, SchoolOf(schoolid), e);
    }
  }

  lemma RowsAfterQuestions(db: LogDb, up: Upload)
    requires (forall e :: e in up.entries ==> EntryOk(e)) && forall q :: q in up.questions ==> QuestionOk(q)
    ensures Import(db, up).rows == if up.whole then WriteEntries(db, up.entries).rows else db.rows
  {
    hide EntryOk, QuestionOk, WriteEntries;
    WrittenQuestionsComeFrom(WriteEntries(db, up.entries), up.questions, "");
  }

  /** Every row the import writes is about the school's own. */
  lemma WrittenRowsBelong(reg: Registry, db: LogDb, schoolid: Option<string>, up: Upload, k: Key)
    requires Accepts(reg, db, schoolid, up) && up.whole && exists e :: e in up.entries && EntryOk(e) && RowKey(e) == k
    ensures k in Import(db, up).rows && Belongs(reg, SchoolOf(schoolid), k.table, Import(db, up).rows[k])
  {
    hide EntryOk, QuestionOk, Accepts, Belongs, Written;
    AcceptedParts(reg, db, schoolid, up);
    WrittenRowsComeFrom(db, up.entries, k);
    RowsAfterQuestions(db, up);
    var e :| e in up.entries && RowKey(e) == k && WriteEntries(db, up.entries).rows[k] == Written(e);
    assert EntryInSchool(reg, db, SchoolOf(schoolid), e);
  }

  /** A stored result of the school's learner stays one, and so does one the upload writes. */
  lemma ParentStaysOk(reg: Registry, db: LogDb, schoolid: Option<string>, up: Upload, parent: string)
    requires Accepts(reg, db, schoolid, up) && up.whole
    requires Uploads(up, Key(Results, parent)) || ParentOk(reg, SchoolOf(schoolid), db, parent)
    ensures ParentOk(reg, SchoolOf(schoolid), Import(db, up), parent)
  {
    hide EntryOk, QuestionOk, Accepts, Written, AllInSchool;
    var k := Key(Results, parent);
    AcceptedParts(reg, db, schoolid, up);
    WrittenRowsComeFrom(db, up.entries, k);
    RowsAfterQuestions(db, up);
    if Uploads(up, k) {
      WrittenRowsBelong(reg, db, schoolid, up, k);
      assert Learner(StoredId(Import(db, up).rows[k].student)) in Claims(Results, Import(db, up).rows[k]);
    }
  }

  /** Every question the import writes hangs from a result of the school's learner, as the tables are afterwards. */
  lemma WrittenQuestionsBelong(reg: Registry, db: LogDb, schoolid: Option<string>, up: Upload, k: string)
    requires Accepts(reg, db, schoolid, up) && up.whole &&
             exists q :: q in up.questions && QuestionOk(q) && KeyOf(q.pk).value == k
    ensures k in Import(db, up).questions &&
            ParentOk(reg, SchoolOf(schoolid), Import(db, up), Lower(Import(db, up).questions[k].parent))
  {
    hide EntryOk, Accepts, ParentOk, Uploads;
    AcceptedParts(reg, db, schoolid, up);
    WrittenQuestionsComeFrom(WriteEntries(db, up.entries), up.questions, k);
    var q :| q in up.questions && KeyOf(q.pk).value == k &&
        Import(db, up).questions[k] == StoredQuestion(q.parent.s, q.columns);
    assert QuestionInSchool(reg, db, SchoolOf(schoolid), up, q);
    ParentStaysOk(reg, db, schoolid, up, KeyOf(q.parent).value);
  }

  /** Accepted, the import leaves every stored question of a result outside the school as it is. */
  lemma OutsideQuestionsStay(reg: Registry, db: LogDb, schoolid: Option<string>, up: Upload, k: string)
    requires Accepts(reg, db, schoolid, up) && k in db.questions &&
             !ParentOk(reg, SchoolOf(schoolid), db, Lower(db.questions[k].parent))
    ensures k in Import(db, up).questions && Import(db, up).questions[k] == db.questions[k]
  {
    hide EntryOk, Accepts, ParentOk, Uploads;
    AcceptedParts(reg, db, schoolid, up);
    if up.whole {
      WrittenRowsComeFrom(db, up.entries, Key(Results, ""));
      WrittenQuestionsComeFrom(WriteEntries(db, up.entries), up.questions, k);
      forall q | q in up.questions ensures KeyOf(q.pk).value != k {
        assert QuestionInSchool(reg, db, SchoolOf(schoolid), up, q);
      }
    }
  }
}
