/**
 What the check of a log upload is for, told by the tables' own columns and the registry: who is of the teacher's
 school, which uploads pass, what an accepted upload writes and what it leaves.
 */
module LogLaws {
  import opened Values
  import opened LogImport

  // ---- who is of the school ----------------------------------------------------------------------

  /** A learner that is registered, at this school. */
  ghost predicate LearnerOf(reg: Registry, school: string, id: string) {
    exists s: Student :: id in reg.students && s == reg.students[id] && StoredId(s.school) == school
  }

  /** A login registered at this school, and at no learner's of another. */
  ghost predicate LoginOf(reg: Registry, school: string, id: string) {
    id in reg.logins && StoredId(reg.logins[id]) == school &&
    !exists s :: s in reg.students && reg.students[s].login.Some? && Lower(reg.students[s].login.value) == id &&
                 StoredId(reg.students[s].school) != school
  }

  /** Table by table: the columns that say whom a row is about, and that they name the school's own. */
  ghost predicate IsOfSchool(reg: Registry, school: string, t: Table, row: StoredRow) {
    match t
    case Access => LoginOf(reg, school, StoredId(row.login))
    case Results => LearnerOf(reg, school, StoredId(row.student))
    case Actives => LearnerOf(reg, school, StoredId(row.student))
    case Learning =>
      LearnerOf(reg, school, StoredId(row.student)) &&
      (row.either.None? || LearnerOf(reg, school, Lower(row.either.value)) ||
       LoginOf(reg, school, Lower(row.either.value)))
    case GradeProgress => LearnerOf(reg, school, StoredId(row.student))
    case LevelProgress => LearnerOf(reg, school, StoredId(row.student))
    case LessonProgress => LearnerOf(reg, school, StoredId(row.student))
    case PointRows => LearnerOf(reg, school, StoredId(row.student))
    case AppUsages => LoginOf(reg, school, StoredId(row.login))
  }

  /** A result is stored, and its learner is of the school. */
  ghost predicate ResultOf(reg: Registry, school: string, db: LogDb, result: string) {
    Key(Results, result) in db.rows && LearnerOf(reg, school, StoredId(db.rows[Key(Results, result)].student))
  }

  lemma BelongingIs(reg: Registry, school: string, t: Table, row: StoredRow)
    ensures Belongs(reg, school, t, row) <==> IsOfSchool(reg, school, t, row)
  {
    hide LoginOk, LoginOf, LearnerOk, LearnerOf;
    forall id ensures LearnerOk(reg, school, id) <==> LearnerOf(reg, school, id) {
      LearnerIs(reg, school, id);
    }
    forall id ensures LoginOk(reg, school, id) <==> LoginOf(reg, school, id) {
      LoginIs(reg, school, id);
    }
    var claims := Claims(t, row);
    assert HasStudent(t) ==> Learner(StoredId(row.student)) in claims;
    assert HasLogin(t) ==> Login(StoredId(row.login)) in claims;
    assert HasEither(t) && row.either.Some? ==> LearnerOrLogin(StoredId(row.either)) in claims;
  }

  lemma LearnerIs(reg: Registry, school: string, id: string)
    ensures LearnerOk(reg, school, id) <==> LearnerOf(reg, school, id)
  {
  }

  lemma LoginIs(reg: Registry, school: string, id: string)
    ensures LoginOk(reg, school, id) <==> LoginOf(reg, school, id)
  {
  }

  // ---- what passes -------------------------------------------------------------------------------

  /** What an uploaded row names, as the file has it: an id where its table needs one. */
  ghost predicate NamesIds(e: Entry) {
    IsId(e.pk) &&
    match e.table
    case Access => IsId(e.login)
    case AppUsages => IsId(e.login)
    case Learning => IsId(e.student) && (e.either == Null || IsId(e.either))
    case _ => IsId(e.student)
  }

  predicate IsId(v: Json) {
    v.Str? && v.s != ""
  }

  /** The row an uploaded row becomes: its own values, each in its column. */
  ghost predicate IsRowOf(e: Entry, row: StoredRow) {
    row.columns == e.columns &&
    match e.table
    case Access => row.login.Some? && e.login == Str(row.login.value) && row.student.None? && row.either.None?
    case AppUsages => row.login.Some? && e.login == Str(row.login.value) && row.student.None? && row.either.None?
    case Learning =>
      row.student.Some? && e.student == Str(row.student.value) && row.login.None? &&
      (if e.either == Null then row.either.None? else row.either.Some? && e.either == Str(row.either.value))
    case _ => row.student.Some? && e.student == Str(row.student.value) && row.login.None? && row.either.None?
  }

  lemma EntryIs(e: Entry)
    ensures EntryOk(e) <==> NamesIds(e)
    ensures EntryOk(e) ==> IsRowOf(e, Written(e)) && RowKey(e) == Key(e.table, Lower(e.pk.s))
  {
  }

  ghost predicate IsUploaded(up: Upload, k: Key) {
    exists e :: e in up.entries && NamesIds(e) && k == Key(e.table, Lower(e.pk.s))
  }

  ghost predicate AsksIds(q: Question) {
    IsId(q.pk) && IsId(q.parent)
  }

  /** An uploaded row, and the stored row of its key, are the school's own. */
  ghost predicate MayWrite(reg: Registry, db: LogDb, school: string, e: Entry) {
    NamesIds(e) && (forall row :: IsRowOf(e, row) ==> IsOfSchool(reg, school, e.table, row)) &&
    var k := Key(e.table, Lower(e.pk.s));
    k in db.rows ==> IsOfSchool(reg, school, e.table, db.rows[k])
  }

  /** A question's result is uploaded with it, or stored and the school's; and so is that of the stored question. */
  ghost predicate MayAsk(reg: Registry, db: LogDb, school: string, up: Upload, q: Question) {
    AsksIds(q) &&
    (IsUploaded(up, Key(Results, Lower(q.parent.s))) || ResultOf(reg, school, db, Lower(q.parent.s))) &&
    (Lower(q.pk.s) in db.questions ==> ResultOf(reg, school, db, Lower(db.questions[Lower(q.pk.s)].parent)))
  }

  lemma UploadedIs(up: Upload, k: Key)
    ensures Uploads(up, k) <==> IsUploaded(up, k)
  {
    hide EntryOk, RowKey;
    if Uploads(up, k) {
      var e :| e in up.entries && EntryOk(e) && RowKey(e) == k;
      EntryIs(e);
    }
    if IsUploaded(up, k) {
      var e :| e in up.entries && NamesIds(e) && k == Key(e.table, Lower(e.pk.s));
      EntryIs(e);
    }
  }

  lemma OneRow(e: Entry, a: StoredRow, b: StoredRow)
    requires IsRowOf(e, a) && IsRowOf(e, b)
    ensures a == b
  {
  }

  lemma MayWriteIs(reg: Registry, db: LogDb, school: string, e: Entry)
    ensures EntryInSchool(reg, db, school, e) <==> MayWrite(reg, db, school, e)
  {
    hide EntryOk, Belongs, IsOfSchool, IsRowOf, Written, RowKey;
    EntryIs(e);
    if EntryOk(e) {
      BelongingIs(reg, school, e.table, Written(e));
      forall row | IsRowOf(e, row) ensures row == Written(e) {
        OneRow(e, row, Written(e));
      }
      var k := Key(e.table, Lower(e.pk.s));
      if k in db.rows { BelongingIs(reg, school, e.table, db.rows[k]); }
    }
  }

  lemma MayAskIs(reg: Registry, db: LogDb, school: string, up: Upload, q: Question)
    ensures QuestionInSchool(reg, db, school, up, q) <==> MayAsk(reg, db, school, up, q)
  {
    hide Uploads, IsUploaded, LearnerOk, LearnerOf;
    if QuestionOk(q) {
      UploadedIs(up, Key(Results, KeyOf(q.parent).value));
      forall id ensures LearnerOk(reg, school, id) <==> LearnerOf(reg, school, id) {
        LearnerIs(reg, school, id);
      }
    }
  }

  /**
   An upload passes if and only if every id in it is one, and, when it names anyone, the teacher has a school, and every
   row, every stored row it reaches, and the result of every question and of every stored question it reaches, is of a
   learner or a login of that school.
   */
  lemma AcceptedExactly(reg: Registry, db: LogDb, schoolid: Option<string>, up: Upload)
    ensures Accepts(reg, db, schoolid, up) <==>
            (forall e :: e in up.entries ==> NamesIds(e)) && (forall q :: q in up.questions ==> AsksIds(q)) &&
            ((up.entries == [] && up.questions == []) ||
             (schoolid.Some? && schoolid.value != "" &&
              (forall e :: e in up.entries ==> MayWrite(reg, db, Lower(schoolid.value), e)) &&
              (forall q :: q in up.questions ==> MayAsk(reg, db, Lower(schoolid.value), up, q))))
  {
    hide EntryOk, NamesIds, EntryInSchool, MayWrite, QuestionInSchool, MayAsk;
    forall e ensures EntryOk(e) <==> NamesIds(e) {
      EntryIs(e);
    }
    if schoolid.Some? {
      var school := Lower(schoolid.value);
      forall e ensures EntryInSchool(reg, db, school, e) <==> MayWrite(reg, db, school, e) {
        MayWriteIs(reg, db, school, e);
      }
      forall q ensures QuestionInSchool(reg, db, school, up, q) <==> MayAsk(reg, db, school, up, q) {
        MayAskIs(reg, db, school, up, q);
      }
    }
  }

  // ---- what is written, and what stays -----------------------------------------------------------

  lemma {:induction false} LastEntryWins(db: LogDb, entries: seq<Entry>, i: nat)
    requires (forall e :: e in entries ==> EntryOk(e)) && i < |entries|
    requires forall j :: i < j < |entries| ==> RowKey(entries[j]) != RowKey(entries[i])
    ensures RowKey(entries[i]) in WriteEntries(db, entries).rows
    ensures WriteEntries(db, entries).rows[RowKey(entries[i])] == Written(entries[i])
    decreases |entries|
  {
    hide EntryOk, RowKey, Written;
    var rest := entries[1..];
    if i == 0 {
      WrittenRowsComeFrom(WriteEntry(db, entries[0]), rest, RowKey(entries[0]));
    } else {
      LastEntryWins(WriteEntry(db, entries[0]), rest, i - 1);
    }
  }

  lemma {:induction false} LastQuestionWins(db: LogDb, questions: seq<Question>, i: nat)
    requires (forall q :: q in questions ==> QuestionOk(q)) && i < |questions|
    requires forall j :: i < j < |questions| ==> KeyOf(questions[j].pk) != KeyOf(questions[i].pk)
    ensures QuestionOk(questions[i])
    ensures var k := KeyOf(questions[i].pk).value;
            k in WriteQuestions(db, questions).questions &&
            WriteQuestions(db, questions).questions[k] == StoredQuestion(questions[i].parent.s, questions[i].columns)
    decreases |questions|
  {
    hide Lower;
    var rest := questions[1..];
    if i == 0 {
      WrittenQuestionsComeFrom(WriteQuestion(db, questions[0]), rest, KeyOf(questions[0].pk).value);
    } else {
      LastQuestionWins(WriteQuestion(db, questions[0]), rest, i - 1);
    }
  }

  /**
   An accepted upload is stored as it is: of rows with one key the last, each value in its column, the school's own.
   */
  lemma UploadedRowIsStored(reg: Registry, db: LogDb, schoolid: Option<string>, up: Upload, i: nat)
    requires Accepts(reg, db, schoolid, up) && up.whole && i < |up.entries|
    requires forall j :: i < j < |up.entries| ==>
               up.entries[j].table != up.entries[i].table || KeyOf(up.entries[j].pk) != KeyOf(up.entries[i].pk)
    ensures NamesIds(up.entries[i])
    ensures var e := up.entries[i];
            var k, after := Key(e.table, Lower(e.pk.s)), Import(db, up);
            k in after.rows && IsRowOf(e, after.rows[k]) && IsOfSchool(reg, SchoolOf(schoolid), e.table, after.rows[k])
  {
    hide EntryOk, NamesIds, MayWrite, IsRowOf, Written, QuestionOk, IsOfSchool, KeyOf;
    AcceptedExactly(reg, db, schoolid, up);
    AcceptedParts(reg, db, schoolid, up);
    RowsAfterQuestions(db, up);
    var e := up.entries[i];
    EntryIs(e);
    forall j | i < j < |up.entries| ensures RowKey(up.entries[j]) != RowKey(e) {
      SameKeySamePk(up.entries[j], e);
    }
    LastEntryWins(db, up.entries, i);
    assert MayWrite(reg, db, Lower(schoolid.value), e);
    WrittenIsOfSchool(reg, db, Lower(schoolid.value), e);
  }

  lemma SameKeySamePk(a: Entry, b: Entry)
    requires EntryOk(a) && EntryOk(b)
    ensures RowKey(a) == RowKey(b) ==> a.table == b.table && KeyOf(a.pk) == KeyOf(b.pk)
  {
    hide Lower;
  }

  lemma WrittenIsOfSchool(reg: Registry, db: LogDb, school: string, e: Entry)
    requires MayWrite(reg, db, school, e) && EntryOk(e)
    ensures IsOfSchool(reg, school, e.table, Written(e))
  {
    hide EntryOk, NamesIds, IsRowOf, IsOfSchool;
    EntryIs(e);
  }

  /** A row that no uploaded row has the key of stays, and so, when accepted, does every row about anyone else. */
  lemma OtherRowsStay(reg: Registry, db: LogDb, schoolid: Option<string>, up: Upload, k: Key)
    requires Accepts(reg, db, schoolid, up)
    requires !IsUploaded(up, k) || (k in db.rows && !IsOfSchool(reg, SchoolOf(schoolid), k.table, db.rows[k]))
    ensures k in Import(db, up).rows <==> k in db.rows
    ensures k in db.rows ==> Import(db, up).rows[k] == db.rows[k]
  {
    hide EntryOk, QuestionOk, Accepts, IsOfSchool, Belongs, Written, RowKey;
    if k in db.rows && !IsOfSchool(reg, SchoolOf(schoolid), k.table, db.rows[k]) {
      BelongingIs(reg, SchoolOf(schoolid), k.table, db.rows[k]);
      OutsideRowsStay(reg, db, schoolid, up, k);
    } else {
      AcceptedParts(reg, db, schoolid, up);
      WrittenRowsComeFrom(db, up.entries, k);
      RowsAfterQuestions(db, up);
      UploadedIs(up, k);
      assert forall e :: e in up.entries && RowKey(e) == k ==> Uploads(up, k);
    }
  }

  lemma ResultIs(reg: Registry, school: string, db: LogDb, result: string)
    ensures ParentOk(reg, school, db, result) <==> ResultOf(reg, school, db, result)
  {
    hide LearnerOk, LearnerOf;
    if Key(Results, result) in db.rows { LearnerIs(reg, school, StoredId(db.rows[Key(Results, result)].student)); }
  }

  /** An uploaded question is stored as it is, under a result whose learner is, afterwards, of the school. */
  lemma UploadedQuestionIsStored(reg: Registry, db: LogDb, schoolid: Option<string>, up: Upload, i: nat)
    requires Accepts(reg, db, schoolid, up) && up.whole && i < |up.questions|
    requires forall j :: i < j < |up.questions| ==> KeyOf(up.questions[j].pk) != KeyOf(up.questions[i].pk)
    ensures AsksIds(up.questions[i])
    ensures var q, after := up.questions[i], Import(db, up);
            Lower(q.pk.s) in after.questions &&
            after.questions[Lower(q.pk.s)] == StoredQuestion(q.parent.s, q.columns) &&
            ResultOf(reg, SchoolOf(schoolid), after, Lower(q.parent.s))
  {
    hide EntryOk, Accepts, ParentOk, ResultOf, Uploads, WriteEntries, WriteQuestions;
    AcceptedParts(reg, db, schoolid, up);
    var q := up.questions[i];
    assert QuestionOk(q);
    LastQuestionWins(WriteEntries(db, up.entries), up.questions, i);
    WrittenQuestionsBelong(reg, db, schoolid, up, Lower(q.pk.s));
    ResultIs(reg, SchoolOf(schoolid), Import(db, up), Lower(q.parent.s));
  }

  /** A question that no uploaded one has the key of stays, and so does every one of a result of anyone else. */
  lemma OtherQuestionsStay(reg: Registry, db: LogDb, schoolid: Option<string>, up: Upload, k: string)
    requires Accepts(reg, db, schoolid, up)
    requires (forall q :: q in up.questions && AsksIds(q) ==> Lower(q.pk.s) != k) ||
             (k in db.questions && !ResultOf(reg, SchoolOf(schoolid), db, Lower(db.questions[k].parent)))
    ensures k in Import(db, up).questions <==> k in db.questions
    ensures k in db.questions ==> Import(db, up).questions[k] == db.questions[k]
  {
    hide EntryOk, Accepts, ParentOk, ResultOf, Uploads, WriteEntries, WriteQuestions;
    if k in db.questions && !ResultOf(reg, SchoolOf(schoolid), db, Lower(db.questions[k].parent)) {
      ResultIs(reg, SchoolOf(schoolid), db, Lower(db.questions[k].parent));
      OutsideQuestionsStay(reg, db, schoolid, up, k);
    } else {
      AcceptedParts(reg, db, schoolid, up);
      WrittenRowsComeFrom(db, up.entries, Key(Results, ""));
      WrittenQuestionsComeFrom(WriteEntries(db, up.entries), up.questions, k);
    }
  }
}
