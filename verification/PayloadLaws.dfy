/** When a payload is made and why it is refused, told by the selected rows and the organisation's subjects. */
module PayloadLaws {
  import opened Values
  import opened Content
  import opened ConfineLaws
  import opened ConfineAnswers
  import opened Selection

  /** The row is not marked deleted. */
  ghost predicate IsLive(row: Row) {
    Get(row, "isdeleted") != Bool(true) && Get(row, "isdeleted") != Num(1)
  }

  ghost predicate IsLiveSubject(subjects: seq<Row>, key: Option<string>) {
    key.Some? && exists s :: s in subjects && IsLive(s) && KeyIn(s, Subjects) == key
  }

  ghost predicate IsDeletedSubject(subjects: seq<Row>, key: Option<string>) {
    key.Some? && exists s :: s in subjects && !IsLive(s) && KeyIn(s, Subjects) == key
  }

  /** A row's name: a live subject, or a row of the payload; or no name, where none is needed. */
  ghost predicate Resolves(payload: Tables, subjects: seq<Row>, row: Row, ref: Reference)
    requires IsContent(payload)
  {
    var key := KeyOf(Get(row, ref.fk));
    if key.None? then ref.optional
    else if ref.to == Subjects then IsLiveSubject(subjects, key)
    else InCurriculum(ref.to) ==> IsThere(payload[ref.to], ref.to, key)
  }

  ghost predicate EveryNameResolves(payload: Tables, subjects: seq<Row>)
    requires IsContent(payload)
  {
    forall t, ref, row :: t in payload && ref in Refs(t) && row in payload[t] ==> Resolves(payload, subjects, row, ref)
  }

  /** Every translation is of a row of the payload, in a table that has translations. */
  ghost predicate EveryTranslationHangs(payload: Tables)
    requires IsContent(payload)
  {
    forall row :: row in payload[ContentTranslations] ==>
      exists of: Table :: PolyTable(row) == Some(of) && Translatable(of) && InCurriculum(of) &&
                          IsThere(payload[of], of, PolyKey(row))
  }

  /** The rows of the curriculum that name a subject which is deleted, and no live one. */
  ghost function NamingGone(rows: seq<Row>, subjects: seq<Row>): set<nat> {
    set i: nat | i < |rows| && IsDeletedSubject(subjects, KeyOf(Get(rows[i], "subjectid"))) &&
                 !IsLiveSubject(subjects, KeyOf(Get(rows[i], "subjectid")))
  }

  lemma LiveIs(row: Row)
    ensures IsDeleted(row) <==> !IsLive(row)
  {
  }

  lemma SubjectsAre(subjects: seq<Row>, key: Option<string>)
    ensures IsThere(LiveRows(subjects), Subjects, key) <==> IsLiveSubject(subjects, key)
  {
    hide IsLive, IsDeleted, KeyIn;
    LiveRowsHolds(subjects);
    forall row ensures IsDeleted(row) <==> !IsLive(row) { LiveIs(row); }
  }

  lemma ResolvesIs(payload: Tables, subjects: seq<Row>, row: Row, ref: Reference)
    requires IsContent(payload)
    ensures var given := payload[Subjects := LiveRows(subjects)];
            ref.to in given ==>
              (RefOk(row, ref, Ids(given[ref.to], ref.to)) <==> Resolves(payload, subjects, row, ref))
  {
    hide KeyOf, Get, Ids, IsThere, IsLiveSubject, LiveRows;
    var given, key := payload[Subjects := LiveRows(subjects)], KeyOf(Get(row, ref.fk));
    if ref.to in given { IdsAre(given[ref.to], ref.to); }
    SubjectsAre(subjects, key);
  }

  /** What a payload's row may name: a subject, or a row of the payload's own tables. */
  lemma NamesAreChecked(t: Table, ref: Reference)
    requires InCurriculum(t) && ref in Refs(t)
    ensures ref.to == Subjects || InCurriculum(ref.to)
  {
  }

  lemma NamesAre(payload: Tables, subjects: seq<Row>)
    requires IsContent(payload)
    ensures NamesResolve(payload, subjects) <==> EveryNameResolves(payload, subjects)
  {
    hide RefOk, Ids, Resolves, LiveRows, Refs, InCurriculum;
    var given := payload[Subjects := LiveRows(subjects)];
    forall t, ref | t in payload && ref in Refs(t)
      ensures RefHolds(given, t, ref) <==> forall row :: row in payload[t] ==> Resolves(payload, subjects, row, ref)
    {
      NamesAreChecked(t, ref);
      NoSubjectsInside(payload);
      forall row | row in payload[t]
        ensures RefOk(row, ref, Ids(given[ref.to], ref.to)) <==> Resolves(payload, subjects, row, ref)
      {
        ResolvesIs(payload, subjects, row, ref);
      }
    }
    SubjectsNameNothing();
    if EveryNameResolves(payload, subjects) {
      forall t, ref | t in given && ref in Refs(t) ensures RefHolds(given, t, ref) {
        assert t in payload;
      }
    }
    if NamesResolve(payload, subjects) {
      forall t, ref, row | t in payload && ref in Refs(t) && row in payload[t]
        ensures Resolves(payload, subjects, row, ref)
      {
        assert RefHolds(given, t, ref);
      }
    }
  }

  lemma SubjectsNameNothing()
    ensures Refs(Subjects) == []
  {
  }

  lemma NoSubjectsInside(payload: Tables)
    requires IsContent(payload)
    ensures Subjects !in payload
  {
  }

  lemma TranslationIs(payload: Tables, row: Row)
    requires IsContent(payload)
    ensures PolyOk(payload, row) <==>
            exists of: Table :: PolyTable(row) == Some(of) && Translatable(of) && InCurriculum(of) &&
                                IsThere(payload[of], of, PolyKey(row))
  {
    hide Ids, IsThere, PolyKey;
    if PolyTable(row).Some? {
      var of := PolyTable(row).value;
      IdsAre(payload[of], of);
    }
  }

  lemma TranslationsAre(payload: Tables)
    requires IsContent(payload)
    ensures TranslationsHang(payload) <==> EveryTranslationHangs(payload)
  {
    hide PolyOk, PolyTable, IsThere, Translatable, PolyKey;
    forall row | row in payload[ContentTranslations]
      ensures PolyOk(payload, row) <==>
              exists of: Table :: PolyTable(row) == Some(of) && Translatable(of) && InCurriculum(of) &&
                                  IsThere(payload[of], of, PolyKey(row))
    {
      TranslationIs(payload, row);
    }
  }

  lemma NamesDeletedIs(row: Row, subjects: seq<Row>)
    ensures NamesDeleted(row, subjects) <==>
            IsDeletedSubject(subjects, KeyOf(Get(row, "subjectid"))) &&
            !IsLiveSubject(subjects, KeyOf(Get(row, "subjectid")))
  {
    hide IsLive, IsDeleted, KeyIn, KeyOf, Get;
    forall s ensures IsDeleted(s) <==> !IsLive(s) { LiveIs(s); }
  }

  lemma {:induction false} NamingDeletedCounts(rows: seq<Row>, subjects: seq<Row>)
    ensures NamingDeleted(rows, subjects) == |set i: nat | i < |rows| && NamesDeleted(rows[i], subjects)|
  {
    hide NamesDeleted;
    var all := set i: nat | i < |rows| && NamesDeleted(rows[i], subjects);
    if rows == [] {
      assert all == {};
    } else {
      var rest := rows[1..];
      var more := set i: nat | i < |rest| && NamesDeleted(rest[i], subjects);
      NamingDeletedCounts(rest, subjects);
      var first: set<nat> := if NamesDeleted(rows[0], subjects) then {0} else {};
      forall i: nat ensures i in all <==> i in first || (i > 0 && i - 1 in more) {
        if 0 < i < |rows| { assert rest[i - 1] == rows[i]; }
      }
      Shifted(all, first, more);
    }
  }

  lemma NamingGoneIs(rows: seq<Row>, subjects: seq<Row>)
    ensures NamingDeleted(rows, subjects) == |NamingGone(rows, subjects)|
  {
    hide NamesDeleted, IsDeletedSubject, IsLiveSubject, KeyOf, Get;
    NamingDeletedCounts(rows, subjects);
    forall row
      ensures NamesDeleted(row, subjects) <==>
              IsDeletedSubject(subjects, KeyOf(Get(row, "subjectid"))) &&
              !IsLiveSubject(subjects, KeyOf(Get(row, "subjectid")))
    {
      NamesDeletedIs(row, subjects);
    }
    assert NamingGone(rows, subjects) == set i: nat | i < |rows| && NamesDeleted(rows[i], subjects);
  }

  /**
   A payload is made exactly when the curriculum is there and live, every name in it resolves and every translation
   hangs; it is then the selection, row for row.
   */
  lemma PayloadMadeExactly(all: Tables, curriculumid: Json, subjects: seq<Row>, readList: ReadList)
    requires IsContent(all)
    ensures IsContent(Selected(all, KeyOf(curriculumid)))
    ensures var s := Selected(all, KeyOf(curriculumid)); var p := PayloadOf(all, curriculumid, subjects, readList);
            (p.Ok? ==> p.value == s) &&
            (p.Ok? <==> s[Curriculums] != [] && IsLive(s[Curriculums][0]) && EveryNameResolves(s, subjects) &&
                        EveryTranslationHangs(s))
  {
    hide PayloadOf, Selected, NamesResolve, TranslationsHang, EveryNameResolves, EveryTranslationHangs, IsLive,
         IsDeleted;
    PayloadIsTheSelectionOrRefused(all, curriculumid, subjects, readList);
    var s := Selected(all, KeyOf(curriculumid));
    SelectedIsContent(all, KeyOf(curriculumid));
    NamesAre(s, subjects);
    TranslationsAre(s);
    if s[Curriculums] != [] { LiveIs(s[Curriculums][0]); }
  }

  /** The first reason there is: absent or deleted; a deleted subject; a name that does not resolve; a translation. */
  lemma RefusedForTheFirst(all: Tables, curriculumid: Json, subjects: seq<Row>, readList: ReadList)
    requires IsContent(all) && PayloadOf(all, curriculumid, subjects, readList).Err?
    ensures IsContent(Selected(all, KeyOf(curriculumid)))
    ensures var s, why := Selected(all, KeyOf(curriculumid)), PayloadOf(all, curriculumid, subjects, readList).error;
            if s[Curriculums] == [] || !IsLive(s[Curriculums][0]) then why == NotFound
            else if NamingGone(s[Curriculums], subjects) != {} then
              why == NamesDeletedSubject(|NamingGone(s[Curriculums], subjects)|)
            else if !EveryNameResolves(s, subjects) then why.NamesOutside?
            else why == HangsOutside({ContentTranslations})
  {
    hide Selected, NamesResolve, TranslationsHang, EveryNameResolves, EveryTranslationHangs, IsLive, IsDeleted,
         Confined,
         NamingDeleted, NamingGone, LiveRows;
    var s := Selected(all, KeyOf(curriculumid));
    SelectedIsContent(all, KeyOf(curriculumid));
    SelectionIsClosed(all, KeyOf(curriculumid));
    NamesAre(s, subjects);
    if s[Curriculums] != [] { LiveIs(s[Curriculums][0]); }
    NamingGoneIs(s[Curriculums], subjects);
    ConfinedAgainst(s, subjects, readList);
  }

  lemma ConfinedAgainst(s: Tables, subjects: seq<Row>, readList: ReadList)
    requires IsContent(s) && ParentClosed(s)
    ensures var given := s[Subjects := LiveRows(subjects)];
            (Confined(given, readList).Ok? <==> NamesResolve(s, subjects)) &&
            (Confined(given, readList).Ok? ==>
               Confined(given, readList).value.Keys == given.Keys &&
               Shrunk(s, Confined(given, readList).value) <= {ContentTranslations})
  {
    hide NamesResolve, LiveRows, PolyOk, PolyKept, Problems, ParentClosed;
    var given := s[Subjects := LiveRows(subjects)];
    SelectionWithSubjects(s, subjects);
    ConfineRefusesExactlyDanglingNames(given, readList);
    TrimmingAPayloadChangesNothing(Dropped(given), readList);
  }
}
