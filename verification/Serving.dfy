/**
 What learners are served from the stored publications: the live curricula whose newest publication is published. The
 reader takes two steps, the light history first and the payloads after it, so publishes may commit between them.
 */
module Serving {
  import opened Values
  import opened Publications

  // ---- deletion ----------------------------------------------------------------------------------

  ghost predicate NothingPublished(c: Curriculum) {
    forall p :: p in c.history ==> p.status == Withdrawn
  }

  /** A deleted curriculum has nothing published, but for the one row an initial run gave it after the delete. */
  ghost predicate DeletedIsWithdrawn(c: Curriculum) {
    c.deletedAt.None? || NothingPublished(c) ||
    (|c.history| == 1 && c.history[0].initial && c.history[0].committed > c.deletedAt.value)
  }

  ghost predicate DeletionInvariant(s: System) {
    forall c :: c in s.curricula ==> DeletedIsWithdrawn(s.curricula[c])
  }

  lemma WithdrawnAll(c: Curriculum)
    ensures NothingPublished(Retired(c))
  {
  }

  lemma StepKeepsDeletion(s: System, step: Step)
    requires Invariant(s) && DeletionInvariant(s)
    ensures DeletionInvariant(After(s, step))
  {
    hide HistoryShape, Serialised, SessionOk;
    forall c | c in After(s, step).curricula ensures DeletedIsWithdrawn(After(s, step).curricula[c]) {
      assert DeletedIsWithdrawn(s.curricula[c]) && CurriculumOk(s.curricula[c], s.now);
      match step
      case Retire(_) => WithdrawnAll(s.curricula[c]);
      case Delete(_) => WithdrawnAll(s.curricula[c]);
      case _ =>
    }
  }

  lemma {:induction false} RunKeepsDeletion(s: System, steps: seq<Step>)
    requires Invariant(s) && DeletionInvariant(s)
    ensures DeletionInvariant(Run(s, steps))
    decreases |steps|
  {
    if steps != [] {
      StepKeepsInvariant(s, steps[0]);
      StepKeepsDeletion(s, steps[0]);
      RunKeepsDeletion(After(s, steps[0]), steps[1..]);
    }
  }

  /**
   On every run, what is still published of a deleted curriculum is one single row, written by an initial run that
   committed after the delete.
   */
  lemma DeletedButPublishedIsALateInitialRun(s: System, steps: seq<Step>, c: string)
    requires Fresh(s) && c in Run(s, steps).curricula && Run(s, steps).curricula[c].deletedAt.Some?
    requires exists p :: p in Run(s, steps).curricula[c].history && p.status == Published
    ensures var after := Run(s, steps).curricula[c];
            |after.history| == 1 && after.history[0].initial && after.history[0].committed > after.deletedAt.value
  {
    RunKeepsDeletion(s, steps);
  }

  ghost predicate NeverInitial(c: Curriculum) {
    forall p :: p in c.history ==> !p.initial
  }

  lemma StepIsNotInitial(s: System, step: Step)
    requires !step.Initial? && forall c :: c in s.curricula ==> NeverInitial(s.curricula[c])
    ensures forall c :: c in After(s, step).curricula ==> NeverInitial(After(s, step).curricula[c])
  {
    hide After, NeverInitial;
    forall c | c in After(s, step).curricula ensures NeverInitial(After(s, step).curricula[c]) {
      StepWritesNoInitial(s, step, c);
    }
  }

  lemma StepWritesNoInitial(s: System, step: Step, c: string)
    requires !step.Initial? && c in After(s, step).curricula && (c in s.curricula ==> NeverInitial(s.curricula[c]))
    ensures c in s.curricula && NeverInitial(After(s, step).curricula[c])
  {
    hide IdsIn, NextTime, BaseOf;
    var h, after := s.curricula[c].history, After(s, step).curricula[c].history;
    forall q | q in after ensures !q.initial {
      var i :| 0 <= i < |after| && after[i] == q;
      if |after| == |h| {
        assert h[i] in h;
      } else if i > 0 {
        assert h[i - 1] in h;
      }
    }
  }

  lemma {:induction false} RunIsNotInitial(s: System, steps: seq<Step>)
    requires (forall step :: step in steps ==> !step.Initial?) &&
             forall c :: c in s.curricula ==> NeverInitial(s.curricula[c])
    ensures forall c :: c in Run(s, steps).curricula ==> NeverInitial(Run(s, steps).curricula[c])
    decreases |steps|
  {
    if steps != [] {
      StepIsNotInitial(s, steps[0]);
      assert forall step :: step in steps[1..] ==> step in steps;
      RunIsNotInitial(After(s, steps[0]), steps[1..]);
    }
  }

  /** Whatever publishes, retires and deletes are interleaved, a deleted curriculum has no published row. */
  lemma DeletedHasNothingPublished(s: System, steps: seq<Step>, c: string)
    requires Fresh(s) && c in Run(s, steps).curricula && Run(s, steps).curricula[c].deletedAt.Some?
    requires forall step :: step in steps ==> !step.Initial?
    ensures NothingPublished(Run(s, steps).curricula[c])
  {
    RunKeepsDeletion(s, steps);
    RunIsNotInitial(s, steps);
    assert DeletedIsWithdrawn(Run(s, steps).curricula[c]) && NeverInitial(Run(s, steps).curricula[c]);
  }

  /**
   The initial run reads, then locks, and does not look at the deletion again: the write leaves a deleted curriculum
   without a published row exactly unless it is deleted by then and has no publication yet.
   */
  lemma InitialWriteKeepsDeletionExactly(c: Curriculum, version: nat, readBegan: nat, id: string, taken: bool,
                                         time: int, now: nat)
    requires c.deletedAt.Some? ==> NothingPublished(c)
    ensures var after := InitialWrite(c, version, readBegan, id, taken, time, now);
            (after.deletedAt.Some? ==> NothingPublished(after)) <==> !(c.deletedAt.Some? && c.history == [] && !taken)
  {
    var after := InitialWrite(c, version, readBegan, id, taken, time, now);
    if after.history != [] {
      assert after.history[0] in after.history;
    }
  }

  /** The run that shows it: the delete commits between the initial run's read and its write. */
  lemma InitialRunCanPublishADeletedCurriculum()
    ensures var s := System(0, map["c" := Curriculum(0, None, [])], map[]);
            var end := Run(s, [Note(0, "c"), Read(0), Delete("c"), Initial(0, "p", 7)]);
            Fresh(s) && "c" in end.curricula && end.curricula["c"].deletedAt.Some? &&
            !NothingPublished(end.curricula["c"])
  {
    var s := System(0, map["c" := Curriculum(0, None, [])], map[]);
    var s1 := After(s, Note(0, "c"));
    var s2 := After(s1, Read(0));
    var s3 := After(s2, Delete("c"));
    var s4 := After(s3, Initial(0, "p", 7));
    var steps := [Note(0, "c"), Read(0), Delete("c"), Initial(0, "p", 7)];
    assert s3.curricula["c"].history == [];
    assert "p" !in IdsIn(s3.curricula);
    assert s4.curricula["c"].history[0] in s4.curricula["c"].history;
    assert steps[1..] == [Read(0), Delete("c"), Initial(0, "p", 7)];
    assert steps[1..][1..] == [Delete("c"), Initial(0, "p", 7)];
    assert steps[1..][1..][1..] == [Initial(0, "p", 7)];
    assert steps[1..][1..][1..][1..] == [];
    assert Run(s4, []) == s4;
    assert Run(s3, [Initial(0, "p", 7)]) == s4 by { assert [Initial(0, "p", 7)][1..] == []; }
    assert Run(s2, [Delete("c"), Initial(0, "p", 7)]) == s4;
    assert Run(s1, steps[1..]) == s4;
  }

  // ---- the reader --------------------------------------------------------------------------------

  /** What the first query reads of a publication. */
  datatype Light = Light(curriculum: string, id: string, at: int, status: Status)

  /** The row is the first of its curriculum in a list kept newest first. */
  ghost predicate FirstOf(rows: seq<Light>, i: int) {
    0 <= i < |rows| && forall j :: 0 <= j < i ==> rows[j].curriculum != rows[i].curriculum
  }

  ghost predicate ServedRow(rows: seq<Light>, live: set<string>, i: int) {
    FirstOf(rows, i) && rows[i].status == Published && rows[i].curriculum in live
  }

  /** What a stored payload says it is of; a number stands for its tables. */
  datatype Copy = Copy(organisation: string, curriculum: string, payload: nat)

  /** The stored payloads by publication id, as the second read finds them. */
  type Copies = map<string, Option<Copy>>

  datatype Unreadable = NoStoredCopy | CopyOfAnother

  function UnreadableWhy(stored: Copies, organisation: string, row: Light): Option<Unreadable> {
    if row.id !in stored || stored[row.id].None? then Some(NoStoredCopy)
    else
      var copy := stored[row.id].value;
      if KeyOf(Str(copy.organisation)) != KeyOf(Str(organisation)) ||
          KeyOf(Str(copy.curriculum)) != KeyOf(Str(row.curriculum))
      then Some(CopyOfAnother) else None
  }

  predicate Readable(stored: Copies, organisation: string, row: Light) {
    UnreadableWhy(stored, organisation, row).None?
  }

  /** A stored payload can be read exactly when it says it is of this organisation and of the row's own curriculum. */
  lemma ReadableExactly(stored: Copies, organisation: string, row: Light)
    ensures Readable(stored, organisation, row) <==>
            exists copy :: row.id in stored && stored[row.id] == Some(copy) &&
                           Lower(copy.organisation) == Lower(organisation) &&
                           Lower(copy.curriculum) == Lower(row.curriculum)
  {
  }

  lemma ReadableIsStored(stored: Copies, organisation: string, row: Light)
    requires Readable(stored, organisation, row)
    ensures row.id in stored && stored[row.id].Some?
  {
  }

  ghost predicate IsFirstRow(row: Light, rows: seq<Light>, n: nat) {
    exists j :: 0 <= j < n && FirstOf(rows, j) && row == rows[j]
  }

  /** The rows are the first ones of their curricula among the first `n`, once each. */
  ghost predicate FirstRows(latest: seq<Light>, rows: seq<Light>, n: nat) {
    (forall k :: 0 <= k < |latest| ==> IsFirstRow(latest[k], rows, n)) &&
    (forall j :: 0 <= j < n && FirstOf(rows, j) ==> rows[j] in latest) &&
    (forall k, l :: 0 <= k < l < |latest| ==> latest[k].curriculum != latest[l].curriculum)
  }

  lemma AnotherFirstRow(latest: seq<Light>, rows: seq<Light>, i: nat)
    requires i < |rows| && FirstRows(latest, rows, i) && FirstOf(rows, i)
    requires forall k :: 0 <= k < |latest| ==> latest[k].curriculum != rows[i].curriculum
    ensures FirstRows(latest + [rows[i]], rows, i + 1)
  {
    hide FirstOf;
    var all := latest + [rows[i]];
    forall k | 0 <= k < |all| ensures IsFirstRow(all[k], rows, i + 1) {
      if k < |latest| { assert IsFirstRow(latest[k], rows, i); }
    }
  }

  lemma NoFirstRow(latest: seq<Light>, rows: seq<Light>, i: nat)
    requires i < |rows| && FirstRows(latest, rows, i) && !FirstOf(rows, i)
    ensures FirstRows(latest, rows, i + 1)
  {
    hide FirstOf;
    forall k | 0 <= k < |latest| ensures IsFirstRow(latest[k], rows, i + 1) {
      assert IsFirstRow(latest[k], rows, i);
    }
  }

  /** The newest row of every curriculum, from a list kept newest first. */
  method LatestRows(rows: seq<Light>) returns (latest: seq<Light>)
    ensures FirstRows(latest, rows, |rows|)
  {
    var seen: set<string> := {};
    latest := [];
    for i := 0 to |rows|
      invariant forall c :: c in seen <==> exists j :: 0 <= j < i && rows[j].curriculum == c
      invariant forall k :: 0 <= k < |latest| ==> latest[k].curriculum in seen
      invariant FirstRows(latest, rows, i)
    {
      if rows[i].curriculum !in seen {
        AnotherFirstRow(latest, rows, i);
        seen := seen + {rows[i].curriculum};
        latest := latest + [rows[i]];
      } else {
        NoFirstRow(latest, rows, i);
      }
    }
  }

  /** The row has its set among those served: itself and the payload stored for it. */
  ghost predicate HasSet(sets: seq<(Light, nat)>, row: Light, stored: Copies) {
    row.id in stored && stored[row.id].Some? && (row, stored[row.id].value.payload) in sets
  }

  /** The sets made of the first `k` rows: one for each that is published and live, and none else. */
  ghost predicate AreSetsOf(sets: seq<(Light, nat)>, latest: seq<Light>, k: nat, live: set<string>,
                            organisation: string, stored: Copies)
    requires k <= |latest|
  {
    (forall m :: 0 <= m < k && latest[m].status == Published && latest[m].curriculum in live ==>
       HasSet(sets, latest[m], stored) && Readable(stored, organisation, latest[m])) &&
    (forall l :: 0 <= l < |sets| ==>
       sets[l].0.status == Published && sets[l].0.curriculum in live && sets[l].0 in latest[..k]) &&
    (forall l :: 0 <= l < |sets| ==> HasPayload(stored, sets[l])) &&
    forall l, m :: 0 <= l < m < |sets| ==> sets[l].0.curriculum != sets[m].0.curriculum
  }

  lemma OneMoreSet(sets: seq<(Light, nat)>, latest: seq<Light>, k: nat, live: set<string>, organisation: string,
                   stored: Copies)
    requires k < |latest| && AreSetsOf(sets, latest, k, live, organisation, stored)
    requires latest[k].status == Published && latest[k].curriculum in live && Readable(stored, organisation, latest[k])
    requires forall j :: 0 <= j < k ==> latest[j].curriculum != latest[k].curriculum
    ensures latest[k].id in stored && stored[latest[k].id].Some?
    ensures AreSetsOf(sets + [(latest[k], stored[latest[k].id].value.payload)], latest, k + 1, live, organisation,
                      stored)
  {
    hide UnreadableWhy;
    ReadableIsStored(stored, organisation, latest[k]);
    var all := sets + [(latest[k], stored[latest[k].id].value.payload)];
    assert latest[..k + 1] == latest[..k] + [latest[k]];
    assert all[|sets|] == (latest[k], stored[latest[k].id].value.payload);
    assert forall set1 :: set1 in sets ==> set1 in all;
  }

  lemma NoMoreSet(sets: seq<(Light, nat)>, latest: seq<Light>, k: nat, live: set<string>, organisation: string,
                  stored: Copies)
    requires k < |latest| && AreSetsOf(sets, latest, k, live, organisation, stored)
    requires !(latest[k].status == Published && latest[k].curriculum in live)
    ensures AreSetsOf(sets, latest, k + 1, live, organisation, stored)
  {
    assert latest[..k + 1] == latest[..k] + [latest[k]];
  }

  lemma FirstIsServed(latest: seq<Light>, rows: seq<Light>, k: nat, live: set<string>) returns (i: nat)
    requires k < |latest| && FirstRows(latest, rows, |rows|) && latest[k].status == Published &&
             latest[k].curriculum in live
    ensures ServedRow(rows, live, i) && rows[i] == latest[k]
  {
    assert IsFirstRow(latest[k], rows, |rows|);
    i :| 0 <= i < |rows| && FirstOf(rows, i) && latest[k] == rows[i];
  }

  /**
   `readPublishedSets`: the newest row of every curriculum, those published and live, each with its payload. It fails
   as a whole exactly when a served row has no payload left, or one made for another curriculum or organisation.
   */
  method ReadPublishedSets(rows: seq<Light>, live: set<string>, organisation: string, stored: Copies)
    returns (r: Result<seq<(Light, nat)>, Unreadable>)
    ensures r.Err? <==> exists i :: ServedRow(rows, live, i) && !Readable(stored, organisation, rows[i])
    ensures r.Err? ==>
              exists i :: ServedRow(rows, live, i) && UnreadableWhy(stored, organisation, rows[i]) == Some(r.error)
    ensures r.Ok? ==> forall i :: ServedRow(rows, live, i) ==> HasSet(r.value, rows[i], stored)
    ensures r.Ok? ==> forall set1 :: set1 in r.value ==> IsSetOf(rows, live, stored, set1)
    ensures r.Ok? ==> forall k, l :: 0 <= k < l < |r.value| ==> r.value[k].0.curriculum != r.value[l].0.curriculum
  {
    hide UnreadableWhy, AreSetsOf, ServedRow, FirstOf, IsSetOf, HasSet;
    var latest := LatestRows(rows);
    var sets: seq<(Light, nat)> := [];
    NoSets(latest, live, organisation, stored);
    for k := 0 to |latest|
      invariant AreSetsOf(sets, latest, k, live, organisation, stored)
    {
      var light := latest[k];
      if light.status == Published && light.curriculum in live {
        var why := UnreadableWhy(stored, organisation, light);
        if why.Some? {
          ghost var i := FirstIsServed(latest, rows, k, live);
          return Err(why.value);
        }
        OneMoreSet(sets, latest, k, live, organisation, stored);
        sets := sets + [(light, stored[light.id].value.payload)];
      } else {
        NoMoreSet(sets, latest, k, live, organisation, stored);
      }
    }
    SetsAreTheServed(sets, latest, rows, live, organisation, stored);
    return Ok(sets);
  }

  lemma NoSets(latest: seq<Light>, live: set<string>, organisation: string, stored: Copies)
    ensures AreSetsOf([], latest, 0, live, organisation, stored)
  {
  }

  lemma SetsAreTheServed(sets: seq<(Light, nat)>, latest: seq<Light>, rows: seq<Light>, live: set<string>,
                         organisation: string, stored: Copies)
    requires FirstRows(latest, rows, |rows|) && AreSetsOf(sets, latest, |latest|, live, organisation, stored)
    ensures forall i :: ServedRow(rows, live, i) ==>
              HasSet(sets, rows[i], stored) && Readable(stored, organisation, rows[i])
    ensures forall set1 :: set1 in sets ==> IsSetOf(rows, live, stored, set1)
    ensures forall k, l :: 0 <= k < l < |sets| ==> sets[k].0.curriculum != sets[l].0.curriculum
  {
    hide UnreadableWhy;
    forall i | ServedRow(rows, live, i)
      ensures HasSet(sets, rows[i], stored) && Readable(stored, organisation, rows[i])
    {
      assert rows[i] in latest;
    }
    forall set1 | set1 in sets ensures IsSetOf(rows, live, stored, set1) {
      assert set1.0 in latest;
      var k :| 0 <= k < |latest| && latest[k] == set1.0;
      var i := FirstIsServed(latest, rows, k, live);
    }
  }

  ghost predicate HasPayload(stored: Copies, set1: (Light, nat)) {
    set1.0.id in stored && stored[set1.0.id].Some? && stored[set1.0.id].value.payload == set1.1
  }

  /** The set is a served row with its own stored payload. */
  ghost predicate IsSetOf(rows: seq<Light>, live: set<string>, stored: Copies, set1: (Light, nat)) {
    HasPayload(stored, set1) && exists i :: ServedRow(rows, live, i) && set1.0 == rows[i]
  }

  function LightOf(c: string, p: Publication): Light {
    Light(c, p.id, p.at, p.status)
  }

  ghost predicate IsListed(row: Light, curricula: Curricula) {
    row.curriculum in curricula &&
    exists p :: p in curricula[row.curriculum].history && LightOf(row.curriculum, p) == row
  }

  /** The first query's answer: one row for every publication, newest first. */
  ghost predicate Lists(rows: seq<Light>, curricula: Curricula) {
    (forall i :: 0 <= i < |rows| ==> IsListed(rows[i], curricula)) &&
    (forall c, p :: c in curricula && p in curricula[c].history ==> LightOf(c, p) in rows) &&
    (forall i, j :: 0 <= i < j < |rows| ==> rows[i].at >= rows[j].at)
  }

  function LiveOf(curricula: Curricula): set<string> {
    set c | c in curricula && curricula[c].deletedAt.None?
  }

  /** The first row of a curriculum is its newest publication. */
  lemma FirstRowIsTheNewest(rows: seq<Light>, curricula: Curricula, i: int)
    requires Lists(rows, curricula) && FirstOf(rows, i) && HistoryShape(curricula[rows[i].curriculum].history)
    ensures curricula[rows[i].curriculum].history != []
    ensures rows[i] == LightOf(rows[i].curriculum, curricula[rows[i].curriculum].history[0])
  {
    var c := rows[i].curriculum;
    var h := curricula[c].history;
    assert IsListed(rows[i], curricula);
    var p :| p in h && LightOf(c, p) == rows[i];
    var k :| 0 <= k < |h| && h[k] == p;
    assert h[0] in h;
    assert LightOf(c, h[0]) in rows;
    var j :| 0 <= j < |rows| && rows[j] == LightOf(c, h[0]);
    assert j >= i && h[k].at >= h[0].at;
  }

  lemma SomeRowIsFirst(rows: seq<Light>, j: int) returns (i: int)
    requires 0 <= j < |rows|
    ensures FirstOf(rows, i) && rows[i].curriculum == rows[j].curriculum
  {
    i := j;
    while !FirstOf(rows, i)
      invariant 0 <= i < |rows| && rows[i].curriculum == rows[j].curriculum
      decreases i
    {
      var k :| 0 <= k < i && rows[k].curriculum == rows[i].curriculum;
      i := k;
    }
  }

  ghost predicate Serves(rows: seq<Light>, live: set<string>, c: string) {
    exists i :: ServedRow(rows, live, i) && rows[i].curriculum == c
  }

  ghost predicate SomethingPublished(c: Curriculum) {
    exists p :: p in c.history && p.status == Published
  }

  lemma PublishedAndLiveIsServed(rows: seq<Light>, curricula: Curricula, c: string)
    requires Lists(rows, curricula) && c in LiveOf(curricula) && HistoryShape(curricula[c].history) &&
             SomethingPublished(curricula[c])
    ensures Serves(rows, LiveOf(curricula), c)
  {
    var h := curricula[c].history;
    var p :| p in h && p.status == Published;
    assert h[0].status == Published;
    assert LightOf(c, p) in rows;
    var j :| 0 <= j < |rows| && rows[j] == LightOf(c, p);
    var i := SomeRowIsFirst(rows, j);
    FirstRowIsTheNewest(rows, curricula, i);
    assert ServedRow(rows, LiveOf(curricula), i);
  }

  lemma ServedIsPublishedAndLive(rows: seq<Light>, curricula: Curricula, c: string)
    requires Lists(rows, curricula) && Serves(rows, LiveOf(curricula), c) && HistoryShape(curricula[c].history)
    ensures SomethingPublished(curricula[c])
  {
    var i :| ServedRow(rows, LiveOf(curricula), i) && rows[i].curriculum == c;
    FirstRowIsTheNewest(rows, curricula, i);
    assert curricula[c].history[0] in curricula[c].history;
  }

  /** After every run, the served set is exactly the live curricula with some published row. */
  lemma ServedIsLiveWithSomethingPublished(s: System, steps: seq<Step>, rows: seq<Light>, c: string)
    requires Fresh(s) && Lists(rows, Run(s, steps).curricula)
    ensures var curricula := Run(s, steps).curricula;
            Serves(rows, LiveOf(curricula), c) <==> (c in LiveOf(curricula) && SomethingPublished(curricula[c]))
  {
    hide Run, Lists, HistoryShape, Serialised, SomethingPublished, Fresh;
    var curricula := Run(s, steps).curricula;
    if c in LiveOf(curricula) {
      EveryHistoryIsOrderedAndSerialised(s, steps, c);
      if SomethingPublished(curricula[c]) {
        PublishedAndLiveIsServed(rows, curricula, c);
      }
      if Serves(rows, LiveOf(curricula), c) {
        ServedIsPublishedAndLive(rows, curricula, c);
      }
    }
  }

  // ---- between the two reads ---------------------------------------------------------------------

  /** The publications of the earlier history are the tail of the later one. */
  ghost predicate Extends(later: seq<Publication>, earlier: seq<Publication>) {
    |later| >= |earlier| && forall i :: 0 <= i < |earlier| ==> later[|later| - |earlier| + i].id == earlier[i].id
  }

  lemma StepExtends(s: System, step: Step, c: string)
    requires c in s.curricula
    ensures c in After(s, step).curricula && Extends(After(s, step).curricula[c].history, s.curricula[c].history)
  {
    hide NewPublication, IdsIn, LatestId, DraftOf, Extends, Withdraw, WithPublication, InitialWrite;
    var h, after := s.curricula[c].history, After(s, step).curricula[c].history;
    if after == h {
      ExtendsSelf(h);
    } else {
      match step
      case Commit(n, id, clock) =>
        var p := NewPublication(s.curricula[c], DraftOf(s.sessions[n]), id, clock, s.now);
        PublishExtends(s.curricula[c], p);
      case Retire(_) => WithdrawExtends(h);
      case Delete(_) => WithdrawExtends(h);
      case Initial(n, id, time) =>
        InitialExtends(s.curricula[c], s.sessions[n].read.value.0, s.sessions[n].read.value.1, id,
                       id in IdsIn(s.curricula), time, s.now);
      case _ =>
    }
  }

  lemma PublishExtends(c: Curriculum, p: Publication)
    ensures Extends(WithPublication(c, p).history, c.history)
  {
    hide WithPublication;
    WithPublicationAt(c, p, 0);
    forall i | 0 <= i < |c.history| ensures WithPublication(c, p).history[i + 1].id == c.history[i].id {
      WithPublicationAt(c, p, i + 1);
    }
  }

  lemma WithdrawExtends(h: seq<Publication>)
    ensures Extends(Withdraw(h), h)
  {
  }

  lemma InitialExtends(c: Curriculum, version: nat, readBegan: nat, id: string, taken: bool, time: int, now: nat)
    ensures Extends(InitialWrite(c, version, readBegan, id, taken, time, now).history, c.history)
  {
  }

  lemma ExtendsTwice(h: seq<Publication>, h1: seq<Publication>, h2: seq<Publication>)
    requires Extends(h1, h) && Extends(h2, h1)
    ensures Extends(h2, h)
  {
    forall i | 0 <= i < |h| ensures h2[|h2| - |h| + i].id == h[i].id {
      var j := |h1| - |h| + i;
      assert h2[|h2| - |h1| + j].id == h1[j].id;
    }
  }

  lemma {:induction false} RunExtends(s: System, steps: seq<Step>, c: string)
    requires c in s.curricula
    ensures c in Run(s, steps).curricula && Extends(Run(s, steps).curricula[c].history, s.curricula[c].history)
    decreases |steps|
  {
    hide After, Extends;
    if steps != [] {
      StepExtends(s, steps[0], c);
      RunExtends(After(s, steps[0]), steps[1..], c);
      ExtendsTwice(s.curricula[c].history, After(s, steps[0]).curricula[c].history, Run(s, steps).curricula[c].history);
    } else {
      ExtendsSelf(s.curricula[c].history);
    }
  }

  lemma ExtendsSelf(h: seq<Publication>)
    ensures Extends(h, h)
  {
  }

  /** A session keeps what it noted until it ends; one noted later has a later mark. */
  lemma {:induction false} SessionKeepsItsNote(s: System, steps: seq<Step>, n: nat, t: Session)
    requires t.noted < s.now && (n in s.sessions && s.sessions[n].noted == t.noted ==>
                                 s.sessions[n].(read := t.read) == t)
    ensures var later := Run(s, steps);
            n in later.sessions && later.sessions[n].noted == t.noted ==> later.sessions[n].(read := t.read) == t
    decreases |steps|
  {
    hide PublishUnderLock, InitialWrite;
    if steps != [] {
      SessionKeepsItsNote(After(s, steps[0]), steps[1..], n, t);
    }
  }

  /** The latest publication is the one noted exactly when nothing was published since. */
  lemma LatestTellsGrowth(later: seq<Publication>, earlier: seq<Publication>)
    requires HistoryShape(later) && Extends(later, earlier)
    ensures (if later == [] then None else Some(later[0].id)) ==
            (if earlier == [] then None else Some(earlier[0].id)) <==>
            |later| == |earlier|
  {
    if earlier != [] {
      assert later[|later| - |earlier| + 0].id == earlier[0].id;
    }
  }

  /**
   In every interleaving, a publish that noted the latest publication, then read, and now commits, leaves the stored
   tables as they are if and only if its curriculum is deleted by now, or a publication of it was committed after the
   note, by a publish or by an initial run, or its own id is taken. Edits, withdrawals and other curricula's publishes
   never stop it.
   */
  lemma PublishLosesExactlyToAPublication(s: System, before: seq<Step>, between: seq<Step>, n: nat, c: string,
                                          id: string, clock: int)
    requires Fresh(s) && n !in Run(s, before).sessions && c in Run(s, before).curricula
    requires var later := Run(After(Run(s, before), Note(n, c)), between);
             n in later.sessions && later.sessions[n].noted == Run(s, before).now && later.sessions[n].read.Some?
    ensures var noted, later := Run(s, before), Run(After(Run(s, before), Note(n, c)), between);
            c in later.curricula &&
            (After(later, Commit(n, id, clock)).curricula == later.curricula <==>
             later.curricula[c].deletedAt.Some? || |later.curricula[c].history| > |noted.curricula[c].history| ||
             id in IdsIn(later.curricula))
  {
    hide HistoryShape, Serialised, Extends, Fresh, SessionOk;
    var noted := Run(s, before);
    var started := After(noted, Note(n, c));
    var later := Run(started, between);
    RunKeepsInvariant(s, before) by { FreshIsOk(s); }
    StepKeepsInvariant(noted, Note(n, c));
    RunKeepsInvariant(started, between);
    SessionKeepsItsNote(started, between, n, started.sessions[n]);
    RunExtends(started, between, c);
    assert CurriculumOk(later.curricula[c], later.now);
    LatestTellsGrowth(later.curricula[c].history, noted.curricula[c].history);
    ExtendsIsLonger(later.curricula[c].history, noted.curricula[c].history);
    hide After, Run, Invariant, IdsIn;
    LosingPublishWritesNothing(later, n, id, clock);
  }

  lemma ExtendsIsLonger(later: seq<Publication>, earlier: seq<Publication>)
    requires Extends(later, earlier)
    ensures |later| >= |earlier|
  {
  }

  lemma FreshIsOk(s: System)
    requires Fresh(s)
    ensures Invariant(s)
  {
  }

  /**
   The publication a reader noted as the newest is still there when it reads the payloads, behind the `k` publications
   committed in between; its payload is gone exactly when `k` is at least two.
   */
  lemma PrunedOnlyAfterTwoPublishes(s: System, before: seq<Step>, between: seq<Step>, c: string)
    requires Fresh(s) && c in Run(s, before).curricula && Run(s, before).curricula[c].history != []
    ensures c in Run(Run(s, before), between).curricula
    ensures var noted, later := Run(s, before).curricula[c].history, Run(Run(s, before), between).curricula[c].history;
            var k := |later| - |noted|;
            0 <= k < |later| && later[k].id == noted[0].id && (later[k].payload.None? <==> k >= 2) &&
            forall i :: 0 <= i < |later| && later[i].id == noted[0].id ==> i == k
  {
    hide HistoryShape, Serialised, Fresh, SessionOk, Run, Extends;
    FreshIsOk(s);
    RunKeepsInvariant(s, before);
    var s1 := Run(s, before);
    RunKeepsInvariant(s1, between);
    RunExtends(s1, between, c);
    assert CurriculumOk(Run(s1, between).curricula[c], Run(s1, between).now);
    NotedIsBehindTheLater(Run(s1, between).curricula[c].history, s1.curricula[c].history);
  }

  lemma NotedIsBehindTheLater(later: seq<Publication>, noted: seq<Publication>)
    requires HistoryShape(later) && Extends(later, noted) && noted != []
    ensures var k := |later| - |noted|;
            0 <= k < |later| && later[k].id == noted[0].id && (later[k].payload.None? <==> k >= 2) &&
            forall i :: 0 <= i < |later| && later[i].id == noted[0].id ==> i == k
  {
    var k := |later| - |noted|;
    assert later[k + 0].id == noted[0].id;
    assert KeptFor(later[k], k);
  }
}
