/**
 What each step writes, told by the stored rows: a publish stores what it read, an initial run one first row, retire and
 delete withdraw, and nothing else moves.
 */
module PublicationLaws {
  import opened Values
  import opened Publications
  import opened Serving

  // ---- one step ----------------------------------------------------------------------------------

  /** A row is stored for a content version: published, whole, with what it is compared with. */
  ghost predicate IsRowFor(p: Publication, id: string, at: int, version: nat, readBegan: nat, committed: nat,
                           previous: Option<string>, sinceWithdrawn: Option<string>) {
    p.id == id && p.at == at && p.status == Published && p.payload == Some(version) &&
    p.summary.hashes == Some(version) && p.summary.names == Some(version) && p.version == version &&
    p.readBegan == readBegan && p.committed == committed && p.summary.previous == previous &&
    p.summary.sinceWithdrawn == sinceWithdrawn
  }

  /** The rows there were stand behind a new one: the newest of them as it was, the others without their payload. */
  ghost predicate StandBehind(h: seq<Publication>, after: seq<Publication>) {
    |after| == |h| + 1 &&
    forall i :: 0 <= i < |h| ==>
      after[i + 1] == if i == 0 then h[0]
                      else h[i].(payload := None, summary := h[i].summary.(hashes := None, names := None))
  }

  ghost predicate OnlyThis(before: System, after: System, c: string) {
    after.curricula.Keys == before.curricula.Keys &&
    forall other :: other in before.curricula && other != c ==> after.curricula[other] == before.curricula[other]
  }

  /**
   A commit that writes stores the version its session read, at a time after every older row's, compared with the row
   before it: as published then, or as withdrawn.
   */
  lemma CommitWrites(s: System, n: nat, id: string, clock: int)
    requires Invariant(s) && After(s, Commit(n, id, clock)).curricula != s.curricula
    ensures n in s.sessions && s.sessions[n].read.Some? && s.sessions[n].curriculum in s.curricula
    ensures var c, (version, readBegan) := s.sessions[n].curriculum, s.sessions[n].read.value;
            var before, after := s.curricula[c], After(s, Commit(n, id, clock)).curricula[c];
            var h := before.history;
            OnlyThis(s, After(s, Commit(n, id, clock)), c) && after == before.(history := after.history) &&
            StandBehind(h, after.history) &&
            IsRowFor(after.history[0], id, if h != [] && clock <= h[0].at then h[0].at + 1
                                           else clock, version, readBegan,
                     s.now, if h != [] && h[0].status == Published then Some(h[0].id) else None,
                     if h != [] && h[0].status == Withdrawn then Some(h[0].id) else None) &&
            !after.history[0].initial
  {
    hide HistoryShape, Serialised, SessionOk, PublishUnderLock, IdsIn, StandBehind, Whole;
    var t := s.sessions[n];
    var c := s.curricula[t.curriculum];
    assert CurriculumOk(c, s.now);
    NewestIsWhole(c.history);
    CommittedIs(c, DraftOf(t), id, id in IdsIn(s.curricula), clock, s.now);
  }

  lemma CommittedIs(c: Curriculum, d: Draft, id: string, taken: bool, clock: int, now: nat)
    requires PublishUnderLock(c, d, id, taken, clock, now).Ok? && (c.history != [] ==> Whole(c.history[0]))
    ensures var h, after := c.history, PublishUnderLock(c, d, id, taken, clock, now).value;
            after == c.(history := after.history) && StandBehind(h, after.history) &&
            IsRowFor(after.history[0], id, if h != [] && clock <= h[0].at then h[0].at + 1 else clock, d.version,
                     d.readBegan, now, if h != [] && h[0].status == Published then Some(h[0].id) else None,
                     if h != [] && h[0].status == Withdrawn then Some(h[0].id) else None) &&
            !after.history[0].initial
  {
    hide WithPublication, NewPublication, StandBehind;
    var p := NewPublication(c, d, id, clock, now);
    NewPublicationIs(c, d, id, clock, now);
    WithPublicationStands(c, p);
    WithPublicationAt(c, p, 0);
  }

  lemma WithPublicationStands(c: Curriculum, p: Publication)
    ensures StandBehind(c.history, WithPublication(c, p).history)
    ensures WithPublication(c, p) == c.(history := WithPublication(c, p).history)
  {
    var h, after := c.history, WithPublication(c, p).history;
    assert WithPublication(c, p) == c.(history := after);
    hide WithPublication;
    WithPublicationAt(c, p, 0);
    forall i | 0 <= i < |h|
      ensures after[i + 1] == if i == 0 then h[0]
                              else h[i].(payload := None, summary := h[i].summary.(hashes := None, names := None))
    {
      WithPublicationAt(c, p, i + 1);
    }
  }

  lemma NewPublicationIs(c: Curriculum, d: Draft, id: string, clock: int, now: nat)
    requires c.history != [] ==> Whole(c.history[0])
    ensures var h, p := c.history, NewPublication(c, d, id, clock, now);
            IsRowFor(p, id, if h != [] && clock <= h[0].at then h[0].at + 1 else clock, d.version, d.readBegan, now,
                     if h != [] && h[0].status == Published then Some(h[0].id) else None,
                     if h != [] && h[0].status == Withdrawn then Some(h[0].id) else None) &&
            !p.initial
  {
  }

  lemma NewestIsWhole(h: seq<Publication>)
    requires HistoryShape(h)
    ensures h != [] ==> Whole(h[0])
  {
    if h != [] { assert KeptFor(h[0], 0); }
  }

  /** An initial run's write is the first row of a curriculum that has none, of the version its session read. */
  lemma InitialWritesTheFirst(s: System, n: nat, id: string, time: int)
    requires After(s, Initial(n, id, time)).curricula != s.curricula
    ensures n in s.sessions && s.sessions[n].read.Some? && s.sessions[n].curriculum in s.curricula
    ensures var c, (version, readBegan) := s.sessions[n].curriculum, s.sessions[n].read.value;
            var before, after := s.curricula[c], After(s, Initial(n, id, time)).curricula[c];
            OnlyThis(s, After(s, Initial(n, id, time)), c) && before.history == [] &&
            after == before.(history := after.history) && |after.history| == 1 &&
            IsRowFor(after.history[0], id, time, version, readBegan, s.now, None, None) && after.history[0].initial
  {
  }

  /** A retire withdraws every row and moves nothing else. A delete does too, and marks the curriculum once. */
  lemma RetireAndDeleteWithdraw(s: System, c: string)
    requires c in s.curricula
    ensures var before, after := s.curricula[c], After(s, Step.Retire(c)).curricula[c];
            OnlyThis(s, After(s, Step.Retire(c)), c) && after == before.(history := after.history) &&
            |after.history| == |before.history| &&
            forall i :: 0 <= i < |before.history| ==> after.history[i] == before.history[i].(status := Withdrawn)
    ensures var before, after := s.curricula[c], After(s, Step.Delete(c)).curricula[c];
            OnlyThis(s, After(s, Step.Delete(c)), c) && after.content == before.content &&
            after.history == After(s, Step.Retire(c)).curricula[c].history &&
            after.deletedAt == if before.deletedAt.Some? then before.deletedAt else Some(s.now)
  {
  }

  /**
   An edit is a new version of one curriculum's content. Noting and reading write nothing; each step takes its time.
   */
  lemma EditNoteAndRead(s: System, c: string, n: nat)
    ensures c in s.curricula ==>
              OnlyThis(s, After(s, Edit(c)), c) &&
              After(s, Edit(c)).curricula[c] == s.curricula[c].(content := s.curricula[c].content + 1)
    ensures After(s, Note(n, c)).curricula == s.curricula && After(s, Step.Read(n)).curricula == s.curricula
    ensures n !in s.sessions && c in s.curricula ==>
              var h := s.curricula[c].history;
              After(s, Note(n, c)).sessions ==
              s.sessions[n := Session(c, if h == [] then None else Some(h[0].id), s.now, None)]
    ensures n in s.sessions && s.sessions[n].read.None? && s.sessions[n].curriculum in s.curricula ==>
              var t := s.sessions[n];
              After(s, Step.Read(n)).sessions ==
              s.sessions[n := Session(t.curriculum, t.latestBefore, t.noted,
                                      Some((s.curricula[t.curriculum].content, s.now)))]
    ensures forall step :: After(s, step).now == s.now + 1
  {
  }

  // ---- a publish, from its read to its commit ----------------------------------------------------

  /** A session keeps what it read until it ends. */
  lemma {:induction false} SessionKeepsItsRead(s: System, steps: seq<Step>, n: nat, t: Session)
    requires t.noted < s.now && t.read.Some? &&
             (n in s.sessions && s.sessions[n].noted == t.noted ==> s.sessions[n] == t)
    ensures var later := Run(s, steps);
            n in later.sessions && later.sessions[n].noted == t.noted ==> later.sessions[n] == t
    decreases |steps|
  {
    hide PublishUnderLock, InitialWrite;
    if steps != [] {
      SessionKeepsItsRead(After(s, steps[0]), steps[1..], n, t);
    }
  }

  /**
   In every interleaving, what a publish stores is the content as it was at its read, however much was edited, retired
   or published elsewhere before its commit: the payload, the hashes and the names are of that version.
   */
  lemma APublishStoresWhatItRead(s: System, before: seq<Step>, between: seq<Step>, n: nat, id: string, clock: int)
    requires Fresh(s)
    requires var reading := Run(s, before);
             n in reading.sessions && reading.sessions[n].read.None? &&
             reading.sessions[n].curriculum in reading.curricula
    requires var later := Run(After(Run(s, before), Step.Read(n)), between);
             n in later.sessions && later.sessions[n].noted == Run(s, before).sessions[n].noted &&
             After(later, Commit(n, id, clock)).curricula != later.curricula
    ensures var reading, later := Run(s, before), Run(After(Run(s, before), Step.Read(n)), between);
            var c := reading.sessions[n].curriculum;
            c in later.curricula && c in After(later, Commit(n, id, clock)).curricula &&
            var h, after := later.curricula[c].history, After(later, Commit(n, id, clock)).curricula[c].history;
            StandBehind(h, after) &&
            IsRowFor(after[0], id, if h != [] && clock <= h[0].at then h[0].at + 1 else clock,
                     reading.curricula[c].content, reading.now, later.now,
                     if h != [] && h[0].status == Published then Some(h[0].id) else None,
                     if h != [] && h[0].status == Withdrawn then Some(h[0].id) else None)
  {
    hide After, Run, Invariant, StandBehind, IsRowFor, Fresh;
    var reading := Run(s, before);
    FreshIsOk(s);
    RunKeepsInvariant(s, before);
    var c := reading.sessions[n].curriculum;
    NotedBefore(reading, n);
    EditNoteAndRead(reading, c, n);
    var started := After(reading, Step.Read(n));
    StepKeepsInvariant(reading, Step.Read(n));
    RunKeepsInvariant(started, between);
    SessionKeepsItsRead(started, between, n, started.sessions[n]);
    CommitWrites(Run(started, between), n, id, clock);
  }

  lemma NotedBefore(s: System, n: nat)
    requires Invariant(s) && n in s.sessions
    ensures s.sessions[n].noted < s.now
  {
    hide CurriculumOk;
  }

  /** While no publication is added, those there keep their place, their id and their version. */
  lemma {:induction false} NoneAdded(s: System, steps: seq<Step>, c: string)
    requires c in s.curricula
    ensures c in Run(s, steps).curricula
    ensures var h, later := s.curricula[c].history, Run(s, steps).curricula[c].history;
            |later| >= |h| && (|later| == |h| ==> forall i :: 0 <= i < |h| ==> SamePublication(later[i], h[i]))
    decreases |steps|
  {
    hide After;
    if steps != [] {
      StepGrows(s, steps[0], c);
      NoneAdded(After(s, steps[0]), steps[1..], c);
    }
  }

  /**
   From edit to learner: until something newer of it is published, what is served of a curriculum is the publication of
   that publish, and its stored payload is the content as it was at that publish's read.
   */
  lemma ServedIsWhatThePublishRead(s: System, before: seq<Step>, between: seq<Step>, n: nat, id: string, clock: int,
                                   since: seq<Step>, rows: seq<Light>, i: int)
    requires Fresh(s)
    requires var reading := Run(s, before);
             n in reading.sessions && reading.sessions[n].read.None? &&
             reading.sessions[n].curriculum in reading.curricula
    requires var later := Run(After(Run(s, before), Step.Read(n)), between);
             n in later.sessions && later.sessions[n].noted == Run(s, before).sessions[n].noted &&
             After(later, Commit(n, id, clock)).curricula != later.curricula
    requires var published := After(Run(After(Run(s, before), Step.Read(n)), between), Commit(n, id, clock));
             var c, end := Run(s, before).sessions[n].curriculum, Run(published, since);
             (c in end.curricula && c in published.curricula ==>
                |end.curricula[c].history| == |published.curricula[c].history|) &&
             Lists(rows, end.curricula) && ServedRow(rows, LiveOf(end.curricula), i) && rows[i].curriculum == c
    ensures var published := After(Run(After(Run(s, before), Step.Read(n)), between), Commit(n, id, clock));
            var c, end := Run(s, before).sessions[n].curriculum, Run(published, since);
            c in end.curricula && end.curricula[c].history != [] && rows[i].id == id &&
            var newest := end.curricula[c].history[0];
            newest.id == id && newest.status == Published &&
            newest.payload == Some(Run(s, before).curricula[c].content)
  {
    hide After, Run, Invariant, StandBehind, Fresh, Lists, HistoryShape, CurriculumOk;
    APublishStoresWhatItRead(s, before, between, n, id, clock);
    var reading := Run(s, before);
    var c, started := reading.sessions[n].curriculum, After(reading, Step.Read(n));
    var later := Run(started, between);
    var published := After(later, Commit(n, id, clock));
    FreshIsOk(s);
    RunKeepsInvariant(s, before);
    StepKeepsInvariant(reading, Step.Read(n));
    RunKeepsInvariant(started, between);
    StepKeepsInvariant(later, Commit(n, id, clock));
    RunKeepsInvariant(published, since);
    NoneAdded(published, since, c);
    assert |published.curricula[c].history| > 0 by {
      StandingIsMore(later.curricula[c].history, published.curricula[c].history);
    }
    NewestServed(Run(published, since), rows, i);
  }

  lemma StandingIsMore(h: seq<Publication>, after: seq<Publication>)
    requires StandBehind(h, after)
    ensures |after| > 0
  {
  }

  lemma NewestServed(s: System, rows: seq<Light>, i: int)
    requires Invariant(s) && Lists(rows, s.curricula) && ServedRow(rows, LiveOf(s.curricula), i)
    ensures rows[i].curriculum in s.curricula
    ensures var h := s.curricula[rows[i].curriculum].history;
            h != [] && h[0].id == rows[i].id && h[0].status == Published && h[0].payload == Some(h[0].version)
  {
    hide HistoryShape, Serialised, SessionOk;
    var c := rows[i].curriculum;
    assert IsListed(rows[i], s.curricula);
    assert CurriculumOk(s.curricula[c], s.now);
    FirstRowIsTheNewest(rows, s.curricula, i);
    NewestIsWhole(s.curricula[c].history);
  }

  // ---- an initial run, whole ---------------------------------------------------------------------

  ghost predicate IsFreshPlan(curricula: Curricula, plan: seq<Planned>) {
    (forall i, j :: 0 <= i < j < |plan| ==> plan[i].curriculum != plan[j].curriculum && plan[i].id != plan[j].id) &&
    forall i, c, p :: 0 <= i < |plan| && c in curricula && p in curricula[c].history ==> p.id != plan[i].id
  }

  ghost predicate Gains(curricula: Curricula, p: Planned) {
    p.curriculum in curricula && curricula[p.curriculum].history == []
  }

  /** How many of the first `n` of a plan gain a row. */
  ghost function GainsBefore(curricula: Curricula, plan: seq<Planned>, n: nat): nat
    requires n <= |plan|
  {
    if n == 0 then 0 else GainsBefore(curricula, plan, n - 1) + if Gains(curricula, plan[n - 1]) then 1 else 0
  }

  lemma {:induction false} GainsShift(curricula: Curricula, other: Curricula, plan: seq<Planned>, n: nat)
    requires 1 <= n <= |plan| && forall j :: 1 <= j < n ==> (Gains(curricula, plan[j]) <==> Gains(other, plan[j]))
    ensures GainsBefore(curricula, plan, n) ==
            (if Gains(curricula, plan[0]) then 1 else 0) + GainsBefore(other, plan[1..], n - 1)
  {
    if n > 1 {
      GainsShift(curricula, other, plan, n - 1);
      assert plan[1..][n - 2] == plan[n - 1];
    } else {
      assert GainsBefore(curricula, plan, 1) == GainsBefore(curricula, plan, 0) + if Gains(curricula, plan[0]) then 1
                                                                                  else 0;
    }
  }

  /** What an initial run leaves of one planned curriculum. */
  ghost predicate IsInitialOf(before: Curriculum, after: Curriculum, p: Planned, at: int, now: nat) {
    if before.history != [] then after == before
    else
      after == before.(history := after.history) && |after.history| == 1 &&
      IsRowFor(after.history[0], p.id, at, p.version, p.readBegan, now, None, None)
  }

  ghost predicate LeavesOthers(curricula: Curricula, after: Curricula, plan: seq<Planned>) {
    after.Keys == curricula.Keys &&
    forall c :: c in curricula && (forall i :: 0 <= i < |plan| ==> plan[i].curriculum != c) ==> after[c] == curricula[c]
  }

  function FirstWritten(curricula: Curricula, p: Planned, base: int, now: nat): Curricula {
    if p.curriculum !in curricula then curricula
    else curricula[p.curriculum := InitialWrite(curricula[p.curriculum], p.version, p.readBegan, p.id,
                                                p.id in IdsIn(curricula), base, now)]
  }

  lemma FirstWrittenIs(curricula: Curricula, plan: seq<Planned>, base: int, now: nat)
    requires IsFreshPlan(curricula, plan) && plan != []
    ensures var p := plan[0]; var next := FirstWritten(curricula, p, base, now);
            next.Keys == curricula.Keys &&
            (forall c :: c in curricula && c != p.curriculum ==> next[c] == curricula[c]) &&
            (p.curriculum in curricula ==> IsInitialOf(curricula[p.curriculum], next[p.curriculum], p, base, now)) &&
            IsFreshPlan(next, plan[1..]) &&
            InitialWrites(curricula, plan, base, now) ==
            InitialWrites(next, plan[1..], base + if Gains(curricula, p) then 1 else 0, now)
  {
    var p := plan[0];
    assert p.id !in IdsIn(curricula);
    var next := FirstWritten(curricula, p, base, now);
    forall i, c, q | 0 <= i < |plan[1..]| && c in next && q in next[c].history ensures q.id != plan[1..][i].id {
      assert plan[1..][i] == plan[i + 1];
    }
  }

  lemma GainsAfterFirst(curricula: Curricula, next: Curricula, plan: seq<Planned>, i: nat)
    requires IsFreshPlan(curricula, plan) && 1 <= i < |plan| && next.Keys == curricula.Keys
    requires forall c :: c in curricula && c != plan[0].curriculum ==> next[c] == curricula[c]
    ensures plan[1..][i - 1] == plan[i] && plan[i].curriculum != plan[0].curriculum
    ensures GainsBefore(curricula, plan, i) ==
            (if Gains(curricula, plan[0]) then 1 else 0) + GainsBefore(next, plan[1..], i - 1)
  {
    GainsShift(curricula, next, plan, i);
  }

  /**
   An initial run gives each planned curriculum that has no publication exactly one, of the version planned for it, one
   millisecond after the one before, and leaves every other curriculum as it is.
   */
  lemma {:induction false} InitialRunWrites(curricula: Curricula, plan: seq<Planned>, base: int, now: nat)
    requires IsFreshPlan(curricula, plan)
    ensures var after := InitialWrites(curricula, plan, base, now);
            LeavesOthers(curricula, after, plan) &&
            forall i :: 0 <= i < |plan| && plan[i].curriculum in curricula ==>
              var c := plan[i].curriculum;
              IsInitialOf(curricula[c], after[c], plan[i], base + GainsBefore(curricula, plan, i), now)
    decreases |plan|
  {
    hide InitialWrites, FirstWritten, IsInitialOf, GainsBefore, Gains, LeavesOthers, IsFreshPlan;
    if plan == [] {
      NoPlanNoWrites(curricula, plan, base, now);
    } else {
      FirstWrittenIs(curricula, plan, base, now);
      var p, rest := plan[0], plan[1..];
      var next, time := FirstWritten(curricula, p, base, now), base + if Gains(curricula, p) then 1 else 0;
      InitialRunWrites(next, rest, time, now);
      var after := InitialWrites(next, rest, time, now);
      OthersAreLeft(curricula, next, after, plan);
      forall i | 0 <= i < |plan| && plan[i].curriculum in curricula
        ensures var c := plan[i].curriculum;
                IsInitialOf(curricula[c], after[c], plan[i], base + GainsBefore(curricula, plan, i), now)
      {
        if i == 0 {
          NoneGainBefore(curricula, plan);
        } else {
          GainsAfterFirst(curricula, next, plan, i);
        }
      }
    }
  }

  lemma OthersAreLeft(curricula: Curricula, next: Curricula, after: Curricula, plan: seq<Planned>)
    requires IsFreshPlan(curricula, plan) && plan != [] && next.Keys == curricula.Keys
    requires forall c :: c in curricula && c != plan[0].curriculum ==> next[c] == curricula[c]
    requires LeavesOthers(next, after, plan[1..])
    ensures LeavesOthers(curricula, after, plan)
    ensures plan[0].curriculum in curricula ==> after[plan[0].curriculum] == next[plan[0].curriculum]
  {
    assert forall i :: 0 <= i < |plan[1..]| ==> plan[1..][i] == plan[i + 1];
  }

  lemma NoPlanNoWrites(curricula: Curricula, plan: seq<Planned>, base: int, now: nat)
    requires plan == []
    ensures InitialWrites(curricula, plan, base, now) == curricula && LeavesOthers(curricula, curricula, plan)
  {
  }

  lemma NoneGainBefore(curricula: Curricula, plan: seq<Planned>)
    ensures GainsBefore(curricula, plan, 0) == 0
  {
  }
}
