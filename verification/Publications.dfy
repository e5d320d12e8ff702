/**
 The stored publications of the curricula, and what publish, retire, delete and the initial run do to them under the
 curriculum's row lock. A transaction is one step; the reads a publish makes before it are earlier steps.
 */
module Publications {
  import opened Values

  datatype Status = Published | Withdrawn

  /** What a summary keeps: the publication compared with, and, on recent publications, the hashes and the names. */
  datatype Summary = Summary(previous: Option<string>, sinceWithdrawn: Option<string>, hashes: Option<nat>,
                             names: Option<nat>)

  /**
   One publication. A payload stands for the version of the live content it was read from; `readBegan` and `committed`
   say when, in steps of the run, its content read began and its transaction committed.
   */
  datatype Publication = Publication(
    id: string, at: int, status: Status, payload: Option<nat>, summary: Summary,
    version: nat, readBegan: nat, committed: nat, initial: bool)

  /** A curriculum's row and its publications, newest first; `deletedAt` is the step it was deleted in. */
  datatype Curriculum = Curriculum(content: nat, deletedAt: Option<nat>, history: seq<Publication>)

  datatype PublishError = NotFound | PublishedMeanwhile | DuplicateId

  function LatestId(c: Curriculum): Option<string> {
    if c.history == [] then None else Some(c.history[0].id)
  }

  /** Strictly after the latest publication, whatever the clock says. */
  function NextTime(c: Curriculum, clock: int): int {
    if c.history != [] && clock <= c.history[0].at then c.history[0].at + 1 else clock
  }

  /** The publication a new one is compared with: the latest, when it has this status and still holds its hashes. */
  function BaseOf(c: Curriculum, status: Status): Option<string> {
    if c.history != [] && c.history[0].status == status && c.history[0].summary.hashes.Some? then Some(c.history[0].id)
    else None
  }

  /** What retention leaves of a publication beyond the latest two: the row and the slim summary. */
  function Pruned(p: Publication): Publication {
    p.(payload := None, summary := p.summary.(hashes := None, names := None))
  }

  function PrunedAll(list: seq<Publication>): (r: seq<Publication>)
    ensures |r| == |list| && forall i :: 0 <= i < |list| ==> r[i] == Pruned(list[i])
  {
    seq(|list|, i requires 0 <= i < |list| => Pruned(list[i]))
  }

  /** What a publish read before it took the lock. */
  datatype Draft = Draft(latestBefore: Option<string>, noted: nat, version: nat, readBegan: nat)

  function NewPublication(c: Curriculum, d: Draft, id: string, clock: int, now: nat): Publication {
    var previous := BaseOf(c, Published);
    Publication(id, NextTime(c, clock), Published, Some(d.version),
                Summary(previous, if previous.None? then BaseOf(c, Withdrawn)
                                  else None, Some(d.version), Some(d.version)),
                d.version, d.readBegan, now, false)
  }

  /** The new publication and the one before it whole, the older ones pruned. */
  function WithPublication(c: Curriculum, p: Publication): Curriculum {
    c.(history := [p] + if c.history == [] then [] else [c.history[0]] + PrunedAll(c.history[1..]))
  }

  /** The publish under the lock: refused for a deleted curriculum, or when another was published since `noted`. */
  function PublishUnderLock(c: Curriculum, d: Draft, id: string, taken: bool, clock: int, now: nat): Result<Curriculum,
      PublishError> {
    if c.deletedAt.Some? then Err(NotFound)
    else if LatestId(c) != d.latestBefore then Err(PublishedMeanwhile)
    else if taken then Err(DuplicateId)
    else Ok(WithPublication(c, NewPublication(c, d, id, clock, now)))
  }

  function Withdraw(list: seq<Publication>): (r: seq<Publication>)
    ensures |r| == |list| && forall i :: 0 <= i < |list| ==> r[i] == list[i].(status := Withdrawn)
  {
    seq(|list|, i requires 0 <= i < |list| => list[i].(status := Withdrawn))
  }

  function Retired(c: Curriculum): Curriculum {
    c.(history := Withdraw(c.history))
  }

  function Deleted(c: Curriculum, now: nat): Curriculum {
    Retired(c).(deletedAt := if c.deletedAt.Some? then c.deletedAt else Some(now))
  }

  /** The initial run's write: only a curriculum with no publication of any status gains one. */
  function InitialWrite(c: Curriculum, version: nat, readBegan: nat, id: string, taken: bool, time: int,
                        now: nat): Curriculum {
    if c.history != [] || taken then c
    else c.(history := [Publication(id, time, Published, Some(version),
                                    Summary(None, None, Some(version), Some(version)),
                                    version, readBegan, now, true)])
  }

  // ---- the store ---------------------------------------------------------------------------------

  type Curricula = map<string, Curriculum>

  /** Every publication id in use: the primary key. */
  function IdsIn(curricula: Curricula): set<string> {
    set c, p | c in curricula && p in curricula[c].history :: p.id
  }

  /** One curriculum of an initial run: what was read for it, and the id its publication gets. */
  datatype Planned = Planned(curriculum: string, version: nat, readBegan: nat, id: string)

  function InitialWrites(curricula: Curricula, plan: seq<Planned>, time: int, now: nat): Curricula {
    if plan == [] then curricula
    else if plan[0].curriculum !in curricula then InitialWrites(curricula, plan[1..], time, now)
    else
      var c := plan[0].curriculum;
      var after := InitialWrite(curricula[c], plan[0].version, plan[0].readBegan, plan[0].id,
                                plan[0].id in IdsIn(curricula), time, now);
      InitialWrites(curricula[c := after], plan[1..], if after == curricula[c] then time else time + 1, now)
  }

  class PublicationStore {
    var curricula: Curricula

    constructor (given: Curricula)
      ensures curricula == given
    {
      curricula := given;
    }

    /** `publishCurriculum` from the lock on: check, insert, prune, commit. Nothing is written when it is refused. */
    method Publish(name: string, d: Draft, id: string, clock: int, now: nat) returns (r: Result<string, PublishError>)
      modifies this
      ensures name !in old(curricula) ==> r == Err(NotFound) && curricula == old(curricula)
      ensures name in old(curricula) ==>
                var after := PublishUnderLock(old(curricula)[name], d, id, id in IdsIn(old(curricula)), clock, now);
                match after
                case Err(e) => r == Err(e) && curricula == old(curricula)
                case Ok(c) => r == Ok(id) && curricula == old(curricula)[name := c]
    {
      if name !in curricula || curricula[name].deletedAt.Some? {
        return Err(NotFound);
      }
      var c := curricula[name];
      if LatestId(c) != d.latestBefore {
        return Err(PublishedMeanwhile);
      }
      if id in IdsIn(curricula) {
        return Err(DuplicateId);
      }
      var p := NewPublication(c, d, id, clock, now);
      var history := c.history;
      for i := 1 to if c.history == [] then 1 else |c.history|
        invariant |history| == |c.history|
        invariant forall k :: 0 <= k < |history| ==> history[k] == if 1 <= k < i then Pruned(c.history[k])
                                                                   else c.history[k]
      {
        if history[i].payload.Some? {
          history := history[i := history[i].(payload := None)];
        }
        if history[i].summary.hashes.Some? || history[i].summary.names.Some? {
          history := history[i := history[i].(summary := history[i].summary.(hashes := None, names := None))];
        }
      }
      assert [p] + history == WithPublication(c, p).history;
      curricula := curricula[name := c.(history := [p] + history)];
      return Ok(id);
    }

    /** `withdrawPublications`: every published row of the curriculum is withdrawn; whether there was one. */
    method WithdrawPublications(name: string) returns (changed: bool)
      requires name in curricula
      modifies this
      ensures curricula == old(curricula)[name := Retired(old(curricula)[name])]
      ensures changed <==> exists p :: p in old(curricula)[name].history && p.status == Published
    {
      var c := curricula[name];
      changed := exists p :: p in c.history && p.status == Published;
      curricula := curricula[name := c.(history := Withdraw(c.history))];
    }

    /** The transaction of a delete: under the row's lock, the row is deleted and its publications withdrawn. */
    method DeleteUnderLock(name: string, now: nat) returns (withdrew: bool)
      requires name in curricula
      modifies this
      ensures curricula == old(curricula)[name := Deleted(old(curricula)[name], now)]
      ensures withdrew <==> exists p :: p in old(curricula)[name].history && p.status == Published
    {
      var c := curricula[name];
      if c.deletedAt.None? {
        curricula := curricula[name := c.(deletedAt := Some(now))];
      }
      withdrew := WithdrawPublications(name);
    }

    /** `deleteCurriculum`: nothing for a curriculum that is not there or is deleted; else whether it was withdrawn. */
    method Delete(name: string, now: nat) returns (withdrew: Option<bool>)
      modifies this
      ensures withdrew.None? <==> name !in old(curricula) || old(curricula)[name].deletedAt.Some?
      ensures withdrew.None? ==> curricula == old(curricula)
      ensures withdrew.Some? ==> curricula == old(curricula)[name := Deleted(old(curricula)[name], now)]
      ensures withdrew.Some? ==> (withdrew.value <==>
                                  exists p :: p in old(curricula)[name].history && p.status == Published)
    {
      if name !in curricula || curricula[name].deletedAt.Some? {
        return None;
      }
      var changed := DeleteUnderLock(name, now);
      return Some(changed);
    }

    /** `publishInitial` from the lock on: a curriculum that gained a publication in the meantime is left alone. */
    method PublishInitial(plan: seq<Planned>, base: int, now: nat)
      modifies this
      ensures curricula == InitialWrites(old(curricula), plan, base, now)
    {
      var time := base;
      for i := 0 to |plan|
        invariant InitialWrites(curricula, plan[i..], time, now) == InitialWrites(old(curricula), plan, base, now)
      {
        assert plan[i..][1..] == plan[i + 1..];
        var name := plan[i].curriculum;
        if name in curricula {
          var after := InitialWrite(curricula[name], plan[i].version, plan[i].readBegan, plan[i].id,
                                    plan[i].id in IdsIn(curricula), time, now);
          time := if after == curricula[name] then time else time + 1;
          curricula := curricula[name := after];
        }
      }
    }
  }

  // ---- runs --------------------------------------------------------------------------------------

  /** A publish in progress: what it noted, and once it has read, the version it read. */
  datatype Session = Session(curriculum: string, latestBefore: Option<string>, noted: nat, read: Option<(nat, nat)>)

  datatype System = System(now: nat, curricula: Curricula, sessions: map<nat, Session>)

  datatype Step =
    | Edit(c: string)
    | Note(session: nat, c: string)
    | Read(session: nat)
    | Commit(session: nat, id: string, clock: int)
    | Retire(c: string)
    | Delete(c: string)
    | Initial(session: nat, id: string, time: int)

  function DraftOf(s: Session): Draft
    requires s.read.Some?
  {
    Draft(s.latestBefore, s.noted, s.read.value.0, s.read.value.1)
  }

  /** One step of the server. A step that cannot be taken only lets time pass. */
  function After(s: System, step: Step): System {
    var s' := s.(now := s.now + 1);
    match step
    case Edit(c) =>
      if c in s.curricula
      then s'.(curricula := s.curricula[c := s.curricula[c].(content := s.curricula[c].content + 1)]) else s'
    case Note(n, c) =>
      if c in s.curricula && n !in s.sessions
      then s'.(sessions := s.sessions[n := Session(c, LatestId(s.curricula[c]), s.now, None)]) else s'
    case Read(n) =>
      if n in s.sessions && s.sessions[n].read.None? && s.sessions[n].curriculum in s.curricula then
        var read := (s.curricula[s.sessions[n].curriculum].content, s.now);
        s'.(sessions := s.sessions[n := s.sessions[n].(read := Some(read))])
      else s'
    case Commit(n, id, clock) =>
      if n in s.sessions && s.sessions[n].read.Some? && s.sessions[n].curriculum in s.curricula then
        var c := s.sessions[n].curriculum;
        match PublishUnderLock(s.curricula[c], DraftOf(s.sessions[n]), id, id in IdsIn(s.curricula), clock, s.now)
        case Err(_) => s'.(sessions := s.sessions - {n})
        case Ok(after) => s'.(sessions := s.sessions - {n}, curricula := s.curricula[c := after])
      else s'
    case Retire(c) =>
      if c in s.curricula then s'.(curricula := s.curricula[c := Retired(s.curricula[c])]) else s'
    case Delete(c) =>
      if c in s.curricula then s'.(curricula := s.curricula[c := Deleted(s.curricula[c], s.now)]) else s'
    case Initial(n, id, time) =>
      if n in s.sessions && s.sessions[n].read.Some? && s.sessions[n].curriculum in s.curricula then
        var c := s.sessions[n].curriculum;
        s'.(sessions := s.sessions - {n},
            curricula := s.curricula[c :=
                                     InitialWrite(s.curricula[c], s.sessions[n].read.value.0,
                                                  s.sessions[n].read.value.1, id,
                                                       id in IdsIn(s.curricula), time, s.now)])
      else s'
  }

  function Run(s: System, steps: seq<Step>): System
    decreases |steps|
  {
    if steps == [] then s else Run(After(s, steps[0]), steps[1..])
  }

  /** A server with curricula that were never published. */
  ghost predicate Fresh(s: System) {
    s.sessions == map[] && forall c :: c in s.curricula ==>
    s.curricula[c].history == [] && s.curricula[c].deletedAt.None?
  }

  // ---- what every run keeps ----------------------------------------------------------------------

  ghost predicate Whole(p: Publication) {
    p.payload == Some(p.version) && p.summary.hashes.Some? && p.summary.names.Some?
  }

  ghost predicate Slim(p: Publication) {
    p.payload.None? && p.summary.hashes.None? && p.summary.names.None?
  }

  /** The newest two are kept whole, older ones slim. */
  ghost predicate KeptFor(p: Publication, place: nat) {
    if place < 2 then Whole(p) else Slim(p)
  }

  /**
   The shape of a history, newest first: times strictly apart, published rows before withdrawn ones, the newest two
   whole and every older one slim, no id twice.
   */
  ghost predicate HistoryShape(h: seq<Publication>) {
    (forall i, j :: 0 <= i < j < |h| ==> h[i].at > h[j].at) &&
    (forall i, j :: 0 <= i < j < |h| ==> h[i].status == Withdrawn ==> h[j].status == Withdrawn) &&
    (forall i :: 0 <= i < |h| ==> KeptFor(h[i], i)) &&
    (forall i, j :: 0 <= i < j < |h| ==> h[i].id != h[j].id)
  }

  /** Every publication's content read began after every older publication had committed, and read no older content. */
  ghost predicate Serialised(h: seq<Publication>) {
    forall i, j :: 0 <= i < j < |h| ==> h[i].readBegan > h[j].committed && h[i].version >= h[j].version
  }

  ghost predicate CurriculumOk(c: Curriculum, now: nat) {
    HistoryShape(c.history) && Serialised(c.history) &&
    (forall p :: p in c.history ==> p.readBegan < p.committed < now && p.version <= c.content) &&
    (c.deletedAt.Some? ==> c.deletedAt.value < now)
  }

  ghost predicate SessionOk(s: Session, curricula: Curricula, now: nat) {
    s.curriculum in curricula && s.noted < now &&
    (s.latestBefore.Some? ==>
       exists p :: p in curricula[s.curriculum].history && p.id == s.latestBefore.value && p.committed < s.noted) &&
    (s.read.Some? ==>
      s.noted < s.read.value.1 < now && s.read.value.0 <= curricula[s.curriculum].content &&
      forall p :: p in curricula[s.curriculum].history && p.committed < s.noted ==> p.version <= s.read.value.0)
  }

  ghost predicate Invariant(s: System) {
    (forall c :: c in s.curricula ==> CurriculumOk(s.curricula[c], s.now)) &&
    (forall n :: n in s.sessions ==> SessionOk(s.sessions[n], s.curricula, s.now))
  }

  lemma WithdrawKeepsShape(c: Curriculum, now: nat)
    requires CurriculumOk(c, now)
    ensures CurriculumOk(Retired(c), now)
  {
    var h, w := c.history, Retired(c).history;
    hide Withdraw;
    assert forall i :: 0 <= i < |h| ==> w[i] == h[i].(status := Withdrawn);
    forall i | 0 <= i < |w| ensures KeptFor(w[i], i) {
      assert KeptFor(h[i], i);
    }
    forall p | p in w ensures p.readBegan < p.committed < now && p.version <= c.content {
      var i :| 0 <= i < |w| && w[i] == p;
      assert h[i] in h;
    }
  }

  lemma WithPublicationAt(c: Curriculum, p: Publication, i: nat)
    requires i <= |c.history|
    ensures |WithPublication(c, p).history| == |c.history| + 1
    ensures WithPublication(c, p).history[i] == if i == 0 then p else if i == 1 then c.history[0]
                                                else Pruned(c.history[i - 1])
  {
  }

  ghost predicate SameStamps(p: Publication, q: Publication) {
    p.id == q.id && p.at == q.at && p.status == q.status && p.version == q.version && p.readBegan == q.readBegan &&
    p.committed == q.committed
  }

  ghost predicate NewerThan(p: Publication, q: Publication) {
    p.id != q.id && p.at > q.at && p.readBegan > q.committed && p.version >= q.version
  }

  /** Behind a new publication, the row in place `k` is the older one of the place before, kept as its new place is. */
  ghost predicate IsOlderAt(p: Publication, h: seq<Publication>, after: seq<Publication>, k: nat)
    requires 1 <= k < |after| == |h| + 1
  {
    SameStamps(after[k], h[k - 1]) && NewerThan(p, h[k - 1]) && KeptFor(after[k], k)
  }

  /** A whole, published publication newer than all of an ordered history makes an ordered history. */
  lemma PrependingKeepsShape(p: Publication, h: seq<Publication>, after: seq<Publication>)
    requires HistoryShape(h) && Serialised(h) && Whole(p) && p.status == Published
    requires |after| == |h| + 1 && after[0] == p
    requires forall k :: 1 <= k < |after| ==> IsOlderAt(p, h, after, k)
    ensures HistoryShape(after) && Serialised(after)
  {
    hide Slim;
    forall i, j | 0 <= i < j < |after|
      ensures after[i].at > after[j].at && after[i].id != after[j].id
      ensures after[i].status == Withdrawn ==> after[j].status == Withdrawn
      ensures after[i].readBegan > after[j].committed && after[i].version >= after[j].version
    {
      assert IsOlderAt(p, h, after, j);
      if i > 0 { assert IsOlderAt(p, h, after, i); }
    }
    forall i | 0 <= i < |after| ensures KeptFor(after[i], i) {
      if i > 0 { assert IsOlderAt(p, h, after, i); }
    }
  }

  /** Behind the new publication each older one is in its place, with its stamps, and kept as that place is. */
  lemma OlderFollows(c: Curriculum, p: Publication, k: nat)
    requires HistoryShape(c.history) && 1 <= k <= |c.history|
    ensures var after := WithPublication(c, p).history;
            |after| == |c.history| + 1 && SameStamps(after[k], c.history[k - 1]) && KeptFor(after[k], k)
  {
    hide WithPublication, Serialised;
    WithPublicationAt(c, p, k);
    assert KeptFor(c.history[k - 1], k - 1);
  }

  lemma NewIsNewer(c: Curriculum, d: Draft, id: string, clock: int, now: nat, k: nat)
    requires HistoryShape(c.history) && Serialised(c.history) && 1 <= k <= |c.history| && c.history[k - 1].id != id
    requires forall q :: q in c.history ==> q.readBegan < q.committed
    requires c.history[0].committed < d.readBegan && c.history[0].version <= d.version
    ensures NewerThan(NewPublication(c, d, id, clock, now), c.history[k - 1])
  {
    assert c.history[0] in c.history && c.history[k - 1] in c.history;
  }

  /** A publish that wins the check keeps the history in shape and in order. */
  lemma PublishKeepsShape(c: Curriculum, d: Draft, id: string, clock: int, now: nat)
    requires CurriculumOk(c, now) && PublishUnderLock(c, d, id, false, clock, now).Ok?
    requires forall p :: p in c.history ==> p.id != id
    requires d.version <= c.content && d.readBegan < now
    requires c.history != [] ==> c.history[0].committed < d.readBegan && c.history[0].version <= d.version
    ensures CurriculumOk(PublishUnderLock(c, d, id, false, clock, now).value, now + 1)
  {
    var p := NewPublication(c, d, id, clock, now);
    var h, after := c.history, WithPublication(c, p).history;
    WithPublicationAt(c, p, 0);
    hide WithPublication, HistoryShape, Serialised, KeptFor, NewerThan;
    forall k | 1 <= k < |after| ensures IsOlderAt(p, h, after, k) {
      assert h[k - 1] in h;
      OlderFollows(c, p, k);
      NewIsNewer(c, d, id, clock, now, k);
    }
    assert Whole(p);
    PrependingKeepsShape(p, h, after);
    forall q | q in after ensures q.readBegan < q.committed < now + 1 && q.version <= c.content {
      var i :| 0 <= i < |after| && after[i] == q;
      if i > 0 {
        assert h[i - 1] in h && IsOlderAt(p, h, after, i);
      }
    }
  }

  /** The publication noted before the reads is, when it is still the latest, one that committed before they began. */
  lemma NotedIsTheLatest(c: Curriculum, s: Session, curricula: Curricula, now: nat)
    requires CurriculumOk(c, now) && SessionOk(s, curricula, now) && curricula[s.curriculum] == c && s.read.Some?
    requires LatestId(c) == s.latestBefore && c.history != []
    ensures c.history[0].committed < s.noted < s.read.value.1 && c.history[0].version <= s.read.value.0
  {
    var p :| p in c.history && p.id == s.latestBefore.value && p.committed < s.noted;
    var i :| 0 <= i < |c.history| && c.history[i] == p;
    assert p == c.history[0];
  }

  lemma FreshIdIsNew(curricula: Curricula, c: string, id: string)
    requires c in curricula && id !in IdsIn(curricula)
    ensures forall p :: p in curricula[c].history ==> p.id != id
  {
    forall p | p in curricula[c].history ensures p.id in IdsIn(curricula) {
    }
  }

  lemma CommitKeepsCurriculum(s: System, n: nat, id: string, clock: int)
    requires Invariant(s) && n in s.sessions && s.sessions[n].read.Some? && s.sessions[n].curriculum in s.curricula
    ensures var c := s.curricula[s.sessions[n].curriculum];
            var r := PublishUnderLock(c, DraftOf(s.sessions[n]), id, id in IdsIn(s.curricula), clock, s.now);
            r.Ok? ==> CurriculumOk(r.value, s.now + 1)
  {
    hide CurriculumOk, SessionOk, WithPublication, NewPublication;
    var name := s.sessions[n].curriculum;
    var c := s.curricula[name];
    var d := DraftOf(s.sessions[n]);
    var r := PublishUnderLock(c, d, id, id in IdsIn(s.curricula), clock, s.now);
    if r.Ok? {
      FreshIdIsNew(s.curricula, name, id);
      ReadSession(s.sessions[n], s.curricula, s.now);
      if c.history != [] {
        NotedIsTheLatest(c, s.sessions[n], s.curricula, s.now);
      }
      PublishKeepsShape(c, d, id, clock, s.now);
    }
  }

  lemma ReadSession(t: Session, curricula: Curricula, now: nat)
    requires SessionOk(t, curricula, now) && t.read.Some?
    ensures t.curriculum in curricula && t.read.value.0 <= curricula[t.curriculum].content && t.read.value.1 < now
  {
  }

  lemma InitialKeepsCurriculum(c: Curriculum, version: nat, readBegan: nat, id: string, taken: bool, time: int,
                               now: nat)
    requires CurriculumOk(c, now) && version <= c.content && readBegan < now
    ensures CurriculumOk(InitialWrite(c, version, readBegan, id, taken, time, now), now + 1)
  {
  }

  /** The curriculum a step writes: what it may become. */
  lemma StepKeepsCurriculum(s: System, step: Step, c: string)
    requires Invariant(s) && c in s.curricula
    ensures c in After(s, step).curricula && CurriculumOk(After(s, step).curricula[c], s.now + 1)
  {
    hide SessionOk, PublishUnderLock, InitialWrite, HistoryShape, Serialised, IdsIn;
    assert CurriculumOk(s.curricula[c], s.now);
    match step
    case Commit(n, id, clock) =>
      if n in s.sessions && s.sessions[n].read.Some? && s.sessions[n].curriculum == c {
        CommitKeepsCurriculum(s, n, id, clock);
      }
    case Initial(n, id, time) =>
      if n in s.sessions && s.sessions[n].read.Some? && s.sessions[n].curriculum == c {
        ReadSession(s.sessions[n], s.curricula, s.now);
        InitialKeepsCurriculum(s.curricula[c], s.sessions[n].read.value.0, s.sessions[n].read.value.1, id,
                               id in IdsIn(s.curricula), time, s.now);
      }
    case Retire(_) => WithdrawKeepsShape(s.curricula[c], s.now);
    case Delete(_) => WithdrawKeepsShape(s.curricula[c], s.now);
    case _ =>
  }

  ghost predicate SamePublication(p: Publication, q: Publication) {
    p.id == q.id && p.committed == q.committed && p.version == q.version
  }

  /** A step leaves the publications of a history where they are, or puts one that commits now before them. */
  ghost predicate GrowsNow(h: seq<Publication>, after: seq<Publication>, now: nat) {
    (|after| == |h| && forall i :: 0 <= i < |h| ==> SamePublication(after[i], h[i])) ||
    (|after| == |h| + 1 && after[0].committed == now &&
     forall i :: 0 <= i < |h| ==> SamePublication(after[i + 1], h[i]))
  }

  lemma PublishGrows(c: Curriculum, d: Draft, id: string, taken: bool, clock: int, now: nat)
    requires PublishUnderLock(c, d, id, taken, clock, now).Ok?
    ensures GrowsNow(c.history, PublishUnderLock(c, d, id, taken, clock, now).value.history, now)
  {
    hide WithPublication, SamePublication;
    HistoryGrows(c, NewPublication(c, d, id, clock, now));
  }

  lemma HistoryGrows(c: Curriculum, p: Publication)
    ensures var after := WithPublication(c, p).history;
            |after| == |c.history| + 1 && after[0] == p &&
            forall i :: 0 <= i < |c.history| ==> SamePublication(after[i + 1], c.history[i])
  {
    hide WithPublication;
    WithPublicationAt(c, p, 0);
    forall i | 0 <= i < |c.history| ensures SamePublication(WithPublication(c, p).history[i + 1], c.history[i]) {
      WithPublicationAt(c, p, i + 1);
    }
  }

  lemma StepGrows(s: System, step: Step, c: string)
    requires c in s.curricula
    ensures c in After(s, step).curricula
    ensures GrowsNow(s.curricula[c].history, After(s, step).curricula[c].history, s.now)
  {
    hide PublishUnderLock, IdsIn;
    match step
    case Commit(n, id, clock) =>
      if n in s.sessions && s.sessions[n].read.Some? && s.sessions[n].curriculum == c {
        var d, taken := DraftOf(s.sessions[n]), id in IdsIn(s.curricula);
        if PublishUnderLock(s.curricula[c], d, id, taken, clock, s.now).Ok? {
          PublishGrows(s.curricula[c], d, id, taken, clock, s.now);
        }
      }
    case _ =>
  }

  /** A publication stays in its curriculum's history under every step, with the same id, times and version. */
  lemma StepKeepsPublications(s: System, step: Step, c: string, p: Publication)
    requires c in s.curricula && p in s.curricula[c].history
    ensures c in After(s, step).curricula
    ensures exists q :: q in After(s, step).curricula[c].history && SamePublication(q, p)
  {
    StepGrows(s, step, c);
    hide After;
    var h, after := s.curricula[c].history, After(s, step).curricula[c].history;
    var i :| 0 <= i < |h| && h[i] == p;
    if |after| == |h| {
      assert after[i] in after;
    } else {
      assert after[i + 1] in after;
    }
  }

  /** What a step adds to a history committed at that step. */
  lemma StepAddsNow(s: System, step: Step, c: string, q: Publication)
    requires c in s.curricula && q in After(s, step).curricula[c].history
    ensures q.committed == s.now || exists p :: p in s.curricula[c].history && SamePublication(q, p)
  {
    StepGrows(s, step, c);
    hide After;
    var h, after := s.curricula[c].history, After(s, step).curricula[c].history;
    var i :| 0 <= i < |after| && after[i] == q;
    if |after| == |h| {
      assert h[i] in h;
    } else if i > 0 {
      assert h[i - 1] in h;
    }
  }

  lemma StepKeepsContent(s: System, step: Step, c: string)
    requires c in s.curricula
    ensures c in After(s, step).curricula && After(s, step).curricula[c].content >= s.curricula[c].content
  {
    hide NewPublication, PrunedAll, IdsIn;
  }

  lemma StepKeepsSession(s: System, step: Step, n: nat)
    requires Invariant(s) && n in s.sessions && n in After(s, step).sessions &&
             After(s, step).sessions[n] == s.sessions[n]
    ensures SessionOk(s.sessions[n], After(s, step).curricula, s.now + 1)
  {
    hide After, CurriculumOk;
    var t := s.sessions[n];
    assert SessionOk(t, s.curricula, s.now);
    StepKeepsContent(s, step, t.curriculum);
    if t.latestBefore.Some? {
      var p :| p in s.curricula[t.curriculum].history && p.id == t.latestBefore.value && p.committed < t.noted;
      StepKeepsPublications(s, step, t.curriculum, p);
    }
    if t.read.Some? {
      forall q | q in After(s, step).curricula[t.curriculum].history && q.committed < t.noted
        ensures q.version <= t.read.value.0
      {
        StepAddsNow(s, step, t.curriculum, q);
      }
    }
  }

  lemma NewSessionIsOk(s: System, step: Step, n: nat)
    requires Invariant(s) && n in After(s, step).sessions &&
             !(n in s.sessions && After(s, step).sessions[n] == s.sessions[n])
    ensures SessionOk(After(s, step).sessions[n], After(s, step).curricula, s.now + 1)
  {
    hide HistoryShape, Serialised;
    match step
    case Note(_, name) =>
      var c := s.curricula[name];
      assert CurriculumOk(c, s.now);
      if c.history != [] { assert c.history[0] in c.history; }
    case Read(_) =>
      assert SessionOk(s.sessions[n], s.curricula, s.now);
      assert CurriculumOk(s.curricula[s.sessions[n].curriculum], s.now);
    case _ =>
  }

  lemma StepKeepsInvariant(s: System, step: Step)
    requires Invariant(s)
    ensures Invariant(After(s, step))
  {
    hide CurriculumOk, SessionOk;
    var s' := After(s, step);
    assert s'.now == s.now + 1 && s'.curricula.Keys == s.curricula.Keys;
    forall c | c in s'.curricula ensures CurriculumOk(s'.curricula[c], s'.now) {
      StepKeepsCurriculum(s, step, c);
    }
    forall n | n in s'.sessions ensures SessionOk(s'.sessions[n], s'.curricula, s'.now) {
      if n in s.sessions && s'.sessions[n] == s.sessions[n] {
        StepKeepsSession(s, step, n);
      } else {
        NewSessionIsOk(s, step, n);
      }
    }
  }

  lemma {:induction false} RunKeepsInvariant(s: System, steps: seq<Step>)
    requires Invariant(s)
    ensures Invariant(Run(s, steps))
    decreases |steps|
  {
    if steps != [] {
      StepKeepsInvariant(s, steps[0]);
      RunKeepsInvariant(After(s, steps[0]), steps[1..]);
    }
  }

  /**
   In every interleaving of publishes, retires, deletes, edits and initial runs: times strictly increase, withdrawn rows
   come before published ones, exactly the newest two hold payload, hashes and names, and each publication's content
   was read after the one before it committed, so it is never an older read.
   */
  lemma EveryHistoryIsOrderedAndSerialised(s: System, steps: seq<Step>, c: string)
    requires Fresh(s) && c in Run(s, steps).curricula
    ensures HistoryShape(Run(s, steps).curricula[c].history) && Serialised(Run(s, steps).curricula[c].history)
  {
    RunKeepsInvariant(s, steps);
  }

  /**
   A publish is written exactly when the curriculum is live, nothing was published since it noted, and its id is new.
   */
  lemma LosingPublishWritesNothing(s: System, n: nat, id: string, clock: int)
    requires n in s.sessions && s.sessions[n].read.Some? && s.sessions[n].curriculum in s.curricula
    ensures var c := s.curricula[s.sessions[n].curriculum];
            After(s, Commit(n, id, clock)).curricula == s.curricula <==>
              c.deletedAt.Some? || LatestId(c) != s.sessions[n].latestBefore || id in IdsIn(s.curricula)
  {
    var name := s.sessions[n].curriculum;
    var c := s.curricula[name];
    var r := PublishUnderLock(c, DraftOf(s.sessions[n]), id, id in IdsIn(s.curricula), clock, s.now);
    if r.Ok? {
      assert |r.value.history| == |c.history| + 1;
      assert After(s, Commit(n, id, clock)).curricula[name] == r.value;
    }
  }
}
