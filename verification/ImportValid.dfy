/** Which content files are acceptable, told by the places in the file: what each holds, and what no two may share. */
module ImportValid {
  import opened Values
  import opened ImportSlots
  import opened ImportContent
  import opened ImportFile

  /** Where a question stands in a file: the lesson, the set and the place in it. */
  datatype Asked = Asked(lesson: nat, kind: Kind, place: nat)

  predicate IsAsked(lessons: seq<Lesson>, q: Asked) {
    q.lesson < |lessons| && q.place < |SetIn(lessons[q.lesson], q.kind)|
  }

  function QuestionAt(lessons: seq<Lesson>, q: Asked): Question
    requires IsAsked(lessons, q)
  {
    SetIn(lessons[q.lesson], q.kind)[q.place]
  }

  // ---- texts -------------------------------------------------------------------------------------

  ghost predicate HasWords(s: string) {
    exists c :: c in s && !IsSpace(c)
  }

  /** A text in both languages, the Khmer no longer than a translation's column holds. */
  ghost predicate IsInBoth(b: Bilingual) {
    HasWords(b.en) && HasWords(b.km) && ByteLength(b.km) <= 65535
  }

  ghost predicate IsPlain(c: char) {
    'A' <= c <= 'Z' || 'a' <= c <= 'z' || '0' <= c <= '9' || c == '-'
  }

  ghost predicate IsCode(s: string) {
    exists rest :: rest != "" && s == "DCRS-" + rest && forall c :: c in rest ==> IsPlain(c)
  }

  ghost predicate IsVideoName(s: string) {
    exists stem :: stem != "" && s == stem + ".mp4" && forall c :: c in stem ==> IsPlain(c) || c == '_'
  }

  ghost predicate HasNoBreak(s: string) {
    !exists c :: c in s && c in {'\n', '\r', '\U{2028}', '\U{2029}'}
  }

  lemma WordsAre(s: string)
    ensures IsText(s) <==> HasWords(s)
  {
  }

  lemma BothAre(b: Bilingual)
    ensures BilingualOk(b) <==> IsInBoth(b)
  {
    WordsAre(b.en);
    WordsAre(b.km);
  }

  lemma BreaksAre(s: string)
    ensures IsOneLine(s) <==> HasNoBreak(s)
  {
  }

  lemma CodesAre(s: string)
    ensures IsIdent(s) <==> IsCode(s)
  {
    if IsIdent(s) { assert s == "DCRS-" + s[5..]; }
  }

  lemma VideoNamesAre(s: string)
    ensures IsFilename(s) <==> IsVideoName(s)
  {
    hide IsPlain;
    forall c ensures IsPlain(c) <==> IsWordChar(c) { PlainIs(c); }
    if IsFilename(s) { assert s == s[..|s| - 4] + ".mp4"; }
    if stem :| stem != "" && s == stem + ".mp4" && forall c :: c in stem ==> IsPlain(c) || c == '_' {
      assert |s| == |stem| + 4;
      assert s[..|s| - 4] == stem && s[|s| - 4..] == ".mp4";
    }
  }

  lemma PlainIs(c: char)
    ensures IsPlain(c) <==> IsWordChar(c)
  {
  }

  // ---- a question and a lesson of its own --------------------------------------------------------

  ghost predicate IsTheCorrect(choices: seq<Choice>, i: nat) {
    i < |choices| && choices[i].correct && forall j :: 0 <= j < |choices| && j != i ==> !choices[j].correct
  }

  ghost predicate OneIsCorrect(choices: seq<Choice>) {
    exists i :: IsTheCorrect(choices, i)
  }

  /**
   A question of its own: an identifier, two to eight options of which one is correct, every text in both languages.
   */
  ghost predicate IsGoodQuestion(q: Question) {
    IsCode(q.ident) && IsInBoth(q.text) && 2 <= |q.choices| <= 8 && OneIsCorrect(q.choices) &&
    (forall i :: 0 <= i < |q.choices| ==> IsInBoth(q.choices[i].text)) &&
    (q.feedback.Some? && q.feedback.value.good.Some? ==> IsInBoth(q.feedback.value.good.value)) &&
    (q.feedback.Some? && q.feedback.value.bad.Some? ==> IsInBoth(q.feedback.value.bad.value))
  }

  /** A lesson of its own: its place, its name, its video, and at most four questions in a set. */
  ghost predicate IsGoodLesson(m: nat, l: Lesson) {
    (match l.id
     case Some(id) => m == 1 && id.Seed? && 0x08 <= id.n <= 0x0b && l.order >= 1
     case None => (if m == 1 then 2 else 1) <= l.order <= 12) &&
    IsInBoth(l.name) && HasWords(l.video.ref) &&
    (match l.video
     case Keep(_) => true
     case File(_, filename, source) => IsVideoName(filename) && (source.Some? ==> HasWords(source.value))) &&
    |l.practice| <= 4 && |l.quiz| <= 4
  }

  /** No two lessons share an order, a seed lesson or a video file. */
  ghost predicate LessonsDiffer(lessons: seq<Lesson>) {
    forall a, b :: 0 <= a < b < |lessons| ==>
      lessons[a].order != lessons[b].order &&
      (lessons[a].id.Some? ==> lessons[a].id != lessons[b].id) &&
      (lessons[a].video.File? && lessons[b].video.File? ==> lessons[a].video.filename != lessons[b].video.filename)
  }

  /** No two questions of the file share an identifier. */
  ghost predicate QuestionsDiffer(lessons: seq<Lesson>) {
    forall p, q :: IsAsked(lessons, p) && IsAsked(lessons, q) && p != q ==>
        QuestionAt(lessons, p).ident != QuestionAt(lessons, q).ident
  }

  /** The questions that take one of the seed's ids: those of the lessons with an id. */
  ghost function Drawing(lessons: seq<Lesson>): set<Asked> {
    set a: nat, kind, j: nat | a < |lessons| && lessons[a].id.Some? &&
    j < |SetIn(lessons[a], kind)| :: Asked(a, kind, j)
  }

  // ---- each question and each lesson -------------------------------------------------------------

  ghost predicate NoneIsCorrect(choices: seq<Choice>) {
    forall i :: 0 <= i < |choices| ==> !choices[i].correct
  }

  lemma IsTheStill(choices: seq<Choice>, last: Choice, i: nat)
    ensures IsTheCorrect(choices + [last], i) <==>
            if i == |choices| then last.correct && NoneIsCorrect(choices) else IsTheCorrect(choices, i) && !last.correct
  {
    var all := choices + [last];
    assert forall j :: 0 <= j < |choices| ==> all[j] == choices[j];
    assert all[|choices|] == last;
  }

  lemma OneMore(choices: seq<Choice>, last: Choice)
    ensures NoneIsCorrect(choices + [last]) <==> NoneIsCorrect(choices) && !last.correct
    ensures OneIsCorrect(choices + [last]) <==> if last.correct then NoneIsCorrect(choices) else OneIsCorrect(choices)
  {
    var all := choices + [last];
    assert forall j :: 0 <= j < |choices| ==> all[j] == choices[j];
    assert all[|choices|] == last;
    hide IsTheCorrect;
    forall i: nat
      ensures IsTheCorrect(all, i) <==>
              if i == |choices| then last.correct && NoneIsCorrect(choices)
              else IsTheCorrect(choices, i) && !last.correct
    {
      IsTheStill(choices, last, i);
    }
    if last.correct && NoneIsCorrect(choices) { assert IsTheCorrect(all, |choices|); }
    if i: nat :| !last.correct && IsTheCorrect(choices, i) {
      assert i < |choices| by { WithinRange(choices, i); }
      assert IsTheCorrect(all, i);
    }
  }

  lemma WithinRange(choices: seq<Choice>, i: nat)
    requires IsTheCorrect(choices, i)
    ensures i < |choices|
  {
  }

  lemma {:induction false} CorrectAre(choices: seq<Choice>)
    ensures CorrectChoices(choices) == 0 <==> NoneIsCorrect(choices)
    ensures CorrectChoices(choices) == 1 <==> OneIsCorrect(choices)
  {
    hide IsTheCorrect;
    if choices != [] {
      hide OneIsCorrect, NoneIsCorrect;
      var before, last := choices[..|choices| - 1], choices[|choices| - 1];
      CorrectAre(before);
      OneMore(before, last);
      assert choices == before + [last];
    } else if i: nat :| IsTheCorrect(choices, i) {
      WithinRange(choices, i);
    }
  }

  lemma QuestionIs(q: Question)
    ensures QuestionOk(q) <==> IsGoodQuestion(q)
  {
    hide BilingualOk, IsInBoth, IsIdent, IsCode, OneIsCorrect, CorrectChoices;
    CorrectAre(q.choices);
    CodesAre(q.ident);
    forall b ensures BilingualOk(b) <==> IsInBoth(b) { BothAre(b); }
  }

  ghost predicate AreGood(l: Lesson) {
    forall kind, j: nat :: j < |SetIn(l, kind)| ==> IsGoodQuestion(SetIn(l, kind)[j])
  }

  lemma SetsAre(l: Lesson)
    ensures SetOk(l.practice) && SetOk(l.quiz) <==> |l.practice| <= 4 && |l.quiz| <= 4 && AreGood(l)
  {
    hide QuestionOk, IsGoodQuestion;
    forall q ensures QuestionOk(q) <==> IsGoodQuestion(q) {
      QuestionIs(q);
    }
    if AreGood(l) {
      forall j | 0 <= j < |l.practice| ensures QuestionOk(l.practice[j]) {
        assert l.practice[j] == SetIn(l, Practice)[j];
      }
      forall j | 0 <= j < |l.quiz| ensures QuestionOk(l.quiz[j]) {
        assert l.quiz[j] == SetIn(l, Quiz)[j];
      }
    }
  }

  lemma LessonIs(m: nat, l: Lesson)
    ensures LessonOk(m, l) <==> IsGoodLesson(m, l) && AreGood(l)
  {
    hide BilingualOk, IsInBoth, IsText, HasWords, IsFilename, IsVideoName, SetOk, AreGood;
    SetsAre(l);
    BothAre(l.name);
    forall s ensures IsText(s) <==> HasWords(s) { WordsAre(s); }
    if l.video.File? { VideoNamesAre(l.video.filename); }
  }

  // ---- what no two share -------------------------------------------------------------------------

  ghost predicate FilesDiffer(lessons: seq<Lesson>) {
    forall a, b :: 0 <= a < b < |lessons| && lessons[a].video.File? && lessons[b].video.File? ==>
      lessons[a].video.filename != lessons[b].video.filename
  }

  ghost predicate HasFile(lessons: seq<Lesson>, f: string) {
    exists a :: 0 <= a < |lessons| && lessons[a].video.File? && lessons[a].video.filename == f
  }

  lemma FilesOfMore(before: seq<Lesson>, l: Lesson)
    ensures forall f :: HasFile(before + [l], f) <==> HasFile(before, f) || (l.video.File? && l.video.filename == f)
    ensures FilesDiffer(before + [l]) <==> FilesDiffer(before) && (l.video.File? ==> !HasFile(before, l.video.filename))
  {
    var all, n := before + [l], |before|;
    assert forall a :: 0 <= a < n ==> all[a] == before[a];
    assert all[n] == l;
    if FilesDiffer(before) && (l.video.File? ==> !HasFile(before, l.video.filename)) {
      assert forall a :: 0 <= a < n && all[a].video.File? && l.video.File? ==>
             all[a].video.filename != l.video.filename;
    }
  }

  lemma {:induction false} FilesAre(lessons: seq<Lesson>)
    ensures forall f :: f in Files(lessons) <==> HasFile(lessons, f)
    ensures Distinct(Files(lessons)) <==> FilesDiffer(lessons)
  {
    if lessons != [] {
      hide HasFile, FilesDiffer, Distinct;
      var n := |lessons| - 1;
      var before := lessons[..n];
      assert lessons == before + [lessons[n]];
      FilesAre(before);
      DistinctAppend(Files(before), FileOf(lessons[n]));
      FilesOfMore(before, lessons[n]);
    }
  }

  ghost predicate HasId(lessons: seq<Lesson>, id: Id) {
    exists a :: 0 <= a < |lessons| && lessons[a].id == Some(id)
  }

  ghost predicate IdsDiffer(lessons: seq<Lesson>) {
    forall a, b :: 0 <= a < b < |lessons| && lessons[a].id.Some? ==> lessons[a].id != lessons[b].id
  }

  lemma IdsOfMore(before: seq<Lesson>, l: Lesson)
    ensures forall id :: HasId(before + [l], id) <==> HasId(before, id) || l.id == Some(id)
    ensures IdsDiffer(before + [l]) <==> IdsDiffer(before) && (l.id.Some? ==> !HasId(before, l.id.value))
  {
    var all, n := before + [l], |before|;
    assert forall a :: 0 <= a < n ==> all[a] == before[a];
    assert all[n] == l;
    if IdsDiffer(before) && (l.id.Some? ==> !HasId(before, l.id.value)) {
      assert forall a :: 0 <= a < n && all[a].id.Some? ==> all[a].id != l.id;
    }
  }

  lemma {:induction false} IdsAre(lessons: seq<Lesson>)
    ensures forall id :: id in LessonIds(lessons) <==> HasId(lessons, id)
    ensures Distinct(LessonIds(lessons)) <==> IdsDiffer(lessons)
  {
    if lessons != [] {
      hide HasId, IdsDiffer, Distinct;
      var n := |lessons| - 1;
      var before := lessons[..n];
      assert lessons == before + [lessons[n]];
      IdsAre(before);
      DistinctAppend(LessonIds(before), IdOf(lessons[n]));
      IdsOfMore(before, lessons[n]);
    }
  }

  lemma OrdersAre(lessons: seq<Lesson>)
    ensures Distinct(Orders(lessons)) <==>
            forall a, b :: 0 <= a < b < |lessons| ==> lessons[a].order != lessons[b].order
  {
    var orders := Orders(lessons);
    assert forall a :: 0 <= a < |lessons| ==> orders[a] == lessons[a].order;
  }

  lemma DistinctBoth<T>(s: seq<T>, t: seq<T>)
    ensures Distinct(s + t) <==>
            Distinct(s) && Distinct(t) && forall i, j :: 0 <= i < |s| && 0 <= j < |t| ==> s[i] != t[j]
  {
    var all := s + t;
    assert forall i :: 0 <= i < |s| ==> all[i] == s[i];
    assert forall j :: 0 <= j < |t| ==> all[|s| + j] == t[j];
    if Distinct(all) {
      forall i, j | 0 <= i < j < |s| ensures s[i] != s[j] { assert all[i] != all[j]; }
      forall i, j | 0 <= i < j < |t| ensures t[i] != t[j] { assert all[|s| + i] != all[|s| + j]; }
      forall i, j | 0 <= i < |s| && 0 <= j < |t| ensures s[i] != t[j] { assert all[i] != all[|s| + j]; }
    }
    if Distinct(s) && Distinct(t) && forall i, j :: 0 <= i < |s| && 0 <= j < |t| ==> s[i] != t[j] {
      forall i, j | 0 <= i < j < |all| ensures all[i] != all[j] {
        if j >= |s| { assert all[j] == t[j - |s|]; if i >= |s| { assert all[i] == t[i - |s|]; } }
      }
    }
  }

  /** The identifiers of one lesson. */
  lemma OwnIdents(l: Lesson)
    ensures var own := Idents(l.practice) + Idents(l.quiz);
            (forall x :: x in own <==> HasOwn(l, x)) && (Distinct(own) <==> OwnDiffer(l))
  {
    var p, q := Idents(l.practice), Idents(l.quiz);
    DistinctBoth(p, q);
    assert forall j :: 0 <= j < |p| ==> p[j] == SetIn(l, Practice)[j].ident;
    assert forall j :: 0 <= j < |q| ==> q[j] == SetIn(l, Quiz)[j].ident;
  }

  ghost predicate HasIdent(lessons: seq<Lesson>, x: string) {
    exists q :: IsAsked(lessons, q) && QuestionAt(lessons, q).ident == x
  }

  lemma AskedOfMore(before: seq<Lesson>, l: Lesson, q: Asked)
    ensures IsAsked(before + [l], q) <==> if q.lesson == |before| then q.place < |SetIn(l, q.kind)|
                                          else IsAsked(before, q)
    ensures IsAsked(before + [l], q) ==>
              QuestionAt(before + [l], q) == if q.lesson == |before| then SetIn(l, q.kind)[q.place]
                                             else QuestionAt(before, q)
  {
  }

  ghost predicate HasOwn(l: Lesson, x: string) {
    exists kind, j: nat :: j < |SetIn(l, kind)| && SetIn(l, kind)[j].ident == x
  }

  ghost predicate OwnDiffer(l: Lesson) {
    forall k, i: nat, k', j: nat :: i < |SetIn(l, k)| && j < |SetIn(l, k')| && (k, i) != (k', j) ==>
      SetIn(l, k)[i].ident != SetIn(l, k')[j].ident
  }

  lemma AskedOfAll(before: seq<Lesson>, l: Lesson)
    ensures forall q: Asked :: q.lesson == |before| ==>
              (IsAsked(before + [l], q) <==> q.place < |SetIn(l, q.kind)|) &&
              (IsAsked(before + [l], q) ==> QuestionAt(before + [l], q) == SetIn(l, q.kind)[q.place])
    ensures forall q: Asked :: q.lesson != |before| ==>
              (IsAsked(before + [l], q) <==> IsAsked(before, q)) &&
              (IsAsked(before + [l], q) ==> QuestionAt(before + [l], q) == QuestionAt(before, q))
    ensures forall q :: IsAsked(before, q) ==> q.lesson < |before|
  {
    hide IsAsked, QuestionAt, SetIn;
    forall q: Asked
      ensures q.lesson == |before| ==>
                (IsAsked(before + [l], q) <==> q.place < |SetIn(l, q.kind)|) &&
                (IsAsked(before + [l], q) ==> QuestionAt(before + [l], q) == SetIn(l, q.kind)[q.place])
      ensures q.lesson != |before| ==>
                (IsAsked(before + [l], q) <==> IsAsked(before, q)) &&
                (IsAsked(before + [l], q) ==> QuestionAt(before + [l], q) == QuestionAt(before, q))
      ensures IsAsked(before, q) ==> q.lesson < |before|
    {
      AskedOfMore(before, l, q);
      AskedWithin(before, q);
    }
  }

  lemma MoreIdents(before: seq<Lesson>, l: Lesson, x: string)
    ensures HasIdent(before + [l], x) <==> HasIdent(before, x) || HasOwn(l, x)
  {
    var all, n := before + [l], |before|;
    AskedOfAll(before, l);
    hide IsAsked, QuestionAt, SetIn;
    if kind, j: nat :| j < |SetIn(l, kind)| && SetIn(l, kind)[j].ident == x {
      assert QuestionAt(all, Asked(n, kind, j)).ident == x;
    }
    if q :| IsAsked(before, q) && QuestionAt(before, q).ident == x {
      assert QuestionAt(all, q).ident == x;
    }
  }

  lemma AllDiffer(before: seq<Lesson>, l: Lesson)
    requires QuestionsDiffer(before + [l])
    ensures QuestionsDiffer(before) && OwnDiffer(l) && forall x :: HasOwn(l, x) ==> !HasIdent(before, x)
  {
    var all, n := before + [l], |before|;
    AskedOfAll(before, l);
    hide IsAsked, QuestionAt, SetIn;
    forall k, i: nat, k', j: nat | i < |SetIn(l, k)| && j < |SetIn(l, k')| && (k, i) != (k', j)
      ensures SetIn(l, k)[i].ident != SetIn(l, k')[j].ident
    {
      assert QuestionAt(all, Asked(n, k, i)).ident != QuestionAt(all, Asked(n, k', j)).ident;
    }
    forall x | HasOwn(l, x) ensures !HasIdent(before, x) {
      var kind, j: nat :| j < |SetIn(l, kind)| && SetIn(l, kind)[j].ident == x;
      assert QuestionAt(all, Asked(n, kind, j)).ident == x;
      forall q | IsAsked(before, q) ensures QuestionAt(before, q).ident != x {
        assert QuestionAt(all, q).ident != QuestionAt(all, Asked(n, kind, j)).ident;
      }
    }
  }

  lemma MoreDiffer(before: seq<Lesson>, l: Lesson, p: Asked, q: Asked)
    requires QuestionsDiffer(before) && OwnDiffer(l) && forall x :: HasOwn(l, x) ==> !HasIdent(before, x)
    requires IsAsked(before + [l], p) && IsAsked(before + [l], q) && p != q
    ensures QuestionAt(before + [l], p).ident != QuestionAt(before + [l], q).ident
  {
    AskedOfAll(before, l);
    hide IsAsked, QuestionAt, SetIn;
    var n := |before|;
    if p.lesson == n && q.lesson == n {
      assert (p.kind, p.place) != (q.kind, q.place);
    } else if p.lesson == n {
      assert HasOwn(l, SetIn(l, p.kind)[p.place].ident) && HasIdent(before, QuestionAt(before, q).ident);
    } else if q.lesson == n {
      assert HasOwn(l, SetIn(l, q.kind)[q.place].ident) && HasIdent(before, QuestionAt(before, p).ident);
    }
  }

  lemma IdentsOfMore(before: seq<Lesson>, l: Lesson)
    ensures QuestionsDiffer(before + [l]) <==>
            QuestionsDiffer(before) && OwnDiffer(l) && forall x :: HasOwn(l, x) ==> !HasIdent(before, x)
  {
    hide IsAsked, QuestionAt, HasOwn, HasIdent, OwnDiffer;
    if QuestionsDiffer(before + [l]) { AllDiffer(before, l); }
    if QuestionsDiffer(before) && OwnDiffer(l) && forall x :: HasOwn(l, x) ==> !HasIdent(before, x) {
      forall p, q | IsAsked(before + [l], p) && IsAsked(before + [l], q) && p != q
        ensures QuestionAt(before + [l], p).ident != QuestionAt(before + [l], q).ident
      {
        MoreDiffer(before, l, p, q);
      }
    }
  }

  lemma AskedWithin(lessons: seq<Lesson>, q: Asked)
    ensures IsAsked(lessons, q) ==> q.lesson < |lessons|
  {
  }

  lemma {:induction false} IdentsAre(lessons: seq<Lesson>)
    ensures forall x :: x in AllIdents(lessons) <==> HasIdent(lessons, x)
    ensures Distinct(AllIdents(lessons)) <==> QuestionsDiffer(lessons)
  {
    if lessons != [] {
      hide HasIdent, QuestionsDiffer, Distinct, Idents;
      var n := |lessons| - 1;
      var before, l := lessons[..n], lessons[n];
      assert lessons == before + [l];
      IdentsAre(before);
      IdentsAreMore(before, l, AllIdents(before));
      assert AllIdents(lessons) == AllIdents(before) + (Idents(l.practice) + Idents(l.quiz));
    }
  }

  lemma IdentsAreMore(before: seq<Lesson>, l: Lesson, idents: seq<string>)
    requires forall x :: x in idents <==> HasIdent(before, x)
    requires Distinct(idents) <==> QuestionsDiffer(before)
    ensures var all := idents + (Idents(l.practice) + Idents(l.quiz));
            (forall x :: x in all <==> HasIdent(before + [l], x)) && (Distinct(all) <==> QuestionsDiffer(before + [l]))
  {
    hide HasIdent, HasOwn, OwnDiffer, QuestionsDiffer, Distinct, Idents;
    IdentsOfMore(before, l);
    OwnIdents(l);
    var own := Idents(l.practice) + Idents(l.quiz);
    forall x ensures HasIdent(before + [l], x) <==> HasIdent(before, x) || HasOwn(l, x) {
      MoreIdents(before, l, x);
    }
    DistinctBoth(idents, own);
    InBoth(idents, own);
  }

  lemma InBoth<T>(s: seq<T>, t: seq<T>)
    ensures (forall i, j :: 0 <= i < |s| && 0 <= j < |t| ==> s[i] != t[j]) <==> forall x :: x in t ==> x !in s
  {
    if forall x :: x in t ==> x !in s {
      forall i, j | 0 <= i < |s| && 0 <= j < |t| ensures s[i] != t[j] {
        assert s[i] in s && t[j] in t;
      }
    }
  }

  // ---- the seed's ids ----------------------------------------------------------------------------

  ghost function OwnDrawing(l: Lesson, n: nat): set<Asked> {
    (set j: nat | j < |l.practice| :: Asked(n, Practice, j)) + (set j: nat | j < |l.quiz| :: Asked(n, Quiz, j))
  }

  lemma {:induction false} PlacesAre(n: nat, kind: Kind, k: nat)
    ensures |set j: nat | j < k :: Asked(n, kind, j)| == k
  {
    if k > 0 {
      PlacesAre(n, kind, k - 1);
      assert (set j: nat | j < k :: Asked(n, kind, j)) == (set j: nat | j < k - 1 :: Asked(n, kind, j)) +
             {Asked(n, kind, k - 1)};
    }
  }

  lemma OwnDrawingIs(l: Lesson, n: nat)
    ensures |OwnDrawing(l, n)| == |l.practice| + |l.quiz|
  {
    PlacesAre(n, Practice, |l.practice|);
    PlacesAre(n, Quiz, |l.quiz|);
    var p, q := (set j: nat | j < |l.practice| :: Asked(n, Practice, j)),
        (set j: nat | j < |l.quiz| :: Asked(n, Quiz, j));
    assert p !! q;
  }

  lemma {:induction false} DrawingIs(lessons: seq<Lesson>)
    ensures |Drawing(lessons)| == Pooled(lessons)
  {
    if lessons != [] {
      hide Drawing, OwnDrawing;
      var n := |lessons| - 1;
      var before, l := lessons[..n], lessons[n];
      assert lessons == before + [l];
      DrawingIs(before);
      OwnDrawingIs(l, n);
      DrawingOfMore(before, l);
    } else {
      assert Drawing(lessons) == {};
    }
  }

  lemma DrawingOfMore(before: seq<Lesson>, l: Lesson)
    ensures Drawing(before + [l]) == Drawing(before) + if l.id.Some? then OwnDrawing(l, |before|) else {}
    ensures Drawing(before) !! OwnDrawing(l, |before|)
  {
    forall q: Asked
      ensures q in Drawing(before + [l]) <==> q in Drawing(before) || (l.id.Some? && q in OwnDrawing(l, |before|))
    {
      assert q in Drawing(before) <==>
             q.lesson < |before| && before[q.lesson].id.Some? && q.place < |SetIn(before[q.lesson], q.kind)|;
      assert q in OwnDrawing(l, |before|) <==> q.lesson == |before| && q.place < |SetIn(l, q.kind)|;
    }
  }

  // ---- exactly which files are acceptable --------------------------------------------------------

  /**
   A file is accepted exactly when its names are good, its lessons and questions are, no two share what they must not,
   and the lessons with an id ask at most the seed's seven questions.
   */
  lemma AcceptableExactly(c: Content)
    ensures Acceptable(c) <==>
            IsInBoth(c.programme) && HasNoBreak(c.programme.en) && HasNoBreak(c.programme.km) &&
            IsInBoth(c.moduleName) &&
            1 <= c.number <= 9007199254740991 && c.lessons != [] &&
            (forall a :: 0 <= a < |c.lessons| ==> IsGoodLesson(c.number, c.lessons[a])) &&
            (forall q :: IsAsked(c.lessons, q) ==> IsGoodQuestion(QuestionAt(c.lessons, q))) &&
            LessonsDiffer(c.lessons) && QuestionsDiffer(c.lessons) && |Drawing(c.lessons)| <= 7
  {
    hide BilingualOk, IsInBoth, IsOneLine, HasNoBreak, IsGoodLesson, IsGoodQuestion, LessonsDiffer, QuestionsDiffer,
         Drawing, Pooled,
         LessonsOk;
    BothAre(c.programme);
    BothAre(c.moduleName);
    BreaksAre(c.programme.en);
    BreaksAre(c.programme.km);
    if 1 <= c.number {
      LessonsAre(c.number, c.lessons);
      DrawingIs(c.lessons);
      if LessonsOk(c.number, c.lessons) && c.number != 1 { NoneDraws(c.number, c.lessons); }
    }
  }

  lemma NoneDraws(m: nat, lessons: seq<Lesson>)
    requires LessonsOk(m, lessons) && m != 1
    ensures Drawing(lessons) == {}
  {
    assert forall a :: 0 <= a < |lessons| ==> LessonOk(m, lessons[a]);
  }

  lemma LessonsAre(m: nat, lessons: seq<Lesson>)
    ensures LessonsOk(m, lessons) <==>
            (forall a :: 0 <= a < |lessons| ==> IsGoodLesson(m, lessons[a])) &&
            (forall q :: IsAsked(lessons, q) ==> IsGoodQuestion(QuestionAt(lessons, q))) &&
            LessonsDiffer(lessons) && QuestionsDiffer(lessons)
  {
    hide LessonOk, IsGoodLesson, IsGoodQuestion, QuestionsDiffer, Distinct, Orders, Files, LessonIds, AllIdents;
    OrdersAre(lessons);
    FilesAre(lessons);
    IdsAre(lessons);
    IdentsAre(lessons);
    forall a | 0 <= a < |lessons|
      ensures LessonOk(m, lessons[a]) <==> IsGoodLesson(m, lessons[a]) && AreGood(lessons[a])
    {
      LessonIs(m, lessons[a]);
    }
    QuestionsAre(lessons);
    DifferIs(lessons);
  }

  lemma DifferIs(lessons: seq<Lesson>)
    ensures LessonsDiffer(lessons) <==>
            FilesDiffer(lessons) &&
            (forall a, b :: 0 <= a < b < |lessons| ==> lessons[a].order != lessons[b].order) && IdsDiffer(lessons)
  {
  }

  lemma QuestionsAre(lessons: seq<Lesson>)
    ensures (forall q :: IsAsked(lessons, q) ==> IsGoodQuestion(QuestionAt(lessons, q))) <==>
            forall a :: 0 <= a < |lessons| ==> AreGood(lessons[a])
  {
    hide IsGoodQuestion;
    if forall q :: IsAsked(lessons, q) ==> IsGoodQuestion(QuestionAt(lessons, q)) {
      forall a, kind, j: nat | 0 <= a < |lessons| && j < |SetIn(lessons[a], kind)|
        ensures IsGoodQuestion(SetIn(lessons[a], kind)[j])
      {
        assert IsAsked(lessons, Asked(a, kind, j));
      }
    }
  }
}
