/** A content file of one module of the programme, and the check it must pass before anything is planned. */
module ImportContent {
  import opened Values
  import opened ImportSlots

  datatype Bilingual = Bilingual(en: string, km: string)

  datatype Choice = Choice(text: Bilingual, correct: bool)

  datatype Feedback = Feedback(good: Option<Bilingual>, bad: Option<Bilingual>)

  datatype Question = Question(ident: string, text: Bilingual, choices: seq<Choice>, feedback: Option<Feedback>)

  datatype Video = Keep(ref: string) | File(ref: string, filename: string, source: Option<string>)

  /** A lesson. Only Module 1's fixed lessons have an id; `order` is the place, and the slot, of every other. */
  datatype Lesson = Lesson(id: Option<Id>, order: int, name: Bilingual, video: Video, practice: seq<Question>,
                           quiz: seq<Question>)

  datatype Content = Content(programme: Bilingual, number: int, moduleName: Bilingual, lessons: seq<Lesson>)

  const MAX_TRANSLATION_BYTES := 65535
  const MAX_SAFE_INTEGER := 9007199254740991
  const MIN_OPTIONS := 2
  const MAX_OPTIONS := 8

  // ---- texts -------------------------------------------------------------------------------------

  predicate IsSpace(c: char) {
    c == ' ' || '\t' <= c <= '\r' || c == '\U{a0}' || c == '\U{1680}' || '\U{2000}' <= c <= '\U{200a}' ||
    c == '\U{2028}' || c == '\U{2029}' || c == '\U{202f}' || c == '\U{205f}' || c == '\U{3000}' || c == '\U{feff}'
  }

  /** Something is left once the text is trimmed. */
  predicate IsText(s: string) {
    exists i :: 0 <= i < |s| && !IsSpace(s[i])
  }

  function BytesOf(c: char): nat {
    if c < '\U{80}' then 1 else if c < '\U{800}' then 2 else if c < '\U{10000}' then 3 else 4
  }

  function ByteLength(s: string): nat {
    if s == "" then 0 else BytesOf(s[0]) + ByteLength(s[1..])
  }

  predicate BilingualOk(b: Bilingual) {
    IsText(b.en) && IsText(b.km) && ByteLength(b.km) <= MAX_TRANSLATION_BYTES
  }

  predicate IsOneLine(s: string) {
    forall c :: c in s ==> c != '\n' && c != '\r' && c != '\U{2028}' && c != '\U{2029}'
  }

  predicate IsWordChar(c: char) {
    'a' <= c <= 'z' || 'A' <= c <= 'Z' || '0' <= c <= '9' || c == '-'
  }

  predicate IsFilename(s: string) {
    |s| > 4 && s[|s| - 4..] == ".mp4" && forall c :: c in s[..|s| - 4] ==> IsWordChar(c) || c == '_'
  }

  predicate IsIdent(s: string) {
    |s| > 5 && s[..5] == "DCRS-" && forall c :: c in s[5..] ==> IsWordChar(c)
  }

  // ---- what is acceptable ------------------------------------------------------------------------

  function CorrectChoices(choices: seq<Choice>): nat {
    if choices == [] then 0 else CorrectChoices(choices[..|choices| - 1]) + if choices[|choices| - 1].correct then 1
                                                                            else 0
  }

  predicate MessageOk(m: Option<Bilingual>) {
    m.Some? ==> BilingualOk(m.value)
  }

  predicate QuestionOk(q: Question) {
    IsIdent(q.ident) && BilingualOk(q.text) && MIN_OPTIONS <= |q.choices| <= MAX_OPTIONS &&
    (q.feedback.Some? ==> MessageOk(q.feedback.value.good) && MessageOk(q.feedback.value.bad)) &&
    (forall o :: o in q.choices ==> BilingualOk(o.text)) && CorrectChoices(q.choices) == 1
  }

  predicate SetOk(questions: seq<Question>) {
    |questions| <= SETS_PER_LESSON && forall q :: q in questions ==> QuestionOk(q)
  }

  /** A lesson of module `m` sits in one of the module's slots; a fixed lesson may have any order from 1. */
  predicate PlaceOk(m: nat, l: Lesson) {
    if l.id.Some? then m == 1 && l.id.value.Seed? && 0x08 <= l.id.value.n <= 0x0b && l.order >= 1
    else FirstFurther(m) <= l.order <= LESSONS_PER_MODULE
  }

  predicate VideoOk(v: Video) {
    IsText(v.ref) && (v.File? ==> IsFilename(v.filename) && (v.source.Some? ==> IsText(v.source.value)))
  }

  predicate LessonOk(m: nat, l: Lesson) {
    PlaceOk(m, l) && BilingualOk(l.name) && VideoOk(l.video) && SetOk(l.practice) && SetOk(l.quiz)
  }

  function FileOf(l: Lesson): seq<string> {
    if l.video.File? then [l.video.filename] else []
  }

  function IdOf(l: Lesson): seq<Id> {
    if l.id.Some? then [l.id.value] else []
  }

  function Idents(questions: seq<Question>): seq<string> {
    seq(|questions|, i requires 0 <= i < |questions| => questions[i].ident)
  }

  function Orders(lessons: seq<Lesson>): seq<int> {
    seq(|lessons|, i requires 0 <= i < |lessons| => lessons[i].order)
  }

  function Files(lessons: seq<Lesson>): seq<string> {
    if lessons == [] then [] else Files(lessons[..|lessons| - 1]) + FileOf(lessons[|lessons| - 1])
  }

  function LessonIds(lessons: seq<Lesson>): seq<Id> {
    if lessons == [] then [] else LessonIds(lessons[..|lessons| - 1]) + IdOf(lessons[|lessons| - 1])
  }

  function AllIdents(lessons: seq<Lesson>): seq<string> {
    if lessons == [] then []
    else AllIdents(lessons[..|lessons| - 1]) + Idents(lessons[|lessons| - 1].practice) +
         Idents(lessons[|lessons| - 1].quiz)
  }

  /** How many questions draw from the seed's seven ids: those of the lessons with a fixed id. */
  function Pooled(lessons: seq<Lesson>): nat {
    if lessons == [] then 0
    else
      var l := lessons[|lessons| - 1];
      Pooled(lessons[..|lessons| - 1]) + if l.id.Some? then |l.practice| + |l.quiz| else 0
  }

  ghost predicate LessonsOk(m: nat, lessons: seq<Lesson>) {
    (forall l :: l in lessons ==> LessonOk(m, l)) &&
    Distinct(Orders(lessons)) && Distinct(Files(lessons)) && Distinct(LessonIds(lessons)) &&
    Distinct(AllIdents(lessons))
  }

  /** A file that `validateContent` returns rather than refuses. */
  ghost predicate Acceptable(c: Content) {
    BilingualOk(c.programme) && IsOneLine(c.programme.en) && IsOneLine(c.programme.km) &&
    1 <= c.number <= MAX_SAFE_INTEGER && BilingualOk(c.moduleName) &&
    c.lessons != [] && LessonsOk(c.number, c.lessons) && (c.number == 1 ==> Pooled(c.lessons) <= |POOL|)
  }

  // ---- the check ---------------------------------------------------------------------------------

  lemma DistinctSnoc<T>(s: seq<T>, x: T)
    ensures Distinct(s + [x]) <==> Distinct(s) && x !in s
  {
    if Distinct(s + [x]) {
      forall i, j | 0 <= i < j < |s| ensures s[i] != s[j] {
        assert (s + [x])[i] != (s + [x])[j];
      }
      forall i | 0 <= i < |s| ensures s[i] != x {
        assert (s + [x])[i] != (s + [x])[|s|];
      }
    }
  }

  /** What was seen so far: complete as long as nothing was wrong. */
  ghost predicate Seen<T(!new)>(seen: set<T>, all: seq<T>) {
    forall x :: x in seen <==> x in all
  }

  method CheckQuestion(q: Question) returns (ok: bool)
    ensures ok <==> QuestionOk(q)
  {
    ok := IsIdent(q.ident) && BilingualOk(q.text) && MIN_OPTIONS <= |q.choices| <= MAX_OPTIONS;
    if q.feedback.Some? && !(MessageOk(q.feedback.value.good) && MessageOk(q.feedback.value.bad)) { ok := false; }
    var correct, textsOk := 0, true;
    for k := 0 to |q.choices|
      invariant correct == CorrectChoices(q.choices[..k])
      invariant textsOk <==> forall o :: o in q.choices[..k] ==> BilingualOk(o.text)
    {
      assert q.choices[..k + 1] == q.choices[..k] + [q.choices[k]];
      assert q.choices[..k + 1][..k] == q.choices[..k];
      if q.choices[k].correct { correct := correct + 1; }
      if !BilingualOk(q.choices[k].text) { textsOk := false; }
    }
    assert q.choices[..|q.choices|] == q.choices;
    ok := ok && textsOk && correct == 1;
  }

  /** One set of a lesson: its questions, and no identifier used before. Unless `clean`, something was wrong already. */
  method CheckSet(questions: seq<Question>, seen: set<string>, ghost before: seq<string>, ghost clean: bool)
      returns (ok: bool, idents: set<string>)
    requires clean ==> Seen(seen, before) && Distinct(before)
    ensures clean ==> (ok <==> SetOk(questions) && Distinct(before + Idents(questions)))
    ensures clean && ok ==> Seen(idents, before + Idents(questions))
  {
    hide QuestionOk;
    ok := |questions| <= SETS_PER_LESSON;
    idents := seen;
    assert before + Idents(questions[..0]) == before;
    for j := 0 to |questions|
      invariant clean ==>
                  (ok <==>
                   |questions| <= SETS_PER_LESSON && (forall q :: q in questions[..j] ==> QuestionOk(q)) &&
                   Distinct(before + Idents(questions[..j])))
      invariant clean && ok ==> Seen(idents, before + Idents(questions[..j]))
    {
      assert questions[..j + 1] == questions[..j] + [questions[j]];
      assert before + Idents(questions[..j + 1]) == (before + Idents(questions[..j])) + [questions[j].ident];
      DistinctSnoc(before + Idents(questions[..j]), questions[j].ident);
      var good := CheckQuestion(questions[j]);
      if !good || questions[j].ident in idents { ok := false; }
      idents := idents + {questions[j].ident};
    }
    assert questions[..|questions|] == questions;
  }

  lemma DistinctAppend<T>(s: seq<T>, some: seq<T>)
    requires |some| <= 1
    ensures Distinct(s + some) <==> Distinct(s) && forall x :: x in some ==> x !in s
  {
    if |some| == 1 {
      DistinctSnoc(s, some[0]);
      assert s + some == s + [some[0]];
    } else {
      assert s + some == s;
    }
  }

  lemma LessonsOkStep(m: nat, lessons: seq<Lesson>, i: nat)
    requires i < |lessons|
    ensures LessonsOk(m, lessons[..i + 1]) <==>
              LessonsOk(m, lessons[..i]) && LessonOk(m, lessons[i]) && lessons[i].order !in Orders(lessons[..i]) &&
              (forall f :: f in FileOf(lessons[i]) ==> f !in Files(lessons[..i])) &&
              (forall id :: id in IdOf(lessons[i]) ==> id !in LessonIds(lessons[..i])) &&
              Distinct(AllIdents(lessons[..i]) + Idents(lessons[i].practice) + Idents(lessons[i].quiz))
    ensures Orders(lessons[..i + 1]) == Orders(lessons[..i]) + [lessons[i].order]
    ensures Files(lessons[..i + 1]) == Files(lessons[..i]) + FileOf(lessons[i])
    ensures LessonIds(lessons[..i + 1]) == LessonIds(lessons[..i]) + IdOf(lessons[i])
    ensures AllIdents(lessons[..i + 1]) == AllIdents(lessons[..i]) + Idents(lessons[i].practice) +
            Idents(lessons[i].quiz)
    ensures Pooled(lessons[..i + 1]) == Pooled(lessons[..i]) + if lessons[i].id.Some?
            then |lessons[i].practice| + |lessons[i].quiz| else 0
  {
    hide LessonOk;
    var before, l := lessons[..i], lessons[i];
    assert lessons[..i + 1] == before + [l] && (before + [l])[..|before + [l]| - 1] == before;
    assert Orders(before + [l]) == Orders(before) + [l.order];
    DistinctSnoc(Orders(before), l.order);
    DistinctAppend(Files(before), FileOf(l));
    DistinctAppend(LessonIds(before), IdOf(l));
    var idents := AllIdents(before);
    var more := Idents(l.practice) + Idents(l.quiz);
    assert idents + Idents(l.practice) + Idents(l.quiz) == idents + more;
    if Distinct(idents + more) {
      forall a, b | 0 <= a < b < |idents| ensures idents[a] != idents[b] {
        assert (idents + more)[a] != (idents + more)[b];
      }
    }
  }

  /** What the check has seen so far, to find a second use of it. */
  datatype SoFar = SoFar(orders: set<int>, ids: set<Id>, files: set<string>, idents: set<string>)

  ghost predicate SeenAll(s: SoFar, lessons: seq<Lesson>) {
    Seen(s.orders, Orders(lessons)) && Seen(s.ids, LessonIds(lessons)) && Seen(s.files, Files(lessons)) &&
    Seen(s.idents, AllIdents(lessons))
  }

  /** One lesson against the lessons before it. */
  method CheckLesson(m: nat, l: Lesson, s: SoFar, ghost lessons: seq<Lesson>, ghost i: nat, ghost clean: bool)
      returns (ok: bool, s': SoFar)
    requires i < |lessons| && l == lessons[i]
    requires clean ==> LessonsOk(m, lessons[..i]) && SeenAll(s, lessons[..i])
    ensures clean ==> (ok <==> LessonsOk(m, lessons[..i + 1]))
    ensures clean && ok ==> SeenAll(s', lessons[..i + 1])
  {
    hide BilingualOk, PlaceOk, VideoOk, SetOk, LessonsOk;
    LessonsOkStep(m, lessons, i);
    ghost var before := AllIdents(lessons[..i]);
    if clean { LessonsOkIdents(m, lessons[..i]); }
    var practiceOk, afterPractice := CheckSet(l.practice, s.idents, before, clean);
    var quizOk, afterQuiz := CheckSet(l.quiz, afterPractice, before + Idents(l.practice), clean && practiceOk);
    if clean && Distinct(before + Idents(l.practice) + Idents(l.quiz)) {
      DistinctPrefix(before + Idents(l.practice), Idents(l.quiz));
    }
    ok := practiceOk && quizOk && BilingualOk(l.name) && VideoOk(l.video);
    if !PlaceOk(m, l) || l.order in s.orders { ok := false; }
    if l.id.Some? && l.id.value in s.ids { ok := false; }
    if l.video.File? && l.video.filename in s.files { ok := false; }
    s' := SoFar(s.orders + {l.order}, s.ids + (set id | id in IdOf(l)), s.files + (set f | f in FileOf(l)), afterQuiz);
  }

  /** `validateContent`: no problem is found exactly in an acceptable file. */
  method Validate(c: Content) returns (problems: nat)
    ensures problems == 0 <==> Acceptable(c)
  {
    hide BilingualOk, IsOneLine, LessonsOk, SeenAll;
    problems := 0;
    if !BilingualOk(c.programme) { problems := problems + 1; }
    if !IsOneLine(c.programme.en) || !IsOneLine(c.programme.km) { problems := problems + 1; }
    var m: nat := 1;
    if c.number < 1 || c.number > MAX_SAFE_INTEGER { problems := problems + 1; } else { m := c.number; }
    if !BilingualOk(c.moduleName) { problems := problems + 1; }
    if c.lessons == [] { return problems + 1; }
    ghost var headOk := problems == 0;
    var s := SoFar({}, {}, {}, {});
    var pooled := 0;
    NoLessonsAreOk(m, c.lessons[..0], s);
    for i := 0 to |c.lessons|
      invariant problems == 0 <==> headOk && LessonsOk(m, c.lessons[..i])
      invariant problems == 0 ==> SeenAll(s, c.lessons[..i])
      invariant pooled == Pooled(c.lessons[..i])
    {
      LessonsOkStep(m, c.lessons, i);
      var l := c.lessons[i];
      var ok, s' := CheckLesson(m, l, s, c.lessons, i, problems == 0);
      if !ok { problems := problems + 1; }
      s := s';
      if l.id.Some? { pooled := pooled + |l.practice| + |l.quiz|; }
    }
    assert c.lessons[..|c.lessons|] == c.lessons;
    if m == 1 && pooled > |POOL| { problems := problems + 1; }
  }

  lemma NoLessonsAreOk(m: nat, lessons: seq<Lesson>, s: SoFar)
    requires lessons == [] && s == SoFar({}, {}, {}, {})
    ensures LessonsOk(m, lessons) && SeenAll(s, lessons)
  {
  }

  lemma LessonsOkIdents(m: nat, lessons: seq<Lesson>)
    requires LessonsOk(m, lessons)
    ensures Distinct(AllIdents(lessons))
  {
  }

  lemma DistinctPrefix<T>(s: seq<T>, t: seq<T>)
    requires Distinct(s + t)
    ensures Distinct(s)
  {
    forall i, j | 0 <= i < j < |s| ensures s[i] != s[j] {
      assert (s + t)[i] != (s + t)[j];
    }
  }
}
