/**
 * The course dashboard (src/components/Course.tsx): the course aggregate it
 * fetches and the statistics and view state it derives from it.
 * Raw lesson dates are timestamps; `None` stands for an absent, empty or
 * unparseable `date_raw`.
 */
module CourseContent {
  import opened Text
  import opened Wrappers
  import opened Duration

  datatype MaterialKind = Tema | Bibliografia | Recurso

  datatype Material = Material(id: int, titulo: string, linkDrive: string, tipo: MaterialKind)

  datatype Lesson = Lesson(
    id: int,
    title: string,
    duration: string,
    hasResources: bool,
    date: string,
    dateRaw: Option<int>,
    completed: bool,
    locked: bool,
    linkZoom: string,
    materiales: seq<Material>)

  datatype CourseModule = CourseModule(
    id: int,
    title: string,
    progress: int,
    completed: bool,
    locked: bool,
    lessons: seq<Lesson>)

  datatype Course = Course(id: int, titulo: string, modules: seq<CourseModule>)

  const NoUpcomingClass: string := "No hay clases próximamente"

  /** Every lesson of every module, in module order then lesson order. */
  function AllLessons(ms: seq<CourseModule>): seq<Lesson> {
    if |ms| == 0 then [] else AllLessons(ms[..|ms| - 1]) + ms[|ms| - 1].lessons
  }

  lemma {:induction false} AllLessonsAppend(ms: seq<CourseModule>, m: CourseModule)
    ensures AllLessons(ms + [m]) == AllLessons(ms) + m.lessons
  {
    assert (ms + [m])[..|ms|] == ms;
  }

  // ---------------------------------------------------------------------------
  // calculateTotalDuration

  /** Minutes of a list of lessons, each read with the loose duration parser. */
  function SumMinutes(ls: seq<Lesson>): nat {
    if |ls| == 0 then 0 else SumMinutes(ls[..|ls| - 1]) + ParseMinutes(ls[|ls| - 1].duration)
  }

  lemma {:induction false} SumMinutesAppend(a: seq<Lesson>, b: seq<Lesson>)
    ensures SumMinutes(a + b) == SumMinutes(a) + SumMinutes(b)
    decreases |b|
  {
    if |b| > 0 {
      SumMinutesAppend(a, b[..|b| - 1]);
      assert (a + b)[..|a + b| - 1] == a + b[..|b| - 1];
    } else {
      assert a + b == a;
    }
  }

  /**
   * `calculateTotalDuration`: sums the minutes of every lesson of every
   * module, locked ones included, and renders the total. The rendering
   * reads back as that total.
   */
  method CalculateTotalDuration(modules: seq<CourseModule>) returns (text: string)
    ensures ParseMinutes(text) == SumMinutes(AllLessons(modules))
    ensures text == FormatCourse(SumMinutes(AllLessons(modules)))
  {
    var totalMinutes := 0;
    var i := 0;
    while i < |modules|
      invariant 0 <= i <= |modules|
      invariant totalMinutes == SumMinutes(AllLessons(modules[..i]))
    {
      var lessons := modules[i].lessons;
      var j := 0;
      while j < |lessons|
        invariant 0 <= j <= |lessons|
        invariant totalMinutes == SumMinutes(AllLessons(modules[..i])) + SumMinutes(lessons[..j])
      {
        SumMinutesAppend(lessons[..j], [lessons[j]]);
        assert lessons[..j + 1] == lessons[..j] + [lessons[j]];
        totalMinutes := totalMinutes + ParseMinutes(lessons[j].duration);
        j := j + 1;
      }
      assert lessons[..j] == lessons;
      assert modules[..i + 1] == modules[..i] + [modules[i]];
      AllLessonsAppend(modules[..i], modules[i]);
      SumMinutesAppend(AllLessons(modules[..i]), lessons);
      i := i + 1;
    }
    assert modules[..i] == modules;
    text := FormatCourse(totalMinutes);
    FormatCourseRoundTrip(totalMinutes);
  }

  // ---------------------------------------------------------------------------
  // calculateProgress

  function CountCompleted(ls: seq<Lesson>): (c: nat)
    ensures c <= |ls|
  {
    if |ls| == 0 then 0 else CountCompleted(ls[..|ls| - 1]) + (if ls[|ls| - 1].completed then 1 else 0)
  }

  lemma {:induction false} CountCompletedAll(ls: seq<Lesson>)
    ensures CountCompleted(ls) == |ls| <==> forall i :: 0 <= i < |ls| ==> ls[i].completed
  {
    if |ls| > 0 {
      CountCompletedAll(ls[..|ls| - 1]);
      assert forall i :: 0 <= i < |ls| - 1 ==> ls[..|ls| - 1][i] == ls[i];
    }
  }

  lemma MulLeMono(t: int, a: int, b: int)
    requires t >= 0 && a <= b
    ensures t * a <= t * b
  {
    assert t * b - t * a == t * (b - a);
  }

  /**
   * `Math.round(completed / total * 100)` computed exactly: the nearest
   * integer to 100·c/t, halves rounding up.
   */
  function RoundPercent(c: nat, t: nat): (r: nat)
    requires 0 < t && c <= t
    ensures r <= 100
    ensures 2 * t * r <= 200 * c + t < 2 * t * r + 2 * t
  {
    var a := 200 * c + t;
    var b := 2 * t;
    var q := a / b;
    assert a == b * q + a % b && 0 <= a % b < b;
    assert q <= 100 by {
      if q >= 101 { MulLeMono(b, 101, q); }
    }
    q
  }

  /** The percentage is 100 exactly when 100·c/t is at least 99.5. */
  lemma RoundPercentHundred(c: nat, t: nat)
    requires 0 < t && c <= t
    ensures RoundPercent(c, t) == 100 <==> 200 * c >= 199 * t
  {
    var r := RoundPercent(c, t);
    if 200 * c >= 199 * t {
      if r <= 99 { MulLeMono(2 * t, r + 1, 100); }
    }
  }

  /** No lesson completed gives 0, every lesson completed gives 100. */
  lemma RoundPercentEnds(t: nat)
    requires 0 < t
    ensures RoundPercent(0, t) == 0 && RoundPercent(t, t) == 100
  {
    RoundPercentHundred(t, t);
    var r := RoundPercent(0, t);
    if r >= 1 { MulLeMono(2 * t, 1, r); }
  }

  /** `calculateProgress`: "0%" for a course without lessons, otherwise the rounded percentage and "%". */
  function ProgressText(modules: seq<CourseModule>): string {
    var ls := AllLessons(modules);
    if |ls| == 0 then "0%" else NatToString(RoundPercent(CountCompleted(ls), |ls|)) + "%"
  }

  /** The number `ProgressText` shows. */
  function ProgressValue(modules: seq<CourseModule>): nat {
    var ls := AllLessons(modules);
    if |ls| == 0 then 0 else RoundPercent(CountCompleted(ls), |ls|)
  }

  lemma ProgressTextShowsValue(modules: seq<CourseModule>)
    ensures ProgressText(modules) == NatToString(ProgressValue(modules)) + "%"
    ensures ProgressValue(modules) <= 100
  {
    if |AllLessons(modules)| == 0 {
      assert NatToString(0) == "0";
    }
  }

  lemma NatToStringInjective(a: nat, b: nat)
    requires NatToString(a) == NatToString(b)
    ensures a == b
  {
    NatToStringRoundTrip(a);
    NatToStringRoundTrip(b);
  }

  /** The progress text reads "100%" exactly when at least 99.5% of the lessons are completed. */
  lemma ProgressHundredIff(modules: seq<CourseModule>)
    ensures var ls := AllLessons(modules);
      ProgressText(modules) == "100%" <==> |ls| > 0 && 200 * CountCompleted(ls) >= 199 * |ls|
  {
    var ls := AllLessons(modules);
    ProgressTextShowsValue(modules);
    assert NatToString(100) == "100";
    if ProgressText(modules) == "100%" {
      assert NatToString(ProgressValue(modules)) == NatToString(100);
      NatToStringInjective(ProgressValue(modules), 100);
      if |ls| == 0 { assert false; }
      RoundPercentHundred(CountCompleted(ls), |ls|);
    } else if |ls| > 0 && 200 * CountCompleted(ls) >= 199 * |ls| {
      RoundPercentHundred(CountCompleted(ls), |ls|);
      assert false;
    }
  }

  /** A course whose lessons are all completed shows "100%". */
  lemma AllCompletedIsHundred(modules: seq<CourseModule>)
    requires |AllLessons(modules)| > 0
    requires forall l :: l in AllLessons(modules) ==> l.completed
    ensures ProgressText(modules) == "100%"
  {
    var ls := AllLessons(modules);
    CountCompletedAll(ls);
    ProgressHundredIff(modules);
  }

  // ---------------------------------------------------------------------------
  // The certification badge.

  /** As written: "Completado" when the progress text is "100%". */
  function CertificationLabelAsWritten(modules: seq<CourseModule>): string {
    if ProgressText(modules) == "100%" then "Completado" else "En progreso"
  }

  /** A module with 201 lessons of which one is still open. */
  function AlmostDoneModule(): CourseModule {
    var done := Lesson(1, "", "1h", false, "", None, true, false, "", []);
    var open := Lesson(2, "", "1h", false, "", None, false, false, "", []);
    CourseModule(1, "", 0, false, false, seq(200, _ => done) + [open])
  }

  /** 200 of 201 lessons round to "100%", so the badge claims completion while a lesson is still open. */
  lemma CertificationLabelAsWrittenWrong()
    ensures var ms := [AlmostDoneModule()];
      CertificationLabelAsWritten(ms) == "Completado" && exists l :: l in AllLessons(ms) && !l.completed
  {
    var ms := [AlmostDoneModule()];
    var ls := AllLessons(ms);
    assert ls == AlmostDoneModule().lessons by { assert ms[..0] == []; }
    assert |ls| == 201;
    assert ls[..200] == seq(200, _ => ls[0]);
    CountSame(ls[..200]);
    assert ls[..|ls| - 1] == ls[..200];
    assert CountCompleted(ls) == 200;
    ProgressHundredIff(ms);
    assert ls[200] in ls;
  }

  lemma {:induction false} CountSame(ls: seq<Lesson>)
    requires forall i :: 0 <= i < |ls| ==> ls[i].completed
    ensures CountCompleted(ls) == |ls|
  {
    CountCompletedAll(ls);
  }

  /** Corrected: "Completado" exactly when there are lessons and every one is completed. */
  function CertificationLabel(modules: seq<CourseModule>): (r: string)
    ensures r == "Completado" <==>
      |AllLessons(modules)| > 0 && forall l :: l in AllLessons(modules) ==> l.completed
  {
    var ls := AllLessons(modules);
    CountCompletedAll(ls);
    if |ls| > 0 && CountCompleted(ls) == |ls| then "Completado" else "En progreso"
  }

  // ---------------------------------------------------------------------------
  // findNextClass

  /** The lesson-level checks of `findNextClass`: not locked, with a raw date after today. */
  predicate IsCandidate(l: Lesson, today: int) {
    !l.locked && l.dateRaw.Some? && l.dateRaw.value > today
  }

  /** The lessons `findNextClass` considers, in visiting order: module lock, lesson lock, raw date after today. */
  function Candidates(ms: seq<CourseModule>, today: int): (cs: seq<Lesson>)
    ensures forall l :: l in cs ==> IsCandidate(l, today)
  {
    if |ms| == 0 then []
    else
      var m := ms[|ms| - 1];
      Candidates(ms[..|ms| - 1], today) + (if m.locked then [] else FilterCandidates(m.lessons, today))
  }

  function FilterCandidates(ls: seq<Lesson>, today: int): (cs: seq<Lesson>)
    ensures forall l :: l in cs ==> IsCandidate(l, today)
    ensures forall l :: l in ls && IsCandidate(l, today) ==> l in cs
    ensures forall l :: l in cs ==> l in ls
  {
    if |ls| == 0 then []
    else
      var rest := FilterCandidates(ls[..|ls| - 1], today);
      var l := ls[|ls| - 1];
      assert forall x :: x in ls ==> x in ls[..|ls| - 1] || x == l;
      if IsCandidate(l, today) then rest + [l] else rest
  }

  /** A lesson counts as a candidate exactly when its module is unlocked and it passes the lesson checks. */
  lemma {:induction false} CandidatesExact(ms: seq<CourseModule>, today: int, l: Lesson)
    ensures l in Candidates(ms, today) <==>
      exists i :: 0 <= i < |ms| && !ms[i].locked && l in ms[i].lessons && IsCandidate(l, today)
  {
    if |ms| > 0 {
      CandidatesExact(ms[..|ms| - 1], today, l);
      assert forall i :: 0 <= i < |ms| - 1 ==> ms[..|ms| - 1][i] == ms[i];
    }
  }

  /**
   * The running choice of `findNextClass`: a candidate replaces the best so
   * far only when its date is strictly earlier.
   */
  function Earliest(cs: seq<Lesson>, best: Option<Lesson>): Option<Lesson>
    requires forall l :: l in cs ==> l.dateRaw.Some?
    requires best.Some? ==> best.value.dateRaw.Some?
    decreases |cs|
  {
    if |cs| == 0 then best
    else
      var take := best.None? || cs[0].dateRaw.value < best.value.dateRaw.value;
      Earliest(cs[1..], if take then Some(cs[0]) else best)
  }

  /** `cs[k]` has the smallest date, and every earlier entry a strictly later one. */
  ghost predicate FirstEarliest(cs: seq<Lesson>, k: int)
    requires forall l :: l in cs ==> l.dateRaw.Some?
  {
    && 0 <= k < |cs|
    && (forall i :: 0 <= i < |cs| ==> cs[k].dateRaw.value <= cs[i].dateRaw.value)
    && (forall i :: 0 <= i < k ==> cs[k].dateRaw.value < cs[i].dateRaw.value)
  }

  lemma {:induction false} EarliestIsFirstEarliest(pre: seq<Lesson>, cs: seq<Lesson>, best: Option<Lesson>)
    requires forall l :: l in pre + cs ==> l.dateRaw.Some?
    requires best.None? <==> |pre| == 0
    requires best.Some? ==> exists k :: FirstEarliest(pre, k) && pre[k] == best.value
    ensures var r := Earliest(cs, best);
      (r.None? <==> |pre + cs| == 0) &&
      (r.Some? ==> exists k :: FirstEarliest(pre + cs, k) && (pre + cs)[k] == r.value)
    decreases |cs|
  {
    if |cs| == 0 {
      assert pre + cs == pre;
    } else {
      var take := best.None? || cs[0].dateRaw.value < best.value.dateRaw.value;
      var pre' := pre + [cs[0]];
      assert pre + cs == pre' + cs[1..];
      var best' := if take then Some(cs[0]) else best;
      if take {
        assert FirstEarliest(pre', |pre|);
      } else {
        var k :| FirstEarliest(pre, k) && pre[k] == best.value;
        assert FirstEarliest(pre', k);
      }
      EarliestIsFirstEarliest(pre', cs[1..], best');
    }
  }

  /** The lesson `findNextClass` settles on, if any. */
  function NextLesson(ms: seq<CourseModule>, today: int): Option<Lesson> {
    Earliest(Candidates(ms, today), None)
  }

  /**
   * The chosen lesson is a candidate with the earliest raw date, and among
   * candidates with that date the first one visited; there is none only
   * when there is no candidate.
   */
  lemma NextLessonIsFirstEarliest(ms: seq<CourseModule>, today: int)
    ensures var cs := Candidates(ms, today);
      var r := NextLesson(ms, today);
      (r.None? <==> |cs| == 0) && (r.Some? ==> exists k :: FirstEarliest(cs, k) && cs[k] == r.value)
  {
    var cs := Candidates(ms, today);
    assert [] + cs == cs;
    EarliestIsFirstEarliest([], cs, None);
  }

  /** `findNextClass`: "date - title" of the chosen lesson, or the no-class sentinel. */
  function NextClass(ms: seq<CourseModule>, today: int): string {
    match NextLesson(ms, today)
    case Some(l) => l.date + " - " + l.title
    case None => NoUpcomingClass
  }

  /** A lesson of a locked module never becomes the next class, even when the lesson itself is unlocked. */
  lemma LockedModuleNeverNext(ms: seq<CourseModule>, today: int, l: Lesson)
    requires forall i :: 0 <= i < |ms| && l in ms[i].lessons ==> ms[i].locked
    ensures NextLesson(ms, today) != Some(l)
  {
    NextLessonIsFirstEarliest(ms, today);
    if NextLesson(ms, today) == Some(l) {
      CandidatesExact(ms, today, l);
    }
  }

  /** The sentinel is shown exactly when no lesson qualifies. */
  lemma NextClassSentinelIff(ms: seq<CourseModule>, today: int)
    ensures NextClass(ms, today) == NoUpcomingClass <==> |Candidates(ms, today)| == 0
  {
    NextLessonIsFirstEarliest(ms, today);
    if NextLesson(ms, today).Some? {
      var l := NextLesson(ms, today).value;
      var t := l.date + " - " + l.title;
      assert t[|l.date| + 1] == '-';
      assert '-' !in NoUpcomingClass;
    }
  }

  // ---------------------------------------------------------------------------
  // Module dropdowns

  /** Module `i` is not completed and every module before it is. */
  predicate IsFirstIncomplete(ms: seq<CourseModule>, i: int)
    requires 0 <= i < |ms|
  {
    !ms[i].completed && forall j :: 0 <= j < i ==> ms[j].completed
  }

  /** The initial `openModules`: entry by entry, keyed by module id, a later module with the same id overwriting. */
  function InitialOpen(ms: seq<CourseModule>): map<int, bool> {
    if |ms| == 0 then map[]
    else
      var n := |ms| - 1;
      InitialOpen(ms[..n])[ms[n].id := IsFirstIncomplete(ms, n)]
  }

  /** Every module id gets an entry, and nothing else does. */
  lemma {:induction false} InitialOpenKeys(ms: seq<CourseModule>, id: int)
    ensures id in InitialOpen(ms) <==> exists i :: 0 <= i < |ms| && ms[i].id == id
  {
    if |ms| > 0 {
      var n := |ms| - 1;
      InitialOpenKeys(ms[..n], id);
      assert forall i :: 0 <= i < n ==> ms[..n][i] == ms[i];
    }
  }

  lemma {:induction false} InitialOpenTrue(ms: seq<CourseModule>, id: int)
    requires id in InitialOpen(ms) && InitialOpen(ms)[id]
    ensures exists i :: 0 <= i < |ms| && ms[i].id == id && IsFirstIncomplete(ms, i)
  {
    var n := |ms| - 1;
    if ms[n].id != id {
      InitialOpenTrue(ms[..n], id);
      var i :| 0 <= i < n && ms[..n][i].id == id && IsFirstIncomplete(ms[..n], i);
      assert ms[i].id == id && IsFirstIncomplete(ms, i);
    }
  }

  /** At most one module starts open, and none when every module is completed. */
  lemma AtMostOneOpen(ms: seq<CourseModule>)
    ensures forall a, b :: a in InitialOpen(ms) && b in InitialOpen(ms) && InitialOpen(ms)[a] && InitialOpen(ms)[b] ==> a == b
    ensures (forall i :: 0 <= i < |ms| ==> ms[i].completed) ==> forall a :: a in InitialOpen(ms) ==> !InitialOpen(ms)[a]
  {
    var open := InitialOpen(ms);
    forall a, b | a in open && b in open && open[a] && open[b]
      ensures a == b
    {
      InitialOpenTrue(ms, a);
      InitialOpenTrue(ms, b);
      var i :| 0 <= i < |ms| && ms[i].id == a && IsFirstIncomplete(ms, i);
      var j :| 0 <= j < |ms| && ms[j].id == b && IsFirstIncomplete(ms, j);
      assert i == j;
    }
    forall a | a in open && (forall i :: 0 <= i < |ms| ==> ms[i].completed)
      ensures !open[a]
    {
      if open[a] {
        InitialOpenTrue(ms, a);
      }
    }
  }

  /** With distinct module ids, a module starts open exactly when it is the first incomplete one. */
  lemma {:induction false} InitialOpenDistinct(ms: seq<CourseModule>, i: int)
    requires forall a, b :: 0 <= a < b < |ms| ==> ms[a].id != ms[b].id
    requires 0 <= i < |ms|
    ensures ms[i].id in InitialOpen(ms) && InitialOpen(ms)[ms[i].id] == IsFirstIncomplete(ms, i)
  {
    var n := |ms| - 1;
    if i < n {
      var pre := ms[..n];
      assert forall a, b :: 0 <= a < b < |pre| ==> pre[a].id != pre[b].id;
      InitialOpenDistinct(pre, i);
      assert pre[i] == ms[i];
      assert forall j :: 0 <= j < i ==> pre[j] == ms[j];
      assert IsFirstIncomplete(pre, i) == IsFirstIncomplete(ms, i);
      assert ms[i].id != ms[n].id;
      assert InitialOpen(ms) == InitialOpen(pre)[ms[n].id := IsFirstIncomplete(ms, n)];
    }
  }

  /** `toggleModule(id)`: flips the entry of `id` (absent reads as closed); every other entry is unchanged. */
  function ToggleModule(open: map<int, bool>, id: int): (r: map<int, bool>)
    ensures r.Keys == open.Keys + {id}
    ensures r[id] == !(id in open && open[id])
    ensures forall k :: k in open && k != id ==> r[k] == open[k]
  {
    open[id := !(id in open && open[id])]
  }

  lemma ToggleTwice(open: map<int, bool>, id: int)
    requires id in open
    ensures ToggleModule(ToggleModule(open, id), id) == open
  {
  }

  // ---------------------------------------------------------------------------
  // Lesson actions

  /** The materials button: the lesson has resources and is not locked. */
  predicate ShowMaterialsButton(l: Lesson) {
    l.hasResources && !l.locked
  }

  /** The Zoom link: the lesson has a link and is not locked. */
  predicate ShowZoomLink(l: Lesson) {
    l.linkZoom != "" && !l.locked
  }

  /** A locked lesson offers neither action; the module's lock is not consulted. */
  lemma LessonActions(l: Lesson)
    ensures l.locked ==> !ShowMaterialsButton(l) && !ShowZoomLink(l)
    ensures !l.locked ==> (ShowMaterialsButton(l) <==> l.hasResources) && (ShowZoomLink(l) <==> l.linkZoom != "")
  {
  }

  datatype MaterialsModal = MaterialsModal(isOpen: bool, materials: seq<Material>, lessonTitle: string)

  /** `openMaterialsModal`: opens on the lesson's materials when it has any, otherwise does nothing. */
  function OpenMaterialsModal(modal: MaterialsModal, l: Lesson): (r: MaterialsModal)
    ensures |l.materiales| > 0 ==> r.isOpen && r.materials == l.materiales && r.lessonTitle == l.title
    ensures |l.materiales| == 0 ==> r == modal
  {
    if |l.materiales| > 0 then MaterialsModal(true, l.materiales, l.title) else modal
  }
}
