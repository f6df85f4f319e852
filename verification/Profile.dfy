/**
 * The profile page (src/components/MyProfile.tsx): class counts, total
 * duration, the upcoming-classes list and the overall progress.
 * Dates are timestamps; `None` stands for an absent or empty date string.
 */
module Profile {
  import opened Text
  import opened Wrappers
  import opened Duration
  import CourseContent

  datatype Unidad = Unidad(
    id: int,
    titulo: string,
    duracion: string,
    fechaClase: Option<int>,
    dateRaw: Option<int>,
    completada: bool,
    completed: bool)

  /** A module lists its classes under `lessons` or `unidades`; either may be missing. */
  datatype Modulo = Modulo(
    id: int,
    orden: int,
    titulo: string,
    unidades: Option<seq<Unidad>>,
    lessons: Option<seq<Unidad>>,
    completed: bool)

  datatype Curso = Curso(id: int, titulo: string, modulos: seq<Modulo>)

  datatype Totales = Totales(clasesCompletadas: nat, clasesTotal: nat, duracionTotal: string)

  /** What `calcularEstadisticas` hands to the page: the totals and the upcoming classes. */
  datatype Estadisticas = Estadisticas(totales: Totales, proximas: seq<Unidad>)

  /** The running state of the loops in `calcularEstadisticas`. */
  datatype Tally = Tally(todas: seq<Unidad>, completadas: nat, total: nat, minutos: nat)

  const MaxUpcoming: nat := 4

  /** `modulo.lessons || modulo.unidades || []`: an array is truthy even when empty. */
  function UnitsOf(m: Modulo): (us: seq<Unidad>)
    ensures m.lessons.Some? ==> us == m.lessons.value
    ensures m.lessons.None? && m.unidades.Some? ==> us == m.unidades.value
    ensures m.lessons.None? && m.unidades.None? ==> us == []
  {
    match m.lessons
    case Some(ls) => ls
    case None => m.unidades.GetOr([])
  }

  function AllUnits(ms: seq<Modulo>): seq<Unidad> {
    if |ms| == 0 then [] else AllUnits(ms[..|ms| - 1]) + UnitsOf(ms[|ms| - 1])
  }

  /** A class counts as completed under either flag. */
  predicate IsDone(u: Unidad) {
    u.completed || u.completada
  }

  /** A missing or empty duration counts as "1h". */
  function UnitMinutes(u: Unidad): (m: nat)
    ensures u.duracion == "" ==> m == 60
  {
    if u.duracion == "" then (HoursOnly(1); ParseMinutes("1h")) else ParseMinutes(u.duracion)
  }

  function CountDone(us: seq<Unidad>): (c: nat)
    ensures c <= |us|
  {
    if |us| == 0 then 0 else CountDone(us[..|us| - 1]) + (if IsDone(us[|us| - 1]) then 1 else 0)
  }

  function SumUnitMinutes(us: seq<Unidad>): nat {
    if |us| == 0 then 0 else SumUnitMinutes(us[..|us| - 1]) + UnitMinutes(us[|us| - 1])
  }

  lemma {:induction false} AllUnitsAppend(ms: seq<Modulo>, m: Modulo)
    ensures AllUnits(ms + [m]) == AllUnits(ms) + UnitsOf(m)
  {
    assert (ms + [m])[..|ms|] == ms;
  }

  lemma SnocCounts(us: seq<Unidad>, u: Unidad)
    ensures CountDone(us + [u]) == CountDone(us) + (if IsDone(u) then 1 else 0)
    ensures SumUnitMinutes(us + [u]) == SumUnitMinutes(us) + UnitMinutes(u)
  {
    assert (us + [u])[..|us|] == us;
  }

  // ---------------------------------------------------------------------------
  // The upcoming-classes list.

  /** `date_raw`, falling back to `fecha_clase`. */
  function DateKey(u: Unidad): Option<int> {
    if u.dateRaw.Some? then u.dateRaw else u.fechaClase
  }

  /** The sort comparator: 0 when either date is missing, otherwise the difference of the dates. */
  function Compare(a: Unidad, b: Unidad): int {
    if DateKey(a).None? || DateKey(b).None? then 0 else DateKey(a).value - DateKey(b).value
  }

  /** Inserts `x` before the first element it compares strictly below. */
  function Insert(x: Unidad, s: seq<Unidad>): (r: seq<Unidad>)
    ensures multiset(r) == multiset(s) + multiset{x}
    ensures forall y :: y in r <==> y == x || y in s
  {
    if |s| == 0 then [x]
    else if Compare(x, s[0]) < 0 then [x] + s
    else
      assert s == [s[0]] + s[1..];
      [s[0]] + Insert(x, s[1..])
  }

  /** A stable insertion sort under `Compare`. */
  function SortByDate(s: seq<Unidad>): (r: seq<Unidad>)
    ensures multiset(r) == multiset(s)
  {
    if |s| == 0 then []
    else
      assert s == s[..|s| - 1] + [s[|s| - 1]];
      Insert(s[|s| - 1], SortByDate(s[..|s| - 1]))
  }

  predicate AllDated(s: seq<Unidad>) {
    forall i :: 0 <= i < |s| ==> DateKey(s[i]).Some?
  }

  predicate AscendingByDate(s: seq<Unidad>)
    requires AllDated(s)
  {
    forall i, j :: 0 <= i < j < |s| ==> DateKey(s[i]).value <= DateKey(s[j]).value
  }

  /** Every dated element of `s` is at or after `b`. */
  predicate From(b: int, s: seq<Unidad>)
    requires AllDated(s)
  {
    forall k :: 0 <= k < |s| ==> b <= DateKey(s[k]).value
  }

  lemma ConsSorted(a: Unidad, s: seq<Unidad>)
    requires DateKey(a).Some? && AllDated(s) && AscendingByDate(s) && From(DateKey(a).value, s)
    ensures AllDated([a] + s) && AscendingByDate([a] + s)
  {
    var r := [a] + s;
    assert forall k :: 0 < k < |r| ==> r[k] == s[k - 1];
  }

  lemma {:induction false} InsertSorted(x: Unidad, s: seq<Unidad>)
    requires DateKey(x).Some? && AllDated(s) && AscendingByDate(s)
    ensures AllDated(Insert(x, s)) && AscendingByDate(Insert(x, s))
    decreases |s|
  {
    if |s| == 0 {
    } else if Compare(x, s[0]) < 0 {
      ConsSorted(x, s);
    } else {
      var t := s[1..];
      assert forall k :: 0 <= k < |t| ==> t[k] == s[k + 1];
      InsertSorted(x, t);
      var it := Insert(x, t);
      var b := DateKey(s[0]).value;
      forall k | 0 <= k < |it|
        ensures b <= DateKey(it[k]).value
      {
        assert it[k] in it;
        if it[k] != x {
          assert it[k] in t;
          var m :| 0 <= m < |t| && t[m] == it[k];
          assert s[m + 1] == it[k];
        }
      }
      ConsSorted(s[0], it);
    }
  }

  lemma {:induction false} SortSorted(s: seq<Unidad>)
    requires AllDated(s)
    ensures AllDated(SortByDate(s)) && AscendingByDate(SortByDate(s))
  {
    if |s| > 0 {
      var p := s[..|s| - 1];
      assert AllDated(p);
      SortSorted(p);
      InsertSorted(s[|s| - 1], SortByDate(p));
    }
  }

  function Pending(us: seq<Unidad>): (r: seq<Unidad>)
    ensures forall u :: u in r <==> u in us && !IsDone(u)
  {
    if |us| == 0 then []
    else
      var rest := Pending(us[..|us| - 1]);
      var u := us[|us| - 1];
      assert forall x :: x in us <==> x in us[..|us| - 1] || x == u;
      if IsDone(u) then rest else rest + [u]
  }

  /** `proximasClases`: the not-completed classes sorted by date, first four. */
  function Upcoming(us: seq<Unidad>): seq<Unidad> {
    var sorted := SortByDate(Pending(us));
    if |sorted| <= MaxUpcoming then sorted else sorted[..MaxUpcoming]
  }

  /** At most four classes, as many as there are pending ones up to four, each a not-completed class of the course. */
  lemma UpcomingProperties(us: seq<Unidad>)
    ensures |Upcoming(us)| <= MaxUpcoming
    ensures |Upcoming(us)| == if |Pending(us)| < MaxUpcoming then |Pending(us)| else MaxUpcoming
    ensures forall u :: u in Upcoming(us) ==> u in us && !IsDone(u)
    ensures multiset(Upcoming(us)) <= multiset(Pending(us))
  {
    var p := Pending(us);
    var sorted := SortByDate(p);
    assert |sorted| == |p| by { assert |multiset(sorted)| == |multiset(p)|; }
    var r := Upcoming(us);
    assert sorted == r + sorted[|r|..];
    assert multiset(sorted) == multiset(r) + multiset(sorted[|r|..]);
    forall u | u in r
      ensures u in us && !IsDone(u)
    {
      assert u in multiset(r);
      assert u in multiset(p);
    }
  }

  /** A prefix of an ascending list holds its earliest elements. */
  lemma PrefixEarliest(s: seq<Unidad>, n: nat)
    requires AllDated(s) && AscendingByDate(s) && n <= |s|
    ensures forall u, v :: u in s[..n] && v in multiset(s) - multiset(s[..n]) ==>
      DateKey(u).Some? && DateKey(v).Some? && DateKey(u).value <= DateKey(v).value
  {
    var r := s[..n];
    assert s == r + s[n..];
    assert multiset(s) == multiset(r) + multiset(s[n..]);
    forall u, v | u in r && v in multiset(s) - multiset(r)
      ensures DateKey(u).Some? && DateKey(v).Some? && DateKey(u).value <= DateKey(v).value
    {
      var i :| 0 <= i < n && r[i] == u;
      assert v in multiset(s[n..]);
      var k :| 0 <= k < |s| - n && s[n..][k] == v;
      assert s[i] == u && s[n + k] == v;
    }
  }

  /**
   * When every pending class has a date, the upcoming classes ascend by date
   * and are the earliest pending ones: no pending class left out comes before
   * one that was kept.
   */
  lemma UpcomingSorted(us: seq<Unidad>)
    requires AllDated(Pending(us))
    ensures AllDated(Upcoming(us)) && AscendingByDate(Upcoming(us))
    ensures forall u, v :: u in Upcoming(us) && v in multiset(Pending(us)) - multiset(Upcoming(us)) ==>
      DateKey(u).Some? && DateKey(v).Some? && DateKey(u).value <= DateKey(v).value
  {
    var p := Pending(us);
    var s := SortByDate(p);
    SortSorted(p);
    assert |s| == |p| by { assert |multiset(s)| == |multiset(p)|; }
    var n := if |s| <= MaxUpcoming then |s| else MaxUpcoming;
    assert Upcoming(us) == s[..n];
    PrefixEarliest(s, n);
  }

  // ---------------------------------------------------------------------------
  // calcularEstadisticas and calcularProgresoTotal

  /**
   * `calcularEstadisticas`: walks every class of every module once, counting
   * classes and completed classes, summing minutes, and keeping the classes
   * for the upcoming list.
   */
  method CalcularEstadisticas(curso: Curso) returns (r: Estadisticas)
    ensures var us := AllUnits(curso.modulos);
      && r.totales == Totales(CountDone(us), |us|, FormatProfile(SumUnitMinutes(us)))
      && r.proximas == Upcoming(us)
  {
    var ms := curso.modulos;
    var t := Tally([], 0, 0, 0);
    var i := 0;
    while i < |ms|
      invariant 0 <= i <= |ms|
      invariant t.todas == AllUnits(ms[..i])
      invariant t.total == |t.todas| && t.completadas == CountDone(t.todas) && t.minutos == SumUnitMinutes(t.todas)
    {
      t := TallyModule(UnitsOf(ms[i]), t);
      assert ms[..i + 1] == ms[..i] + [ms[i]];
      AllUnitsAppend(ms[..i], ms[i]);
      i := i + 1;
    }
    assert ms[..i] == ms;
    r := Estadisticas(Totales(t.completadas, t.total, FormatProfile(t.minutos)), Upcoming(t.todas));
  }

  /** The inner `forEach` of `calcularEstadisticas`: one module's classes added to the running tallies. */
  method TallyModule(us: seq<Unidad>, t0: Tally) returns (t: Tally)
    requires t0.total == |t0.todas| && t0.completadas == CountDone(t0.todas) && t0.minutos == SumUnitMinutes(t0.todas)
    ensures t.todas == t0.todas + us
    ensures t.total == |t.todas| && t.completadas == CountDone(t.todas) && t.minutos == SumUnitMinutes(t.todas)
  {
    t := t0;
    var j := 0;
    while j < |us|
      invariant 0 <= j <= |us|
      invariant t.todas == t0.todas + us[..j]
      invariant t.total == |t.todas| && t.completadas == CountDone(t.todas) && t.minutos == SumUnitMinutes(t.todas)
    {
      var u := us[j];
      SnocCounts(t.todas, u);
      assert us[..j + 1] == us[..j] + [u];
      t := Tally(t.todas + [u], if IsDone(u) then t.completadas + 1 else t.completadas, t.total + 1, t.minutos + UnitMinutes(u));
      j := j + 1;
    }
    assert us[..j] == us;
  }

  /** `calcularProgresoTotal`: 0 without a course or without classes, else the rounded percentage. */
  function ProgresoTotal(curso: Option<Curso>): (r: nat)
    ensures r <= 100
    ensures curso.None? ==> r == 0
    ensures curso.Some? && |AllUnits(curso.value.modulos)| == 0 ==> r == 0
    ensures curso.Some? && |AllUnits(curso.value.modulos)| > 0 ==>
      var t := |AllUnits(curso.value.modulos)|;
      2 * t * r <= 200 * CountDone(AllUnits(curso.value.modulos)) + t < 2 * t * r + 2 * t
  {
    match curso
    case None => 0
    case Some(c) =>
      var us := AllUnits(c.modulos);
      if |us| == 0 then 0 else CourseContent.RoundPercent(CountDone(us), |us|)
  }

  lemma {:induction false} CountDoneAll(us: seq<Unidad>)
    requires forall u :: u in us ==> IsDone(u)
    ensures CountDone(us) == |us|
  {
    if |us| > 0 {
      CountDoneAll(us[..|us| - 1]);
    }
  }

  /** The overall progress is 100 once every class is completed and 0 while none is. */
  lemma ProgresoTotalEnds(c: Curso)
    requires |AllUnits(c.modulos)| > 0
    ensures (forall u :: u in AllUnits(c.modulos) ==> IsDone(u)) ==> ProgresoTotal(Some(c)) == 100
    ensures CountDone(AllUnits(c.modulos)) == 0 ==> ProgresoTotal(Some(c)) == 0
  {
    var us := AllUnits(c.modulos);
    CourseContent.RoundPercentEnds(|us|);
    if forall u :: u in us ==> IsDone(u) {
      CountDoneAll(us);
    }
  }
}
