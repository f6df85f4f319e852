/**
 * Normalisation of the content API's answers (src/service/apiService.ts):
 * `getUserWithCourses` and `getCourseContent` accept the flat shape and the
 * `{ data: { id, attributes } }` shape, and flatten the latter into
 * `{ id, ...attributes }` records, nested lists included.
 */
module ApiNormalize {
  import opened Wrappers
  import opened JsValue

  /** Why a normalisation fails: the answer has neither shape, or the mapping code throws. */
  datatype ApiError = UnrecognizedFormat | Thrown(error: TypeError)

  const UnrecognizedMessage: string := "Formato de respuesta no reconocido"
  const CoursesMapPath: string := "userAttributes.cursos.data.map"
  const ModulesMapPath: string := "courseAttrs.modulos?.data?.map"
  const LessonsMapPath: string := "modulo.attributes.lecciones?.data?.map"

  function Message(e: ApiError): string {
    match e
    case UnrecognizedFormat => UnrecognizedMessage
    case Thrown(t) => t.message
  }

  /** `v` is an object that declares property `k` itself. */
  predicate Declares(v: Value, k: string) {
    v.Obj? && HasKey(v.fields, k)
  }

  /** What reading `k` from `{ id: x.id, ...x.attributes }` yields. */
  function EntryRead(x: Value, k: string): Value {
    if Declares(Get(x, "attributes"), k) then Get(Get(x, "attributes"), k)
    else if k == "id" then Get(x, "id")
    else Undefined
  }

  /**
   * `{ id: x.id, ...x.attributes }`: every attribute is copied, and `id` is
   * the record's own unless the attributes declare one.
   */
  function Entry(x: Value): (r: Value)
    ensures r.Obj?
    ensures forall k :: Get(r, k) == EntryRead(x, k)
  {
    var front := [Field("id", Get(x, "id"))];
    var fs := Spread(front, Get(x, "attributes"));
    forall k
      ensures GetField(fs, k) == EntryRead(x, k)
    {
      SpreadReads(front, Get(x, "attributes"), k);
      assert front[..0] == [];
    }
    Obj(fs)
  }

  /** The arrow `x => ({ id: x.id, ...x.attributes })`: throws on `null` or `undefined`. */
  function FlattenEntry(x: Value): (r: Result<Value, TypeError>)
    ensures r.Failure? <==> Nullish(x)
    ensures r.Success? ==> r.value == Entry(x)
  {
    var _ :- Read(x, "id");
    Success(Entry(x))
  }

  /** `Array.prototype.map` with a callback that may throw: the first exception ends the map. */
  function MapAll(xs: seq<Value>, f: Value -> Result<Value, TypeError>): (r: Result<seq<Value>, TypeError>)
    ensures r.Failure? <==> exists i :: 0 <= i < |xs| && f(xs[i]).Failure?
    ensures r.Success? ==> |r.value| == |xs| && forall i :: 0 <= i < |xs| ==> f(xs[i]) == Success(r.value[i])
  {
    if |xs| == 0 then Success([])
    else
      var head :- f(xs[0]);
      var tail :- MapAll(xs[1..], f);
      assert forall i :: 1 <= i < |xs| ==> xs[i] == xs[1..][i - 1];
      Success([head] + tail)
  }

  /**
   * `container?.data?.map`: `None` when either step meets `null` or
   * `undefined`, the items of an array, and a TypeError for any other
   * value, which has no `map` to call.
   */
  function OptionalData(container: Value, path: string): (r: Result<Option<seq<Value>>, TypeError>)
    ensures r == Success(None) <==> Nullish(container) || Nullish(Get(container, "data"))
    ensures r.Success? && r.value.Some? <==> !Nullish(container) && Get(container, "data").Arr?
  {
    if Nullish(container) then Success(None)
    else
      var d := Get(container, "data");
      if Nullish(d) then Success(None)
      else if d.Arr? then Success(Some(d.items))
      else Failure(TypeError(path + " is not a function"))
  }

  // ---------------------------------------------------------------------------
  // getUserWithCourses

  /** The flat shape: a truthy answer with a truthy `cursos`. */
  predicate FlatShape(data: Value) {
    Truthy(data) && Truthy(Get(data, "cursos"))
  }

  /** The nested shape: a truthy `data` with truthy `attributes`. */
  predicate NestedShape(data: Value) {
    Truthy(data) && Truthy(Get(data, "data")) && Truthy(Get(Get(data, "data"), "attributes"))
  }

  function UserAttributes(data: Value): Value {
    Get(Get(data, "data"), "attributes")
  }

  /** `userAttributes.cursos.data`, which the nested branch maps only when it and `cursos` are truthy. */
  function CoursesData(data: Value): Value {
    Get(Get(UserAttributes(data), "cursos"), "data")
  }

  predicate HasCoursesData(data: Value) {
    Truthy(Get(UserAttributes(data), "cursos")) && Truthy(CoursesData(data))
  }

  function GetUserWithCourses(data: Value): (r: Result<Value, ApiError>)
    ensures FlatShape(data) ==> r == Success(data)
    ensures r == Failure(UnrecognizedFormat) <==> !FlatShape(data) && !NestedShape(data)
    ensures r.Failure? && r.error.Thrown? ==>
      NestedShape(data) && HasCoursesData(data) &&
      (!CoursesData(data).Arr? || exists i :: 0 <= i < |CoursesData(data).items| && Nullish(CoursesData(data).items[i]))
    ensures r.Success? && !FlatShape(data) ==>
      r.value.Obj? && Get(r.value, "cursos").Arr? &&
      forall k :: k != "cursos" ==> Get(r.value, k) == Get(Entry(Get(data, "data")), k)
  {
    if FlatShape(data) then Success(data)
    else if NestedShape(data) then
      var user := Get(data, "data");
      var base := SetField(Entry(user).fields, "cursos", Arr([]));
      if HasCoursesData(data) then
        match CoursesData(data)
        case Arr(items) =>
          (match MapAll(items, FlattenEntry)
           case Success(list) => Success(Obj(SetField(base, "cursos", Arr(list))))
           case Failure(e) => Failure(Thrown(e)))
        case _ => Failure(Thrown(TypeError(CoursesMapPath + " is not a function")))
      else Success(Obj(base))
    else Failure(UnrecognizedFormat)
  }

  /**
   * In the nested shape the courses come out one record per course, in
   * order, each flattened to `{ id, ...attributes }`; with no course data
   * the list is empty.
   */
  lemma NestedUserCourses(data: Value)
    requires !FlatShape(data) && NestedShape(data)
    ensures HasCoursesData(data) && !CoursesData(data).Arr? ==>
      GetUserWithCourses(data) == Failure(Thrown(TypeError(CoursesMapPath + " is not a function")))
    ensures !HasCoursesData(data) ==> GetUserWithCourses(data) == Success(Obj(SetField(Entry(Get(data, "data")).fields, "cursos", Arr([]))))
    ensures HasCoursesData(data) && CoursesData(data).Arr? && (forall i :: 0 <= i < |CoursesData(data).items| ==> !Nullish(CoursesData(data).items[i])) ==>
      GetUserWithCourses(data).Success? &&
      var cs := Get(GetUserWithCourses(data).value, "cursos");
      cs.Arr? && |cs.items| == |CoursesData(data).items| &&
      forall i :: 0 <= i < |cs.items| ==> cs.items[i] == Entry(CoursesData(data).items[i])
  {
    if HasCoursesData(data) && CoursesData(data).Arr? && (forall i :: 0 <= i < |CoursesData(data).items| ==> !Nullish(CoursesData(data).items[i])) {
      var items := CoursesData(data).items;
      assert forall i :: 0 <= i < |items| ==> FlattenEntry(items[i]).Success?;
    }
  }

  // ---------------------------------------------------------------------------
  // getCourseContent

  /** One module: `{ id, ...attributes, lecciones: <flattened lessons> || [] }`. */
  function FlattenModule(x: Value): (r: Result<Value, TypeError>)
    ensures r.Success? ==> r.value.Obj? && Get(r.value, "lecciones").Arr?
    ensures r.Success? ==> forall k :: k != "lecciones" ==> Get(r.value, k) == Get(Entry(x), k)
    ensures r.Success? ==>
      var ls := Get(r.value, "lecciones").items;
      |ls| == |LessonItems(x)| && forall j :: 0 <= j < |ls| ==> ls[j] == Entry(LessonItems(x)[j])
    ensures r.Failure? <==>
      Nullish(x) || Nullish(Get(x, "attributes")) ||
      OptionalData(Get(Get(x, "attributes"), "lecciones"), LessonsMapPath).Failure? ||
      exists i :: 0 <= i < |LessonItems(x)| && Nullish(LessonItems(x)[i])
  {
    var _ :- Read(x, "id");
    var lecciones :- Read(Get(x, "attributes"), "lecciones");
    var items :- OptionalData(lecciones, LessonsMapPath);
    assert items.GetOr([]) == LessonItems(x);
    var lessons :- MapAll(items.GetOr([]), FlattenEntry);
    Success(Obj(SetField(Entry(x).fields, "lecciones", Arr(lessons))))
  }

  /** The lesson records a module lists, when it lists them in an array. */
  function LessonItems(x: Value): seq<Value> {
    var d := Get(Get(Get(x, "attributes"), "lecciones"), "data");
    if d.Arr? then d.items else []
  }

  function CourseAttributes(data: Value): Value {
    Get(Get(data, "data"), "attributes")
  }

  /** The module records a course lists, when it lists them in an array. */
  function ModuleItems(data: Value): seq<Value> {
    var d := Get(Get(CourseAttributes(data), "modulos"), "data");
    if d.Arr? then d.items else []
  }

  /** Anything but the nested shape is returned as it came; the nested shape is flattened, modules and lessons included. */
  function GetCourseContent(data: Value): (r: Result<Value, TypeError>)
    ensures !NestedShape(data) ==> r == Success(data)
    ensures NestedShape(data) && r.Success? ==>
      r.value.Obj? &&
      (forall k :: k != "modulos" ==> Get(r.value, k) == Get(Entry(Get(data, "data")), k)) &&
      Get(r.value, "modulos").Arr? &&
      forall i :: 0 <= i < |Get(r.value, "modulos").items| ==>
        Get(r.value, "modulos").items[i].Obj? && Get(Get(r.value, "modulos").items[i], "lecciones").Arr?
    ensures NestedShape(data) && r.Success? ==>
      var container := Get(CourseAttributes(data), "modulos");
      (Nullish(container) || Nullish(Get(container, "data")) ==> Get(r.value, "modulos") == Arr([])) &&
      (!Nullish(container) && Get(container, "data").Arr? ==> |Get(r.value, "modulos").items| == |Get(container, "data").items|)
    ensures NestedShape(data) && r.Success? ==>
      var ms := Get(r.value, "modulos").items;
      |ms| == |ModuleItems(data)| && forall i :: 0 <= i < |ms| ==> FlattenModule(ModuleItems(data)[i]) == Success(ms[i])
    ensures r.Failure? <==>
      NestedShape(data) &&
      (OptionalData(Get(CourseAttributes(data), "modulos"), ModulesMapPath).Failure? ||
       exists i :: 0 <= i < |ModuleItems(data)| && FlattenModule(ModuleItems(data)[i]).Failure?)
  {
    if !NestedShape(data) then Success(data)
    else
      var course := Get(data, "data");
      var items :- OptionalData(Get(CourseAttributes(data), "modulos"), ModulesMapPath);
      assert items.GetOr([]) == ModuleItems(data);
      var modules :- MapAll(items.GetOr([]), FlattenModule);
      assert forall i :: 0 <= i < |modules| ==> FlattenModule(items.GetOr([])[i]) == Success(modules[i]);
      Success(Obj(SetField(Entry(course).fields, "modulos", Arr(modules))))
  }
}
