/**
 * The JavaScript values that flow through the services: parsed JSON response
 * bodies plus `undefined`. Numbers are integers. An object is its list of
 * own properties in insertion order.
 */
module JsValue {
  import opened Text
  import opened Wrappers

  datatype Value =
    | Undefined
    | Null
    | Bool(b: bool)
    | Num(n: int)
    | Str(s: string)
    | Arr(items: seq<Value>)
    | Obj(fields: seq<Field>)

  datatype Field = Field(key: string, val: Value)

  /** A `TypeError` thrown by the engine, with its message. */
  datatype TypeError = TypeError(message: string)

  /** JavaScript truthiness: `undefined`, `null`, `false`, `0` and `""` are falsy. */
  predicate Truthy(v: Value) {
    match v
    case Undefined => false
    case Null => false
    case Bool(b) => b
    case Num(n) => n != 0
    case Str(s) => s != ""
    case Arr(_) => true
    case Obj(_) => true
  }

  predicate Nullish(v: Value) {
    v.Undefined? || v.Null?
  }

  // ---------------------------------------------------------------------------
  // Own properties of an object.

  /** Some property of the list is named `k`. */
  predicate HasKey(fs: seq<Field>, k: string) {
    |fs| > 0 && (fs[|fs| - 1].key == k || HasKey(fs[..|fs| - 1], k))
  }

  /** The value of property `k`; when a name repeats, the last binding wins, as in `JSON.parse`. */
  function GetField(fs: seq<Field>, k: string): (r: Value)
    ensures !HasKey(fs, k) ==> r == Undefined
  {
    if |fs| == 0 then Undefined
    else if fs[|fs| - 1].key == k then fs[|fs| - 1].val
    else GetField(fs[..|fs| - 1], k)
  }

  /** `v.k` on a value that is not `null`/`undefined`: non-objects have none of the properties read here. */
  function Get(v: Value, k: string): Value {
    if v.Obj? then GetField(v.fields, k) else Undefined
  }

  /** `v.k` in general: reading a property of `null` or `undefined` throws. */
  function Read(v: Value, k: string): (r: Result<Value, TypeError>)
    ensures r.Failure? <==> Nullish(v)
    ensures r.Success? ==> r.value == Get(v, k)
  {
    if v.Undefined? then Failure(TypeError("Cannot read properties of undefined (reading '" + k + "')"))
    else if v.Null? then Failure(TypeError("Cannot read properties of null (reading '" + k + "')"))
    else Success(Get(v, k))
  }

  /** Every binding of `k` rebound to `v`, in place. */
  function Rebind(fs: seq<Field>, k: string, v: Value): (r: seq<Field>)
    ensures |r| == |fs|
  {
    if |fs| == 0 then []
    else
      var last := fs[|fs| - 1];
      Rebind(fs[..|fs| - 1], k, v) + [if last.key == k then Field(k, v) else last]
  }

  lemma {:induction false} RebindReads(fs: seq<Field>, k: string, v: Value, k': string)
    ensures HasKey(Rebind(fs, k, v), k') == HasKey(fs, k')
    ensures GetField(Rebind(fs, k, v), k') == if k' == k && HasKey(fs, k) then v else GetField(fs, k')
  {
    if |fs| > 0 {
      var r := Rebind(fs, k, v);
      RebindReads(fs[..|fs| - 1], k, v, k');
      assert r[..|r| - 1] == Rebind(fs[..|fs| - 1], k, v);
    }
  }

  lemma AppendReads(fs: seq<Field>, f: Field, k': string)
    ensures HasKey(fs + [f], k') == (f.key == k' || HasKey(fs, k'))
    ensures GetField(fs + [f], k') == if f.key == k' then f.val else GetField(fs, k')
  {
    assert (fs + [f])[..|fs|] == fs;
  }

  /**
   * Assignment of property `k` (`o.k = v`, or `k: v` in an object literal):
   * an existing property keeps its position, a new one goes last.
   */
  function SetField(fs: seq<Field>, k: string, v: Value): (r: seq<Field>)
    ensures GetField(r, k) == v
    ensures forall k' :: k' != k ==> GetField(r, k') == GetField(fs, k')
    ensures forall k' :: HasKey(r, k') <==> k' == k || HasKey(fs, k')
  {
    if HasKey(fs, k) then
      var r := Rebind(fs, k, v);
      assert forall k' :: (GetField(r, k') == (if k' == k then v else GetField(fs, k'))
                           && HasKey(r, k') == HasKey(fs, k')) by {
        forall k' ensures GetField(r, k') == (if k' == k then v else GetField(fs, k'))
          && HasKey(r, k') == HasKey(fs, k') {
          RebindReads(fs, k, v, k');
        }
      }
      r
    else
      var r := fs + [Field(k, v)];
      assert forall k' :: (GetField(r, k') == (if k' == k then v else GetField(fs, k'))
                           && HasKey(r, k') == (k' == k || HasKey(fs, k'))) by {
        forall k' ensures GetField(r, k') == (if k' == k then v else GetField(fs, k'))
          && HasKey(r, k') == (k' == k || HasKey(fs, k')) {
          AppendReads(fs, Field(k, v), k');
        }
      }
      r
  }

  /** Copies the properties of `src` into `fs` one by one, as object spread does. */
  function SpreadFields(fs: seq<Field>, src: seq<Field>): seq<Field>
    decreases |src|
  {
    if |src| == 0 then fs else SpreadFields(SetField(fs, src[0].key, src[0].val), src[1..])
  }

  /** `{...fs, ...src}`: spreading `null`, `undefined`, booleans and numbers adds nothing. */
  function Spread(fs: seq<Field>, src: Value): seq<Field> {
    if src.Obj? then SpreadFields(fs, src.fields) else fs
  }

  lemma HasKeyFront(f: Field, rest: seq<Field>, k: string)
    ensures HasKey([f] + rest, k) == (f.key == k || HasKey(rest, k))
    ensures GetField([f] + rest, k) == if HasKey(rest, k) then GetField(rest, k) else if f.key == k then f.val else Undefined
    decreases |rest|
  {
    if |rest| > 0 {
      var s := [f] + rest;
      assert s[..|s| - 1] == [f] + rest[..|rest| - 1];
      HasKeyFront(f, rest[..|rest| - 1], k);
    } else {
      assert ([f] + rest)[..0] == [];
    }
  }

  /** After a spread, a property comes from the spread source when the source has it, and is untouched otherwise. */
  lemma {:induction false} SpreadFieldsReads(fs: seq<Field>, src: seq<Field>, k: string)
    ensures HasKey(SpreadFields(fs, src), k) == (HasKey(src, k) || HasKey(fs, k))
    ensures GetField(SpreadFields(fs, src), k) == if HasKey(src, k) then GetField(src, k) else GetField(fs, k)
    decreases |src|
  {
    if |src| > 0 {
      SpreadFieldsReads(SetField(fs, src[0].key, src[0].val), src[1..], k);
      assert src == [src[0]] + src[1..];
      HasKeyFront(src[0], src[1..], k);
    }
  }

  lemma SpreadReads(fs: seq<Field>, src: Value, k: string)
    ensures HasKey(Spread(fs, src), k) == ((src.Obj? && HasKey(src.fields, k)) || HasKey(fs, k))
    ensures GetField(Spread(fs, src), k) == if src.Obj? && HasKey(src.fields, k) then Get(src, k) else GetField(fs, k)
  {
    if src.Obj? {
      SpreadFieldsReads(fs, src.fields, k);
    }
  }

  // ---------------------------------------------------------------------------
  // Conversions to text.

  /** `String(v)`, the conversion `localStorage.setItem` and `new Error(v)` apply. */
  function ToJsString(v: Value): string
    decreases v
  {
    match v
    case Undefined => "undefined"
    case Null => "null"
    case Bool(b) => if b then "true" else "false"
    case Num(n) => IntToString(n)
    case Str(s) => s
    case Arr(items) => JoinItems(items)
    case Obj(_) => "[object Object]"
  }

  /** `Array.prototype.join(",")`, where `null` and `undefined` elements print as nothing. */
  function JoinItems(items: seq<Value>): string
    decreases items
  {
    if |items| == 0 then ""
    else
      var head := if Nullish(items[0]) then "" else ToJsString(items[0]);
      if |items| == 1 then head else head + "," + JoinItems(items[1..])
  }

  function HexDigit(d: nat): char
    requires d < 16
  {
    "0123456789abcdef"[d]
  }

  /** One character of a JSON string literal. */
  function EscapeChar(c: char): string {
    if c == '"' then "\\\""
    else if c == '\\' then "\\\\"
    else if c == '\n' then "\\n"
    else if c == '\r' then "\\r"
    else if c == '\t' then "\\t"
    else if c as int == 8 then "\\b"
    else if c as int == 12 then "\\f"
    else if c as int < 32 then "\\u00" + [HexDigit(c as int / 16), HexDigit(c as int % 16)]
    else [c]
  }

  function EscapeString(s: string): string {
    if |s| == 0 then "" else EscapeChar(s[0]) + EscapeString(s[1..])
  }

  function Quote(s: string): string {
    "\"" + EscapeString(s) + "\""
  }

  /** `JSON.stringify(v)` for a value that is not `undefined`. */
  function Stringify(v: Value): (r: string)
    ensures |r| > 0
    decreases v
  {
    match v
    case Undefined => "null"
    case Null => "null"
    case Bool(b) => if b then "true" else "false"
    case Num(n) => IntToString(n)
    case Str(s) => Quote(s)
    case Arr(items) => "[" + StringifyItems(items) + "]"
    case Obj(fs) => "{" + StringifyFields(fs) + "}"
  }

  /** Array elements; an `undefined` element becomes `null`. */
  function StringifyItems(items: seq<Value>): string
    decreases items
  {
    if |items| == 0 then ""
    else if |items| == 1 then Stringify(items[0])
    else Stringify(items[0]) + "," + StringifyItems(items[1..])
  }

  /** Object members; properties holding `undefined` are skipped. */
  function StringifyFields(fs: seq<Field>): string
    decreases fs
  {
    if |fs| == 0 then ""
    else
      var rest := StringifyFields(fs[1..]);
      if fs[0].val.Undefined? then rest
      else
        var member := Quote(fs[0].key) + ":" + Stringify(fs[0].val);
        if rest == "" then member else member + "," + rest
  }

  /**
   * What `localStorage.setItem(key, JSON.stringify(v))` stores: `JSON.stringify(undefined)`
   * is `undefined`, which storage turns into the text "undefined".
   */
  function StoredJson(v: Value): (r: string)
    ensures |r| > 0
  {
    if v.Undefined? then "undefined" else Stringify(v)
  }
}
