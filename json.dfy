/**
 * The JSON values the browser client receives, and the few JavaScript operations
 * it applies to them: truthiness, property and index access, and `String(x)`.
 */
module Json {
  import opened Wrappers

  /**
   * A value `JSON.parse` can produce. Numbers are reals; an object is a map, which keeps the
   * last of duplicate keys as `JSON.parse` does but not the order of the keys.
   */
  datatype Json =
    | Null
    | Bool(b: bool)
    | Number(n: real)
    | Str(s: string)
    | Array(items: seq<Json>)
    | Object(fields: map<string, Json>)

  /**
   * The engine's built-ins the client calls, as oracles: `JSON.parse` (None when it throws),
   * `JSON.stringify`, and the conversion of a number to its string form.
   */
  datatype Runtime = Runtime(
    parse: string -> Option<Json>,
    stringify: Json -> string,
    numberToString: real -> string)

  /** JavaScript truthiness; `None` stands for `undefined`. */
  predicate Truthy(v: Option<Json>) {
    match v
    case None => false
    case Some(Null) => false
    case Some(Bool(b)) => b
    case Some(Number(n)) => n != 0.0
    case Some(Str(s)) => s != ""
    case Some(Array(_)) => true
    case Some(Object(_)) => true
  }

  /**
   * `v?.key` for a key that is neither an array index nor a built-in property of strings or
   * arrays (the client reads only `status`, `output` and `data`): only an object can have it.
   */
  function Prop(v: Option<Json>, key: string): (r: Option<Json>)
    ensures r.Some? <==> v.Some? && v.value.Object? && key in v.value.fields
    ensures r.Some? ==> r.value == v.value.fields[key]
  {
    match v
    case Some(Object(m)) => if key in m then Some(m[key]) else None
    case _ => None
  }

  /**
   * `v?.[0]`: the first element of an array, the first character of a string, the property
   * "0" of an object, and `undefined` otherwise.
   */
  function Index0(v: Option<Json>): (r: Option<Json>)
    ensures v.Some? && v.value.Array? ==> r == if v.value.items == [] then None else Some(v.value.items[0])
    ensures v.Some? && v.value.Str? ==> r == if v.value.s == [] then None else Some(Str([v.value.s[0]]))
    ensures v.Some? && v.value.Object? ==> r == if "0" in v.value.fields then Some(v.value.fields["0"]) else None
    ensures v.None? || v.value.Null? || v.value.Bool? || v.value.Number? ==> r.None?
  {
    match v
    case Some(Array(items)) => if |items| > 0 then Some(items[0]) else None
    case Some(Str(s)) => if |s| > 0 then Some(Str([s[0]])) else None
    case Some(Object(m)) => if "0" in m then Some(m["0"]) else None
    case _ => None
  }

  /**
   * Whether `String(v)` returns. An object whose own "toString" key holds data has no callable
   * `toString`, and its `valueOf` gives back the object, so the conversion throws a TypeError;
   * an array is printed element by element and throws when one of its elements does.
   */
  predicate Printable(v: Json)
    decreases v
  {
    match v
    case Object(m) => "toString" !in m
    case Array(items) => forall k :: 0 <= k < |items| ==> Printable(items[k])
    case _ => true
  }

  /** `String(v)`, None when it throws: arrays are joined with "," and their null elements print as nothing. */
  function ToJsString(rt: Runtime, v: Json): (r: Option<string>)
    ensures r.Some? <==> Printable(v)
    ensures v.Str? ==> r == Some(v.s)
    ensures v.Object? && "toString" !in v.fields ==> r == Some("[object Object]")
    decreases v, 1
  {
    match v
    case Null => Some("null")
    case Bool(b) => Some(if b then "true" else "false")
    case Number(n) => Some(rt.numberToString(n))
    case Str(s) => Some(s)
    case Array(items) => JoinElements(rt, items)
    case Object(m) => if "toString" in m then None else Some("[object Object]")
  }

  /** `items.join(",")` as `Array.prototype.toString` does it, None when an element's conversion throws. */
  function JoinElements(rt: Runtime, items: seq<Json>): (r: Option<string>)
    ensures r.Some? <==> forall k :: 0 <= k < |items| ==> Printable(items[k])
    decreases items, 0
  {
    if |items| == 0 then Some("")
    else
      var first := if items[0].Null? then Some("") else ToJsString(rt, items[0]);
      if |items| == 1 then first
      else
        var rest := JoinElements(rt, items[1..]);
        assert forall k :: 1 <= k < |items| ==> items[k] == items[1..][k - 1];
        if first.Some? && rest.Some? then Some(first.value + "," + rest.value) else None
  }

  /** `String` leaves a string unchanged and prints a one-element array as its element. */
  lemma ToJsStringBasics(rt: Runtime, s: string, v: Json)
    ensures ToJsString(rt, Str(s)) == Some(s)
    ensures ToJsString(rt, Array([Str(s)])) == Some(s)
    ensures v != Null ==> ToJsString(rt, Array([v])) == ToJsString(rt, v)
  {
  }

  /** Two elements are joined with a comma, a null one printing as nothing. */
  lemma JoinTwo(rt: Runtime, a: Json, b: Json)
    requires a != Null && b != Null && Printable(a) && Printable(b)
    ensures JoinElements(rt, [a, b]) == Some(ToJsString(rt, a).value + "," + ToJsString(rt, b).value)
    ensures JoinElements(rt, [Null, b]) == Some("," + ToJsString(rt, b).value)
    ensures JoinElements(rt, [a, Null]) == Some(ToJsString(rt, a).value + ",")
  {
    var x, y := ToJsString(rt, a).value, ToJsString(rt, b).value;
    assert [a, b][1..] == [b];
    assert [Null, b][1..] == [b];
    assert [a, Null][1..] == [Null];
    assert "" + "," + y == "," + y;
    assert x + "," + "" == x + ",";
  }

  /** An object carrying a "toString" key cannot be printed, neither alone nor inside an array. */
  lemma ToStringKeyThrows(rt: Runtime, m: map<string, Json>, before: seq<Json>, after: seq<Json>)
    requires "toString" in m
    ensures ToJsString(rt, Object(m)).None?
    ensures ToJsString(rt, Array(before + [Object(m)] + after)).None?
  {
    var items := before + [Object(m)] + after;
    assert items[|before|] == Object(m);
  }
}
