/** Decoded JSON values as the Python code sees them after `response.json()`,
    and the three dictionary operations the row builder applies to them:
    `d.get(key, default)`, `d[key]` and `for x in d`. */
module Json {
  import opened Errors

  /** A decoded JSON value. An object keeps its members in document order;
      when a key occurs more than once the last value is the one `json.loads`
      keeps, and the key stays at its first position. */
  datatype Json =
    | JNull
    | JBool(b: bool)
    | JInt(i: int)
    | JString(s: string)
    | JList(items: seq<Json>)
    | JObject(members: seq<(string, Json)>)

  datatype Option<T> = None | Some(value: T)

  /** The `{}` the source passes as the default of a nested lookup. */
  const EmptyObject: Json := JObject([])

  predicate HasKey(members: seq<(string, Json)>, key: string)
  {
    exists i :: 0 <= i < |members| && members[i].0 == key
  }

  /** The value a Python dict built from `members` holds at `key`: the last binding. */
  function Lookup(members: seq<(string, Json)>, key: string): (r: Option<Json>)
    ensures r.Some? <==> HasKey(members, key)
    ensures r.Some? ==> exists i :: 0 <= i < |members| && members[i] == (key, r.value)
                                  && forall j :: i < j < |members| ==> members[j].0 != key
  {
    if members == [] then None
    else
      var last := members[|members| - 1];
      var init := members[..|members| - 1];
      if last.0 == key then Some(last.1)
      else
        var r := Lookup(init, key);
        assert forall i :: 0 <= i < |init| ==> init[i] == members[i];
        r
  }

  /** `d.get(key, default)`: the value at `key`, or `default` when the key is
      absent; a value that is not a dict has no `get` method. */
  function Get(d: Json, key: string, default: Json): (r: Result<Json>)
    ensures r.Ok? <==> d.JObject?
    ensures r.Err? ==> r.error == NoGetMethod
    ensures d.JObject? && !HasKey(d.members, key) ==> r == Ok(default)
    ensures d.JObject? && HasKey(d.members, key) ==> r == Ok(Lookup(d.members, key).value)
  {
    if !d.JObject? then Err(NoGetMethod)
    else match Lookup(d.members, key)
      case None => Ok(default)
      case Some(v) => Ok(v)
  }

  /** `d[key]`: KeyError when a dict lacks the key, TypeError when the value
      indexed is not a dict (strings, lists, numbers and None refuse a string index). */
  function Subscript(d: Json, key: string): (r: Result<Json>)
    ensures r.Ok? <==> d.JObject? && HasKey(d.members, key)
    ensures r.Ok? ==> r.value == Lookup(d.members, key).value
    ensures r.Err? ==> r.error == (if d.JObject? then MissingKey(key) else NotSubscriptable)
  {
    if !d.JObject? then Err(NotSubscriptable)
    else match Lookup(d.members, key)
      case None => Err(MissingKey(key))
      case Some(v) => Ok(v)
  }

  /** The keys of a dict in iteration order: each distinct key once, at its
      first position. */
  function Keys(members: seq<(string, Json)>): (ks: seq<string>)
    ensures forall i, j :: 0 <= i < j < |ks| ==> ks[i] != ks[j]
    ensures forall k :: k in ks <==> HasKey(members, k)
  {
    if members == [] then []
    else
      var init := members[..|members| - 1];
      var last := members[|members| - 1].0;
      var ks := Keys(init);
      assert forall i :: 0 <= i < |init| ==> init[i] == members[i];
      if last in ks then ks else ks + [last]
  }

  /** `for x in v`: a list yields its items, a dict its keys, a string its
      characters (each a one-character string); numbers, booleans and None
      are not iterable. */
  function Iterate(v: Json): (r: Result<seq<Json>>)
    ensures r.Err? <==> v.JNull? || v.JBool? || v.JInt?
    ensures r.Err? ==> r.error == NotIterable
    ensures v.JList? ==> r == Ok(v.items)
    ensures v.JObject? ==> |r.value| == |Keys(v.members)|
                           && forall i :: 0 <= i < |r.value| ==> r.value[i] == JString(Keys(v.members)[i])
    ensures v.JString? ==> |r.value| == |v.s| && forall i :: 0 <= i < |r.value| ==> r.value[i] == JString([v.s[i]])
  {
    match v
    case JList(items) => Ok(items)
    case JObject(members) =>
      var ks := Keys(members);
      Ok(seq(|ks|, i requires 0 <= i < |ks| => JString(ks[i])))
    case JString(s) => Ok(seq(|s|, i requires 0 <= i < |s| => JString([s[i]])))
    case _ => Err(NotIterable)
  }

  /** Reference reading of a chained lookup `v.get(k1, {}).get(k2)...`: the
      value under the path of keys, or null as soon as a key is absent. */
  function Path(v: Json, keys: seq<string>): Json
  {
    if keys == [] then v
    else if !v.JObject? then JNull
    else match Lookup(v.members, keys[0])
      case None => JNull
      case Some(w) => Path(w, keys[1..])
  }

  /** Rebinding a key makes the new value the one every later lookup sees,
      and leaves every other key as it was. */
  lemma LookupRebound(members: seq<(string, Json)>, key: string, v: Json, other: string)
    requires other != key
    ensures Lookup(members + [(key, v)], key) == Some(v)
    ensures Lookup(members + [(key, v)], other) == Lookup(members, other)
  {
    assert (members + [(key, v)])[..|members|] == members;
  }

  /** A key absent from a dict ends a path with null whatever follows it. */
  lemma AbsentKeyIsNull(v: Json, key: string, rest: seq<string>)
    requires v.JObject? && !HasKey(v.members, key)
    ensures Path(v, [key] + rest) == JNull
  {
  }

  /** A two-key chained `get` with a `{}` default, when it succeeds, is the
      null-safe path lookup. */
  lemma NestedGetIsPath(v: Json, outer: string, inner: string)
    requires v.JObject?
    requires var o := Get(v, outer, EmptyObject); o.Ok? && Get(o.value, inner, JNull).Ok?
    ensures Get(Get(v, outer, EmptyObject).value, inner, JNull).value == Path(v, [outer, inner])
  {
    var o := Get(v, outer, EmptyObject).value;
    if HasKey(v.members, outer) {
      assert [outer, inner][1..] == [inner];
      assert Path(v, [outer, inner]) == Path(o, [inner]);
      assert [inner][1..] == [];
      match Lookup(o.members, inner)
      case None =>
      case Some(w) => assert Path(o, [inner]) == Path(w, []);
    }
  }
}
