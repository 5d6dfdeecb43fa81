/** JSON values as the Python code sees them after `json.loads` or
    `resp.json()`, together with the few Python operations the code applies
    to them: `key in v`, `d.get(key)`, truthiness and iteration. The JSON
    grammar itself is not modelled: a parser is a parameter of type `Loads`. */
module Json {
  import opened Base
  import opened Text

  datatype Value =
    | Null
    | Bool(b: bool)
    | Int(i: int)
    | Float(f: real)
    | Str(s: string)
    | Array(items: seq<Value>)
      /** The members of an object in document order; a name may repeat. */
    | Object(entries: seq<(string, Value)>)

  /** What `json.loads(text)` does: a value, or the message of the
      `JSONDecodeError` it raises. */
  datatype Decoded = Loaded(value: Value) | DecodeError(message: string)

  type Loads = string -> Decoded

  /** `d.get(key)` on the dict that `json.loads` builds from `entries`: the
      last member with that name wins. */
  function Get(entries: seq<(string, Value)>, key: string): (r: Option<Value>)
    ensures r.None? <==> forall i :: 0 <= i < |entries| ==> entries[i].0 != key
    ensures r.Some? ==>
      exists i :: (0 <= i < |entries| && entries[i] == (key, r.value)
                   && forall j :: i < j < |entries| ==> entries[j].0 != key)
    decreases |entries|
  {
    if |entries| == 0 then None
    else
      var last := entries[|entries| - 1];
      if last.0 == key then Some(last.1)
      else
        var front := entries[..|entries| - 1];
        var r := Get(front, key);
        if r.Some? then
          var i :| 0 <= i < |front| && front[i] == (key, r.value)
            && forall j :: i < j < |front| ==> front[j].0 != key;
          assert entries[i] == (key, r.value);
          assert forall j :: i < j < |entries| ==> entries[j].0 != key by {
            forall j | i < j < |entries| ensures entries[j].0 != key {
              if j < |front| { assert entries[j] == front[j]; }
            }
          }
          r
        else r
  }


  /** A list of Python strings. */
  function Strings(qs: seq<string>): (vs: seq<Value>)
    ensures |vs| == |qs| && forall i :: 0 <= i < |qs| ==> vs[i] == Str(qs[i])
  {
    if qs == [] then [] else [Str(qs[0])] + Strings(qs[1..])
  }

  /** Python truthiness of a JSON value. */
  predicate Truthy(v: Value) {
    match v
    case Null => false
    case Bool(b) => b
    case Int(i) => i != 0
    case Float(f) => f != 0.0
    case Str(s) => s != []
    case Array(items) => items != []
    case Object(entries) => entries != []
  }

  /** The name Python gives the type of a value in its error messages. */
  function TypeName(v: Value): string {
    match v
    case Null => "NoneType"
    case Bool(_) => "bool"
    case Int(_) => "int"
    case Float(_) => "float"
    case Str(_) => "str"
    case Array(_) => "list"
    case Object(_) => "dict"
  }

  /** Names of an object's members, first occurrence first, without repeats:
      the iteration order of the dict `json.loads` builds. */
  function Keys(entries: seq<(string, Value)>): (ks: seq<string>)
    ensures forall k :: k in ks <==> exists i :: 0 <= i < |entries| && entries[i].0 == k
    ensures forall i, j :: 0 <= i < j < |ks| ==> ks[i] != ks[j]
    ensures forall i, j :: 0 <= i < j < |ks| ==> FirstBefore(entries, ks[i], ks[j])
    decreases |entries|
  {
    if |entries| == 0 then []
    else
      var front := entries[..|entries| - 1];
      var fks := Keys(front);
      var k := entries[|entries| - 1].0;
      FirstBeforeExtends(front, entries, fks);
      if k in fks then
        fks
      else
        var ks := fks + [k];
        FirstBeforeNew(front, entries, fks);
        ks
  }

  /** Some member named `a` comes before every member named `b`. */
  ghost predicate FirstBefore(entries: seq<(string, Value)>, a: string, b: string) {
    exists p :: 0 <= p < |entries| && entries[p].0 == a
      && forall q :: 0 <= q <= p ==> entries[q].0 != b
  }

  /** A name missing from the prefix comes after every name in it. */
  lemma FirstBeforeNew(front: seq<(string, Value)>, entries: seq<(string, Value)>, ks: seq<string>)
    requires |entries| == |front| + 1 && front == entries[..|front|]
    requires forall k :: k in ks <==> exists i :: 0 <= i < |front| && front[i].0 == k
    requires entries[|front|].0 !in ks
    ensures forall i :: 0 <= i < |ks| ==> FirstBefore(entries, ks[i], entries[|front|].0)
  {
    var k := entries[|front|].0;
    forall i | 0 <= i < |ks| ensures FirstBefore(entries, ks[i], k) {
      assert ks[i] in ks;
      var p :| 0 <= p < |front| && front[p].0 == ks[i];
      assert entries[p].0 == ks[i];
      forall q | 0 <= q <= p ensures entries[q].0 != k {
        assert entries[q] == front[q];
      }
    }
  }

  /** An order fixed by a prefix of the members survives the rest. */
  lemma FirstBeforeExtends(front: seq<(string, Value)>, entries: seq<(string, Value)>, ks: seq<string>)
    requires front <= entries
    requires forall i, j :: 0 <= i < j < |ks| ==> FirstBefore(front, ks[i], ks[j])
    ensures forall i, j :: 0 <= i < j < |ks| ==> FirstBefore(entries, ks[i], ks[j])
  {
    forall i, j | 0 <= i < j < |ks| ensures FirstBefore(entries, ks[i], ks[j]) {
      var p :| 0 <= p < |front| && front[p].0 == ks[i]
        && forall q :: 0 <= q <= p ==> front[q].0 != ks[j];
      assert entries[p] == front[p];
      forall q | 0 <= q <= p ensures entries[q].0 != ks[j] {
        assert entries[q] == front[q];
      }
    }
  }

  /** The elements of `[q for q in v]`, or the `TypeError` message Python
      raises for a value that is not iterable. */
  function Iterate(v: Value): (r: Result<seq<Value>>)
    ensures r.Err? <==> v.Null? || v.Bool? || v.Int? || v.Float?
    ensures r.Err? ==> r.error == "'" + TypeName(v) + "' object is not iterable"
    ensures v.Array? ==> r == Ok(v.items)
    ensures v.Str? ==>
      (r.Ok? && |r.value| == |v.s| && forall i :: 0 <= i < |v.s| ==> r.value[i] == Str([v.s[i]]))
    ensures v.Object? ==>
      (r.Ok? && |r.value| == |Keys(v.entries)|
       && forall i :: 0 <= i < |r.value| ==> r.value[i] == Str(Keys(v.entries)[i]))
  {
    match v
    case Array(items) => Ok(items)
    case Str(s) => Ok(seq(|s|, i requires 0 <= i < |s| => Str([s[i]])))
    case Object(entries) =>
      var ks := Keys(entries);
      Ok(seq(|ks|, i requires 0 <= i < |ks| => Str(ks[i])))
    case _ => Err("'" + TypeName(v) + "' object is not iterable")
  }

  /** Python's `key in v` for a string `key`: a member name of a dict, an
      element of a list, a substring of a string; `None` stands for the
      `TypeError` raised for other values. */
  function Contains(v: Value, key: string): (r: Option<bool>)
    ensures r.None? <==> v.Null? || v.Bool? || v.Int? || v.Float?
    ensures v.Object? ==> r == Some(exists i :: 0 <= i < |v.entries| && v.entries[i].0 == key)
    ensures v.Array? ==> r == Some(Str(key) in v.items)
  {
    match v
    case Object(entries) => Some(Get(entries, key).Some?)
    case Array(items) => Some(Str(key) in items)
    case Str(s) => Some(|key| == 0 || Find(s, key).Some?)
    case _ => None
  }

  /** On a string, `Contains` is the substring test. */
  lemma {:induction false} ContainsSubstring(s: string, key: string)
    requires |key| > 0
    ensures Contains(Str(s), key) == Some(Occurs(s, key))
  {
    FindFirst(s, key);
    if Find(s, key).Some? {
      assert OccursAt(s, key, Find(s, key).value);
    }
  }
}
