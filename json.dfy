/** Values produced by decoding one line of the JSON Lines dataset, and the
    handful of dynamic operations the checker performs on them: dictionary
    lookup with a default, key membership and truthiness. */
module Json {

  /** A decoded JSON value. An object keeps its members in document order,
      as a decoded dictionary iterates them. */
  datatype JVal =
    | JNull
    | JBool(b: bool)
    | JNumber(n: real)
    | JString(s: string)
    | JArray(items: seq<JVal>)
    | JObject(fields: seq<(string, JVal)>)

  /** The value bound to `key` in `fields`, if any (the first binding). */
  function Lookup(fields: seq<(string, JVal)>, key: string): (r: JVal)
    ensures (exists i :: 0 <= i < |fields| && fields[i].0 == key) || r == JNull
    ensures forall i :: 0 <= i < |fields| && fields[i].0 == key && (forall j :: 0 <= j < i ==> fields[j].0 != key)
                        ==> r == fields[i].1
  {
    if fields == [] then JNull
    else if fields[0].0 == key then fields[0].1
    else Lookup(fields[1..], key)
  }

  /** A key that is present is bound to what the lookup returns. */
  lemma {:induction false} LookupBinding(fields: seq<(string, JVal)>, key: string)
    requires exists i :: 0 <= i < |fields| && fields[i].0 == key
    ensures exists i :: 0 <= i < |fields| && fields[i] == (key, Lookup(fields, key))
  {
    if fields[0].0 == key {
      assert fields[0] == (key, Lookup(fields, key));
    } else {
      var i :| 0 <= i < |fields| && fields[i].0 == key;
      assert fields[1..][i - 1].0 == key;
      LookupBinding(fields[1..], key);
      var k :| 0 <= k < |fields[1..]| && fields[1..][k] == (key, Lookup(fields[1..], key));
      assert fields[k + 1] == (key, Lookup(fields, key));
    }
  }

  /** `key in value` for a dictionary; false for anything else. */
  predicate HasKey(v: JVal, key: string)
  {
    v.JObject? && exists i :: 0 <= i < |v.fields| && v.fields[i].0 == key
  }

  /** `value.get(key, None)` on a dictionary. */
  function Get(v: JVal, key: string): (r: JVal)
    ensures !HasKey(v, key) ==> r == JNull
    ensures HasKey(v, key) ==> exists i :: 0 <= i < |v.fields| && v.fields[i] == (key, r)
  {
    match v
    case JObject(fields) =>
      if HasKey(v, key) then LookupBinding(fields, key); Lookup(fields, key) else Lookup(fields, key)
    case _ => JNull
  }

  /** Python truthiness of a decoded value: `None`, `False`, zero, the empty
      string, the empty list and the empty dictionary are false. */
  predicate Truthy(v: JVal)
  {
    match v
    case JNull => false
    case JBool(b) => b
    case JNumber(n) => n != 0.0
    case JString(s) => s != []
    case JArray(items) => items != []
    case JObject(fields) => fields != []
  }

  /** Every member of the object is bound to a string. */
  predicate AllValuesAreStrings(fields: seq<(string, JVal)>)
  {
    forall i :: 0 <= i < |fields| ==> fields[i].1.JString?
  }
}
