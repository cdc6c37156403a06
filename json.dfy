/**
 * JSON values as `json.loads` hands them to the scraper, with Python's
 * truthiness and `dict.get`.
 */
module Json {
  import opened Wrappers

  /** A decoded JSON value; an object keeps its members in document order. */
  datatype Json =
    | JNull
    | JBool(b: bool)
    | JNum(n: int)
    | JStr(s: string)
    | JArr(items: seq<Json>)
    | JObj(members: seq<Member>)

  datatype Member = Member(key: string, value: Json)

  /** Python's `bool(v)`: null, false, 0, "", [] and {} are false. */
  predicate Truthy(j: Json) {
    match j
    case JNull => false
    case JBool(b) => b
    case JNum(n) => n != 0
    case JStr(s) => s != ""
    case JArr(xs) => xs != []
    case JObj(ms) => ms != []
  }

  /** The empty object `{}`. */
  const Empty: Json := JObj([])

  predicate HasKey(members: seq<Member>, key: string) {
    exists i :: 0 <= i < |members| && members[i].key == key
  }

  /** Position of the member named `key`, or `|members|` when there is none. */
  function KeyIndex(members: seq<Member>, key: string): (k: nat)
    ensures k <= |members|
    ensures k < |members| ==> members[k].key == key
  {
    if members == [] then 0
    else if members[0].key == key then 0
    else 1 + KeyIndex(members[1..], key)
  }

  /** `KeyIndex` finds the first member named `key`, and reaches the end only when there is none. */
  lemma {:induction false} KeyIndexIsFirst(members: seq<Member>, key: string)
    ensures forall i :: 0 <= i < KeyIndex(members, key) ==> members[i].key != key
    ensures KeyIndex(members, key) == |members| <==> !HasKey(members, key)
  {
    if members != [] && members[0].key != key {
      KeyIndexIsFirst(members[1..], key);
      if HasKey(members, key) {
        var i :| 0 <= i < |members| && members[i].key == key;
        assert members[1..][i - 1].key == key;
      }
    }
  }

  /** `d.get(key)`; `None` stands for an absent key. */
  function Get(members: seq<Member>, key: string): Option<Json> {
    var k := KeyIndex(members, key);
    if k < |members| then Some(members[k].value) else None
  }

  /** `get` finds a value exactly when the key is present, and that value belongs to the key. */
  lemma GetSpec(members: seq<Member>, key: string)
    ensures Get(members, key).Some? <==> HasKey(members, key)
    ensures Get(members, key).Some? ==>
      exists i :: 0 <= i < |members| && members[i] == Member(key, Get(members, key).value)
  {
    KeyIndexIsFirst(members, key);
  }

  predicate DistinctKeys(members: seq<Member>) {
    forall i, j :: 0 <= i < j < |members| ==> members[i].key != members[j].key
  }

  /** In an object without repeated keys, `get` finds each member's own value. */
  lemma GetOfDistinct(members: seq<Member>, i: nat)
    requires DistinctKeys(members) && i < |members|
    ensures Get(members, members[i].key) == Some(members[i].value)
  {
    KeyIndexIsFirst(members, members[i].key);
  }

  /** `v.get(key)` for a value `v` that is a dict; `None` for anything else and for an absent key. */
  function Field(v: Json, key: string): Option<Json> {
    if v.JObj? then Get(v.members, key) else None
  }

  /** `d.get(key) or default`, read as a value. */
  function FieldOr(v: Json, key: string, default: Json): Json {
    match Field(v, key)
    case Some(x) => if Truthy(x) then x else default
    case None => default
  }
}
