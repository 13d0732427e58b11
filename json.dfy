/**
 * The part of `serde_json::Value` the feed and static-data readers use: a value
 * tree whose objects are member lists standing for the entries of serde_json's
 * `Map` in its iteration order. With the crate's default features that map is
 * a `BTreeMap`: one entry per key (the last duplicate wins when parsing) and
 * ascending key order, which `Canonical` states. Indexing a non-object, or an
 * object without the key, gives `Null`, as `value["key"]` does.
 */
module Json {
  import opened Wrappers
  import opened Ints
  import Text

  datatype Json =
    | Null
    | Bool(b: bool)
    | Int(i: int)
    | Float(f: real)
    | Str(s: string)
    | Array(items: seq<Json>)
    | Object(members: seq<(string, Json)>)

  /** The value of the first member named `key`, or `Null`. */
  function Lookup(members: seq<(string, Json)>, key: string): (r: Json)
    ensures r != Null ==> (key, r) in members
    ensures (forall i :: 0 <= i < |members| ==> members[i].0 != key) ==> r == Null
  {
    if members == [] then Null
    else if members[0].0 == key then members[0].1
    else Lookup(members[1..], key)
  }

  /** `value[key]` for a string key. */
  function Get(j: Json, key: string): (r: Json)
    ensures !j.Object? ==> r == Null
  {
    if j.Object? then Lookup(j.members, key) else Null
  }

  /** `Value::as_str`. */
  function AsStr(j: Json): (r: Option<string>)
    ensures r.Some? <==> j.Str?
  {
    if j.Str? then Some(j.s) else None
  }

  /** `Value::as_object`. */
  function AsObject(j: Json): (r: Option<seq<(string, Json)>>)
    ensures r.Some? <==> j.Object?
  {
    if j.Object? then Some(j.members) else None
  }

  /** `Value::as_u64`: integers in the `u64` range only. */
  function AsU64(j: Json): (r: Option<u64>)
    ensures r.Some? <==> j.Int? && 0 <= j.i < U64_LIMIT
  {
    if j.Int? && 0 <= j.i < U64_LIMIT then Some(j.i) else None
  }

  /** The members as a `BTreeMap` yields them: keys strictly ascending, hence distinct. */
  predicate Canonical(members: seq<(string, Json)>)
  {
    forall i, j :: 0 <= i < j < |members| ==> Text.StrLess(members[i].0, members[j].0)
  }

  /** In a canonical member list, indexing by a member's key yields that member's value. */
  lemma {:induction false} CanonicalLookup(members: seq<(string, Json)>, i: nat)
    requires Canonical(members) && i < |members|
    ensures Lookup(members, members[i].0) == members[i].1
  {
    if i > 0 {
      Text.StrLessIrreflexive(members[0].0);
      assert Text.StrLess(members[0].0, members[i].0);
      assert members[1..][i - 1] == members[i];
      CanonicalLookup(members[1..], i - 1);
    }
  }
}
