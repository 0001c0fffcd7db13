/**
 * JSON values at the level the serializer sees them after parsing (nlohmann::json).
 * An object's members are kept in iteration order; nlohmann stores objects in a
 * std::map, so in a parsed document that order is ascending key order.
 * Accessors return `None` where the library throws.
 */
module JsonValues {
  import opened Wrappers

  datatype Json =
    | JNull
    | JBool(b: bool)
    | JInt(i: int)
    | JFloat(r: real)
    | JString(s: string)
    | JArray(items: seq<Json>)
    | JObject(members: seq<(string, Json)>)

  /** The value of the first member named `key` (object `find`). */
  function Lookup(members: seq<(string, Json)>, key: string): Option<Json>
  {
    if |members| == 0 then None
    else if members[0].0 == key then Some(members[0].1)
    else Lookup(members[1..], key)
  }

  /** A lookup misses exactly when no member has the key, and a hit is one of the members. */
  lemma {:induction false} LookupCharacterised(members: seq<(string, Json)>, key: string)
    ensures Lookup(members, key).None? <==> forall k :: 0 <= k < |members| ==> members[k].0 != key
    ensures Lookup(members, key).Some? ==> exists k :: 0 <= k < |members| && members[k] == (key, Lookup(members, key).value)
  {
    if |members| > 0 && members[0].0 != key {
      LookupCharacterised(members[1..], key);
      if Lookup(members, key).Some? {
        var k :| 0 <= k < |members[1..]| && members[1..][k] == (key, Lookup(members, key).value);
        assert members[k + 1] == members[1..][k];
      }
      assert forall k :: 1 <= k < |members| ==> members[k] == members[1..][k - 1];
    }
  }

  /** The member at index `k` is what a lookup of its key finds when no earlier member has that key. */
  lemma {:induction false} LookupAt(members: seq<(string, Json)>, key: string, k: nat)
    requires k < |members| && members[k].0 == key
    requires forall p :: 0 <= p < k ==> members[p].0 != key
    ensures Lookup(members, key) == Some(members[k].1)
  {
    if k > 0 {
      LookupAt(members[1..], key, k - 1);
    }
  }

  /** `j.contains(key) ? j[key]`: a non-object contains nothing. */
  function Member(j: Json, key: string): Option<Json>
  {
    if j.JObject? then Lookup(j.members, key) else None
  }

  /** `j.contains(key) && j[key].is_object()` */
  predicate HasObject(j: Json, key: string)
  {
    Member(j, key).Some? && Member(j, key).value.JObject?
  }

  /** `j.contains(key) && j[key].is_array()` */
  predicate HasArray(j: Json, key: string)
  {
    Member(j, key).Some? && Member(j, key).value.JArray?
  }

  /** The members of `j[key]` when it is an object, else none (the loops over `items()`). */
  function MembersAt(j: Json, key: string): seq<(string, Json)>
  {
    if HasObject(j, key) then Member(j, key).value.members else []
  }

  /**
   * The `entities` definitions of a game configuration, as loadTypeRefs and
   * loadAssetsFromConfig both iterate them; none when the configuration cannot be
   * read (`None`) or has no `entities` object.
   */
  function Definitions(config: Option<Json>): seq<(string, Json)>
  {
    if config.Some? then MembersAt(config.value, "entities") else []
  }

  /** A floating-point value converted to int by static_cast: truncation toward zero. */
  function Trunc(r: real): (n: int)
    ensures r >= 0.0 ==> n as real <= r < n as real + 1.0
    ensures r < 0.0 ==> n as real - 1.0 < r <= n as real
  {
    if r >= 0.0 then r.Floor else -((-r).Floor)
  }

  /** `get<int>()`: numbers and booleans convert, anything else throws. */
  function GetInt(j: Json): Option<int>
  {
    match j
    case JInt(i) => Some(i)
    case JFloat(r) => Some(Trunc(r))
    case JBool(b) => Some(if b then 1 else 0)
    case _ => None
  }

  /** `get<float>()`: numbers and booleans convert, anything else throws. */
  function GetFloat(j: Json): Option<real>
  {
    match j
    case JInt(i) => Some(i as real)
    case JFloat(r) => Some(r)
    case JBool(b) => Some(if b then 1.0 else 0.0)
    case _ => None
  }

  /** `get<std::string>()`: only strings convert. */
  function GetString(j: Json): Option<string>
  {
    if j.JString? then Some(j.s) else None
  }

  /**
   * `j.value(key, default)` for an int: throws on a non-object receiver or a
   * member of the wrong type, yields `default` when the key is absent.
   */
  function ValueInt(j: Json, key: string, default: int): (r: Option<int>)
    ensures !j.JObject? ==> r.None?
    ensures j.JObject? && Lookup(j.members, key).None? ==> r == Some(default)
  {
    if !j.JObject? then None
    else match Lookup(j.members, key)
      case None => Some(default)
      case Some(v) => GetInt(v)
  }

  /** `j.value(key, default)` for a float. */
  function ValueFloat(j: Json, key: string, default: real): (r: Option<real>)
    ensures !j.JObject? ==> r.None?
    ensures j.JObject? && Lookup(j.members, key).None? ==> r == Some(default)
  {
    if !j.JObject? then None
    else match Lookup(j.members, key)
      case None => Some(default)
      case Some(v) => GetFloat(v)
  }

  /** `j.value(key, default)` for a string. */
  function ValueString(j: Json, key: string, default: string): (r: Option<string>)
    ensures !j.JObject? ==> r.None?
    ensures j.JObject? && Lookup(j.members, key).None? ==> r == Some(default)
  {
    if !j.JObject? then None
    else match Lookup(j.members, key)
      case None => Some(default)
      case Some(v) => GetString(v)
  }

  /** Object members have pairwise distinct keys, as in any nlohmann object. */
  predicate DistinctKeys(members: seq<(string, Json)>)
  {
    forall a, b :: 0 <= a < b < |members| ==> members[a].0 != members[b].0
  }
}
