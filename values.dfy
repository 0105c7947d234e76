/**
 * PHP values as the exporter handles them: scalars, arrays (ordered maps
 * whose keys are integers or strings) and objects seen through an (array)
 * cast. JSON decoding produces the same shapes (a JSON object decodes to a
 * string-keyed array, a JSON list to an integer-keyed one).
 */
module Values {
  import opened Wrappers

  /** A PHP array key. PHP turns canonical numeric strings into integer keys;
      a `StrKey` here stands for a key that stayed a string. */
  datatype Key = IntKey(i: int) | StrKey(s: string)

  datatype Json =
    | JNull
    | JBool(b: bool)
    | JInt(i: int)
    | JString(s: string)
      /** A PHP array, in its insertion order. */
    | JArray(entries: seq<(Key, Json)>)
      /** An object, by the properties an (array) cast lists, each named as it
          reads once the visibility prefix of a non-public property is removed. */
    | JObject(props: seq<(string, Json)>)

  /** An array with string keys, in the given order (what a PHP literal
      `['a' => ..., 'b' => ...]` builds). */
  function Obj(fields: seq<(string, Json)>): (v: Json)
    ensures v.JArray? && |v.entries| == |fields|
    ensures forall i :: 0 <= i < |fields| ==> v.entries[i] == (StrKey(fields[i].0), fields[i].1)
  {
    JArray(seq(|fields|, i requires 0 <= i < |fields| => (StrKey(fields[i].0), fields[i].1)))
  }

  /** A list: the values under the keys 0, 1, 2, ... */
  function List(values: seq<Json>): (v: Json)
    ensures v.JArray? && |v.entries| == |values|
    ensures forall i :: 0 <= i < |values| ==> v.entries[i] == (IntKey(i), values[i])
  {
    JArray(seq(|values|, i requires 0 <= i < |values| => (IntKey(i), values[i])))
  }

  /** `$a[$k]`: the value stored under k, if any. */
  function Lookup(entries: seq<(Key, Json)>, k: Key): (r: Option<Json>)
    ensures r.Some? <==> exists i :: 0 <= i < |entries| && entries[i].0 == k
    ensures r.Some? ==> exists i :: 0 <= i < |entries| && entries[i] == (k, r.value)
    decreases |entries|
  {
    if entries == [] then None
    else if entries[0].0 == k then Some(entries[0].1)
    else
      var r := Lookup(entries[1..], k);
      assert forall i :: 0 < i < |entries| ==> entries[i] == entries[1..][i - 1];
      r
  }

  /** `isset($a[$k])`: present and not null. */
  predicate Isset(entries: seq<(Key, Json)>, k: Key) {
    var r := Lookup(entries, k);
    r.Some? && r.value != JNull
  }
}
