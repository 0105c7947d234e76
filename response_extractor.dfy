/**
 * Response-shape sampling: the dotted key paths of a value, the example
 * body that maps each path to itself, the sample of a paginated item, the
 * fake pagination blocks, and the dispatch over the kind of value a
 * controller action returned.
 *
 * Invoking the action (and the resource conversions it triggers) is not
 * modelled: its outcome is an input, a `ResponseValue` or a failure.
 */
module ResponseExtractor {
  import opened Wrappers
  import opened Values
  import opened Php
  import opened Sequences

  // ---------------------------------------------------------------------
  // Dotted key paths
  // ---------------------------------------------------------------------

  /** `prefix.p` for every p, in order. */
  function Prefixed(prefix: string, ps: seq<string>): (r: seq<string>)
    ensures |r| == |ps|
    ensures forall i :: 0 <= i < |ps| ==> r[i] == prefix + "." + ps[i]
  {
    seq(|ps|, i requires 0 <= i < |ps| => prefix + "." + ps[i])
  }

  /** The head an array entry contributes: its key when that is a non-empty
      string key. Integer keys (list elements) contribute nothing. */
  function EntryLabel(k: Key): Option<string> {
    if k.StrKey? && k.s != "" then Some(k.s) else None
  }

  /** The head an object property contributes: its name unless empty. */
  function PropLabel(name: string): Option<string> {
    if name != "" then Some(name) else None
  }

  /** What one labelled member contributes before duplicates and falsy
      strings are removed: its head, then its head prefixed to each path
      of its value. */
  function Block(head: Option<string>, nested: seq<string>): seq<string> {
    if head.Some? then [head.value] + Prefixed(head.value, nested) else []
  }

  /** The keys of `extractAllKeys`: every path of the value, each once, in the
      order of first occurrence, with no empty or "0" path. */
  function Paths(v: Json): (p: seq<string>)
    ensures NoDuplicates(p)
    ensures forall x :: x in p ==> Truthy(x)
    decreases v
  {
    match v
    case JArray(es) => Unique(NonFalsy(EntriesRaw(v, |es|)))
    case JObject(ps) => Unique(NonFalsy(PropsRaw(v, |ps|)))
    case _ => []
  }

  /** The labels and paths the first n entries of an array contribute, before
      filtering. */
  function EntriesRaw(v: Json, n: nat): seq<string>
    requires v.JArray? && n <= |v.entries|
    decreases v, n
  {
    if n == 0 then []
    else
      var e := v.entries[n - 1];
      assert e in v.entries;
      EntriesRaw(v, n - 1) + Block(EntryLabel(e.0), Paths(e.1))
  }

  /** The same for the first n properties of an object. */
  function PropsRaw(v: Json, n: nat): seq<string>
    requires v.JObject? && n <= |v.props|
    decreases v, n
  {
    if n == 0 then []
    else
      var p := v.props[n - 1];
      assert p in v.props;
      PropsRaw(v, n - 1) + Block(PropLabel(p.0), Paths(p.1))
  }

  lemma EntriesRawStep(v: Json, i: nat)
    requires v.JArray? && i < |v.entries|
    ensures EntriesRaw(v, i + 1) == EntriesRaw(v, i) + Block(EntryLabel(v.entries[i].0), Paths(v.entries[i].1))
  {
  }

  lemma PropsRawStep(v: Json, i: nat)
    requires v.JObject? && i < |v.props|
    ensures PropsRaw(v, i + 1) == PropsRaw(v, i) + Block(PropLabel(v.props[i].0), Paths(v.props[i].1))
  {
  }

  /** One more entry of the walk, with the block spelled out. */
  lemma EntriesRawNext(v: Json, i: nat)
    requires v.JArray? && i < |v.entries|
    ensures var e := v.entries[i];
      EntriesRaw(v, i + 1) == if EntryLabel(e.0).Some?
        then EntriesRaw(v, i) + [EntryLabel(e.0).value] + Prefixed(EntryLabel(e.0).value, Paths(e.1))
        else EntriesRaw(v, i)
  {
    EntriesRawStep(v, i);
    var e := v.entries[i];
    if EntryLabel(e.0).None? {
      assert EntriesRaw(v, i) + [] == EntriesRaw(v, i);
    }
  }

  /** One more property of the walk, with the block spelled out. */
  lemma PropsRawNext(v: Json, i: nat)
    requires v.JObject? && i < |v.props|
    ensures var p := v.props[i];
      PropsRaw(v, i + 1) == if PropLabel(p.0).Some?
        then PropsRaw(v, i) + [PropLabel(p.0).value] + Prefixed(PropLabel(p.0).value, Paths(p.1))
        else PropsRaw(v, i)
  {
    PropsRawStep(v, i);
    var p := v.props[i];
    if PropLabel(p.0).None? {
      assert PropsRaw(v, i) + [] == PropsRaw(v, i);
    }
  }

  /** extractAllKeys: the paths of a value. */
  method ExtractAllKeys(v: Json) returns (keys: seq<string>)
    ensures keys == Paths(v)
    decreases v, 2
  {
    var raw: seq<string> := [];
    if v.JArray? {
      raw := EntriesKeys(v);
    } else if v.JObject? {
      raw := PropsKeys(v);
    }
    keys := Unique(NonFalsy(raw));
  }

  /** The loop over an array's entries, before filtering. */
  method EntriesKeys(v: Json) returns (raw: seq<string>)
    requires v.JArray?
    ensures raw == EntriesRaw(v, |v.entries|)
    decreases v, 1
  {
    raw := [];
    var i := 0;
    while i < |v.entries|
      invariant 0 <= i <= |v.entries|
      invariant raw == EntriesRaw(v, i)
    {
      raw := EntryKeys(v, i, raw);
      i := i + 1;
    }
  }

  /** The loop over an object's properties, before filtering. */
  method PropsKeys(v: Json) returns (raw: seq<string>)
    requires v.JObject?
    ensures raw == PropsRaw(v, |v.props|)
    decreases v, 1
  {
    raw := [];
    var i := 0;
    while i < |v.props|
      invariant 0 <= i <= |v.props|
      invariant raw == PropsRaw(v, i)
    {
      raw := PropKeys(v, i, raw);
      i := i + 1;
    }
  }

  /** One entry of the array loop: skipped unless its key is a non-empty
      string; otherwise the key, then the key prefixed to each path of its
      value. */
  method EntryKeys(v: Json, i: nat, raw: seq<string>) returns (raw': seq<string>)
    requires v.JArray? && i < |v.entries| && raw == EntriesRaw(v, i)
    ensures raw' == EntriesRaw(v, i + 1)
    decreases v, 0
  {
    var e := v.entries[i];
    assert e in v.entries;
    EntriesRawNext(v, i);
    raw' := raw;
    if EntryLabel(e.0).Some? {
      var head := EntryLabel(e.0).value;
      var nested := ExtractAllKeys(e.1);
      raw' := AppendPrefixed(raw + [head], head, nested);
    }
  }

  /** One property of the object loop, likewise, under its cleaned name. */
  method PropKeys(v: Json, i: nat, raw: seq<string>) returns (raw': seq<string>)
    requires v.JObject? && i < |v.props| && raw == PropsRaw(v, i)
    ensures raw' == PropsRaw(v, i + 1)
    decreases v, 0
  {
    var p := v.props[i];
    assert p in v.props;
    PropsRawNext(v, i);
    raw' := raw;
    if PropLabel(p.0).Some? {
      var head := PropLabel(p.0).value;
      var nested := ExtractAllKeys(p.1);
      raw' := AppendPrefixed(raw + [head], head, nested);
    }
  }

  /** The inner loop: each nested path appended under the key. */
  method AppendPrefixed(raw: seq<string>, head: string, nested: seq<string>) returns (r: seq<string>)
    ensures r == raw + Prefixed(head, nested)
  {
    r := raw;
    var j := 0;
    while j < |nested|
      invariant 0 <= j <= |nested|
      invariant r == raw + Prefixed(head, nested[..j])
    {
      r := r + [head + "." + nested[j]];
      j := j + 1;
    }
    assert nested[..j] == nested;
  }

  /** Whether x is among what an array entry contributes. */
  predicate ContributedBy(e: (Key, Json), x: string)
    decreases e, 0
  {
    x in Block(EntryLabel(e.0), Paths(e.1))
  }

  lemma PrefixedMembers(head: string, ps: seq<string>, x: string)
    ensures x in Prefixed(head, ps) <==> exists p :: p in ps && x == head + "." + p
  {
    var pre := Prefixed(head, ps);
    if x in pre {
      var i :| 0 <= i < |pre| && pre[i] == x;
      assert ps[i] in ps;
    }
    if exists p :: p in ps && x == head + "." + p {
      var p :| p in ps && x == head + "." + p;
      var i :| 0 <= i < |ps| && ps[i] == p;
      assert pre[i] == x;
    }
  }

  /** The blocks, one after another. */
  function Flatten<T>(bs: seq<seq<T>>): seq<T>
    decreases |bs|
  {
    if bs == [] then [] else Flatten(bs[..|bs| - 1]) + bs[|bs| - 1]
  }

  lemma {:induction false} FlattenMembers<T>(bs: seq<seq<T>>, x: T)
    ensures x in Flatten(bs) <==> exists i :: 0 <= i < |bs| && x in bs[i]
    decreases |bs|
  {
    if bs != [] {
      var n := |bs| - 1;
      FlattenMembers(bs[..n], x);
      if exists i :: 0 <= i < |bs| && x in bs[i] {
        var i :| 0 <= i < |bs| && x in bs[i];
        if i < n {
          assert bs[..n][i] == bs[i];
        }
      }
      if exists i :: 0 <= i < n && x in bs[..n][i] {
        var i :| 0 <= i < n && x in bs[..n][i];
        assert bs[i] == bs[..n][i];
      }
    }
  }

  /** What each of the first n entries of an array contributes. */
  function Blocks(v: Json, n: nat): (bs: seq<seq<string>>)
    requires v.JArray? && n <= |v.entries|
    ensures |bs| == n
  {
    seq(n, i requires 0 <= i < n => Block(EntryLabel(v.entries[i].0), Paths(v.entries[i].1)))
  }

  lemma {:induction false} RawIsFlatten(v: Json, n: nat)
    requires v.JArray? && n <= |v.entries|
    ensures EntriesRaw(v, n) == Flatten(Blocks(v, n))
    decreases n
  {
    if n > 0 {
      RawIsFlatten(v, n - 1);
      EntriesRawStep(v, n - 1);
      assert Blocks(v, n)[..n - 1] == Blocks(v, n - 1);
    }
  }

  /** What the entries before n contribute, by membership. */
  lemma EntriesRawMembers(v: Json, n: nat, x: string)
    requires v.JArray? && n <= |v.entries|
    ensures x in EntriesRaw(v, n) <==> exists i :: 0 <= i < n && ContributedBy(v.entries[i], x)
  {
    var bs := Blocks(v, n);
    RawIsFlatten(v, n);
    FlattenMembers(bs, x);
    if exists i :: 0 <= i < n && ContributedBy(v.entries[i], x) {
      var i :| 0 <= i < n && ContributedBy(v.entries[i], x);
      assert x in bs[i];
    }
    if exists i :: 0 <= i < n && x in bs[i] {
      var i :| 0 <= i < n && x in bs[i];
      assert ContributedBy(v.entries[i], x);
    }
  }

  /** The paths of an array, by membership: a path is a non-empty string key
      of one of its entries (other than "0"), or such a key, a dot and a path
      of that entry's value. Entries with integer keys contribute nothing. */
  lemma ArrayPathsMembers(es: seq<(Key, Json)>, x: string)
    ensures x in Paths(JArray(es)) <==>
      Truthy(x) &&
      (exists i :: 0 <= i < |es| && es[i].0.StrKey? && es[i].0.s != "" &&
        (x == es[i].0.s || exists p :: p in Paths(es[i].1) && x == es[i].0.s + "." + p))
  {
    EntriesRawMembers(JArray(es), |es|, x);
    forall i | 0 <= i < |es| && es[i].0.StrKey? {
      PrefixedMembers(es[i].0.s, Paths(es[i].1), x);
    }
  }

  /** The paths of an array follow the order in which each first occurs in
      the walk (keys, each followed by its nested paths). */
  lemma ArrayPathsOrder(es: seq<(Key, Json)>)
    ensures var raw := NonFalsy(EntriesRaw(JArray(es), |es|));
      var p := Paths(JArray(es));
      forall i, j :: 0 <= i < j < |p| ==> p[i] in raw && p[j] in raw && FirstIndex(raw, p[i]) < FirstIndex(raw, p[j])
  {
    UniqueKeepsFirstOccurrenceOrder(NonFalsy(EntriesRaw(JArray(es), |es|)));
  }

  lemma {:induction false} ListRawEmpty(es: seq<(Key, Json)>, n: nat)
    requires n <= |es|
    requires forall i :: 0 <= i < |es| ==> es[i].0.IntKey?
    ensures EntriesRaw(JArray(es), n) == []
    decreases n
  {
    if n > 0 {
      ListRawEmpty(es, n - 1);
      EntriesRawStep(JArray(es), n - 1);
      assert Block(EntryLabel(es[n - 1].0), Paths(es[n - 1].1)) == [];
    }
  }

  /** An array whose keys are all integers (a list) has no paths: list
      elements are neither recorded nor descended into. */
  lemma ListHasNoPaths(es: seq<(Key, Json)>)
    requires forall i :: 0 <= i < |es| ==> es[i].0.IntKey?
    ensures Paths(JArray(es)) == []
  {
    ListRawEmpty(es, |es|);
  }

  /** A flat array whose string keys are distinct and truthy has exactly its
      keys as paths, in order. */
  lemma {:induction false} FlatPaths(es: seq<(Key, Json)>, n: nat)
    requires n <= |es|
    requires forall i :: 0 <= i < |es| ==> es[i].0.StrKey? && Truthy(es[i].0.s)
    requires forall i :: 0 <= i < |es| ==> Paths(es[i].1) == []
    ensures var raw := EntriesRaw(JArray(es), n);
      |raw| == n && forall i :: 0 <= i < n ==> raw[i] == es[i].0.s
    decreases n
  {
    if n > 0 {
      FlatPaths(es, n - 1);
      FlatStep(es, n - 1);
      KeysStep(EntriesRaw(JArray(es), n - 1), EntriesRaw(JArray(es), n), es, n);
    }
  }

  /** A flat entry with a truthy string key adds just that key. */
  lemma FlatStep(es: seq<(Key, Json)>, i: nat)
    requires i < |es| && es[i].0.StrKey? && Truthy(es[i].0.s) && Paths(es[i].1) == []
    ensures EntriesRaw(JArray(es), i + 1) == EntriesRaw(JArray(es), i) + [es[i].0.s]
  {
    var e := es[i];
    assert EntryLabel(e.0) == Some(e.0.s);
    EntriesRawNext(JArray(es), i);
    NothingNested(EntriesRaw(JArray(es), i), e.0.s, Paths(e.1));
  }

  lemma KeysStep(before: seq<string>, after: seq<string>, es: seq<(Key, Json)>, n: nat)
    requires 0 < n <= |es| && forall i :: 0 <= i < n ==> es[i].0.StrKey?
    requires |before| == n - 1 && forall i :: 0 <= i < n - 1 ==> before[i] == es[i].0.s
    requires after == before + [es[n - 1].0.s]
    ensures |after| == n && forall i :: 0 <= i < n ==> after[i] == es[i].0.s
  {
  }

  lemma NothingNested(raw: seq<string>, head: string, nested: seq<string>)
    requires nested == []
    ensures raw + [head] + Prefixed(head, nested) == raw + [head]
  {
    assert Prefixed(head, nested) == [];
  }

  lemma FlatArrayPaths(es: seq<(Key, Json)>)
    requires forall i :: 0 <= i < |es| ==> es[i].0.StrKey? && Truthy(es[i].0.s)
    requires forall i :: 0 <= i < |es| ==> Paths(es[i].1) == []
    requires forall i, j :: 0 <= i < j < |es| ==> es[i].0 != es[j].0
    ensures Paths(JArray(es)) == seq(|es|, i requires 0 <= i < |es| => es[i].0.s)
  {
    var ks := seq(|es|, i requires 0 <= i < |es| => es[i].0.s);
    FlatPaths(es, |es|);
    assert EntriesRaw(JArray(es), |es|) == ks;
    NonFalsyOfTruthy(ks);
    UniqueOfDistinct(ks);
  }

  lemma FlatExample()
    ensures Paths(Obj([("b", JInt(1)), ("c", JInt(2))])) == ["b", "c"]
  {
    var es := [(StrKey("b"), JInt(1)), (StrKey("c"), JInt(2))];
    ObjOfTwo("b", JInt(1), "c", JInt(2));
    FlatTwo(es);
  }

  lemma ObjOfTwo(a: string, x: Json, b: string, y: Json)
    ensures Obj([(a, x), (b, y)]) == JArray([(StrKey(a), x), (StrKey(b), y)])
  {
  }

  lemma FlatTwo(es: seq<(Key, Json)>)
    requires es == [(StrKey("b"), JInt(1)), (StrKey("c"), JInt(2))]
    ensures Paths(JArray(es)) == ["b", "c"]
  {
    assert Truthy("b") && Truthy("c");
    forall i | 0 <= i < |es| ensures es[i].0.StrKey? && Truthy(es[i].0.s) && Paths(es[i].1) == [] {
      assert i == 0 || i == 1;
    }
    FlatArrayPaths(es);
    var ks := seq(|es|, i requires 0 <= i < |es| => es[i].0.s);
    assert |ks| == 2 && ks[0] == "b" && ks[1] == "c";
  }

  lemma NestedExampleRaw(outer: Json, inner: Json)
    requires Paths(inner) == ["b", "c"]
    requires outer == JArray([(StrKey("a"), inner), (StrKey("d"), JInt(3))])
    ensures EntriesRaw(outer, 2) == ["a", "a.b", "a.c", "d"]
  {
    EntriesRawStep(outer, 0);
    EntriesRawStep(outer, 1);
    PrefixedExample();
    assert Paths(JInt(3)) == [];
  }

  lemma PrefixedExample()
    ensures Block(Some("a"), ["b", "c"]) == ["a", "a.b", "a.c"]
  {
    var pre := Prefixed("a", ["b", "c"]);
    assert "a" + "." + "b" == "a.b" && "a" + "." + "c" == "a.c";
    assert |pre| == 2 && pre[0] == "a.b" && pre[1] == "a.c";
  }

  /** The paths of `{a: {b: 1, c: 2}, d: 3}` are `a`, `a.b`, `a.c`, `d`. */
  lemma NestedExample()
    ensures Paths(Obj([("a", Obj([("b", JInt(1)), ("c", JInt(2))])), ("d", JInt(3))])) == ["a", "a.b", "a.c", "d"]
  {
    var inner := Obj([("b", JInt(1)), ("c", JInt(2))]);
    FlatExample();
    var outer := Obj([("a", inner), ("d", JInt(3))]);
    ObjOfTwo("a", inner, "d", JInt(3));
    NestedExampleRaw(outer, inner);
    var ks := ["a", "a.b", "a.c", "d"];
    ArrayPathsUnfold(outer);
    ExamplePathsDistinct(ks);
  }

  lemma ArrayPathsUnfold(v: Json)
    requires v.JArray?
    ensures Paths(v) == Unique(NonFalsy(EntriesRaw(v, |v.entries|)))
  {
  }

  lemma ExamplePathsDistinct(ks: seq<string>)
    requires ks == ["a", "a.b", "a.c", "d"]
    ensures Unique(NonFalsy(ks)) == ks
  {
    assert NoDuplicates(ks) by {
      forall i, j | 0 <= i < j < |ks| ensures ks[i] != ks[j] {
        assert ks[i][0] != ks[j][0] || |ks[i]| != |ks[j]| || ks[i][|ks[i]| - 1] != ks[j][|ks[j]| - 1];
      }
    }
    NonFalsyOfTruthy(ks);
    UniqueOfDistinct(ks);
  }

  // ---------------------------------------------------------------------
  // Example bodies
  // ---------------------------------------------------------------------

  /** `array_combine($keys, $keys)`: every key mapped to itself, each once,
      in the order of first occurrence. */
  function SelfMap(keys: seq<string>): (m: Json)
    ensures m.JArray? && |m.entries| == |Unique(keys)|
    ensures forall i :: 0 <= i < |m.entries| ==>
      m.entries[i] == (StrKey(Unique(keys)[i]), JString(Unique(keys)[i]))
  {
    var u := Unique(keys);
    JArray(seq(|u|, i requires 0 <= i < |u| => (StrKey(u[i]), JString(u[i]))))
  }

  /** The example body holds exactly the given keys, each mapped to itself. */
  lemma SelfMapLookup(keys: seq<string>, k: string)
    ensures Lookup(SelfMap(keys).entries, StrKey(k)) == (if k in keys then Some(JString(k)) else None)
  {
    var m := SelfMap(keys);
    var r := Lookup(m.entries, StrKey(k));
    if k in keys {
      assert k in Unique(keys);
      var i :| 0 <= i < |Unique(keys)| && Unique(keys)[i] == k;
      assert m.entries[i].0 == StrKey(k);
    }
  }

  /** A self-map of distinct keys keeps them all, in their order. */
  lemma SelfMapOfDistinct(keys: seq<string>)
    requires NoDuplicates(keys)
    ensures |SelfMap(keys).entries| == |keys|
    ensures forall i :: 0 <= i < |keys| ==> SelfMap(keys).entries[i] == (StrKey(keys[i]), JString(keys[i]))
  {
    UniqueOfDistinct(keys);
  }

  /** The example body of a value: each of its paths mapped to itself. */
  function ExampleOf(v: Json): (m: Json)
    ensures m.JArray? && |m.entries| == |Paths(v)|
    ensures forall i :: 0 <= i < |m.entries| ==> m.entries[i] == (StrKey(Paths(v)[i]), JString(Paths(v)[i]))
  {
    SelfMapOfDistinct(Paths(v));
    SelfMap(Paths(v))
  }

  /** A self-map of exactly the keys in ks: each key present maps to itself. */
  ghost predicate MapsKeysToThemselves(m: Json, ks: seq<string>) {
    m.JArray? && forall k :: Lookup(m.entries, StrKey(k)) == (if k in ks then Some(JString(k)) else None)
  }

  // ---------------------------------------------------------------------
  // Samples and pagination
  // ---------------------------------------------------------------------

  /** The first item of a page, as `getDataSample` distinguishes it. */
  datatype Item =
      /** An Eloquent model: its fillable fields and the names of its attributes. */
    | ModelItem(fillable: seq<string>, attributes: seq<string>)
      /** Any other value; only an array is sampled. */
    | PlainItem(value: Json)

  /** The keys of a model's sample: its fillable fields, else its attribute names. */
  function ModelKeys(fillable: seq<string>, attributes: seq<string>): seq<string> {
    if fillable != [] then fillable else attributes
  }

  /** getDataSample: a sample body for the first item of a page, never empty. */
  function GetDataSample(item: Option<Item>): (r: Json)
    ensures r.JArray? && |r.entries| >= 1
    ensures item.Some? && item.value.ModelItem? ==>
      MapsKeysToThemselves(r,
        if item.value.fillable != [] then item.value.fillable
        else if item.value.attributes != [] then item.value.attributes
        else ["id"])
    ensures item.Some? && item.value.PlainItem? && item.value.value.JArray? ==>
      MapsKeysToThemselves(r, if Paths(item.value.value) != [] then Paths(item.value.value) else ["example"])
    ensures item.None? || (item.value.PlainItem? && !item.value.value.JArray?) ==>
      r == Obj([("example", JString("example"))])
  {
    match item
    case Some(ModelItem(fillable, attributes)) =>
      var ks := ModelKeys(fillable, attributes);
      var ks' := if ks != [] then ks else ["id"];
      SelfMapAll(ks');
      SelfMap(ks')
    case Some(PlainItem(v)) =>
      if v.JArray? then
        var ks := Paths(v);
        var ks' := if ks != [] then ks else ["example"];
        SelfMapAll(ks');
        SelfMap(ks')
      else
        Obj([("example", JString("example"))])
    case None =>
      Obj([("example", JString("example"))])
  }

  lemma SelfMapAll(keys: seq<string>)
    requires keys != []
    ensures MapsKeysToThemselves(SelfMap(keys), keys)
    ensures |SelfMap(keys).entries| >= 1
  {
    SelfMapMaps(keys);
    assert keys[0] in Unique(keys);
  }

  /** `array_combine($keys, $keys)` maps exactly the given keys to themselves. */
  lemma SelfMapMaps(keys: seq<string>)
    ensures MapsKeysToThemselves(SelfMap(keys), keys)
  {
    forall k ensures Lookup(SelfMap(keys).entries, StrKey(k)) == (if k in keys then Some(JString(k)) else None) {
      SelfMapLookup(keys, k);
    }
  }

  /** What kind of paginator a value is. */
  datatype Paginator =
    | LengthAware(perPage: int)
    | Simple(perPage: int)
    | NotAPaginator

  /** fakePagination: the `meta` and `links` members, or nothing. */
  function FakePagination(p: Paginator): (block: seq<(string, Json)>)
    ensures p.NotAPaginator? <==> block == []
    ensures !p.NotAPaginator? ==>
      |block| == 2 && block[0].0 == "meta" && block[1].0 == "links" && block[0].1.JArray?
    ensures p.LengthAware? ==> block == [
      ("meta", Obj([("current_page", JInt(1)), ("last_page", JInt(10)), ("per_page", JInt(p.perPage)), ("total", JInt(150))])),
      ("links", Obj([("first", JString("{baseUrl}/?page=1")), ("last", JString("{baseUrl}/?page=10")),
                     ("prev", JNull), ("next", JString("{baseUrl}/?page=2"))]))]
    ensures p.Simple? ==> block == [
      ("meta", Obj([("current_page", JInt(1)), ("per_page", JInt(p.perPage))])),
      ("links", Obj([("prev_page_url", JNull), ("next_page_url", JString("{baseUrl}/?page=2"))]))]
  {
    match p
    case LengthAware(n) =>
      [("meta", Obj([("current_page", JInt(1)), ("last_page", JInt(10)), ("per_page", JInt(n)), ("total", JInt(150))])),
       ("links", Obj([("first", JString("{baseUrl}/?page=1")), ("last", JString("{baseUrl}/?page=10")),
                      ("prev", JNull), ("next", JString("{baseUrl}/?page=2"))]))]
    case Simple(n) =>
      [("meta", Obj([("current_page", JInt(1)), ("per_page", JInt(n))])),
       ("links", Obj([("prev_page_url", JNull), ("next_page_url", JString("{baseUrl}/?page=2"))]))]
    case NotAPaginator => []
  }

  /** The `per_page` member of the meta block of a paginator. */
  function PerPageOf(block: seq<(string, Json)>): Option<Json> {
    if |block| >= 1 && block[0].0 == "meta" && block[0].1.JArray? then
      var m := Lookup(block[0].1.entries, StrKey("per_page"));
      m
    else None
  }

  /** Both paginators report their page size as `per_page`. */
  lemma PerPageReported(p: Paginator)
    requires !p.NotAPaginator?
    ensures PerPageOf(FakePagination(p)) == Some(JInt(p.perPage))
  {
    var m := FakePagination(p)[0].1;
    assert m.entries[0].0 == StrKey("current_page");
    if p.LengthAware? {
      assert m.entries[1].0 == StrKey("last_page");
      assert m.entries[2] == (StrKey("per_page"), JInt(p.perPage));
      assert m.entries[1..][1..] == m.entries[2..];
    } else {
      assert m.entries[1] == (StrKey("per_page"), JInt(p.perPage));
    }
  }

  // ---------------------------------------------------------------------
  // The dispatch over the returned value
  // ---------------------------------------------------------------------

  /** The class a resource collection declares it collects. */
  datatype Collects =
    | NotSet
      /** A JsonResource subclass; `fakeData` is what it converts a fake model to. */
    | ResourceClass(fakeData: Json)
      /** A class that is not a JsonResource. */
    | OtherClass

  /** The first member of a resource collection's underlying collection. */
  datatype Member =
    | ResourceMember(data: Json)
    | ModelMember(fillable: seq<string>, attributes: seq<string>)
    | OtherMember

  /** The value a controller action returned, by the kinds `guess` tells apart. */
  datatype ResponseValue =
      /** A single JsonResource, with what its conversion yields. */
    | Resource(data: Json)
      /** A resource collection: the class it collects, its first member (None
          when empty), its underlying resource, and what its conversion yields. */
    | ResourceCollection(collects: Collects, first: Option<Member>, inner: Paginator, data: Json)
      /** A length-aware paginator, with its first item if any. */
    | LengthAwarePage(firstItem: Option<Item>, perPage: int)
      /** A simple paginator, with its first item if any. */
    | SimplePage(firstItem: Option<Item>, perPage: int)
    | ModelValue(fillable: seq<string>, attributes: seq<string>)
    | ArrayValue(value: Json)
      /** Another object with a `toArray` method, with what that yields. */
    | Arrayable(converted: Json)
    | OtherValue

  /** The outcome of invoking the action: a failure is any exception. */
  datatype Invocation = Failed | Returned(value: ResponseValue)

  /** `['data' => [$sample]]`, optionally followed by pagination members. */
  function DataWrapped(sample: Json, pagination: seq<(string, Json)>): (r: Json)
    ensures r.JArray? && |r.entries| == 1 + |pagination|
    ensures r.entries[0] == (StrKey("data"), List([sample]))
    ensures forall i :: 0 <= i < |pagination| ==> r.entries[i + 1] == (StrKey(pagination[i].0), pagination[i].1)
  {
    Obj([("data", List([sample]))] + pagination)
  }

  /** The resource collection branch, in the order of its tests. */
  function GuessCollection(collects: Collects, first: Option<Member>, inner: Paginator, data: Json): Option<Json> {
    if collects.NotSet? && first.Some? && first.value.ResourceMember? then
      Some(DataWrapped(ExampleOf(first.value.data), []))
    else if collects.NotSet? && first.Some? && first.value.ModelMember? then
      Some(DataWrapped(SelfMap(ModelKeys(first.value.fillable, first.value.attributes)), []))
    else if collects.ResourceClass? then
      Some(DataWrapped(ExampleOf(collects.fakeData), FakePagination(inner)))
    else if data.JArray? && Isset(data.entries, StrKey("data"))
         && Lookup(data.entries, StrKey("data")).value.JArray?
         && Isset(Lookup(data.entries, StrKey("data")).value.entries, IntKey(0)) then
      Some(DataWrapped(ExampleOf(Lookup(Lookup(data.entries, StrKey("data")).value.entries, IntKey(0)).value), []))
    else
      Some(ExampleOf(data))
  }

  /** guess: the example body for what the action returned, or None. */
  function Guess(inv: Invocation): (r: Option<Json>)
    ensures r.Some? ==> r.value.JArray?
    ensures inv.Failed? ==> r.None?
  {
    match inv
    case Failed => None
    case Returned(v) =>
      match v
      case Resource(data) => Some(ExampleOf(data))
      case ResourceCollection(collects, first, inner, data) => GuessCollection(collects, first, inner, data)
      case LengthAwarePage(first, n) => Some(DataWrapped(GetDataSample(first), FakePagination(LengthAware(n))))
      case SimplePage(first, n) => Some(DataWrapped(GetDataSample(first), FakePagination(Simple(n))))
      case ModelValue(fillable, attributes) => Some(SelfMap(ModelKeys(fillable, attributes)))
      case ArrayValue(value) => if value.JArray? then Some(ExampleOf(value)) else None
      case Arrayable(converted) => if converted.JArray? then Some(ExampleOf(converted)) else None
      case OtherValue => None
  }

  /** The example of a value holds exactly its paths, each mapped to itself. */
  lemma ExampleOfMapsPaths(v: Json)
    ensures MapsKeysToThemselves(ExampleOf(v), Paths(v))
  {
    forall k ensures Lookup(ExampleOf(v).entries, StrKey(k)) == (if k in Paths(v) then Some(JString(k)) else None) {
      SelfMapLookup(Paths(v), k);
    }
  }

  /** A single resource is described by the paths of what it converts to. */
  lemma GuessResource(data: Json)
    ensures Guess(Returned(Resource(data))).Some?
    ensures MapsKeysToThemselves(Guess(Returned(Resource(data))).value, Paths(data))
  {
    ExampleOfMapsPaths(data);
  }

  /** A page is described by one sample item under `data` and a `meta` block
      reporting the page size. */
  lemma GuessPage(v: ResponseValue)
    requires v.LengthAwarePage? || v.SimplePage?
    ensures var r := Guess(Returned(v));
      r.Some? && |r.value.entries| == 3
      && r.value.entries[0] == (StrKey("data"), List([GetDataSample(v.firstItem)]))
      && r.value.entries[1].0 == StrKey("meta")
      && r.value.entries[1].1.JArray?
      && Lookup(r.value.entries[1].1.entries, StrKey("per_page")) == Some(JInt(v.perPage))
      && r.value.entries[2].0 == StrKey("links")
  {
    var p := if v.LengthAwarePage? then LengthAware(v.perPage) else Simple(v.perPage);
    PerPageReported(p);
  }

  /** A collection that collects a resource class is described by the paths
      of that class applied to a fake model, under `data`; a paginator
      underneath adds its `meta` block, reporting `per_page`, then `links`. */
  lemma {:induction false} GuessPaginatedCollection(fake: Json, first: Option<Member>, inner: Paginator, data: Json)
    ensures var r := Guess(Returned(ResourceCollection(ResourceClass(fake), first, inner, data)));
      r.Some? && r.value.JArray? && |r.value.entries| >= 1
      && r.value.entries[0] == (StrKey("data"), List([ExampleOf(fake)]))
      && (inner.NotAPaginator? ==> r.value == DataWrapped(ExampleOf(fake), []))
      && (!inner.NotAPaginator? ==>
            |r.value.entries| == 3
            && r.value.entries[1].0 == StrKey("meta") && r.value.entries[1].1.JArray?
            && Lookup(r.value.entries[1].1.entries, StrKey("per_page")) == Some(JInt(inner.perPage))
            && r.value.entries[2].0 == StrKey("links"))
    ensures MapsKeysToThemselves(ExampleOf(fake), Paths(fake))
  {
    CollectionOfClass(fake, first, inner, data);
    ExampleOfMapsPaths(fake);
  }

  /** The shape of the resource-class branch, apart from the sample. */
  lemma CollectionOfClass(fake: Json, first: Option<Member>, inner: Paginator, data: Json)
    ensures var r := Guess(Returned(ResourceCollection(ResourceClass(fake), first, inner, data)));
      r.Some? && r.value.JArray? && |r.value.entries| >= 1
      && r.value.entries[0] == (StrKey("data"), List([ExampleOf(fake)]))
      && (inner.NotAPaginator? ==> r.value == DataWrapped(ExampleOf(fake), []))
      && (!inner.NotAPaginator? ==>
            |r.value.entries| == 3
            && r.value.entries[1].0 == StrKey("meta") && r.value.entries[1].1.JArray?
            && Lookup(r.value.entries[1].1.entries, StrKey("per_page")) == Some(JInt(inner.perPage))
            && r.value.entries[2].0 == StrKey("links"))
  {
    assert GuessCollection(ResourceClass(fake), first, inner, data)
      == Some(DataWrapped(ExampleOf(fake), FakePagination(inner)));
    if !inner.NotAPaginator? {
      PerPageReported(inner);
    }
  }

  /** The `is_array` test of the array and `toArray` branches: an array
      gets its example, and anything else gets none. */
  lemma ArrayBranches(v: Json)
    ensures Guess(Returned(ArrayValue(v))) == (if v.JArray? then Some(ExampleOf(v)) else None)
    ensures Guess(Returned(Arrayable(v))) == (if v.JArray? then Some(ExampleOf(v)) else None)
  {
  }

  /** A returned array is described by its own paths, each mapped to itself;
      anything else of this kind gives no example. */
  lemma {:induction false} GuessArray(v: Json)
    ensures Guess(Returned(ArrayValue(v))) == (if v.JArray? then Some(ExampleOf(v)) else None)
    ensures MapsKeysToThemselves(ExampleOf(v), Paths(v))
  {
    ArrayBranches(v);
    ExampleOfMapsPaths(v);
  }

  /** So is any other object with `toArray`: by the paths of what it yields,
      when that is an array, and with no example otherwise. */
  lemma {:induction false} GuessArrayable(converted: Json)
    ensures Guess(Returned(Arrayable(converted))) == (if converted.JArray? then Some(ExampleOf(converted)) else None)
    ensures MapsKeysToThemselves(ExampleOf(converted), Paths(converted))
  {
    ArrayBranches(converted);
    ExampleOfMapsPaths(converted);
  }

  /** A collection that declares no class, whose first member is a resource:
      that member's paths under `data`, each mapped to itself. */
  lemma {:induction false} GuessCollectionFirstResource(first: Json, inner: Paginator, data: Json)
    ensures var r := Guess(Returned(ResourceCollection(NotSet, Some(ResourceMember(first)), inner, data)));
      r == Some(DataWrapped(ExampleOf(first), []))
      && MapsKeysToThemselves(ExampleOf(first), Paths(first))
  {
    CollectionOfFirstResource(first, inner, data);
    ExampleOfMapsPaths(first);
  }

  /** The shape of that branch, apart from the sample. */
  lemma CollectionOfFirstResource(first: Json, inner: Paginator, data: Json)
    ensures Guess(Returned(ResourceCollection(NotSet, Some(ResourceMember(first)), inner, data)))
      == Some(DataWrapped(ExampleOf(first), []))
  {
  }

  /** The same with a model as first member: its fillable names, else its
      attribute names, under `data`, each mapped to itself. */
  lemma GuessCollectionFirstModel(fillable: seq<string>, attributes: seq<string>, inner: Paginator, data: Json)
    ensures var r := Guess(Returned(ResourceCollection(NotSet, Some(ModelMember(fillable, attributes)), inner, data)));
      var sample := SelfMap(ModelKeys(fillable, attributes));
      r == Some(DataWrapped(sample, []))
      && MapsKeysToThemselves(sample, if fillable != [] then fillable else attributes)
  {
    SelfMapMaps(ModelKeys(fillable, attributes));
  }

  /** Any other collection that declares no resource class is described by
      its converted form: by the paths of `data[0]` under `data` when that
      is set, else by the paths of the whole conversion. */
  lemma {:induction false} GuessCollectionData0(collects: Collects, first: Option<Member>, inner: Paginator, data: Json)
    requires !collects.ResourceClass?
    requires !(collects.NotSet? && first.Some? && (first.value.ResourceMember? || first.value.ModelMember?))
    ensures var r := Guess(Returned(ResourceCollection(collects, first, inner, data)));
      r.Some?
      && (data.JArray? && Isset(data.entries, StrKey("data"))
          && Lookup(data.entries, StrKey("data")).value.JArray?
          && Isset(Lookup(data.entries, StrKey("data")).value.entries, IntKey(0)) ==>
            var sample := Lookup(Lookup(data.entries, StrKey("data")).value.entries, IntKey(0)).value;
            r.value == DataWrapped(ExampleOf(sample), [])
            && MapsKeysToThemselves(ExampleOf(sample), Paths(sample)))
      && (!(data.JArray? && Isset(data.entries, StrKey("data"))
          && Lookup(data.entries, StrKey("data")).value.JArray?
          && Isset(Lookup(data.entries, StrKey("data")).value.entries, IntKey(0))) ==>
            MapsKeysToThemselves(r.value, Paths(data)))
  {
    if data.JArray? && Isset(data.entries, StrKey("data"))
       && Lookup(data.entries, StrKey("data")).value.JArray?
       && Isset(Lookup(data.entries, StrKey("data")).value.entries, IntKey(0)) {
      ExampleOfMapsPaths(Lookup(Lookup(data.entries, StrKey("data")).value.entries, IntKey(0)).value);
    } else {
      ExampleOfMapsPaths(data);
    }
  }

  /** A model is described by its fillable names, else its attribute names,
      each mapped to itself. */
  lemma GuessModel(fillable: seq<string>, attributes: seq<string>)
    ensures var r := Guess(Returned(ModelValue(fillable, attributes)));
      r.Some? && MapsKeysToThemselves(r.value, if fillable != [] then fillable else attributes)
  {
    SelfMapMaps(ModelKeys(fillable, attributes));
  }

  /** No example exactly when the action failed, or returned something that
      is neither a resource, a paginator, a model, nor convertible to an array. */
  lemma GuessNone(inv: Invocation)
    ensures Guess(inv).None? <==>
      inv.Failed? || inv.value.OtherValue?
      || (inv.value.ArrayValue? && !inv.value.value.JArray?)
      || (inv.value.Arrayable? && !inv.value.converted.JArray?)
  {
  }
}
