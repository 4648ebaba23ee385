/** The recursive configuration merge of app/tasks/definitions/config_layer_merge. */
module ConfigMerge {
  import opened Core

  type Layer = map<string, Value>

  /** What is neither null nor a dictionary is replaced as a whole, so lists are opaque. */
  datatype Value = Null | Scalar(text: string) | List(elements: seq<Value>) | Dict(entries: map<string, Value>)

  function At(m: Layer, key: string): Option<Value> {
    if key in m then Some(m[key]) else None
  }

  function Entries(v: Option<Value>): Layer {
    if v.Some? && v.value.Dict? then v.value.entries else map[]
  }

  // ----- One layer onto another -----

  /** What becomes of one key: null removes it, a dictionary is merged, anything else replaces it. */
  function MergedValue(existing: Option<Value>, value: Value): Option<Value>
    decreases value, 1
  {
    match value
    case Null => None
    case Dict(entries) => Some(Dict(Merged(Entries(existing), entries)))
    case _ => Some(value)
  }

  function Merged(target: Layer, layer: Layer): Layer
    decreases Dict(layer), 0
  {
    var whole := Dict(layer);
    map k | k in target.Keys + layer.Keys && (k in layer ==> MergedValue(At(target, k), whole.entries[k]).Some?) ::
      if k in layer then MergedValue(At(target, k), whole.entries[k]).value else target[k]
  }

  lemma MergedAt(target: Layer, layer: Layer, k: string)
    ensures At(Merged(target, layer), k) ==
      (if k in layer then MergedValue(At(target, k), layer[k]) else At(target, k))
  {
  }

  function MergedFrom(target: Layer, layers: seq<Layer>): Layer {
    if layers == [] then target
    else Merged(MergedFrom(target, layers[..|layers| - 1]), layers[|layers| - 1])
  }

  /** The configuration that a list of layers stands for, the later ones winning. */
  function MergeAll(layers: seq<Layer>): Layer {
    MergedFrom(map[], layers)
  }

  // ----- Merged configurations hold no null -----

  predicate Clean(v: Value) {
    match v
    case Null => false
    case Dict(entries) => forall k :: k in entries ==> Clean(entries[k])
    case _ => true
  }

  /** No null at any depth that is reached through dictionaries; lists may hold anything. */
  predicate NullFree(m: Layer) {
    Clean(Dict(m))
  }

  lemma {:induction false} MergedIsNullFree(target: Layer, layer: Layer)
    requires NullFree(target)
    ensures NullFree(Merged(target, layer))
    decreases Dict(layer)
  {
    var whole := Dict(layer);
    forall k | k in Merged(target, layer) ensures Clean(Merged(target, layer)[k]) {
      MergedAt(target, layer, k);
      if k in layer && whole.entries[k].Dict? {
        MergedIsNullFree(Entries(At(target, k)), whole.entries[k].entries);
      }
    }
  }

  lemma {:induction false} LayersAreNullFree(target: Layer, layers: seq<Layer>)
    requires NullFree(target)
    ensures NullFree(MergedFrom(target, layers))
  {
    if layers != [] {
      LayersAreNullFree(target, layers[..|layers| - 1]);
      MergedIsNullFree(MergedFrom(target, layers[..|layers| - 1]), layers[|layers| - 1]);
    }
  }

  /** Merging one configuration into nothing returns it unchanged exactly when it holds no null. */
  lemma {:induction false} MergedAlone(m: Layer)
    ensures Merged(map[], m) == m <==> NullFree(m)
    decreases Dict(m)
  {
    MergedIsNullFree(map[], m);
    if NullFree(m) {
      var whole, alone := Dict(m), Merged(map[], m);
      forall k ensures At(alone, k) == At(m, k) {
        MergedAt(map[], m, k);
        if k in m {
          assert Clean(whole.entries[k]);
        }
        if k in m && whole.entries[k].Dict? {
          assert NullFree(whole.entries[k].entries);
          MergedAlone(whole.entries[k].entries);
        }
      }
      SameEntries(alone, m);
    }
  }

  lemma SameEntries(a: Layer, b: Layer)
    requires forall k :: At(a, k) == At(b, k)
    ensures a == b
  {
    forall k ensures k in a <==> k in b {
      assert At(a, k) == At(b, k);
    }
    forall k | k in a ensures a[k] == b[k] {
      assert At(a, k) == At(b, k);
    }
  }

  // ----- Compaction -----

  lemma {:induction false} MergedFromSplit(target: Layer, first: seq<Layer>, rest: seq<Layer>)
    ensures MergedFrom(target, first + rest) == MergedFrom(MergedFrom(target, first), rest)
    decreases |rest|
  {
    if rest == [] {
      assert first + rest == first;
    } else {
      MergedFromSplit(target, first, rest[..|rest| - 1]);
      assert (first + rest)[..|first + rest| - 1] == first + rest[..|rest| - 1];
    }
  }

  /** Any initial run of layers may be replaced by what it merges to. */
  lemma LayerCompaction(first: seq<Layer>, rest: seq<Layer>)
    ensures MergeAll(first + rest) == MergeAll([MergeAll(first)] + rest)
    ensures MergeAll([MergeAll(first)]) == MergeAll(first)
  {
    hide Merged, NullFree;
    var compact := MergeAll(first);
    EmptyIsNullFree();
    LayersAreNullFree(map[], first);
    MergedAlone(compact);
    assert [compact][..0] == [];
    assert MergedFrom(map[], [compact]) == compact;
    MergedFromSplit(map[], first, rest);
    MergedFromSplit(map[], [compact], rest);
  }

  lemma EmptyIsNullFree()
    ensures NullFree(map[])
  {
  }

  // ----- Reference: the last layer that speaks about a path -----

  type Path = seq<string>

  /** What is found at the end of a path; a null, or anything below an atom, is nothing. */
  datatype Shape = Absent | Atom(value: Value) | Table

  function ShapeOf(v: Value): Shape {
    match v
    case Null => Absent
    case Dict(_) => Table
    case _ => Atom(v)
  }

  function Look(m: Layer, path: Path): Shape
    decreases |path|
  {
    if path == [] then Table
    else if path[0] !in m then Absent
    else if |path| == 1 then ShapeOf(m[path[0]])
    else if m[path[0]].Dict? then Look(m[path[0]].entries, path[1..])
    else Absent
  }

  /** A layer says nothing about a path when one of its dictionaries on the way lacks the next key. */
  predicate Speaks(layer: Layer, path: Path)
    decreases |path|
  {
    path == [] || (path[0] in layer && (layer[path[0]].Dict? ==> Speaks(layer[path[0]].entries, path[1..])))
  }

  /** What the last layer that speaks about the path says of it. */
  function LastWord(layers: seq<Layer>, path: Path): Shape {
    if layers == [] then Look(map[], path)
    else if Speaks(layers[|layers| - 1], path) then Look(layers[|layers| - 1], path)
    else LastWord(layers[..|layers| - 1], path)
  }

  lemma {:induction false} MergedLook(target: Layer, layer: Layer, path: Path)
    ensures Look(Merged(target, layer), path) ==
      Look(if Speaks(layer, path) then layer else target, path)
    decreases |path|
  {
    if path != [] {
      var k := path[0];
      MergedAt(target, layer, k);
      if k in layer && layer[k].Dict? {
        MergedLook(Entries(At(target, k)), layer[k].entries, path[1..]);
      }
    }
  }

  /** Every path of the merged configuration shows what the last layer to mention it says. */
  lemma {:induction false} MergeIsLastWord(layers: seq<Layer>, path: Path)
    ensures Look(MergeAll(layers), path) == LastWord(layers, path)
  {
    hide Merged, Look, Speaks;
    if layers != [] {
      MergeIsLastWord(layers[..|layers| - 1], path);
      MergedLook(MergeAll(layers[..|layers| - 1]), layers[|layers| - 1], path);
    }
  }

  /** Null-free configurations that look the same along every path are the same. */
  lemma {:induction false} LooksDetermine(a: Layer, b: Layer)
    requires NullFree(a) && NullFree(b)
    requires forall path :: Look(a, path) == Look(b, path)
    ensures a == b
    decreases Dict(a)
  {
    var whole := Dict(a);
    forall k ensures At(a, k) == At(b, k) {
      assert Look(a, [k]) == Look(b, [k]);
      assert (k in a ==> Clean(whole.entries[k])) && (k in b ==> Clean(Dict(b).entries[k]));
      if k in a && whole.entries[k].Dict? {
        var x, y := whole.entries[k].entries, b[k].entries;
        assert NullFree(x) && NullFree(y);
        forall path ensures Look(x, path) == Look(y, path) {
          assert ([k] + path)[1..] == path;
          assert Look(a, [k] + path) == Look(b, [k] + path);
        }
        LooksDetermine(x, y);
      }
    }
    SameEntries(a, b);
  }

  /** A null-free configuration in which every path shows the layers' last word on it. */
  ghost predicate Settles(m: Layer, layers: seq<Layer>) {
    NullFree(m) && forall path :: Look(m, path) == LastWord(layers, path)
  }

  /** There is exactly one such configuration, and the merge computes it. */
  lemma MergeIsCharacterized(layers: seq<Layer>, m: Layer)
    ensures m == MergeAll(layers) <==> Settles(m, layers)
  {
    hide NullFree, Look, LastWord, MergedFrom;
    EmptyIsNullFree();
    LayersAreNullFree(map[], layers);
    var merged := MergeAll(layers);
    forall path ensures Look(merged, path) == LastWord(layers, path) {
      MergeIsLastWord(layers, path);
    }
    assert Settles(merged, layers);
    if Settles(m, layers) {
      LooksDetermine(m, merged);
    }
  }

  // ----- The loops -----

  /** The nested dictionary is a copy, so no layer shares structure with the result. */
  method Merge(target: Layer, layer: Layer) returns (result: Layer)
    ensures result == Merged(target, layer)
    decreases Dict(layer)
  {
    result := target;
    var rest := layer.Keys;
    var whole := Dict(layer);
    while rest != {}
      invariant rest <= layer.Keys
      invariant forall k :: k in layer && k !in rest ==> At(result, k) == MergedValue(At(target, k), layer[k])
      invariant forall k :: k !in layer || k in rest ==> At(result, k) == At(target, k)
      decreases |rest|
    {
      var key :| key in rest;
      ghost var before := result;
      assert At(before, key) == At(target, key);
      var value := whole.entries[key];
      if value.Null? {
        result := result - {key};
      } else if value.Dict? {
        var nested := Merge(Entries(At(result, key)), value.entries);
        result := result[key := Dict(nested)];
      } else {
        result := result[key := value];
      }
      assert At(result, key) == MergedValue(At(target, key), layer[key]);
      forall k | k != key ensures At(result, k) == At(before, k) {
      }
      rest := rest - {key};
    }
    forall k ensures At(result, k) == At(Merged(target, layer), k) {
      MergedAt(target, layer, k);
    }
    SameEntries(result, Merged(target, layer));
  }

  method MergeConfigLayers(layers: seq<Layer>) returns (result: Layer)
    ensures result == MergeAll(layers)
    ensures Settles(result, layers)
  {
    hide Merged, Settles;
    result := map[];
    for i := 0 to |layers|
      invariant result == MergedFrom(map[], layers[..i])
    {
      assert layers[..i + 1][..i] == layers[..i];
      result := Merge(result, layers[i]);
    }
    assert layers[..|layers|] == layers;
    MergeIsCharacterized(layers, result);
  }
}
