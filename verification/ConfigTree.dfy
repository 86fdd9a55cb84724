/**
 * Merging an override tree into a base tree. Objects are maps, so the order of their keys is not modelled.
 */
module ConfigTree {
  import opened Prelude

  datatype Json =
    | Undefined
    | Null
    | Bool(b: bool)
    | Num(n: real)
    | Str(s: string)
    | Arr(items: seq<Json>)
    | Obj(fields: map<string, Json>)
  {
    predicate Nullish() { Undefined? || Null? }
  }

  /** Reading a property: undefined when it is not there. */
  function Get(j: Json, key: string): Json {
    if j.Obj? && key in j.fields then j.fields[key] else Undefined
  }

  /** JavaScript's `a ?? b`. */
  function Coalesce(a: Json, b: Json): Json { if a.Nullish() then b else a }

  /** A base of null makes the program throw on an override with keys; it never recurses into one. */
  function Merge(base: Json, over: Json): Json
    requires !base.Null?
    decreases base
  {
    if over.Nullish() then base
    else if !base.Obj? then over
    else if !over.Obj? then base
    else Obj(map k | k in base.fields.Keys + over.fields.Keys ::
                 if k in over.fields then MergeField(base, k, over.fields[k]) else base.fields[k])
  }

  function MergeField(base: Json, k: string, o: Json): Json
    requires base.Obj?
    decreases base, 0
  {
    if k in base.fields && base.fields[k].Obj? && o.Obj? then
      Merge(base.fields[k], o)
    else Coalesce(o, Get(base, k))
  }

  /** The program's loop: fill `out` key by key, recursing where both sides are objects. */
  method MergeDeep(base: Json, over: Json) returns (out: Json)
    requires !base.Null?
    ensures out == Merge(base, over)
    decreases base
  {
    if over.Nullish() {
      return base;
    }
    if !base.Obj? {
      return over;
    }
    if !over.Obj? {
      return base;
    }
    var fields, keys := base.fields, over.fields.Keys;
    ghost var merged := Merge(base, over).fields;
    while keys != {}
      invariant keys <= over.fields.Keys
      invariant fields.Keys == base.fields.Keys + (over.fields.Keys - keys)
      invariant forall k | k in fields :: fields[k] == if k in over.fields.Keys - keys then merged[k] else base.fields[k]
      decreases keys
    {
      var k :| k in keys;
      var b, o := Get(base, k), over.fields[k];
      var value;
      if b.Obj? && o.Obj? {
        value := MergeDeep(b, o);
      } else {
        value := Coalesce(o, b);
      }
      assert value == MergeField(base, k, o) == merged[k];
      fields, keys := fields[k := value], keys - {k};
    }
    assert fields == merged;
    out := Obj(fields);
  }

  lemma {:induction false} MergeSelf(j: Json)
    requires !j.Null?
    ensures Merge(j, j) == j
    decreases j
  {
    if j.Obj? {
      forall k | k in j.fields ensures MergeField(j, k, j.fields[k]) == j.fields[k] {
        if j.fields[k].Obj? { MergeSelf(j.fields[k]); }
      }
      assert Merge(j, j).fields == j.fields;
    }
  }

  /** Merging the same override twice changes nothing. */
  lemma {:induction false} MergeIdempotent(base: Json, over: Json)
    requires !base.Null?
    ensures !Merge(base, over).Null? && Merge(Merge(base, over), over) == Merge(base, over)
    decreases base
  {
    var once := Merge(base, over);
    if !over.Nullish() && !base.Obj? {
      MergeSelf(over);
    } else if base.Obj? && over.Obj? {
      forall k | k in over.fields ensures MergeField(once, k, over.fields[k]) == once.fields[k] {
        var o := over.fields[k];
        assert once.fields[k] == MergeField(base, k, o);
        if k in base.fields && base.fields[k].Obj? && o.Obj? {
          MergeIdempotent(base.fields[k], o);
        } else if o.Obj? {
          MergeSelf(o);
        }
      }
      assert Merge(once, over).fields == once.fields;
    }
  }

  /** Merging a merge of a base back into that base changes nothing. */
  lemma {:induction false} MergeAbsorbs(base: Json, over: Json)
    requires !base.Null?
    ensures !Merge(base, over).Null? && Merge(base, Merge(base, over)) == Merge(base, over)
    decreases base
  {
    var once := Merge(base, over);
    if !over.Nullish() && !base.Obj? {
    } else if base.Obj? && over.Obj? {
      forall k | k in once.fields ensures MergeField(base, k, once.fields[k]) == once.fields[k] {
        assert once.fields[k] == if k in over.fields then MergeField(base, k, over.fields[k]) else base.fields[k];
        if k in base.fields && base.fields[k].Obj? {
          if k in over.fields && over.fields[k].Obj? {
            MergeAbsorbs(base.fields[k], over.fields[k]);
          } else {
            MergeSelf(base.fields[k]);
          }
        }
      }
      assert Merge(base, once).fields == once.fields;
    } else {
      MergeSelf(base);
    }
  }

  function At(j: Json, path: seq<string>): Json
    decreases |path|
  {
    if path == [] then j else At(Get(j, path[0]), path[1..])
  }

  /** Every value above the end of the path is an object. */
  predicate ObjectsAlong(j: Json, path: seq<string>)
    decreases |path|
  {
    path == [] || (j.Obj? && ObjectsAlong(Get(j, path[0]), path[1..]))
  }

  /** Deep down, the override's value wins unless it is null or undefined, and objects are merged. */
  lemma {:induction false} MergeAtPath(base: Json, over: Json, path: seq<string>)
    requires path != [] && ObjectsAlong(base, path) && ObjectsAlong(over, path)
    ensures At(Merge(base, over), path) ==
      if At(base, path).Obj? && At(over, path).Obj? then Merge(At(base, path), At(over, path))
      else Coalesce(At(over, path), At(base, path))
    decreases |path|
  {
    var k := path[0];
    var m := Get(Merge(base, over), k);
    assert m == if k in over.fields then MergeField(base, k, over.fields[k]) else Get(base, k);
    if |path| > 1 {
      MergeAtPath(Get(base, k), Get(over, k), path[1..]);
    } else {
      assert path[1..] == [];
    }
  }
}
