/**
 * Python dictionaries keep their keys in first-insertion order, and the face
 * extractor iterates the element table in that order.  `OMap` is such a
 * dictionary: the map itself plus the order in which keys were first added.
 */
module OrderedMaps {
  datatype OMap<K(==), V> = OMap(keys: seq<K>, values: map<K, V>) {
    /** Keys are listed once each, and exactly the keys of the map are listed. */
    predicate Valid() {
      (forall i, j :: 0 <= i < j < |keys| ==> keys[i] != keys[j])
      && values.Keys == (set i | 0 <= i < |keys| :: keys[i])
    }

    /** `d[k] = v`: a new key goes to the end of the order, an existing key keeps its place. */
    function Put(k: K, v: V): (r: OMap<K, V>)
      ensures Valid() ==> r.Valid()
      ensures r.values == values[k := v]
      ensures r.keys == if k in values then keys else keys + [k]
    {
      if k in values then OMap(keys, values[k := v])
      else
        var r := OMap(keys + [k], values[k := v]);
        assert Valid() ==> r.values.Keys == (set i | 0 <= i < |r.keys| :: r.keys[i]) by {
          if Valid() {
            forall x | x in r.values.Keys ensures x in (set i | 0 <= i < |r.keys| :: r.keys[i]) {
              if x == k { assert r.keys[|keys|] == x; } else { var i :| 0 <= i < |keys| && keys[i] == x; assert r.keys[i] == x; }
            }
          }
        }
        r
    }
  }

  function Empty<K(==), V>(): (r: OMap<K, V>)
    ensures r.Valid() && r.keys == [] && r.values == map[]
  {
    OMap([], map[])
  }
}
