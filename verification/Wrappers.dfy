/** What several modules use. */
module Wrappers {

  datatype Option<+T> = None | Some(value: T)

  ghost predicate IsUniform<V(!new)>(m: map<string, V>, ids: set<string>, v: V) {
    m.Keys == ids && forall id :: id in ids ==> m[id] == v
  }

  lemma UniformExists<V(!new)>(ids: set<string>, v: V) returns (m: map<string, V>)
    ensures IsUniform(m, ids, v)
  {
    m := map[];
    var rest := ids;
    while rest != {}
      invariant rest <= ids && IsUniform(m, ids - rest, v)
    {
      var id :| id in rest;
      rest := rest - {id};
      m := m[id := v];
    }
  }

  /** The same value for every id. */
  ghost function Uniform<V(!new)>(ids: set<string>, v: V): (m: map<string, V>)
    ensures m.Keys == ids && forall id :: id in ids ==> m[id] == v
  {
    assert exists m: map<string, V> :: IsUniform(m, ids, v) by {
      var m := UniformExists(ids, v);
    }
    var m: map<string, V> :| IsUniform(m, ids, v);
    m
  }
}
