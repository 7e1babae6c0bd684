/** Python's `groups.setdefault(key, []).append(value)`: groups in the order their keys first occur. */
module Grouping {
  datatype Group<K, V> = Group(key: K, items: seq<V>)

  function Add<K(==), V>(groups: seq<Group<K, V>>, key: K, v: V): seq<Group<K, V>> {
    if groups == [] then [Group(key, [v])]
    else if groups[0].key == key then [Group(key, groups[0].items + [v])] + groups[1..]
    else [groups[0]] + Add(groups[1..], key, v)
  }

  ghost predicate Has<K, V>(groups: seq<Group<K, V>>, key: K, v: V) {
    exists g :: g in groups && g.key == key && v in g.items
  }

  ghost predicate OnePerKey<K, V>(groups: seq<Group<K, V>>) {
    forall i, j | 0 <= i < j < |groups| :: groups[i].key != groups[j].key
  }

  lemma HasSplit<K, V>(groups: seq<Group<K, V>>, key: K, v: V)
    requires groups != []
    ensures Has(groups, key, v) <==> (groups[0].key == key && v in groups[0].items) || Has(groups[1..], key, v)
  {
    assert groups == [groups[0]] + groups[1..];
  }

  /** Adding puts the value under its key and moves nothing else. */
  lemma {:induction false} AddAdds<K, V>(groups: seq<Group<K, V>>, key: K, v: V, k: K, x: V)
    ensures Has(Add(groups, key, v), k, x) <==> Has(groups, k, x) || (k == key && x == v)
  {
    var after := Add(groups, key, v);
    HasSplit(after, k, x);
    if groups != [] {
      HasSplit(groups, k, x);
      if groups[0].key == key {
        assert after[1..] == groups[1..];
      } else {
        assert after[1..] == Add(groups[1..], key, v);
        AddAdds(groups[1..], key, v, k, x);
      }
    }
  }

  lemma TailDistinct<K, V>(groups: seq<Group<K, V>>)
    requires groups != [] && OnePerKey(groups)
    ensures OnePerKey(groups[1..]) && forall g | g in groups[1..] :: g.key != groups[0].key
  {
    forall i, j | 0 <= i < j < |groups[1..]| ensures groups[1..][i].key != groups[1..][j].key {
      assert groups[i + 1].key != groups[j + 1].key;
    }
    forall g | g in groups[1..] ensures g.key != groups[0].key {
      var m :| 0 <= m < |groups[1..]| && groups[1..][m] == g;
      assert groups[m + 1] == g;
    }
  }

  lemma ConsDistinct<K, V>(g: Group<K, V>, rest: seq<Group<K, V>>)
    requires OnePerKey(rest) && forall h | h in rest :: h.key != g.key
    ensures OnePerKey([g] + rest)
  {
    var r := [g] + rest;
    forall i, j | 0 <= i < j < |r| ensures r[i].key != r[j].key {
      assert r[j] == rest[j - 1] && rest[j - 1] in rest;
      if i > 0 {
        assert r[i] == rest[i - 1];
      }
    }
  }

  lemma {:induction false} AddDistinct<K, V>(groups: seq<Group<K, V>>, key: K, v: V)
    requires OnePerKey(groups)
    ensures OnePerKey(Add(groups, key, v))
    ensures forall g | g in Add(groups, key, v) :: g.key == key || exists h :: h in groups && h.key == g.key
  {
    if groups != [] {
      hide OnePerKey;
      TailDistinct(groups);
      if groups[0].key == key {
        ConsDistinct(Group(key, groups[0].items + [v]), groups[1..]);
      } else {
        AddDistinct(groups[1..], key, v);
        var rest := Add(groups[1..], key, v);
        forall h | h in rest ensures h.key != groups[0].key {
          if h.key != key {
            var g :| g in groups[1..] && g.key == h.key;
          }
        }
        ConsDistinct(groups[0], rest);
      }
    }
  }

  lemma SameGroup<K, V>(groups: seq<Group<K, V>>, g: Group<K, V>, h: Group<K, V>)
    requires OnePerKey(groups) && g in groups && h in groups && g.key == h.key
    ensures g == h
  {
    var i :| 0 <= i < |groups| && groups[i] == g;
    var j :| 0 <= j < |groups| && groups[j] == h;
    assert i == j;
  }
}
