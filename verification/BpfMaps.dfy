/** Kernel hash maps with a fixed number of entries. */
module BpfMaps {
  import opened Sums

  /** `bpf_map_update_elem` with BPF_ANY: a new key is refused once the map is full. */
  function Put<K, V>(m: map<K, V>, capacity: nat, k: K, v: V): (m': map<K, V>)
  {
    if k in m || |m| < capacity then m[k := v] else m
  }

  /** `bpf_map_update_elem` with BPF_NOEXIST. */
  function PutNew<K, V>(m: map<K, V>, capacity: nat, k: K, v: V): (m': map<K, V>)
  {
    if k !in m && |m| < capacity then m[k := v] else m
  }

  /** `bpf_map_delete_elem`. */
  function Delete<K, V>(m: map<K, V>, k: K): map<K, V>
  {
    m - {k}
  }

  /** A map whose keys all come from a set no larger than its capacity never refuses one of them. */
  lemma PutFits<K, V>(m: map<K, V>, capacity: nat, k: K, v: V, universe: set<K>)
    requires m.Keys <= universe && k in universe && |universe| <= capacity
    ensures Put(m, capacity, k, v) == m[k := v]
    ensures PutNew(m, capacity, k, v) == if k in m then m else m[k := v]
  {
    if k !in m {
      SubsetSize(m.Keys + {k}, universe);
      assert |m.Keys + {k}| == |m| + 1;
    }
  }

  /** Nor does a map refuse a key that, together with its own keys, fits. */
  lemma PutRoom<K, V>(m: map<K, V>, capacity: nat, k: K, v: V)
    requires |m.Keys + {k}| <= capacity
    ensures Put(m, capacity, k, v) == m[k := v]
    ensures PutNew(m, capacity, k, v) == if k in m then m else m[k := v]
    ensures k in m || |m| < capacity
  {
    PutFits(m, capacity, k, v, m.Keys + {k});
  }

  lemma PutBounded<K, V>(m: map<K, V>, capacity: nat, k: K, v: V)
    requires |m| <= capacity
    ensures |Put(m, capacity, k, v)| <= capacity
  {
    if k !in m {
      InsertSize(m, k, v);
    } else {
      assert m[k := v].Keys == m.Keys;
      assert |m[k := v].Keys| == |m.Keys|;
    }
  }

  lemma DeleteBounded<K, V>(m: map<K, V>, k: K)
    ensures |Delete(m, k)| <= |m|
  {
    SubsetSize(Delete(m, k).Keys, m.Keys);
    assert |Delete(m, k)| == |Delete(m, k).Keys| && |m| == |m.Keys|;
  }

  lemma InsertSize<K, V>(m: map<K, V>, k: K, v: V)
    requires k !in m
    ensures |m[k := v]| == |m| + 1
  {
    assert m[k := v].Keys == m.Keys + {k};
    assert |m[k := v].Keys| == |m.Keys| + 1;
  }
}
