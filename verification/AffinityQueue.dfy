/** The table of pending affinity tokens: per template hash, a FIFO queue of node names. */
module AffinityQueue {
  import opened Common

  /** A replacement for an evicted pod of this template is to go to this node. */
  datatype Token = Token(hash: string, node: string)

  type Lookup = map<string, seq<string>>

  /** No key is kept for an exhausted queue. */
  predicate NoEmptyQueue(m: Lookup) {
    forall k :: k in m ==> m[k] != []
  }

  function Added(m: Lookup, key: string, value: string): Lookup {
    m[key := GetSeq(m, key) + [value]]
  }

  function First(m: Lookup, key: string): Option<string> {
    if GetSeq(m, key) != [] then Some(GetSeq(m, key)[0]) else None
  }

  function Popped(m: Lookup, key: string): Lookup {
    if GetSeq(m, key) == [] then m
    else if |m[key]| == 1 then m - {key}
    else m[key := m[key][1..]]
  }

  class KeyToQueue {
    var lookup: Lookup

    constructor ()
      ensures lookup == map[]
    {
      lookup := map[];
    }

    method IsEmpty() returns (empty: bool)
      ensures NoEmptyQueue(lookup) ==> (empty <==> forall k :: GetSeq(lookup, k) == [])
      ensures empty <==> lookup == map[]
    {
      empty := |lookup| == 0;
      if !empty {
        ghost var k :| k in lookup.Keys;
        assert GetSeq(lookup, k) == lookup[k];
      }
    }

    method Add(key: string, value: string)
      modifies this
      ensures lookup == Added(old(lookup), key, value)
    {
      if key !in lookup {
        lookup := lookup[key := []];
      }
      lookup := lookup[key := lookup[key] + [value]];
    }

    method GetFirstVal(key: string) returns (value: Option<string>)
      ensures value == First(lookup, key)
    {
      if key in lookup && |lookup[key]| > 0 {
        return Some(lookup[key][0]);
      }
      return None;
    }

    method DeleteFirstVal(key: string) returns (ok: bool)
      modifies this
      ensures lookup == Popped(old(lookup), key)
      ensures ok <==> First(old(lookup), key).Some?
    {
      if key in lookup && |lookup[key]| > 0 {
        lookup := lookup[key := lookup[key][1..]];
        if |lookup[key]| == 0 {
          lookup := lookup - {key};
        }
        return true;
      }
      return false;
    }

    method DeleteKey(key: string)
      modifies this
      ensures lookup == old(lookup) - {key}
    {
      lookup := lookup - {key};
    }

    method GetAllKeys() returns (keys: seq<string>)
      ensures NoDup(keys) && forall k :: k in keys <==> k in lookup
    {
      keys := [];
      var rest := lookup.Keys;
      while rest != {}
        invariant rest <= lookup.Keys
        invariant NoDup(keys) && forall k :: k in keys <==> k in lookup && k !in rest
        decreases |rest|
      {
        var key := Pick(rest);
        rest := rest - {key};
        keys := keys + [key];
      }
    }
  }

  /** Adding appends to one queue, popping removes the head of one queue, and neither leaves an empty queue behind. */
  lemma QueueLaws(m: Lookup, key: string, value: string, k: string)
    requires NoEmptyQueue(m)
    ensures NoEmptyQueue(Added(m, key, value)) && NoEmptyQueue(Popped(m, key)) && NoEmptyQueue(m - {key})
    ensures GetSeq(Added(m, key, value), k) == if k == key then GetSeq(m, k) + [value] else GetSeq(m, k)
    ensures First(m, key).Some? ==> GetSeq(m, key) == [First(m, key).value] + GetSeq(Popped(m, key), key)
    ensures k != key ==> GetSeq(Popped(m, key), k) == GetSeq(m, k) == GetSeq(m - {key}, k)
  {
  }
}
