/**
 * `SafeMap`: a map guarded by a read-write lock. The lock only serialises
 * the operations, so each one is an atomic step on the `contents` field.
 */
module FxSafeMap {
  import opened Wrappers

  class SafeMap<K(==), V> {
    var contents: map<K, V>

    /** `NewSafeMap`. */
    constructor ()
      ensures contents == map[]
    {
      contents := map[];
    }

    /** `Read`: the value under `key` if there is one (Go returns the zero value and false otherwise). */
    method Read(key: K) returns (r: Option<V>)
      ensures r.Some? <==> key in contents
      ensures r.Some? ==> r.value == contents[key]
    {
      if key in contents {
        r := Some(contents[key]);
      } else {
        r := None;
      }
    }

    method Write(key: K, val: V)
      modifies this
      ensures contents == old(contents)[key := val]
    {
      contents := contents[key := val];
    }

    /** `Delete`: remove `key`; nothing happens when it is absent. */
    method Delete(key: K)
      modifies this
      ensures contents == old(contents) - {key}
    {
      contents := contents - {key};
    }

    method Clear()
      modifies this
      ensures contents == map[]
    {
      contents := map[];
    }

    method Size() returns (n: nat)
      ensures n == |contents|
    {
      n := |contents|;
    }

    /** `CopyToSnapshot`: a new map with every entry copied; a value, so later writes do not reach it. */
    method CopyToSnapshot() returns (snapshot: map<K, V>)
      ensures snapshot == contents
    {
      snapshot := map[];
      var remaining := contents.Keys;
      while remaining != {}
        invariant remaining <= contents.Keys
        invariant snapshot == map k | k in contents.Keys - remaining :: contents[k]
        decreases remaining
      {
        var k :| k in remaining;
        snapshot := snapshot[k := contents[k]];
        remaining := remaining - {k};
      }
      assert contents.Keys - remaining == contents.Keys;
    }
  }

  /** After `Write`, `Read` of that key gives the written value and any other key reads as before. */
  method WriteThenRead<K(==), V>(m: SafeMap<K, V>, key: K, val: V, other: K) returns (got: Option<V>, gotOther: Option<V>)
    modifies m
    ensures got == Some(val)
    ensures other != key ==> gotOther == (if other in old(m.contents) then Some(old(m.contents)[other]) else None)
  {
    m.Write(key, val);
    got := m.Read(key);
    gotOther := m.Read(other);
  }

  /**
   * After `Delete`, `Read` of that key finds nothing, every other key reads
   * as before, and `Size` drops by one exactly when the key was present.
   */
  method DeleteThenRead<K(==), V>(m: SafeMap<K, V>, key: K, other: K) returns (got: Option<V>, gotOther: Option<V>, size: nat)
    modifies m
    ensures got.None?
    ensures m.contents.Keys == old(m.contents).Keys - {key}
    ensures other != key ==> gotOther == (if other in old(m.contents) then Some(old(m.contents)[other]) else None)
    ensures size == (if key in old(m.contents) then |old(m.contents)| - 1 else |old(m.contents)|)
  {
    m.Delete(key);
    got := m.Read(key);
    gotOther := m.Read(other);
    size := m.Size();
    if key in old(m.contents) {
      assert old(m.contents).Keys == m.contents.Keys + {key};
    } else {
      assert m.contents.Keys == old(m.contents).Keys;
    }
  }
}
