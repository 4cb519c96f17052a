/** A block's `key: value` entries, and picking those under one key. */
module KeyedEntries {
  /** What is stored under one key, in order. */
  function Entries<T>(entries: seq<(string, T)>, key: string): seq<T> {
    if entries == [] then []
    else
      var n := |entries| - 1;
      Entries(entries[..n], key) + (if entries[n].0 == key then [entries[n].1] else [])
  }

  ghost predicate Increasing(at: seq<nat>) { forall i, j :: 0 <= i < j < |at| ==> at[i] < at[j] }

  /** `values` is what stands at the positions `at`, which are those of all entries under `key`, in order. */
  ghost predicate Selected<T>(entries: seq<(string, T)>, key: string, values: seq<T>, at: seq<nat>) {
    |at| == |values| && Increasing(at)
    && (forall i :: 0 <= i < |at| ==> at[i] < |entries| && entries[at[i]] == (key, values[i]))
    && forall k: nat :: k < |entries| && entries[k].0 == key ==> k in at
  }

  /** Every entry under the key is taken, in its place and as often as it is written, and nothing else. */
  lemma {:induction false} EntriesSelect<T>(entries: seq<(string, T)>, key: string) returns (at: seq<nat>)
    ensures Selected(entries, key, Entries(entries, key), at)
  {
    at := [];
    if entries != [] {
      var n := |entries| - 1;
      at := EntriesSelect(entries[..n], key);
      if entries[n].0 == key { at := at + [n]; }
    }
  }

  lemma EntryIff<T>(entries: seq<(string, T)>, key: string)
    ensures forall e :: e in Entries(entries, key) <==> (key, e) in entries
  {
    var at := EntriesSelect(entries, key);
    var values := Entries(entries, key);
    forall e ensures e in values <==> (key, e) in entries {
      if e in values {
        var i :| 0 <= i < |values| && values[i] == e;
        assert entries[at[i]] == (key, e);
      }
      if (key, e) in entries {
        var k :| 0 <= k < |entries| && entries[k] == (key, e);
        var i :| 0 <= i < |at| && at[i] == k;
        assert values[i] == e;
      }
    }
  }
}
