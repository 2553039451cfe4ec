/**
  The plan `PlaylistSync.sync` computes: the playlist tracks to download and the local
  files to delete, both keyed by path.
*/
module Reconcile {
  import opened Python

  /** A plan entry, `(track, file_name)` as the source's lists hold it. */
  type Entry = (Track, string)

  /** Keys that occur at `i` of `pairs` and nowhere after it. */
  predicate LastOccurrence<V>(pairs: seq<(string, V)>, i: int)
    requires 0 <= i < |pairs|
  {
    forall j :: i < j < |pairs| ==> pairs[j].0 != pairs[i].0
  }

  /** `dict(pairs)`: later pairs overwrite earlier ones with the same key. */
  function DictOf<V>(pairs: seq<(string, V)>): map<string, V>
  {
    if pairs == [] then map[]
    else DictOf(pairs[..|pairs| - 1])[pairs[|pairs| - 1].0 := pairs[|pairs| - 1].1]
  }

  function KeysOf<V>(pairs: seq<(string, V)>): set<string> {
    set i | 0 <= i < |pairs| :: pairs[i].0
  }

  /** The dictionary holds exactly the keys of the pairs. */
  lemma {:induction false} DictOfKeys<V>(pairs: seq<(string, V)>)
    ensures DictOf(pairs).Keys == KeysOf(pairs)
  {
    if pairs != [] {
      var init := pairs[..|pairs| - 1];
      DictOfKeys(init);
      assert forall i :: 0 <= i < |init| ==> init[i] == pairs[i];
      assert KeysOf(pairs) == KeysOf(init) + {pairs[|pairs| - 1].0};
    }
  }

  /** Each key is bound to the value of its last occurrence (the dictionary keeps the last
      track of a duplicated path). */
  lemma {:induction false} DictOfLast<V>(pairs: seq<(string, V)>, i: int)
    requires 0 <= i < |pairs| && LastOccurrence(pairs, i)
    ensures pairs[i].0 in DictOf(pairs) && DictOf(pairs)[pairs[i].0] == pairs[i].1
  {
    var init := pairs[..|pairs| - 1];
    if i < |pairs| - 1 {
      assert init[i] == pairs[i];
      assert LastOccurrence(init, i);
      DictOfLast(init, i);
    }
  }

  /** The paths a list of entries names. */
  function Paths(entries: seq<Entry>): set<string> {
    set i | 0 <= i < |entries| :: entries[i].1
  }

  /** `entries` lists each path of `keys` exactly once, with its track in `d`. */
  predicate ListsExactly(entries: seq<Entry>, d: map<string, Track>, keys: set<string>) {
    && Paths(entries) == keys
    && (forall i, j :: 0 <= i < j < |entries| ==> entries[i].1 != entries[j].1)
    && (forall i :: 0 <= i < |entries| ==> entries[i].1 in d && entries[i].0 == d[entries[i].1])
  }

  lemma AppendEntry(entries: seq<Entry>, d: map<string, Track>, keys: set<string>, p: string)
    requires ListsExactly(entries, d, keys) && p in d && p !in keys
    ensures ListsExactly(entries + [(d[p], p)], d, keys + {p})
  {
    var e := entries + [(d[p], p)];
    assert Paths(e) == keys + {p} by {
      forall q | q in keys + {p} ensures q in Paths(e) {
        if q == p {
          assert e[|entries|].1 == p;
        } else {
          var i :| 0 <= i < |entries| && entries[i].1 == q;
          assert e[i].1 == q;
        }
      }
    }
  }

  lemma PathsOfNonEmpty(entries: seq<Entry>)
    requires entries != []
    ensures entries[0].1 in Paths(entries)
  {
  }

  lemma ListsNothing(entries: seq<Entry>, d: map<string, Track>)
    requires ListsExactly(entries, d, {})
    ensures entries == []
  {
    if entries != [] {
      PathsOfNonEmpty(entries);
    }
  }

  /** One loop of `sync`: walks `d` in an arbitrary order and lists every entry whose path
      is not a key of `other`. */
  method EntriesMissingFrom(d: map<string, Track>, other: map<string, Track>) returns (entries: seq<Entry>)
    ensures ListsExactly(entries, d, d.Keys - other.Keys)
  {
    entries := [];
    var pending := d.Keys;
    while pending != {}
      invariant pending <= d.Keys
      invariant ListsExactly(entries, d, (d.Keys - pending) - other.Keys)
      decreases pending
    {
      var p :| p in pending;
      if p !in other {
        AppendEntry(entries, d, (d.Keys - pending) - other.Keys, p);
        entries := entries + [(d[p], p)];
      }
      assert (d.Keys - (pending - {p})) - other.Keys
          == ((d.Keys - pending) - other.Keys) + (if p in other then {} else {p});
      pending := pending - {p};
    }
  }

  /** The two loops of `sync` that build `to_add` and `to_remove`. */
  method ComputePlan(local: map<string, Track>, playlist: map<string, Track>, remove: bool)
    returns (toAdd: seq<Entry>, toRemove: seq<Entry>)
    ensures ListsExactly(toAdd, playlist, playlist.Keys - local.Keys)
    ensures ListsExactly(toRemove, local, if remove then local.Keys - playlist.Keys else {})
    ensures Paths(toAdd) !! Paths(toRemove)
    ensures !remove ==> toRemove == []
    ensures local.Keys == playlist.Keys ==> toAdd == [] && toRemove == []
  {
    toAdd := EntriesMissingFrom(playlist, local);
    toRemove := [];
    if remove {
      toRemove := EntriesMissingFrom(local, playlist);
    }
    if local.Keys == playlist.Keys {
      ListsNothing(toAdd, playlist);
      ListsNothing(toRemove, local);
    }
  }
}
