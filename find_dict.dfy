/** `find_dict`: the first dictionary in a list that agrees with the criteria on any key. */
module FindDict {
  import opened Wrappers
  import opened Python

  /** Some key of `criteria` is in `item` with an equal value. Any single key suffices:
      the keys are an alternative, not a conjunction. */
  predicate MatchesAny(item: Track, criteria: Track) {
    exists k :: k in criteria && k in item && Equal(item[k], criteria[k])
  }

  /** `find_dict(lst, criteria)`: the first item of `lst` that matches, or None. */
  function FindDict(lst: seq<Track>, criteria: Track): (r: Option<Track>)
    ensures r.None? <==> forall i :: 0 <= i < |lst| ==> !MatchesAny(lst[i], criteria)
    ensures r.Some? ==> exists i :: 0 <= i < |lst| && lst[i] == r.value && MatchesAny(lst[i], criteria)
                          && forall j :: 0 <= j < i ==> !MatchesAny(lst[j], criteria)
  {
    if lst == [] then None
    else if MatchesAny(lst[0], criteria) then Some(lst[0])
    else
      var r := FindDict(lst[1..], criteria);
      assert forall j :: 1 <= j < |lst| ==> lst[j] == lst[1..][j - 1];
      r
  }

  /** With no criteria nothing matches, so the result is None whatever the list holds. */
  lemma FindDictNoCriteria(lst: seq<Track>)
    ensures FindDict(lst, map[]) == None
  {
  }

  /** Earlier matches win: an item found in a prefix is what the whole list yields. */
  lemma {:induction false} FindDictPrefix(lst: seq<Track>, more: seq<Track>, criteria: Track)
    requires FindDict(lst, criteria).Some?
    ensures FindDict(lst + more, criteria) == FindDict(lst, criteria)
  {
    if !MatchesAny(lst[0], criteria) {
      assert (lst + more)[1..] == lst[1..] + more;
      FindDictPrefix(lst[1..], more, criteria);
    }
  }
}
