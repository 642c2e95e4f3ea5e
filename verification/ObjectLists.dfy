/** Lists of objects updated in place: no object twice, and choosing some of them
    in order. */
module ObjectLists {
  ghost predicate Separate<T>(ts: seq<T>) {
    forall i, j :: 0 <= i < j < |ts| ==> ts[i] != ts[j]
  }

  lemma SeparateAppend<T>(ts: seq<T>, t: T)
    requires Separate(ts) && t !in ts
    ensures Separate(ts + [t])
  {
  }

  /** `kept` holds some of the first `i` objects, none twice. */
  ghost predicate KeptFrom<T>(listed: seq<T>, kept: seq<T>, i: nat)
    requires i <= |listed|
  {
    Separate(kept) && forall p :: p in kept ==> p in listed[..i]
  }

  /** The next object of a list is none of those kept so far. */
  lemma NotYetKept<T>(listed: seq<T>, kept: seq<T>, i: nat)
    requires Separate(listed) && i < |listed| && KeptFrom(listed, kept, i)
    ensures listed[i] !in kept && KeptFrom(listed, kept, i + 1) && KeptFrom(listed, kept + [listed[i]], i + 1)
  {
    forall p | p in listed[..i] ensures p != listed[i] && p in listed[..i + 1] {
      var j :| 0 <= j < i && listed[..i][j] == p;
      assert listed[..i + 1][j] == p;
    }
    assert listed[..i + 1][i] == listed[i];
  }
}
