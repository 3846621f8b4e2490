/**
 * List semantics shared by both whitelist stores: membership, appending
 * without a duplicate check, and removal of every occurrence.
 */
module Whitelists {
  import opened Collections

  /** `slices.Contains`: some position of the list holds `u`. */
  predicate Contains(list: seq<string>, u: string)
  {
    exists i | 0 <= i < |list| :: list[i] == u
  }

  /** After appending `u` the list contains `u` and everything it contained before, and nothing else. */
  lemma {:induction false} AddContains(list: seq<string>, u: string, v: string)
    ensures Contains(list + [u], v) <==> v == u || Contains(list, v)
  {
    if Contains(list + [u], v) && v != u {
      var i :| 0 <= i < |list + [u]| && (list + [u])[i] == v;
      assert i < |list| && list[i] == v;
    }
    if Contains(list, v) {
      var i :| 0 <= i < |list| && list[i] == v;
      assert (list + [u])[i] == v;
    }
    if v == u {
      assert (list + [u])[|list|] == u;
    }
  }

  /** After removing `u` the list no longer contains it, and every other name keeps its membership. */
  lemma {:induction false} RemoveContains(list: seq<string>, u: string, v: string)
    ensures Contains(RemoveAll(list, u), v) <==> v != u && Contains(list, v)
  {
    var r := RemoveAll(list, u);
    if Contains(r, v) {
      var i :| 0 <= i < |r| && r[i] == v;
      assert v in list;
      var j :| 0 <= j < |list| && list[j] == v;
    }
    if v != u && Contains(list, v) {
      var j :| 0 <= j < |list| && list[j] == v;
      assert v in r;
      var i :| 0 <= i < |r| && r[i] == v;
    }
  }

  /** Adding a name and then removing it leaves the list as removing it alone would. */
  lemma {:induction false} AddThenRemove(list: seq<string>, u: string)
    ensures RemoveAll(list + [u], u) == RemoveAll(list, u)
  {
    RemoveAllAppend(list, [u], u);
    assert RemoveAll([u], u) == [];
    assert RemoveAll(list, u) + [] == RemoveAll(list, u);
  }

  /** Adding a name twice keeps two entries: one removal of that name deletes both. */
  lemma {:induction false} AddTwiceRemoveOnce(list: seq<string>, u: string)
    ensures |list + [u] + [u]| == |list| + 2
    ensures !Contains(RemoveAll(list + [u] + [u], u), u)
  {
    RemoveContains(list + [u] + [u], u, u);
  }
}
