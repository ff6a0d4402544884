/**
 * The saved-schools list: toggling a school id removes every copy of it
 * when it is present and appends it at the end when it is not.
 */
module Bookmarks {
  import opened Constants

  /** `ids.filter(x => x !== id)`. */
  function RemoveAll(ids: seq<string>, id: string): (r: seq<string>)
    ensures id !in r
    ensures forall x :: x != id ==> (x in r <==> x in ids)
    ensures |r| <= |ids|
  {
    if ids == [] then []
    else (if ids[0] == id then [] else [ids[0]]) + RemoveAll(ids[1..], id)
  }

  /** Removal deletes every copy of `id` and keeps every other id as often as it occurred. */
  lemma {:induction false} RemoveAllCounts(ids: seq<string>, id: string, x: string)
    ensures multiset(RemoveAll(ids, id))[x] == if x == id then 0 else multiset(ids)[x]
  {
    if ids != [] {
      assert ids == [ids[0]] + ids[1..];
      RemoveAllCounts(ids[1..], id, x);
    }
  }

  /** Bookmark or un-bookmark `id`. */
  function Toggle(ids: seq<string>, id: string): (r: seq<string>)
    ensures id in r <==> id !in ids
    ensures forall x :: x != id ==> (x in r <==> x in ids)
    ensures id !in ids ==> |r| == |ids| + 1 && r[..|ids|] == ids && r[|ids|] == id
  {
    if id in ids then RemoveAll(ids, id) else ids + [id]
  }

  /** Removal keeps the other ids in their order: it distributes over concatenation. */
  lemma {:induction false} RemoveAllKeepsOrder(xs: seq<string>, ys: seq<string>, id: string)
    ensures RemoveAll(xs + ys, id) == RemoveAll(xs, id) + RemoveAll(ys, id)
  {
    if xs == [] {
      assert xs + ys == ys;
    } else {
      var head := if xs[0] == id then [] else [xs[0]];
      calc {
        RemoveAll(xs + ys, id);
        == { assert (xs + ys)[0] == xs[0] && (xs + ys)[1..] == xs[1..] + ys; }
        head + RemoveAll(xs[1..] + ys, id);
        == { RemoveAllKeepsOrder(xs[1..], ys, id); }
        head + (RemoveAll(xs[1..], id) + RemoveAll(ys, id));
        ==
        (head + RemoveAll(xs[1..], id)) + RemoveAll(ys, id);
      }
    }
  }

  /** Removing an id that is not there changes nothing. */
  lemma {:induction false} RemoveAbsent(ids: seq<string>, id: string)
    requires id !in ids
    ensures RemoveAll(ids, id) == ids
  {
    if ids != [] {
      RemoveAbsent(ids[1..], id);
    }
  }

  /** Bookmarking a new school and then un-bookmarking it restores the list. */
  lemma ToggleTwiceRestores(ids: seq<string>, id: string)
    requires id !in ids
    ensures Toggle(Toggle(ids, id), id) == ids
  {
    RemoveAllKeepsOrder(ids, [id], id);
    RemoveAbsent(ids, id);
  }

  /** A list without repeats stays without repeats. */
  lemma ToggleKeepsNoDuplicates(ids: seq<string>, id: string)
    requires NoDuplicates(ids)
    ensures NoDuplicates(Toggle(ids, id))
  {
    var r := Toggle(ids, id);
    if id in ids {
      forall x | x in r ensures multiset(r)[x] <= 1 {
        MultisetCountOfDistinct(ids, x);
        RemoveAllCounts(ids, id, x);
      }
      DistinctByCounts(r);
    }
  }

  lemma {:induction false} MultisetCountOfDistinct(s: seq<string>, x: string)
    requires NoDuplicates(s)
    ensures multiset(s)[x] <= 1
  {
    if s != [] {
      assert s == [s[0]] + s[1..];
      assert NoDuplicates(s[1..]);
      MultisetCountOfDistinct(s[1..], x);
      if s[0] == x {
        assert x !in s[1..];
      }
    }
  }

  lemma DistinctByCounts(s: seq<string>)
    requires forall x :: x in s ==> multiset(s)[x] <= 1
    ensures NoDuplicates(s)
  {
    forall i, j | 0 <= i < j < |s| ensures s[i] != s[j] {
      RepeatCounts(s, i, j);
    }
  }

  lemma RepeatCounts(s: seq<string>, i: int, j: int)
    requires 0 <= i < j < |s|
    ensures s[i] == s[j] ==> multiset(s)[s[i]] >= 2
  {
    assert s == s[..i] + [s[i]] + s[i + 1..j] + [s[j]] + s[j + 1..];
  }
}
