/**
 * The id-keyed merge of a freshly fetched page into an already loaded list
 * (`mergeUniquePosts`, written identically in src/post/PostContext.tsx and
 * src/components/comments/commentSection.tsx). Every element of `prev ++ page`
 * is put into a JavaScript `Map` under its id; the merged list is the map's
 * values in insertion order. The entity type is generic and `id` reads its key.
 */
module UniqueMerge {

  /** The ids of `xs`, in order. */
  function Ids<T>(xs: seq<T>, id: T -> string): (r: seq<string>)
    ensures |r| == |xs|
    ensures forall i :: 0 <= i < |xs| ==> r[i] == id(xs[i])
  {
    seq(|xs|, i requires 0 <= i < |xs| => id(xs[i]))
  }

  /** No id occurs twice in `xs`. */
  predicate UniqueIds<T>(xs: seq<T>, id: T -> string) {
    forall i, j :: 0 <= i < j < |xs| ==> id(xs[i]) != id(xs[j])
  }

  /** The index of the first element of `xs` with id `k`, or -1. */
  function FirstIndexOfId<T>(xs: seq<T>, k: string, id: T -> string): (r: int)
    ensures -1 <= r < |xs|
    ensures r == -1 <==> k !in Ids(xs, id)
    ensures r >= 0 ==> id(xs[r]) == k && forall j :: 0 <= j < r ==> id(xs[j]) != k
  {
    if xs == [] then -1
    else if id(xs[0]) == k then 0
    else
      var r := FirstIndexOfId(xs[1..], k, id);
      assert forall j :: 0 < j < |xs| ==> Ids(xs, id)[j] == Ids(xs[1..], id)[j - 1];
      if r == -1 then -1 else r + 1
  }

  /** The index of the last element of `xs` with id `k`, or -1. */
  function LastIndexOfId<T>(xs: seq<T>, k: string, id: T -> string): (r: int)
    ensures -1 <= r < |xs|
    ensures r == -1 <==> k !in Ids(xs, id)
    ensures r >= 0 ==> id(xs[r]) == k && forall j :: r < j < |xs| ==> id(xs[j]) != k
  {
    if xs == [] then -1
    else if id(xs[|xs| - 1]) == k then |xs| - 1
    else
      assert Ids(xs, id) == Ids(xs[..|xs| - 1], id) + [id(xs[|xs| - 1])];
      LastIndexOfId(xs[..|xs| - 1], k, id)
  }

  /** A JavaScript `Map` keyed by id: its keys in insertion order and its entries. */
  datatype IdMap<T> = IdMap(keys: seq<string>, entries: map<string, T>)

  /** `map.set(k, v)`: a key already present keeps its position, a new key goes last. */
  function Put<T>(m: IdMap<T>, k: string, v: T): IdMap<T> {
    IdMap(if k in m.entries then m.keys else m.keys + [k], m.entries[k := v])
  }

  /**
   * `m` indexes `xs`: its keys are the ids of `xs`, each once, and the entry
   * under each key carries that id.
   */
  ghost predicate Indexes<T>(m: IdMap<T>, xs: seq<T>, id: T -> string) {
    && (forall k :: k in m.entries <==> k in m.keys)
    && (forall i, j :: 0 <= i < j < |m.keys| ==> m.keys[i] != m.keys[j])
    && (forall k :: k in m.keys <==> k in Ids(xs, id))
    && (forall k :: k in m.entries ==> id(m.entries[k]) == k)
  }

  /** The map after `xs.forEach(x => map.set(id(x), x))` on an empty map. */
  function Fill<T>(xs: seq<T>, id: T -> string): IdMap<T>
  {
    if xs == [] then IdMap([], map[])
    else
      var n := |xs| - 1;
      Put(Fill(xs[..n], id), id(xs[n]), xs[n])
  }

  /** The filled map indexes the elements it was filled with. */
  lemma {:induction false} FillIndexes<T>(xs: seq<T>, id: T -> string)
    ensures Indexes(Fill(xs, id), xs, id)
  {
    if xs != [] {
      var n := |xs| - 1;
      FillIndexes(xs[..n], id);
      assert Ids(xs, id) == Ids(xs[..n], id) + [id(xs[n])];
    }
  }

  /** `Array.from(map.values())`. */
  function Values<T>(m: IdMap<T>): (r: seq<T>)
    requires forall k :: k in m.keys ==> k in m.entries
    ensures |r| == |m.keys|
    ensures forall i :: 0 <= i < |r| ==> r[i] == m.entries[m.keys[i]]
  {
    seq(|m.keys|, i requires 0 <= i < |m.keys| => m.entries[m.keys[i]])
  }

  lemma IdsAppend<T>(xs: seq<T>, ys: seq<T>, id: T -> string)
    ensures Ids(xs + ys, id) == Ids(xs, id) + Ids(ys, id)
  {
  }

  /** The merged list: each id once, carried by the last element of `prev ++ page` with that id. */
  function Merge<T>(prev: seq<T>, page: seq<T>, id: T -> string): (r: seq<T>)
    ensures UniqueIds(r, id)
    ensures forall k :: k in Ids(r, id) <==> k in Ids(prev + page, id)
    ensures forall k :: k in Ids(r, id) <==> k in Ids(prev, id) || k in Ids(page, id)
  {
    var m := Fill(prev + page, id);
    FillIndexes(prev + page, id);
    var r := Values(m);
    assert Ids(r, id) == m.keys;
    IdsAppend(prev, page, id);
    r
  }

  /** The imperative merge: fills the map in a loop, then reads its values back in insertion order. */
  method MergeUnique<T>(prev: seq<T>, page: seq<T>, id: T -> string) returns (merged: seq<T>)
    ensures merged == Merge(prev, page, id)
  {
    var all := prev + page;
    var keys: seq<string> := [];
    var entries: map<string, T> := map[];
    var i := 0;
    while i < |all|
      invariant 0 <= i <= |all|
      invariant IdMap(keys, entries) == Fill(all[..i], id)
    {
      assert all[..i + 1][..i] == all[..i];
      var k := id(all[i]);
      if k !in entries {
        keys := keys + [k];
      }
      entries := entries[k := all[i]];
      i := i + 1;
    }
    assert all[..i] == all;
    FillIndexes(all, id);
    merged := Values(IdMap(keys, entries));
  }

  // ---- Properties of the spec ----

  /** The entry stored under `k` is the last element of `xs` with id `k`. */
  lemma {:induction false} FillLastWins<T>(xs: seq<T>, k: string, id: T -> string)
    requires k in Ids(xs, id)
    ensures k in Fill(xs, id).entries
    ensures Fill(xs, id).entries[k] == xs[LastIndexOfId(xs, k, id)]
  {
    var n := |xs| - 1;
    if id(xs[n]) != k {
      assert Ids(xs, id) == Ids(xs[..n], id) + [id(xs[n])];
      FillLastWins(xs[..n], k, id);
    }
  }

  lemma IdsCons<T>(xs: seq<T>, id: T -> string)
    requires xs != []
    ensures Ids(xs, id) == [id(xs[0])] + Ids(xs[1..], id)
  {
  }

  lemma IdsSnoc<T>(xs: seq<T>, id: T -> string)
    requires xs != []
    ensures Ids(xs, id) == Ids(xs[..|xs| - 1], id) + [id(xs[|xs| - 1])]
  {
  }

  lemma FillSnoc<T>(p: seq<T>, x: T, id: T -> string)
    ensures Fill(p + [x], id) == Put(Fill(p, id), id(x), x)
  {
    assert (p + [x])[..|p|] == p;
  }

  /** Appending an element does not move the first occurrence of an id already present. */
  lemma {:induction false} FirstIndexOfIdSnoc<T>(xs: seq<T>, x: T, k: string, id: T -> string)
    requires k in Ids(xs, id)
    ensures FirstIndexOfId(xs + [x], k, id) == FirstIndexOfId(xs, k, id)
  {
    IdsCons(xs, id);
    if id(xs[0]) != k {
      assert (xs + [x])[1..] == xs[1..] + [x];
      FirstIndexOfIdSnoc(xs[1..], x, k, id);
    }
  }

  /** An id seen for the first time is first seen at the end. */
  lemma {:induction false} FirstIndexOfIdNew<T>(xs: seq<T>, x: T, id: T -> string)
    requires id(x) !in Ids(xs, id)
    ensures FirstIndexOfId(xs + [x], id(x), id) == |xs|
  {
    if xs == [] {
      assert xs + [x] == [x];
    } else {
      IdsCons(xs, id);
      assert (xs + [x])[0] == xs[0];
      assert (xs + [x])[1..] == xs[1..] + [x];
      FirstIndexOfIdNew(xs[1..], x, id);
    }
  }

  /** Two keys of the filled map are ordered by where their ids first occur in `xs`. */
  lemma {:induction false} FillFirstOccurrenceOrderAt<T>(xs: seq<T>, i: nat, j: nat, id: T -> string)
    requires i < j < |Fill(xs, id).keys|
    ensures var keys := Fill(xs, id).keys;
      FirstIndexOfId(xs, keys[i], id) < FirstIndexOfId(xs, keys[j], id)
  {
    var n := |xs| - 1;
    var p, x := xs[..n], xs[n];
    assert xs == p + [x];
    FillSnoc(p, x, id);
    FillIndexes(p, id);
    var before := Fill(p, id).keys;
    var keys := Fill(xs, id).keys;
    assert keys[i] == before[i];
    FirstIndexOfIdSnoc(p, x, before[i], id);
    if j < |before| {
      assert keys[j] == before[j];
      FirstIndexOfIdSnoc(p, x, before[j], id);
      FillFirstOccurrenceOrderAt(p, i, j, id);
    } else {
      assert keys[j] == id(x);
      FirstIndexOfIdNew(p, x, id);
    }
  }

  /** The keys of the filled map are ordered by where each id first occurs in `xs`. */
  lemma FillFirstOccurrenceOrder<T>(xs: seq<T>, id: T -> string)
    ensures var keys := Fill(xs, id).keys;
      forall i, j :: 0 <= i < j < |keys| ==>
        FirstIndexOfId(xs, keys[i], id) < FirstIndexOfId(xs, keys[j], id)
  {
    var keys := Fill(xs, id).keys;
    forall i, j | 0 <= i < j < |keys|
      ensures FirstIndexOfId(xs, keys[i], id) < FirstIndexOfId(xs, keys[j], id)
    {
      FillFirstOccurrenceOrderAt(xs, i, j, id);
    }
  }

  /** Filling more elements only appends keys: the earlier key order survives. */
  lemma {:induction false} FillKeysExtend<T>(xs: seq<T>, ys: seq<T>, id: T -> string)
    ensures |Fill(xs, id).keys| <= |Fill(xs + ys, id).keys|
    ensures Fill(xs + ys, id).keys[..|Fill(xs, id).keys|] == Fill(xs, id).keys
  {
    if ys == [] {
      assert xs + ys == xs;
    } else {
      var n := |ys| - 1;
      assert (xs + ys)[..|xs + ys| - 1] == xs + ys[..n];
      FillKeysExtend(xs, ys[..n], id);
    }
  }

  /** Without repeated ids, the map's keys are exactly the ids of `xs`, in order. */
  lemma {:induction false} FillKeysOfUnique<T>(xs: seq<T>, id: T -> string)
    requires UniqueIds(xs, id)
    ensures Fill(xs, id).keys == Ids(xs, id)
  {
    if xs != [] {
      var n := |xs| - 1;
      FillKeysOfUnique(xs[..n], id);
      FillIndexes(xs[..n], id);
      assert id(xs[n]) !in Ids(xs[..n], id);
      assert Ids(xs, id) == Ids(xs[..n], id) + [id(xs[n])];
    }
  }

  lemma {:induction false} LastIndexOfIdAppend<T>(xs: seq<T>, ys: seq<T>, k: string, id: T -> string)
    requires k in Ids(ys, id)
    ensures LastIndexOfId(xs + ys, k, id) == |xs| + LastIndexOfId(ys, k, id)
  {
    var m := |ys| - 1;
    assert (xs + ys)[|xs + ys| - 1] == ys[m];
    if id(ys[m]) != k {
      IdsSnoc(ys, id);
      assert (xs + ys)[..|xs + ys| - 1] == xs + ys[..m];
      LastIndexOfIdAppend(xs, ys[..m], k, id);
    }
  }

  lemma {:induction false} LastIndexOfIdPrepend<T>(xs: seq<T>, ys: seq<T>, k: string, id: T -> string)
    requires k !in Ids(ys, id)
    ensures LastIndexOfId(xs + ys, k, id) == LastIndexOfId(xs, k, id)
  {
    if ys == [] {
      assert xs + ys == xs;
    } else {
      var m := |ys| - 1;
      IdsSnoc(ys, id);
      assert (xs + ys)[|xs + ys| - 1] == ys[m];
      assert (xs + ys)[..|xs + ys| - 1] == xs + ys[..m];
      LastIndexOfIdPrepend(xs, ys[..m], k, id);
    }
  }

  /**
   * Last wins: every merged element is the last element of `prev ++ page` carrying its id;
   * in particular an id the new page carries is stored with the page's (last) copy.
   */
  lemma MergeLastWins<T>(prev: seq<T>, page: seq<T>, id: T -> string)
    ensures var all := prev + page; var r := Merge(prev, page, id);
      forall i :: 0 <= i < |r| ==> r[i] == all[LastIndexOfId(all, id(r[i]), id)]
    ensures var r := Merge(prev, page, id);
      forall i :: 0 <= i < |r| && id(r[i]) in Ids(page, id) ==>
        r[i] == page[LastIndexOfId(page, id(r[i]), id)]
  {
    var all := prev + page;
    var m := Fill(all, id);
    FillIndexes(all, id);
    var r := Merge(prev, page, id);
    forall i | 0 <= i < |r|
      ensures r[i] == all[LastIndexOfId(all, id(r[i]), id)]
      ensures id(r[i]) in Ids(page, id) ==> r[i] == page[LastIndexOfId(page, id(r[i]), id)]
    {
      var k := m.keys[i];
      assert r[i] == m.entries[k] && id(r[i]) == k;
      FillLastWins(all, k, id);
      if k in Ids(page, id) {
        LastIndexOfIdAppend(prev, page, k, id);
      }
    }
  }

  /** The merged ids appear in the order of their first occurrence in `prev ++ page`. */
  lemma MergeFirstOccurrenceOrder<T>(prev: seq<T>, page: seq<T>, id: T -> string)
    ensures var all := prev + page; var r := Merge(prev, page, id);
      forall i, j :: 0 <= i < j < |r| ==>
        FirstIndexOfId(all, id(r[i]), id) < FirstIndexOfId(all, id(r[j]), id)
  {
    var all := prev + page;
    var m := Fill(all, id);
    FillIndexes(all, id);
    var r := Merge(prev, page, id);
    forall i, j | 0 <= i < j < |r|
      ensures FirstIndexOfId(all, id(r[i]), id) < FirstIndexOfId(all, id(r[j]), id)
    {
      assert id(r[i]) == m.keys[i] && id(r[j]) == m.keys[j];
      FillFirstOccurrenceOrderAt(all, i, j, id);
    }
  }

  /** Merging into a list without repeated ids keeps the order of the loaded ids at the front. */
  lemma MergeKeepsLoadedIds<T>(prev: seq<T>, page: seq<T>, id: T -> string)
    requires UniqueIds(prev, id)
    ensures var r := Merge(prev, page, id);
      && |prev| <= |r|
      && (forall i :: 0 <= i < |prev| ==> id(r[i]) == id(prev[i]))
  {
    var all := prev + page;
    var m := Fill(all, id);
    FillIndexes(all, id);
    FillKeysExtend(prev, page, id);
    FillKeysOfUnique(prev, id);
  }

  /** A loaded element whose id the page does not carry stays exactly as it was. */
  lemma MergeKeepsUntouched<T>(prev: seq<T>, page: seq<T>, id: T -> string)
    requires UniqueIds(prev, id)
    ensures var r := Merge(prev, page, id);
      forall i :: 0 <= i < |prev| && id(prev[i]) !in Ids(page, id) ==> i < |r| && r[i] == prev[i]
  {
    var all := prev + page;
    var r := Merge(prev, page, id);
    MergeKeepsLoadedIds(prev, page, id);
    MergeLastWins(prev, page, id);
    forall i | 0 <= i < |prev| && id(prev[i]) !in Ids(page, id)
      ensures r[i] == prev[i]
    {
      var k := id(prev[i]);
      assert id(r[i]) == k;
      LastIndexOfIdPrepend(prev, page, k, id);
      assert LastIndexOfId(prev, k, id) == i;
    }
  }

  /** Everything merged after the loaded elements is new: its id comes from the page only. */
  lemma MergeAppendsNew<T>(prev: seq<T>, page: seq<T>, id: T -> string)
    requires UniqueIds(prev, id)
    ensures var r := Merge(prev, page, id);
      forall i :: |prev| <= i < |r| ==> id(r[i]) !in Ids(prev, id) && id(r[i]) in Ids(page, id)
  {
    var r := Merge(prev, page, id);
    MergeKeepsLoadedIds(prev, page, id);
    forall i | |prev| <= i < |r|
      ensures id(r[i]) !in Ids(prev, id) && id(r[i]) in Ids(page, id)
    {
      assert forall j :: 0 <= j < |prev| ==> Ids(prev, id)[j] == id(r[j]) != id(r[i]);
    }
  }
}
