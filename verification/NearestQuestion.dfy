/** How close a draft is to the nearest question already stored, some questions excluded. The vector
    index can filter on the active flag but not on identifiers, so the search asks for enough
    neighbours to survive the exclusions. The index is exact and breaks ties as it likes. */
module NearestQuestion {
  import opened Numbers

  type Id = string

  datatype Entry = Entry(active: bool, distance: real)

  type Store = map<Id, Entry>

  function Active(store: Store): set<Id> {
    set id | id in store && store[id].active
  }

  function Similarity(e: Entry): real { ClipUnit(1.0 - e.distance) }

  /** ids is a correct reply to a query for the n nearest active entries. */
  ghost predicate IsReply(store: Store, n: nat, ids: seq<Id>) {
    && (forall i :: 0 <= i < |ids| ==> ids[i] in Active(store))
    && (forall i, j :: 0 <= i < j < |ids| ==> ids[i] != ids[j])
    && (forall i, j :: 0 <= i < j < |ids| ==> store[ids[i]].distance <= store[ids[j]].distance)
    && |ids| == Min(n, |Active(store)|)
    && (forall id, i :: id in Active(store) && id !in ids && 0 <= i < |ids| ==> store[ids[i]].distance <= store[id].distance)
  }

  function Allowed(store: Store, excluded: set<Id>): set<Id> { Active(store) - excluded }

  /** The answer of a search through everything: the greatest similarity to an allowed question, and 0
      when there is none. */
  ghost predicate IsGreatest(store: Store, excluded: set<Id>, r: real) {
    && (forall id :: id in Allowed(store, excluded) ==> Similarity(store[id]) <= r)
    && (if Allowed(store, excluded) == {} then r == 0.0
        else exists id :: id in Allowed(store, excluded) && Similarity(store[id]) == r)
  }

  lemma GreatestIsUnique(store: Store, excluded: set<Id>, r: real, s: real)
    requires IsGreatest(store, excluded, r) && IsGreatest(store, excluded, s)
    ensures r == s
  {
    if Allowed(store, excluded) != {} {
      var a :| a in Allowed(store, excluded) && Similarity(store[a]) == r;
      var b :| b in Allowed(store, excluded) && Similarity(store[b]) == s;
    }
  }

  predicate Counts(store: Store, excluded: set<Id>, id: Id) {
    id in store && store[id].active && id !in excluded
  }

  /** In terms of distances: one minus the least distance to an active question that is not excluded, cut off to
      the unit interval. */
  lemma GreatestFromLeastDistance(store: Store, excluded: set<Id>, r: real, nearest: Id)
    requires IsGreatest(store, excluded, r) && Counts(store, excluded, nearest)
    requires forall id :: Counts(store, excluded, id) ==> store[nearest].distance <= store[id].distance
    ensures var d := store[nearest].distance;
            && (0.0 <= d <= 1.0 ==> r == 1.0 - d) && (d < 0.0 ==> r == 1.0) && (d > 1.0 ==> r == 0.0)
  {
    assert nearest in Allowed(store, excluded);
    var id :| id in Allowed(store, excluded) && Similarity(store[id]) == r;
    assert Counts(store, excluded, id);
  }

  function IdSet(ids: seq<Id>): set<Id> {
    set i | 0 <= i < |ids| :: ids[i]
  }

  lemma {:induction false} DistinctSize(ids: seq<Id>)
    requires forall i, j :: 0 <= i < j < |ids| ==> ids[i] != ids[j]
    ensures |IdSet(ids)| == |ids|
  {
    if ids != [] {
      var init, last := ids[..|ids| - 1], ids[|ids| - 1];
      DistinctSize(init);
      assert IdSet(ids) == IdSet(init) + {last};
      assert last !in IdSet(init);
    }
  }

  lemma SubsetSize(a: set<Id>, b: set<Id>)
    requires a <= b
    ensures |a| <= |b|
    ensures |a| == |b| ==> a == b
  {
    assert b == a + (b - a);
  }

  /** Pigeonhole: a reply to a query for more entries than are excluded holds an allowed one, unless
      there is none at all. */
  lemma ReplyHoldsAllowed(store: Store, excluded: set<Id>, n: nat, ids: seq<Id>)
    requires IsReply(store, n, ids) && n >= Min(|store|, |excluded| + 1)
    requires forall i :: 0 <= i < |ids| ==> ids[i] in excluded
    ensures Allowed(store, excluded) == {}
  {
    DistinctSize(ids);
    SubsetSize(IdSet(ids), excluded);
    SubsetSize(Active(store), store.Keys);
    SubsetSize(IdSet(ids), Active(store));
    assert IdSet(ids) == Active(store);
  }

  /** The first allowed entry of a reply is the nearest of all allowed ones. */
  lemma FirstAllowedIsNearest(store: Store, excluded: set<Id>, n: nat, ids: seq<Id>, k: nat)
    requires IsReply(store, n, ids) && k < |ids| && ids[k] !in excluded
    requires forall i :: 0 <= i < k ==> ids[i] in excluded
    ensures IsGreatest(store, excluded, Similarity(store[ids[k]]))
  {
    forall id | id in Allowed(store, excluded) ensures Similarity(store[id]) <= Similarity(store[ids[k]]) {
      if id in ids {
        var j :| 0 <= j < |ids| && ids[j] == id;
      }
      assert store[ids[k]].distance <= store[id].distance;
    }
    assert ids[k] in Allowed(store, excluded);
  }

  /** The scan of a reply, which stops at the first entry that is not excluded. */
  method ScanReply(store: Store, excluded: set<Id>, n: nat, ids: seq<Id>) returns (r: real)
    requires IsReply(store, n, ids) && n >= Min(|store|, |excluded| + 1)
    ensures IsGreatest(store, excluded, r)
  {
    for i := 0 to |ids|
      invariant forall k :: 0 <= k < i ==> ids[k] in excluded
    {
      if ids[i] !in excluded {
        FirstAllowedIsNearest(store, excluded, n, ids, i);
        return Similarity(store[ids[i]]);
      }
    }
    ReplyHoldsAllowed(store, excluded, n, ids);
    return 0.0;
  }

  /** max_similarity. The index's reply to the query it makes is a parameter; an empty store is not
      queried. However the index breaks ties, there is only one answer to give. */
  method MaxSimilarity(store: Store, excluded: set<Id>, reply: seq<Id>) returns (r: real)
    requires IsReply(store, Min(|store|, |excluded| + 5), reply)
    ensures IsGreatest(store, excluded, r) && forall s :: IsGreatest(store, excluded, s) ==> s == r
    ensures 0.0 <= r <= 1.0
  {
    if |store| == 0 {
      r := 0.0;
    } else {
      r := ScanReply(store, excluded, Min(|store|, |excluded| + 5), reply);
    }
    forall s | IsGreatest(store, excluded, s) ensures s == r {
      GreatestIsUnique(store, excluded, r, s);
    }
  }

  /** One entry fewer than the lemma above asks for is not enough: when the nearest entries are exactly
      the excluded ones, a reply of that size hides a perfect match. */
  lemma ShorterQueryMisses(store: Store, excluded: set<Id>, other: Id, ids: seq<Id>)
    requires other !in excluded && store.Keys == excluded + {other}
    requires forall id :: id in store ==> store[id] == Entry(true, 0.0)
    requires IdSet(ids) == excluded && |ids| == |excluded|
    ensures IsReply(store, |excluded|, ids)
    ensures forall i :: 0 <= i < |ids| ==> ids[i] in excluded
    ensures IsGreatest(store, excluded, 1.0)
  {
    assert Active(store) == store.Keys;
    assert |excluded + {other}| == |excluded| + 1;
    assert Allowed(store, excluded) == {other};
    assert forall i :: 0 <= i < |ids| ==> ids[i] in IdSet(ids);
    AllDistinct(ids);
  }

  lemma {:induction false} AllDistinct(ids: seq<Id>)
    requires |IdSet(ids)| == |ids|
    ensures forall i, j :: 0 <= i < j < |ids| ==> ids[i] != ids[j]
  {
    if ids != [] {
      var init, last := ids[..|ids| - 1], ids[|ids| - 1];
      assert IdSet(ids) == IdSet(init) + {last};
      AtMostLength(init);
      AllDistinct(init);
    }
  }

  lemma {:induction false} AtMostLength(ids: seq<Id>)
    ensures |IdSet(ids)| <= |ids|
  {
    if ids != [] {
      var init, last := ids[..|ids| - 1], ids[|ids| - 1];
      AtMostLength(init);
      assert IdSet(ids) == IdSet(init) + {last};
    }
  }
}
