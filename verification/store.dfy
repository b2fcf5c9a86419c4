/**
 * The document store as the controllers use it: a collection maps object ids
 * to documents, and `next` is the id the next insertion receives. Ids grow
 * with insertion time, so they double as the creation order.
 */
module Store {
  import opened Wrappers

  datatype Collection<T> = Collection(docs: map<nat, T>, next: nat)

  /** Every stored id was handed out before `next`. */
  ghost predicate Valid<T>(c: Collection<T>) {
    forall id | id in c.docs :: id < c.next
  }

  /** `new Model(doc).save()`: stores `doc` under a fresh id, returned alongside. */
  function Insert<T>(c: Collection<T>, doc: T): (r: (Collection<T>, nat))
    ensures Valid(c) ==> Valid(r.0) && r.1 !in c.docs
    ensures r.1 in r.0.docs && r.0.docs[r.1] == doc
    ensures Valid(c) ==> forall id | id in c.docs :: id in r.0.docs && r.0.docs[id] == c.docs[id]
    ensures r.0.docs.Keys == c.docs.Keys + {r.1}
  {
    (Collection(c.docs[c.next := doc], c.next + 1), c.next)
  }

  /**
   * The ids below `k` of the documents satisfying `p`, newest first: a
   * filtered query sorted on the creation stamp, descending.
   */
  function Newest<T>(docs: map<nat, T>, p: T -> bool, k: nat): (ids: seq<nat>)
    ensures |ids| <= k
  {
    if k == 0 then []
    else
      var rest: seq<nat> := Newest(docs, p, k - 1);
      if k - 1 in docs && p(docs[k - 1]) then [k - 1] + rest else rest
  }

  /** Every listed id is a stored document below `k` that satisfies `p`. */
  lemma {:induction false} NewestSound<T>(docs: map<nat, T>, p: T -> bool, k: nat)
    ensures forall i | 0 <= i < |Newest(docs, p, k)| ::
      Newest(docs, p, k)[i] < k && Newest(docs, p, k)[i] in docs && p(docs[Newest(docs, p, k)[i]])
  {
    if k > 0 {
      NewestSound(docs, p, k - 1);
      var rest: seq<nat> := Newest(docs, p, k - 1);
      var ids: seq<nat> := Newest(docs, p, k);
      if k - 1 in docs && p(docs[k - 1]) {
        forall i | 0 <= i < |ids| ensures ids[i] < k && ids[i] in docs && p(docs[ids[i]]) {
          if i > 0 {
            assert ids[i] == rest[i - 1];
          }
        }
      }
    }
  }

  /** The listing is strictly descending: newest first, no repeats. */
  lemma {:induction false} NewestSorted<T>(docs: map<nat, T>, p: T -> bool, k: nat)
    ensures forall i, j | 0 <= i < j < |Newest(docs, p, k)| :: Newest(docs, p, k)[i] > Newest(docs, p, k)[j]
  {
    if k > 0 {
      NewestSorted(docs, p, k - 1);
      NewestSound(docs, p, k - 1);
      var rest: seq<nat> := Newest(docs, p, k - 1);
      var ids: seq<nat> := Newest(docs, p, k);
      if k - 1 in docs && p(docs[k - 1]) {
        forall i, j | 0 <= i < j < |ids| ensures ids[i] > ids[j] {
          assert ids[j] == rest[j - 1];
          if i > 0 {
            assert ids[i] == rest[i - 1];
          }
        }
      }
    }
  }

  /** Every stored document below `k` that satisfies `p` is listed. */
  lemma {:induction false} NewestComplete<T>(docs: map<nat, T>, p: T -> bool, k: nat)
    ensures forall id | id in docs && id < k && p(docs[id]) :: id in Newest(docs, p, k)
  {
    if k > 0 {
      NewestComplete(docs, p, k - 1);
    }
  }

  /** The ids below `k` of the documents satisfying `p`, as a set. */
  ghost function Matching<T>(docs: map<nat, T>, p: T -> bool, k: nat): set<nat> {
    set id | id in docs && id < k && p(docs[id])
  }

  /** The listing holds each matching document exactly once: `countDocuments(filter)` is its length. */
  lemma {:induction false} NewestCount<T>(docs: map<nat, T>, p: T -> bool, k: nat)
    ensures |Newest(docs, p, k)| == |Matching(docs, p, k)|
  {
    if k > 0 {
      NewestCount(docs, p, k - 1);
      MatchingStep(docs, p, k);
      var before := Matching(docs, p, k - 1);
      if k - 1 in docs && p(docs[k - 1]) {
        assert |Newest(docs, p, k)| == 1 + |Newest(docs, p, k - 1)|;
        assert |before + {k - 1}| == |before| + 1;
      } else {
        assert Newest(docs, p, k) == Newest(docs, p, k - 1);
      }
    }
  }

  /** Raising the bound by one adds at most the id just below it. */
  lemma MatchingStep<T>(docs: map<nat, T>, p: T -> bool, k: nat)
    requires k > 0
    ensures var before := Matching(docs, p, k - 1);
      if k - 1 in docs && p(docs[k - 1])
      then k - 1 !in before && Matching(docs, p, k) == before + {k - 1}
      else Matching(docs, p, k) == before
  {
  }

  /** The last id of a non-empty listing is the smallest matching id. */
  lemma LastIsOldest<T>(docs: map<nat, T>, p: T -> bool, k: nat)
    requires |Newest(docs, p, k)| > 0
    ensures var ids := Newest(docs, p, k);
      forall id | id in docs && id < k && p(docs[id]) :: ids[|ids| - 1] <= id
  {
    var ids := Newest(docs, p, k);
    NewestSorted(docs, p, k);
    NewestComplete(docs, p, k);
    forall id | id in docs && id < k && p(docs[id]) ensures ids[|ids| - 1] <= id {
      var j :| 0 <= j < |ids| && ids[j] == id;
      if j < |ids| - 1 {
        assert ids[j] > ids[|ids| - 1];
      }
    }
  }

  /** `s` runs in ascending `rank` order. */
  predicate RankSorted(s: seq<nat>, rank: nat -> int) {
    forall i, j | 0 <= i < j < |s| :: rank(s[i]) <= rank(s[j])
  }

  /**
   * The order a query returns documents in when its sort key does not tell
   * them apart: ascending by `rank`, the store's own scan position, keeping
   * the given order among equal ranks.
   */
  function Arrange(ids: seq<nat>, rank: nat -> int): (r: seq<nat>)
    ensures |r| == |ids|
  {
    if ids == [] then [] else Place(ids[0], Arrange(ids[1..], rank), rank)
  }

  /** Inserts `x` before the first element of `s` whose rank is not below its own. */
  function Place(x: nat, s: seq<nat>, rank: nat -> int): (r: seq<nat>)
    ensures |r| == |s| + 1
  {
    if s == [] || rank(x) <= rank(s[0]) then [x] + s else [s[0]] + Place(x, s[1..], rank)
  }

  lemma {:induction false} PlacePermutes(x: nat, s: seq<nat>, rank: nat -> int)
    ensures multiset(Place(x, s, rank)) == multiset(s) + multiset{x}
  {
    if s != [] && rank(x) > rank(s[0]) {
      PlacePermutes(x, s[1..], rank);
      assert s == [s[0]] + s[1..];
    }
  }

  /** Arranging only reorders: the same ids, each as often as before. */
  lemma {:induction false} ArrangePermutes(ids: seq<nat>, rank: nat -> int)
    ensures multiset(Arrange(ids, rank)) == multiset(ids)
  {
    if ids != [] {
      ArrangePermutes(ids[1..], rank);
      PlacePermutes(ids[0], Arrange(ids[1..], rank), rank);
      assert ids == [ids[0]] + ids[1..];
    }
  }

  /** A bound below `x` and every element of `s` stays below every element after placing. */
  lemma {:induction false} PlaceAbove(x: nat, s: seq<nat>, rank: nat -> int, b: int)
    requires b <= rank(x)
    requires forall k | 0 <= k < |s| :: b <= rank(s[k])
    ensures forall k | 0 <= k < |Place(x, s, rank)| :: b <= rank(Place(x, s, rank)[k])
  {
    if s != [] && rank(x) > rank(s[0]) {
      PlaceAbove(x, s[1..], rank, b);
    }
  }

  lemma {:induction false} PlaceSorted(x: nat, s: seq<nat>, rank: nat -> int)
    requires RankSorted(s, rank)
    ensures RankSorted(Place(x, s, rank), rank)
  {
    if s != [] && rank(x) > rank(s[0]) {
      var tail := Place(x, s[1..], rank);
      PlaceSorted(x, s[1..], rank);
      PlaceAbove(x, s[1..], rank, rank(s[0]));
      var r := Place(x, s, rank);
      assert r == [s[0]] + tail;
      forall i, j | 0 <= i < j < |r| ensures rank(r[i]) <= rank(r[j]) {
        assert r[j] == tail[j - 1];
        if i > 0 {
          assert r[i] == tail[i - 1];
        }
      }
    }
  }

  /** Arranged ids run in ascending rank. */
  lemma {:induction false} ArrangeSorted(ids: seq<nat>, rank: nat -> int)
    ensures RankSorted(Arrange(ids, rank), rank)
  {
    if ids != [] {
      ArrangeSorted(ids[1..], rank);
      PlaceSorted(ids[0], Arrange(ids[1..], rank), rank);
    }
  }

  /** An arranged id is one of the given ids, and every given id is arranged. */
  lemma ArrangeMembers(ids: seq<nat>, rank: nat -> int)
    ensures forall i | 0 <= i < |Arrange(ids, rank)| :: Arrange(ids, rank)[i] in ids
    ensures forall i | 0 <= i < |ids| :: ids[i] in Arrange(ids, rank)
  {
    ArrangePermutes(ids, rank);
    var r := Arrange(ids, rank);
    forall i | 0 <= i < |r| ensures r[i] in ids {
      assert r[i] in multiset(r);
    }
    forall i | 0 <= i < |ids| ensures ids[i] in r {
      assert ids[i] in multiset(ids);
    }
  }

  /** `findOne(filter)`: the oldest document satisfying `p`, if any. */
  function FindOne<T>(c: Collection<T>, p: T -> bool): (r: Option<nat>)
    ensures r.Some? ==> r.value in c.docs && p(c.docs[r.value])
    ensures r.Some? ==> forall id | id in c.docs && id < r.value :: !p(c.docs[id])
    ensures Valid(c) && r.None? ==> forall id | id in c.docs :: !p(c.docs[id])
  {
    var ids := Newest(c.docs, p, c.next);
    NewestSound(c.docs, p, c.next);
    NewestComplete(c.docs, p, c.next);
    if |ids| == 0 then None
    else
      LastIsOldest(c.docs, p, c.next);
      Some(ids[|ids| - 1])
  }
}
