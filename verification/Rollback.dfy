/**
 The revision search of the rollback action. A ReplicaSet is its list of owner
 UIDs and its parsed revision (zero when the annotation is missing or is not a number);
 a result pointer into the list is an index.
 */
module Rollback {
  import opened Wrappers

  datatype ReplicaSet = ReplicaSet(owners: seq<string>, revision: int)

  method IsOwnedBy(refs: seq<string>, uid: string) returns (owned: bool)
    ensures owned <==> uid in refs
  {
    for i := 0 to |refs|
      invariant uid !in refs[..i]
    {
      if refs[i] == uid {
        return true;
      }
    }
    return false;
  }

  /** The ReplicaSets the search can ever report: owned, with a positive revision. */
  predicate Candidate(list: seq<ReplicaSet>, uid: string, i: int) {
    0 <= i < |list| && uid in list[i].owners && 0 < list[i].revision
  }

  /** `r` is the largest positive owned revision, or zero when there is none. */
  ghost predicate IsHighest(list: seq<ReplicaSet>, uid: string, r: int) {
    && (forall i :: Candidate(list, uid, i) ==> list[i].revision <= r)
    && (r == 0 || exists i :: Candidate(list, uid, i) && list[i].revision == r)
  }

  /** `r` is the second-highest distinct positive owned revision, or zero when there is none. */
  ghost predicate IsSecondHighest(list: seq<ReplicaSet>, uid: string, r: int) {
    && 0 <= r
    && (forall i :: Candidate(list, uid, i) && r < list[i].revision ==> IsHighest(list, uid, list[i].revision))
    && (0 < r ==>
          && (exists i :: Candidate(list, uid, i) && list[i].revision == r)
          && (exists i :: Candidate(list, uid, i) && r < list[i].revision))
  }

  /** `i` is the first candidate that carries the highest revision. */
  ghost predicate FirstHighest(list: seq<ReplicaSet>, uid: string, i: int) {
    && Candidate(list, uid, i)
    && IsHighest(list, uid, list[i].revision)
    && forall j :: Candidate(list, uid, j) && j < i ==> list[j].revision != list[i].revision
  }

  /** Candidate `i` has revision `r` and stands after the first one with the highest revision. */
  ghost predicate AfterHighest(list: seq<ReplicaSet>, uid: string, r: int, i: int) {
    && Candidate(list, uid, i)
    && list[i].revision == r
    && exists h :: FirstHighest(list, uid, h) && h < i
  }

  /** The exact result of the search, in terms of the list alone. */
  ghost predicate Found(list: seq<ReplicaSet>, uid: string, second: int, prev: Option<nat>) {
    match prev
    case None => forall i :: !AfterHighest(list, uid, second, i)
    case Some(p) =>
      AfterHighest(list, uid, second, p) && forall i :: AfterHighest(list, uid, second, i) ==> i <= p
  }

  method FindPreviousRevision(list: seq<ReplicaSet>, uid: string) returns (prev: Option<nat>)
    ensures exists second :: IsSecondHighest(list, uid, second) && Found(list, uid, second, prev)
  {
    var maxRevision, prevRevision := 0, 0;
    prev := None;
    ghost var top := -1;  // where maxRevision was first seen
    for i := 0 to |list|
      invariant Scanned(list, uid, i, maxRevision, prevRevision, top, prev)
    {
      var owned := IsOwnedBy(list[i].owners, uid);
      if !owned {
        continue;
      }
      var rev := list[i].revision;
      if maxRevision < rev {
        prevRevision := maxRevision;
        prev := None;
        maxRevision := rev;
        top := i;
      }
      if rev == prevRevision && 0 < rev {
        prev := Some(i);
      }
      if prevRevision < rev < maxRevision {
        prevRevision := rev;
        prev := Some(i);
      }
    }
    ScanComplete(list, uid, maxRevision, prevRevision, top, prev);
  }

  /** The loop invariant: what the three variables mean after the first `n` elements. */
  ghost predicate Scanned(list: seq<ReplicaSet>, uid: string, n: nat, max: int, second: int, top: int,
                          prev: Option<nat>) {
    && 0 <= second && (second < max || max == second == 0)
    && n <= |list|
    && (forall i :: Candidate(list, uid, i) && i < n ==> list[i].revision == max || list[i].revision <= second)
    && (second == 0 || exists i :: Candidate(list, uid, i) && i < n && list[i].revision == second)
    && (if max == 0 then top == -1
        else Candidate(list, uid, top) && top < n && list[top].revision == max
             && forall i :: Candidate(list, uid, i) && i < top ==> list[i].revision != max)
    && (match prev
        case None => forall i :: Candidate(list, uid, i) && top < i < n ==> list[i].revision != second
        case Some(p) =>
          && Candidate(list, uid, p) && top < p < n && list[p].revision == second
          && forall i :: Candidate(list, uid, i) && p < i < n ==> list[i].revision != second)
  }

  lemma ScanComplete(list: seq<ReplicaSet>, uid: string, max: int, second: int, top: int, prev: Option<nat>)
    requires Scanned(list, uid, |list|, max, second, top, prev)
    ensures IsSecondHighest(list, uid, second) && Found(list, uid, second, prev)
  {
    assert IsHighest(list, uid, max);
    forall h | FirstHighest(list, uid, h)
      ensures h == top
    {
      HighestUnique(list, uid, max, list[h].revision);
    }
    if max != 0 {
      assert FirstHighest(list, uid, top);
    }
  }

  lemma HighestUnique(list: seq<ReplicaSet>, uid: string, r: int, q: int)
    requires IsHighest(list, uid, r) && IsHighest(list, uid, q) && 0 <= r && 0 <= q
    ensures r == q
  {
  }

  lemma SecondHighestUnique(list: seq<ReplicaSet>, uid: string, r: int, q: int)
    requires IsSecondHighest(list, uid, r) && IsSecondHighest(list, uid, q)
    ensures r == q
  {
  }

  /** What the source's comment promises: the ReplicaSet with the second-highest revision, when there is one. */
  ghost predicate KeepsPromise(list: seq<ReplicaSet>, uid: string, prev: Option<nat>) {
    exists second :: IsSecondHighest(list, uid, second) &&
      if second == 0 then prev == None
      else prev.Some? && Candidate(list, uid, prev.value) && list[prev.value].revision == second
  }

  /** The promise is kept exactly on the lists where a second-highest ReplicaSet stands after the first highest one. */
  lemma PromiseKeptIff(list: seq<ReplicaSet>, uid: string, second: int, prev: Option<nat>)
    requires IsSecondHighest(list, uid, second) && Found(list, uid, second, prev)
    ensures KeepsPromise(list, uid, prev) <==> second == 0 || exists i :: AfterHighest(list, uid, second, i)
  {
    if KeepsPromise(list, uid, prev) {
      var s :| IsSecondHighest(list, uid, s) &&
        if s == 0 then prev == None
        else prev.Some? && Candidate(list, uid, prev.value) && list[prev.value].revision == s;
      SecondHighestUnique(list, uid, s, second);
    }
    if second == 0 {
      assert forall i :: AfterHighest(list, uid, second, i) ==> Candidate(list, uid, i);
    }
  }

  /** Revisions listed in ascending order have no previous one for this search: [1, 2] reports nothing. */
  lemma AscendingBreaksPromise(uid: string)
    ensures var list := [ReplicaSet([uid], 1), ReplicaSet([uid], 2)];
            IsSecondHighest(list, uid, 1) && Found(list, uid, 1, None) && !KeepsPromise(list, uid, None)
  {
    var list := [ReplicaSet([uid], 1), ReplicaSet([uid], 2)];
    assert Candidate(list, uid, 0) && Candidate(list, uid, 1);
    assert FirstHighest(list, uid, 1);
    PromiseKeptIff(list, uid, 1, None);
  }
}
