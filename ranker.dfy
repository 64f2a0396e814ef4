/** The ranker: a top-down merge sort of paths by ascending score. The merge
    step writes into a scratch copy of the input, index by index; on equal
    scores the path from the left half goes first, which makes the sort
    stable. */
module Ranker {
  import opened Geometry

  /** A candidate route. `score` is the ordering key of the source's fitness
      value (see Fitness.Score); lower is better. */
  datatype Path = Path(score: real, points: seq<Point>)

  predicate Sorted(s: seq<Path>) {
    forall i, j :: 0 <= i < j < |s| ==> s[i].score <= s[j].score
  }

  /** The paths of `s` whose score is `key`, in the order they have in `s`.
      Two sequences with the same `WithScore` for every key hold the same
      paths, and equal-score paths in the same relative order. */
  function WithScore(s: seq<Path>, key: real): seq<Path>
  {
    if s == [] then [] else Keep(s[0], key) + WithScore(s[1..], key)
  }

  /** `p` alone when it scores `key`, nothing otherwise. */
  function Keep(p: Path, key: real): seq<Path> {
    if p.score == key then [p] else []
  }

  lemma {:induction false} WithScoreMember(s: seq<Path>, key: real, p: Path)
    requires p in WithScore(s, key)
    ensures p in s && p.score == key
  {
    if s != [] && !(s[0].score == key && p == s[0]) {
      WithScoreMember(s[1..], key, p);
      assert s == [s[0]] + s[1..];
    }
  }

  /** Stability: every group of equal-score paths keeps its order. */
  ghost predicate SameGroups(a: seq<Path>, b: seq<Path>) {
    forall key :: WithScore(a, key) == WithScore(b, key)
  }

  lemma {:induction false} WithScoreAppend(a: seq<Path>, b: seq<Path>, key: real)
    ensures WithScore(a + b, key) == WithScore(a, key) + WithScore(b, key)
  {
    if a == [] {
      assert a + b == b;
    } else {
      assert (a + b)[0] == a[0];
      assert (a + b)[1..] == a[1..] + b;
      WithScoreAppend(a[1..], b, key);
    }
  }

  /** Reference definition of merging two runs, the left one winning ties. */
  function Merged(left: seq<Path>, right: seq<Path>): seq<Path>
    decreases |left| + |right|
  {
    if left == [] then right
    else if right == [] then left
    else if left[0].score <= right[0].score then [left[0]] + Merged(left[1..], right)
    else [right[0]] + Merged(left, right[1..])
  }

  /** Reference definition of the sort: split at the middle, sort the halves,
      merge them. */
  function MergeSort(s: seq<Path>): seq<Path>
    decreases |s|
  {
    if |s| <= 1 then s
    else
      var mid := |s| / 2;
      Merged(MergeSort(s[..mid]), MergeSort(s[mid..]))
  }

  lemma {:induction false} MergedLength(left: seq<Path>, right: seq<Path>)
    ensures |Merged(left, right)| == |left| + |right|
    decreases |left| + |right|
  {
    if left != [] && right != [] {
      if left[0].score <= right[0].score {
        MergedLength(left[1..], right);
      } else {
        MergedLength(left, right[1..]);
      }
    }
  }

  lemma MultisetCons(s: seq<Path>)
    requires s != []
    ensures multiset(s) == multiset{s[0]} + multiset(s[1..])
  {
    assert s == [s[0]] + s[1..];
  }

  lemma {:induction false} MergedPermutes(left: seq<Path>, right: seq<Path>)
    ensures multiset(Merged(left, right)) == multiset(left) + multiset(right)
    decreases |left| + |right|
  {
    if left != [] && right != [] {
      if left[0].score <= right[0].score {
        MergedPermutes(left[1..], right);
        MultisetCons(left);
        assert Merged(left, right) == [left[0]] + Merged(left[1..], right);
      } else {
        MergedPermutes(left, right[1..]);
        MultisetCons(right);
        assert Merged(left, right) == [right[0]] + Merged(left, right[1..]);
      }
    }
  }

  predicate AllAtLeast(s: seq<Path>, bound: real) {
    forall i :: 0 <= i < |s| ==> bound <= s[i].score
  }

  lemma {:induction false} MergedAtLeast(left: seq<Path>, right: seq<Path>, bound: real)
    requires AllAtLeast(left, bound) && AllAtLeast(right, bound)
    ensures AllAtLeast(Merged(left, right), bound)
    decreases |left| + |right|
  {
    if left != [] && right != [] {
      if left[0].score <= right[0].score {
        MergedAtLeast(left[1..], right, bound);
      } else {
        MergedAtLeast(left, right[1..], bound);
      }
    }
  }

  lemma SortedAtLeastHead(s: seq<Path>)
    requires Sorted(s) && s != []
    ensures AllAtLeast(s[1..], s[0].score)
  {
  }

  lemma SortedCons(p: Path, s: seq<Path>)
    requires Sorted(s) && AllAtLeast(s, p.score)
    ensures Sorted([p] + s)
  {
  }

  /** Merging two sorted runs gives a sorted run. */
  lemma {:induction false} MergedSorted(left: seq<Path>, right: seq<Path>)
    requires Sorted(left) && Sorted(right)
    ensures Sorted(Merged(left, right))
    decreases |left| + |right|
  {
    if left != [] && right != [] {
      if left[0].score <= right[0].score {
        MergedSorted(left[1..], right);
        SortedAtLeastHead(left);
        MergedAtLeast(left[1..], right, left[0].score);
        SortedCons(left[0], Merged(left[1..], right));
      } else {
        MergedSorted(left, right[1..]);
        SortedAtLeastHead(right);
        MergedAtLeast(left, right[1..], right[0].score);
        SortedCons(right[0], Merged(left, right[1..]));
      }
    }
  }

  /** Merging keeps each group of equal-score paths in order: the left run's
      members of the group first, then the right run's. */
  lemma {:induction false} MergedGroups(left: seq<Path>, right: seq<Path>, key: real)
    requires Sorted(left)
    ensures WithScore(Merged(left, right), key) == WithScore(left, key) + WithScore(right, key)
    decreases |left| + |right|
  {
    if left != [] && right != [] {
      if left[0].score <= right[0].score {
        MergedGroups(left[1..], right, key);
        GroupsLeftFirst(left, right, key);
      } else {
        MergedGroups(left, right[1..], key);
        if right[0].score == key {
          SortedAbove(left, key);
        }
        GroupsRightFirst(left, right, key);
      }
    }
  }

  lemma WithScoreCons(p: Path, t: seq<Path>, key: real)
    ensures WithScore([p] + t, key) == Keep(p, key) + WithScore(t, key)
  {
    assert ([p] + t)[1..] == t;
  }

  lemma MergedHead(left: seq<Path>, right: seq<Path>)
    requires left != [] && right != []
    ensures left[0].score <= right[0].score ==> Merged(left, right) == [left[0]] + Merged(left[1..], right)
    ensures left[0].score > right[0].score ==> Merged(left, right) == [right[0]] + Merged(left, right[1..])
  {
  }

  lemma WithScoreHead(s: seq<Path>, key: real)
    requires s != []
    ensures WithScore(s, key) == Keep(s[0], key) + WithScore(s[1..], key)
  {
  }

  /** One step of MergedGroups, when the left head is taken. */
  lemma GroupsLeftFirst(left: seq<Path>, right: seq<Path>, key: real)
    requires left != [] && right != [] && left[0].score <= right[0].score
    requires WithScore(Merged(left[1..], right), key) == WithScore(left[1..], key) + WithScore(right, key)
    ensures WithScore(Merged(left, right), key) == WithScore(left, key) + WithScore(right, key)
  {
    var t := Merged(left[1..], right);
    MergedHead(left, right);
    WithScoreCons(left[0], t, key);
    WithScoreHead(left, key);
    AppendAssoc(Keep(left[0], key), WithScore(left[1..], key), WithScore(right, key));
  }

  /** One step of MergedGroups, when the right head is taken. When the right
      head is in the group, the left run (all of whose paths score above the
      right head) has no member in it. */
  lemma GroupsRightFirst(left: seq<Path>, right: seq<Path>, key: real)
    requires left != [] && right != [] && left[0].score > right[0].score
    requires right[0].score == key ==> WithScore(left, key) == []
    requires WithScore(Merged(left, right[1..]), key) == WithScore(left, key) + WithScore(right[1..], key)
    ensures WithScore(Merged(left, right), key) == WithScore(left, key) + WithScore(right, key)
  {
    var t := Merged(left, right[1..]);
    MergedHead(left, right);
    WithScoreCons(right[0], t, key);
    WithScoreHead(right, key);
    Swap(Keep(right[0], key), WithScore(left, key), WithScore(right[1..], key));
  }

  /** When one of `a` and `b` is empty, they commute in front of `c`. */
  lemma Swap(a: seq<Path>, b: seq<Path>, c: seq<Path>)
    requires a == [] || b == []
    ensures a + (b + c) == b + (a + c)
  {
    if a == [] {
      assert a + (b + c) == b + c;
      assert a + c == c;
    } else {
      assert b + c == c;
      assert b + (a + c) == a + c;
    }
  }

  lemma AppendAssoc(a: seq<Path>, b: seq<Path>, c: seq<Path>)
    ensures a + (b + c) == (a + b) + c
  {
  }

  lemma SortedAbove(s: seq<Path>, key: real)
    requires Sorted(s) && s != [] && s[0].score > key
    ensures WithScore(s, key) == []
  {
    assert forall i :: 0 <= i < |s| ==> s[i].score > key;
    NoneWithScore(s, key);
  }

  lemma {:induction false} NoneWithScore(s: seq<Path>, key: real)
    requires forall i :: 0 <= i < |s| ==> s[i].score > key
    ensures WithScore(s, key) == []
  {
    if s != [] {
      NoneWithScore(s[1..], key);
    }
  }

  lemma MultisetSplit(s: seq<Path>, mid: nat)
    requires mid <= |s|
    ensures multiset(s) == multiset(s[..mid]) + multiset(s[mid..])
  {
    assert s == s[..mid] + s[mid..];
  }

  lemma WithScoreSplit(s: seq<Path>, mid: nat, key: real)
    requires mid <= |s|
    ensures WithScore(s, key) == WithScore(s[..mid], key) + WithScore(s[mid..], key)
  {
    assert s == s[..mid] + s[mid..];
    WithScoreAppend(s[..mid], s[mid..], key);
  }

  /** The reference sort is correct: sorted, a permutation of its input, and
      stable. */
  lemma {:induction false} MergeSortCorrect(s: seq<Path>)
    ensures Sorted(MergeSort(s))
    ensures multiset(MergeSort(s)) == multiset(s)
    ensures SameGroups(MergeSort(s), s)
    decreases |s|
  {
    if |s| > 1 {
      var mid := |s| / 2;
      var l, r := MergeSort(s[..mid]), MergeSort(s[mid..]);
      MergeSortCorrect(s[..mid]);
      MergeSortCorrect(s[mid..]);
      MergedSorted(l, r);
      MergedPermutes(l, r);
      MultisetSplit(s, mid);
      forall key ensures WithScore(MergeSort(s), key) == WithScore(s, key) {
        MergedGroups(l, r, key);
        WithScoreSplit(s, mid, key);
      }
    }
  }

  /** A sorted sequence is determined by its groups of equal-score paths: any
      two sorted arrangements that keep every group in the same order are
      equal. So every stable sort agrees with MergeSort. */
  lemma {:induction false} SortedGroupsUnique(a: seq<Path>, b: seq<Path>)
    requires Sorted(a) && Sorted(b) && SameGroups(a, b)
    ensures a == b
    decreases |a|
  {
    if a != [] && b != [] {
      var m := a[0].score;
      HeadScores(a, b);
      assert WithScore(a, m) == [a[0]] + WithScore(a[1..], m);
      assert WithScore(b, m) == [b[0]] + WithScore(b[1..], m);
      assert a[0] == b[0] by {
        assert WithScore(a, m) == WithScore(b, m);
        assert WithScore(a, m)[0] == a[0];
        assert WithScore(b, m)[0] == b[0];
      }
      forall key ensures WithScore(a[1..], key) == WithScore(b[1..], key) {
        var head := if a[0].score == key then [a[0]] else [];
        assert WithScore(a, key) == head + WithScore(a[1..], key);
        assert WithScore(b, key) == head + WithScore(b[1..], key);
        assert WithScore(a, key) == WithScore(b, key);
        assert WithScore(a[1..], key) == (head + WithScore(a[1..], key))[|head|..];
        assert WithScore(b[1..], key) == (head + WithScore(b[1..], key))[|head|..];
      }
      SortedGroupsUnique(a[1..], b[1..]);
      assert a == [a[0]] + a[1..] && b == [b[0]] + b[1..];
    } else if a != [] {
      GroupOfHead(a);
      assert false;
    } else if b != [] {
      GroupOfHead(b);
      assert false;
    }
  }

  lemma GroupOfHead(s: seq<Path>)
    requires s != []
    ensures WithScore(s, s[0].score) != []
  {
  }

  lemma HeadScores(a: seq<Path>, b: seq<Path>)
    requires Sorted(a) && Sorted(b) && SameGroups(a, b) && a != [] && b != []
    ensures a[0].score == b[0].score
  {
    assert WithScore(a, a[0].score) == [a[0]] + WithScore(a[1..], a[0].score);
    assert a[0] in WithScore(b, a[0].score);
    WithScoreMember(b, a[0].score, a[0]);
    assert WithScore(b, b[0].score) == [b[0]] + WithScore(b[1..], b[0].score);
    assert b[0] in WithScore(a, b[0].score);
    WithScoreMember(a, b[0].score, b[0]);
    SortedHeadIsBest(a, b[0]);
    SortedHeadIsBest(b, a[0]);
  }

  /** Ranking twice is ranking once, and an already ranked population (or
      one of length at most one) comes back unchanged. */
  lemma MergeSortIdempotent(s: seq<Path>)
    ensures Sorted(s) ==> MergeSort(s) == s
    ensures MergeSort(MergeSort(s)) == MergeSort(s)
  {
    MergeSortCorrect(s);
    MergeSortCorrect(MergeSort(s));
    if Sorted(s) {
      SortedGroupsUnique(MergeSort(s), s);
    }
    SortedGroupsUnique(MergeSort(MergeSort(s)), MergeSort(s));
  }

  /** The first path of a sorted sequence scores no higher than any path in
      it. */
  lemma SortedHeadIsBest(s: seq<Path>, p: Path)
    requires Sorted(s) && p in s
    ensures s[0].score <= p.score
  {
    var i :| 0 <= i < |s| && s[i] == p;
  }

  /** One step of the merge loop taking the left head: it is the next path
      of the merged run, and the merged run goes on with the merge of what
      is left. */
  lemma MergedTakeLeft(left: seq<Path>, right: seq<Path>, l: nat, r: nat)
    requires l < |left| && r < |right| && left[l].score <= right[r].score
    requires l + r <= |Merged(left, right)|
    requires Merged(left, right)[l + r..] == Merged(left[l..], right[r..])
    ensures l + r < |Merged(left, right)|
    ensures Merged(left, right)[l + r] == left[l]
    ensures Merged(left, right)[l + r + 1..] == Merged(left[l + 1..], right[r..])
  {
    var m := Merged(left, right);
    MergedHead(left[l..], right[r..]);
    assert left[l..][1..] == left[l + 1..];
    assert m[l + r + 1..] == m[l + r..][1..];
  }

  /** One step of the merge loop taking the right head. */
  lemma MergedTakeRight(left: seq<Path>, right: seq<Path>, l: nat, r: nat)
    requires l < |left| && r < |right| && left[l].score > right[r].score
    requires l + r <= |Merged(left, right)|
    requires Merged(left, right)[l + r..] == Merged(left[l..], right[r..])
    ensures l + r < |Merged(left, right)|
    ensures Merged(left, right)[l + r] == right[r]
    ensures Merged(left, right)[l + r + 1..] == Merged(left[l..], right[r + 1..])
  {
    var m := Merged(left, right);
    MergedHead(left[l..], right[r..]);
    assert right[r..][1..] == right[r + 1..];
    assert m[l + r + 1..] == m[l + r..][1..];
  }

  /** Once one run is used up, the merged run ends with the rest of the other
      run. */
  lemma MergedTail(left: seq<Path>, right: seq<Path>, l: nat, r: nat)
    requires l <= |left| && r <= |right| && (l == |left| || r == |right|)
    requires l + r <= |Merged(left, right)|
    requires Merged(left, right)[l + r..] == Merged(left[l..], right[r..])
    ensures |Merged(left, right)| == |left| + |right|
    ensures forall i :: l + r <= i < |left| + |right| ==>
      Merged(left, right)[i] == if l == |left| then right[i - l] else left[i - r]
  {
    var m := Merged(left, right);
    MergedLength(left, right);
    if l == |left| {
      assert left[l..] == [];
      forall i | l + r <= i < |left| + |right| ensures m[i] == right[i - l] {
        assert m[i] == m[l + r..][i - l - r];
      }
    } else {
      assert right[r..] == [];
      forall i | l + r <= i < |left| + |right| ensures m[i] == left[i - r] {
        assert m[i] == m[l + r..][i - l - r];
      }
    }
  }

  /** One of the two tail loops of `merge`,
      `for position in range(position, len(run)): population[position + other] = run[position]`:
      copies the rest of `run` into `population`, `other` slots further on.
      Like Python's `for`, it leaves the loop variable at the last index it
      took, so `last` is |run| - 1 when the loop ran and `position` when it
      did not. */
  method Drain(run: seq<Path>, position: nat, other: nat, population: array<Path>) returns (last: nat)
    requires position <= |run| && other + |run| <= population.Length
    modifies population
    ensures last == if position < |run| then |run| - 1 else position
    ensures forall j :: position + other <= j < |run| + other ==> population[j] == run[j - other]
    ensures forall j :: 0 <= j < population.Length && !(position + other <= j < |run| + other) ==>
      population[j] == old(population[j])
  {
    last := position;
    var k := position;
    while k < |run|
      invariant position <= k <= |run|
      invariant last == if k == position then position else k - 1
      invariant forall j :: position + other <= j < k + other ==> population[j] == run[j - other]
      invariant forall j :: 0 <= j < population.Length && !(position + other <= j < k + other) ==>
        population[j] == old(population[j])
    {
      last := k;
      population[last + other] := run[last];
      k := k + 1;
    }
  }

  /** The main loop of `merge`: while both runs have paths left, writes the
      smaller head (the left one on a tie) to the next slot. Ends with one
      run used up, the slots before `leftPosition + rightPosition` holding
      the start of the merged run and the rest of the merged run being the
      merge of what is left of the two runs. */
  method Interleave(left: seq<Path>, right: seq<Path>, population: array<Path>)
    returns (leftPosition: nat, rightPosition: nat)
    requires population.Length == |left| + |right|
    modifies population
    ensures leftPosition <= |left| && rightPosition <= |right|
    ensures leftPosition == |left| || rightPosition == |right|
    ensures |Merged(left, right)| == |left| + |right|
    ensures forall j :: 0 <= j < leftPosition + rightPosition ==> population[j] == Merged(left, right)[j]
    ensures Merged(left, right)[leftPosition + rightPosition..] == Merged(left[leftPosition..], right[rightPosition..])
  {
    ghost var target := Merged(left, right);
    MergedLength(left, right);
    leftPosition, rightPosition := 0, 0;
    while leftPosition < |left| && rightPosition < |right|
      invariant leftPosition <= |left| && rightPosition <= |right|
      invariant forall j :: 0 <= j < leftPosition + rightPosition ==> population[j] == target[j]
      invariant target[leftPosition + rightPosition..] == Merged(left[leftPosition..], right[rightPosition..])
    {
      if left[leftPosition].score <= right[rightPosition].score {
        MergedTakeLeft(left, right, leftPosition, rightPosition);
        population[leftPosition + rightPosition] := left[leftPosition];
        leftPosition := leftPosition + 1;
      } else {
        MergedTakeRight(left, right, leftPosition, rightPosition);
        population[leftPosition + rightPosition] := right[rightPosition];
        rightPosition := rightPosition + 1;
      }
    }
  }

  /** `merge`: merges the sorted runs `left` and `right` into `population`,
      a scratch list of the same total length, overwriting it index by index:
      the main loop (Interleave), then the two tail loops (Drain). The tail
      loops reuse the position variables the way Python's `for` does: after
      the left tail has run, `leftPosition` is |left| - 1, not |left|, and the
      right tail indexes with it. That is harmless because the main loop only
      ends when one run is used up, so at most one tail loop does any work. */
  method Merge(left: seq<Path>, right: seq<Path>, population: array<Path>)
    requires population.Length == |left| + |right|
    modifies population
    ensures population[..] == Merged(left, right)
  {
    ghost var target := Merged(left, right);
    var leftPosition, rightPosition := Interleave(left, right, population);
    ghost var leftStart, rightStart := leftPosition, rightPosition;
    MergedTail(left, right, leftStart, rightStart);
    leftPosition := Drain(left, leftPosition, rightPosition, population);
    assert forall j :: 0 <= j < |left| + rightStart ==> population[j] == target[j];
    // When the right tail still has work, the left tail did nothing and
    // leftPosition is still |left|.
    assert rightStart < |right| ==> leftPosition == |left|;
    label Tail:
    rightPosition := Drain(right, rightPosition, leftPosition, population);
    forall j | 0 <= j < |target| ensures population[j] == target[j] {
      if j < |left| + rightStart {
        assert population[j] == old@Tail(population[j]);
      } else {
        assert leftStart == |left| && population[j] == right[j - |left|];
      }
    }
    assert population[..] == target;
  }

  /** `sort`: ranks `population` by ascending score. A population of length
      at most one is returned as it is; otherwise both halves are ranked and
      merged into a copy of the population. */
  method Sort(population: seq<Path>) returns (ranked: seq<Path>)
    ensures ranked == MergeSort(population)
    ensures |population| <= 1 ==> ranked == population
    ensures Sorted(ranked)
    ensures multiset(ranked) == multiset(population)
    ensures SameGroups(ranked, population)
    decreases |population|
  {
    MergeSortCorrect(population);
    if |population| <= 1 {
      return population;
    }
    var mid := |population| / 2;
    var left := Sort(population[..mid]);
    var right := Sort(population[mid..]);
    var copy := new Path[|population|](i requires 0 <= i < |population| => population[i]);
    assert |left| == |multiset(left)| == mid;
    assert |right| == |multiset(right)| == |population| - mid;
    Merge(left, right, copy);
    ranked := copy[..];
  }
}
