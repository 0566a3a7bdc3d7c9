/** Positions of latent markers whose text the tokenizer splits into several sub-tokens. */
module LatentExpansion {

  ghost predicate Ascending(s: seq<int>) {
    forall i, j | 0 <= i < j < |s| :: s[i] < s[j]
  }

  /** A marker sub-token that is not a stop. */
  predicate Free(ids: seq<int>, markers: set<int>, stops: set<int>, p: int) {
    0 <= p < |ids| && ids[p] in markers && p !in stops
  }

  /** Every position after k up to and including p, in the direction of p, is free. */
  ghost predicate Linked(ids: seq<int>, markers: set<int>, stops: set<int>, k: int, p: int) {
    && (forall q | p <= q < k :: Free(ids, markers, stops, q))
    && (forall q | k < q <= p :: Free(ids, markers, stops, q))
  }

  /** The position hangs together with one of the keywords. */
  ghost predicate Covered(ids: seq<int>, markers: set<int>, stops: set<int>, keywords: seq<int>, p: int) {
    exists i | 0 <= i < |keywords| :: Linked(ids, markers, stops, keywords[i], p)
  }

  /** What is linked to a position that is itself linked to k, further out, is linked to k too. */
  lemma LinkedFurther(ids: seq<int>, markers: set<int>, stops: set<int>, k: int, q: int, p: int)
    requires Linked(ids, markers, stops, k, q)
    requires Free(ids, markers, stops, q)
    requires Linked(ids, markers, stops, q, p)
    ensures Linked(ids, markers, stops, k, p)
  {
  }

  /** The positions left of `start` reached from k were already reached from an earlier keyword. */
  lemma Absorbed(ids: seq<int>, markers: set<int>, stops: set<int>, earlier: seq<int>, k: int, edge: int, p: int)
    requires Linked(ids, markers, stops, k, p)
    requires p <= edge < k || k < edge <= p
    requires Covered(ids, markers, stops, earlier, edge)
    ensures Covered(ids, markers, stops, earlier, p)
  {
    var i :| 0 <= i < |earlier| && Linked(ids, markers, stops, earlier[i], edge);
    LinkedFurther(ids, markers, stops, earlier[i], edge, p);
  }

  lemma CoveredSnoc(ids: seq<int>, markers: set<int>, stops: set<int>, keywords: seq<int>, n: int, p: int)
    requires 0 <= n < |keywords|
    ensures Covered(ids, markers, stops, keywords[..n + 1], p) <==>
            Covered(ids, markers, stops, keywords[..n], p) || Linked(ids, markers, stops, keywords[n], p)
  {
    var some := keywords[..n + 1];
    assert some[n] == keywords[n];
    if Covered(ids, markers, stops, keywords[..n], p) {
      var i :| 0 <= i < n && Linked(ids, markers, stops, keywords[..n][i], p);
      assert some[i] == keywords[..n][i];
    }
    if Covered(ids, markers, stops, some, p) {
      var i :| 0 <= i <= n && Linked(ids, markers, stops, some[i], p);
      assert i < n ==> keywords[..n][i] == some[i];
    }
  }

  /** [start, end] is k with the free positions around it, up to used or blocked ones. */
  ghost predicate Around(ids: seq<int>, markers: set<int>, stops: set<int>, used: set<int>, k: int, start: int, end: int) {
    && start <= k <= end
    && (forall q | start <= q < k || k < q <= end :: Free(ids, markers, stops, q) && q !in used)
    && (Free(ids, markers, stops, start - 1) ==> start - 1 in used)
    && (Free(ids, markers, stops, end + 1) ==> end + 1 in used)
  }

  method ExpandAround(ids: seq<int>, markers: set<int>, stops: set<int>, used: set<int>, k: int)
    returns (start: int, end: int)
    requires 0 <= k < |ids|
    ensures Around(ids, markers, stops, used, k, start, end)
  {
    start := k;
    while start > 0 && start - 1 !in stops && ids[start - 1] in markers && start - 1 !in used
      invariant 0 <= start <= k
      invariant forall q | start <= q < k :: Free(ids, markers, stops, q) && q !in used
    {
      start := start - 1;
    }
    end := k;
    while end < |ids| - 1 && end + 1 !in stops && ids[end + 1] in markers && end + 1 !in used
      invariant k <= end < |ids|
      invariant forall q | k < q <= end :: Free(ids, markers, stops, q) && q !in used
    {
      end := end + 1;
    }
  }

  ghost predicate CoversFirst(ids: seq<int>, markers: set<int>, stops: set<int>, keywords: seq<int>, n: int, used: set<int>)
    requires 0 <= n <= |keywords|
  {
    forall p :: p in used <==> Covered(ids, markers, stops, keywords[..n], p)
  }

  /** Whatever is used right of the last of the first n keywords hangs together with it. */
  ghost predicate LastReaches(ids: seq<int>, markers: set<int>, stops: set<int>, keywords: seq<int>, n: int, used: set<int>)
    requires 0 <= n <= |keywords|
  {
    0 < n ==> forall p | p in used && keywords[n - 1] <= p :: Linked(ids, markers, stops, keywords[n - 1], p)
  }

  /** The used set after the block [start, end] has been added. */
  ghost predicate Adds(used: set<int>, start: int, end: int, used': set<int>) {
    forall q :: q in used' <==> q in used || start <= q <= end
  }

  lemma ExpandStep(ids: seq<int>, markers: set<int>, stops: set<int>, keywords: seq<int>, n: int, used: set<int>,
                   start: int, end: int, used': set<int>)
    requires Adds(used, start, end, used')
    requires 0 <= n < |keywords|
    requires CoversFirst(ids, markers, stops, keywords, n, used)
    requires Around(ids, markers, stops, used, keywords[n], start, end)
    ensures CoversFirst(ids, markers, stops, keywords, n + 1, used')
  {
    var k := keywords[n];
    forall p
      ensures Covered(ids, markers, stops, keywords[..n + 1], p) <==> p in used || start <= p <= end
    {
      CoveredSnoc(ids, markers, stops, keywords, n, p);
      if Linked(ids, markers, stops, k, p) {
        if p < start {
          Absorbed(ids, markers, stops, keywords[..n], k, start - 1, p);
        } else if end < p {
          Absorbed(ids, markers, stops, keywords[..n], k, end + 1, p);
        }
      }
    }
  }

  /** With ascending keywords, what a keyword adds lies right of everything used before. */
  lemma ExpandAscends(ids: seq<int>, markers: set<int>, stops: set<int>, keywords: seq<int>, n: int, used: set<int>,
                      start: int, end: int, used': set<int>)
    requires Adds(used, start, end, used')
    requires 0 <= n < |keywords| && Ascending(keywords)
    requires CoversFirst(ids, markers, stops, keywords, n, used) && LastReaches(ids, markers, stops, keywords, n, used)
    requires Around(ids, markers, stops, used, keywords[n], start, end)
    ensures forall p, u | start <= p <= end && p !in used && u in used :: u < p
    ensures LastReaches(ids, markers, stops, keywords, n + 1, used')
  {
    if 0 < n {
      var last, k := keywords[n - 1], keywords[n];
      assert Linked(ids, markers, stops, keywords[..n][n - 1], last);
      assert last in used && last < start;
      forall p, u | start <= p <= end && u in used && p <= u
        ensures p in used
      {
        assert Linked(ids, markers, stops, last, u);
        assert Linked(ids, markers, stops, keywords[..n][n - 1], p);
      }
    }
  }

  /** The positions found so far, and the same as a set. */
  ghost predicate Lists(positions: seq<int>, used: set<int>) {
    && (forall p :: p in positions <==> p in used)
    && forall a, b | 0 <= a < b < |positions| :: positions[a] != positions[b]
  }

  /** Appends what is new in the block [start, end]. */
  method AppendNew(before: seq<int>, usedBefore: set<int>, start: int, end: int) returns (positions: seq<int>, used: set<int>)
    requires start <= end && Lists(before, usedBefore)
    ensures Lists(positions, used) && used == usedBefore + IntervalOf(start, end)
    ensures Ascending(before) && (forall p, u | start <= p <= end && p !in usedBefore && u in usedBefore :: u < p) ==>
              Ascending(positions)
  {
    positions, used := before, usedBefore;
    for p := start to end + 1
      invariant forall q :: q in used <==> q in usedBefore || start <= q < p
      invariant Lists(positions, used)
      invariant Ascending(before) && (forall q, u | start <= q <= end && q !in usedBefore && u in usedBefore :: u < q) ==>
                  Ascending(positions)
    {
      if p !in used {
        assert p !in usedBefore;
        assert forall a | 0 <= a < |positions| :: positions[a] in positions;
        positions := positions + [p];
        used := used + {p};
      }
    }
    assert used == usedBefore + IntervalOf(start, end);
  }

  /** After the first n keywords: what they cover has been listed, in order if they are. */
  ghost predicate Expanded(ids: seq<int>, markers: set<int>, stops: set<int>, keywords: seq<int>, n: int,
                           positions: seq<int>, used: set<int>)
    requires 0 <= n <= |keywords|
  {
    && Lists(positions, used)
    && CoversFirst(ids, markers, stops, keywords, n, used)
    && (Ascending(keywords) ==> LastReaches(ids, markers, stops, keywords, n, used) && Ascending(positions))
  }

  lemma ExpandedNext(ids: seq<int>, markers: set<int>, stops: set<int>, keywords: seq<int>, n: int,
                     positions: seq<int>, used: set<int>, start: int, end: int)
    requires 0 <= n < |keywords| && Expanded(ids, markers, stops, keywords, n, positions, used)
    requires Around(ids, markers, stops, used, keywords[n], start, end)
    ensures start <= end
    ensures Ascending(keywords) ==>
              Ascending(positions) && forall p, u | start <= p <= end && p !in used && u in used :: u < p
    ensures forall positions', used' | Lists(positions', used') && used' == used + IntervalOf(start, end)
                                       && (Ascending(keywords) ==> Ascending(positions')) ::
              Expanded(ids, markers, stops, keywords, n + 1, positions', used')
  {
    hide Covered, Linked, Free, CoversFirst, LastReaches, Lists;
    var used' := used + IntervalOf(start, end);
    ExpandStep(ids, markers, stops, keywords, n, used, start, end, used');
    if Ascending(keywords) {
      ExpandAscends(ids, markers, stops, keywords, n, used, start, end, used');
    }
  }

  function SetOf(s: seq<int>): set<int> {
    set p | p in s
  }

  /** Every position from k to p is a marker sub-token, and none of them is in stopBefore. */
  ghost predicate Reaches(ids: seq<int>, markers: set<int>, stopBefore: seq<int>, k: int, p: int) {
    forall q | p <= q < k || k < q <= p :: 0 <= q < |ids| && ids[q] in markers && q !in stopBefore
  }

  /** What is covered is what some keyword reaches. */
  lemma CoveredIs(ids: seq<int>, markers: set<int>, stopBefore: seq<int>, keywords: seq<int>, p: int)
    ensures Covered(ids, markers, SetOf(stopBefore), keywords, p) <==>
            exists k | k in keywords :: Reaches(ids, markers, stopBefore, k, p)
  {
    var stops := SetOf(stopBefore);
    hide Linked, Reaches;
    if Covered(ids, markers, stops, keywords, p) {
      var i :| 0 <= i < |keywords| && Linked(ids, markers, stops, keywords[i], p);
      LinkedIs(ids, markers, stopBefore, keywords[i], p);
      assert keywords[i] in keywords;
    }
    if k :| k in keywords && Reaches(ids, markers, stopBefore, k, p) {
      var i :| 0 <= i < |keywords| && keywords[i] == k;
      LinkedIs(ids, markers, stopBefore, keywords[i], p);
    }
  }

  lemma LinkedIs(ids: seq<int>, markers: set<int>, stopBefore: seq<int>, k: int, p: int)
    ensures Linked(ids, markers, SetOf(stopBefore), k, p) <==> Reaches(ids, markers, stopBefore, k, p)
  {
    hide Linked, Reaches;
    if Linked(ids, markers, SetOf(stopBefore), k, p) {
      LinkedReaches(ids, markers, stopBefore, k, p);
    }
    if Reaches(ids, markers, stopBefore, k, p) {
      ReachesLinked(ids, markers, stopBefore, k, p);
    }
  }

  lemma LinkedReaches(ids: seq<int>, markers: set<int>, stopBefore: seq<int>, k: int, p: int)
    requires Linked(ids, markers, SetOf(stopBefore), k, p)
    ensures Reaches(ids, markers, stopBefore, k, p)
  {
    forall q | p <= q < k || k < q <= p
      ensures 0 <= q < |ids| && ids[q] in markers && q !in stopBefore
    {
      assert Free(ids, markers, SetOf(stopBefore), q);
    }
  }

  lemma ReachesLinked(ids: seq<int>, markers: set<int>, stopBefore: seq<int>, k: int, p: int)
    requires Reaches(ids, markers, stopBefore, k, p)
    ensures Linked(ids, markers, SetOf(stopBefore), k, p)
  {
    forall q | p <= q < k || k < q <= p
      ensures Free(ids, markers, SetOf(stopBefore), q)
    {
      assert q !in stopBefore;
    }
  }

  /** Expand each keyword position through the contiguous marker tokens around it. */
  method ExpandKeywordPositionsWithStop(ids: seq<int>, keywords: seq<int>, markers: set<int>, stopBefore: seq<int>)
    returns (positions: seq<int>)
    requires forall i | 0 <= i < |keywords| :: 0 <= keywords[i] < |ids|
    ensures forall p :: p in positions <==> Covered(ids, markers, SetOf(stopBefore), keywords, p)
    ensures forall p :: p in positions <==>
              exists k | k in keywords :: Reaches(ids, markers, stopBefore, k, p)
    ensures forall i, j | 0 <= i < j < |positions| :: positions[i] != positions[j]
    ensures Ascending(keywords) ==> Ascending(positions)
  {
    hide Covered, Linked, Free, Around, CoversFirst, LastReaches, Reaches;
    var stops := SetOf(stopBefore);
    var used: set<int> := {};
    positions := [];
    NothingUsed(ids, markers, stops, keywords);
    for i := 0 to |keywords|
      invariant Expanded(ids, markers, stops, keywords, i, positions, used)
    {
      var start, end := ExpandAround(ids, markers, stops, used, keywords[i]);
      ExpandedNext(ids, markers, stops, keywords, i, positions, used, start, end);
      positions, used := AppendNew(positions, used, start, end);
    }
    AllUsed(ids, markers, stops, keywords, used);
    forall p
      ensures p in positions <==>
              exists k | k in keywords :: Reaches(ids, markers, stopBefore, k, p)
    {
      CoveredIs(ids, markers, stopBefore, keywords, p);
    }
  }

  /** The loop of the mode without separate visual tokens, which knows no stops. */
  method ExpandKeywordPositions(ids: seq<int>, keywords: seq<int>, markers: set<int>) returns (positions: seq<int>)
    requires forall i | 0 <= i < |keywords| :: 0 <= keywords[i] < |ids|
    ensures forall p :: p in positions <==> Covered(ids, markers, {}, keywords, p)
    ensures forall p :: p in positions <==>
              exists k | k in keywords :: Reaches(ids, markers, [], k, p)
    ensures forall i, j | 0 <= i < j < |positions| :: positions[i] != positions[j]
    ensures Ascending(keywords) ==> Ascending(positions)
  {
    hide Covered, Linked, CoversFirst, LastReaches, Reaches;
    var used: set<int> := {};
    positions := [];
    NothingUsed(ids, markers, {}, keywords);
    for i := 0 to |keywords|
      invariant Expanded(ids, markers, {}, keywords, i, positions, used)
    {
      var start := keywords[i];
      while start > 0 && ids[start - 1] in markers && start - 1 !in used
        invariant 0 <= start <= keywords[i]
        invariant forall q | start <= q < keywords[i] :: Free(ids, markers, {}, q) && q !in used
      {
        start := start - 1;
      }
      var end := keywords[i];
      while end < |ids| - 1 && ids[end + 1] in markers && end + 1 !in used
        invariant keywords[i] <= end < |ids|
        invariant forall q | keywords[i] < q <= end :: Free(ids, markers, {}, q) && q !in used
      {
        end := end + 1;
      }
      ExpandedNext(ids, markers, {}, keywords, i, positions, used, start, end);
      positions, used := AppendNew(positions, used, start, end);
    }
    AllUsed(ids, markers, {}, keywords, used);
    forall p
      ensures p in positions <==>
              exists k | k in keywords :: Reaches(ids, markers, [], k, p)
    {
      CoveredIs(ids, markers, [], keywords, p);
      assert SetOf([]) == {};
    }
  }

  ghost function IntervalOf(start: int, end: int): (r: set<int>)
    ensures forall q :: q in r <==> start <= q <= end
    decreases end - start
  {
    if end < start then {} else IntervalOf(start, end - 1) + {end}
  }

  lemma NothingUsed(ids: seq<int>, markers: set<int>, stops: set<int>, keywords: seq<int>)
    ensures CoversFirst(ids, markers, stops, keywords, 0, {}) && LastReaches(ids, markers, stops, keywords, 0, {})
  {
  }

  lemma AllUsed(ids: seq<int>, markers: set<int>, stops: set<int>, keywords: seq<int>, used: set<int>)
    requires CoversFirst(ids, markers, stops, keywords, |keywords|, used)
    ensures forall p :: p in used <==> Covered(ids, markers, stops, keywords, p)
  {
    assert keywords[..|keywords|] == keywords;
  }
}
