/** Leftmost scans over text, and the one fact both text formats rest on: a closing delimiter
    that cannot overlap itself, found by a leftmost scan, ends exactly the printed field. */
module Scan {

  ghost predicate OccursAt(s: string, pat: string, i: int) {
    0 <= i && i + |pat| <= |s| && s[i..i + |pat|] == pat
  }

  ghost predicate Free(s: string, pat: string) {
    forall i :: !OccursAt(s, pat, i)
  }

  /** Leftmost occurrence of the pattern at or after `from`, or -1. */
  function Find(s: string, pat: string, from: nat): (r: int)
    ensures r == -1 || (from <= r && OccursAt(s, pat, r))
    ensures forall i | from <= i && (r == -1 || i < r) :: !OccursAt(s, pat, i)
    decreases |s| - from
  {
    if from + |pat| > |s| then -1
    else if s[from..from + |pat|] == pat then from
    else Find(s, pat, from + 1)
  }

  /** An occurrence in a slice is one in the whole. */
  lemma InSlice(s: string, from: nat, to: nat, pat: string, i: int)
    requires from <= to <= |s| && OccursAt(s[from..to], pat, i)
    ensures OccursAt(s, pat, from + i) && from + i + |pat| <= to
  {
    forall k | 0 <= k < |pat|
      ensures s[from + i..from + i + |pat|][k] == pat[k]
    {
      assert s[from..to][i..i + |pat|][k] == s[from..to][i + k];
    }
  }

  /** No proper suffix of the pattern is also a prefix of it. */
  ghost predicate BorderFree(pat: string) {
    forall k | 0 < k < |pat| :: pat[k..] != pat[..|pat| - k]
  }

  /** The head of the pattern does not come back later in it. */
  ghost predicate SoleHead(pat: string) {
    pat != [] && forall k | 0 < k < |pat| :: pat[k] != pat[0]
  }

  lemma SoleHeadIsBorderFree(pat: string)
    requires SoleHead(pat)
    ensures BorderFree(pat)
  {
    forall k | 0 < k < |pat|
      ensures pat[k..] != pat[..|pat| - k]
    {
      assert pat[k..][0] == pat[k] && pat[..|pat| - k][0] == pat[0];
    }
  }

  /** The closing delimiter is found right after the field it closes. */
  lemma FieldEnds(pre: string, field: string, pat: string, post: string)
    requires BorderFree(pat) && pat != [] && Free(field, pat)
    ensures Find(pre + field + pat + post, pat, |pre|) == |pre| + |field|
  {
    var s := pre + field + pat + post;
    var at := |pre| + |field|;
    assert s[at..at + |pat|] == pat;
    assert OccursAt(s, pat, at);
    forall i | |pre| <= i < at
      ensures !OccursAt(s, pat, i)
    {
      var inside := i - |pre|;
      if inside + |pat| <= |field| {
        assert s[i..i + |pat|] == field[inside..inside + |pat|];
        assert !OccursAt(field, pat, inside);
      } else if i + |pat| <= |s| {
        var k := at - i;
        assert s[i..i + |pat|][k..] == s[at..at + |pat|][..|pat| - k];
        assert pat[k..] != pat[..|pat| - k];
      }
    }
  }

  /** Text in which no occurrence can begin before the rest. */
  lemma FreeBefore(piece: string, rest: string, pat: string)
    requires Free(rest, pat) && pat != []
    requires forall k | 0 < k < |piece| :: piece[k] != pat[0]
    requires !(pat <= piece + rest)
    ensures Free(piece + rest, pat)
  {
    var s := piece + rest;
    forall i
      ensures !OccursAt(s, pat, i)
    {
      if 0 <= i && i + |pat| <= |s| {
        if i == 0 {
          assert s[..|pat|] != pat;
        } else if i < |piece| {
          assert s[i..i + |pat|][0] == piece[i];
        } else {
          assert s[i..i + |pat|] == rest[i - |piece|..i - |piece| + |pat|];
          assert !OccursAt(rest, pat, i - |piece|);
        }
      }
    }
  }

  /** Free text followed by text that begins with the head of the pattern stays free. */
  lemma FreeAcross(value: string, rest: string, pat: string)
    requires Free(value, pat) && Free(rest, pat) && SoleHead(pat)
    requires rest != [] && rest[0] == pat[0]
    ensures Free(value + rest, pat)
  {
    var s := value + rest;
    forall i
      ensures !OccursAt(s, pat, i)
    {
      if 0 <= i && i + |pat| <= |s| {
        if i + |pat| <= |value| {
          assert s[i..i + |pat|] == value[i..i + |pat|];
          assert !OccursAt(value, pat, i);
        } else if i < |value| {
          assert s[i..i + |pat|][|value| - i] == pat[0];
        } else {
          assert s[i..i + |pat|] == rest[i - |value|..i - |value| + |pat|];
          assert !OccursAt(rest, pat, i - |value|);
        }
      }
    }
  }

  /** The tail of the pattern does not come before in it. */
  ghost predicate SoleTail(pat: string) {
    pat != [] && forall k | 0 <= k < |pat| - 1 :: pat[k] != pat[|pat| - 1]
  }

  /** Free text that ends with the tail of the pattern keeps occurrences from reaching across. */
  lemma FreeAfter(piece: string, rest: string, pat: string)
    requires Free(piece, pat) && Free(rest, pat) && SoleTail(pat)
    requires piece != [] && piece[|piece| - 1] == pat[|pat| - 1]
    ensures Free(piece + rest, pat)
  {
    var s := piece + rest;
    forall i
      ensures !OccursAt(s, pat, i)
    {
      if 0 <= i && i + |pat| <= |s| {
        if i + |pat| <= |piece| {
          assert s[i..i + |pat|] == piece[i..i + |pat|];
          assert !OccursAt(piece, pat, i);
        } else if i < |piece| {
          assert s[i..i + |pat|][|piece| - 1 - i] == piece[|piece| - 1];
        } else {
          assert s[i..i + |pat|] == rest[i - |piece|..i - |piece| + |pat|];
          assert !OccursAt(rest, pat, i - |piece|);
        }
      }
    }
  }

  // ---- scans for all matches ------------------------------------------------------------

  /** The matches `re.findall` takes, where `hit(i, e)` says that one begins at i and ends before
      e: the first that begins at or after `from`, then those from its end on. */
  ghost predicate Leftmost(hits: seq<(int, int)>, hit: (int, int) -> bool, from: int) {
    if hits == [] then forall i, e | from <= i :: !hit(i, e)
    else
      var (i0, e0) := hits[0];
      && from <= i0 < e0 && hit(i0, e0)
      && (forall i, e | from <= i < i0 :: !hit(i, e))
      && Leftmost(hits[1..], hit, e0)
  }

  lemma LeftmostSkip(hits: seq<(int, int)>, hit: (int, int) -> bool, from: int)
    requires Leftmost(hits, hit, from + 1) && forall e :: !hit(from, e)
    ensures Leftmost(hits, hit, from)
  {
  }

  lemma LeftmostTake(hits: seq<(int, int)>, hit: (int, int) -> bool, from: int, end: int)
    requires Leftmost(hits, hit, end) && from < end && hit(from, end)
    ensures Leftmost([(from, end)] + hits, hit, from)
  {
    var all := [(from, end)] + hits;
    assert all[1..] == hits;
  }

  lemma RestSlice(s: string, p: nat, a: nat, b: nat)
    requires p <= |s| && a <= b <= |s| - p
    ensures s[p..][a..b] == s[p + a..p + b] && s[p..][b..] == s[p + b..]
  {
  }

  lemma Front(t: string, pat: string)
    ensures OccursAt(t, pat, 0) <==> pat <= t
  {
  }

  lemma Occurring(s: string, pat: string, i: int)
    requires OccursAt(s, pat, i)
    ensures 0 <= i && i + |pat| <= |s| && s[i..i + |pat|] == pat
  {
  }

  /** An occurrence in the rest of a text is one in the text. */
  lemma InRest(s: string, p: nat, pat: string, i: int)
    requires p <= |s| && 0 <= i
    ensures OccursAt(s[p..], pat, i) <==> OccursAt(s, pat, p + i)
  {
    if p + i + |pat| <= |s| {
      assert s[p..][i..i + |pat|] == s[p + i..p + i + |pat|];
    }
  }

  lemma FindInRest(s: string, p: nat, pat: string, from: nat)
    requires p <= |s|
    ensures var r := Find(s[p..], pat, from);
            && (r == -1 ==> forall j | p + from <= j :: !OccursAt(s, pat, j))
            && (r != -1 ==> from <= r && OccursAt(s, pat, p + r) && forall j | p + from <= j < p + r :: !OccursAt(s, pat, j))
  {
    hide OccursAt, Find;
    forall j | p <= j
      ensures OccursAt(s[p..], pat, j - p) <==> OccursAt(s, pat, j)
    {
      InRest(s, p, pat, j - p);
    }
    var r := Find(s[p..], pat, from);
    assert forall i | from <= i && (r == -1 || i < r) :: !OccursAt(s[p..], pat, i);
    forall j | p + from <= j && (r == -1 || j < p + r)
      ensures !OccursAt(s, pat, j)
    {
      assert !OccursAt(s[p..], pat, j - p);
    }
  }

  /** How many characters at the front differ from c. */
  function RunTo(s: string, c: char): (n: nat)
    ensures n <= |s| && (forall i | 0 <= i < n :: s[i] != c) && (n < |s| ==> s[n] == c)
  {
    if s == [] || s[0] == c then 0 else 1 + RunTo(s[1..], c)
  }

  lemma RunToEnds(field: string, c: char, rest: string)
    requires forall i | 0 <= i < |field| :: field[i] != c
    requires rest != [] && rest[0] == c
    ensures RunTo(field + rest, c) == |field|
  {
    var s := field + rest;
    var n := RunTo(s, c);
    assert s[|field|] == c;
    assert forall i | 0 <= i < |field| :: s[i] == field[i];
  }

  function Join(parts: seq<string>, separator: string): string {
    if parts == [] then ""
    else if |parts| == 1 then parts[0]
    else parts[0] + (separator + Join(parts[1..], separator))
  }
}
