/** On a sequence containing the generated latent prefix, the positions found split it exactly. */
module LatentPrefix {
  import opened Options
  import opened LatentExpansion
  import opened LatentPositions

  /** The sub-tokens `<`, `>`, `|`, `><`, `latent`, `start`, `end`, `-lat`, `ent` and `-vis`. */
  datatype SubTokens = SubTokens(
    open: int, close: int, pipe: int, joint: int, latent: int, start: int, end: int, negLat: int, ent: int, vis: int)
  {
    predicate Distinct() {
      && open !in {close, pipe, joint, latent, start, end, negLat, ent, vis}
      && close !in {pipe, joint, latent, start, end, negLat, ent, vis}
      && pipe !in {joint, latent, start, end, negLat, ent, vis}
      && joint !in {latent, start, end, negLat, ent, vis}
      && latent !in {start, end, negLat, ent, vis}
      && start !in {end, negLat, ent, vis}
      && end !in {negLat, ent, vis}
      && negLat !in {ent, vis}
      && ent != vis
    }

    function Pattern(): Vocabulary {
      Vocabulary(Some(latent), Some(pipe), Some(vis), Some(start), Some(negLat), Some(ent))
    }

    function Markers(): set<int> {
      {open, close, pipe, joint, latent, start, end, negLat, ent, vis}
    }
  }

  function Repeat(unit: seq<int>, n: nat): (r: seq<int>)
    ensures |r| == n * |unit|
  {
    if n == 0 then [] else unit + Repeat(unit, n - 1)
  }

  /** `<|start-latent-vis|>`, nv times `<|latent-vis|>`, `<|end-latent-vis|>`, `<|start-latent|>`,
      nt times `<|latent|>`, `<|end-latent|>`; the `><` between two markers is one sub-token, also
      before the `<answer>` that follows. */
  function LatentBlock(t: SubTokens, nv: nat, nt: nat): seq<int> {
    [t.open]
    + [t.pipe, t.start, t.negLat, t.ent, t.vis, t.pipe, t.joint]
    + Repeat([t.pipe, t.latent, t.vis, t.pipe, t.joint], nv)
    + [t.pipe, t.end, t.negLat, t.ent, t.vis, t.pipe, t.joint]
    + [t.pipe, t.start, t.negLat, t.ent, t.pipe, t.joint]
    + Repeat([t.pipe, t.latent, t.pipe, t.joint], nt)
    + [t.pipe, t.end, t.negLat, t.ent, t.pipe, t.joint]
  }

  /** Where the text markers begin in the block. */
  function TextPart(nv: nat): nat {
    15 + 5 * nv
  }

  function BlockLength(nv: nat, nt: nat): nat {
    27 + 5 * nv + 4 * nt
  }

  lemma {:induction false} RepeatAt(unit: seq<int>, n: nat, k: nat)
    requires |unit| == 4 || |unit| == 5
    requires k < n * |unit|
    ensures Repeat(unit, n)[k] == unit[k % |unit|]
  {
    if k >= |unit| {
      assert n * |unit| == |unit| + (n - 1) * |unit|;
      RepeatAt(unit, n - 1, k - |unit|);
      if |unit| == 4 {
        assert (k - 4) % 4 == k % 4;
      } else {
        assert (k - 5) % 5 == k % 5;
      }
    }
  }

  /** The block, position by position. */
  function TokenAt(t: SubTokens, nv: nat, nt: nat, i: nat): int
    requires i < BlockLength(nv, nt)
  {
    var e, x, y := 8 + 5 * nv, 21 + 5 * nv, 21 + 5 * nv + 4 * nt;
    if i == 0 then t.open
    else if i < 8 then [t.pipe, t.start, t.negLat, t.ent, t.vis, t.pipe, t.joint][i - 1]
    else if i < e then [t.pipe, t.latent, t.vis, t.pipe, t.joint][(i - 8) % 5]
    else if i < e + 7 then [t.pipe, t.end, t.negLat, t.ent, t.vis, t.pipe, t.joint][i - e]
    else if i < x then [t.pipe, t.start, t.negLat, t.ent, t.pipe, t.joint][i - e - 7]
    else if i < y then [t.pipe, t.latent, t.pipe, t.joint][(i - x) % 4]
    else [t.pipe, t.end, t.negLat, t.ent, t.pipe, t.joint][i - y]
  }

  lemma BlockAt(t: SubTokens, nv: nat, nt: nat, i: nat)
    requires i < BlockLength(nv, nt)
    ensures |LatentBlock(t, nv, nt)| == BlockLength(nv, nt)
    ensures LatentBlock(t, nv, nt)[i] == TokenAt(t, nv, nt, i)
  {
    hide Repeat;
    var e, x, y := 8 + 5 * nv, 21 + 5 * nv, 21 + 5 * nv + 4 * nt;
    var first, second := Repeat([t.pipe, t.latent, t.vis, t.pipe, t.joint], nv), Repeat([t.pipe, t.latent, t.pipe, t.joint], nt);
    if 8 <= i < e {
      RepeatAt([t.pipe, t.latent, t.vis, t.pipe, t.joint], nv, i - 8);
      assert LatentBlock(t, nv, nt)[i] == first[i - 8];
    } else if x <= i < y {
      RepeatAt([t.pipe, t.latent, t.pipe, t.joint], nt, i - x);
      assert LatentBlock(t, nv, nt)[i] == second[i - x];
    }
  }

  /** `<|start-latent|>`, nt times `<|latent|>`, `<|end-latent|>`: the prefix without visual markers. */
  function TextOnlyBlock(t: SubTokens, nt: nat): seq<int> {
    [t.open] + LatentBlock(t, 0, nt)[TextPart(0)..]
  }

  lemma TextOnlyBlockIs(t: SubTokens, nt: nat)
    ensures |LatentBlock(t, 0, nt)| == BlockLength(0, nt)
    ensures TextOnlyBlock(t, nt) ==
            [t.open]
            + [t.pipe, t.start, t.negLat, t.ent, t.pipe, t.joint]
            + Repeat([t.pipe, t.latent, t.pipe, t.joint], nt)
            + [t.pipe, t.end, t.negLat, t.ent, t.pipe, t.joint]
  {
    hide Repeat;
    BlockAt(t, 0, nt, 0);
    assert LatentBlock(t, 0, nt)[15..] ==
           [t.pipe, t.start, t.negLat, t.ent, t.pipe, t.joint]
           + Repeat([t.pipe, t.latent, t.pipe, t.joint], nt)
           + [t.pipe, t.end, t.negLat, t.ent, t.pipe, t.joint] by {
      assert |Repeat([t.pipe, t.latent, t.vis, t.pipe, t.joint], 0)| == 0;
    }
  }

  /** No marker pattern of its own, as far as the program looks for them. */
  ghost predicate NoKeywords(t: SubTokens, ids: seq<int>) {
    forall i | 0 <= i < |ids| ::
      !IsKeyword(ids, t.Pattern(), Some(t.vis), i) && !IsKeyword(ids, t.Pattern(), Some(t.pipe), i)
  }

  ghost predicate NoTextBlockStart(t: SubTokens, ids: seq<int>) {
    forall i | 0 <= i < |ids| :: !IsTextBlockStart(ids, t.Pattern(), i)
  }

  /** A prompt around the block: marker text of its own is excluded, single sub-tokens are not. */
  ghost predicate Prompt(t: SubTokens, pre: seq<int>, post: seq<int>) {
    t.Distinct() && NoKeywords(t, pre) && NoKeywords(t, post) && NoTextBlockStart(t, pre)
  }

  /** The tokens next to the block are no sub-tokens of a marker. */
  predicate Fenced(t: SubTokens, pre: seq<int>, post: seq<int>) {
    && (pre != [] ==> pre[|pre| - 1] !in t.Markers())
    && (post != [] ==> post[0] !in t.Markers())
  }

  /** The block stands at `base`, and no marker pattern reaches outside it. */
  ghost predicate Framed(t: SubTokens, block: seq<int>, ids: seq<int>, base: nat) {
    && base + |block| <= |ids| && ids[base..base + |block|] == block
    && (forall i | 0 <= i < |ids| && !(base <= i < base + |block|) ::
          !IsKeyword(ids, t.Pattern(), Some(t.vis), i) && !IsKeyword(ids, t.Pattern(), Some(t.pipe), i))
    && (forall i | 0 <= i < base :: !IsTextBlockStart(ids, t.Pattern(), i))
  }

  /** Between other prompt tokens no pattern arises across the ends of a block from `<` to `><`. */
  lemma FramedBlock(t: SubTokens, block: seq<int>, pre: seq<int>, post: seq<int>)
    requires Prompt(t, pre, post)
    requires |block| >= 5 && block[0] == t.open && block[|block| - 1] == t.joint
    ensures Framed(t, block, pre + block + post, |pre|)
  {
    var ids := pre + block + post;
    var end := |pre| + |block|;
    forall i | 0 <= i < |pre|
      ensures !IsKeyword(ids, t.Pattern(), Some(t.vis), i) && !IsKeyword(ids, t.Pattern(), Some(t.pipe), i)
      ensures !IsTextBlockStart(ids, t.Pattern(), i)
    {
      assert ids[|pre|] == t.open;
      assert !IsKeyword(pre, t.Pattern(), Some(t.vis), i) && !IsKeyword(pre, t.Pattern(), Some(t.pipe), i);
      assert !IsTextBlockStart(pre, t.Pattern(), i);
    }
    forall i | end <= i < |ids|
      ensures !IsKeyword(ids, t.Pattern(), Some(t.vis), i) && !IsKeyword(ids, t.Pattern(), Some(t.pipe), i)
    {
      assert ids[end - 1] == t.joint;
      assert !IsKeyword(post, t.Pattern(), Some(t.vis), i - end) && !IsKeyword(post, t.Pattern(), Some(t.pipe), i - end);
    }
  }

  // ---- keywords -------------------------------------------------------------------------

  /** Offsets of `latent` in the repeated visual markers, and in the text ones. */
  predicate VisualSpot(nv: nat, j: int) {
    8 <= j < 8 + 5 * nv && (j - 8) % 5 == 1
  }

  predicate TextSpot(nv: nat, nt: nat, j: int) {
    21 + 5 * nv <= j < 21 + 5 * nv + 4 * nt && (j - 21 - 5 * nv) % 4 == 1
  }

  lemma SpotsAre(nv: nat, nt: nat, j: int)
    ensures VisualSpot(nv, j) <==> exists k | 0 <= k < nv :: j == 9 + 5 * k
    ensures TextSpot(nv, nt, j) <==> exists k | 0 <= k < nt :: j == 22 + 5 * nv + 4 * k
  {
    if VisualSpot(nv, j) {
      assert j == 9 + 5 * ((j - 8) / 5);
    }
    if TextSpot(nv, nt, j) {
      assert j == 22 + 5 * nv + 4 * ((j - 21 - 5 * nv) / 4);
    }
  }

  /** `latent` occurs second in each repeated marker and nowhere else. */
  lemma LatentAt(t: SubTokens, nv: nat, nt: nat, i: nat)
    requires t.Distinct() && i < BlockLength(nv, nt)
    ensures TokenAt(t, nv, nt, i) == t.latent <==> VisualSpot(nv, i) || TextSpot(nv, nt, i)
    ensures VisualSpot(nv, i) ==> TokenAt(t, nv, nt, i - 1) == t.pipe && TokenAt(t, nv, nt, i + 1) == t.vis
    ensures TextSpot(nv, nt, i) ==> TokenAt(t, nv, nt, i - 1) == t.pipe && TokenAt(t, nv, nt, i + 1) == t.pipe
  {
  }

  /** The keywords of the block are the repeated markers' `latent`s. */
  lemma KeywordAt(t: SubTokens, nv: nat, nt: nat, ids: seq<int>, base: nat, i: int)
    requires t.Distinct() && Framed(t, LatentBlock(t, nv, nt), ids, base)
    ensures IsKeyword(ids, t.Pattern(), Some(t.vis), i) <==> VisualSpot(nv, i - base)
    ensures IsKeyword(ids, t.Pattern(), Some(t.pipe), i) <==> TextSpot(nv, nt, i - base)
  {
    hide TokenAt, LatentBlock;
    var j := i - base;
    BlockAt(t, nv, nt, 0);
    if 0 <= j < BlockLength(nv, nt) {
      LatentAt(t, nv, nt, j);
      InBlock(t, nv, nt, ids, base, j);
      if VisualSpot(nv, j) || TextSpot(nv, nt, j) {
        InBlock(t, nv, nt, ids, base, j - 1);
        InBlock(t, nv, nt, ids, base, j + 1);
        assert ids[i - 1] == ids[base + (j - 1)] && ids[i + 1] == ids[base + (j + 1)];
      }
    }
  }

  lemma InBlock(t: SubTokens, nv: nat, nt: nat, ids: seq<int>, base: nat, j: nat)
    requires Framed(t, LatentBlock(t, nv, nt), ids, base) && j < BlockLength(nv, nt)
    ensures base + j < |ids| && ids[base + j] == TokenAt(t, nv, nt, j)
  {
    hide LatentBlock, TokenAt;
    BlockAt(t, nv, nt, j);
    assert ids[base..base + |LatentBlock(t, nv, nt)|][j] == ids[base + j];
  }

  lemma {:induction false} SameElements(a: seq<int>, b: seq<int>)
    requires Ascending(a) && Ascending(b)
    requires forall p :: p in a <==> p in b
    ensures a == b
  {
    if a != [] && b != [] {
      var m, n := |a| - 1, |b| - 1;
      assert a[m] in b && b[n] in a;
      assert a[m] == b[n];
      forall p
        ensures p in a[..m] <==> p in b[..n]
      {
        assert p in a[..m] ==> p in a && p != a[m];
        assert p in b[..n] ==> p in b && p != b[n];
      }
      SameElements(a[..m], b[..n]);
    } else {
      if a == [] {
        NoneIn(b);
      } else {
        NoneIn(a);
      }
    }
  }

  lemma SomeIn(s: seq<int>) returns (p: int)
    requires s != []
    ensures p in s
  {
    p := s[0];
  }

  lemma NoneIn(s: seq<int>)
    requires forall p :: p !in s
    ensures s == []
  {
    if s != [] {
      var p := SomeIn(s);
    }
  }

  /** Keyword mode finds one position per repeated marker: nv visual ones and nt text ones. */
  lemma KeywordsFound(t: SubTokens, nv: nat, nt: nat, ids: seq<int>, base: nat)
    requires t.Distinct() && Framed(t, LatentBlock(t, nv, nt), ids, base)
    ensures VisualKeywords(ids, t.Pattern()) == seq(nv, k => base + 9 + 5 * k)
    ensures TextKeywords(ids, t.Pattern()) == seq(nt, k => base + 22 + 5 * nv + 4 * k)
  {
    hide LatentBlock, Framed, IsKeyword, VisualSpot, TextSpot;
    var v := t.Pattern();
    KeywordsBelowAre(ids, v, v.visSuffix, |ids|);
    KeywordsBelowAre(ids, v, v.pipe, |ids|);
    var vis, text := seq(nv, k => base + 9 + 5 * k), seq(nt, k => base + 22 + 5 * nv + 4 * k);
    forall i
      ensures i in VisualKeywords(ids, v) <==> i in vis
      ensures i in TextKeywords(ids, v) <==> i in text
    {
      KeywordAt(t, nv, nt, ids, base, i);
      SpotsAre(nv, nt, i - base);
      KeywordInRange(ids, v, v.visSuffix, i);
      KeywordInRange(ids, v, v.pipe, i);
      if k :| 0 <= k < nv && i == base + 9 + 5 * k {
        assert vis[k] == i;
      }
      if k :| 0 <= k < nt && i == base + 22 + 5 * nv + 4 * k {
        assert text[k] == i;
      }
    }
    SameElements(VisualKeywords(ids, v), vis);
    SameElements(TextKeywords(ids, v), text);
  }

  lemma KeywordInRange(ids: seq<int>, v: Vocabulary, after: Option<int>, i: int)
    ensures IsKeyword(ids, v, after, i) ==> 0 <= i < |ids|
  {
  }

  lemma TextHeader(t: SubTokens, nv: nat, nt: nat)
    ensures var o := TextPart(nv);
            && TokenAt(t, nv, nt, o - 1) == t.joint && TokenAt(t, nv, nt, o) == t.pipe
            && TokenAt(t, nv, nt, o + 1) == t.start && TokenAt(t, nv, nt, o + 2) == t.negLat
            && TokenAt(t, nv, nt, o + 3) == t.ent && TokenAt(t, nv, nt, o + 4) == t.pipe
  {
  }

  /** The text block starts at the `|` of `<|start-latent|>`. */
  lemma BlockStartFound(t: SubTokens, nv: nat, nt: nat, ids: seq<int>, base: nat)
    requires t.Distinct() && Framed(t, LatentBlock(t, nv, nt), ids, base)
    ensures FirstTextBlockStart(ids, t.Pattern(), base + TextPart(nv))
  {
    hide LatentBlock, TokenAt;
    var o, v := TextPart(nv), t.Pattern();
    TextHeader(t, nv, nt);
    forall j | o - 1 <= j <= o + 4
      ensures base + j < |ids| && ids[base + j] == TokenAt(t, nv, nt, j)
    {
      InBlock(t, nv, nt, ids, base, j);
    }
    InBlock(t, nv, nt, ids, base, BlockLength(nv, nt) - 1);
    assert ids[base + o] == t.pipe && ids[base + (o - 1)] == t.joint && ids[base + (o + 1)] == t.start;
    assert ids[base + (o + 2)] == t.negLat && ids[base + (o + 3)] == t.ent && ids[base + (o + 4)] == t.pipe;
    assert IsTextBlockStart(ids, v, base + o);
    forall i | 0 <= i < base + o
      ensures !IsTextBlockStart(ids, v, i)
    {
      var j := i - base;
      if 0 <= j && IsTextBlockStart(ids, v, i) {
        forall k | j <= k <= j + 4
          ensures ids[base + k] == TokenAt(t, nv, nt, k)
        {
          InBlock(t, nv, nt, ids, base, k);
        }
        assert ids[base + (j + 1)] == t.start && ids[base + (j + 4)] == t.pipe;
        StartAt(t, nv, nt, j + 1);
      }
    }
  }

  /** `start` follows the opening of each block; behind the first `-vis` comes before the next `|`. */
  lemma StartAt(t: SubTokens, nv: nat, nt: nat, j: nat)
    requires t.Distinct() && j < BlockLength(nv, nt) && TokenAt(t, nv, nt, j) == t.start
    ensures j == 2 || j == TextPart(nv) + 1
    ensures TokenAt(t, nv, nt, 5) == t.vis
  {
  }

  // ---- all sub-tokens -------------------------------------------------------------------

  lemma AllMarkers(t: SubTokens, nv: nat, nt: nat, i: nat)
    requires i < BlockLength(nv, nt)
    ensures TokenAt(t, nv, nt, i) in t.Markers()
  {
  }

  /** What keywords inside a run of free positions cover: the run, if it is walled, and more
      otherwise. */
  lemma RunCovered(ids: seq<int>, markers: set<int>, stops: set<int>, keywords: seq<int>, from: int, to: int)
    requires from < to
    requires forall q | from <= q < to :: Free(ids, markers, stops, q)
    requires forall i | 0 <= i < |keywords| :: from <= keywords[i] < to
    ensures keywords == [] ==> forall p :: !Covered(ids, markers, stops, keywords, p)
    ensures keywords != [] ==> forall p | from <= p < to :: Covered(ids, markers, stops, keywords, p)
    ensures keywords != [] && Free(ids, markers, stops, from - 1) ==> Covered(ids, markers, stops, keywords, from - 1)
    ensures keywords != [] && Free(ids, markers, stops, to) ==> Covered(ids, markers, stops, keywords, to)
    ensures !Free(ids, markers, stops, from - 1) ==> forall p | Covered(ids, markers, stops, keywords, p) :: from <= p
    ensures !Free(ids, markers, stops, to) ==> forall p | Covered(ids, markers, stops, keywords, p) :: p < to
  {
    if keywords != [] {
      forall p | (from <= p < to) || (p == from - 1 && Free(ids, markers, stops, p)) || (p == to && Free(ids, markers, stops, p))
        ensures Covered(ids, markers, stops, keywords, p)
      {
        assert Linked(ids, markers, stops, keywords[0], p);
      }
    }
  }

  /** Every position of the block holds a marker sub-token, so none stops an expansion. */
  lemma BlockIsFree(t: SubTokens, nv: nat, nt: nat, ids: seq<int>, base: nat, stops: set<int>, from: nat, to: nat)
    requires Framed(t, LatentBlock(t, nv, nt), ids, base) && from <= to <= BlockLength(nv, nt)
    requires forall q | q in stops :: !(base + from <= q < base + to)
    ensures forall q | base + from <= q < base + to :: Free(ids, t.Markers(), stops, q)
  {
    hide LatentBlock, TokenAt;
    forall q | base + from <= q < base + to
      ensures Free(ids, t.Markers(), stops, q)
    {
      AllMarkers(t, nv, nt, q - base);
      InBlock(t, nv, nt, ids, base, q - base);
    }
  }

  /** With a visual keyword and a usable suffix id, the visual positions are the first part of the
      block and whatever marker sub-tokens lie directly before it; otherwise there are none. */
  lemma VisualPart(t: SubTokens, nv: nat, nt: nat, ids: seq<int>, base: nat)
    requires t.Distinct() && Framed(t, LatentBlock(t, nv, nt), ids, base)
    ensures t.vis == 0 || nv == 0 ==> forall p :: !IsVisual(ids, t.Pattern(), t.Markers(), p)
    ensures t.vis != 0 && nv != 0 ==>
              && (forall p | base <= p < base + TextPart(nv) :: IsVisual(ids, t.Pattern(), t.Markers(), p))
              && (0 < base && ids[base - 1] in t.Markers() ==> IsVisual(ids, t.Pattern(), t.Markers(), base - 1))
    ensures forall p | IsVisual(ids, t.Pattern(), t.Markers(), p) :: p < base + TextPart(nv)
    ensures base == 0 || ids[base - 1] !in t.Markers() ==>
              forall p | IsVisual(ids, t.Pattern(), t.Markers(), p) :: base <= p
  {
    hide LatentBlock, Framed, Covered, TextKeywords, VisualKeywords;
    var v, stops, keywords := t.Pattern(), SetOf(TextKeywords(ids, t.Pattern())), UsedVisualKeywords(ids, t.Pattern());
    KeywordsFound(t, nv, nt, ids, base);
    BlockStartFound(t, nv, nt, ids, base);
    FirstIsUnique(ids, v, base + TextPart(nv));
    assert TextPart(nv) <= BlockLength(nv, nt);
    BlockIsFree(t, nv, nt, ids, base, stops, 0, TextPart(nv));
    RunCovered(ids, t.Markers(), stops, keywords, base, base + TextPart(nv));
  }

  /** With a text keyword, the text positions are the rest of the block and whatever marker
      sub-tokens follow it directly; otherwise there are none. */
  lemma TextPartOf(t: SubTokens, nv: nat, nt: nat, ids: seq<int>, base: nat, visual: seq<int>)
    requires t.Distinct() && Framed(t, LatentBlock(t, nv, nt), ids, base)
    requires forall q | q in visual :: q < base + TextPart(nv)
    ensures nt == 0 ==> forall p :: !IsText(ids, t.Pattern(), t.Markers(), visual, p)
    ensures var to := base + BlockLength(nv, nt);
            && to <= |ids|
            && (nt != 0 ==>
                  && (forall p | base + TextPart(nv) <= p < to :: IsText(ids, t.Pattern(), t.Markers(), visual, p))
                  && (to < |ids| && ids[to] in t.Markers() ==> IsText(ids, t.Pattern(), t.Markers(), visual, to)))
            && (to == |ids| || ids[to] !in t.Markers() ==>
                  forall p | IsText(ids, t.Pattern(), t.Markers(), visual, p) :: p < to)
    ensures forall p | IsText(ids, t.Pattern(), t.Markers(), visual, p) :: base + TextPart(nv) <= p
  {
    hide LatentBlock, Covered, TextKeywords, VisualKeywords;
    var v, stops, keywords := t.Pattern(), SetOf(visual), TextKeywords(ids, t.Pattern());
    BlockAt(t, nv, nt, 0);
    KeywordsFound(t, nv, nt, ids, base);
    BlockStartFound(t, nv, nt, ids, base);
    hide Framed;
    FirstIsUnique(ids, v, base + TextPart(nv));
    BlockIsFree(t, nv, nt, ids, base, stops, TextPart(nv), BlockLength(nv, nt));
    RunCovered(ids, t.Markers(), stops, keywords, base + TextPart(nv), base + BlockLength(nv, nt));
  }

  /** The positions from `from` up to, not including, `end`. */
  function Range(from: int, end: int): (r: seq<int>)
    requires from <= end
    ensures |r| == end - from
    ensures forall k | 0 <= k < |r| :: r[k] == from + k
    ensures forall p :: p in r <==> from <= p < end
    decreases end - from
  {
    if from == end then [] else Range(from, end - 1) + [end - 1]
  }

  /** A list that holds an interval, and beyond it at most what follows directly, is the interval
      exactly when nothing does. */
  lemma ListIs(list: seq<int>, from: int, end: int, some: bool, left: bool, right: bool)
    requires from < end && Ascending(list)
    requires !some ==> forall p :: p !in list
    requires some ==> forall p | from <= p < end :: p in list
    requires some && left ==> from - 1 in list
    requires some && right ==> end in list
    requires !left ==> forall p | p in list :: from <= p
    requires !right ==> forall p | p in list :: p < end
    ensures !left && !right ==> list == if some then Range(from, end) else []
    ensures list == Range(from, end) <==> some && !left && !right
  {
    hide Range;
    if !some {
      NoneIn(list);
    } else if !left && !right {
      SameElements(list, Range(from, end));
    }
    assert from in Range(from, end);
  }

  /** What all-subtokens mode with separate visual tokens returns for the prefix in a prompt: with
      no sub-tokens next to it, each part of the block if there is a keyword for it. The lists
      split the block exactly when both parts have one, the suffix id is usable, and the tokens
      next to the block are no sub-tokens. */
  method SplitPrefix(t: SubTokens, nv: nat, nt: nat, pre: seq<int>, post: seq<int>) returns (text: seq<int>, visual: seq<int>)
    requires Prompt(t, pre, post)
    ensures var middle, end := |pre| + TextPart(nv), |pre| + BlockLength(nv, nt);
            && (Fenced(t, pre, post) ==>
                  && visual == (if t.vis == 0 || nv == 0 then [] else Range(|pre|, middle))
                  && text == (if nt == 0 then [] else Range(middle, end)))
            && (visual == Range(|pre|, middle) && text == Range(middle, end) <==>
                t.vis != 0 && 1 <= nv && 1 <= nt && Fenced(t, pre, post))
  {
    hide *;
    var ids := pre + LatentBlock(t, nv, nt) + post;
    text, visual := ComputeInferenceLatentPositions(ids, t.Pattern(), t.Markers(), 0, 0, true, true, true);
    VisualList(t, nv, nt, pre, post, visual);
    TextList(t, nv, nt, pre, post, text, visual);
    FencedSides(t, pre, post);
  }

  /** A marker sub-token directly before the block, or directly behind it. */
  predicate LeftOpen(t: SubTokens, pre: seq<int>) {
    pre != [] && pre[|pre| - 1] in t.Markers()
  }

  predicate RightOpen(t: SubTokens, post: seq<int>) {
    post != [] && post[0] in t.Markers()
  }

  lemma FencedSides(t: SubTokens, pre: seq<int>, post: seq<int>)
    ensures Fenced(t, pre, post) <==> !LeftOpen(t, pre) && !RightOpen(t, post)
  {
  }

  lemma BlockFramed(t: SubTokens, nv: nat, nt: nat, pre: seq<int>, post: seq<int>)
    requires Prompt(t, pre, post)
    ensures t.Distinct() && |LatentBlock(t, nv, nt)| == BlockLength(nv, nt)
    ensures Framed(t, LatentBlock(t, nv, nt), pre + LatentBlock(t, nv, nt) + post, |pre|)
  {
    hide LatentBlock, Framed, NoKeywords, NoTextBlockStart;
    BlockEnds(t, nv, nt);
    FramedBlock(t, LatentBlock(t, nv, nt), pre, post);
  }

  lemma VisualList(t: SubTokens, nv: nat, nt: nat, pre: seq<int>, post: seq<int>, visual: seq<int>)
    requires Prompt(t, pre, post) && Ascending(visual)
    requires forall p :: p in visual <==> IsVisual(pre + LatentBlock(t, nv, nt) + post, t.Pattern(), t.Markers(), p)
    ensures forall p | p in visual :: p < |pre| + TextPart(nv)
    ensures !LeftOpen(t, pre) ==> visual == if t.vis == 0 || nv == 0 then [] else Range(|pre|, |pre| + TextPart(nv))
    ensures visual == Range(|pre|, |pre| + TextPart(nv)) <==> t.vis != 0 && 1 <= nv && !LeftOpen(t, pre)
  {
    hide LatentBlock, Prompt, IsVisual, Range, Ascending, Framed;
    var ids := pre + LatentBlock(t, nv, nt) + post;
    BlockFramed(t, nv, nt, pre, post);
    VisualPart(t, nv, nt, ids, |pre|);
    Neighbours(pre, LatentBlock(t, nv, nt), post);
    ListIs(visual, |pre|, |pre| + TextPart(nv), t.vis != 0 && nv != 0, LeftOpen(t, pre), false);
  }

  lemma TextList(t: SubTokens, nv: nat, nt: nat, pre: seq<int>, post: seq<int>, text: seq<int>, visual: seq<int>)
    requires Prompt(t, pre, post) && Ascending(text) && forall p | p in visual :: p < |pre| + TextPart(nv)
    requires forall p :: p in text <==> IsText(pre + LatentBlock(t, nv, nt) + post, t.Pattern(), t.Markers(), visual, p)
    ensures var middle, end := |pre| + TextPart(nv), |pre| + BlockLength(nv, nt);
            && (!RightOpen(t, post) ==> text == if nt == 0 then [] else Range(middle, end))
            && (text == Range(middle, end) <==> 1 <= nt && !RightOpen(t, post))
  {
    hide LatentBlock, Prompt, IsText, Range, Ascending, Framed;
    var ids := pre + LatentBlock(t, nv, nt) + post;
    BlockFramed(t, nv, nt, pre, post);
    TextPartOf(t, nv, nt, ids, |pre|, visual);
    Neighbours(pre, LatentBlock(t, nv, nt), post);
    ListIs(text, |pre| + TextPart(nv), |pre| + BlockLength(nv, nt), nt != 0, false, RightOpen(t, post));
  }

  lemma BlockEnds(t: SubTokens, nv: nat, nt: nat)
    ensures var block := LatentBlock(t, nv, nt);
            |block| == BlockLength(nv, nt) && block[0] == t.open && block[|block| - 1] == t.joint
  {
    BlockAt(t, nv, nt, 0);
    BlockAt(t, nv, nt, BlockLength(nv, nt) - 1);
  }

  lemma Neighbours(pre: seq<int>, block: seq<int>, post: seq<int>)
    ensures var ids := pre + block + post;
            && (pre != [] ==> ids[|pre| - 1] == pre[|pre| - 1])
            && (post != [] ==> ids[|pre| + |block|] == post[0])
            && |ids| == |pre| + |block| + |post|
  {
  }

  // ---- the prefix without visual markers, and the modes without separation ---------------

  /** What the builder puts in front of the answer. */
  function PrefixBlock(t: SubTokens, nv: nat, nt: nat): seq<int> {
    if nv > 0 then LatentBlock(t, nv, nt) else TextOnlyBlock(t, nt)
  }

  lemma InTextOnly(t: SubTokens, nt: nat, ids: seq<int>, base: nat, j: nat)
    requires Framed(t, TextOnlyBlock(t, nt), ids, base) && j < 13 + 4 * nt
    ensures base + 13 + 4 * nt <= |ids| && |TextOnlyBlock(t, nt)| == 13 + 4 * nt
    ensures ids[base + j] == TextOnlyBlock(t, nt)[j] == if j == 0 then t.open else TokenAt(t, 0, nt, 14 + j)
  {
    hide TokenAt, LatentBlock;
    BlockAt(t, 0, nt, 0);
    if 0 < j {
      BlockAt(t, 0, nt, 14 + j);
    }
    assert ids[base..base + |TextOnlyBlock(t, nt)|][j] == ids[base + j];
  }

  /** The keywords of the text-only prefix: nt text ones, no visual one. */
  lemma TextOnlyKeywordAt(t: SubTokens, nt: nat, ids: seq<int>, base: nat, i: int)
    requires t.Distinct() && Framed(t, TextOnlyBlock(t, nt), ids, base)
    ensures !IsKeyword(ids, t.Pattern(), Some(t.vis), i)
    ensures IsKeyword(ids, t.Pattern(), Some(t.pipe), i) <==> TextSpot(0, nt, i - base + 14)
  {
    hide TokenAt, TextOnlyBlock;
    var j := i - base;
    InTextOnly(t, nt, ids, base, 0);
    if 0 < j < 13 + 4 * nt {
      LatentAt(t, 0, nt, 14 + j);
      InTextOnly(t, nt, ids, base, j);
      if TextSpot(0, nt, 14 + j) {
        InTextOnly(t, nt, ids, base, j - 1);
        InTextOnly(t, nt, ids, base, j + 1);
        assert ids[i - 1] == ids[base + (j - 1)] && ids[i + 1] == ids[base + (j + 1)];
      }
    }
  }

  /** Its text block starts right behind its `<`. */
  lemma TextOnlyStart(t: SubTokens, nt: nat, ids: seq<int>, base: nat)
    requires t.Distinct() && Framed(t, TextOnlyBlock(t, nt), ids, base)
    ensures FirstTextBlockStart(ids, t.Pattern(), base + 1)
  {
    hide TokenAt, TextOnlyBlock;
    TextHeader(t, 0, nt);
    InTextOnly(t, nt, ids, base, 0);
    InTextOnly(t, nt, ids, base, 1);
    InTextOnly(t, nt, ids, base, 2);
    InTextOnly(t, nt, ids, base, 3);
    InTextOnly(t, nt, ids, base, 4);
    InTextOnly(t, nt, ids, base, 5);
    assert ids[base] == t.open && ids[base + 1] == t.pipe && ids[base + 2] == t.start;
    assert ids[base + 3] == t.negLat && ids[base + 4] == t.ent && ids[base + 5] == t.pipe && base + 12 < |ids|;
    assert IsTextBlockStart(ids, t.Pattern(), base + 1);
  }

  /** The keywords of either prefix lie inside it, and there are some if it has text markers. */
  lemma KeywordsInside(t: SubTokens, nv: nat, nt: nat, ids: seq<int>, base: nat)
    requires t.Distinct() && Framed(t, PrefixBlock(t, nv, nt), ids, base)
    ensures var keywords := TextKeywords(ids, t.Pattern());
            && (forall i | 0 <= i < |keywords| :: base < keywords[i] < base + |PrefixBlock(t, nv, nt)|)
            && (keywords == [] <==> nt == 0)
    ensures nv == 0 ==> VisualKeywords(ids, t.Pattern()) == []
  {
    hide IsKeyword, LatentBlock, TextOnlyBlock, Framed, TextKeywords, VisualKeywords;
    if nv > 0 {
      KeywordsFound(t, nv, nt, ids, base);
      BlockAt(t, nv, nt, 0);
    } else {
      TextOnlyKeywords(t, nt, ids, base);
      TextOnlyIsPrefix(t, nt);
      InTextOnly(t, nt, ids, base, 0);
    }
  }

  lemma TextOnlyKeywords(t: SubTokens, nt: nat, ids: seq<int>, base: nat)
    requires t.Distinct() && Framed(t, TextOnlyBlock(t, nt), ids, base)
    ensures var keywords := TextKeywords(ids, t.Pattern());
            && (forall i | 0 <= i < |keywords| :: base < keywords[i] < base + 13 + 4 * nt)
            && (keywords == [] <==> nt == 0)
    ensures VisualKeywords(ids, t.Pattern()) == []
  {
    hide IsKeyword, TextOnlyBlock, Framed, TextKeywords, VisualKeywords;
    var v := t.Pattern();
    var keywords := TextKeywords(ids, v);
    forall i
      ensures i !in VisualKeywords(ids, v)
      ensures i in keywords <==> TextSpot(0, nt, i - base + 14)
    {
      TextOnlyKeywordAt(t, nt, ids, base, i);
      MemberIs(t, ids, i);
    }
    assert forall i | 0 <= i < |keywords| :: keywords[i] in keywords;
    NoneIn(VisualKeywords(ids, v));
    if nt == 0 {
      NoneIn(keywords);
    }
    if 0 < nt {
      assert TextSpot(0, nt, 22);
      assert base + 8 in keywords;
    }
  }

  lemma MemberIs(t: SubTokens, ids: seq<int>, i: int)
    ensures i in VisualKeywords(ids, t.Pattern()) <==> IsKeyword(ids, t.Pattern(), Some(t.vis), i)
    ensures i in TextKeywords(ids, t.Pattern()) <==> IsKeyword(ids, t.Pattern(), Some(t.pipe), i)
  {
    var v := t.Pattern();
    KeywordsBelowAre(ids, v, v.visSuffix, |ids|);
    KeywordsBelowAre(ids, v, v.pipe, |ids|);
    KeywordInRange(ids, v, v.visSuffix, i);
    KeywordInRange(ids, v, v.pipe, i);
    hide IsKeyword, KeywordsBelow;
  }

  lemma PrefixIsFree(t: SubTokens, nv: nat, nt: nat, ids: seq<int>, base: nat)
    requires Framed(t, PrefixBlock(t, nv, nt), ids, base)
    ensures forall q | base <= q < base + |PrefixBlock(t, nv, nt)| :: Free(ids, t.Markers(), {}, q)
  {
    hide LatentBlock, TextOnlyBlock, TokenAt;
    var block := PrefixBlock(t, nv, nt);
    if nv > 0 {
      BlockAt(t, nv, nt, 0);
      BlockIsFree(t, nv, nt, ids, base, {}, 0, BlockLength(nv, nt));
    } else {
      InTextOnly(t, nt, ids, base, 0);
      forall q | base <= q < base + |block|
        ensures Free(ids, t.Markers(), {}, q)
      {
        InTextOnly(t, nt, ids, base, q - base);
        if base < q {
          AllMarkers(t, 0, nt, 14 + (q - base));
        }
      }
    }
  }

  lemma PrefixEnds(t: SubTokens, nv: nat, nt: nat)
    ensures var block := PrefixBlock(t, nv, nt);
            |block| >= 13 && block[0] == t.open && block[|block| - 1] == t.joint
    ensures nv == 0 ==> |PrefixBlock(t, nv, nt)| == 13 + 4 * nt
  {
    hide LatentBlock;
    BlockEnds(t, nv, nt);
    BlockEnds(t, 0, nt);
  }

  /** Without separation all-subtokens mode returns the whole prefix of either kind, exactly when it
      has a text marker and the tokens next to it are no sub-tokens. */
  method WholePrefix(t: SubTokens, nv: nat, nt: nat, pre: seq<int>, post: seq<int>) returns (text: seq<int>, visual: seq<int>)
    requires Prompt(t, pre, post)
    ensures text == visual
    ensures var end := |pre| + |PrefixBlock(t, nv, nt)|;
            && (Fenced(t, pre, post) ==> text == if nt == 0 then [] else Range(|pre|, end))
            && (text == Range(|pre|, end) <==> 1 <= nt && Fenced(t, pre, post))
  {
    hide *;
    var ids := pre + PrefixBlock(t, nv, nt) + post;
    text, visual := ComputeInferenceLatentPositions(ids, t.Pattern(), t.Markers(), 0, 0, true, true, false);
    WholeList(t, nv, nt, pre, post, text);
    FencedSides(t, pre, post);
  }

  lemma WholeList(t: SubTokens, nv: nat, nt: nat, pre: seq<int>, post: seq<int>, text: seq<int>)
    requires Prompt(t, pre, post) && Ascending(text)
    requires var ids := pre + PrefixBlock(t, nv, nt) + post;
             forall p :: p in text <==> Covered(ids, t.Markers(), {}, TextKeywords(ids, t.Pattern()), p)
    ensures var end := |pre| + |PrefixBlock(t, nv, nt)|;
            && (!LeftOpen(t, pre) && !RightOpen(t, post) ==> text == if nt == 0 then [] else Range(|pre|, end))
            && (text == Range(|pre|, end) <==> 1 <= nt && !LeftOpen(t, pre) && !RightOpen(t, post))
  {
    hide PrefixBlock, Prompt, Covered, Range, TextKeywords, Ascending;
    var block := PrefixBlock(t, nv, nt);
    WholeCovered(t, nv, nt, pre, post);
    ListIs(text, |pre|, |pre| + |block|, nt != 0, LeftOpen(t, pre), RightOpen(t, post));
  }

  lemma WholeCovered(t: SubTokens, nv: nat, nt: nat, pre: seq<int>, post: seq<int>)
    requires Prompt(t, pre, post)
    ensures var (ids, end) := (pre + PrefixBlock(t, nv, nt) + post, |pre| + |PrefixBlock(t, nv, nt)|);
            var keywords := TextKeywords(ids, t.Pattern());
            && |pre| < end
            && (nt == 0 ==> forall p :: !Covered(ids, t.Markers(), {}, keywords, p))
            && (nt != 0 ==>
                  && (forall p | |pre| <= p < end :: Covered(ids, t.Markers(), {}, keywords, p))
                  && (LeftOpen(t, pre) ==> Covered(ids, t.Markers(), {}, keywords, |pre| - 1))
                  && (RightOpen(t, post) ==> Covered(ids, t.Markers(), {}, keywords, end)))
            && (!LeftOpen(t, pre) ==> forall p | Covered(ids, t.Markers(), {}, keywords, p) :: |pre| <= p)
            && (!RightOpen(t, post) ==> forall p | Covered(ids, t.Markers(), {}, keywords, p) :: p < end)
  {
    hide PrefixBlock, NoKeywords, NoTextBlockStart, Covered, TextKeywords, Framed;
    var block := PrefixBlock(t, nv, nt);
    var ids := pre + block + post;
    PrefixEnds(t, nv, nt);
    FramedBlock(t, block, pre, post);
    KeywordsInside(t, nv, nt, ids, |pre|);
    PrefixIsFree(t, nv, nt, ids, |pre|);
    RunCovered(ids, t.Markers(), {}, TextKeywords(ids, t.Pattern()), |pre|, |pre| + |block|);
    Neighbours(pre, block, post);
  }

  /** No visual keyword, no visual position. */
  lemma TextOnlyVisual(t: SubTokens, nt: nat, ids: seq<int>, base: nat)
    requires t.Distinct() && Framed(t, TextOnlyBlock(t, nt), ids, base)
    ensures forall p :: !IsVisual(ids, t.Pattern(), t.Markers(), p)
  {
    hide Framed, TextOnlyBlock, TextKeywords, Covered;
    TextOnlyIsPrefix(t, nt);
    KeywordsInside(t, 0, nt, ids, base);
    NoneCovered(ids, t.Markers(), SetOf(TextKeywords(ids, t.Pattern())));
  }

  /** Given none, the text positions are those of the block from the `|` of its first marker on, and
      marker sub-tokens directly behind it. */
  lemma TextOnlyText(t: SubTokens, nt: nat, ids: seq<int>, base: nat)
    requires t.Distinct() && Framed(t, TextOnlyBlock(t, nt), ids, base)
    ensures var to := base + 13 + 4 * nt;
            && to <= |ids|
            && (nt == 0 ==> forall p :: !IsText(ids, t.Pattern(), t.Markers(), [], p))
            && (nt != 0 ==>
                  && (forall p | base < p < to :: IsText(ids, t.Pattern(), t.Markers(), [], p))
                  && (to < |ids| && ids[to] in t.Markers() ==> IsText(ids, t.Pattern(), t.Markers(), [], to)))
            && (to == |ids| || ids[to] !in t.Markers() ==> forall p | IsText(ids, t.Pattern(), t.Markers(), [], p) :: p < to)
    ensures forall p | IsText(ids, t.Pattern(), t.Markers(), [], p) :: base < p
  {
    hide TextOnlyBlock, TextKeywords, Covered;
    var keywords, to := TextKeywords(ids, t.Pattern()), base + 13 + 4 * nt;
    TextOnlyIsPrefix(t, nt);
    InTextOnly(t, nt, ids, base, 0);
    KeywordsInside(t, 0, nt, ids, base);
    PrefixIsFree(t, 0, nt, ids, base);
    TextOnlyStart(t, nt, ids, base);
    hide Framed;
    FirstIsUnique(ids, t.Pattern(), base + 1);
    assert SetOf([]) == {};
    RunCovered(ids, t.Markers(), {}, keywords, base, to);
  }

  /** With separation the prefix without visual markers has no visual position, and its text
      positions are all of it but the leading `<`, which lies before the text block. */
  method TextOnlyPrefix(t: SubTokens, nt: nat, pre: seq<int>, post: seq<int>) returns (text: seq<int>, visual: seq<int>)
    requires Prompt(t, pre, post)
    ensures visual == []
    ensures var end := |pre| + |PrefixBlock(t, 0, nt)|;
            text == Range(|pre| + 1, end) <==> 1 <= nt && (post != [] ==> post[0] !in t.Markers())
    ensures nt == 0 ==> text == []
  {
    hide *;
    var ids := pre + PrefixBlock(t, 0, nt) + post;
    text, visual := ComputeInferenceLatentPositions(ids, t.Pattern(), t.Markers(), 0, 0, true, true, true);
    NoVisualList(t, nt, pre, post, visual);
    TextOnlyList(t, nt, pre, post, text);
  }

  /** The text-only prefix as a block in the prompt. */
  lemma TextOnlyFramed(t: SubTokens, nt: nat, pre: seq<int>, post: seq<int>)
    requires Prompt(t, pre, post)
    ensures PrefixBlock(t, 0, nt) == TextOnlyBlock(t, nt) && |PrefixBlock(t, 0, nt)| == 13 + 4 * nt
    ensures Framed(t, TextOnlyBlock(t, nt), pre + PrefixBlock(t, 0, nt) + post, |pre|)
  {
    hide PrefixBlock, TextOnlyBlock, Framed;
    PrefixEnds(t, 0, nt);
    TextOnlyIsPrefix(t, nt);
    FramedBlock(t, PrefixBlock(t, 0, nt), pre, post);
  }

  lemma NoVisualList(t: SubTokens, nt: nat, pre: seq<int>, post: seq<int>, visual: seq<int>)
    requires Prompt(t, pre, post)
    requires forall p :: p in visual <==> IsVisual(pre + PrefixBlock(t, 0, nt) + post, t.Pattern(), t.Markers(), p)
    ensures visual == []
  {
    hide PrefixBlock, TextOnlyBlock, Framed, IsVisual, Prompt;
    TextOnlyFramed(t, nt, pre, post);
    PromptDistinct(t, pre, post);
    TextOnlyVisual(t, nt, pre + PrefixBlock(t, 0, nt) + post, |pre|);
    NoneIn(visual);
  }

  lemma PromptDistinct(t: SubTokens, pre: seq<int>, post: seq<int>)
    requires Prompt(t, pre, post)
    ensures t.Distinct()
  {
  }

  lemma TextOnlyCovered(t: SubTokens, nt: nat, pre: seq<int>, post: seq<int>)
    requires Prompt(t, pre, post)
    ensures var (ids, end) := (pre + PrefixBlock(t, 0, nt) + post, |pre| + |PrefixBlock(t, 0, nt)|);
            && |pre| + 1 < end
            && (nt == 0 ==> forall p :: !IsText(ids, t.Pattern(), t.Markers(), [], p))
            && (nt != 0 ==>
                  && (forall p | |pre| + 1 <= p < end :: IsText(ids, t.Pattern(), t.Markers(), [], p))
                  && (RightOpen(t, post) ==> IsText(ids, t.Pattern(), t.Markers(), [], end)))
            && (forall p | IsText(ids, t.Pattern(), t.Markers(), [], p) :: |pre| + 1 <= p)
            && (!RightOpen(t, post) ==> forall p | IsText(ids, t.Pattern(), t.Markers(), [], p) :: p < end)
  {
    hide PrefixBlock, TextOnlyBlock, Framed, IsText, Prompt;
    var block := PrefixBlock(t, 0, nt);
    TextOnlyFramed(t, nt, pre, post);
    PromptDistinct(t, pre, post);
    TextOnlyText(t, nt, pre + block + post, |pre|);
    Neighbours(pre, block, post);
  }

  lemma TextOnlyList(t: SubTokens, nt: nat, pre: seq<int>, post: seq<int>, text: seq<int>)
    requires Prompt(t, pre, post) && Ascending(text)
    requires forall p :: p in text <==> IsText(pre + PrefixBlock(t, 0, nt) + post, t.Pattern(), t.Markers(), [], p)
    ensures text == Range(|pre| + 1, |pre| + |PrefixBlock(t, 0, nt)|) <==> 1 <= nt && (post != [] ==> post[0] !in t.Markers())
    ensures nt == 0 ==> text == []
  {
    hide PrefixBlock, Prompt, IsText, Range, Ascending;
    var block := PrefixBlock(t, 0, nt);
    TextOnlyCovered(t, nt, pre, post);
    if nt == 0 {
      NoneIn(text);
    }
    ListIs(text, |pre| + 1, |pre| + |block|, nt != 0, false, RightOpen(t, post));
  }

  lemma TextOnlyIsPrefix(t: SubTokens, nt: nat)
    ensures PrefixBlock(t, 0, nt) == TextOnlyBlock(t, nt)
  {
  }

  lemma NoneCovered(ids: seq<int>, markers: set<int>, stops: set<int>)
    ensures forall p :: !Covered(ids, markers, stops, [], p)
  {
  }
}
