/** Text and visual latent positions of an input sequence, and what they are on a built prefix. */
module LatentPositions {
  import opened Options
  import opened LatentExpansion

  /** Ids of the marker texts; `None` when the tokenizer has no single token for one. */
  datatype Vocabulary = Vocabulary(
    latent: Option<int>,
    pipe: Option<int>,
    visSuffix: Option<int>,
    start: Option<int>,
    negLat: Option<int>,
    ent: Option<int>)

  // ---- keywords -------------------------------------------------------------------------

  /** `| latent <after>` around position i. */
  predicate IsKeyword(ids: seq<int>, v: Vocabulary, after: Option<int>, i: int) {
    && 1 <= i < |ids| - 1
    && Some(ids[i]) == v.latent && Some(ids[i - 1]) == v.pipe && Some(ids[i + 1]) == after
  }

  ghost function KeywordsBelow(ids: seq<int>, v: Vocabulary, after: Option<int>, n: nat): seq<int> {
    if n == 0 then []
    else KeywordsBelow(ids, v, after, n - 1) + (if IsKeyword(ids, v, after, n - 1) then [n - 1] else [])
  }

  ghost function TextKeywords(ids: seq<int>, v: Vocabulary): seq<int> {
    KeywordsBelow(ids, v, v.pipe, |ids|)
  }

  ghost function VisualKeywords(ids: seq<int>, v: Vocabulary): seq<int> {
    if v.visSuffix.None? then [] else KeywordsBelow(ids, v, v.visSuffix, |ids|)
  }

  lemma {:induction false} KeywordsBelowAre(ids: seq<int>, v: Vocabulary, after: Option<int>, n: nat)
    ensures Ascending(KeywordsBelow(ids, v, after, n))
    ensures forall i :: i in KeywordsBelow(ids, v, after, n) <==> i < n && IsKeyword(ids, v, after, i)
  {
    if n > 0 {
      KeywordsBelowAre(ids, v, after, n - 1);
      var before := KeywordsBelow(ids, v, after, n - 1);
      assert forall j | 0 <= j < |before| :: before[j] in before;
    }
  }

  method FindLatentKeywordPositions(ids: seq<int>, v: Vocabulary) returns (positions: seq<int>)
    ensures positions == TextKeywords(ids, v) && Ascending(positions)
    ensures forall i :: i in positions <==>
              && 1 <= i < |ids| - 1
              && Some(ids[i]) == v.latent && Some(ids[i - 1]) == v.pipe && Some(ids[i + 1]) == v.pipe
  {
    KeywordsBelowAre(ids, v, v.pipe, |ids|);
    positions := FindPattern(ids, v, v.pipe);
  }

  method FindVisualLatentKeywordPositions(ids: seq<int>, v: Vocabulary) returns (positions: seq<int>)
    ensures positions == VisualKeywords(ids, v) && Ascending(positions)
    ensures forall i :: i in positions <==>
              && 1 <= i < |ids| - 1 && v.visSuffix.Some?
              && Some(ids[i]) == v.latent && Some(ids[i - 1]) == v.pipe && Some(ids[i + 1]) == v.visSuffix
  {
    if v.visSuffix.None? {
      return [];
    }
    KeywordsBelowAre(ids, v, v.visSuffix, |ids|);
    positions := FindPattern(ids, v, v.visSuffix);
  }

  method FindPattern(ids: seq<int>, v: Vocabulary, after: Option<int>) returns (positions: seq<int>)
    ensures positions == KeywordsBelow(ids, v, after, |ids|)
  {
    positions := [];
    if |ids| < 2 {
      return;
    }
    for i := 1 to |ids| - 1
      invariant positions == KeywordsBelow(ids, v, after, i)
    {
      if Some(ids[i]) == v.latent && Some(ids[i - 1]) == v.pipe && Some(ids[i + 1]) == after {
        positions := positions + [i];
      }
    }
  }

  // ---- the start of the text block ------------------------------------------------------

  predicate IsTextBlockStart(ids: seq<int>, v: Vocabulary, i: int) {
    && 1 <= i < |ids| - 4
    && Some(ids[i]) == v.pipe && Some(ids[i + 1]) == v.start && Some(ids[i + 2]) == v.negLat
    && Some(ids[i + 3]) == v.ent && Some(ids[i + 4]) == v.pipe
    && Some(ids[i - 1]) != v.visSuffix
  }

  /** The first such index, or the length of the sequence. */
  ghost predicate FirstTextBlockStart(ids: seq<int>, v: Vocabulary, b: int) {
    && (forall i | 0 <= i < b :: !IsTextBlockStart(ids, v, i))
    && (b == |ids| || IsTextBlockStart(ids, v, b))
  }

  method FindTextLatentBlockStart(ids: seq<int>, v: Vocabulary) returns (b: int)
    ensures FirstTextBlockStart(ids, v, b)
    ensures 0 <= b <= |ids|
  {
    if v.start.None? || v.negLat.None? || v.ent.None? || |ids| <= 5 {
      return |ids|;
    }
    for i := 1 to |ids| - 4
      invariant forall k | 0 <= k < i :: !IsTextBlockStart(ids, v, k)
    {
      if IsTextBlockStart(ids, v, i) {
        return i;
      }
    }
    b := |ids|;
  }

  /** No start marker without `-vis` before it stands earlier; unless it is the length, one stands there. */
  lemma FirstStartIs(ids: seq<int>, v: Vocabulary, b: int, i: int)
    requires FirstTextBlockStart(ids, v, b) && 1 <= i < |ids| - 4 && i <= b
    ensures i == b <==> && Some(ids[i]) == v.pipe && Some(ids[i + 1]) == v.start && Some(ids[i + 2]) == v.negLat
                        && Some(ids[i + 3]) == v.ent && Some(ids[i + 4]) == v.pipe
                        && Some(ids[i - 1]) != v.visSuffix
    ensures b == |ids| || 1 <= b < |ids| - 4
  {
    if i < b {
      assert !IsTextBlockStart(ids, v, i);
    }
  }

  /** The program looks for visual keywords only if the id is truthy: neither missing nor 0. */
  ghost function UsedVisualKeywords(ids: seq<int>, v: Vocabulary): seq<int> {
    if v.visSuffix == Some(0) then [] else VisualKeywords(ids, v)
  }

  // ---- all modes ------------------------------------------------------------------------

  /** The positions of `whole` on the wanted side of the block start, in order. */
  method Below(whole: seq<int>, b: int) returns (part: seq<int>)
    ensures forall p :: p in part <==> p in whole && p < b
    ensures Ascending(whole) ==> Ascending(part)
  {
    part := [];
    for i := 0 to |whole|
      invariant forall p :: p in part <==> p in whole[..i] && p < b
      invariant Ascending(whole) ==> Ascending(part)
    {
      if whole[i] < b {
        assert forall a | 0 <= a < |part| :: part[a] in part;
        part := part + [whole[i]];
      }
    }
  }

  method AtOrAbove(whole: seq<int>, b: int) returns (part: seq<int>)
    ensures forall p :: p in part <==> p in whole && p >= b
    ensures Ascending(whole) ==> Ascending(part)
  {
    part := [];
    for i := 0 to |whole|
      invariant forall p :: p in part <==> p in whole[..i] && p >= b
      invariant Ascending(whole) ==> Ascending(part)
    {
      if whole[i] >= b {
        assert forall a | 0 <= a < |part| :: part[a] in part;
        part := part + [whole[i]];
      }
    }
  }

  /** Visual positions: linked to a visual keyword without crossing a text keyword, before the block. */
  ghost predicate IsVisual(ids: seq<int>, v: Vocabulary, markers: set<int>, p: int) {
    && Covered(ids, markers, SetOf(TextKeywords(ids, v)), UsedVisualKeywords(ids, v), p)
    && forall b | FirstTextBlockStart(ids, v, b) :: p < b
  }

  /** Text positions: linked to a text keyword without crossing a visual position, from the block on. */
  ghost predicate IsText(ids: seq<int>, v: Vocabulary, markers: set<int>, visual: seq<int>, p: int) {
    && Covered(ids, markers, SetOf(visual), TextKeywords(ids, v), p)
    && forall b | FirstTextBlockStart(ids, v, b) :: p >= b
  }

  /** Visual positions are what visual keywords reach without passing a text keyword, cut off where
      the text block starts. */
  lemma VisualIs(ids: seq<int>, v: Vocabulary, markers: set<int>, b: int, p: int)
    requires FirstTextBlockStart(ids, v, b)
    ensures IsVisual(ids, v, markers, p) <==>
            && p < b && v.visSuffix.Some? && v.visSuffix != Some(0)
            && exists k | k in VisualKeywords(ids, v) :: Reaches(ids, markers, TextKeywords(ids, v), k, p)
  {
    hide TextKeywords, VisualKeywords, Reaches, Covered;
    FirstIsUnique(ids, v, b);
    CoveredIs(ids, markers, TextKeywords(ids, v), UsedVisualKeywords(ids, v), p);
    if v.visSuffix.None? {
      NoVisual(ids, v);
    }
  }

  lemma NoVisual(ids: seq<int>, v: Vocabulary)
    requires v.visSuffix.None?
    ensures VisualKeywords(ids, v) == []
  {
  }

  /** Text positions are what text keywords reach without passing a visual position, from where the
      text block starts. */
  lemma TextIs(ids: seq<int>, v: Vocabulary, markers: set<int>, visual: seq<int>, b: int, p: int)
    requires FirstTextBlockStart(ids, v, b)
    ensures IsText(ids, v, markers, visual, p) <==>
            b <= p && exists k | k in TextKeywords(ids, v) :: Reaches(ids, markers, visual, k, p)
  {
    hide TextKeywords, Reaches, Covered;
    FirstIsUnique(ids, v, b);
    CoveredIs(ids, markers, visual, TextKeywords(ids, v), p);
  }

  method TokenPositions(ids: seq<int>, token: int) returns (positions: seq<int>)
    ensures Ascending(positions)
    ensures forall p :: p in positions <==> 0 <= p < |ids| && ids[p] == token
  {
    positions := [];
    for i := 0 to |ids|
      invariant Ascending(positions)
      invariant forall p :: p in positions <==> 0 <= p < i && ids[p] == token
    {
      if ids[i] == token {
        assert forall a | 0 <= a < |positions| :: positions[a] in positions;
        positions := positions + [i];
      }
    }
  }

  method ComputeInferenceLatentPositions(
    ids: seq<int>, v: Vocabulary, markers: set<int>, latentToken: int, latentVisToken: int,
    originalVocab: bool, allSubtokens: bool, separateVisual: bool) returns (text: seq<int>, visual: seq<int>)
    ensures Ascending(text) && Ascending(visual)
    ensures originalVocab && separateVisual ==>
              if allSubtokens then
                && (forall p :: p in visual <==> IsVisual(ids, v, markers, p))
                && (forall p :: p in text <==> IsText(ids, v, markers, visual, p))
              else
                text == TextKeywords(ids, v) && visual == UsedVisualKeywords(ids, v)
    ensures originalVocab && !separateVisual ==>
              && text == visual
              && if allSubtokens then forall p :: p in text <==> Covered(ids, markers, {}, TextKeywords(ids, v), p)
                 else text == TextKeywords(ids, v)
    ensures !originalVocab ==>
              && (forall p :: p in text <==> 0 <= p < |ids| && ids[p] == latentToken)
              && (separateVisual ==> forall p :: p in visual <==> 0 <= p < |ids| && ids[p] == latentVisToken)
              && (!separateVisual ==> visual == text)
  {
    if !originalVocab {
      text := TokenPositions(ids, latentToken);
      if separateVisual {
        visual := TokenPositions(ids, latentVisToken);
      } else {
        visual := text;
      }
      return;
    }
    KeywordsBelowAre(ids, v, v.pipe, |ids|);
    KeywordsBelowAre(ids, v, v.visSuffix, |ids|);
    var textKw := FindLatentKeywordPositions(ids, v);
    InRange(ids, v, v.pipe, textKw);
    if separateVisual {
      var visKw := [];
      if v.visSuffix.Some? && v.visSuffix != Some(0) {
        visKw := FindVisualLatentKeywordPositions(ids, v);
        InRange(ids, v, v.visSuffix, visKw);
      }
      if allSubtokens {
        var b := FindTextLatentBlockStart(ids, v);
        FirstIsUnique(ids, v, b);
        var visFull := [];
        if visKw != [] {
          visFull := ExpandKeywordPositionsWithStop(ids, visKw, markers, textKw);
        }
        visual := Below(visFull, b);
        var textFull := ExpandKeywordPositionsWithStop(ids, textKw, markers, visual);
        text := AtOrAbove(textFull, b);
      } else {
        text, visual := textKw, visKw;
      }
    } else if allSubtokens {
      if textKw == [] {
        return [], [];
      }
      text := ExpandKeywordPositions(ids, textKw, markers);
      visual := text;
    } else {
      text, visual := textKw, textKw;
    }
  }

  lemma InRange(ids: seq<int>, v: Vocabulary, after: Option<int>, keywords: seq<int>)
    requires keywords == KeywordsBelow(ids, v, after, |ids|)
    ensures Ascending(keywords)
    ensures forall i | 0 <= i < |keywords| :: 0 <= keywords[i] < |ids|
  {
    KeywordsBelowAre(ids, v, after, |ids|);
    assert forall i | 0 <= i < |keywords| :: keywords[i] in keywords;
  }

  lemma FirstIsUnique(ids: seq<int>, v: Vocabulary, b: int)
    requires FirstTextBlockStart(ids, v, b)
    ensures forall c | FirstTextBlockStart(ids, v, c) :: c == b
  {
  }
}
