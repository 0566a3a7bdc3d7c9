/** The sub-tokens of the latent prefix spell the text the program builds. */
module LatentText {
  import opened Sequences
  import opened LatentPrefix

  /** The text of a sub-token. */
  function Spelling(t: SubTokens, id: int): string {
    if id == t.open then "<" else if id == t.close then ">" else if id == t.pipe then "|"
    else if id == t.joint then "><" else if id == t.latent then "latent" else if id == t.start then "start"
    else if id == t.end then "end" else if id == t.negLat then "-lat" else if id == t.ent then "ent"
    else if id == t.vis then "-vis" else ""
  }

  function Spelled(t: SubTokens, ids: seq<int>): string {
    if ids == [] then "" else Spelling(t, ids[0]) + Spelled(t, ids[1..])
  }

  /** `text * n` */
  function Times(text: string, n: nat): string {
    if n == 0 then "" else text + Times(text, n - 1)
  }

  lemma {:induction false} SpelledConcat(t: SubTokens, a: seq<int>, b: seq<int>)
    ensures Spelled(t, a + b) == Spelled(t, a) + Spelled(t, b)
  {
    hide Spelling;
    if a == [] {
      assert a + b == b;
    } else {
      assert (a + b)[1..] == a[1..] + b;
      SpelledConcat(t, a[1..], b);
      Assoc(Spelling(t, a[0]), Spelled(t, a[1..]), Spelled(t, b));
    }
  }

  lemma SpelledFirst(t: SubTokens, id: int, rest: seq<int>)
    ensures Spelled(t, [id] + rest) == Spelling(t, id) + Spelled(t, rest)
    ensures Spelled(t, []) == ""
  {
    hide Spelling;
    assert ([id] + rest)[1..] == rest;
  }

  /** A few sub-tokens one after the other. */
  lemma SpelledFour(t: SubTokens, a: int, b: int, c: int, d: int)
    ensures Spelled(t, [a, b, c, d]) == Spelling(t, a) + (Spelling(t, b) + (Spelling(t, c) + Spelling(t, d)))
  {
    hide Spelling, Spelled;
    SpelledFirst(t, a, [b, c, d]);
    SpelledFirst(t, b, [c, d]);
    SpelledFirst(t, c, [d]);
    SpelledFirst(t, d, []);
    assert [a] + [b, c, d] == [a, b, c, d] && [b] + [c, d] == [b, c, d] && [c] + [d] == [c, d] && [d] + [] == [d];
    assert Spelling(t, d) + "" == Spelling(t, d);
  }

  lemma SpelledTwo(t: SubTokens, a: int, b: int)
    ensures Spelled(t, [a, b]) == Spelling(t, a) + Spelling(t, b)
  {
    hide Spelling, Spelled;
    SpelledFirst(t, a, [b]);
    SpelledFirst(t, b, []);
    assert [a] + [b] == [a, b] && [b] + [] == [b];
    assert Spelling(t, b) + "" == Spelling(t, b);
  }

  /** The markers, without their `<`, which stands in the sub-token before. */
  lemma MarkersSpelled(t: SubTokens)
    requires t.Distinct()
    ensures Spelled(t, [t.open]) == "<"
    ensures Spelled(t, [t.pipe, t.start, t.negLat, t.ent, t.vis, t.pipe, t.joint]) == "|start-latent-vis|><"
    ensures Spelled(t, [t.pipe, t.latent, t.vis, t.pipe, t.joint]) == "|latent-vis|><"
    ensures Spelled(t, [t.pipe, t.end, t.negLat, t.ent, t.vis, t.pipe, t.joint]) == "|end-latent-vis|><"
    ensures Spelled(t, [t.pipe, t.start, t.negLat, t.ent, t.pipe, t.joint]) == "|start-latent|><"
    ensures Spelled(t, [t.pipe, t.latent, t.pipe, t.joint]) == "|latent|><"
    ensures Spelled(t, [t.pipe, t.end, t.negLat, t.ent, t.pipe, t.joint]) == "|end-latent|><"
  {
    hide Spelled, Spelling;
    OpenSpelled(t);
    NamedSpelled(t, t.start, "start");
    NamedSpelled(t, t.end, "end");
    KeywordSpelled(t);
  }

  lemma OpenSpelled(t: SubTokens)
    ensures Spelled(t, [t.open]) == "<"
    ensures t.Distinct() ==> Spelling(t, t.start) == "start" && Spelling(t, t.end) == "end"
  {
    hide Spelled;
    SpelledFirst(t, t.open, []);
    assert [t.open] + [] == [t.open];
  }

  /** The markers that start and end a part. */
  lemma NamedSpelled(t: SubTokens, id: int, text: string)
    requires t.Distinct() && Spelling(t, id) == text
    ensures Spelled(t, [t.pipe, id, t.negLat, t.ent, t.vis, t.pipe, t.joint]) == "|" + text + "-latent-vis|><"
    ensures Spelled(t, [t.pipe, id, t.negLat, t.ent, t.pipe, t.joint]) == "|" + text + "-latent|><"
  {
    hide Spelled;
    SpelledFour(t, t.pipe, id, t.negLat, t.ent);
    SpelledTwo(t, t.pipe, t.joint);
    SpelledFirst(t, t.vis, [t.pipe, t.joint]);
    assert [t.vis] + [t.pipe, t.joint] == [t.vis, t.pipe, t.joint];
    SpelledConcat(t, [t.pipe, id, t.negLat, t.ent], [t.vis, t.pipe, t.joint]);
    SpelledConcat(t, [t.pipe, id, t.negLat, t.ent], [t.pipe, t.joint]);
    assert [t.pipe, id, t.negLat, t.ent] + [t.vis, t.pipe, t.joint] == [t.pipe, id, t.negLat, t.ent, t.vis, t.pipe, t.joint];
    assert [t.pipe, id, t.negLat, t.ent] + [t.pipe, t.joint] == [t.pipe, id, t.negLat, t.ent, t.pipe, t.joint];
    hide Spelling;
    assert ("|" + (text + ("-lat" + "ent"))) + ("-vis" + ("|" + "><")) == "|" + text + "-latent-vis|><";
    assert ("|" + (text + ("-lat" + "ent"))) + ("|" + "><") == "|" + text + "-latent|><";
  }

  lemma KeywordSpelled(t: SubTokens)
    requires t.Distinct()
    ensures Spelled(t, [t.pipe, t.latent, t.vis, t.pipe, t.joint]) == "|latent-vis|><"
    ensures Spelled(t, [t.pipe, t.latent, t.pipe, t.joint]) == "|latent|><"
  {
    hide Spelled;
    SpelledFour(t, t.pipe, t.latent, t.pipe, t.joint);
    SpelledFour(t, t.latent, t.vis, t.pipe, t.joint);
    SpelledFirst(t, t.pipe, [t.latent, t.vis, t.pipe, t.joint]);
    assert [t.pipe] + [t.latent, t.vis, t.pipe, t.joint] == [t.pipe, t.latent, t.vis, t.pipe, t.joint];
    hide Spelling;
    assert "|" + ("latent" + ("-vis" + ("|" + "><"))) == "|latent-vis|><";
    assert "|" + ("latent" + ("|" + "><")) == "|latent|><";
  }

  lemma {:induction false} RepeatSpelled(t: SubTokens, unit: seq<int>, n: nat)
    ensures Spelled(t, Repeat(unit, n)) == Times(Spelled(t, unit), n)
  {
    if n > 0 {
      SpelledConcat(t, unit, Repeat(unit, n - 1));
      RepeatSpelled(t, unit, n - 1);
    }
  }

  /** Moving the shared `<` from the end of each marker to the front of the next. */
  lemma {:induction false} Rotate(c: string, text: string, n: nat)
    ensures c + Times(text + c, n) == Times(c + text, n) + c
  {
    if n > 0 {
      Rotate(c, text, n - 1);
      assert c + ((text + c) + Times(text + c, n - 1)) == (c + text) + (c + Times(text + c, n - 1));
      Assoc(c + text, Times(c + text, n - 1), c);
    }
  }

  /** The prefix without visual markers is the text built for it, up to the `<` of `<answer>`. */
  lemma TextOnlySpelled(t: SubTokens, nt: nat)
    requires t.Distinct()
    ensures Spelled(t, TextOnlyBlock(t, nt)) ==
            "<|start-latent|>" + (Times("<|latent|>", nt) + "<|end-latent|><")
  {
    hide Repeat, Spelled, TextOnlyBlock;
    var unit := [t.pipe, t.latent, t.pipe, t.joint];
    MarkersSpelled(t);
    TextOnlyBlockIs(t, nt);
    RepeatSpelled(t, unit, nt);
    TextSpelled(t, [t.open], nt);
    assert "<" + "|start-latent|>" == "<|start-latent|>";
  }

  /** The text markers behind anything. */
  lemma TextSpelled(t: SubTokens, front: seq<int>, nt: nat)
    requires t.Distinct()
    ensures Spelled(t, front + [t.pipe, t.start, t.negLat, t.ent, t.pipe, t.joint]
                       + Repeat([t.pipe, t.latent, t.pipe, t.joint], nt)
                       + [t.pipe, t.end, t.negLat, t.ent, t.pipe, t.joint]) ==
            Spelled(t, front) + "|start-latent|>" + (Times("<|latent|>", nt) + "<|end-latent|><")
  {
    hide Repeat, Spelled, Times;
    var start, unit, end := [t.pipe, t.start, t.negLat, t.ent, t.pipe, t.joint], [t.pipe, t.latent, t.pipe, t.joint],
                            [t.pipe, t.end, t.negLat, t.ent, t.pipe, t.joint];
    MarkersSpelled(t);
    SpelledConcat(t, front + start + Repeat(unit, nt), end);
    SpelledConcat(t, front + start, Repeat(unit, nt));
    SpelledConcat(t, front, start);
    RepeatSpelled(t, unit, nt);
    Rotate("<", "|latent|>", nt);
    assert "|latent|>" + "<" == "|latent|><" && "<" + "|latent|>" == "<|latent|>";
    Shared(Spelled(t, front), "|start-latent|>", "<", Times("|latent|><", nt), Times("<|latent|>", nt), "|end-latent|><");
    assert "|start-latent|>" + "<" == "|start-latent|><" && "<" + "|end-latent|><" == "<|end-latent|><";
  }

  lemma Shared(front: string, a: string, c: string, rotated: string, times: string, z: string)
    requires c + rotated == times + c
    ensures front + (a + c) + rotated + z == front + a + (times + (c + z))
  {
    assert front + (a + c) + rotated + z == (front + a) + (c + rotated) + z;
  }

  /** The sub-tokens of the block spell the text built for it, up to the `<` of `<answer>`; they are
      cut so that `><` between two markers is one sub-token. */
  lemma BlockSpelled(t: SubTokens, nv: nat, nt: nat)
    requires t.Distinct()
    ensures Spelled(t, LatentBlock(t, nv, nt)) ==
            "<|start-latent-vis|>" + (Times("<|latent-vis|>", nv) + "<|end-latent-vis|><") + "|start-latent|>"
            + (Times("<|latent|>", nt) + "<|end-latent|><")
    ensures t.close !in LatentBlock(t, nv, nt)
    ensures forall i | 0 <= i < |LatentBlock(t, nv, nt)| :: LatentBlock(t, nv, nt)[i] == t.open <==> i == 0
  {
    NoLoose(t, nv, nt);
    hide Repeat, Spelled, Times, LatentBlock;
    BlockCut(t, nv, nt);
    TextSpelled(t, VisualMarkers(t, nv), nt);
    VisualSpelled(t, nv);
  }

  function VisualMarkers(t: SubTokens, nv: nat): seq<int> {
    [t.open] + [t.pipe, t.start, t.negLat, t.ent, t.vis, t.pipe, t.joint]
    + Repeat([t.pipe, t.latent, t.vis, t.pipe, t.joint], nv)
    + [t.pipe, t.end, t.negLat, t.ent, t.vis, t.pipe, t.joint]
  }

  lemma VisualSpelled(t: SubTokens, nv: nat)
    requires t.Distinct()
    ensures Spelled(t, VisualMarkers(t, nv)) ==
            "<|start-latent-vis|>" + (Times("<|latent-vis|>", nv) + "<|end-latent-vis|><")
  {
    hide Repeat, Spelled, Times;
    var start, unit, end := [t.pipe, t.start, t.negLat, t.ent, t.vis, t.pipe, t.joint],
                            [t.pipe, t.latent, t.vis, t.pipe, t.joint], [t.pipe, t.end, t.negLat, t.ent, t.vis, t.pipe, t.joint];
    MarkersSpelled(t);
    SpelledConcat(t, [t.open] + start + Repeat(unit, nv), end);
    SpelledConcat(t, [t.open] + start, Repeat(unit, nv));
    SpelledConcat(t, [t.open], start);
    RepeatSpelled(t, unit, nv);
    Rotate("<", "|latent-vis|>", nv);
    VisualTexts();
    Shared("<", "|start-latent-vis|>", "<", Times("|latent-vis|><", nv), Times("<|latent-vis|>", nv), "|end-latent-vis|><");
  }

  lemma VisualTexts()
    ensures "|latent-vis|>" + "<" == "|latent-vis|><" && "<" + "|latent-vis|>" == "<|latent-vis|>"
    ensures "|start-latent-vis|>" + "<" == "|start-latent-vis|><" && "<" + "|end-latent-vis|><" == "<|end-latent-vis|><"
    ensures "<" + "|start-latent-vis|>" == "<|start-latent-vis|>"
  {
  }

  lemma BlockCut(t: SubTokens, nv: nat, nt: nat)
    ensures LatentBlock(t, nv, nt) ==
            VisualMarkers(t, nv)
            + [t.pipe, t.start, t.negLat, t.ent, t.pipe, t.joint]
            + Repeat([t.pipe, t.latent, t.pipe, t.joint], nt)
            + [t.pipe, t.end, t.negLat, t.ent, t.pipe, t.joint]
  {
    hide Repeat;
  }

  lemma NoLoose(t: SubTokens, nv: nat, nt: nat)
    requires t.Distinct()
    ensures t.close !in LatentBlock(t, nv, nt)
    ensures forall i | 0 <= i < |LatentBlock(t, nv, nt)| :: LatentBlock(t, nv, nt)[i] == t.open <==> i == 0
  {
    hide LatentBlock, TokenAt;
    BlockEnds(t, nv, nt);
    forall i | 0 <= i < |LatentBlock(t, nv, nt)|
      ensures LatentBlock(t, nv, nt)[i] != t.close && (LatentBlock(t, nv, nt)[i] == t.open <==> i == 0)
    {
      BlockAt(t, nv, nt, i);
      NoLooseAt(t, nv, nt, i);
    }
  }

  lemma NoLooseAt(t: SubTokens, nv: nat, nt: nat, i: nat)
    requires t.Distinct() && i < BlockLength(nv, nt)
    ensures TokenAt(t, nv, nt, i) != t.close && (TokenAt(t, nv, nt, i) == t.open <==> i == 0)
  {
  }
}
