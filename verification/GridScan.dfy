/** What parsing finds in any text: the leftmost blocks, the first dimensions, the leftmost codes. */
module GridScan {
  import opened Options
  import opened Scan
  import opened Sequences
  import opened Numerals
  import opened GridCodec

  // ---- blocks ---------------------------------------------------------------------------

  /** A block begins at i and ends before e: its closing delimiter is the first behind the opening one. */
  ghost predicate BlockAt(s: string, i: int, e: int) {
    && OccursAt(s, IMAGE_START, i)
    && i + |IMAGE_START| <= e - |IMAGE_END| && OccursAt(s, IMAGE_END, e - |IMAGE_END|)
    && forall j | i + |IMAGE_START| <= j < e - |IMAGE_END| :: !OccursAt(s, IMAGE_END, j)
  }

  ghost function IsBlock(s: string): (int, int) -> bool {
    (i, e) => BlockAt(s, i, e)
  }

  /** In every text the blocks found are the insides of the leftmost blocks, in order. */
  lemma {:induction false} FutureBlocksAre(s: string, p: nat) returns (hits: seq<(int, int)>)
    requires p <= |s|
    ensures Leftmost(hits, IsBlock(s), p)
    ensures |FutureBlocks(s[p..])| == |hits|
    ensures forall k | 0 <= k < |hits| ::
              && 0 <= hits[k].0 + |IMAGE_START| <= hits[k].1 - |IMAGE_END| <= |s|
              && FutureBlocks(s[p..])[k] == s[hits[k].0 + |IMAGE_START|..hits[k].1 - |IMAGE_END|]
    decreases |s| - p
  {
    hide Leftmost, BlockAt, FutureBlocks;
    if p == |s| {
      hits := [];
      NoBlockBehind(s);
    } else {
      var end := BlockHere(s, p);
      if end != -1 {
        var rest := FutureBlocksAre(s, end);
        LeftmostTake(rest, IsBlock(s), p, end);
        hits := [(p, end)] + rest;
      } else {
        hits := FutureBlocksAre(s, p + 1);
        LeftmostSkip(hits, IsBlock(s), p);
      }
    }
  }

  lemma NoBlockBehind(s: string)
    ensures Leftmost([], IsBlock(s), |s|) && FutureBlocks(s[|s|..]) == []
  {
  }

  /** What the scan does at one position, and where a block there ends; -1 if there is none. */
  lemma BlockHere(s: string, p: nat) returns (end: int)
    requires p < |s|
    ensures end == -1 ==> FutureBlocks(s[p..]) == FutureBlocks(s[p + 1..]) && forall e :: !BlockAt(s, p, e)
    ensures end != -1 ==>
              && p + |IMAGE_START| <= end - |IMAGE_END| && end <= |s| && BlockAt(s, p, end)
              && FutureBlocks(s[p..]) == [s[p + |IMAGE_START|..end - |IMAGE_END|]] + FutureBlocks(s[end..])
  {
    hide BlockAt, FutureBlocks, BlockEnd;
    var t := s[p..];
    FutureBlocksFirst(t);
    RestSlice(s, p, 1, 1);
    var e := BlockEnd(t);
    if e != -1 {
      end := p + e + |IMAGE_END|;
      BlockTaken(s, p);
      RestSlice(s, p, |IMAGE_START|, e);
      RestSlice(s, p, e, e + |IMAGE_END|);
    } else {
      end := -1;
      BlockMissing(s, p);
    }
  }

  lemma BlockTaken(s: string, p: nat)
    requires p < |s| && BlockEnd(s[p..]) != -1
    ensures BlockAt(s, p, p + BlockEnd(s[p..]) + |IMAGE_END|)
  {
    hide Find, OccursAt;
    InRest(s, p, IMAGE_START, 0);
    Front(s[p..], IMAGE_START);
    FindInRest(s, p, IMAGE_END, |IMAGE_START|);
  }

  lemma BlockMissing(s: string, p: nat)
    requires p < |s| && BlockEnd(s[p..]) == -1
    ensures forall e :: !BlockAt(s, p, e)
  {
    hide Find, OccursAt;
    InRest(s, p, IMAGE_START, 0);
    Front(s[p..], IMAGE_START);
    FindInRest(s, p, IMAGE_END, |IMAGE_START|);
  }

  lemma FutureBlocksFirst(t: string)
    requires t != ""
    ensures var e := BlockEnd(t);
            FutureBlocks(t) ==
            if e == -1 then FutureBlocks(t[1..]) else [t[|IMAGE_START|..e]] + FutureBlocks(t[e + |IMAGE_END|..])
  {
    hide BlockEnd;
  }

  // ---- codes ----------------------------------------------------------------------------

  /** A code token with exactly these six digits stands at i. */
  ghost predicate TokenAt(s: string, i: int, digits: string) {
    |digits| == 6 && AllDigits(digits) && OccursAt(s, "<|visual token " + digits + "|>", i)
  }

  ghost predicate CodeAt(s: string, i: int, code: int) {
    exists digits :: TokenAt(s, i, digits) && Value(digits) == code
  }

  ghost function IsCode(s: string): (int, int) -> bool {
    (i, e) => e == i + 23 && exists code :: CodeAt(s, i, code)
  }

  /** In every text the codes found are the values of the leftmost code tokens, in order. */
  lemma {:induction false} CodesInAre(s: string, p: nat) returns (hits: seq<(int, int)>)
    requires p <= |s|
    ensures Leftmost(hits, IsCode(s), p)
    ensures |CodesIn(s[p..])| == |hits|
    ensures forall k | 0 <= k < |hits| :: CodeAt(s, hits[k].0, CodesIn(s[p..])[k])
    decreases |s| - p
  {
    hide Leftmost, CodeAt, CodesIn, CodeAtFront;
    if p == |s| {
      hits := [];
      NoCodeBehind(s);
    } else {
      CodeHere(s, p);
      if CodeAtFront(s[p..]) {
        var rest := CodesInAre(s, p + 23);
        assert IsCode(s)(p, p + 23);
        LeftmostTake(rest, IsCode(s), p, p + 23);
        hits := [(p, p + 23)] + rest;
      } else {
        hits := CodesInAre(s, p + 1);
        LeftmostSkip(hits, IsCode(s), p);
      }
    }
  }

  lemma NoCodeBehind(s: string)
    ensures Leftmost([], IsCode(s), |s|) && CodesIn(s[|s|..]) == []
  {
    hide CodeAt;
    forall i, code | |s| <= i
      ensures !CodeAt(s, i, code)
    {
      if CodeAt(s, i, code) {
        CodeInside(s, i, code);
      }
    }
  }

  lemma CodeInside(s: string, i: int, code: int)
    requires CodeAt(s, i, code)
    ensures 0 <= i < |s|
  {
    hide Value;
    var digits :| TokenAt(s, i, digits) && Value(digits) == code;
    Occurring(s, "<|visual token " + digits + "|>", i);
  }

  lemma CodeHere(s: string, p: nat)
    requires p < |s|
    ensures CodeAtFront(s[p..]) ==>
              && p + 23 <= |s| && CodesIn(s[p..]) != [] && CodesIn(s[p..])[1..] == CodesIn(s[p + 23..])
              && CodeAt(s, p, CodesIn(s[p..])[0])
    ensures !CodeAtFront(s[p..]) ==>
              CodesIn(s[p..]) == CodesIn(s[p + 1..]) && forall code :: !CodeAt(s, p, code)
  {
    hide Value, TokenAt;
    var t := s[p..];
    assert t[1..] == s[p + 1..];
    if CodeAtFront(t) {
      CodeFound(s, p);
    } else {
      forall digits
        ensures !TokenAt(s, p, digits)
      {
        if TokenAt(s, p, digits) {
          CodeTaken(s, p, digits);
        }
      }
    }
  }

  lemma CodeFound(s: string, p: nat)
    requires p < |s| && CodeAtFront(s[p..])
    ensures p + 23 <= |s| && TokenAt(s, p, s[p + 15..p + 21])
    ensures CodesIn(s[p..]) == [Value(s[p + 15..p + 21])] + CodesIn(s[p + 23..])
  {
    hide Value;
    var t := s[p..];
    var u := t[15..];
    assert |CODE_OPEN| == 15;
    assert t[23..] == s[p + 23..] && u[..6] == s[p + 15..p + 21];
    assert forall i | 0 <= i < 6 :: u[..6][i] == u[..DigitRun(u)][i];
    assert s[p..p + 23] == t[..15] + u[..6] + t[21..23];
  }

  lemma CodeTaken(s: string, p: nat, digits: string)
    requires p < |s| && TokenAt(s, p, digits)
    ensures CodeAtFront(s[p..])
  {
    var t, token := s[p..], CODE_OPEN + digits + CODE_CLOSE;
    assert |CODE_OPEN| == 15 && t[..23] == token;
    var u := t[15..];
    assert u == digits + (CODE_CLOSE + t[23..]) by {
      assert t == token + t[23..];
    }
    DigitRunEnds(digits, CODE_CLOSE + t[23..]);
    assert t[21..23] == token[21..23] == CODE_CLOSE;
    assert t[..15] == token[..15] == CODE_OPEN;
  }

  // ---- dimensions -----------------------------------------------------------------------

  /** `start\s*(\d+)\*(\d+)` matches at i, the second number being read to its end. */
  ghost predicate DimensionsAt(s: string, i: int, space: string, a: string, b: string) {
    var text := IMAGE_START + space + a + "*" + b;
    && (forall k | 0 <= k < |space| :: space[k] as int in {9, 10, 11, 12, 13, 28, 29, 30, 31, 32})
    && a != "" && AllDigits(a) && b != "" && AllDigits(b)
    && OccursAt(s, text, i) && (i + |text| < |s| ==> !IsDigit(s[i + |text|]))
  }

  /** The dimensions are those of the leftmost match, as numbers; there are none exactly when there
      is no match. */
  lemma {:induction false} SearchDimensionsIs(s: string, p: nat)
    requires p <= |s|
    ensures SearchDimensions(s[p..]).Some? ==>
              exists i, space, a, b | p <= i && DimensionsAt(s, i, space, a, b) ::
                && SearchDimensions(s[p..]) == Some((Value(a), Value(b)))
                && forall k, space', a', b' | p <= k < i :: !DimensionsAt(s, k, space', a', b')
    ensures SearchDimensions(s[p..]).None? ==> forall i, space, a, b | p <= i :: !DimensionsAt(s, i, space, a, b)
    decreases |s| - p
  {
    hide DimensionsHere, DimensionsAt, Value;
    if p == |s| {
      NoDimensionsBehind(s);
    } else {
      assert s[p..][1..] == s[p + 1..];
      DimensionsHereIs(s, p);
      SearchDimensionsIs(s, p + 1);
    }
  }

  lemma NoDimensionsBehind(s: string)
    ensures forall i, space, a, b | |s| <= i :: !DimensionsAt(s, i, space, a, b)
  {
  }

  lemma DimensionsHereIs(s: string, p: nat)
    requires p <= |s|
    ensures DimensionsHere(s[p..]).Some? ==>
              exists space, a, b :: DimensionsAt(s, p, space, a, b) && DimensionsHere(s[p..]) == Some((Value(a), Value(b)))
    ensures DimensionsHere(s[p..]).None? ==> forall space, a, b :: !DimensionsAt(s, p, space, a, b)
  {
    hide DimensionsAt, Value, DimensionsHere;
    if DimensionsHere(s[p..]).Some? {
      var space, a, b := FoundDimensions(s, p);
    }
    forall space, a, b | DimensionsAt(s, p, space, a, b)
      ensures DimensionsHere(s[p..]).Some?
    {
      TakenDimensions(s, p, space, a, b);
    }
  }

  lemma {:induction false} SpaceSkipped(s: string) returns (space: string)
    ensures s == space + SkipSpace(s) && forall k | 0 <= k < |space| :: IsSpace(space[k])
  {
    if s != "" && IsSpace(s[0]) {
      var more := SpaceSkipped(s[1..]);
      space := [s[0]] + more;
      assert s == [s[0]] + s[1..];
    } else {
      space := "";
    }
  }

  lemma {:induction false} SpaceTaken(space: string, rest: string)
    requires forall k | 0 <= k < |space| :: IsSpace(space[k])
    requires rest != "" && !IsSpace(rest[0])
    ensures SkipSpace(space + rest) == rest
  {
    if space == "" {
      assert space + rest == rest;
    } else {
      assert (space + rest)[1..] == space[1..] + rest;
      SpaceTaken(space[1..], rest);
    }
  }

  lemma SpaceChars(space: string)
    ensures (forall k | 0 <= k < |space| :: IsSpace(space[k])) <==>
            forall k | 0 <= k < |space| :: space[k] as int in {9, 10, 11, 12, 13, 28, 29, 30, 31, 32}
  {
    forall k | 0 <= k < |space|
      ensures IsSpace(space[k]) <==> space[k] as int in {9, 10, 11, 12, 13, 28, 29, 30, 31, 32}
    {
      IsSpaceIs(space[k]);
    }
  }

  lemma IsSpaceIs(c: char)
    ensures IsSpace(c) <==> c as int in {9, 10, 11, 12, 13, 28, 29, 30, 31, 32}
  {
  }

  lemma FoundDimensions(s: string, p: nat) returns (space: string, a: string, b: string)
    requires p <= |s| && DimensionsHere(s[p..]).Some?
    ensures DimensionsAt(s, p, space, a, b) && DimensionsHere(s[p..]) == Some((Value(a), Value(b)))
  {
    hide Value, SkipSpace;
    var t := s[p..];
    var u := t[|IMAGE_START|..];
    space := SpaceSkipped(u);
    var v := SkipSpace(u);
    var rest;
    a, b, rest := DimensionParts(v);
    Reassemble(t, IMAGE_START, space, a, b, rest);
    SpaceChars(space);
    var text := IMAGE_START + space + a + "*" + b;
    assert s[p..p + |text|] == t[..|text|];
    assert p + |text| < |s| ==> s[p + |text|] == rest[0];
  }

  lemma DimensionParts(v: string) returns (a: string, b: string, rest: string)
    requires Dimensions(v).Some?
    ensures a != "" && AllDigits(a) && b != "" && AllDigits(b) && (rest != "" ==> !IsDigit(rest[0]))
    ensures v == a + ("*" + (b + rest)) && Dimensions(v) == Some((Value(a), Value(b)))
  {
    hide Value;
    var m := DigitRun(v);
    var t := v[m + 1..];
    var n := DigitRun(t);
    a, b, rest := v[..m], t[..n], t[n..];
    assert t == b + rest;
    assert v == a + ("*" + t);
  }

  lemma Reassemble(t: string, start: string, space: string, a: string, b: string, rest: string)
    requires start <= t && t[|start|..] == space + (a + ("*" + (b + rest)))
    ensures var text := start + space + a + "*" + b;
            |text| <= |t| && t[..|text|] == text && t[|text|..] == rest
  {
    assert t == start + t[|start|..];
    assert t == (start + space + a + "*" + b) + rest;
  }

  lemma TakenDimensions(s: string, p: nat, space: string, a: string, b: string)
    requires p <= |s| && DimensionsAt(s, p, space, a, b)
    ensures DimensionsHere(s[p..]).Some?
  {
    hide Value;
    var t := s[p..];
    var text := IMAGE_START + space + a + "*" + b;
    var rest := t[|text|..];
    assert t[..|text|] == text;
    assert t == text + rest;
    var v := a + ("*" + (b + rest));
    assert t[|IMAGE_START|..] == space + v;
    assert IMAGE_START <= t;
    assert v[0] == a[0] && IsDigit(a[0]);
    SpaceChars(space);
    SpaceTaken(space, v);
    DigitRunEnds(a, "*" + (b + rest));
    assert v[|a|] == '*' && v[|a| + 1..] == b + rest;
    DigitRunEnds(b, rest);
  }

  // ---- one block, all blocks ------------------------------------------------------------

  lemma ReshapeNext(ids: seq<int>, h: nat, w: nat)
    requires |ids| == h * w && 0 < h
    ensures w <= |ids| && |ids[w..]| == (h - 1) * w
    ensures Reshape(ids, h, w) == [ids[..w]] + Reshape(ids[w..], h - 1, w)
  {
    assert h * w == w + (h - 1) * w;
  }

  lemma {:induction false} FlattenReshape(ids: seq<int>, h: nat, w: nat)
    requires |ids| == h * w
    ensures Flatten(Reshape(ids, h, w)) == ids
    decreases h
  {
    FlattenCons<int>([]);
    if h > 0 {
      hide Reshape, Flatten;
      ReshapeNext(ids, h, w);
      FlattenReshape(ids[w..], h - 1, w);
      var tail := Reshape(ids[w..], h - 1, w);
      assert ([ids[..w]] + tail)[1..] == tail;
      FlattenCons([ids[..w]] + tail);
      assert ids[..w] + ids[w..] == ids;
    }
  }

  /** A block parses exactly when it has dimensions and just as many codes as they ask for; the
      grid then has these dimensions and these codes, row after row. */
  lemma BlockParsed(block: string)
    ensures ParseTokenBlock(block).Some? <==>
            && SearchDimensions(block).Some?
            && |CodesIn(block)| == SearchDimensions(block).value.0 * SearchDimensions(block).value.1
    ensures ParseTokenBlock(block).Some? ==>
              var g := ParseTokenBlock(block).value;
              && Rectangular(g) && (|g.rows|, g.w) == SearchDimensions(block).value
              && Flatten(g.rows) == CodesIn(block)
  {
    hide SearchDimensions, CodesIn;
    var dims, ids := SearchDimensions(block), CodesIn(block);
    if dims.Some? && |ids| == dims.value.0 * dims.value.1 {
      FlattenReshape(ids, dims.value.0, dims.value.1);
    }
  }

  /** The blocks parse one by one, each in its delimiters; one that does not fails all. */
  lemma {:induction false} AllParsed(blocks: seq<string>)
    ensures ParseAll(blocks).Some? <==>
            forall i | 0 <= i < |blocks| :: ParseTokenBlock("<|image start|>" + blocks[i] + "<|image end|>").Some?
    ensures ParseAll(blocks).Some? ==>
              && |ParseAll(blocks).value| == |blocks|
              && forall i | 0 <= i < |blocks| ::
                   Some(ParseAll(blocks).value[i]) == ParseTokenBlock("<|image start|>" + blocks[i] + "<|image end|>")
  {
    hide ParseTokenBlock;
    if blocks != [] {
      AllParsed(blocks[1..]);
      assert forall i | 0 < i < |blocks| :: blocks[i] == blocks[1..][i - 1];
    }
  }
}
