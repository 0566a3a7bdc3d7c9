/** The token-id path: registered visual tokens, their ids, and grids rebuilt from predicted ids. */
module TokenIds {
  import opened Options
  import opened Scan
  import opened Sequences
  import opened Numerals
  import opened GridCodec
  import opened GridRoundTrip
  import opened GridScan

  const NUM_VISUAL_TOKENS: nat := 131072
  const VIS_TOKEN_START: nat := 151673
  const STRUCTURAL := [IMAGE_START, IMAGE_TOKEN, IMAGE_END, "<|extra_200|>"]

  // ---- registration ---------------------------------------------------------------------

  /** New tokens get consecutive ids from the size of the vocabulary; known ones are skipped. */
  function Added(vocab: map<string, nat>, tokens: seq<string>): map<string, nat> {
    if tokens == [] then vocab
    else
      var v := Added(vocab, tokens[..|tokens| - 1]);
      var t := tokens[|tokens| - 1];
      if t in v then v else v[t := |v|]
  }

  function Missing(tokens: seq<string>, existing: set<string>): seq<string> {
    if tokens == [] then []
    else
      var t := tokens[|tokens| - 1];
      Missing(tokens[..|tokens| - 1], existing) + (if t in existing then [] else [t])
  }

  function VisualTokens(n: nat): seq<string> {
    seq(n, i requires 0 <= i => CodeText(i))
  }

  class Tokenizer {
    var vocab: map<string, nat>

    constructor (vocab: map<string, nat>)
      ensures this.vocab == vocab
    {
      this.vocab := vocab;
    }

    method AddTokens(tokens: seq<string>)
      modifies this
      ensures vocab == Added(old(vocab), tokens)
    {
      for i := 0 to |tokens|
        invariant vocab == Added(old(vocab), tokens[..i])
      {
        assert tokens[..i + 1][..i] == tokens[..i];
        if tokens[i] !in vocab {
          vocab := vocab[tokens[i] := |vocab|];
        }
      }
      assert tokens[..|tokens|] == tokens;
    }

    method AddVisualTokens()
      modifies this
      ensures vocab == Registered(old(vocab))
    {
      var existing := vocab.Keys;
      var structural := Missing(STRUCTURAL, existing);
      if structural != [] {
        AddTokens(structural);
      }
      var newVisual := Missing(VisualTokens(NUM_VISUAL_TOKENS), existing);
      if newVisual != [] {
        AddTokens(newVisual);
      }
    }
  }

  function Registered(vocab: map<string, nat>): map<string, nat> {
    Added(Added(vocab, Missing(STRUCTURAL, vocab.Keys)), Missing(VisualTokens(NUM_VISUAL_TOKENS), vocab.Keys))
  }

  lemma {:induction false} AddedKeeps(vocab: map<string, nat>, tokens: seq<string>)
    ensures forall t | t in vocab :: t in Added(vocab, tokens) && Added(vocab, tokens)[t] == vocab[t]
    ensures forall t | t in tokens :: t in Added(vocab, tokens)
    ensures forall t | t in Added(vocab, tokens) :: t in vocab || t in tokens
  {
    if tokens != [] {
      AddedKeeps(vocab, tokens[..|tokens| - 1]);
      assert tokens == tokens[..|tokens| - 1] + [tokens[|tokens| - 1]];
    }
  }

  lemma {:induction false} MissingMember(tokens: seq<string>, existing: set<string>, t: string)
    ensures t in Missing(tokens, existing) <==> t in tokens && t !in existing
  {
    if tokens != [] {
      var n := |tokens| - 1;
      MissingMember(tokens[..n], existing, t);
      assert tokens == tokens[..n] + [tokens[n]];
    }
  }

  lemma {:induction false} MissingNone(tokens: seq<string>, existing: set<string>)
    requires forall i | 0 <= i < |tokens| :: tokens[i] in existing
    ensures Missing(tokens, existing) == []
  {
    if tokens != [] {
      MissingNone(tokens[..|tokens| - 1], existing);
    }
  }

  lemma {:induction false} MissingAll(tokens: seq<string>, existing: set<string>)
    requires forall i | 0 <= i < |tokens| :: tokens[i] !in existing
    ensures Missing(tokens, existing) == tokens
  {
    if tokens != [] {
      var n := |tokens| - 1;
      MissingAll(tokens[..n], existing);
      assert tokens == tokens[..n] + [tokens[n]];
    }
  }

  /** Registering a second time changes nothing. */
  lemma RegisteringTwice(vocab: map<string, nat>)
    ensures Registered(Registered(vocab)) == Registered(vocab)
    ensures forall t | t in vocab :: t in Registered(vocab) && Registered(vocab)[t] == vocab[t]
  {
    var s, all := Missing(STRUCTURAL, vocab.Keys), VisualTokens(NUM_VISUAL_TOKENS);
    var v := Missing(all, vocab.Keys);
    var once := Registered(vocab);
    hide Added, Missing, VisualTokens;
    AddedKeeps(vocab, s);
    AddedKeeps(Added(vocab, s), v);
    forall i | 0 <= i < |STRUCTURAL|
      ensures STRUCTURAL[i] in once.Keys
    {
      MissingMember(STRUCTURAL, vocab.Keys, STRUCTURAL[i]);
    }
    forall i | 0 <= i < |all|
      ensures all[i] in once.Keys
    {
      MissingMember(all, vocab.Keys, all[i]);
    }
    MissingNone(STRUCTURAL, once.Keys);
    MissingNone(all, once.Keys);
    NoneAdded(once);
  }

  lemma NoneAdded(vocab: map<string, nat>)
    ensures Added(vocab, []) == vocab
  {
  }

  ghost predicate NoRepeats(tokens: seq<string>) {
    forall i, j | 0 <= i < j < |tokens| :: tokens[i] != tokens[j]
  }

  /** Distinct new tokens get the next ids in order. */
  lemma {:induction false} AddedIds(vocab: map<string, nat>, tokens: seq<string>)
    requires NoRepeats(tokens) && forall i | 0 <= i < |tokens| :: tokens[i] !in vocab
    ensures |Added(vocab, tokens)| == |vocab| + |tokens|
    ensures forall i | 0 <= i < |tokens| :: tokens[i] in Added(vocab, tokens) && Added(vocab, tokens)[tokens[i]] == |vocab| + i
  {
    if tokens != [] {
      var n := |tokens| - 1;
      AddedIds(vocab, tokens[..n]);
      AddedKeeps(vocab, tokens[..n]);
      assert forall i | 0 <= i < n :: tokens[..n][i] == tokens[i];
      assert tokens[n] !in tokens[..n];
    }
  }

  /** Different codes print as different tokens, none of them a structural one. */
  lemma CodeTextInjective(a: nat, b: nat)
    requires a < NUM_VISUAL_TOKENS && b < NUM_VISUAL_TOKENS
    ensures CodeText(a) == CodeText(b) ==> a == b
    ensures CodeText(a) !in STRUCTURAL
  {
    SixDigits(a);
    SixDigits(b);
    if CodeText(a) == CodeText(b) {
      assert CodeText(a)[|CODE_OPEN|..|CODE_OPEN| + 6] == Padded(a, 6);
      assert CodeText(b)[|CODE_OPEN|..|CODE_OPEN| + 6] == Padded(b, 6);
    }
    assert CodeText(a)[2] == 'v';
  }

  /** Two lists of distinct new tokens, registered one after the other. */
  lemma RegisteredIds(vocab: map<string, nat>, first: seq<string>, second: seq<string>)
    requires NoRepeats(first) && NoRepeats(second)
    requires forall i | 0 <= i < |first| :: first[i] !in vocab
    requires forall i | 0 <= i < |second| :: second[i] !in vocab && second[i] !in first
    ensures var v := Added(Added(vocab, Missing(first, vocab.Keys)), Missing(second, vocab.Keys));
            && (forall i | 0 <= i < |first| :: first[i] in v && v[first[i]] == |vocab| + i)
            && (forall i | 0 <= i < |second| :: second[i] in v && v[second[i]] == |vocab| + |first| + i)
  {
    hide Added, Missing;
    MissingAll(first, vocab.Keys);
    MissingAll(second, vocab.Keys);
    AddedIds(vocab, first);
    AddedKeeps(vocab, first);
    AddedIds(Added(vocab, first), second);
    AddedKeeps(Added(vocab, first), second);
  }

  lemma VisualTokensDistinct()
    ensures var all := VisualTokens(NUM_VISUAL_TOKENS);
            && |all| == NUM_VISUAL_TOKENS && NoRepeats(all)
            && forall i | 0 <= i < |all| :: all[i] == CodeText(i) && all[i] !in STRUCTURAL
  {
    hide CodeText;
    var all := VisualTokens(NUM_VISUAL_TOKENS);
    forall i | 0 <= i < |all|
      ensures all[i] !in STRUCTURAL && all[i] == CodeText(i)
    {
      CodeTextInjective(i, i);
    }
    forall i, j | 0 <= i < j < |all|
      ensures all[i] != all[j]
    {
      CodeTextInjective(i, j);
    }
  }

  /** In a base vocabulary of 151669 tokens without any of the new ones, code i gets id 151673 + i,
      right behind the four structural tokens. */
  lemma VisualTokenIds(vocab: map<string, nat>, code: nat)
    requires |vocab| == 151669 && code < 131072
    requires forall t | t in STRUCTURAL :: t !in vocab
    requires forall t | t in VisualTokens(131072) :: t !in vocab
    ensures CodeText(code) in Registered(vocab) && Registered(vocab)[CodeText(code)] == 151673 + code
    ensures var v := Registered(vocab);
            && "<|image start|>" in v && v["<|image start|>"] == 151669
            && "<|image token|>" in v && v["<|image token|>"] == 151670
            && "<|image end|>" in v && v["<|image end|>"] == 151671
            && "<|extra_200|>" in v && v["<|extra_200|>"] == 151672
  {
    hide Added, CodeText, Missing, VisualTokens;
    var all := VisualTokens(NUM_VISUAL_TOKENS);
    VisualTokensDistinct();
    StructuralDistinct();
    RegisteredIds(vocab, STRUCTURAL, all);
    assert all[code] == CodeText(code);
    assert STRUCTURAL[0] == "<|image start|>" && STRUCTURAL[1] == "<|image token|>";
    assert STRUCTURAL[2] == "<|image end|>" && STRUCTURAL[3] == "<|extra_200|>";
  }

  /** Every id below the size is given, to one token each. */
  ghost predicate Dense(vocab: map<string, nat>) {
    && (forall t | t in vocab :: vocab[t] < |vocab|)
    && (forall t, u | t in vocab && u in vocab && t != u :: vocab[t] != vocab[u])
  }

  lemma {:induction false} AddedDense(vocab: map<string, nat>, tokens: seq<string>)
    requires Dense(vocab)
    ensures Dense(Added(vocab, tokens))
  {
    if tokens != [] {
      AddedDense(vocab, tokens[..|tokens| - 1]);
    }
  }

  /** Whatever was known before, registration adds just the structural and the visual tokens, and
      no two tokens share an id. */
  lemma RegisteredWhole(vocab: map<string, nat>)
    ensures forall t :: t in Registered(vocab) <==> t in vocab || t in STRUCTURAL || t in VisualTokens(131072)
    ensures Dense(vocab) ==> Dense(Registered(vocab))
  {
    hide Added, VisualTokens, Dense;
    var s, all := Missing(STRUCTURAL, vocab.Keys), VisualTokens(131072);
    var v := Missing(all, vocab.Keys);
    AddedKeeps(vocab, s);
    AddedKeeps(Added(vocab, s), v);
    if Dense(vocab) {
      AddedDense(vocab, s);
      AddedDense(Added(vocab, s), v);
    }
    hide Missing;
    forall t
      ensures t in s <==> t in STRUCTURAL && t !in vocab
      ensures t in v <==> t in all && t !in vocab
    {
      MissingMember(STRUCTURAL, vocab.Keys, t);
      MissingMember(all, vocab.Keys, t);
    }
  }

  lemma StructuralDistinct()
    ensures NoRepeats(STRUCTURAL)
  {
    assert STRUCTURAL[0][8] == 's' && STRUCTURAL[1][8] == 't' && STRUCTURAL[2][8] == 'e' && STRUCTURAL[3][8] == '2';
  }

  // ---- from ids to grids ----------------------------------------------------------------

  function ExtractVisualCodes(ids: seq<int>, start: int, count: int): seq<int> {
    if ids == [] then []
    else (if start <= ids[0] < start + count then [ids[0] - start] else [])
         + ExtractVisualCodes(ids[1..], start, count)
  }

  /** An id in the range gives its distance from the start, any other id gives nothing. */
  lemma ExtractOne(id: int, start: int, count: int)
    ensures ExtractVisualCodes([], start, count) == []
    ensures ExtractVisualCodes([id], start, count) == if start <= id < start + count then [id - start] else []
  {
    assert [id][1..] == [];
  }

  function Zeros(n: nat): seq<int> {
    seq(n, _ => 0)
  }

  /** The code list cut or filled with zeros to exactly n codes. */
  function Fitted(codes: seq<int>, n: nat): (r: seq<int>)
    ensures |r| == n
    ensures forall i | 0 <= i < n :: r[i] == if i < |codes| then codes[i] else 0
  {
    if |codes| < n then codes + Zeros(n - |codes|) else codes[..n]
  }

  function GridsCells(grids: seq<Grid>): seq<int> {
    if grids == [] then [] else GridsCells(grids[..|grids| - 1]) + Flatten(grids[|grids| - 1].rows)
  }

  /** The frames cut from a code list of exactly frames * size codes. */
  function Frames(codes: seq<int>, h: nat, w: nat, frames: nat): seq<Grid>
    requires |codes| == frames * (h * w)
    decreases frames
  {
    if frames == 0 then []
    else
      FrameBounds(h * w, frames);
      var at := (frames - 1) * (h * w);
      Frames(codes[..at], h, w, frames - 1) + [Grid(w, Reshape(codes[at..], h, w))]
  }

  lemma FrameBounds(size: nat, frames: nat)
    requires 1 <= frames
    ensures frames * size == (frames - 1) * size + size
    ensures 0 <= (frames - 1) * size
  {
  }

  lemma {:induction false} FramesHold(codes: seq<int>, h: nat, w: nat, frames: nat)
    requires |codes| == frames * (h * w)
    ensures var grids := Frames(codes, h, w, frames);
            && |grids| == frames
            && (forall i | 0 <= i < frames :: Rectangular(grids[i]) && |grids[i].rows| == h && grids[i].w == w)
            && GridsCells(grids) == codes
  {
    hide Reshape, Flatten;
    if frames > 0 {
      FrameBounds(h * w, frames);
      var at := (frames - 1) * (h * w);
      FramesHold(codes[..at], h, w, frames - 1);
      FlattenReshape(codes[at..], h, w);
      var before := Frames(codes[..at], h, w, frames - 1);
      var last := Grid(w, Reshape(codes[at..], h, w));
      assert Frames(codes, h, w, frames) == before + [last];
      assert (before + [last])[..frames - 1] == before;
      assert codes[..at] + codes[at..] == codes;
    }
  }

  lemma ProductMonotone(i: nat, j: nat, size: nat)
    requires i <= j
    ensures 0 <= i * size <= j * size
  {
  }

  /** Whatever codes were predicted, the result is `frames` grids of the given shape that hold
      them in order, zero-filled or cut. */
  method CodesToGrids(predicted: seq<int>, h: nat, w: nat, frames: nat) returns (grids: seq<Grid>)
    ensures |grids| == frames
    ensures forall i | 0 <= i < frames :: Rectangular(grids[i]) && |grids[i].rows| == h && grids[i].w == w
    ensures GridsCells(grids) == Fitted(predicted, frames * (h * w))
    ensures grids == Frames(Fitted(predicted, frames * (h * w)), h, w, frames)
  {
    hide Reshape, Flatten, GridsCells;
    var expected := frames * (h * w);
    var codes := predicted;
    if |codes| < expected {
      codes := codes + Zeros(expected - |codes|);
    }
    codes := codes[..expected];
    assert codes == Fitted(predicted, expected);
    grids := [];
    for i := 0 to frames
      invariant 0 <= i * (h * w) <= expected
      invariant grids == Frames(codes[..i * (h * w)], h, w, i)
    {
      ProductMonotone(i + 1, frames, h * w);
      FrameBounds(h * w, i + 1);
      var from, to := i * (h * w), (i + 1) * (h * w);
      assert codes[..to][..from] == codes[..from] && codes[..to][from..] == codes[from..to];
      grids := grids + [Grid(w, Reshape(codes[from..to], h, w))];
    }
    assert codes[..frames * (h * w)] == codes;
    FramesHold(codes, h, w, frames);
  }

  // ---- a printed grid as ids ------------------------------------------------------------

  /** A registered token, or ordinary text between two of them. */
  datatype Piece = Special(token: string) | Plain(text: string)

  function CodePieces(codes: seq<int>): seq<Piece> {
    if codes == [] then [] else [Special(CodeText(codes[0]))] + CodePieces(codes[1..])
  }

  function RowPieces(rows: seq<seq<int>>): seq<Piece> {
    if rows == [] then []
    else CodePieces(rows[0]) + ([Special("<|extra_200|>"), Plain("\n")] + RowPieces(rows[1..]))
  }

  function GridPieces(g: Grid): seq<Piece> {
    [Special(IMAGE_START)]
    + ([Plain(Decimal(|g.rows|) + "*" + Decimal(g.w))]
       + ([Special(IMAGE_TOKEN)] + (RowPieces(g.rows) + [Special(IMAGE_END)])))
  }

  /** Blocks joined by line breaks. */
  function AllPieces(grids: seq<Grid>): seq<Piece> {
    if grids == [] then []
    else if |grids| == 1 then GridPieces(grids[0])
    else GridPieces(grids[0]) + ([Plain("\n")] + AllPieces(grids[1..]))
  }

  function PiecesText(pieces: seq<Piece>): string {
    if pieces == [] then ""
    else (if pieces[0].Special? then pieces[0].token else pieces[0].text) + PiecesText(pieces[1..])
  }

  lemma {:induction false} PiecesTextConcat(a: seq<Piece>, b: seq<Piece>)
    ensures PiecesText(a + b) == PiecesText(a) + PiecesText(b)
  {
    if a == [] {
      assert a + b == b;
    } else {
      assert (a + b)[1..] == a[1..] + b;
      PiecesTextConcat(a[1..], b);
    }
  }

  lemma {:induction false} CodePiecesText(codes: seq<int>)
    ensures PiecesText(CodePieces(codes)) == CodesText(codes)
  {
    hide CodeText;
    if codes != [] {
      CodePiecesText(codes[1..]);
    }
  }

  lemma {:induction false} RowPiecesText(rows: seq<seq<int>>)
    ensures PiecesText(RowPieces(rows)) == RowsText(rows)
  {
    if rows != [] {
      var row, close, tail := CodePieces(rows[0]), [Special("<|extra_200|>"), Plain("\n")], RowPieces(rows[1..]);
      RowPiecesText(rows[1..]);
      CodePiecesText(rows[0]);
      PiecesTextConcat(row, close + tail);
      PiecesTextConcat(close, tail);
      ClosingText();
    }
  }

  lemma ClosingText()
    ensures PiecesText([Special("<|extra_200|>"), Plain("\n")]) == ROW_END
  {
    assert PiecesText([Plain("\n")]) == "\n" + PiecesText([]);
    assert [Special("<|extra_200|>"), Plain("\n")][1..] == [Plain("\n")];
  }

  lemma One(p: Piece)
    ensures PiecesText([p]) == if p.Special? then p.token else p.text
  {
    assert [p][1..] == [];
  }

  lemma GridTextNested(g: Grid)
    ensures GridText(g) == IMAGE_START + (Decimal(|g.rows|) + "*" + Decimal(g.w)
                                          + (IMAGE_TOKEN + (RowsText(g.rows) + IMAGE_END)))
  {
    Regroup(IMAGE_START, Decimal(|g.rows|), "*", Decimal(g.w), IMAGE_TOKEN, RowsText(g.rows), IMAGE_END);
  }

  lemma Regroup(a: string, b: string, c: string, d: string, e: string, f: string, g: string)
    ensures a + (b + (c + (d + e)) + f) + g == a + (b + c + d + (e + (f + g)))
  {
  }

  lemma GridPiecesText(g: Grid)
    ensures PiecesText(GridPieces(g)) == GridText(g)
  {
    hide Decimal, PiecesText, RowPieces, RowsText, GridText;
    var numbers := Plain(Decimal(|g.rows|) + "*" + Decimal(g.w));
    var rows := RowPieces(g.rows) + [Special(IMAGE_END)];
    PiecesTextConcat([Special(IMAGE_START)], [numbers] + ([Special(IMAGE_TOKEN)] + rows));
    PiecesTextConcat([numbers], [Special(IMAGE_TOKEN)] + rows);
    PiecesTextConcat([Special(IMAGE_TOKEN)], rows);
    PiecesTextConcat(RowPieces(g.rows), [Special(IMAGE_END)]);
    One(Special(IMAGE_START));
    One(numbers);
    One(Special(IMAGE_TOKEN));
    One(Special(IMAGE_END));
    RowPiecesText(g.rows);
    GridTextNested(g);
  }

  /** The pieces are the printed text, cut at the registered tokens. */
  lemma {:induction false} AllPiecesText(grids: seq<Grid>)
    ensures PiecesText(AllPieces(grids)) == Join(GridTexts(grids), "\n")
  {
    hide GridPieces, GridText;
    if grids != [] {
      GridPiecesText(grids[0]);
      if |grids| > 1 {
        AllPiecesText(grids[1..]);
        PiecesTextConcat(GridPieces(grids[0]), [Plain("\n")] + AllPieces(grids[1..]));
        PiecesTextConcat([Plain("\n")], AllPieces(grids[1..]));
        One(Plain("\n"));
        assert GridTexts(grids)[1..] == GridTexts(grids[1..]);
      }
    }
  }

  /** Registered tokens become their own id; ordinary text becomes whatever ids it has. */
  function Encode(vocab: map<string, nat>, plain: string -> seq<int>, pieces: seq<Piece>): seq<int>
    requires forall p | p in pieces && p.Special? :: p.token in vocab
  {
    if pieces == [] then []
    else (if pieces[0].Special? then [vocab[pieces[0].token]] else plain(pieces[0].text))
         + Encode(vocab, plain, pieces[1..])
  }

  lemma EncodeOne(vocab: map<string, nat>, plain: string -> seq<int>, text: string)
    ensures Encode(vocab, plain, [Plain(text)]) == plain(text)
    ensures text in vocab ==> Encode(vocab, plain, [Special(text)]) == [vocab[text]]
  {
    assert [Plain(text)][1..] == [] && [Special(text)][1..] == [];
    assert forall ids: seq<int> :: ids + [] == ids;
  }

  // ---- both paths agree -----------------------------------------------------------------

  predicate IsVisualId(id: int) {
    VIS_TOKEN_START <= id < VIS_TOKEN_START + NUM_VISUAL_TOKENS
  }

  /** The ids that registration on the base vocabulary leads to, see VisualTokenIds. */
  ghost predicate Ready(vocab: map<string, nat>) {
    && (forall t | t in STRUCTURAL :: t in vocab && !IsVisualId(vocab[t]))
    && (forall code: nat | code < NUM_VISUAL_TOKENS ::
          CodeText(code) in vocab && vocab[CodeText(code)] == VIS_TOKEN_START + code)
  }

  lemma RegisteredIsReady(vocab: map<string, nat>)
    requires |vocab| == 151669
    requires forall t | t in STRUCTURAL :: t !in vocab
    requires forall t | t in VisualTokens(131072) :: t !in vocab
    ensures Ready(Registered(vocab))
  {
    hide Registered, VisualTokens, CodeText;
    VisualTokenIds(vocab, 0);
    forall code: nat | code < NUM_VISUAL_TOKENS
      ensures CodeText(code) in Registered(vocab) && Registered(vocab)[CodeText(code)] == VIS_TOKEN_START + code
    {
      VisualTokenIds(vocab, code);
    }
  }

  /** Ordinary text never encodes to a visual id. */
  ghost predicate Ordinary(plain: string -> seq<int>) {
    forall t, i | 0 <= i < |plain(t)| :: !IsVisualId(plain(t)[i])
  }

  ghost predicate Codes(codes: seq<int>) {
    forall i | 0 <= i < |codes| :: 0 <= codes[i] < NUM_VISUAL_TOKENS
  }

  /** Every registered token among the pieces is in the vocabulary. */
  ghost predicate Known(vocab: map<string, nat>, pieces: seq<Piece>) {
    forall p | p in pieces && p.Special? :: p.token in vocab
  }

  /** The visual codes among the ids of the pieces. */
  ghost function Seen(vocab: map<string, nat>, plain: string -> seq<int>, pieces: seq<Piece>): seq<int>
    requires Known(vocab, pieces)
  {
    ExtractVisualCodes(Encode(vocab, plain, pieces), VIS_TOKEN_START, NUM_VISUAL_TOKENS)
  }

  lemma {:induction false} ExtractConcat(a: seq<int>, b: seq<int>, start: int, count: int)
    ensures ExtractVisualCodes(a + b, start, count) == ExtractVisualCodes(a, start, count) + ExtractVisualCodes(b, start, count)
  {
    if a == [] {
      assert a + b == b;
    } else {
      var front := if start <= a[0] < start + count then [a[0] - start] else [];
      assert (a + b)[1..] == a[1..] + b;
      ExtractConcat(a[1..], b, start, count);
      var x, y := ExtractVisualCodes(a[1..], start, count), ExtractVisualCodes(b, start, count);
      assert ExtractVisualCodes(a + b, start, count) == front + (x + y);
      assert front + (x + y) == (front + x) + y;
    }
  }

  lemma {:induction false} ExtractNone(ids: seq<int>, start: int, count: int)
    requires forall i | 0 <= i < |ids| :: !(start <= ids[i] < start + count)
    ensures ExtractVisualCodes(ids, start, count) == []
  {
    if ids != [] {
      ExtractNone(ids[1..], start, count);
    }
  }

  lemma {:induction false} EncodeConcat(vocab: map<string, nat>, plain: string -> seq<int>, a: seq<Piece>, b: seq<Piece>)
    requires Known(vocab, a) && Known(vocab, b)
    ensures Known(vocab, a + b)
    ensures Encode(vocab, plain, a + b) == Encode(vocab, plain, a) + Encode(vocab, plain, b)
  {
    if a == [] {
      assert a + b == b;
    } else {
      assert (a + b)[1..] == a[1..] + b;
      EncodeConcat(vocab, plain, a[1..], b);
      var front := if a[0].Special? then [vocab[a[0].token]] else plain(a[0].text);
      Assoc(front, Encode(vocab, plain, a[1..]), Encode(vocab, plain, b));
    }
  }

  lemma SeenConcat(vocab: map<string, nat>, plain: string -> seq<int>, a: seq<Piece>, b: seq<Piece>)
    requires Known(vocab, a) && Known(vocab, b)
    ensures Known(vocab, a + b)
    ensures Seen(vocab, plain, a + b) == Seen(vocab, plain, a) + Seen(vocab, plain, b)
  {
    hide ExtractVisualCodes, Encode;
    EncodeConcat(vocab, plain, a, b);
    ExtractConcat(Encode(vocab, plain, a), Encode(vocab, plain, b), VIS_TOKEN_START, NUM_VISUAL_TOKENS);
  }

  lemma SeenPlain(vocab: map<string, nat>, plain: string -> seq<int>, p: Piece)
    requires Ready(vocab) && Ordinary(plain)
    requires p.Special? ==> p.token in STRUCTURAL
    ensures Known(vocab, [p]) && Seen(vocab, plain, [p]) == []
  {
    hide CodeText;
    var ids := if p.Special? then [vocab[p.token]] else plain(p.text);
    assert [p][1..] == [];
    assert Encode(vocab, plain, [p]) == ids + Encode(vocab, plain, []) == ids;
    ExtractNone(ids, VIS_TOKEN_START, NUM_VISUAL_TOKENS);
  }

  lemma {:induction false} SeenCodes(vocab: map<string, nat>, plain: string -> seq<int>, codes: seq<int>)
    requires Ready(vocab) && Codes(codes)
    ensures Known(vocab, CodePieces(codes)) && Seen(vocab, plain, CodePieces(codes)) == codes
  {
    hide CodeText, Ordinary;
    if codes != [] {
      SeenCodes(vocab, plain, codes[1..]);
    }
  }

  lemma {:induction false} SeenRows(vocab: map<string, nat>, plain: string -> seq<int>, rows: seq<seq<int>>)
    requires Ready(vocab) && Ordinary(plain) && Codes(Flatten(rows))
    ensures Known(vocab, RowPieces(rows)) && Seen(vocab, plain, RowPieces(rows)) == Flatten(rows)
  {
    hide CodeText, Ready, Ordinary, Seen, CodePieces, Known, Flatten;
    FlattenCons(rows);
    if rows == [] {
      NothingSeen(vocab, plain);
    } else {
      var separator, newline := Special("<|extra_200|>"), Plain("\n");
      SplitCodes(rows[0], Flatten(rows[1..]));
      SeenCodes(vocab, plain, rows[0]);
      SeenRows(vocab, plain, rows[1..]);
      SeenPlain(vocab, plain, separator);
      SeenPlain(vocab, plain, newline);
      SeenConcat(vocab, plain, [separator], [newline]);
      assert [separator] + [newline] == [separator, newline];
      SeenConcat(vocab, plain, [separator, newline], RowPieces(rows[1..]));
      SeenConcat(vocab, plain, CodePieces(rows[0]), [separator, newline] + RowPieces(rows[1..]));
    }
  }

  lemma NothingSeen(vocab: map<string, nat>, plain: string -> seq<int>)
    ensures Known(vocab, []) && Seen(vocab, plain, []) == []
  {
  }

  lemma SplitCodes(a: seq<int>, b: seq<int>)
    requires Codes(a + b)
    ensures Codes(a) && Codes(b)
  {
    assert forall i | 0 <= i < |a| :: (a + b)[i] == a[i];
    assert forall i | 0 <= i < |b| :: (a + b)[|a| + i] == b[i];
  }

  lemma SeenGrid(vocab: map<string, nat>, plain: string -> seq<int>, g: Grid)
    requires Ready(vocab) && Ordinary(plain) && Codes(Flatten(g.rows))
    ensures Known(vocab, GridPieces(g)) && Seen(vocab, plain, GridPieces(g)) == Flatten(g.rows)
  {
    hide CodeText, Ready, Ordinary, Seen, Known, RowPieces, Decimal;
    var numbers := Plain(Decimal(|g.rows|) + "*" + Decimal(g.w));
    var rows := RowPieces(g.rows) + [Special(IMAGE_END)];
    SeenRows(vocab, plain, g.rows);
    SeenPlain(vocab, plain, Special(IMAGE_START));
    SeenPlain(vocab, plain, numbers);
    SeenPlain(vocab, plain, Special(IMAGE_TOKEN));
    SeenPlain(vocab, plain, Special(IMAGE_END));
    SeenConcat(vocab, plain, RowPieces(g.rows), [Special(IMAGE_END)]);
    SeenConcat(vocab, plain, [Special(IMAGE_TOKEN)], rows);
    SeenConcat(vocab, plain, [numbers], [Special(IMAGE_TOKEN)] + rows);
    SeenConcat(vocab, plain, [Special(IMAGE_START)], [numbers] + ([Special(IMAGE_TOKEN)] + rows));
  }

  lemma {:induction false} CellsOfFirst(g: Grid, grids: seq<Grid>)
    ensures GridsCells([g] + grids) == Flatten(g.rows) + GridsCells(grids)
  {
    hide Flatten;
    if grids == [] {
      assert ([g] + grids)[..0] == [];
    } else {
      var n := |grids| - 1;
      assert ([g] + grids)[..n + 1] == [g] + grids[..n];
      CellsOfFirst(g, grids[..n]);
    }
  }

  /** The codes seen in the ids of printed grids are the cells of the grids. */
  lemma {:induction false} SeenAll(vocab: map<string, nat>, plain: string -> seq<int>, grids: seq<Grid>)
    requires Ready(vocab) && Ordinary(plain)
    requires forall i | 0 <= i < |grids| :: Codes(Flatten(grids[i].rows))
    ensures Known(vocab, AllPieces(grids)) && Seen(vocab, plain, AllPieces(grids)) == GridsCells(grids)
  {
    hide CodeText, Ready, Ordinary, Seen, Known, GridPieces, Flatten, Codes;
    if grids == [] {
      NothingSeen(vocab, plain);
    } else {
      SeenGrid(vocab, plain, grids[0]);
      CellsOfFirst(grids[0], grids[1..]);
      assert [grids[0]] + grids[1..] == grids;
      if |grids| > 1 {
        SeenAll(vocab, plain, grids[1..]);
        SeenPlain(vocab, plain, Plain("\n"));
        SeenConcat(vocab, plain, [Plain("\n")], AllPieces(grids[1..]));
        SeenConcat(vocab, plain, GridPieces(grids[0]), [Plain("\n")] + AllPieces(grids[1..]));
      }
    }
  }

  lemma FramesNext(codes: seq<int>, h: nat, w: nat, frames: nat)
    requires 1 <= frames && |codes| == frames * (h * w)
    ensures var at := |codes| - h * w;
            && 0 <= at == (frames - 1) * (h * w)
            && Frames(codes, h, w, frames) == Frames(codes[..at], h, w, frames - 1) + [Grid(w, Reshape(codes[at..], h, w))]
  {
    hide Reshape;
    FrameBounds(h * w, frames);
  }

  /** Cutting the cells of same-shaped grids into frames gives the grids. */
  lemma {:induction false} FramesOfCells(grids: seq<Grid>, h: nat, w: nat)
    requires forall i | 0 <= i < |grids| :: Rectangular(grids[i]) && |grids[i].rows| == h && grids[i].w == w
    ensures |GridsCells(grids)| == |grids| * (h * w)
    ensures Frames(GridsCells(grids), h, w, |grids|) == grids
  {
    hide Reshape, Flatten;
    if grids != [] {
      var n := |grids| - 1;
      FramesOfCells(grids[..n], h, w);
      ReshapeFlatten(grids[n].rows, w);
      var before, last := GridsCells(grids[..n]), Flatten(grids[n].rows);
      assert GridsCells(grids) == before + last;
      hide Frames, GridsCells;
      FrameBounds(h * w, |grids|);
      FramesNext(before + last, h, w, |grids|);
      assert (before + last)[..|before|] == before && (before + last)[|before|..] == last;
      assert grids[..n] + [grids[n]] == grids;
    }
  }

  /** For printed grids of one shape, reading the ids gives the grids that reading the text gives. */
  method PathsAgree(vocab: map<string, nat>, plain: string -> seq<int>, grids: seq<Grid>, h: nat, w: nat)
    returns (fromIds: seq<Grid>)
    requires Ready(vocab) && Ordinary(plain)
    requires forall i | 0 <= i < |grids| ::
               Rectangular(grids[i]) && |grids[i].rows| == h && grids[i].w == w && Codes(Flatten(grids[i].rows))
    ensures fromIds == grids
    ensures Some(fromIds) == ParseFutureBlocks(PiecesText(AllPieces(grids)))
  {
    hide Ready, Ordinary, ParseFutureBlocks, AllPieces, PiecesText, Reshape, Flatten, Encode, ExtractVisualCodes;
    SeenAll(vocab, plain, grids);
    var ids := Encode(vocab, plain, AllPieces(grids));
    var codes := ExtractVisualCodes(ids, VIS_TOKEN_START, NUM_VISUAL_TOKENS);
    FramesOfCells(grids, h, w);
    fromIds := CodesToGrids(codes, h, w, |grids|);
    assert Fitted(codes, |grids| * (h * w)) == codes;
    AllPiecesText(grids);
    GridsRoundTrip(grids);
    assert AllSixDigit(grids);
  }
}
