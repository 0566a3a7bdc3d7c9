/** Visual-token grids printed as text, and the parser that reads them back. */
module GridCodec {
  import opened Options
  import opened Scan
  import opened Sequences
  import opened Numerals

  /** A grid of h rows of w codes. */
  datatype Grid = Grid(w: nat, rows: seq<seq<int>>)

  ghost predicate Rectangular(g: Grid) {
    forall r | 0 <= r < |g.rows| :: |g.rows[r]| == g.w
  }

  const IMAGE_START := "<|image start|>"
  const IMAGE_TOKEN := "<|image token|>"
  const IMAGE_END := "<|image end|>"
  const ROW_END := "<|extra_200|>\n"
  const CODE_OPEN := "<|visual token "
  const CODE_CLOSE := "|>"

  // ---- printing -------------------------------------------------------------------------

  /** `{code:06d}` */
  function SixWide(code: int): string {
    if code < 0 then "-" + Padded(-code, 5) else Padded(code, 6)
  }

  function CodeText(code: int): string {
    CODE_OPEN + SixWide(code) + CODE_CLOSE
  }

  function CodesText(codes: seq<int>): string {
    if codes == [] then "" else CodeText(codes[0]) + CodesText(codes[1..])
  }

  function RowsText(rows: seq<seq<int>>): string {
    if rows == [] then "" else CodesText(rows[0]) + (ROW_END + RowsText(rows[1..]))
  }

  function Header(g: Grid): string {
    Decimal(|g.rows|) + ("*" + (Decimal(g.w) + IMAGE_TOKEN))
  }

  /** Everything between the opening and the closing delimiter. */
  function Inner(g: Grid): string {
    Header(g) + RowsText(g.rows)
  }

  function GridText(g: Grid): string {
    IMAGE_START + Inner(g) + IMAGE_END
  }

  lemma CodesTextFirst(codes: seq<int>)
    ensures CodesText([]) == ""
    ensures codes != [] ==> CodesText(codes) == CodeText(codes[0]) + CodesText(codes[1..])
  {
  }

  lemma {:induction false} CodesTextSnoc(codes: seq<int>, code: int)
    ensures CodesText(codes + [code]) == CodesText(codes) + CodeText(code)
  {
    hide CodesText, CodeText;
    CodesTextFirst(codes);
    CodesTextFirst(codes + [code]);
    if codes == [] {
      assert (codes + [code])[1..] == [];
      assert CodeText(code) + "" == CodeText(code);
    } else {
      CodesTextSnoc(codes[1..], code);
      assert (codes + [code])[1..] == codes[1..] + [code];
      assert (CodeText(codes[0]) + CodesText(codes[1..])) + CodeText(code) ==
             CodeText(codes[0]) + (CodesText(codes[1..]) + CodeText(code));
    }
  }

  lemma RowsTextFirst(rows: seq<seq<int>>)
    ensures RowsText([]) == ""
    ensures rows != [] ==> RowsText(rows) == CodesText(rows[0]) + (ROW_END + RowsText(rows[1..]))
  {
  }

  lemma {:induction false} RowsTextSnoc(rows: seq<seq<int>>, row: seq<int>)
    ensures RowsText(rows + [row]) == RowsText(rows) + (CodesText(row) + ROW_END)
  {
    hide RowsText, CodesText;
    RowsTextFirst(rows);
    RowsTextFirst(rows + [row]);
    if rows == [] {
      assert ROW_END + "" == ROW_END;
    } else {
      RowsTextSnoc(rows[1..], row);
      assert (rows + [row])[1..] == rows[1..] + [row];
      Regroup(CodesText(rows[0]), ROW_END, RowsText(rows[1..]), CodesText(row) + ROW_END);
    }
  }

  lemma Regroup(a: string, b: string, c: string, d: string)
    ensures a + (b + (c + d)) == (a + (b + c)) + d
  {
  }

  /** The printed form, letter by letter. */
  lemma PrintedForm(g: Grid, rows: seq<seq<int>>, row: seq<int>, codes: seq<int>, code: int)
    ensures GridText(g) ==
            "<|image start|>" + Decimal(|g.rows|) + "*" + Decimal(g.w) + "<|image token|>" + RowsText(g.rows) + "<|image end|>"
    ensures RowsText([]) == "" && RowsText(rows + [row]) == RowsText(rows) + (CodesText(row) + "<|extra_200|>\n")
    ensures CodesText([]) == "" && CodesText(codes + [code]) == CodesText(codes) + ("<|visual token " + SixWide(code) + "|>")
  {
    RowsTextSnoc(rows, row);
    RowsTextFirst([]);
    CodesTextSnoc(codes, code);
    CodesTextFirst([]);
    hide RowsText, CodesText, SixWide, Decimal;
    assert GridText(g) == IMAGE_START + (Decimal(|g.rows|) + ("*" + (Decimal(g.w) + IMAGE_TOKEN)) + RowsText(g.rows)) + IMAGE_END;
    UngroupHeader(IMAGE_START, Decimal(|g.rows|), "*", Decimal(g.w), IMAGE_TOKEN, RowsText(g.rows), IMAGE_END);
  }

  lemma UngroupHeader(a: string, b: string, c: string, d: string, e: string, f: string, z: string)
    ensures a + (b + (c + (d + e)) + f) + z == a + b + c + d + e + f + z
  {
  }

  /** Codes are printed as themselves, with zeros in front up to six characters, sign included. */
  lemma SixWideIs(code: int)
    ensures 0 <= code ==>
              && AllDigits(SixWide(code)) && Value(SixWide(code)) == code && |SixWide(code)| >= 6
              && (|SixWide(code)| > 6 ==> SixWide(code)[0] != '0')
    ensures code < 0 ==>
              var digits := SixWide(code)[1..];
              && SixWide(code)[0] == '-' && AllDigits(digits) && Value(digits) == -code && |digits| >= 5
              && (|digits| > 5 ==> digits[0] != '0')
  {
    PaddedIs(if code < 0 then -code else code, if code < 0 then 5 else 6);
  }

  method GridToFutureStr(g: Grid) returns (text: string)
    requires Rectangular(g)
    ensures text == GridText(g)
  {
    hide Flatten, Decimal, CodesText, RowsText, SixWide;
    var parts := [IMAGE_START + Decimal(|g.rows|) + "*" + Decimal(g.w) + IMAGE_TOKEN];
    PartsStart(g, parts[0]);
    for row := 0 to |g.rows|
      invariant Flatten(parts) == IMAGE_START + Header(g) + RowsText(g.rows[..row])
    {
      parts := AppendRow(parts, g.rows[row]);
      RowsTextSnoc(g.rows[..row], g.rows[row]);
      assert g.rows[..row + 1] == g.rows[..row] + [g.rows[row]];
    }
    assert g.rows[..|g.rows|] == g.rows;
    FlattenSnoc(parts, IMAGE_END);
    parts := parts + [IMAGE_END];
    text := Flatten(parts);
    assert IMAGE_START + Inner(g) == IMAGE_START + Header(g) + RowsText(g.rows);
  }

  lemma PartsStart(g: Grid, part: string)
    requires part == IMAGE_START + Decimal(|g.rows|) + "*" + Decimal(g.w) + IMAGE_TOKEN
    ensures Flatten([part]) == IMAGE_START + Header(g) + RowsText(g.rows[..0])
  {
    FlattenSnoc([], part);
    assert [] + [part] == [part];
    assert part == IMAGE_START + Header(g) + "";
  }

  /** One row of the raster: its codes and the row separator. */
  method AppendRow(before: seq<string>, row: seq<int>) returns (parts: seq<string>)
    ensures Flatten(parts) == Flatten(before) + (CodesText(row) + ROW_END)
  {
    hide Flatten, SixWide;
    parts := before;
    for col := 0 to |row|
      invariant Flatten(parts) == Flatten(before) + CodesText(row[..col])
    {
      CodesTextSnoc(row[..col], row[col]);
      assert row[..col + 1] == row[..col] + [row[col]];
      FlattenSnoc(parts, CodeText(row[col]));
      parts := parts + [CodeText(row[col])];
    }
    assert row[..|row|] == row;
    FlattenSnoc(parts, ROW_END);
    parts := parts + [ROW_END];
  }

  function GridTexts(grids: seq<Grid>): seq<string> {
    if grids == [] then [] else [GridText(grids[0])] + GridTexts(grids[1..])
  }

  lemma {:induction false} GridTextsSnoc(grids: seq<Grid>, g: Grid)
    ensures GridTexts(grids + [g]) == GridTexts(grids) + [GridText(g)]
  {
    hide GridText;
    if grids == [] {
      assert GridTexts([g][1..]) == [];
    } else {
      assert (grids + [g])[1..] == grids[1..] + [g];
      GridTextsSnoc(grids[1..], g);
    }
  }

  /** The `future_image_tokens` field of a record: one block per future frame. */
  method FutureImageTokens(grids: seq<Grid>) returns (text: string)
    requires forall i | 0 <= i < |grids| :: Rectangular(grids[i])
    ensures text == Join(GridTexts(grids), "\n")
  {
    hide GridText;
    var blocks := [];
    for i := 0 to |grids|
      invariant blocks == GridTexts(grids[..i])
    {
      var block := GridToFutureStr(grids[i]);
      blocks := blocks + [block];
      GridTextsSnoc(grids[..i], grids[i]);
      assert grids[..i + 1] == grids[..i] + [grids[i]];
    }
    assert grids[..|grids|] == grids;
    text := Join(blocks, "\n");
  }

  // ---- parsing --------------------------------------------------------------------------

  /** Where the closing delimiter of a block at the front begins; -1 if there is no block. */
  function BlockEnd(s: string): (e: int)
    ensures e == -1 || (|IMAGE_START| <= e && e + |IMAGE_END| <= |s|)
  {
    if IMAGE_START <= s then Find(s, IMAGE_END, |IMAGE_START|) else -1
  }

  /** What a non-greedy `open(.*?)close` finds, left to right, without overlap. */
  function FutureBlocks(s: string): seq<string>
    decreases |s|
  {
    if s == "" then []
    else
      var e := BlockEnd(s);
      if e == -1 then FutureBlocks(s[1..])
      else [s[|IMAGE_START|..e]] + FutureBlocks(s[e + |IMAGE_END|..])
  }

  /** `\s` within ASCII. */
  predicate IsSpace(c: char) {
    c == ' ' || 9 <= c as int <= 13 || 28 <= c as int <= 31
  }

  function SkipSpace(s: string): string {
    if s != "" && IsSpace(s[0]) then SkipSpace(s[1..]) else s
  }

  /** `\d+\*\d+` at the front. */
  function Dimensions(s: string): Option<(nat, nat)> {
    var m := DigitRun(s);
    if m == 0 || m == |s| || s[m] != '*' then None
    else
      var t := s[m + 1..];
      var n := DigitRun(t);
      if n == 0 then None else Some((Value(s[..m]), Value(t[..n])))
  }

  /** An opening delimiter at the front that dimensions follow. */
  function DimensionsHere(s: string): Option<(nat, nat)> {
    if IMAGE_START <= s then Dimensions(SkipSpace(s[|IMAGE_START|..])) else None
  }

  function SearchDimensions(s: string): Option<(nat, nat)> {
    if s == "" then None
    else
      var here := DimensionsHere(s);
      if here.Some? then here else SearchDimensions(s[1..])
  }

  /** A code token of exactly six digits at the front. */
  predicate CodeAtFront(s: string) {
    && CODE_OPEN <= s && |s| >= |CODE_OPEN| + 8
    && DigitRun(s[|CODE_OPEN|..]) >= 6
    && s[|CODE_OPEN| + 6..|CODE_OPEN| + 8] == CODE_CLOSE
  }

  function CodesIn(s: string): seq<int>
    decreases |s|
  {
    if s == "" then []
    else if CodeAtFront(s) then
      var t := s[|CODE_OPEN|..];
      assert AllDigits(t[..6]) by {
        assert forall i | 0 <= i < 6 :: t[..6][i] == t[..DigitRun(t)][i];
      }
      [Value(t[..6])] + CodesIn(s[|CODE_OPEN| + 8..])
    else CodesIn(s[1..])
  }

  function Reshape(ids: seq<int>, h: nat, w: nat): (rows: seq<seq<int>>)
    requires |ids| == h * w
    ensures |rows| == h && forall r | 0 <= r < h :: |rows[r]| == w
    decreases h
  {
    if h == 0 then []
    else
      assert h * w == w + (h - 1) * w;
      [ids[..w]] + Reshape(ids[w..], h - 1, w)
  }

  /** `None` is the ValueError for missing dimensions or a wrong number of tokens. */
  function ParseTokenBlock(block: string): Option<Grid> {
    var dims :- SearchDimensions(block);
    var (h, w) := dims;
    var ids := CodesIn(block);
    if |ids| != h * w then None else Some(Grid(w, Reshape(ids, h, w)))
  }

  /** Each block is wrapped in its delimiters again before it is parsed. */
  function ParseAll(blocks: seq<string>): Option<seq<Grid>> {
    if blocks == [] then Some([])
    else
      var grid :- ParseTokenBlock(IMAGE_START + blocks[0] + IMAGE_END);
      var rest :- ParseAll(blocks[1..]);
      Some([grid] + rest)
  }

  function ParseFutureBlocks(text: string): Option<seq<Grid>> {
    ParseAll(FutureBlocks(text))
  }
}
