/** Reading back a printed list of grids: exactly the grids, exactly when every code has six digits. */
module GridRoundTrip {
  import opened Options
  import opened Scan
  import opened Sequences
  import opened Numerals
  import opened GridCodec

  predicate SixDigitCode(code: int) {
    0 <= code < 1000000
  }

  /** The codes a six-digit pattern can see. */
  function Readable(codes: seq<int>): (r: seq<int>)
    ensures |r| <= |codes|
    ensures |r| == |codes| <==> forall i | 0 <= i < |codes| :: SixDigitCode(codes[i])
    ensures |r| == |codes| ==> r == codes
  {
    if codes == [] then []
    else (if SixDigitCode(codes[0]) then [codes[0]] else []) + Readable(codes[1..])
  }

  lemma ReadableNone()
    ensures Readable([]) == []
  {
  }

  lemma {:induction false} ReadableConcat(a: seq<int>, b: seq<int>)
    ensures Readable(a + b) == Readable(a) + Readable(b)
  {
    if a == [] {
      assert a + b == b;
    } else {
      assert (a + b)[1..] == a[1..] + b;
      ReadableConcat(a[1..], b);
    }
  }

  // ---- tokens ---------------------------------------------------------------------------

  lemma {:induction false} SkipPlain(piece: string, rest: string)
    requires forall k | 0 <= k < |piece| :: piece[k] != '<'
    ensures CodesIn(piece + rest) == CodesIn(rest)
  {
    if piece == "" {
      assert piece + rest == rest;
    } else {
      var s := piece + rest;
      assert s[1..] == piece[1..] + rest;
      assert s[0] != CODE_OPEN[0];
      assert CodesIn(s) == CodesIn(s[1..]);
      SkipPlain(piece[1..], rest);
    }
  }

  lemma SkipPiece(piece: string, rest: string)
    requires piece != "" && forall k | 0 < k < |piece| :: piece[k] != '<'
    requires !CodeAtFront(piece + rest)
    ensures CodesIn(piece + rest) == CodesIn(rest)
  {
    assert (piece + rest)[1..] == piece[1..] + rest;
    SkipPlain(piece[1..], rest);
  }

  /** A code token yields its code if that has six digits, and nothing otherwise. */
  lemma CodeAtHead(code: int, rest: string)
    ensures CodesIn(CodeText(code) + rest) == Readable([code]) + CodesIn(rest)
  {
    var digits := SixWide(code);
    var s := CodeText(code) + rest;
    var t := s[|CODE_OPEN|..];
    assert t == digits + (CODE_CLOSE + rest);
    if code < 0 {
      assert t[0] == '-';
    } else {
      DigitRunEnds(digits, CODE_CLOSE + rest);
      SixDigits(code);
      assert s[|CODE_OPEN| + 6..|CODE_OPEN| + 8] == t[6..8];
    }
    if SixDigitCode(code) {
      assert t[..6] == digits && s[|CODE_OPEN| + 8..] == rest;
    } else {
      assert code >= 0 ==> t[6] == digits[6] && IsDigit(digits[6]);
      assert !CodeAtFront(s);
      SkipPiece(CodeText(code), rest);
    }
  }

  lemma {:induction false} CodesInCodes(codes: seq<int>, rest: string)
    ensures CodesIn(CodesText(codes) + rest) == Readable(codes) + CodesIn(rest)
  {
    hide CodesIn, CodeText;
    if codes == [] {
      assert CodesText(codes) + rest == rest;
    } else {
      var tail := CodesText(codes[1..]) + rest;
      assert CodesText(codes) + rest == CodeText(codes[0]) + tail;
      CodeAtHead(codes[0], tail);
      CodesInCodes(codes[1..], rest);
      ReadableConcat([codes[0]], codes[1..]);
      assert [codes[0]] + codes[1..] == codes;
    }
  }

  /** A piece that begins with another delimiter holds no code. */
  lemma SkipDelimiter(piece: string, rest: string)
    requires |piece| >= 3 && piece[2] != 'v' && forall k | 0 < k < |piece| :: piece[k] != '<'
    ensures CodesIn(piece + rest) == CodesIn(rest)
  {
    assert (piece + rest)[2] != CODE_OPEN[2];
    SkipPiece(piece, rest);
  }

  lemma {:induction false} CodesInRows(rows: seq<seq<int>>, rest: string)
    ensures CodesIn(RowsText(rows) + rest) == Readable(Flatten(rows)) + CodesIn(rest)
  {
    hide CodesIn, CodesText, Readable, Flatten;
    FlattenCons(rows);
    assert Readable([]) == [] by {
      ReadableNone();
    }
    if rows == [] {
      assert RowsText(rows) + rest == rest;
    } else {
      var tail := RowsText(rows[1..]) + rest;
      assert RowsText(rows) + rest == CodesText(rows[0]) + (ROW_END + tail);
      CodesInCodes(rows[0], ROW_END + tail);
      SkipDelimiter(ROW_END, tail);
      CodesInRows(rows[1..], rest);
      ReadableConcat(rows[0], Flatten(rows[1..]));
    }
  }

  lemma CodesInBlock(g: Grid)
    ensures CodesIn(GridText(g)) == Readable(Flatten(g.rows))
  {
    hide CodesIn, RowsText, Readable, Decimal;
    var rows := RowsText(g.rows) + IMAGE_END;
    var numbers := Decimal(|g.rows|) + "*" + Decimal(g.w);
    assert GridText(g) == IMAGE_START + (numbers + (IMAGE_TOKEN + rows));
    SkipDelimiter(IMAGE_START, numbers + (IMAGE_TOKEN + rows));
    SkipPlain(numbers, IMAGE_TOKEN + rows);
    SkipDelimiter(IMAGE_TOKEN, rows);
    CodesInRows(g.rows, IMAGE_END);
    SkipDelimiter(IMAGE_END, "");
    assert IMAGE_END + "" == IMAGE_END;
    NothingIn();
  }

  lemma NothingIn()
    ensures CodesIn("") == []
  {
  }

  // ---- dimensions -----------------------------------------------------------------------

  lemma DimensionsRead(h: nat, w: nat, tail: string)
    requires tail != "" && !IsDigit(tail[0])
    ensures Dimensions(Decimal(h) + ("*" + (Decimal(w) + tail))) == Some((h, w))
    ensures SkipSpace(Decimal(h) + ("*" + (Decimal(w) + tail))) == Decimal(h) + ("*" + (Decimal(w) + tail))
  {
    hide Decimal, Value, Dimensions;
    var a, b := Decimal(h), Decimal(w);
    var body := a + ("*" + (b + tail));
    assert body[0] == a[0] && IsDigit(a[0]);
    NumbersRead(a, b, tail);
    ValueOfDecimal(h);
    ValueOfDecimal(w);
  }

  lemma NumbersRead(a: string, b: string, tail: string)
    requires a != "" && AllDigits(a) && b != "" && AllDigits(b) && tail != "" && !IsDigit(tail[0])
    ensures Dimensions(a + ("*" + (b + tail))) == Some((Value(a), Value(b)))
  {
    hide Value, DigitRun;
    var body := a + ("*" + (b + tail));
    DigitRunEnds(a, "*" + (b + tail));
    assert body[|a|] == '*' && body[|a| + 1..] == b + tail;
    DigitRunEnds(b, tail);
  }

  lemma DimensionsFound(g: Grid)
    ensures SearchDimensions(GridText(g)) == Some((|g.rows|, g.w))
  {
    hide Decimal, Value, Dimensions, SkipSpace, RowsText;
    var tail := IMAGE_TOKEN + RowsText(g.rows) + IMAGE_END;
    var s := GridText(g);
    assert s[|IMAGE_START|..] == Decimal(|g.rows|) + ("*" + (Decimal(g.w) + tail));
    assert IMAGE_START <= s;
    DimensionsRead(|g.rows|, g.w, tail);
  }

  // ---- blocks ---------------------------------------------------------------------------

  /** A delimiter of the image family other than the one between header and rows. */
  predicate IsImageTag(pat: string) {
    |pat| > 8 && pat[0] == '<' && pat[2] == 'i' && pat[8] != 't'
  }

  lemma CodeFree(code: int, tail: string, pat: string)
    requires IsImageTag(pat) && Free(tail, pat)
    ensures Free(CodeText(code) + tail, pat)
  {
    hide Free, SixWide;
    var text := CodeText(code);
    assert (text + tail)[2] == 'v';
    CodeTextPlain(code);
    FreeBefore(text, tail, pat);
  }

  lemma CodeTextPlain(code: int)
    ensures var text := CodeText(code);
            forall k | 0 < k < |text| :: text[k] != '<'
  {
    assert forall k | 0 <= k < |SixWide(code)| :: SixWide(code)[k] != '<';
  }

  lemma {:induction false} CodesFree(codes: seq<int>, rest: string, pat: string)
    requires IsImageTag(pat) && Free(rest, pat)
    ensures Free(CodesText(codes) + rest, pat)
  {
    hide Free, CodeText;
    if codes == [] {
      assert CodesText(codes) + rest == rest;
    } else {
      var tail := CodesText(codes[1..]) + rest;
      CodesFree(codes[1..], rest, pat);
      CodeFree(codes[0], tail, pat);
      assert CodesText(codes) + rest == CodeText(codes[0]) + tail;
    }
  }

  lemma {:induction false} RowsFree(rows: seq<seq<int>>, pat: string)
    requires IsImageTag(pat)
    ensures Free(RowsText(rows), pat)
  {
    hide CodesText;
    if rows != [] {
      hide Free;
      var tail := RowsText(rows[1..]);
      RowsFree(rows[1..], pat);
      assert (ROW_END + tail)[2] == 'e';
      FreeBefore(ROW_END, tail, pat);
      CodesFree(rows[0], ROW_END + tail, pat);
    }
  }

  lemma TagFree(g: Grid, pat: string)
    requires IsImageTag(pat)
    ensures Free(Inner(g), pat)
  {
    hide Decimal, RowsText, Free;
    var numbers := Decimal(|g.rows|) + "*" + Decimal(g.w);
    var rows := RowsText(g.rows);
    RowsFree(g.rows, pat);
    assert (IMAGE_TOKEN + rows)[8] == 't';
    FreeBefore(IMAGE_TOKEN, rows, pat);
    assert (numbers + (IMAGE_TOKEN + rows))[0] == Decimal(|g.rows|)[0];
    FreeBefore(numbers, IMAGE_TOKEN + rows, pat);
    assert Inner(g) == numbers + (IMAGE_TOKEN + rows);
  }

  /** The printed inside of a block holds neither the closing nor the opening delimiter. */
  lemma InnerFree(g: Grid)
    ensures Free(Inner(g), IMAGE_END) && Free(Inner(g), IMAGE_START)
  {
    TagFree(g, IMAGE_END);
    TagFree(g, IMAGE_START);
  }

  lemma BlockAtHead(g: Grid, rest: string)
    ensures FutureBlocks(GridText(g) + rest) == [Inner(g)] + FutureBlocks(rest)
  {
    hide Find, Inner, Free;
    var s := GridText(g) + rest;
    assert s == IMAGE_START + Inner(g) + IMAGE_END + rest;
    assert IMAGE_START <= s;
    InnerFree(g);
    SoleHeadIsBorderFree(IMAGE_END);
    FieldEnds(IMAGE_START, Inner(g), IMAGE_END, rest);
    var e := |IMAGE_START| + |Inner(g)|;
    assert s[|IMAGE_START|..e] == Inner(g);
    assert s[e + |IMAGE_END|..] == rest;
  }

  function Inners(grids: seq<Grid>): seq<string> {
    if grids == [] then [] else [Inner(grids[0])] + Inners(grids[1..])
  }

  lemma BetweenBlocks(tail: string)
    ensures FutureBlocks("\n" + tail) == FutureBlocks(tail)
    ensures FutureBlocks("") == []
  {
    assert ("\n" + tail)[1..] == tail;
    assert ("\n" + tail)[0] != IMAGE_START[0];
  }

  /** Extraction returns the insides of the printed blocks, in order. */
  lemma {:induction false} BlocksOfJoined(grids: seq<Grid>)
    ensures FutureBlocks(Join(GridTexts(grids), "\n")) == Inners(grids)
  {
    hide GridText, Inner, FutureBlocks;
    BetweenBlocks("");
    if |grids| == 1 {
      BlockAtHead(grids[0], "");
      assert GridText(grids[0]) + "" == GridText(grids[0]);
    } else if |grids| > 1 {
      var tail := Join(GridTexts(grids[1..]), "\n");
      BlocksOfJoined(grids[1..]);
      BlockAtHead(grids[0], "\n" + tail);
      BetweenBlocks(tail);
      assert GridTexts(grids)[1..] == GridTexts(grids[1..]);
    }
  }

  // ---- the round trip -------------------------------------------------------------------

  lemma {:induction false} ReshapeFlatten(rows: seq<seq<int>>, w: nat)
    requires forall r | 0 <= r < |rows| :: |rows[r]| == w
    ensures |Flatten(rows)| == |rows| * w
    ensures Reshape(Flatten(rows), |rows|, w) == rows
  {
    hide Flatten;
    FlattenCons(rows);
    if rows != [] {
      ReshapeFlatten(rows[1..], w);
      assert |rows| * w == w + |rows[1..]| * w;
      assert Flatten(rows)[..w] == rows[0] && Flatten(rows)[w..] == Flatten(rows[1..]);
    }
  }

  ghost predicate SixDigitGrid(g: Grid) {
    forall i | 0 <= i < |Flatten(g.rows)| :: SixDigitCode(Flatten(g.rows)[i])
  }

  /** One block is read back as printed if its codes all have six digits, else it is rejected. */
  lemma BlockRoundTrip(g: Grid)
    requires Rectangular(g)
    ensures ParseTokenBlock(GridText(g)) == if SixDigitGrid(g) then Some(g) else None
  {
    DimensionsFound(g);
    CodesInBlock(g);
    ReshapeFlatten(g.rows, g.w);
  }

  ghost predicate AllSixDigit(grids: seq<Grid>) {
    forall i | 0 <= i < |grids| :: SixDigitGrid(grids[i])
  }

  lemma AllSixDigitFirst(grids: seq<Grid>)
    requires grids != []
    ensures AllSixDigit(grids) <==> SixDigitGrid(grids[0]) && AllSixDigit(grids[1..])
  {
    hide SixDigitGrid;
    assert forall i | 0 <= i < |grids[1..]| :: grids[1..][i] == grids[i + 1];
    assert forall i | 0 < i < |grids| :: grids[1..][i - 1] == grids[i];
  }

  lemma {:induction false} ParseInners(grids: seq<Grid>)
    requires forall i | 0 <= i < |grids| :: Rectangular(grids[i])
    ensures ParseAll(Inners(grids)) == if AllSixDigit(grids) then Some(grids) else None
  {
    hide Inner, GridText, ParseTokenBlock, SixDigitGrid;
    if grids != [] {
      BlockRoundTrip(grids[0]);
      WrappedAgain(grids[0]);
      assert Inners(grids)[1..] == Inners(grids[1..]);
      ParseInners(grids[1..]);
      assert [grids[0]] + grids[1..] == grids;
      AllSixDigitFirst(grids);
    }
  }

  lemma WrappedAgain(g: Grid)
    ensures IMAGE_START + Inner(g) + IMAGE_END == GridText(g)
  {
  }

  /** Printing any grids and parsing the text gives the same grids in the same order, dimensions
      included, exactly when every code fits in six digits; otherwise parsing fails. */
  lemma GridsRoundTrip(grids: seq<Grid>)
    requires forall i | 0 <= i < |grids| :: Rectangular(grids[i])
    ensures ParseFutureBlocks(Join(GridTexts(grids), "\n")) ==
            if AllSixDigit(grids) then Some(grids) else None
  {
    BlocksOfJoined(grids);
    ParseInners(grids);
  }

  lemma {:induction false} NoStart(s: string)
    requires Free(s, IMAGE_START)
    ensures SearchDimensions(s) == None
  {
    hide Dimensions, SkipSpace;
    if s != "" {
      assert !OccursAt(s, IMAGE_START, 0);
      forall i
        ensures !OccursAt(s[1..], IMAGE_START, i)
      {
        if OccursAt(s[1..], IMAGE_START, i) {
          assert s[1..|s|] == s[1..];
          InSlice(s, 1, |s|, IMAGE_START, i);
        }
      }
      NoStart(s[1..]);
    }
  }

  /** None of the blocks as they are extracted parses until it is wrapped in its delimiters again. */
  lemma UnwrappedFails(grids: seq<Grid>)
    ensures forall block | block in FutureBlocks(Join(GridTexts(grids), "\n")) :: ParseTokenBlock(block) == None
  {
    hide FutureBlocks, Join, GridTexts, Free, SearchDimensions, Inner;
    BlocksOfJoined(grids);
    forall i | 0 <= i < |Inners(grids)|
      ensures ParseTokenBlock(Inners(grids)[i]) == None
    {
      InnersAt(grids, i);
      InnerFree(grids[i]);
      NoStart(Inner(grids[i]));
    }
  }

  lemma {:induction false} InnersAt(grids: seq<Grid>, i: nat)
    requires i < |Inners(grids)|
    ensures i < |grids| && Inners(grids)[i] == Inner(grids[i])
  {
    hide Inner;
    if 0 < i {
      InnersAt(grids[1..], i - 1);
    }
  }
}
