/** Parsing printed tool calls returns the calls. */
module ToolCallRoundTrip {
  import opened Options
  import opened Scan
  import opened ToolCalls

  ghost predicate Without(s: string, c: char) {
    forall i | 0 <= i < |s| :: s[i] != c
  }

  /** A name that can stand inside a tag: it neither ends the tag nor makes it end the call, as one
      ending in `</seed:tool_call` would. */
  ghost predicate IsName(s: string) {
    s != "" && Without(s, '>') && Free(s + ">", CALL_END)
  }

  ghost predicate ValueFree(value: string) {
    Free(value, PARAMETER_END) && Free(value, CALL_END)
  }

  /** Names fit in tags, and no value holds a closing delimiter. */
  ghost predicate Fits(call: Call) {
    && IsName(call.name)
    && forall i | 0 <= i < |call.arguments| :: IsName(call.arguments[i].0) && ValueFree(call.arguments[i].1)
  }

  /** The function's name holds the opening of a parameter tag, with a parameter name behind it. */
  ghost predicate TagInside(name: string) {
    exists i :: OccursAt(name, PARAMETER_OPEN, i) && i + |PARAMETER_OPEN| < |name|
  }

  ghost predicate Printable(call: Call) {
    Fits(call) && (call.arguments == [] || !TagInside(call.name))
  }

  /** The arguments are those of a dictionary, and none is named to end a parameter. */
  ghost predicate IsDictionary(arguments: seq<(string, string)>) {
    && (forall i, j | 0 <= i < j < |arguments| :: arguments[i].0 != arguments[j].0)
    && forall i | 0 <= i < |arguments| :: Free(arguments[i].0 + ">", PARAMETER_END)
  }

  // ---- tags -----------------------------------------------------------------------------

  lemma TagAtHead(open: string, name: string, rest: string)
    requires name != "" && Without(name, '>')
    ensures TagName(open + name + ">" + rest, open) == Some(name)
  {
    var s := open + name + ">" + rest;
    assert s[|open|..] == name + (">" + rest);
    RunToEnds(name, '>', ">" + rest);
    assert s[|open|..|open| + |name|] == name;
    assert open <= s;
  }

  lemma NoTagAtHead(s: string, open: string, k: nat)
    requires k < |open| && (k < |s| ==> s[k] != open[k])
    ensures TagName(s, open) == None
  {
  }

  // ---- the end of a call ----------------------------------------------------------------

  lemma {:induction false} LinesFree(arguments: seq<(string, string)>, rest: string)
    requires forall i | 0 <= i < |arguments| :: IsName(arguments[i].0) && ValueFree(arguments[i].1)
    requires Free(rest, CALL_END)
    ensures Free(ParameterLines(arguments) + rest, CALL_END)
  {
    hide Free, IsName, ParameterText;
    if arguments == [] {
      assert ParameterLines(arguments) + rest == rest;
    } else {
      var (name, value) := arguments[0];
      var tail := ParameterLines(arguments[1..]) + rest;
      LinesFree(arguments[1..], rest);
      ParameterFree(name, value, tail);
      assert ParameterLines(arguments) + rest == "\n" + (ParameterText((name, value)) + tail);
    }
  }

  /** A tag with a fitting name does not end the call, whatever follows. */
  lemma TagFree(open: string, name: string, rest: string)
    requires IsName(name) && Free(rest, CALL_END)
    requires |open| >= 2 && open[1] != '/' && forall k | 0 < k < |open| :: open[k] != '<'
    ensures Free(open + name + ">" + rest, CALL_END)
  {
    hide Free;
    assert (open + (name + ">"))[1] != CALL_END[1];
    FreeBefore(open, name + ">", CALL_END);
    assert open + (name + ">") == open + name + ">";
    FreeAfter(open + name + ">", rest, CALL_END);
  }

  lemma ParameterFree(name: string, value: string, tail: string)
    requires IsName(name) && Free(value, CALL_END) && Free(tail, CALL_END)
    ensures Free("\n" + (ParameterText((name, value)) + tail), CALL_END)
  {
    hide Free, IsName;
    assert (PARAMETER_END + tail)[2] != CALL_END[2];
    FreeBefore(PARAMETER_END, tail, CALL_END);
    FreeAcross(value, PARAMETER_END + tail, CALL_END);
    var inner := value + (PARAMETER_END + tail);
    var open := PARAMETER_OPEN + name + ">";
    TagFree(PARAMETER_OPEN, name, inner);
    assert open + inner == ParameterText((name, value)) + tail;
    assert ("\n" + (open + inner))[0] != CALL_END[0];
    FreeBefore("\n", open + inner, CALL_END);
  }

  lemma BodyFree(call: Call)
    requires Fits(call)
    ensures Free(Body(call), CALL_END)
  {
    hide Free, IsName, ValueFree;
    var close := "\n" + (FUNCTION_END + "\n");
    NewlineFree();
    assert (FUNCTION_END + "\n")[2] != CALL_END[2];
    FreeBefore(FUNCTION_END, "\n", CALL_END);
    assert close[0] != CALL_END[0];
    FreeBefore("\n", FUNCTION_END + "\n", CALL_END);
    LinesFree(call.arguments, close);
    var lines := ParameterLines(call.arguments) + close;
    var head := FUNCTION_OPEN + call.name + ">";
    TagFree(FUNCTION_OPEN, call.name, lines);
    assert ("\n" + (head + lines))[0] != CALL_END[0];
    FreeBefore("\n", head + lines, CALL_END);
    assert Body(call) == "\n" + (head + lines);
  }

  lemma NewlineFree()
    ensures Free("\n", CALL_END)
  {
  }

  // ---- one call -------------------------------------------------------------------------

  lemma FunctionNameOfBody(call: Call)
    requires Fits(call)
    ensures FunctionName(Body(call)) == Some(call.name)
  {
    hide Free, ValueFree;
    var rest := ParameterLines(call.arguments) + ("\n" + (FUNCTION_END + "\n"));
    var body := Body(call);
    assert body[1..] == FUNCTION_OPEN + call.name + ">" + rest;
    TagAtHead(FUNCTION_OPEN, call.name, rest);
    NoTagAtHead(body, FUNCTION_OPEN, 0);
  }

  lemma {:induction false} SkipToTag(piece: string, rest: string)
    requires Without(piece, '<')
    ensures Parameters(piece + rest) == Parameters(rest)
  {
    if piece == "" {
      assert piece + rest == rest;
    } else {
      var s := piece + rest;
      assert s[0] == piece[0] && s[1..] == piece[1..] + rest;
      NoTagAtHead(s, PARAMETER_OPEN, 0);
      SkipToTag(piece[1..], rest);
    }
  }

  /** Text in which no parameter begins is skipped. */
  lemma {:induction false} SkipPlain(piece: string, rest: string)
    requires forall k | 0 <= k < |piece| :: ParameterHere(piece[k..] + rest) == None
    ensures Parameters(piece + rest) == Parameters(rest)
  {
    hide ParameterHere;
    if piece == "" {
      assert piece + rest == rest;
    } else {
      var s := piece + rest;
      assert piece[0..] == piece;
      assert s[1..] == piece[1..] + rest;
      forall k | 0 <= k < |piece| - 1
        ensures ParameterHere(piece[1..][k..] + rest) == None
      {
        assert piece[1..][k..] == piece[k + 1..];
      }
      SkipPlain(piece[1..], rest);
    }
  }

  /** In the function's tag only its name can hold the opening of a parameter tag. */
  lemma OpenInHead(name: string, lines: string, k: nat)
    requires Without(name, '>') && k <= |FUNCTION_OPEN| + |name|
    ensures PARAMETER_OPEN <= (FUNCTION_OPEN + name + ">")[k..] + lines ==>
              OccursAt(name, PARAMETER_OPEN, k - |FUNCTION_OPEN|)
  {
    var head := FUNCTION_OPEN + name + ">";
    var s := head[k..] + lines;
    var i := k - |FUNCTION_OPEN|;
    assert s[0] == head[k];
    assert forall m | 0 <= m < |PARAMETER_OPEN| :: PARAMETER_OPEN[m] != '>';
    if i < 0 {
      assert s[1] == head[k + 1];
    } else if i + |PARAMETER_OPEN| > |name| {
      assert s[|name| - i] == head[|head| - 1] == '>';
    } else {
      assert s[..|PARAMETER_OPEN|] == name[i..i + |PARAMETER_OPEN|];
    }
  }

  /** The function's tag is skipped if its name holds no parameter tag, or if no parameter follows. */
  lemma SkipFunctionTag(name: string, lines: string)
    requires Without(name, '>')
    requires !TagInside(name) || Free(lines, PARAMETER_END)
    ensures Parameters(FUNCTION_OPEN + name + ">" + lines) == Parameters(lines)
  {
    hide Parameters, Free;
    var head := FUNCTION_OPEN + name + ">";
    forall k | 0 <= k < |head|
      ensures ParameterHere(head[k..] + lines) == None
    {
      NoneInHead(name, lines, k);
    }
    SkipPlain(head, lines);
  }

  lemma NoneInHead(name: string, lines: string, k: nat)
    requires Without(name, '>') && k < |FUNCTION_OPEN + name + ">"|
    requires !TagInside(name) || Free(lines, PARAMETER_END)
    ensures ParameterHere((FUNCTION_OPEN + name + ">")[k..] + lines) == None
  {
    hide TagName, Free;
    var s := (FUNCTION_OPEN + name + ">")[k..] + lines;
    OpenInHead(name, lines, k);
    if PARAMETER_OPEN <= s {
      TagOfHead(name, lines, k - |FUNCTION_OPEN|);
    } else {
      NoOpen(s);
    }
  }

  lemma NoOpen(s: string)
    requires !(PARAMETER_OPEN <= s)
    ensures ParameterHere(s) == None
  {
  }

  /** What the scan makes of a parameter tag's opening inside the function's name. */
  lemma TagOfHead(name: string, lines: string, i: nat)
    requires Without(name, '>') && OccursAt(name, PARAMETER_OPEN, i)
    ensures var s := name[i..] + ">" + lines;
            && (FUNCTION_OPEN + name + ">")[|FUNCTION_OPEN| + i..] + lines == s
            && (i + |PARAMETER_OPEN| == |name| ==> ParameterHere(s) == None)
            && (i + |PARAMETER_OPEN| < |name| && Free(lines, PARAMETER_END) ==> ParameterHere(s) == None)
            && (i + |PARAMETER_OPEN| < |name| ==> TagName(s, PARAMETER_OPEN) == Some(name[i + |PARAMETER_OPEN|..]))
  {
    var s := name[i..] + ">" + lines;
    var inner := name[i + |PARAMETER_OPEN|..];
    assert name[i..] == PARAMETER_OPEN + inner;
    assert s == PARAMETER_OPEN + inner + ">" + lines;
    assert (FUNCTION_OPEN + name + ">")[|FUNCTION_OPEN| + i..] == name[i..] + ">";
    if inner == "" {
      assert s[|PARAMETER_OPEN|..][0] == '>';
    } else {
      TagAtHead(PARAMETER_OPEN, inner, lines);
      if Free(lines, PARAMETER_END) {
        NoEnd(PARAMETER_OPEN + inner + ">", lines);
      }
    }
  }

  lemma NoEnd(front: string, tail: string)
    requires Free(tail, PARAMETER_END)
    ensures Find(front + tail, PARAMETER_END, |front|) == -1
  {
    var s := front + tail;
    forall i | |front| <= i
      ensures !OccursAt(s, PARAMETER_END, i)
    {
      if OccursAt(s, PARAMETER_END, i) {
        assert s[i..i + |PARAMETER_END|] == tail[i - |front|..i - |front| + |PARAMETER_END|];
        assert OccursAt(tail, PARAMETER_END, i - |front|);
      }
    }
  }

  lemma ParameterAtHead(name: string, value: string, rest: string)
    requires name != "" && Without(name, '>') && Free(value, PARAMETER_END)
    ensures Parameters(ParameterText((name, value)) + rest) == [(name, value)] + Parameters(rest)
  {
    hide Parameters;
    ParameterFound(name, value, rest);
    ParametersAt(ParameterText((name, value)) + rest, name, value, rest);
  }

  lemma ParameterFound(name: string, value: string, rest: string)
    requires name != "" && Without(name, '>') && Free(value, PARAMETER_END)
    ensures ParameterHere(ParameterText((name, value)) + rest) == Some((name, value, rest))
  {
    hide Find, TagName, Without, Free;
    var open := PARAMETER_OPEN + name + ">";
    var s := ParameterText((name, value)) + rest;
    TagAtHead(PARAMETER_OPEN, name, value + PARAMETER_END + rest);
    assert s == PARAMETER_OPEN + name + ">" + (value + PARAMETER_END + rest);
    SoleHeadIsBorderFree(PARAMETER_END);
    FieldEnds(open, value, PARAMETER_END, rest);
    assert s == open + value + PARAMETER_END + rest;
    var e := |open| + |value|;
    assert s[|open|..e] == value && s[e + |PARAMETER_END|..] == rest;
  }

  lemma ParametersAt(s: string, name: string, value: string, rest: string)
    requires ParameterHere(s) == Some((name, value, rest))
    ensures Parameters(s) == [(name, value)] + Parameters(rest)
  {
    hide ParameterHere;
    assert |rest| < |s|;
  }

  lemma {:induction false} ParametersOfLines(arguments: seq<(string, string)>, rest: string)
    requires forall i | 0 <= i < |arguments| :: IsName(arguments[i].0) && ValueFree(arguments[i].1)
    ensures Parameters(ParameterLines(arguments) + rest) == arguments + Parameters(rest)
  {
    hide Parameters, ParameterText, Free, Without;
    if arguments == [] {
      assert ParameterLines(arguments) + rest == rest;
    } else {
      var tail := ParameterLines(arguments[1..]) + rest;
      var text := ParameterText(arguments[0]);
      assert ParameterLines(arguments) + rest == "\n" + (text + tail);
      SkipToTag("\n", text + tail);
      ParameterAtHead(arguments[0].0, arguments[0].1, tail);
      ParametersOfLines(arguments[1..], rest);
    }
  }

  /** What closes a body holds no parameter, nor the end of one. */
  lemma CloseSkipped()
    ensures Parameters("\n" + (FUNCTION_END + "\n")) == []
    ensures Free("\n" + (FUNCTION_END + "\n"), PARAMETER_END)
  {
    hide Parameters;
    SkipToTag("\n", FUNCTION_END + "\n");
    SkipOther(FUNCTION_END, "\n");
    SkipToTag("\n", "");
    assert "\n" + "" == "\n";
    NoParameters();
    CloseFree();
  }

  lemma CloseFree()
    ensures Free("\n" + (FUNCTION_END + "\n"), PARAMETER_END)
  {
    var close := FUNCTION_END + "\n";
    assert forall i :: !OccursAt("\n", PARAMETER_END, i);
    assert close[2] != PARAMETER_END[2];
    hide Free;
    FreeBefore(FUNCTION_END, "\n", PARAMETER_END);
    assert ("\n" + close)[0] != PARAMETER_END[0];
    FreeBefore("\n", close, PARAMETER_END);
  }

  /** A tag of another kind is skipped. */
  lemma SkipOther(piece: string, rest: string)
    requires |piece| >= 2 && piece[1] != 'p' && Without(piece[1..], '<')
    ensures Parameters(piece + rest) == Parameters(rest)
  {
    var s := piece + rest;
    assert s[1] == piece[1] && s[1..] == piece[1..] + rest;
    NoTagAtHead(s, PARAMETER_OPEN, 1);
    SkipToTag(piece[1..], rest);
  }

  lemma ParametersOfBody(call: Call)
    requires Printable(call)
    ensures Parameters(Body(call)) == call.arguments
  {
    hide Parameters, ParameterLines, Free, TagInside, ValueFree;
    var close := "\n" + (FUNCTION_END + "\n");
    var lines := ParameterLines(call.arguments) + close;
    var head := FUNCTION_OPEN + call.name + ">";
    CloseSkipped();
    if call.arguments == [] {
      NoLines();
      assert lines == close;
    }
    SkipToTag("\n", head + lines);
    SkipFunctionTag(call.name, lines);
    ParametersOfLines(call.arguments, close);
    assert Body(call) == "\n" + (head + lines);
    assert call.arguments + [] == call.arguments;
  }

  /** The leftmost parameter tag inside a name. */
  lemma FirstInside(name: string) returns (i: nat)
    requires TagInside(name)
    ensures OccursAt(name, PARAMETER_OPEN, i) && i + |PARAMETER_OPEN| < |name|
    ensures forall k | 0 <= k < i :: !OccursAt(name, PARAMETER_OPEN, k)
  {
    i := Find(name, PARAMETER_OPEN, 0);
    var j :| OccursAt(name, PARAMETER_OPEN, j) && j + |PARAMETER_OPEN| < |name|;
  }

  /** The scan reaches the first opening inside the name. */
  lemma SkipIntoName(name: string, lines: string, i: nat)
    requires Without(name, '>') && i <= |name| && forall k | 0 <= k < i :: !OccursAt(name, PARAMETER_OPEN, k)
    ensures Parameters(FUNCTION_OPEN + name + ">" + lines) == Parameters(name[i..] + ">" + lines)
  {
    hide Parameters, ParameterHere;
    var front, back := FUNCTION_OPEN + name[..i], name[i..] + ">" + lines;
    var head := FUNCTION_OPEN + name + ">";
    forall k | 0 <= k < |front|
      ensures ParameterHere(front[k..] + back) == None
    {
      assert front[k..] + back == head[k..] + lines;
      OpenInHead(name, lines, k);
      NoOpen(head[k..] + lines);
    }
    SkipPlain(front, back);
    assert head + lines == front + back;
  }

  /** What the scan takes for the value of a parameter tag inside the function's name. */
  function Misread(call: Call): string
    requires call.arguments != []
  {
    "\n" + (PARAMETER_OPEN + call.arguments[0].0 + ">" + call.arguments[0].1)
  }

  /** A parameter tag inside the function's name takes the first argument's text for its value. */
  lemma ParametersMisread(call: Call)
    requires Fits(call) && IsDictionary(call.arguments) && call.arguments != [] && TagInside(call.name)
    ensures exists name: string :: Parameters(Body(call)) == [(name, Misread(call))] + call.arguments[1..]
  {
    hide Parameters, Free, TagInside, ParameterLines;
    var close := "\n" + (FUNCTION_END + "\n");
    var tail := ParameterLines(call.arguments[1..]) + close;
    var lines := ParameterLines(call.arguments) + close;
    var i := FirstInside(call.name);
    var inner := call.name[i + |PARAMETER_OPEN|..];
    SkipToTag("\n", FUNCTION_OPEN + call.name + ">" + lines);
    SkipIntoName(call.name, lines, i);
    MisreadText(call, i, tail);
    LongFree(call.arguments[0].0, call.arguments[0].1);
    ParameterAtHead(inner, Misread(call), tail);
    CloseSkipped();
    ParametersOfLines(call.arguments[1..], close);
    assert call.arguments[1..] + [] == call.arguments[1..];
    assert Parameters(Body(call)) == [(inner, Misread(call))] + call.arguments[1..];
  }

  lemma MisreadText(call: Call, i: nat, tail: string)
    requires call.arguments != [] && OccursAt(call.name, PARAMETER_OPEN, i)
    requires tail == ParameterLines(call.arguments[1..]) + ("\n" + (FUNCTION_END + "\n"))
    ensures var lines := ParameterLines(call.arguments) + ("\n" + (FUNCTION_END + "\n"));
            && Body(call) == "\n" + (FUNCTION_OPEN + call.name + ">" + lines)
            && call.name[i..] + ">" + lines ==
               ParameterText((call.name[i + |PARAMETER_OPEN|..], Misread(call))) + tail
  {
    var inner := call.name[i + |PARAMETER_OPEN|..];
    assert call.name[i..] == PARAMETER_OPEN + inner;
    var (name, value) := call.arguments[0];
    var more, close := ParameterLines(call.arguments[1..]), "\n" + (FUNCTION_END + "\n");
    assert ParameterLines(call.arguments) == "\n" + (ParameterText((name, value)) + more);
    hide *;
    RegroupText("\n", PARAMETER_OPEN + name + ">" + value, PARAMETER_END, more, close, PARAMETER_OPEN + inner + ">");
  }

  lemma RegroupText(n: string, a: string, e: string, more: string, close: string, front: string)
    ensures front + ((n + ((a + e) + more)) + close) == (front + (n + a) + e) + (more + close)
  {
  }

  lemma LongFree(name: string, value: string)
    requires Free(name + ">", PARAMETER_END) && Free(value, PARAMETER_END)
    ensures Free("\n" + (PARAMETER_OPEN + name + ">" + value), PARAMETER_END)
  {
    hide Free;
    FreeAfter(name + ">", value, PARAMETER_END);
    var rest := name + ">" + value;
    assert (PARAMETER_OPEN + rest)[1] != PARAMETER_END[1];
    FreeBefore(PARAMETER_OPEN, rest, PARAMETER_END);
    assert PARAMETER_OPEN + rest == PARAMETER_OPEN + name + ">" + value;
    assert ("\n" + (PARAMETER_OPEN + rest))[0] != PARAMETER_END[0];
    FreeBefore("\n", PARAMETER_OPEN + rest, PARAMETER_END);
  }

  lemma NoParameters()
    ensures Parameters("") == []
  {
  }

  // ---- all calls ------------------------------------------------------------------------

  function Bodies(calls: seq<Call>): seq<string> {
    if calls == [] then [] else [Body(calls[0])] + Bodies(calls[1..])
  }

  lemma CallAtHead(call: Call, rest: string)
    requires Fits(call)
    ensures CallBodies(CallText(call) + rest) == [Body(call)] + CallBodies(rest)
  {
    hide Body, CallBodies;
    var s := CallText(call) + rest;
    var body := Body(call);
    BodyFree(call);
    SoleHeadIsBorderFree(CALL_END);
    assert body != "" by {
      BodyStarts(call);
    }
    assert Free(body[1..], CALL_END) by {
      FreeTail(body, CALL_END);
    }
    assert CALL_START + body[..1] + body[1..] + CALL_END + rest == s;
    FieldEnds(CALL_START + body[..1], body[1..], CALL_END, rest);
    CallBodiesAt(s, |CALL_START| + |body|);
    assert s[|CALL_START|..|CALL_START| + |body|] == body;
    assert s[|CALL_START| + |body| + |CALL_END|..] == rest;
  }

  lemma CallBodiesAt(s: string, e: int)
    requires CALL_START <= s && e == Find(s, CALL_END, |CALL_START| + 1) && e != -1
    ensures CallBodies(s) == [s[|CALL_START|..e]] + CallBodies(s[e + |CALL_END|..])
  {
    hide Find, CallBodies;
    CallBodiesFirst(s);
  }

  lemma BodyStarts(call: Call)
    ensures Body(call) != ""
  {
  }

  lemma FreeTail(s: string, pat: string)
    requires s != "" && Free(s, pat)
    ensures Free(s[1..], pat)
  {
    forall i
      ensures !OccursAt(s[1..], pat, i)
    {
      if 0 <= i && i + |pat| <= |s| - 1 {
        assert s[1..][i..i + |pat|] == s[i + 1..i + 1 + |pat|];
        assert !OccursAt(s, pat, i + 1);
      }
    }
  }

  lemma BetweenCalls(tail: string)
    ensures CallBodies("\n" + tail) == CallBodies(tail)
    ensures CallBodies("") == []
  {
    assert ("\n" + tail)[1..] == tail;
    assert ("\n" + tail)[0] != CALL_START[0];
  }

  lemma {:induction false} BodiesBefore(calls: seq<Call>, post: string)
    requires forall i | 0 <= i < |calls| :: Fits(calls[i])
    ensures CallBodies(Join(CallTexts(calls), "\n") + post) == Bodies(calls) + CallBodies(post)
  {
    hide CallBodies, CallText, Body, Fits;
    if calls == [] {
      assert Join(CallTexts(calls), "\n") + post == post;
    } else if |calls| == 1 {
      CallAtHead(calls[0], post);
    } else {
      var tail := Join(CallTexts(calls[1..]), "\n");
      BodiesBefore(calls[1..], post);
      CallAtHead(calls[0], "\n" + (tail + post));
      BetweenCalls(tail + post);
      assert CallTexts(calls)[1..] == CallTexts(calls[1..]);
      RegroupJoined(CallText(calls[0]), "\n", tail, post);
    }
  }

  lemma RegroupJoined(a: string, n: string, b: string, c: string)
    ensures (a + (n + b)) + c == a + (n + (b + c))
  {
  }

  lemma BodiesOfJoined(calls: seq<Call>)
    requires forall i | 0 <= i < |calls| :: Fits(calls[i])
    ensures CallBodies(Join(CallTexts(calls), "\n")) == Bodies(calls)
  {
    hide CallBodies, CallText, Body, Fits, Join;
    BodiesBefore(calls, "");
    BetweenCalls("");
    assert Join(CallTexts(calls), "\n") + "" == Join(CallTexts(calls), "\n");
  }

  /** Text without an opening delimiter is skipped up to a call or the end. */
  lemma {:induction false} SkipProse(pre: string, rest: string)
    requires Free(pre, CALL_START) && (rest == "" || rest[0] == CALL_START[0])
    ensures CallBodies(pre + rest) == CallBodies(rest)
  {
    if pre == "" {
      assert pre + rest == rest;
    } else {
      var s := pre + rest;
      NoneAtFront(pre, rest);
      assert s[1..] == pre[1..] + rest;
      assert CallBodies(s) == CallBodies(s[1..]);
      FreeTail(pre, CALL_START);
      hide CallBodies;
      SkipProse(pre[1..], rest);
    }
  }

  lemma NoneAtFront(pre: string, rest: string)
    requires pre != "" && Free(pre, CALL_START) && (rest == "" || rest[0] == CALL_START[0])
    ensures !(CALL_START <= pre + rest)
  {
    assert !OccursAt(pre, CALL_START, 0);
    assert |CALL_START| <= |pre| ==> (pre + rest)[..|CALL_START|] == pre[0..0 + |CALL_START|];
    assert rest != "" ==> (pre + rest)[|pre|] == rest[0];
  }

  lemma BodiesAmong(pre: string, calls: seq<Call>, post: string)
    requires calls != [] && forall i | 0 <= i < |calls| :: Fits(calls[i])
    requires Free(pre, CALL_START) && Free(post, CALL_START)
    ensures CallBodies(pre + Join(CallTexts(calls), "\n") + post) == Bodies(calls)
  {
    hide CallBodies, CallText, Body, Fits, Join, Free;
    var text := Join(CallTexts(calls), "\n");
    TextStarts(calls);
    assert pre + text + post == pre + (text + post);
    SkipProse(pre, text + post);
    BodiesBefore(calls, post);
    SkipProse(post, "");
    assert post + "" == post;
    BetweenCalls("");
  }

  lemma TextStarts(calls: seq<Call>)
    requires calls != []
    ensures var text := Join(CallTexts(calls), "\n");
            text != "" && text[0] == CALL_START[0]
  {
    hide Body;
  }

  /** The function found in a printed call. */
  function ParsedCall(call: Call): Function {
    Function(call.name, DictOf(Parameters(Body(call))))
  }

  lemma {:induction false} FunctionsOfBodies(calls: seq<Call>)
    requires forall i | 0 <= i < |calls| :: Fits(calls[i])
    ensures |FunctionsOf(Bodies(calls))| == |calls|
    ensures forall i | 0 <= i < |calls| :: FunctionsOf(Bodies(calls))[i] == ParsedCall(calls[i])
  {
    hide FunctionName, Parameters, Body, Fits, DictOf;
    if calls != [] {
      var n := |calls| - 1;
      FunctionsOfBodies(calls[..n]);
      BodiesSnoc(calls[..n], calls[n]);
      assert calls[..n] + [calls[n]] == calls;
      assert Bodies(calls)[..n] == Bodies(calls[..n]);
      FunctionNameOfBody(calls[n]);
    }
  }

  lemma {:induction false} BodiesSnoc(calls: seq<Call>, call: Call)
    ensures Bodies(calls + [call]) == Bodies(calls) + [Body(call)]
    ensures |Bodies(calls)| == |calls|
  {
    hide Body;
    if calls == [] {
      assert Bodies([call][1..]) == [];
    } else {
      assert (calls + [call])[1..] == calls[1..] + [call];
      BodiesSnoc(calls[1..], call);
    }
  }

  /** With distinct names the parsed dictionary is the printed one. */
  lemma {:induction false} DictOfDistinct(pairs: seq<(string, string)>)
    requires forall i, j | 0 <= i < j < |pairs| :: pairs[i].0 != pairs[j].0
    ensures DictOf(pairs).Keys == set i | 0 <= i < |pairs| :: pairs[i].0
    ensures forall i | 0 <= i < |pairs| :: pairs[i].0 in DictOf(pairs) && DictOf(pairs)[pairs[i].0] == pairs[i].1
  {
    if pairs != [] {
      var n := |pairs| - 1;
      DictOfDistinct(pairs[..n]);
      assert forall i | 0 <= i < n :: pairs[..n][i] == pairs[i];
    }
  }

  // ---- what parsing can return ----------------------------------------------------------

  /** A body holds no closing delimiter, except perhaps as its very beginning. */
  ghost predicate FreeInside(body: string) {
    forall i | 1 <= i :: !OccursAt(body, CALL_END, i)
  }

  lemma SliceInside(s: string, from: nat, to: nat)
    requires from <= to <= |s|
    requires forall i | from + 1 <= i < to :: !OccursAt(s, CALL_END, i)
    ensures FreeInside(s[from..to])
  {
    forall i | 1 <= i
      ensures !OccursAt(s[from..to], CALL_END, i)
    {
      if OccursAt(s[from..to], CALL_END, i) {
        InSlice(s, from, to, CALL_END, i);
      }
    }
  }

  lemma {:induction false} BodiesInside(s: string)
    ensures forall body | body in CallBodies(s) :: FreeInside(body)
    decreases |s|
  {
    hide FreeInside;
    if s != "" {
      var e := Find(s, CALL_END, |CALL_START| + 1);
      if CALL_START <= s && e != -1 {
        BodiesInside(s[e + |CALL_END|..]);
        SliceInside(s, |CALL_START|, e);
      } else {
        BodiesInside(s[1..]);
      }
    }
  }

  /** A slice that does not begin where the body does holds no closing delimiter at all. */
  lemma Inside(s: string, from: nat, to: nat)
    requires FreeInside(s) && 1 <= from <= to <= |s|
    ensures Free(s[from..to], CALL_END)
  {
    forall i
      ensures !OccursAt(s[from..to], CALL_END, i)
    {
      if OccursAt(s[from..to], CALL_END, i) {
        InSlice(s, from, to, CALL_END, i);
      }
    }
  }

  lemma ValueInside(s: string, from: nat, to: nat)
    requires FreeInside(s) && 1 <= from <= to <= |s|
    requires forall i | from <= i < to :: !OccursAt(s, PARAMETER_END, i)
    ensures ValueFree(s[from..to])
  {
    Inside(s, from, to);
    forall i
      ensures !OccursAt(s[from..to], PARAMETER_END, i)
    {
      if OccursAt(s[from..to], PARAMETER_END, i) {
        InSlice(s, from, to, PARAMETER_END, i);
      }
    }
  }

  lemma NameInside(s: string, open: string)
    requires FreeInside(s) && open != "" && TagName(s, open).Some?
    ensures IsName(TagName(s, open).value)
  {
    var name := TagName(s, open).value;
    var end := |open| + |name| + 1;
    Inside(s, |open|, end);
    assert s[|open|..end] == name + ">";
  }

  lemma SuffixInside(s: string, from: nat)
    requires FreeInside(s) && from <= |s|
    ensures FreeInside(s[from..])
  {
    forall i | 1 <= i
      ensures !OccursAt(s[from..], CALL_END, i)
    {
      if OccursAt(s[from..], CALL_END, i) {
        assert s[from..] == s[from..|s|];
        InSlice(s, from, |s|, CALL_END, i);
      }
    }
  }

  ghost predicate PairFits(pair: (string, string)) {
    IsName(pair.0) && ValueFree(pair.1)
  }

  lemma ParameterInside(s: string)
    requires FreeInside(s) && ParameterHere(s).Some?
    ensures var (name, value, rest) := ParameterHere(s).value;
            PairFits((name, value)) && FreeInside(rest)
  {
    hide FreeInside, ValueFree, IsName, Find;
    var name := TagName(s, PARAMETER_OPEN).value;
    var from := |PARAMETER_OPEN| + |name| + 1;
    var e := Find(s, PARAMETER_END, from);
    NameInside(s, PARAMETER_OPEN);
    SuffixInside(s, e + |PARAMETER_END|);
    ValueInside(s, from, e);
  }

  lemma {:induction false} ParametersInside(s: string)
    requires FreeInside(s)
    ensures forall pair | pair in Parameters(s) :: PairFits(pair)
    decreases |s|
  {
    hide FreeInside, PairFits, ParameterHere;
    if s != "" {
      if ParameterHere(s).Some? {
        ParameterInside(s);
        ParametersInside(ParameterHere(s).value.2);
      } else {
        SuffixInside(s, 1);
        ParametersInside(s[1..]);
      }
    }
  }

  lemma {:induction false} FunctionNameInside(s: string)
    requires FreeInside(s) && FunctionName(s).Some?
    ensures IsName(FunctionName(s).value)
    decreases |s|
  {
    hide FreeInside, IsName, TagName;
    if TagName(s, FUNCTION_OPEN).Some? {
      NameInside(s, FUNCTION_OPEN);
    } else {
      SuffixInside(s, 1);
      FunctionNameInside(s[1..]);
    }
  }

  ghost predicate FunctionFits(f: Function) {
    IsName(f.name) && forall name | name in f.arguments :: PairFits((name, f.arguments[name]))
  }

  lemma {:induction false} FunctionsInside(bodies: seq<string>)
    requires forall body | body in bodies :: FreeInside(body)
    ensures forall f | f in FunctionsOf(bodies) :: FunctionFits(f)
  {
    hide FreeInside, PairFits, IsName, DictOf, FunctionName, Parameters;
    if bodies != [] {
      var last := bodies[|bodies| - 1];
      FunctionsInside(bodies[..|bodies| - 1]);
      ParametersInside(last);
      DictOfPairs(Parameters(last));
      if FunctionName(last).Some? {
        FunctionNameInside(last);
      }
    }
  }

  /** Whatever the response, parsed names fit in tags and parsed values hold no closing delimiter. */
  lemma ParsedFits(response: string)
    ensures forall f | f in FunctionsOf(CallBodies(response)) :: FunctionFits(f)
  {
    BodiesInside(response);
    FunctionsInside(CallBodies(response));
  }

  // ---- round trip -----------------------------------------------------------------------

  /** The same name, the same argument names, the same values. */
  ghost predicate SameCall(f: Function, call: Call) {
    && f.name == call.name
    && (forall k | 0 <= k < |call.arguments| ::
          call.arguments[k].0 in f.arguments && f.arguments[call.arguments[k].0] == call.arguments[k].1)
    && (forall name | name in f.arguments :: exists k | 0 <= k < |call.arguments| :: call.arguments[k].0 == name)
  }

  ghost predicate SameCalls(functions: seq<Function>, calls: seq<Call>) {
    |functions| == |calls| && forall i | 0 <= i < |calls| :: SameCall(functions[i], calls[i])
  }

  /** A fitting call is read back as it was exactly when its function's name leaves its parameters alone. */
  lemma OneParsed(call: Call)
    requires Fits(call) && IsDictionary(call.arguments)
    ensures SameCall(ParsedCall(call), call) <==> Printable(call)
  {
    hide Body, Parameters, DictOf, Fits, TagInside, Free;
    if Printable(call) {
      ParametersOfBody(call);
      DictOfDistinct(call.arguments);
    } else {
      ParametersMisread(call);
      var name: string :| Parameters(Body(call)) == [(name, Misread(call))] + call.arguments[1..];
      DictOfPairs(Parameters(Body(call)));
      NotAmong(call.arguments, name, Misread(call));
    }
  }

  lemma NotAmong(arguments: seq<(string, string)>, name: string, value: string)
    requires IsDictionary(arguments) && arguments != [] && |value| > |arguments[0].1|
    ensures arguments[0] !in [(name, value)] + arguments[1..]
  {
    hide Free;
    var all := [(name, value)] + arguments[1..];
    forall k | 0 <= k < |all|
      ensures all[k] != arguments[0]
    {
      if 0 < k {
        assert all[k] == arguments[k];
      }
    }
  }

  /** A function that fits and is the same as a call makes the call fit. */
  lemma SameFits(f: Function, call: Call)
    requires SameCall(f, call) && FunctionFits(f)
    ensures Fits(call)
  {
    hide IsName, ValueFree;
    forall i | 0 <= i < |call.arguments|
      ensures IsName(call.arguments[i].0) && ValueFree(call.arguments[i].1)
    {
      assert PairFits((call.arguments[i].0, f.arguments[call.arguments[i].0]));
    }
  }

  /** What is printed is what is parsed exactly when every call is printable. */
  method CallsRoundTrip(calls: seq<Call>) returns (functions: Option<seq<Function>>)
    requires calls != [] && forall i | 0 <= i < |calls| :: IsDictionary(calls[i].arguments)
    ensures functions.Some? && SameCalls(functions.value, calls) <==> forall i | 0 <= i < |calls| :: Printable(calls[i])
  {
    hide *;
    NothingFree();
    functions := ReplyRoundTrip("", calls, "");
  }

  lemma NothingFree()
    ensures Free("", CALL_START)
  {
  }

  /** The same for a reply with other text before and behind the calls, as long as no further call
      begins there. */
  method ReplyRoundTrip(pre: string, calls: seq<Call>, post: string) returns (functions: Option<seq<Function>>)
    requires calls != [] && forall i | 0 <= i < |calls| :: IsDictionary(calls[i].arguments)
    requires Free(pre, CALL_START) && Free(post, CALL_START)
    ensures functions.Some? && SameCalls(functions.value, calls) <==> forall i | 0 <= i < |calls| :: Printable(calls[i])
  {
    hide *;
    var text := FormatToolCalls(calls);
    functions := GetToolcall(pre + text + post);
    CallsParsed(pre, calls, post);
  }

  lemma CallsParsed(pre: string, calls: seq<Call>, post: string)
    requires calls != [] && forall i | 0 <= i < |calls| :: IsDictionary(calls[i].arguments)
    requires Free(pre, CALL_START) && Free(post, CALL_START)
    ensures var bodies := CallBodies(pre + Join(CallTexts(calls), "\n") + post);
            bodies != [] && SameCalls(FunctionsOf(bodies), calls) <==> forall i | 0 <= i < |calls| :: Printable(calls[i])
  {
    hide CallBodies, FunctionsOf, Join, CallTexts, SameCall, FunctionFits, IsDictionary, IsName, ValueFree, TagInside, ParsedCall, Free;
    var text := pre + Join(CallTexts(calls), "\n") + post;
    var functions := FunctionsOf(CallBodies(text));
    ParsedFits(text);
    if SameCalls(functions, calls) {
      forall i | 0 <= i < |calls|
        ensures Fits(calls[i])
      {
        assert functions[i] in functions;
        SameFits(functions[i], calls[i]);
      }
    }
    if forall i | 0 <= i < |calls| :: Fits(calls[i]) {
      BodiesAmong(pre, calls, post);
      FunctionsOfBodies(calls);
      assert Bodies(calls) != [];
      forall i | 0 <= i < |calls|
        ensures SameCall(functions[i], calls[i]) <==> Printable(calls[i])
      {
        OneParsed(calls[i]);
      }
    }
  }
}
