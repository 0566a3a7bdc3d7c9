/** The Seed agent template: tool calls printed as tagged text, and the parser that reads them back. */
module ToolCalls {
  import opened Options
  import opened Scan
  import opened Sequences

  /** A call before printing: arguments in the order of the dictionary. */
  datatype Call = Call(name: string, arguments: seq<(string, string)>)

  /** A parsed call: the arguments are a dictionary. */
  datatype Function = Function(name: string, arguments: map<string, string>)

  const CALL_START := "<seed:tool_call>"
  const CALL_END := "</seed:tool_call>"
  const FUNCTION_OPEN := "<function="
  const FUNCTION_END := "</function>"
  const PARAMETER_OPEN := "<parameter="
  const PARAMETER_END := "</parameter>"

  // ---- printing -------------------------------------------------------------------------

  function ParameterText(argument: (string, string)): string {
    PARAMETER_OPEN + argument.0 + ">" + argument.1 + PARAMETER_END
  }

  /** The lines of one call, each preceded by a line break. */
  function ParameterLines(arguments: seq<(string, string)>): string {
    if arguments == [] then "" else "\n" + (ParameterText(arguments[0]) + ParameterLines(arguments[1..]))
  }

  /** Everything between the delimiters of a call. */
  function Body(call: Call): string {
    "\n" + (FUNCTION_OPEN + call.name + ">" + (ParameterLines(call.arguments) + ("\n" + (FUNCTION_END + "\n"))))
  }

  function CallText(call: Call): string {
    CALL_START + Body(call) + CALL_END
  }

  function CallTexts(calls: seq<Call>): seq<string> {
    if calls == [] then [] else [CallText(calls[0])] + CallTexts(calls[1..])
  }

  lemma {:induction false} JoinSnoc(parts: seq<string>, part: string, separator: string)
    ensures Join(parts + [part], separator) ==
            if parts == [] then part else Join(parts, separator) + (separator + part)
  {
    if |parts| == 1 {
      assert (parts + [part])[1..] == [part];
    } else if |parts| > 1 {
      assert (parts + [part])[1..] == parts[1..] + [part];
      JoinSnoc(parts[1..], part, separator);
      assert Join(parts + [part], separator) ==
             parts[0] + (separator + (Join(parts[1..], separator) + (separator + part)));
    }
  }

  lemma ParameterLinesFirst(arguments: seq<(string, string)>)
    ensures ParameterLines([]) == ""
    ensures arguments != [] ==>
              ParameterLines(arguments) == "\n" + (ParameterText(arguments[0]) + ParameterLines(arguments[1..]))
  {
    hide ParameterText;
  }

  lemma RegroupLines(a: string, b: string, c: string, d: string)
    ensures a + (b + (c + d)) == (a + (b + c)) + d
  {
  }

  lemma {:induction false} ParameterLinesSnoc(arguments: seq<(string, string)>, argument: (string, string))
    ensures ParameterLines(arguments + [argument]) == ParameterLines(arguments) + ("\n" + ParameterText(argument))
  {
    hide ParameterText;
    hide ParameterLines;
    ParameterLinesFirst(arguments);
    ParameterLinesFirst(arguments + [argument]);
    if arguments == [] {
      assert (arguments + [argument])[1..] == [];
      assert ParameterText(argument) + "" == ParameterText(argument);
    } else {
      assert (arguments + [argument])[1..] == arguments[1..] + [argument];
      ParameterLinesSnoc(arguments[1..], argument);
      RegroupLines("\n", ParameterText(arguments[0]), ParameterLines(arguments[1..]), "\n" + ParameterText(argument));
    }
  }

  lemma {:induction false} CallTextsSnoc(calls: seq<Call>, call: Call)
    ensures CallTexts(calls + [call]) == CallTexts(calls) + [CallText(call)]
  {
    hide CallText;
    if calls == [] {
      assert CallTexts([call][1..]) == [];
    } else {
      assert (calls + [call])[1..] == calls[1..] + [call];
      CallTextsSnoc(calls[1..], call);
    }
  }

  /** The printed form, letter by letter. */
  lemma PrintedForm(name: string, arguments: seq<(string, string)>, argument: (string, string))
    ensures CallText(Call(name, arguments)) ==
            "<seed:tool_call>\n<function=" + name + ">" + ParameterLines(arguments) + "\n</function>\n</seed:tool_call>"
    ensures ParameterLines([]) == ""
    ensures ParameterLines(arguments + [argument]) ==
            ParameterLines(arguments) + ("\n<parameter=" + argument.0 + ">" + argument.1 + "</parameter>")
  {
    hide ParameterLines, ParameterText, CallText;
    NoLines();
    ParameterLinesSnoc(arguments, argument);
    ParameterPrinted(argument);
    CallPrinted(name, arguments);
  }

  lemma CallPrinted(name: string, arguments: seq<(string, string)>)
    ensures CallText(Call(name, arguments)) ==
            "<seed:tool_call>\n<function=" + name + ">" + ParameterLines(arguments) + "\n</function>\n</seed:tool_call>"
  {
    hide ParameterLines;
    var lines := ParameterLines(arguments);
    assert CALL_START + "\n" + FUNCTION_OPEN == "<seed:tool_call>\n<function=";
    assert "\n" + FUNCTION_END + "\n" + CALL_END == "\n</function>\n</seed:tool_call>";
    Ungroup(CALL_START, "\n", FUNCTION_OPEN, name, ">", lines, FUNCTION_END, CALL_END);
  }

  lemma ParameterPrinted(argument: (string, string))
    ensures "\n" + ParameterText(argument) == "\n<parameter=" + argument.0 + ">" + argument.1 + "</parameter>"
  {
    assert "\n" + PARAMETER_OPEN == "\n<parameter=";
  }

  lemma Ungroup(a: string, n: string, b: string, c: string, d: string, e: string, f: string, z: string)
    ensures a + (n + (b + c + d + (e + (n + (f + n))))) + z == (a + n + b) + c + d + e + (n + f + n + z)
  {
    assert n + (b + c + d + (e + (n + (f + n)))) == (n + b) + c + d + e + (n + f + n);
  }

  lemma {:induction false} CallTextsAt(calls: seq<Call>)
    ensures |CallTexts(calls)| == |calls|
    ensures forall i | 0 <= i < |calls| :: CallTexts(calls)[i] == CallText(calls[i])
  {
    hide CallText;
    if calls != [] {
      CallTextsAt(calls[1..]);
    }
  }

  method FormatCall(call: Call) returns (text: string)
    ensures text == CallText(call)
  {
    hide Join, ParameterLines, ParameterText, CallText;
    var head := FUNCTION_OPEN + call.name + ">";
    var parts := [head];
    FirstPart(head);
    for i := 0 to |call.arguments|
      invariant parts != []
      invariant Join(parts, "\n") == head + ParameterLines(call.arguments[..i])
    {
      var argument := call.arguments[i];
      ParameterLinesSnoc(call.arguments[..i], argument);
      assert call.arguments[..i + 1] == call.arguments[..i] + [argument];
      JoinSnoc(parts, ParameterText(argument), "\n");
      Assoc(head, ParameterLines(call.arguments[..i]), "\n" + ParameterText(argument));
      parts := parts + [ParameterText(argument)];
    }
    assert call.arguments[..|call.arguments|] == call.arguments;
    JoinSnoc(parts, FUNCTION_END, "\n");
    parts := parts + [FUNCTION_END];
    text := CALL_START + "\n" + Join(parts, "\n") + "\n" + CALL_END;
    CallTextIs(call, Join(parts, "\n"));
  }

  lemma FirstPart(head: string)
    ensures Join([head], "\n") == head + ParameterLines([])
  {
    NoLines();
    assert head + "" == head;
  }

  lemma CallTextIs(call: Call, joined: string)
    requires joined == (FUNCTION_OPEN + call.name + ">" + ParameterLines(call.arguments)) + ("\n" + FUNCTION_END)
    ensures CALL_START + "\n" + joined + "\n" + CALL_END == CallText(call)
  {
    hide ParameterLines;
    Regroup(CALL_START, "\n", FUNCTION_OPEN + call.name + ">", ParameterLines(call.arguments), FUNCTION_END, CALL_END);
  }

  lemma Regroup(a: string, n: string, b: string, c: string, d: string, e: string)
    ensures a + n + ((b + c) + (n + d)) + n + e == a + (n + (b + (c + (n + (d + n))))) + e
  {
    assert (b + c) + (n + d) + n == b + (c + (n + (d + n)));
  }

  lemma NoLines()
    ensures ParameterLines([]) == ""
  {
  }

  method FormatToolCalls(calls: seq<Call>) returns (text: string)
    ensures text == Join(CallTexts(calls), "\n")
  {
    var formatted := [];
    for i := 0 to |calls|
      invariant formatted == CallTexts(calls[..i])
    {
      var one := FormatCall(calls[i]);
      CallTextsSnoc(calls[..i], calls[i]);
      assert calls[..i + 1] == calls[..i] + [calls[i]];
      formatted := formatted + [one];
    }
    assert calls[..|calls|] == calls;
    text := Join(formatted, "\n");
  }

  // ---- parsing --------------------------------------------------------------------------

  /** Where the closing delimiter of a call at the front begins; -1 if there is no call. */
  function CallEnd(s: string): (e: int)
    ensures e == -1 || (|CALL_START| < e && e + |CALL_END| <= |s|)
  {
    if CALL_START <= s then Find(s, CALL_END, |CALL_START| + 1) else -1
  }

  /** What `start(.+?)end` finds, left to right, without overlap: at least one character each. */
  function CallBodies(s: string): seq<string>
    decreases |s|
  {
    if s == "" then []
    else
      var e := CallEnd(s);
      if e == -1 then CallBodies(s[1..])
      else [s[|CALL_START|..e]] + CallBodies(s[e + |CALL_END|..])
  }

  /** The name `open([^>]+)>` captures at the front, if it matches there. */
  function TagName(s: string, open: string): (r: Option<string>)
    ensures r.Some? ==> |open| + |r.value| + 1 <= |s|
  {
    if !(open <= s) then None
    else
      var n := RunTo(s[|open|..], '>');
      if n == 0 || |open| + n == |s| then None else Some(s[|open|..|open| + n])
  }

  /** The first function tag of a body. */
  function FunctionName(s: string): Option<string> {
    if s == "" then None
    else
      var here := TagName(s, FUNCTION_OPEN);
      if here.Some? then here else FunctionName(s[1..])
  }

  /** The parameter at the front, if there is one: its name, its value and the text after it. */
  function ParameterHere(s: string): (r: Option<(string, string, string)>)
    ensures r.Some? ==> |r.value.2| < |s|
  {
    var name :- TagName(s, PARAMETER_OPEN);
    var from := |PARAMETER_OPEN| + |name| + 1;
    var e := Find(s, PARAMETER_END, from);
    if e == -1 then None else Some((name, s[from..e], s[e + |PARAMETER_END|..]))
  }

  /** All parameters of a body, left to right, without overlap. */
  function Parameters(s: string): seq<(string, string)>
    decreases |s|
  {
    if s == "" then []
    else
      var here := ParameterHere(s);
      if here.None? then Parameters(s[1..])
      else [(here.value.0, here.value.1)] + Parameters(here.value.2)
  }

  /** A dictionary built from pairs: a later pair replaces an earlier one of the same name. */
  function DictOf(pairs: seq<(string, string)>): map<string, string> {
    if pairs == [] then map[]
    else DictOf(pairs[..|pairs| - 1])[pairs[|pairs| - 1].0 := pairs[|pairs| - 1].1]
  }

  function FunctionsOf(bodies: seq<string>): seq<Function> {
    if bodies == [] then []
    else
      var last := bodies[|bodies| - 1];
      var name := FunctionName(last);
      FunctionsOf(bodies[..|bodies| - 1])
      + (if name.None? then [] else [Function(name.value, DictOf(Parameters(last)))])
  }

  // ---- what the scans find --------------------------------------------------------------

  /** A call begins at i and ends before e: its closing delimiter is the first that leaves at
      least one character between the two. */
  ghost predicate CallAt(s: string, i: int, e: int) {
    && OccursAt(s, CALL_START, i)
    && i + |CALL_START| + 1 <= e - |CALL_END| && OccursAt(s, CALL_END, e - |CALL_END|)
    && forall j | i + |CALL_START| + 1 <= j < e - |CALL_END| :: !OccursAt(s, CALL_END, j)
  }

  ghost function IsCall(s: string): (int, int) -> bool {
    (i, e) => CallAt(s, i, e)
  }

  /** In every text the bodies found are those of the leftmost calls, in order. */
  lemma {:induction false} CallBodiesAre(s: string, p: nat) returns (hits: seq<(int, int)>)
    requires p <= |s|
    ensures Leftmost(hits, IsCall(s), p)
    ensures |CallBodies(s[p..])| == |hits|
    ensures forall k | 0 <= k < |hits| ::
              && 0 <= hits[k].0 + |CALL_START| <= hits[k].1 - |CALL_END| <= |s|
              && CallBodies(s[p..])[k] == s[hits[k].0 + |CALL_START|..hits[k].1 - |CALL_END|]
    decreases |s| - p
  {
    hide Leftmost, CallAt, CallBodies;
    if p == |s| {
      hits := [];
      NoCallBehind(s);
    } else {
      var end := CallHere(s, p);
      if end != -1 {
        var rest := CallBodiesAre(s, end);
        LeftmostTake(rest, IsCall(s), p, end);
        hits := [(p, end)] + rest;
      } else {
        hits := CallBodiesAre(s, p + 1);
        LeftmostSkip(hits, IsCall(s), p);
      }
    }
  }

  lemma NoCallBehind(s: string)
    ensures Leftmost([], IsCall(s), |s|) && CallBodies(s[|s|..]) == []
  {
  }

  /** What the scan does at one position, and where a call there ends; -1 if there is none. */
  lemma CallHere(s: string, p: nat) returns (end: int)
    requires p < |s|
    ensures end == -1 ==> CallBodies(s[p..]) == CallBodies(s[p + 1..]) && forall e :: !CallAt(s, p, e)
    ensures end != -1 ==>
              && p + |CALL_START| <= end - |CALL_END| && end <= |s| && CallAt(s, p, end)
              && CallBodies(s[p..]) == [s[p + |CALL_START|..end - |CALL_END|]] + CallBodies(s[end..])
  {
    hide CallAt, CallBodies, CallEnd;
    var t := s[p..];
    CallBodiesFirst(t);
    RestSlice(s, p, 1, 1);
    var e := CallEnd(t);
    if e != -1 {
      end := p + e + |CALL_END|;
      CallTaken(s, p);
      RestSlice(s, p, |CALL_START|, e);
      RestSlice(s, p, e, e + |CALL_END|);
    } else {
      end := -1;
      CallMissing(s, p);
    }
  }

  lemma CallTaken(s: string, p: nat)
    requires p < |s| && CallEnd(s[p..]) != -1
    ensures CallAt(s, p, p + CallEnd(s[p..]) + |CALL_END|)
  {
    hide Find, OccursAt;
    InRest(s, p, CALL_START, 0);
    Front(s[p..], CALL_START);
    FindInRest(s, p, CALL_END, |CALL_START| + 1);
  }

  lemma CallMissing(s: string, p: nat)
    requires p < |s| && CallEnd(s[p..]) == -1
    ensures forall e :: !CallAt(s, p, e)
  {
    hide Find, OccursAt;
    InRest(s, p, CALL_START, 0);
    Front(s[p..], CALL_START);
    FindInRest(s, p, CALL_END, |CALL_START| + 1);
  }

  lemma CallBodiesFirst(t: string)
    requires t != ""
    ensures var e := CallEnd(t);
            CallBodies(t) ==
            if e == -1 then CallBodies(t[1..]) else [t[|CALL_START|..e]] + CallBodies(t[e + |CALL_END|..])
  {
    hide CallEnd;
  }

  /** There is a call exactly when an opening delimiter is followed by a closing one that leaves
      at least one character between the two. */
  lemma AnyCall(s: string)
    ensures CallBodies(s) != [] <==>
            exists i, e :: OccursAt(s, CALL_START, i) && i + |CALL_START| + 1 <= e && OccursAt(s, CALL_END, e)
  {
    hide CallBodies, OccursAt;
    assert s[0..] == s;
    var hits := CallBodiesAre(s, 0);
    if i, e :| OccursAt(s, CALL_START, i) && i + |CALL_START| + 1 <= e && OccursAt(s, CALL_END, e) {
      assert 0 <= i by {
        Occurring(s, CALL_START, i);
      }
      var r := Find(s, CALL_END, i + |CALL_START| + 1);
      assert r != -1;
      assert IsCall(s)(i, r + |CALL_END|);
    }
  }

  /** `open([^>]+)>` matches at i and captures the name. */
  ghost predicate TagAt(s: string, open: string, i: int, name: string) {
    && name != "" && (forall k | 0 <= k < |name| :: name[k] != '>')
    && OccursAt(s, open + name + ">", i)
  }

  lemma TagNameIs(s: string, open: string, p: nat)
    requires p <= |s|
    ensures TagName(s[p..], open).Some? ==> TagAt(s, open, p, TagName(s[p..], open).value)
    ensures forall name | TagAt(s, open, p, name) :: TagName(s[p..], open) == Some(name)
  {
    hide TagName, TagAt;
    if TagName(s[p..], open).Some? {
      TagFound(s, open, p);
    }
    forall name | TagAt(s, open, p, name)
      ensures TagName(s[p..], open) == Some(name)
    {
      TagTaken(s, open, p, name);
    }
  }

  lemma TagFound(s: string, open: string, p: nat)
    requires p <= |s| && TagName(s[p..], open).Some?
    ensures TagAt(s, open, p, TagName(s[p..], open).value)
  {
    var t := s[p..];
    var name := TagName(t, open).value;
    var end := |open| + |name|;
    assert t[..end + 1] == t[..|open|] + t[|open|..end] + [t[end]];
    assert s[p..p + end + 1] == t[..end + 1];
  }

  lemma TagTaken(s: string, open: string, p: nat, name: string)
    requires p <= |s| && TagAt(s, open, p, name)
    ensures TagName(s[p..], open) == Some(name)
  {
    var t, end := s[p..], |open| + |name| + 1;
    var rest := t[end..];
    assert t == (open + name + ">") + rest by {
      assert t[..end] == s[p..p + end];
    }
    assert t[|open|..] == name + (">" + rest);
    RunToEnds(name, '>', ">" + rest);
    assert open <= t && t[|open|..|open| + |name|] == t[|open|..][..|name|] == name;
  }

  /** The name is that of the leftmost function tag; there is none exactly when there is no tag. */
  lemma {:induction false} FunctionNameIs(s: string, p: nat)
    requires p <= |s|
    ensures FunctionName(s[p..]).Some? ==>
              exists i | p <= i :: TagAt(s, FUNCTION_OPEN, i, FunctionName(s[p..]).value)
                                   && forall k, name | p <= k < i :: !TagAt(s, FUNCTION_OPEN, k, name)
    ensures FunctionName(s[p..]).None? ==> forall i, name | p <= i :: !TagAt(s, FUNCTION_OPEN, i, name)
    decreases |s| - p
  {
    hide TagName, TagAt;
    if p == |s| {
      NoTagBehind(s, FUNCTION_OPEN);
    } else {
      assert s[p..][1..] == s[p + 1..];
      TagNameIs(s, FUNCTION_OPEN, p);
      FunctionNameIs(s, p + 1);
    }
  }

  lemma NoTagBehind(s: string, open: string)
    ensures forall i, name | |s| <= i :: !TagAt(s, open, i, name)
  {
  }

  /** A parameter begins at i and ends before e: its closing tag is the first behind its name. */
  ghost predicate ParameterAt(s: string, i: int, e: int, name: string) {
    var from, to := i + |PARAMETER_OPEN| + |name| + 1, e - |PARAMETER_END|;
    && TagAt(s, PARAMETER_OPEN, i, name)
    && from <= to && OccursAt(s, PARAMETER_END, to)
    && forall j | from <= j < to :: !OccursAt(s, PARAMETER_END, j)
  }

  ghost function IsParameter(s: string): (int, int) -> bool {
    (i, e) => exists name :: ParameterAt(s, i, e, name)
  }

  /** In every body the parameters found are the leftmost ones, in order, with their text as values. */
  lemma {:induction false} ParametersAre(s: string, p: nat) returns (hits: seq<(int, int)>)
    requires p <= |s|
    ensures Leftmost(hits, IsParameter(s), p)
    ensures |Parameters(s[p..])| == |hits|
    ensures forall k | 0 <= k < |hits| ::
              var (name, value) := Parameters(s[p..])[k];
              && ParameterAt(s, hits[k].0, hits[k].1, name)
              && 0 <= hits[k].0 && hits[k].1 <= |s|
              && s[hits[k].0..hits[k].1] == PARAMETER_OPEN + name + ">" + value + PARAMETER_END
    decreases |s| - p
  {
    hide Leftmost, ParameterAt, ParameterHere;
    var t := s[p..];
    var hit := IsParameter(s);
    if p == |s| {
      hits := [];
      NoParameterBehind(s);
    } else {
      ParameterHereIs(s, p);
      if ParameterHere(t).Some? {
        var (name, value, after) := ParameterHere(t).value;
        var end := |s| - |after|;
        var rest := ParametersAre(s, end);
        assert hit(p, end);
        LeftmostTake(rest, hit, p, end);
        hits := [(p, end)] + rest;
      } else {
        assert t[1..] == s[p + 1..];
        hits := ParametersAre(s, p + 1);
        LeftmostSkip(hits, hit, p);
      }
    }
  }

  lemma NoParameterBehind(s: string)
    ensures Leftmost([], IsParameter(s), |s|) && Parameters(s[|s|..]) == []
  {
    NoTagBehind(s, PARAMETER_OPEN);
  }

  lemma ParameterHereIs(s: string, p: nat)
    requires p <= |s|
    ensures ParameterHere(s[p..]).Some? ==>
              var (name, value, after) := ParameterHere(s[p..]).value;
              var end := |s| - |after|;
              && p < end && after == s[end..] && ParameterAt(s, p, end, name)
              && s[p..end] == PARAMETER_OPEN + name + ">" + value + PARAMETER_END
    ensures ParameterHere(s[p..]).None? ==> forall e, name :: !ParameterAt(s, p, e, name)
  {
    hide TagName, TagAt, Find, OccursAt;
    var t := s[p..];
    TagNameIs(s, PARAMETER_OPEN, p);
    if TagName(t, PARAMETER_OPEN).Some? {
      var name := TagName(t, PARAMETER_OPEN).value;
      var from := |PARAMETER_OPEN| + |name| + 1;
      FindInRest(s, p, PARAMETER_END, from);
      var to := Find(t, PARAMETER_END, from);
      if to != -1 {
        ParameterSpans(s, p, name, to);
      }
    }
  }

  lemma ParameterSpans(s: string, p: nat, name: string, to: nat)
    requires p <= |s| && TagAt(s, PARAMETER_OPEN, p, name)
    requires |PARAMETER_OPEN| + |name| + 1 <= to && OccursAt(s, PARAMETER_END, p + to)
    ensures var end, value := p + to + |PARAMETER_END|, s[p..][|PARAMETER_OPEN| + |name| + 1..to];
            && end <= |s| && s[p..][to + |PARAMETER_END|..] == s[end..]
            && s[p..end] == PARAMETER_OPEN + name + ">" + value + PARAMETER_END
  {
    hide OccursAt, TagAt;
    Occurring(s, PARAMETER_END, p + to);
    TagText(s, PARAMETER_OPEN, p, name);
    SplitAt(s, p, p + |PARAMETER_OPEN| + |name| + 1, p + to, p + to + |PARAMETER_END|);
  }

  lemma TagText(s: string, open: string, i: int, name: string)
    requires TagAt(s, open, i, name)
    ensures 0 <= i && i + |open| + |name| + 1 <= |s| && s[i..i + |open| + |name| + 1] == open + name + ">"
  {
  }

  lemma SplitAt(s: string, a: nat, b: nat, c: nat, d: nat)
    requires a <= b <= c <= d <= |s|
    ensures s[a..d] == s[a..b] + s[b..c] + s[c..d]
    ensures s[a..][b - a..c - a] == s[b..c]
  {
  }

  /** Of the pairs with one name the last counts. */
  lemma {:induction false} DictOfLast(pairs: seq<(string, string)>, i: nat)
    requires i < |pairs| && forall j | i < j < |pairs| :: pairs[j].0 != pairs[i].0
    ensures pairs[i].0 in DictOf(pairs) && DictOf(pairs)[pairs[i].0] == pairs[i].1
  {
    var n := |pairs| - 1;
    if i < n {
      assert pairs[n].0 != pairs[i].0;
      DictOfLast(pairs[..n], i);
    }
  }

  /** Nothing else is in the dictionary. */
  lemma {:induction false} DictOfPairs(pairs: seq<(string, string)>)
    ensures forall name | name in DictOf(pairs) :: (name, DictOf(pairs)[name]) in pairs
  {
    if pairs != [] {
      DictOfPairs(pairs[..|pairs| - 1]);
    }
  }

  /** Each body with a function tag gives one function, in order; a body without one gives none. */
  lemma {:induction false} FunctionsOfAdd(body: string, a: seq<string>, b: seq<string>)
    ensures FunctionsOf([]) == []
    ensures FunctionsOf([body]) ==
            match FunctionName(body) {
              case Some(name) => [Function(name, DictOf(Parameters(body)))]
              case None => []
            }
    ensures FunctionsOf(a + b) == FunctionsOf(a) + FunctionsOf(b)
  {
    hide FunctionName, DictOf, Parameters;
    assert FunctionsOf([body][..0]) == [];
    if b == [] {
      assert a + b == a;
    } else {
      assert (a + b)[..|a + b| - 1] == a + b[..|b| - 1];
      FunctionsOfAdd(body, a, b[..|b| - 1]);
    }
  }

  /** `None`: no tool call was found and the general ReAct parser takes over. */
  method GetToolcall(response: string) returns (functions: Option<seq<Function>>)
    ensures functions == if CallBodies(response) == [] then None else Some(FunctionsOf(CallBodies(response)))
    ensures functions.Some? <==>
            exists i, e :: OccursAt(response, CALL_START, i) && i + |CALL_START| + 1 <= e && OccursAt(response, CALL_END, e)
  {
    hide OccursAt, CallBodies, FunctionName, Parameters;
    AnyCall(response);
    var bodies := CallBodies(response);
    if bodies == [] {
      return None;
    }
    var found := [];
    for i := 0 to |bodies|
      invariant found == FunctionsOf(bodies[..i])
    {
      assert bodies[..i + 1][..i] == bodies[..i];
      var name := FunctionName(bodies[i]);
      if name.None? {
        continue;
      }
      found := found + [Function(name.value, DictOf(Parameters(bodies[i])))];
    }
    assert bodies[..|bodies|] == bodies;
    functions := Some(found);
  }
}
