/** Encoding a batch of requests without stopping at failures, and putting the errors back. */
module BatchErrors {
  import opened Options
  import opened Sequences

  datatype Outcome<I, E> = Encoded(input: I) | Failed(error: E)

  /** One answer per request: the model's output, or the request's error. */
  datatype Answer<O, E> = Output(o: O) | Error(e: E)

  /** The encoded inputs, in request order. */
  function Inputs<I, E>(outcomes: seq<Outcome<I, E>>): seq<I> {
    if outcomes == [] then []
    else
      var last := outcomes[|outcomes| - 1];
      Inputs(outcomes[..|outcomes| - 1]) + (if last.Encoded? then [last.input] else [])
  }

  /** Request number and error of each failure, in request order. */
  function Errors<I, E>(outcomes: seq<Outcome<I, E>>): seq<(nat, E)> {
    if outcomes == [] then []
    else
      var n := |outcomes| - 1;
      Errors(outcomes[..n]) + (if outcomes[n].Failed? then [(n, outcomes[n].error)] else [])
  }

  /** The errors are those of exactly the failed requests, under their own numbers, in order. */
  lemma {:induction false} ErrorsAre<I, E>(outcomes: seq<Outcome<I, E>>)
    ensures forall k | 0 <= k < |Errors(outcomes)| ::
              var (i, error) := Errors(outcomes)[k];
              i < |outcomes| && outcomes[i] == Failed(error)
    ensures forall i | 0 <= i < |outcomes| && outcomes[i].Failed? :: (i, outcomes[i].error) in Errors(outcomes)
    ensures forall j, k | 0 <= j < k < |Errors(outcomes)| :: Errors(outcomes)[j].0 < Errors(outcomes)[k].0
  {
    if outcomes != [] {
      var n := |outcomes| - 1;
      ErrorsAre(outcomes[..n]);
      var before := Errors(outcomes[..n]);
      assert forall k | 0 <= k < |before| :: Errors(outcomes)[k] == before[k] && outcomes[..n][before[k].0] == outcomes[before[k].0];
      forall i | 0 <= i < |outcomes| && outcomes[i].Failed?
        ensures (i, outcomes[i].error) in Errors(outcomes)
      {
        if i < n {
          assert (i, outcomes[..n][i].error) in before;
        }
      }
    }
  }

  /** The inputs are those of the encoded requests, in order. */
  lemma {:induction false} InputsAdd<I, E>(o: Outcome<I, E>, a: seq<Outcome<I, E>>, b: seq<Outcome<I, E>>)
    ensures Inputs<I, E>([]) == [] && Inputs([o]) == match o { case Encoded(input) => [input] case Failed(_) => [] }
    ensures Inputs(a + b) == Inputs(a) + Inputs(b)
  {
    assert Inputs([o][..0]) == [];
    if b == [] {
      assert a + b == a;
    } else {
      assert (a + b)[..|a + b| - 1] == a + b[..|b| - 1];
      InputsAdd(o, a, b[..|b| - 1]);
    }
  }

  /** In strict mode the first failure is raised instead: `None`. */
  method BatchEncode<I, E>(outcomes: seq<Outcome<I, E>>, strict: bool) returns (r: Option<(seq<I>, seq<(nat, E)>)>)
    ensures r == if strict && (exists i | 0 <= i < |outcomes| :: outcomes[i].Failed?) then None
                 else Some((Inputs(outcomes), Errors(outcomes)))
  {
    var inputs: seq<I> := [];
    var errors: seq<(nat, E)> := [];
    for i := 0 to |outcomes|
      invariant inputs == Inputs(outcomes[..i]) && errors == Errors(outcomes[..i])
      invariant strict ==> forall k | 0 <= k < i :: outcomes[k].Encoded?
    {
      assert outcomes[..i + 1][..i] == outcomes[..i];
      match outcomes[i]
      case Encoded(input) => inputs := inputs + [input];
      case Failed(error) =>
        if strict {
          return None;
        }
        errors := errors + [(i, error)];
    }
    assert outcomes[..|outcomes|] == outcomes;
    r := Some((inputs, errors));
  }

  /** `list.insert`: past the end it appends. */
  function Insert<T>(s: seq<T>, i: nat, x: T): seq<T> {
    if i >= |s| then s + [x] else s[..i] + [x] + s[i..]
  }

  function InsertAll<O, E>(answers: seq<Answer<O, E>>, errors: seq<(nat, E)>): seq<Answer<O, E>> {
    if errors == [] then answers
    else
      var n := |errors| - 1;
      Insert(InsertAll(answers, errors[..n]), errors[n].0, Error(errors[n].1))
  }

  method AddErrorList<O, E>(outputs: seq<Answer<O, E>>, errors: seq<(nat, E)>) returns (merged: seq<Answer<O, E>>)
    ensures merged == InsertAll(outputs, errors)
  {
    merged := outputs;
    for k := 0 to |errors|
      invariant merged == InsertAll(outputs, errors[..k])
    {
      assert errors[..k + 1][..k] == errors[..k];
      merged := Insert(merged, errors[k].0, Error(errors[k].1));
    }
    assert errors[..|errors|] == errors;
  }

  /** What each request should be answered with, outputs being used up in order. */
  function Expected<I, O, E>(outcomes: seq<Outcome<I, E>>, outputs: seq<O>): seq<Answer<O, E>>
    requires |outputs| == |Inputs(outcomes)|
  {
    if outcomes == [] then []
    else
      var n := |outcomes| - 1;
      if outcomes[n].Failed? then Expected(outcomes[..n], outputs) + [Error(outcomes[n].error)]
      else Expected(outcomes[..n], outputs[..|outputs| - 1]) + [Output(outputs[|outputs| - 1])]
  }

  function Answers<O, E>(outputs: seq<O>): seq<Answer<O, E>> {
    seq(|outputs|, i requires 0 <= i < |outputs| => Output(outputs[i]))
  }

  lemma InsertInFront<T>(front: seq<T>, tail: seq<T>, i: nat, x: T)
    requires i <= |front|
    ensures |Insert(front, i, x)| == |front| + 1
    ensures Insert(front + tail, i, x) == Insert(front, i, x) + tail
  {
    var a, b := front[..i], front[i..];
    assert front == a + b;
    InsertSplits(a, b, x);
    InsertSplits(a, b + tail, x);
    Assoc(a, b, tail);
    Assoc(a + [x], b, tail);
  }

  lemma InsertSplits<T>(a: seq<T>, b: seq<T>, x: T)
    ensures Insert(a + b, |a|, x) == (a + [x]) + b
  {
    assert (a + b)[..|a|] == a && (a + b)[|a|..] == b;
    if b == [] {
      assert a + b == a && (a + [x]) + b == a + [x];
    }
  }

  /** Errors of earlier requests are inserted as if the later outputs were not there yet. */
  lemma {:induction false} InsertBefore<O, E>(answers: seq<Answer<O, E>>, tail: seq<Answer<O, E>>, errors: seq<(nat, E)>)
    requires forall k | 0 <= k < |errors| :: errors[k].0 <= |answers| + k
    ensures |InsertAll(answers, errors)| == |answers| + |errors|
    ensures InsertAll(answers + tail, errors) == InsertAll(answers, errors) + tail
  {
    hide Insert;
    if errors != [] {
      var n := |errors| - 1;
      InsertBefore(answers, tail, errors[..n]);
      InsertInFront(InsertAll(answers, errors[..n]), tail, errors[n].0, Error(errors[n].1));
    }
  }

  lemma {:induction false} ErrorsInRange<I, E>(outcomes: seq<Outcome<I, E>>)
    ensures |Inputs(outcomes)| + |Errors(outcomes)| == |outcomes|
    ensures forall k | 0 <= k < |Errors(outcomes)| :: Errors(outcomes)[k].0 <= |Inputs(outcomes)| + k
  {
    if outcomes != [] {
      ErrorsInRange(outcomes[..|outcomes| - 1]);
    }
  }

  /** An encoded request at the end adds its output at the end. */
  lemma MergeEncoded<I, O, E>(outcomes: seq<Outcome<I, E>>, outputs: seq<O>)
    requires outcomes != [] && outcomes[|outcomes| - 1].Encoded? && |outputs| == |Inputs(outcomes)|
    ensures 0 < |outputs|
    ensures InsertAll(Answers<O, E>(outputs), Errors(outcomes)) ==
            InsertAll(Answers<O, E>(outputs[..|outputs| - 1]), Errors(outcomes[..|outcomes| - 1])) + [Output(outputs[|outputs| - 1])]
  {
    hide InsertAll;
    var n, m := |outcomes| - 1, |outputs| - 1;
    ErrorsInRange(outcomes[..n]);
    InsertBefore(Answers<O, E>(outputs[..m]), [Output(outputs[m])], Errors(outcomes[..n]));
    assert Errors(outcomes) == Errors(outcomes[..n]);
    assert Answers<O, E>(outputs) == Answers<O, E>(outputs[..m]) + [Output(outputs[m])];
  }

  /** A failed request at the end has its error inserted at the end. */
  lemma MergeFailed<I, O, E>(outcomes: seq<Outcome<I, E>>, outputs: seq<O>)
    requires outcomes != [] && outcomes[|outcomes| - 1].Failed?
    requires |InsertAll(Answers<O, E>(outputs), Errors(outcomes[..|outcomes| - 1]))| == |outcomes| - 1
    ensures InsertAll(Answers<O, E>(outputs), Errors(outcomes)) ==
            InsertAll(Answers<O, E>(outputs), Errors(outcomes[..|outcomes| - 1])) + [Error(outcomes[|outcomes| - 1].error)]
  {
    var n := |outcomes| - 1;
    var before := Errors(outcomes[..n]);
    assert Errors(outcomes) == before + [(n, outcomes[n].error)];
    assert (before + [(n, outcomes[n].error)])[..|before|] == before;
  }

  /** Putting the errors back restores request order: slot i answers request i. */
  lemma {:induction false} MergeRestoresOrder<I, O, E>(outcomes: seq<Outcome<I, E>>, outputs: seq<O>)
    requires |outputs| == |Inputs(outcomes)|
    ensures InsertAll(Answers<O, E>(outputs), Errors(outcomes)) == Expected(outcomes, outputs)
    ensures |Expected(outcomes, outputs)| == |outcomes|
  {
    if outcomes == [] {
      assert Answers<O, E>(outputs) == [];
    } else {
      hide InsertAll, Errors;
      var n := |outcomes| - 1;
      if outcomes[n].Failed? {
        MergeRestoresOrder(outcomes[..n], outputs);
        MergeFailed(outcomes, outputs);
      } else {
        MergeEncoded(outcomes, outputs);
        MergeRestoresOrder(outcomes[..n], outputs[..|outputs| - 1]);
      }
    }
  }

  /** Slot by slot: a failed request gets its own error, the others the output of their own input. */
  lemma {:induction false} ExpectedAt<I, O, E>(outcomes: seq<Outcome<I, E>>, outputs: seq<O>, i: nat)
    requires |outputs| == |Inputs(outcomes)| && i < |outcomes|
    ensures |Expected(outcomes, outputs)| == |outcomes|
    ensures outcomes[i].Failed? ==> Expected(outcomes, outputs)[i] == Error(outcomes[i].error)
    ensures outcomes[i].Encoded? ==>
              var k := |Inputs(outcomes[..i])|;
              k < |outputs| && Inputs(outcomes)[k] == outcomes[i].input && Expected(outcomes, outputs)[i] == Output(outputs[k])
  {
    hide Inputs, Expected;
    var n := |outcomes| - 1;
    ExpectedLast(outcomes, outputs);
    if i < n {
      var some := if outcomes[n].Failed? then outputs else outputs[..|outputs| - 1];
      ExpectedAt(outcomes[..n], some, i);
      assert outcomes[..n][..i] == outcomes[..i];
    }
  }

  /** What the last request adds. */
  lemma ExpectedLast<I, O, E>(outcomes: seq<Outcome<I, E>>, outputs: seq<O>)
    requires |outputs| == |Inputs(outcomes)| && outcomes != []
    ensures var n, m := |outcomes| - 1, |outputs| - 1;
            && |Expected(outcomes, outputs)| == |outcomes|
            && (outcomes[n].Failed? ==>
                  && Inputs(outcomes) == Inputs(outcomes[..n])
                  && |Expected(outcomes[..n], outputs)| == n
                  && Expected(outcomes, outputs) == Expected(outcomes[..n], outputs) + [Error(outcomes[n].error)])
            && (outcomes[n].Encoded? ==>
                  && 0 <= m == |Inputs(outcomes[..n])| && Inputs(outcomes) == Inputs(outcomes[..n]) + [outcomes[n].input]
                  && |Expected(outcomes[..n], outputs[..m])| == n
                  && Expected(outcomes, outputs) == Expected(outcomes[..n], outputs[..m]) + [Output(outputs[m])])
  {
    var n := |outcomes| - 1;
    MergeRestoresOrder(outcomes, outputs);
    if outcomes[n].Failed? {
      MergeRestoresOrder(outcomes[..n], outputs);
    } else {
      MergeRestoresOrder(outcomes[..n], outputs[..|outputs| - 1]);
    }
  }
}
