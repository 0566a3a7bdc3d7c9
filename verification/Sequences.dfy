/** Lists of lists put one after the other. */
module Sequences {

  function Flatten<T>(parts: seq<seq<T>>): seq<T> {
    if parts == [] then [] else Flatten(parts[..|parts| - 1]) + parts[|parts| - 1]
  }

  lemma FlattenSnoc<T>(parts: seq<seq<T>>, part: seq<T>)
    ensures Flatten(parts + [part]) == Flatten(parts) + part
  {
    assert (parts + [part])[..|parts|] == parts;
  }

  lemma {:induction false} FlattenConcat<T>(a: seq<seq<T>>, b: seq<seq<T>>)
    ensures Flatten(a + b) == Flatten(a) + Flatten(b)
  {
    if b == [] {
      assert a + b == a;
    } else {
      var n := |b| - 1;
      assert (a + b)[..|a| + n] == a + b[..n];
      FlattenConcat(a, b[..n]);
    }
  }

  lemma Assoc<T>(a: seq<T>, b: seq<T>, c: seq<T>)
    ensures a + (b + c) == (a + b) + c
  {
  }

  /** The same from the front. */
  lemma FlattenCons<T>(parts: seq<seq<T>>)
    ensures parts != [] ==> Flatten(parts) == parts[0] + Flatten(parts[1..])
    ensures Flatten<T>([]) == []
  {
    if parts != [] {
      FlattenConcat([parts[0]], parts[1..]);
      assert [parts[0]] + parts[1..] == parts;
      FlattenSnoc([], parts[0]);
      assert [] + [parts[0]] == [parts[0]];
    }
  }
}
