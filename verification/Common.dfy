/** Vocabulary shared by the models. */
module Common {

  /** A string as a sequence of code points. Python decodes with surrogate
      escapes, which Dafny's char excludes, so code points are integers. */
  type Text = seq<int>

  datatype Option<+T> = None | Some(value: T)

  const LF: int := 10
  const CR: int := 13
  const QUOTE: int := 34
  const COMMA: int := 44

  function Min(a: int, b: int): int {
    if a <= b then a else b
  }

  /** Concatenation of a sequence of sequences. */
  function Flatten<T>(parts: seq<seq<T>>): seq<T> {
    if parts == [] then [] else parts[0] + Flatten(parts[1..])
  }

  lemma {:induction false} FlattenAppend<T>(a: seq<seq<T>>, b: seq<seq<T>>)
    ensures Flatten(a + b) == Flatten(a) + Flatten(b)
  {
    if a == [] {
      assert a + b == b;
    } else {
      assert (a + b)[1..] == a[1..] + b;
      FlattenAppend(a[1..], b);
    }
  }

  lemma FlattenSnoc<T>(a: seq<seq<T>>, x: seq<T>)
    ensures Flatten(a + [x]) == Flatten(a) + x
  {
    FlattenAppend(a, [x]);
    assert Flatten([x]) == x + Flatten([x][1..]);
  }
}
