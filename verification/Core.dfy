/** Vocabulary shared by every part of the model.

    A table is a sequence of rows and a row's primary key is its position, so a newly
    inserted row always has a key that no earlier row had (the source draws UUIDs). */
module Core {
  datatype Option<+T> = None | Some(value: T)

  type Id = nat
  type Positive = n: nat | n >= 1 witness 1
  type Time = int

  const DAY: int := 86_400

  /** Python's `dict.fromkeys`: each value once, in order of first appearance. */
  function Deduplicated<T(==)>(values: seq<T>): seq<T> {
    if values == [] then []
    else
      var rest := Deduplicated(values[..|values| - 1]);
      if values[|values| - 1] in rest then rest else rest + [values[|values| - 1]]
  }

  /** Same elements, no repetition, and growing the input only ever appends to the output, which
      is what "in order of first appearance" says. */
  lemma {:induction false} DeduplicatedMeaning<T(!new)>(values: seq<T>, n: nat)
    requires n <= |values|
    ensures forall c :: c in Deduplicated(values) <==> c in values
    ensures forall i, j | 0 <= i < j < |Deduplicated(values)| :: Deduplicated(values)[i] != Deduplicated(values)[j]
    ensures |Deduplicated(values)| <= |values|
    ensures Deduplicated(values[..n]) <= Deduplicated(values)
  {
    if values == [] {
    } else if n == |values| {
      assert values[..n] == values;
      DeduplicatedMeaning(values[..n - 1], n - 1);
    } else {
      DeduplicatedMeaning(values[..|values| - 1], n);
      assert values[..|values| - 1][..n] == values[..n];
    }
  }
}
