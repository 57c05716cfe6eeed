/** Value types shared by the modules of this project. */
module Common {

  datatype Option<+T> = None | Some(value: T)

  datatype Result<+T, +E> = Ok(value: T) | Err(error: E)

  /** An instant. Go's zero time, which `time.Time.IsZero` recognises, is instant 0. */
  type Time = int

  const ZERO_TIME: Time := 0

  /** A UUID, as the number its 128 bits spell. */
  type Uuid = nat

  const NIL_UUID: Uuid := 0

  function Max(a: int, b: int): int {
    if a < b then b else a
  }

  function Last<T>(s: seq<T>): T
    requires s != []
  {
    s[|s| - 1]
  }

  /** A sequence without repetition. */
  predicate Distinct<T(==)>(s: seq<T>) {
    forall i, j | 0 <= i < j < |s| :: s[i] != s[j]
  }

  lemma DistinctAppend<T>(s: seq<T>, x: T)
    requires Distinct(s) && x !in s
    ensures Distinct(s + [x])
  {
  }

  /** `domain.HasDuplicates`: the map of values seen so far is enough to notice the first repetition. */
  method HasDuplicates<T(==)>(values: seq<T>) returns (found: bool)
    ensures found <==> !Distinct(values)
  {
    var seen: set<T> := {};
    for i := 0 to |values|
      invariant forall x :: x in seen <==> x in values[..i]
      invariant Distinct(values[..i])
    {
      if values[i] in seen {
        assert exists j | 0 <= j < i :: values[j] == values[i];
        return true;
      }
      seen := seen + {values[i]};
      DistinctAppend(values[..i], values[i]);
      assert values[..i + 1] == values[..i] + [values[i]];
    }
    assert values[..|values|] == values;
    found := false;
  }
}
