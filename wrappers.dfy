/** Failure-carrying values shared by every module of the model.
    `None` stands for a floating-point NaN / missing value, `Err` for a raised exception. */
module Wrappers {

  datatype Option<+T> = None | Some(value: T)

  datatype Result<+T, +E> = Ok(value: T) | Err(error: E)

  /** The values held by the `Some` entries, in order (pandas' `dropna`). */
  function Somes<T>(s: seq<Option<T>>): (r: seq<T>)
    ensures |r| <= |s|
  {
    if s == [] then []
    else
      var rest := Somes(s[..|s| - 1]);
      match s[|s| - 1]
      case None => rest
      case Some(x) => rest + [x]
  }

  /** Every value kept comes from a `Some` entry, and every `Some` entry's value is kept. */
  lemma {:induction false} SomesMembers<T>(s: seq<Option<T>>)
    ensures var r := Somes(s);
      (forall i :: 0 <= i < |r| ==> Some(r[i]) in s) &&
      (forall i :: 0 <= i < |s| && s[i].Some? ==> s[i].value in r)
  {
    if s != [] {
      var init := s[..|s| - 1];
      SomesMembers(init);
      assert s == init + [s[|s| - 1]];
      forall i | 0 <= i < |s| - 1 ensures s[i] == init[i] {
      }
    }
  }
}
