/** Result types and two stock facts, shared by every component of the model. */
module Wrappers {

  datatype Option<+T> = None | Some(value: T)

  datatype Result<+T, +E> = Success(value: T) | Failure(error: E)

  lemma Regrouped<T>(a: seq<T>, b: seq<T>, c: seq<T>)
    ensures (a + b) + c == a + (b + c)
  {}

  lemma FreshNat(s: set<nat>) returns (n: nat)
    ensures forall m :: m in s ==> m < n
  {
    if s == {} {
      n := 0;
    } else {
      var m :| m in s;
      var rest := FreshNat(s - {m});
      n := if m < rest then rest else m + 1;
      assert s == {m} + (s - {m});
    }
  }
}
