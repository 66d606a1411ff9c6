/** Facts about sequences that more than one component needs. */
module Sequences {

  lemma InsertedElements<T>(list: seq<T>, n: nat, x: T)
    requires n <= |list|
    ensures forall y :: y in list[..n] + [x] + list[n..] <==> y in list || y == x
  {
    assert list == list[..n] + list[n..];
  }

  lemma EmptyOrFirst<T>(s: seq<T>)
    ensures s == [] || s[0] in s
  {
  }
}
