// Shared by all modules: the optional values that stand for the source's null pointers and failed
// searches, and sequences of one value over and over.
module Wrappers {

  datatype Option<+T> = None | Some(value: T)

  function Repeated<T>(x: T, n: nat): (s: seq<T>)
    ensures |s| == n
  {
    if n == 0 then [] else [x] + Repeated(x, n - 1)
  }

  lemma {:induction false} RepeatedAtEnd<T>(x: T, n: nat)
    ensures Repeated(x, n + 1) == Repeated(x, n) + [x]
  {
    if n > 0 {
      RepeatedAtEnd(x, n - 1);
      assert [x] + (Repeated(x, n - 1) + [x]) == [x] + Repeated(x, n - 1) + [x];
    }
  }

  lemma {:induction false} RepeatedRest<T>(x: T, n: nat)
    requires n > 0
    ensures Repeated(x, n)[0] == x && Repeated(x, n)[1..] == Repeated(x, n - 1)
  {
  }

  lemma {:induction false} Regrouped<T>(a: seq<T>, b: seq<T>, c: seq<T>)
    ensures a + b + c == a + (b + c)
  {
  }
}
