// Types shared by every module of the model.
module Prelude {

  datatype Option<+T> = None | Some(value: T)

  /** The outcome of an operation that the source lets fail; a failed transaction is rolled back. */
  datatype Outcome<+T> = Ok(value: T) | Err(reason: string)

  /** One step of iterating over a map or set: some element, no promise which. */
  method Pick<T>(s: set<T>) returns (x: T)
    requires s != {}
    ensures x in s
  {
    x :| x in s;
  }

  /** Every member once. */
  ghost predicate Lists<T>(rows: seq<T>, s: set<T>) {
    (forall x | x in rows :: x in s) && (forall x | x in s :: x in rows) && forall i, j | 0 <= i < j < |rows| :: rows[i] != rows[j]
  }

  /** Sums over finite sets: the model's reading of an SQL SUM. */
  ghost function Sum<K(!new)>(s: set<K>, f: K -> int): int
  {
    if s == {} then 0 else var x :| x in s; f(x) + Sum(s - {x}, f)
  }

  lemma {:induction false} SumExtract<K(!new)>(s: set<K>, f: K -> int, x: K)
    requires x in s
    ensures Sum(s, f) == f(x) + Sum(s - {x}, f)
    decreases |s|
  {
    var y :| y in s && Sum(s, f) == f(y) + Sum(s - {y}, f);
    if x != y {
      SumExtract(s - {y}, f, x);
      SumExtract(s - {x}, f, y);
      assert s - {x} - {y} == s - {y} - {x};
    }
  }

  lemma {:induction false} SumAgree<K(!new)>(s: set<K>, f: K -> int, g: K -> int)
    requires forall x | x in s :: f(x) == g(x)
    ensures Sum(s, f) == Sum(s, g)
    decreases |s|
  {
    if s != {} {
      var x :| x in s && Sum(s, f) == f(x) + Sum(s - {x}, f);
      SumAgree(s - {x}, f, g);
      SumExtract(s, g, x);
    }
  }
}
