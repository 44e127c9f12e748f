/** What several modules share: optional values, results, the bounds of numbers, and two
    facts about finite sets. */
module Basics {

  datatype Option<+T> = None | Some(value: T)

  /** Err stands for any error: the transaction or the request is given up. */
  datatype Result<+T> = Ok(value: T) | Err

  const MAX_INT64 := 0x7FFF_FFFF_FFFF_FFFF
  const MIN_INT64 := -0x8000_0000_0000_0000

  /** The finance numbers the service accepts. */
  predicate ValidNumber(v: real) { 0.000000001 <= v <= 1000000000.0 }

  function Min(a: int, b: int): int { if a < b then a else b }

  function Max(a: int, b: int): int { if a < b then b else a }

  /** Some element of a set. */
  ghost function Any<T(!new)>(s: set<T>): (x: T)
    requires s != {}
    ensures x in s
  {
    var x :| x in s;
    x
  }

  lemma {:induction false} SubsetSize<T>(a: set<T>, b: set<T>)
    requires a <= b
    ensures |a| <= |b|
    ensures |a| == |b| ==> a == b
    decreases a
  {
    if a != {} {
      var x :| x in a;
      SubsetSize(a - {x}, b - {x});
    }
  }
}
