/** Three-way comparison, and the lexicographic comparison of sequences that tuples and text use. */
module Ordering {
  datatype Order = Less | Equal | Greater

  function Flip(o: Order): Order {
    match o
    case Less => Greater
    case Equal => Equal
    case Greater => Less
  }

  /** The second comparison decides only when the first one is a tie. */
  function Then(first: Order, second: Order): Order {
    if first.Equal? then second else first
  }

  function CompareInt(a: int, b: int): Order {
    if a < b then Less else if a == b then Equal else Greater
  }

  function CompareChar(a: char, b: char): Order {
    CompareInt(a as int, b as int)
  }

  function CompareSeq<T>(a: seq<T>, b: seq<T>, compare: (T, T) -> Order): Order
    decreases |a|
  {
    if a == [] then (if b == [] then Equal else Less)
    else if b == [] then Greater
    else Then(compare(a[0], b[0]), CompareSeq(a[1..], b[1..], compare))
  }

  function CompareText(a: string, b: string): Order {
    CompareSeq(a, b, CompareChar)
  }

  ghost predicate StrictlyTotal<T(!new)>(compare: (T, T) -> Order) {
    && (forall x, y :: compare(x, y).Equal? <==> x == y)
    && (forall x, y :: compare(y, x) == Flip(compare(x, y)))
    && (forall x, y, z :: compare(x, y).Less? && compare(y, z).Less? ==> compare(x, z).Less?)
  }

  lemma {:induction false} CompareSeqEqual<T(!new)>(a: seq<T>, b: seq<T>, compare: (T, T) -> Order)
    requires StrictlyTotal(compare)
    ensures CompareSeq(a, b, compare).Equal? <==> a == b
    ensures CompareSeq(b, a, compare) == Flip(CompareSeq(a, b, compare))
    decreases |a|
  {
    if a != [] && b != [] {
      CompareSeqEqual(a[1..], b[1..], compare);
      assert a == [a[0]] + a[1..] && b == [b[0]] + b[1..];
    }
  }

  lemma {:induction false} CompareSeqTransitive<T(!new)>(a: seq<T>, b: seq<T>, c: seq<T>, compare: (T, T) -> Order)
    requires StrictlyTotal(compare)
    requires CompareSeq(a, b, compare).Less? && CompareSeq(b, c, compare).Less?
    ensures CompareSeq(a, c, compare).Less?
    decreases |a|
  {
    if a != [] {
      if compare(a[0], b[0]).Equal? && compare(b[0], c[0]).Equal? {
        CompareSeqTransitive(a[1..], b[1..], c[1..], compare);
      }
    }
  }

  lemma CompareTextFacts(a: string, b: string)
    ensures CompareText(a, b).Equal? <==> a == b
    ensures CompareText(b, a) == Flip(CompareText(a, b))
  {
    CompareSeqEqual(a, b, CompareChar);
  }

  lemma CompareTextTransitive(a: string, b: string, c: string)
    requires CompareText(a, b).Less? && CompareText(b, c).Less?
    ensures CompareText(a, c).Less?
  {
    CompareSeqTransitive(a, b, c, CompareChar);
  }
}
