/** Values shared by every part of the scraper: optional values, results,
    the dictionary records the pipeline passes around, and list flattening. */
module Common {

  datatype Option<+T> = None | Some(value: T)

  datatype Result<+T, +E> = Success(value: T) | Failure(error: E)

  /** A value stored in a record: the scraper only ever stores strings
      (names, URLs, detail texts), integers (counts), floats (the rating)
      and None (an anchor without an href). */
  datatype Value = Text(s: string) | Int(i: int) | Float(r: real) | Null

  /** A Python dict with string keys, as the scraper builds and mutates them. */
  type Record = map<string, Value>

  /** The concatenation of a list of lists, as a loop of `extend` calls builds it. */
  function Concat<T>(xss: seq<seq<T>>): seq<T>
  {
    if |xss| == 0 then [] else Concat(xss[..|xss| - 1]) + xss[|xss| - 1]
  }

  /** The sum of the lengths of a list of lists. */
  function SumLengths<T>(xss: seq<seq<T>>): nat
  {
    if |xss| == 0 then 0 else SumLengths(xss[..|xss| - 1]) + |xss[|xss| - 1]|
  }

  /** Extending an accumulator list by every list in turn yields as many
      elements as all the lists hold together. */
  lemma {:induction false} ConcatLength<T>(xss: seq<seq<T>>)
    ensures |Concat(xss)| == SumLengths(xss)
  {
    if |xss| > 0 {
      ConcatLength(xss[..|xss| - 1]);
    }
  }

  /** Concatenation also peels off from the front. */
  lemma {:induction false} ConcatCons<T>(xs: seq<T>, xss: seq<seq<T>>)
    ensures Concat([xs] + xss) == xs + Concat(xss)
    decreases |xss|
  {
    if |xss| > 0 {
      var n := |xss|;
      assert ([xs] + xss)[..n] == [xs] + xss[..n - 1];
      ConcatCons(xs, xss[..n - 1]);
    }
  }

  /** What holds of every element of every list holds of the concatenation. */
  lemma {:induction false} ConcatForall<T>(xss: seq<seq<T>>, P: T -> bool)
    requires forall i, x :: 0 <= i < |xss| && x in xss[i] ==> P(x)
    ensures forall x :: x in Concat(xss) ==> P(x)
  {
    if |xss| > 0 {
      var n := |xss|;
      assert forall i :: 0 <= i < n - 1 ==> xss[..n - 1][i] == xss[i];
      ConcatForall(xss[..n - 1], P);
    }
  }
}
