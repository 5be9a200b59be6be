/** Small shared vocabulary: optional values, results, and the singly linked
    lists that stand for the standard-library lists of intermediate-representation nodes. */
module Lists {

  datatype Option<+T> = None | Some(value: T)

  datatype Result<+T, +E> = Ok(value: T) | Err(error: E)

  datatype List<+T> = Empty | Cons(head: T, tail: List<T>)

  function Length<T>(xs: List<T>): nat {
    match xs
    case Empty => 0
    case Cons(_, rest) => 1 + Length(rest)
  }

  function Append<T>(xs: List<T>, ys: List<T>): List<T> {
    match xs
    case Empty => ys
    case Cons(x, rest) => Cons(x, Append(rest, ys))
  }

  lemma {:induction false} Regroup<T>(x: seq<T>, y: seq<T>, z: seq<T>)
    ensures (x + y) + z == x + (y + z)
  {}
}
