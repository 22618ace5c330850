/** What is in transit on a socket, oldest first. */
module Queues {
  datatype Queue<T> = Empty | Items(head: T, rest: Queue<T>) {
    function Add(x: T): Queue<T> {
      match this
      case Empty => Items(x, Empty)
      case Items(h, r) => Items(h, r.Add(x))
    }

    function Append(q: Queue<T>): Queue<T> {
      match this
      case Empty => q
      case Items(h, r) => Items(h, r.Append(q))
    }

    function Size(): nat {
      match this
      case Empty => 0
      case Items(_, r) => 1 + r.Size()
    }

    lemma AddSize(x: T)
      ensures Add(x).Size() == Size() + 1
    {
    }

    lemma AddAppend(x: T, q: Queue<T>)
      ensures Add(x).Append(q) == Append(Items(x, q))
    {
    }
  }

  function One<T>(x: T): Queue<T> { Items(x, Empty) }
}
