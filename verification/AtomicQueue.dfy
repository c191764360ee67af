module Wrappers {
  datatype Option<+T> = None | Some(value: T)
}

/** The atomic queue that the lock-free pipe is meant to be: one writer, one reader, every
    operation instantaneous.  Nothing here knows about chunks, pointers or interleaving. */
module AtomicQueue {
  import opened Wrappers

  /** `queue`: flushed and not yet read; `complete`: finished but not flushed;
      `partial`: a message whose last item is still to come; `asleep`: the reader found
      nothing and has not been woken since. */
  datatype Fifo<T> = Fifo(queue: seq<T>, complete: seq<T>, partial: seq<T>, asleep: bool)

  /** What the caller of a pipe operation sees when it returns. */
  datatype Event<T> =
    | Wrote(item: T, incomplete: bool)
    | UnWrote(removed: Option<T>)
    | Flushed(awake: bool)
    | Checked(available: bool)
    | ReadGot(item: T)
    | ReadNothing

  /** The pipe operation that returns `e` may take `a` to `b`. */
  ghost predicate Step<T>(a: Fifo<T>, e: Event<T>, b: Fifo<T>)
  {
    match e
    case Wrote(v, incomplete) =>
      b == if incomplete then a.(partial := a.partial + [v])
           else a.(complete := a.complete + a.partial + [v], partial := [])
    case UnWrote(None) => a.partial == [] && b == a
    case UnWrote(Some(v)) => a.partial == b.partial + [v] && b == a.(partial := b.partial)
    case Flushed(awake) =>
      if a.complete == [] then awake && b == a
      else awake == !a.asleep && b == Fifo(a.queue + a.complete, [], a.partial, false)
    case Checked(available) =>
      available == (a.queue != []) && b == a.(asleep := a.asleep || !available)
    case ReadGot(v) => a.queue == [v] + b.queue && b == a.(queue := b.queue)
    case ReadNothing => a.queue == [] && b == a.(asleep := true)
  }
}
