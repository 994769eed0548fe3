/** The bounded queue that connects the producer with the worker threads. */
module BlockingQueues {
  import opened Basics

  /** The mutex-protected state of a queue. `cap` is the signed size given on the command line. */
  datatype Queue<T> = Queue(items: seq<T>, cap: int, stopped: bool) {

    /** The condition on which a pushing thread stops waiting. */
    predicate CanPush() {
      |items| < cap || stopped
    }

    /** The condition on which a popping thread stops waiting. */
    predicate CanPop() {
      items != [] || stopped
    }

    function Push(x: T): Queue<T> {
      this.(items := items + [x])
    }

    function Pop(): Queue<T> {
      this.(items := if items == [] then [] else items[1..])
    }

    function Shutdown(): Queue<T> {
      this.(stopped := true)
    }
  }

  /** Each method is the body executed under the lock once the wait condition holds. */
  class BlockingQueue<T> {
    var q: seq<T>
    const maxSize: int
    var stop: bool

    function View(): Queue<T>
      reads this
    {
      Queue(q, maxSize, stop)
    }

    constructor (maxSize: int)
      ensures View() == Queue([], maxSize, false)
    {
      q, this.maxSize, stop := [], maxSize, false;
    }

    method Push(item: T)
      requires View().CanPush()
      modifies this
      ensures View() == old(View()).Push(item) && q == old(q) + [item] && stop == old(stop)
      ensures !old(stop) ==> |q| <= maxSize
    {
      q := q + [item];
    }

    method Pop() returns (out: Option<T>)
      requires View().CanPop()
      modifies this
      ensures View() == old(View()).Pop()
      ensures out == (if old(q) == [] then None else Some(old(q)[0]))
      ensures out.None? ==> stop && q == []
      ensures out.Some? ==> old(q) == [out.value] + q && stop == old(stop)
    {
      if q == [] {
        return None;
      }
      out := Some(q[0]);
      q := q[1..];
    }

    method Shutdown()
      modifies this
      ensures View() == old(View()).Shutdown() && stop && q == old(q)
    {
      stop := true;
    }
  }
}
