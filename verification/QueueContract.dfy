/** The contract of the durable queue as the bridge relies on it: a bounded
    drop-oldest FIFO whose head is removed only after it was read. */
module QueueContract {
  /** Push: x goes to the back; `lost` elements are evicted from the front,
      never x itself. */
  ghost predicate Pushed<T(!new)>(q: seq<T>, x: T, q': seq<T>, lost: nat) {
    lost <= |q| && q' == (q + [x])[lost..]
  }

  /** Ack after a successful Peek: exactly the element Peek returned goes. */
  ghost predicate Acked<T(!new)>(q: seq<T>, q': seq<T>) {
    q != [] && q' == q[1..]
  }

  /** Ack after a failed Peek: some elements at the front are given up. */
  ghost predicate Discarded<T(!new)>(q: seq<T>, q': seq<T>, lost: nat) {
    lost <= |q| && q' == q[lost..]
  }
}
