/** The outbound request queue, a double-ended queue written as a sequence whose
    element 0 is the front. New requests are pushed at the front and the next one to
    send is popped from the back, which makes the queue first-in first-out. */
module RequestQueue {
  import opened Types

  /** `push_front`. */
  function PushFront<T>(q: seq<T>, x: T): (r: seq<T>)
    ensures |r| == |q| + 1 && r[0] == x && r[1..] == q
  {
    [x] + q
  }

  /** `pop_back`: the element at the back, if any, and the queue without it. */
  function PopBack<T>(q: seq<T>): (r: (Option<T>, seq<T>))
    ensures q == [] <==> r.0 == None
    ensures q == [] ==> r.1 == []
    ensures q != [] ==> r.0 == Some(q[|q| - 1]) && r.1 + [q[|q| - 1]] == q
  {
    if q == [] then (None, []) else (Some(q[|q| - 1]), q[..|q| - 1])
  }

  /** The elements in the order repeated `pop_back` calls return them, until the queue is empty. */
  function PopOrder<T>(q: seq<T>): (r: seq<T>)
    ensures |r| == |q|
    decreases |q|
  {
    if q == [] then [] else [q[|q| - 1]] + PopOrder(q[..|q| - 1])
  }

  /** The queue after pushing each element of `xs` in turn. */
  function PushAll<T>(q: seq<T>, xs: seq<T>): (r: seq<T>)
    ensures |r| == |q| + |xs|
    decreases |xs|
  {
    if xs == [] then q else PushAll(PushFront(q, xs[0]), xs[1..])
  }

  /** A pushed element leaves after everything already in the queue. */
  lemma {:induction false} PopOrderPushFront<T>(q: seq<T>, x: T)
    ensures PopOrder(PushFront(q, x)) == PopOrder(q) + [x]
    decreases |q|
  {
    if q != [] {
      var last := q[|q| - 1];
      var rest := q[..|q| - 1];
      assert PushFront(q, x)[..|q|] == PushFront(rest, x);
      PopOrderPushFront(rest, x);
    }
  }

  /** The next pop returns the oldest element, and the rest leave in the order they would have. */
  lemma PopBackIsOldest<T>(q: seq<T>)
    requires q != []
    ensures PopBack(q).0 == Some(PopOrder(q)[0])
    ensures PopOrder(PopBack(q).1) == PopOrder(q)[1..]
  {
  }

  /** First in, first out: elements pushed in order `xs` leave, after those already queued,
      in the same order, none dropped and none repeated. */
  lemma {:induction false} FirstInFirstOut<T>(q: seq<T>, xs: seq<T>)
    ensures PopOrder(PushAll(q, xs)) == PopOrder(q) + xs
    decreases |xs|
  {
    if xs != [] {
      var q' := PushFront(q, xs[0]);
      assert PushAll(q, xs) == PushAll(q', xs[1..]);
      FirstInFirstOut(q', xs[1..]);
      PopOrderPushFront(q, xs[0]);
      assert PopOrder(q) + xs == (PopOrder(q) + [xs[0]]) + xs[1..];
    }
  }
}
