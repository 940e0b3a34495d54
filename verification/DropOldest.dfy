/**
  Bounded queues that drop their oldest element on overflow, as used in both directions of the
  audio bridge and by the worker's playout queue.
 */
module DropOldest {
  import opened Common

  /** The last `cap` elements of everything offered: what a drop-oldest queue retains. */
  function Newest<T>(s: seq<T>, cap: nat): (r: seq<T>)
    ensures |r| <= cap
  {
    if |s| <= cap then s else s[|s| - cap..]
  }

  /** What the queue has given up to stay within `cap`. */
  function Shed<T>(s: seq<T>, cap: nat): seq<T> {
    s[..|s| - |Newest(s, cap)|]
  }

  /** Nothing is lost or reordered between what is given up and what is retained, and no more than needed is given up. */
  lemma {:induction false} ShedThenNewest<T>(s: seq<T>, cap: nat)
    ensures Shed(s, cap) + Newest(s, cap) == s
    ensures Shed(s, cap) != [] ==> |Newest(s, cap)| == cap
  {
  }

  lemma {:induction false} CutPastFront<T>(front: seq<T>, back: seq<T>, j: nat)
    requires j <= |back|
    ensures (front + back)[|front| + j..] == back[j..]
    ensures (front + back)[..|front| + j] == front + back[..j]
  {
  }

  /** Offering two batches one after the other is offering their concatenation. */
  lemma {:induction false} NewestAppend<T>(a: seq<T>, b: seq<T>, cap: nat)
    ensures Newest(Newest(a, cap) + b, cap) == Newest(a + b, cap)
    ensures Shed(a, cap) + Shed(Newest(a, cap) + b, cap) == Shed(a + b, cap)
  {
    var front, back := Shed(a, cap), Newest(a, cap) + b;
    assert front + back == a + b;
    var j := |back| - |Newest(back, cap)|;
    CutPastFront(front, back, j);
  }

  datatype Op<T> = Push(x: T) | Pop

  datatype History<T> = History(pushed: seq<T>, queue: seq<T>, popped: seq<T>, dropped: seq<T>)

  function Apply<T>(h: History<T>, op: Op<T>, cap: nat): History<T> {
    match op
    case Push(x) =>
      var offered := h.queue + [x];
      History(h.pushed + [x], Newest(offered, cap), h.popped, h.dropped + Shed(offered, cap))
    case Pop =>
      if h.queue == [] then h
      else h.(queue := h.queue[1..], popped := h.popped + [h.queue[0]])
  }

  function Run<T>(ops: seq<Op<T>>, cap: nat): History<T> {
    if ops == [] then History([], [], [], [])
    else Apply(Run(ops[..|ops|-1], cap), ops[|ops|-1], cap)
  }

  /** The elements of `whole` are shared out over `a` and `b`, both in order. */
  ghost predicate SharedOut<T>(whole: seq<T>, a: seq<T>, b: seq<T>) {
    Subseq(a, whole) && Subseq(b, whole) && multiset(whole) == multiset(a) + multiset(b)
  }

  lemma {:induction false} SharedOutMore<T>(whole: seq<T>, a: seq<T>, b: seq<T>, more: seq<T>)
    requires SharedOut(whole, a, b)
    ensures SharedOut(whole + more, a + more, b) && SharedOut(whole + more, a, b + more)
  {
    SubseqAppend(a, whole, more);
    SubseqExtend(a, whole, more);
    SubseqAppend(b, whole, more);
    SubseqExtend(b, whole, more);
  }

  /** The law of a drop-oldest queue, on the history of one. */
  ghost predicate Lawful<T>(h: History<T>, cap: nat) {
    && |h.queue| <= cap && |h.queue| <= |h.pushed|
    && h.queue == h.pushed[|h.pushed| - |h.queue|..]
    && SharedOut(h.pushed[..|h.pushed| - |h.queue|], h.popped, h.dropped)
  }

  /** Moving the next elements of `pushed` out of the queue keeps the law. */
  lemma {:induction false} LeaveLawful<T>(pushed: seq<T>, left: seq<T>, queue: seq<T>, gone: seq<T>, popped: seq<T>, dropped: seq<T>)
    requires pushed == gone + (left + queue) && SharedOut(gone, popped, dropped)
    ensures |queue| <= |pushed| && queue == pushed[|pushed| - |queue|..]
    ensures SharedOut(pushed[..|pushed| - |queue|], popped + left, dropped)
    ensures SharedOut(pushed[..|pushed| - |queue|], popped, dropped + left)
  {
    SharedOutMore(gone, popped, dropped, left);
    hide SharedOut;
    assert pushed[..|pushed| - |queue|] == gone + left;
  }

  lemma {:induction false} PushLawful<T>(h: History<T>, x: T, cap: nat)
    requires Lawful(h, cap)
    ensures Lawful(Apply(h, Push(x), cap), cap)
  {
    hide SharedOut;
    var gone := h.pushed[..|h.pushed| - |h.queue|];
    assert h.pushed == gone + h.queue;
    var offered := h.queue + [x];
    var left, queue, pushed := Shed(offered, cap), Newest(offered, cap), h.pushed + [x];
    ShedThenNewest(offered, cap);
    hide Newest, Shed;
    assert pushed == gone + (left + queue);
    LeaveLawful(pushed, left, queue, gone, h.popped, h.dropped);
  }

  lemma {:induction false} PopLawful<T>(h: History<T>, cap: nat)
    requires Lawful(h, cap)
    ensures Lawful(Apply(h, Pop, cap), cap)
  {
    hide SharedOut;
    if h.queue != [] {
      var gone, left := h.pushed[..|h.pushed| - |h.queue|], [h.queue[0]];
      assert h.pushed == gone + h.queue && h.queue == left + h.queue[1..];
      LeaveLawful(h.pushed, left, h.queue[1..], gone, h.popped, h.dropped);
    }
  }

  /**
    For every interleaving of pushes and pops: the queue is a suffix of everything pushed, never longer
    than its capacity; what left it is split between popped and dropped, both in push order.
   */
  lemma {:induction false} QueueLaw<T>(ops: seq<Op<T>>, cap: nat)
    ensures Lawful(Run(ops, cap), cap)
    ensures var h := Run(ops, cap); |h.pushed| == |h.popped| + |h.dropped| + |h.queue|
  {
    if ops != [] {
      QueueLaw(ops[..|ops|-1], cap);
      if ops[|ops|-1].Push? {
        PushLawful(Run(ops[..|ops|-1], cap), ops[|ops|-1].x, cap);
      } else {
        PopLawful(Run(ops[..|ops|-1], cap), cap);
      }
    }
    var h := Run(ops, cap);
    assert |multiset(h.pushed[..|h.pushed| - |h.queue|])| == |h.pushed| - |h.queue|;
  }
}
