/**
  The transcript of a call: events are queued without blocking, and one task writes them to the
  database in batches until it meets the stop marker.
 */
module TranscriptWriter {
  import opened Common

  const BATCH_MAX: nat := 50

  datatype Item<E> = Event(event: E) | Marker

  /** One call of `_flush` with a non-empty batch; a database error drops it. */
  datatype Flush<E> = Flush(events: seq<E>, stored: bool)

  /** `put` is everything ever queued. */
  datatype Writer<E> = Writer(
    put: seq<Item<E>>, queue: seq<Item<E>>, batch: seq<E>, flushes: seq<Flush<E>>, done: bool)

  /** What may happen: a write, a stop, and at the flusher's wait an item or the timeout; `ok` is what the database does if asked. */
  datatype Step<E> = Write(event: E) | Stop | Get(ok: bool) | Timeout(ok: bool)

  function Put<E>(w: Writer<E>, item: Item<E>): Writer<E> {
    w.(put := w.put + [item], queue := w.queue + [item])
  }

  function Flushed<E>(w: Writer<E>, ok: bool): Writer<E> {
    if w.batch == [] then w else w.(flushes := w.flushes + [Flush(w.batch, ok)])
  }

  /** The flusher waits without a timeout while its batch is empty, and not at all once it has returned. */
  function Apply<E>(w: Writer<E>, s: Step<E>): Writer<E> {
    match s
    case Write(event) => Put(w, Event(event))
    case Stop => Put(w, Marker)
    case Timeout(ok) => if w.done || w.batch == [] then w else Flushed(w, ok).(batch := [])
    case Get(ok) =>
      if w.done || w.queue == [] then w
      else
        var taken := w.(queue := w.queue[1..]);
        match w.queue[0]
        case Marker => Flushed(taken, ok).(done := true)
        case Event(event) =>
          var more := taken.(batch := taken.batch + [event]);
          if |more.batch| >= BATCH_MAX then Flushed(more, ok).(batch := []) else more
  }

  function Run<E>(steps: seq<Step<E>>): Writer<E> {
    if steps == [] then Writer([], [], [], [], false) else Apply(Run(steps[..|steps|-1]), steps[|steps|-1])
  }

  // ---------------------------------------------------------------------
  // The writer
  // ---------------------------------------------------------------------

  class TranscriptWriter<E> {
    var queue: seq<Item<E>>
    var batch: seq<E>                    // local of _flush_loop
    var flushes: seq<Flush<E>>
    var done: bool
    ghost var put: seq<Item<E>>

    constructor ()
      ensures Value() == Run([])
    {
      queue, batch, flushes, done, put := [], [], [], false, [];
    }

    ghost function Value(): Writer<E>
      reads this
    {
      Writer(put, queue, batch, flushes, done)
    }

    method WriteEvent(event: E)
      modifies this`queue, this`put
      ensures Value() == Apply(old(Value()), Write(event))
    {
      queue := queue + [Event(event)];
      put := put + [Event(event)];
    }

    method PutMarker()
      modifies this`queue, this`put
      ensures Value() == Apply(old(Value()), Stop)
    {
      queue := queue + [Marker];
      put := put + [Marker];
    }

    method FlushBatch(ok: bool)
      modifies this`flushes
      ensures Value() == Flushed(old(Value()), ok)
    {
      if batch == [] {
        return;
      }
      flushes := flushes + [Flush(batch, ok)];
    }

    /** One round of `_flush_loop`, when its wait ends with an item or with the timeout. */
    method FlushLoopRound(timedOut: bool, ok: bool)
      requires !done && (if timedOut then batch != [] else queue != [])
      modifies this`queue, this`batch, this`flushes, this`done
      ensures Value() == Apply(old(Value()), if timedOut then Timeout(ok) else Get(ok))
    {
      hide Flushed;
      if timedOut {
        FlushBatch(ok);
        batch := [];
        return;
      }
      var item := queue[0];
      queue := queue[1..];
      if item.Marker? {
        FlushBatch(ok);
        done := true;
        return;
      }
      batch := batch + [item.event];
      if |batch| >= BATCH_MAX {
        FlushBatch(ok);
        batch := [];
      }
    }
  }

  // ---------------------------------------------------------------------
  // Every schedule
  // ---------------------------------------------------------------------

  /** The events before the first stop marker. */
  function BeforeStop<E>(items: seq<Item<E>>): seq<E> {
    if items == [] || items[0].Marker? then [] else [items[0].event] + BeforeStop(items[1..])
  }

  predicate HasMarker<E>(items: seq<Item<E>>) { exists i :: 0 <= i < |items| && items[i].Marker? }

  lemma {:induction false} BeforeStopPut<E>(items: seq<Item<E>>, item: Item<E>)
    ensures BeforeStop(items + [item])
         == if HasMarker(items) || item.Marker? then BeforeStop(items) else BeforeStop(items) + [item.event]
  {
    if items == [] {
      assert (items + [item])[1..] == [];
    } else {
      assert (items + [item])[1..] == items[1..] + [item];
      BeforeStopPut(items[1..], item);
      MarkerOfTail(items);
    }
  }

  lemma {:induction false} MarkerOfTail<E>(items: seq<Item<E>>)
    requires items != []
    ensures HasMarker(items) <==> items[0].Marker? || HasMarker(items[1..])
  {
    if HasMarker(items) && !items[0].Marker? {
      var i :| 0 <= i < |items| && items[i].Marker?;
      assert items[1..][i - 1] == items[i];
    }
    if HasMarker(items[1..]) {
      var i :| 0 <= i < |items[1..]| && items[1..][i].Marker?;
      assert items[i + 1].Marker?;
    }
  }

  lemma {:induction false} MarkerPut<E>(items: seq<Item<E>>, item: Item<E>)
    ensures HasMarker(items + [item]) <==> HasMarker(items) || item.Marker?
  {
    if HasMarker(items) {
      var i :| 0 <= i < |items| && items[i].Marker?;
      assert (items + [item])[i].Marker?;
    }
    if item.Marker? {
      assert (items + [item])[|items|].Marker?;
    }
  }

  /** The events of all flushes, in order. */
  function Events<E>(flushes: seq<Flush<E>>): seq<E> {
    if flushes == [] then [] else Events(flushes[..|flushes|-1]) + flushes[|flushes|-1].events
  }

  /** Flushed, in the batch and still queued before the stop: together everything queued before the stop. */
  ghost predicate Accounts<E>(w: Writer<E>) {
    && (if w.done then Events(w.flushes) == BeforeStop(w.put) && HasMarker(w.put)
        else
          && Events(w.flushes) + w.batch + BeforeStop(w.queue) == BeforeStop(w.put)
          && (HasMarker(w.put) <==> HasMarker(w.queue)))
    && |w.batch| <= BATCH_MAX && (!w.done ==> |w.batch| < BATCH_MAX)
    && forall f <- w.flushes :: 0 < |f.events| <= BATCH_MAX
  }

  lemma {:induction false} PutAccounts<E>(w: Writer<E>, item: Item<E>)
    requires Accounts(w)
    ensures Accounts(Put(w, item))
  {
    hide BeforeStop, HasMarker, Events;
    BeforeStopPut(w.put, item);
    BeforeStopPut(w.queue, item);
    MarkerPut(w.put, item);
    MarkerPut(w.queue, item);
    if !HasMarker(w.queue) && item.Event? && !w.done {
      var a, q, e := Events(w.flushes) + w.batch, BeforeStop(w.queue), [item.event];
      assert a + (q + e) == (a + q) + e;
    }
  }

  lemma {:induction false} FlushAccounts<E>(w: Writer<E>, ok: bool)
    requires |w.batch| <= BATCH_MAX && forall f <- w.flushes :: 0 < |f.events| <= BATCH_MAX
    ensures Events(Flushed(w, ok).flushes) == Events(w.flushes) + w.batch
    ensures forall f <- Flushed(w, ok).flushes :: 0 < |f.events| <= BATCH_MAX
  {
    if w.batch != [] {
      assert Flushed(w, ok).flushes[..|w.flushes|] == w.flushes;
    }
  }

  lemma {:induction false} GetAccounts<E>(w: Writer<E>, ok: bool)
    requires Accounts(w) && !w.done && w.queue != []
    ensures Accounts(Apply(w, Get(ok)))
  {
    hide Events, HasMarker, Flushed;
    MarkerOfTail(w.queue);
    var taken := w.(queue := w.queue[1..]);
    match w.queue[0]
    case Marker =>
      FlushAccounts(taken, ok);
      KeepsTheRest(taken, ok);
      assert w.queue[0].Marker? && BeforeStop(w.queue) == [];
      assert Events(w.flushes) + w.batch + [] == Events(w.flushes) + w.batch;
    case Event(event) =>
      var more := taken.(batch := taken.batch + [event]);
      var a, q := Events(w.flushes), BeforeStop(more.queue);
      assert a + w.batch + ([event] + q) == a + (w.batch + [event]) + q;
      FlushAccounts(more, ok);
      KeepsTheRest(more, ok);
      if |more.batch| >= BATCH_MAX {
        assert a + more.batch + [] == a + more.batch;
      }
  }

  /**
    For every schedule of writes, waits and timeouts, the flushed batches are, one after the other, the
    events queued before the stop marker, as far as they have been taken; none is empty or longer than 50.
   */
  lemma {:induction false} FlushLaw<E>(steps: seq<Step<E>>)
    ensures Accounts(Run(steps))
  {
    hide Accounts, Put, Flushed;
    if steps == [] {
      NothingPut<E>();
    } else {
      var w, s := Run(steps[..|steps|-1]), steps[|steps|-1];
      FlushLaw(steps[..|steps|-1]);
      match s
      case Write(event) => PutAccounts(w, Event(event));
      case Stop => PutAccounts(w, Marker);
      case Get(ok) =>
        if !w.done && w.queue != [] {
          GetAccounts(w, ok);
        }
      case Timeout(ok) => TimeoutAccounts(w, ok);
    }
  }

  lemma {:induction false} NothingPut<E>()
    ensures Accounts(Run<E>([]))
  {
  }

  lemma {:induction false} TimeoutAccounts<E>(w: Writer<E>, ok: bool)
    requires Accounts(w)
    ensures Accounts(Apply(w, Timeout(ok)))
  {
    hide Events, HasMarker, BeforeStop, Flushed;
    if !w.done && w.batch != [] {
      FlushAccounts(w, ok);
      KeepsTheRest(w, ok);
      assert Events(w.flushes) + w.batch + [] == Events(w.flushes) + w.batch;
    }
  }

  lemma {:induction false} KeepsTheRest<E>(w: Writer<E>, ok: bool)
    ensures Flushed(w, ok) == w.(flushes := Flushed(w, ok).flushes)
  {
  }

  /** When the flusher has returned, everything queued before the first stop has been flushed, and nothing else. */
  lemma {:induction false} ReturnedMeansFlushed<E>(steps: seq<Step<E>>)
    ensures var w := Run(steps);
            w.done ==> Events(w.flushes) == BeforeStop(w.put) && HasMarker(w.put)
  {
    FlushLaw(steps);
  }

  /**
    When there is a flush: a timeout and the stop marker leave nothing in the batch, an event is flushed with its
    batch only if the batch is full then, and what the database answered is on record.
   */
  lemma {:induction false} FlushesWhenDue<E>(steps: seq<Step<E>>, s: Step<E>)
    ensures var w, v := Run(steps), Apply(Run(steps), s);
            && (s.Timeout? && !w.done ==> v.batch == [] && Events(v.flushes) + BeforeStop(v.queue) == BeforeStop(v.put))
            && (s.Get? && !w.done && w.queue != [] && w.queue[0].Marker? ==> v.done)
            && (s.Get? && !w.done && w.queue != [] && w.queue[0].Event? ==>
                  (v.flushes != w.flushes <==> v.batch == []) && |v.batch| < 50
                  && (v.flushes != w.flushes ==> |v.flushes[|v.flushes|-1].events| == 50))
            && (v.flushes != w.flushes ==>
                  && |v.flushes| == |w.flushes| + 1 && v.flushes[..|w.flushes|] == w.flushes
                  && (s.Get? || s.Timeout?) && v.flushes[|w.flushes|].stored == s.ok)
  {
    FlushLaw(steps);
    var w := Run(steps);
    if s.Timeout? && !w.done {
      TimeoutAccounts(w, s.ok);
      assert Events(Apply(w, s).flushes) + [] == Events(Apply(w, s).flushes);
    }
    hide Run, Events, BeforeStop, HasMarker;
  }

  /** The queue as the flusher's next `n` items find it. */
  function Drained<E>(w: Writer<E>, ok: bool, n: nat): Writer<E> {
    if n == 0 then w else Apply(Drained(w, ok, n - 1), Get(ok))
  }

  /** A flusher that is given its items gets to the stop marker: then it has returned, with everything before it flushed. */
  lemma {:induction false} DrainReturns<E>(steps: seq<Step<E>>, ok: bool) returns (n: nat)
    requires HasMarker(Run(steps).put)
    ensures n <= |Run(steps).queue|
    ensures var w := Drained(Run(steps), ok, n); w.done && Events(w.flushes) == BeforeStop(w.put) && w.put == Run(steps).put
  {
    FlushLaw(steps);
    n := DrainFrom(Run(steps), ok);
  }

  lemma {:induction false} DrainFrom<E>(w: Writer<E>, ok: bool) returns (n: nat)
    requires Accounts(w) && HasMarker(w.put)
    ensures n <= |w.queue| && Drained(w, ok, n).done && Accounts(Drained(w, ok, n)) && Drained(w, ok, n).put == w.put
    decreases |w.queue|
  {
    if w.done {
      n := 0;
    } else {
      var next := Apply(w, Get(ok));
      GetAccounts(w, ok);
      hide Accounts;
      TakesOne(w, ok);
      if next.done {
        n := 1;
        assert Drained(w, ok, 0) == w;
      } else {
        var m := DrainFrom(next, ok);
        n := m + 1;
        DrainedOneMore(w, ok, m);
      }
    }
  }

  lemma {:induction false} TakesOne<E>(w: Writer<E>, ok: bool)
    requires !w.done && w.queue != []
    ensures var v := Apply(w, Get(ok)); v.queue == w.queue[1..] && v.put == w.put
  {
  }

  lemma {:induction false} DrainedOneMore<E>(w: Writer<E>, ok: bool, m: nat)
    ensures Drained(w, ok, m + 1) == Drained(Apply(w, Get(ok)), ok, m)
  {
    hide Apply;
    if m > 0 {
      DrainedOneMore(w, ok, m - 1);
    } else {
      assert Drained(w, ok, 0) == w;
    }
  }
}
