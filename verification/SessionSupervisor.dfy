/**
  The supervisor keeps one session worker per active deployment; the heartbeat scheduler keeps one
  beating task per worker. Both compare what there is with what there should be, at their own times.
 */
module SessionSupervisor {
  import opened Common
  import opened SessionWorker
  import SessionModels

  type Id = string

  /** A deployment with its secrets, and what its new worker starts from. */
  datatype Deployment = Deployment(id: Id, cfg: Config, blank: SessionModels.SessionState, redis: Redis)

  /** A row of the query; the secrets may not decrypt. */
  datatype Row = Row(deployment: Deployment, decrypts: bool)

  /** `_sync_fetch_deployments`: a database error gives no rows, a row that does not decrypt is skipped. */
  function Fetched(db: Option<seq<Row>>): seq<Deployment> {
    if db.None? then [] else Readable(db.value)
  }

  function Readable(rows: seq<Row>): seq<Deployment> {
    if rows == [] then []
    else Readable(rows[..|rows|-1]) + if rows[|rows|-1].decrypts then [rows[|rows|-1].deployment] else []
  }

  function Ids(rows: seq<Deployment>): set<Id> { set i | 0 <= i < |rows| :: rows[i].id }

  lemma {:induction false} IdsAppend(a: seq<Deployment>, b: seq<Deployment>)
    ensures Ids(a + b) == Ids(a) + Ids(b)
  {
    forall id
      ensures id in Ids(a + b) <==> id in Ids(a) || id in Ids(b)
    {
      if i :| 0 <= i < |a| && a[i].id == id {
        assert (a + b)[i].id == id;
      }
      if i :| 0 <= i < |b| && b[i].id == id {
        assert (a + b)[|a| + i].id == id;
      }
    }
  }

  /** The ids that get a worker: those of the rows that decrypt; none if the database fails. */
  lemma {:induction false} FetchedIds(db: Option<seq<Row>>, id: Id)
    ensures id in Ids(Fetched(db))
       <==> db.Some? && exists i :: 0 <= i < |db.value| && db.value[i].decrypts && db.value[i].deployment.id == id
  {
    if db.Some? {
      ReadableIds(db.value, id);
    }
  }

  lemma {:induction false} ReadableIds(rows: seq<Row>, id: Id)
    ensures id in Ids(Readable(rows)) <==> exists i :: 0 <= i < |rows| && rows[i].decrypts && rows[i].deployment.id == id
  {
    if rows != [] {
      var init, last := rows[..|rows|-1], rows[|rows|-1];
      ReadableIds(init, id);
      var more := if last.decrypts then [last.deployment] else [];
      IdsAppend(Readable(init), more);
      if i :| 0 <= i < |rows| && rows[i].decrypts && rows[i].deployment.id == id {
        assert i < |init| ==> init[i] == rows[i];
        assert i == |init| ==> more[0].id == id;
      }
      if i :| 0 <= i < |init| && init[i].decrypts && init[i].deployment.id == id {
        assert rows[i] == init[i];
      }
    }
  }

  /** Work handed to the event loop. */
  datatype Task = StartOf(worker: Worker) | BeatOf(worker: Worker)

  const UNHEALTHY_AFTER: int := 60 * SessionModels.SECOND

  predicate Stale(s: SessionModels.SessionState, now: SessionModels.Stamp) {
    s.lastHeartbeatAt.Some? && now - s.lastHeartbeatAt.value >= UNHEALTHY_AFTER
  }

  /** What a tick does to the record of a worker it keeps. */
  function Checked(s: SessionModels.SessionState, now: SessionModels.Stamp): SessionModels.SessionState {
    if Stale(s, now) then s.(heartbeatFailures := 99) else s
  }

  /** A worker as the supervisor sees it. */
  datatype Entry = Entry(worker: Worker, state: SessionModels.SessionState, stopped: bool)

  type Fleet = map<Id, Entry>

  function CheckedEntry(e: Entry, now: SessionModels.Stamp): Entry { e.(state := Checked(e.state, now)) }

  /** The workers of `ids` are there, those that were there before are the same objects and have been looked at. */
  ghost predicate AfterChecks(before: Fleet, after: Fleet, ids: set<Id>, now: SessionModels.Stamp) {
    && after.Keys == before.Keys + ids
    && forall id | id in before :: after[id] == if id in ids then CheckedEntry(before[id], now) else before[id]
  }

  /** Every stale worker among `ids` gets a heartbeat of its own. */
  ghost predicate BeatsScheduled(before: Fleet, ids: set<Id>, now: SessionModels.Stamp, scheduled: seq<Task>) {
    forall id | id in before && id in ids :: Stale(before[id].state, now) ==> BeatOf(before[id].worker) in scheduled
  }

  lemma {:induction false} NoBeats(before: Fleet, now: SessionModels.Stamp, scheduled: seq<Task>)
    ensures BeatsScheduled(before, {}, now, scheduled)
  {
  }

  lemma {:induction false} OneMoreBeat(
      before: Fleet, mid: Fleet, ids: set<Id>, id: Id, now: SessionModels.Stamp, planned: seq<Task>, scheduled: seq<Task>)
    requires AfterChecks(before, mid, ids, now) && BeatsScheduled(before, ids, now, planned) && planned <= scheduled
    requires id in mid && Stale(mid[id].state, now) ==> BeatOf(mid[id].worker) in scheduled
    ensures BeatsScheduled(before, ids + {id}, now, scheduled)
  {
    forall i | i in before && i in ids && Stale(before[i].state, now)
      ensures BeatOf(before[i].worker) in scheduled
    {
      assert BeatOf(before[i].worker) in planned;
    }
  }

  lemma {:induction false} NoChecks(before: Fleet, now: SessionModels.Stamp)
    ensures AfterChecks(before, before, {}, now)
  {
  }

  lemma {:induction false} OneMoreCheck(before: Fleet, mid: Fleet, after: Fleet, ids: set<Id>, id: Id, now: SessionModels.Stamp)
    requires AfterChecks(before, mid, ids, now)
    requires id in after && after == mid[id := after[id]] && (id in mid ==> after[id] == CheckedEntry(mid[id], now))
    ensures AfterChecks(before, after, ids + {id}, now)
  {
    if id in before {
      CheckedTwice(before[id].state, now);
    }
  }

  function Restrict(m: Fleet, keep: set<Id>): Fleet { map id | id in m && id in keep :: m[id] }

  lemma {:induction false} RestrictNone(m: Fleet, active: set<Id>)
    ensures Restrict(m, m.Keys + active) == m
  {
  }

  lemma {:induction false} RestrictOne(m: Fleet, left: set<Id>, active: set<Id>, id: Id)
    requires id in left
    ensures Restrict(m, (left - {id}) + active)
         == if id in active then Restrict(m, left + active) else Restrict(m, left + active) - {id}
  {
  }

  lemma {:induction false} Ticked(before: Fleet, mid: Fleet, ids: set<Id>, now: SessionModels.Stamp)
    requires AfterChecks(before, mid, ids, now)
    ensures Restrict(mid, ids).Keys == ids
    ensures forall id | id in before && id in ids :: Restrict(mid, ids)[id] == CheckedEntry(before[id], now)
  {
  }

  class Supervisor {
    var workers: map<Id, Worker>
    var scheduled: seq<Task>

    constructor ()
      ensures workers == map[] && scheduled == [] && Valid()
    {
      workers, scheduled := map[], [];
    }

    /** No two deployments share a worker. */
    ghost predicate Valid()
      reads this
    {
      forall a, b | a in workers && b in workers && a != b :: workers[a] != workers[b]
    }

    ghost function Seen(): Fleet
      reads this, set id | id in workers :: workers[id]
    {
      map id | id in workers :: Entry(workers[id], workers[id].state, workers[id].stopped)
    }

    method StartWorker(d: Deployment)
      requires Valid() && d.id !in workers
      modifies this
      ensures Valid() && d.id in workers && fresh(workers[d.id]) && workers == old(workers)[d.id := workers[d.id]]
      ensures Seen() == old(Seen())[d.id := Entry(workers[d.id], d.blank, false)]
      ensures scheduled == old(scheduled) + [StartOf(workers[d.id])]
    {
      var worker := new Worker(d.cfg, d.blank, d.redis);
      assert worker.Value() == Session(d.blank, None, false, false, d.redis, [], map[]);
      workers := workers[d.id := worker];
      scheduled := scheduled + [StartOf(worker)];
    }

    method MaybeRecoverUnhealthy(worker: Worker, now: SessionModels.Stamp)
      modifies this`scheduled, worker`state
      ensures worker.state == Checked(old(worker.state), now)
      ensures scheduled == old(scheduled) + if Stale(old(worker.state), now) then [BeatOf(worker)] else []
    {
      if worker.state.lastHeartbeatAt.None? {
        return;
      }
      if now - worker.state.lastHeartbeatAt.value < UNHEALTHY_AFTER {
        return;
      }
      worker.state := worker.state.(heartbeatFailures := 99);
      scheduled := scheduled + [BeatOf(worker)];
    }

    method CheckWorker(id: Id, now: SessionModels.Stamp)
      requires Valid() && id in workers
      modifies this`scheduled, workers[id]
      ensures Valid() && Seen() == old(Seen())[id := CheckedEntry(old(Seen())[id], now)]
      ensures old(scheduled) <= scheduled && (Stale(old(workers[id].state), now) ==> BeatOf(workers[id]) in scheduled)
    {
      hide Checked, Stale;
      MaybeRecoverUnhealthy(workers[id], now);
    }

    /** The first loop of `_tick`: start what is missing, look at what is there. */
    method AddOrCheck(rows: seq<Deployment>, now: SessionModels.Stamp)
      requires Valid()
      modifies this, set id | id in workers :: workers[id]
      ensures Valid() && AfterChecks(old(Seen()), Seen(), Ids(rows), now)
      ensures forall id | id in old(workers) :: id in workers && workers[id] == old(workers)[id]
      ensures forall id | id in workers && id !in old(workers) :: fresh(workers[id]) && StartOf(workers[id]) in scheduled
      ensures BeatsScheduled(old(Seen()), Ids(rows), now, scheduled)
    {
      hide AfterChecks, CheckedEntry, Ids, BeatsScheduled, Stale;
      NoIds(rows);
      NoChecks(Seen(), now);
      NoBeats(Seen(), now, scheduled);
      var i := 0;
      while i < |rows|
        invariant i <= |rows| && Valid()
        invariant forall id | id in old(workers) :: id in workers && workers[id] == old(workers)[id]
        invariant forall id | id in workers && id !in old(workers) :: fresh(workers[id]) && StartOf(workers[id]) in scheduled
        invariant AfterChecks(old(Seen()), Seen(), Ids(rows[..i]), now)
        invariant BeatsScheduled(old(Seen()), Ids(rows[..i]), now, scheduled)
      {
        var r := rows[i];
        ghost var mid, planned := Seen(), scheduled;
        if r.id !in workers {
          StartWorker(r);
        } else {
          CheckWorker(r.id, now);
        }
        OneMoreCheck(old(Seen()), mid, Seen(), Ids(rows[..i]), r.id, now);
        OneMoreBeat(old(Seen()), mid, Ids(rows[..i]), r.id, now, planned, scheduled);
        OneMoreId(rows, i);
        i := i + 1;
      }
      assert rows[..|rows|] == rows;
    }

    method StopWorker(id: Id)
      requires Valid() && id in workers
      modifies this`workers, workers[id]
      ensures Valid() && workers == old(workers) - {id} && Seen() == old(Seen()) - {id}
      ensures old(workers[id]).stopped
    {
      var worker := workers[id];
      workers := workers - {id};
      worker.End();
      StopStops(worker.cfg, old(worker.Value()));
    }

    /** The workers `was` had for the departed ids, neither left to look at nor active, are stopped. */
    ghost predicate DepartedStopped(was: map<Id, Worker>, left: set<Id>, active: set<Id>)
      reads set id | id in was && id !in left && id !in active :: was[id]
    {
      forall id | id in was && id !in left && id !in active :: was[id].stopped
    }

    /** The ids `left` have still to be looked at; the others that are not active have been removed. */
    ghost predicate Removing(was: map<Id, Worker>, before: Fleet, left: set<Id>, active: set<Id>)
      reads this, set id | id in workers :: workers[id], set id | id in was && id !in left && id !in active :: was[id]
    {
      && Valid() && left <= workers.Keys && workers.Keys == was.Keys * (left + active)
      && (forall id | id in workers :: workers[id] == was[id])
      && (forall a, b | a in was && b in was && a != b :: was[a] != was[b])
      && Seen() == Restrict(before, left + active) && DepartedStopped(was, left, active)
    }

    /** The second loop of `_tick`: stop the workers that are not among `active`. */
    method RemoveDeparted(active: set<Id>)
      requires Valid()
      modifies this`workers, set id | id in workers :: workers[id]
      ensures Removing(old(workers), old(Seen()), {}, active)
    {
      hide Removing, Restrict, DepartedStopped;
      var left := workers.Keys;
      NothingRemoved(active);
      ghost var was, before := workers, Seen();
      while left != {}
        invariant left <= was.Keys && forall id | id in left :: id in workers && workers[id] == was[id]
        invariant Removing(was, before, left, active)
        decreases |left|
      {
        var id :| id in left;
        if id !in active {
          StopDeparted(id, was, before, left, active);
        } else {
          KeepActive(id, was, before, left, active);
        }
        left := left - {id};
      }
    }

    lemma {:induction false} NothingRemoved(active: set<Id>)
      requires Valid()
      ensures Removing(workers, Seen(), workers.Keys, active)
    {
      RestrictNone(Seen(), active);
      assert Seen().Keys == workers.Keys;
    }

    lemma {:induction false} KeepActive(id: Id, was: map<Id, Worker>, before: Fleet, left: set<Id>, active: set<Id>)
      requires Removing(was, before, left, active) && id in left && id in active
      ensures Removing(was, before, left - {id}, active)
    {
      hide Restrict;
      RestrictOne(before, left, active, id);
    }

    method StopDeparted(id: Id, ghost was: map<Id, Worker>, ghost before: Fleet, ghost left: set<Id>, ghost active: set<Id>)
      requires Removing(was, before, left, active) && id in left && id !in active && id in workers
      modifies this`workers, workers[id]
      ensures Removing(was, before, left - {id}, active)
      ensures workers == old(workers) - {id}
    {
      hide Restrict;
      RestrictOne(before, left, active, id);
      StopWorker(id);
    }

    /** `_tick`: one worker per id fetched. Kept ids keep their worker object, new ids get a new one, the workers of the others are stopped. */
    method Tick(db: Option<seq<Row>>, now: SessionModels.Stamp)
      requires Valid()
      modifies this, set id | id in workers :: workers[id]
      ensures Valid() && workers.Keys == Ids(Fetched(db))
      ensures forall id | id in old(workers) && id in workers :: Seen()[id] == CheckedEntry(old(Seen()[id]), now)
      ensures forall id | id in workers && id !in old(workers) :: fresh(workers[id]) && StartOf(workers[id]) in scheduled
      ensures DepartedStopped(old(workers), {}, Ids(Fetched(db)))
      ensures BeatsScheduled(old(Seen()), Ids(Fetched(db)), now, scheduled)
    {
      hide BeatsScheduled, Fetched, Ids, AfterChecks, CheckedEntry, Restrict;
      var rows := Fetched(db);
      AddOrCheck(rows, now);
      ghost var mid := Seen();
      RemoveDeparted(Ids(rows));
      Ticked(old(Seen()), mid, Ids(rows), now);
      assert {} + Ids(rows) == Ids(rows);
      assert workers.Keys == Seen().Keys && old(workers.Keys) == old(Seen()).Keys;
    }
  }

  lemma {:induction false} NoIds(rows: seq<Deployment>)
    ensures Ids(rows[..0]) == {}
  {
  }

  lemma {:induction false} OneMoreId(rows: seq<Deployment>, i: nat)
    requires i < |rows|
    ensures Ids(rows[..i + 1]) == Ids(rows[..i]) + {rows[i].id}
  {
    assert rows[..i + 1] == rows[..i] + [rows[i]];
    IdsAppend(rows[..i], [rows[i]]);
  }

  lemma {:induction false} CheckedTwice(s: SessionModels.SessionState, now: SessionModels.Stamp)
    ensures Checked(Checked(s, now), now) == Checked(s, now)
  {
  }

  /**
    What a check is for: a session without a heartbeat for sixty seconds logs in anew if its next heartbeat
    fails, whatever its count was; any other is left as it is.
   */
  lemma {:induction false} StaleSessionsAreForced(cfg: Config, w: Session, now: SessionModels.Stamp, b: Beat)
    requires Running(w) && HasSession(w)
    ensures var silent := now - w.state.lastHeartbeatAt.value;
            var checked := w.(state := Checked(w.state, now));
            if silent >= 60 * SessionModels.SECOND then
              && (Heartbeat(cfg, checked, b).state.loginAttempts > w.state.loginAttempts <==> !b.good)
            else checked == w
  {
    hide LoginRound, Mirror;
    ForcedOnlyByFailingHeartbeat(cfg, w, b, 99);
  }

  lemma {:induction false} StopStops(cfg: Config, w: Session)
    ensures Stop(cfg, w).stopped
  {
  }
}
