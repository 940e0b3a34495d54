/**
  The heartbeat scheduler: one beating task per supervised worker, brought up to date at its own pace.
  A task is known by the worker object it beats.
 */
module Heartbeats {
  import opened Common
  import SessionSupervisor
  import SessionModels
  import SessionWorker

  type Id = SessionSupervisor.Id

  /** `_reconcile_tasks`, as what becomes of the tasks: a running task is never rebound. */
  function Reconciled<W>(workers: map<Id, W>, tasks: map<Id, W>): map<Id, W> {
    map id | id in workers :: if id in tasks then tasks[id] else workers[id]
  }

  /** The tasks when all missing ones but those of `left` have been spawned. */
  function Spawned<W>(workers: map<Id, W>, tasks: map<Id, W>, left: set<Id>): map<Id, W> {
    map id | id in tasks.Keys + workers.Keys && (id in tasks || id !in left) :: if id in tasks then tasks[id] else workers[id]
  }

  lemma {:induction false} NoneSpawned<W>(workers: map<Id, W>, tasks: map<Id, W>)
    ensures tasks == Spawned(workers, tasks, workers.Keys - tasks.Keys)
  {
  }

  lemma {:induction false} OneSpawned<W>(workers: map<Id, W>, tasks: map<Id, W>, left: set<Id>, id: Id)
    requires id in left && left <= workers.Keys - tasks.Keys
    ensures id in workers && Spawned(workers, tasks, left)[id := workers[id]] == Spawned(workers, tasks, left - {id})
  {
  }

  /** Of `before`, the tasks that are not live are cancelled and gone, except those of `left`. */
  ghost predicate Dropped<W>(before: map<Id, W>, live: set<Id>, left: set<Id>, tasks: map<Id, W>, cancelled: seq<W>) {
    && tasks == (map id | id in before && (id in live || id in left) :: before[id])
    && forall id | id in before && id !in live && id !in left :: before[id] in cancelled
  }

  lemma {:induction false} NoneDropped<W>(before: map<Id, W>, live: set<Id>, cancelled: seq<W>)
    ensures Dropped(before, live, before.Keys - live, before, cancelled)
  {
  }

  lemma {:induction false} OneDropped<W>(
      before: map<Id, W>, live: set<Id>, left: set<Id>, tasks: map<Id, W>, cancelled: seq<W>, id: Id)
    requires Dropped(before, live, left, tasks, cancelled) && id in left && left <= before.Keys - live
    ensures id in tasks && Dropped(before, live, left - {id}, tasks - {id}, cancelled + [tasks[id]])
  {
  }

  class Scheduler {
    const supervisor: SessionSupervisor.Supervisor
    var tasks: map<Id, SessionWorker.Worker>
    var cancelled: seq<SessionWorker.Worker>

    constructor (supervisor: SessionSupervisor.Supervisor)
      ensures this.supervisor == supervisor && tasks == map[] && cancelled == []
    {
      this.supervisor := supervisor;
      tasks, cancelled := map[], [];
    }

    /** Spawn for new workers. */
    method SpawnMissing(live: set<Id>)
      requires live == supervisor.workers.Keys
      modifies this`tasks
      ensures tasks == Spawned(supervisor.workers, old(tasks), {})
    {
      hide Spawned;
      var spawn := live - tasks.Keys;
      ghost var before := tasks;
      NoneSpawned(supervisor.workers, before);
      while spawn != {}
        invariant spawn <= live - before.Keys && tasks == Spawned(supervisor.workers, before, spawn)
        decreases |spawn|
      {
        var id :| id in spawn;
        OneSpawned(supervisor.workers, before, spawn, id);
        tasks := tasks[id := supervisor.workers[id]];
        spawn := spawn - {id};
      }
    }

    /** Stop tasks for departed workers. */
    method CancelDeparted(live: set<Id>)
      modifies this
      ensures Dropped(old(tasks), live, {}, tasks, cancelled)
      ensures old(cancelled) <= cancelled
    {
      hide Dropped;
      var drop := tasks.Keys - live;
      ghost var before := tasks;
      NoneDropped(before, live, cancelled);
      while drop != {}
        invariant drop <= before.Keys - live && Dropped(before, live, drop, tasks, cancelled)
        invariant old(cancelled) <= cancelled
        decreases |drop|
      {
        var id :| id in drop;
        OneDropped(before, live, drop, tasks, cancelled, id);
        cancelled := cancelled + [tasks[id]];
        tasks := tasks - {id};
        drop := drop - {id};
      }
    }

    method ReconcileTasks()
      modifies this
      ensures tasks == Reconciled(supervisor.workers, old(tasks))
      ensures forall id | id in old(tasks) && id !in supervisor.workers :: old(tasks)[id] in cancelled
      ensures old(cancelled) <= cancelled
    {
      var live := supervisor.workers.Keys;
      SpawnMissing(live);
      CancelDeparted(live);
    }
  }

  /** A tick and then a reconcile leave every task bound to the worker registered for its id, if they were before. */
  method TickAndReconcile(scheduler: Scheduler, db: Option<seq<SessionSupervisor.Row>>, now: SessionModels.Stamp)
    requires scheduler.supervisor.Valid() && scheduler.tasks == scheduler.supervisor.workers
    modifies scheduler, scheduler.supervisor, set id | id in scheduler.supervisor.workers :: scheduler.supervisor.workers[id]
    ensures scheduler.supervisor.Valid() && scheduler.tasks == scheduler.supervisor.workers
    ensures scheduler.tasks.Keys == SessionSupervisor.Ids(SessionSupervisor.Fetched(db))
  {
    ghost var before := scheduler.supervisor.workers;
    scheduler.supervisor.Tick(db, now);
    forall id | id in before && id in scheduler.supervisor.workers
      ensures scheduler.supervisor.workers[id] == before[id]
    {
      assert scheduler.supervisor.Seen()[id].worker == before[id];
    }
    scheduler.ReconcileTasks();
  }

  // ---------------------------------------------------------------------
  // Ticks and reconciles in any order
  // ---------------------------------------------------------------------

  /** A worker object is known by its id and the number of the tick that started it. */
  datatype System = System(workers: map<Id, nat>, tasks: map<Id, nat>, ticks: nat)

  datatype Event = Tick(active: set<Id>) | Reconcile

  function Apply(s: System, e: Event): System {
    match e
    case Tick(active) =>
      s.(workers := map id | id in active :: if id in s.workers then s.workers[id] else s.ticks, ticks := s.ticks + 1)
    case Reconcile => s.(tasks := Reconciled(s.workers, s.tasks))
  }

  function Run(s: System, events: seq<Event>): System {
    if events == [] then s else Apply(Run(s, events[..|events|-1]), events[|events|-1])
  }

  /** Exactly one task per worker, beating the worker registered for its id. */
  predicate Bound(s: System) { s.tasks == s.workers }

  /** Workers were started by ticks in the past. */
  ghost predicate Past(s: System) {
    (forall id | id in s.workers :: s.workers[id] < s.ticks) && forall id | id in s.tasks :: s.tasks[id] < s.ticks
  }

  /** Where an id has both a worker and a task, the task beats that worker. */
  ghost predicate Agree(s: System) {
    forall id | id in s.workers && id in s.tasks :: s.tasks[id] == s.workers[id]
  }

  lemma {:induction false} BoundExactly(s: System)
    ensures Bound(Apply(s, Reconcile)) <==> Agree(s)
    ensures Apply(s, Reconcile).tasks.Keys == s.workers.Keys
  {
    if Bound(Apply(s, Reconcile)) {
      forall id | id in s.workers && id in s.tasks
        ensures s.tasks[id] == s.workers[id]
      {
        assert Apply(s, Reconcile).tasks[id] == s.tasks[id];
      }
    }
  }

  lemma {:induction false} TickKeepsAgreement(s: System, active: set<Id>)
    requires Bound(s)
    ensures Agree(Apply(s, Tick(active)))
  {
  }

  /** If at least one reconcile runs between two ticks, then after every reconcile there is one task per worker, bound to the registered object. */
  lemma {:induction false} SeparatedTicksStayBound(s: System, events: seq<Event>)
    requires Bound(s)
    requires forall i | 0 <= i < |events| - 1 :: events[i].Tick? ==> events[i + 1].Reconcile?
    ensures Agree(Run(s, events))
    ensures events != [] && events[|events|-1].Reconcile? ==> Bound(Run(s, events))
    ensures events == [] ==> Bound(Run(s, events))
  {
    hide Bound, Agree, Apply;
    if events == [] {
      BoundAgrees(s);
    } else {
      var init, last := events[..|events|-1], events[|events|-1];
      SeparatedTicksStayBound(s, init);
      var before := Run(s, init);
      match last
      case Reconcile =>
        BoundExactly(before);
        BoundAgrees(Run(s, events));
      case Tick(active) =>
        if init != [] {
          assert init[|init|-1] == events[|events|-2];
        }
        TickKeepsAgreement(before, active);
    }
  }

  lemma {:induction false} BoundAgrees(s: System)
    ensures Bound(s) ==> Agree(s)
  {
  }

  /** Before the first tick. */
  function Empty(): System { System(map[], map[], 0) }

  lemma {:induction false} NothingInThePast()
    ensures Past(Empty())
  {
  }

  lemma {:induction false} RunStaysInThePast(s: System, events: seq<Event>)
    requires Past(s)
    ensures Past(Run(s, events))
  {
    if events != [] {
      RunStaysInThePast(s, events[..|events|-1]);
    }
  }

  function RunTicks(s: System, actives: seq<set<Id>>): System {
    if actives == [] then s else Apply(RunTicks(s, actives[..|actives|-1]), Tick(actives[|actives|-1]))
  }

  predicate InAll(id: Id, actives: seq<set<Id>>) { forall k | 0 <= k < |actives| :: id in actives[k] }

  lemma {:induction false} KeptOrNew(s: System, actives: seq<set<Id>>, id: Id)
    requires Past(s) && id in s.workers
    ensures var r := RunTicks(s, actives);
            && r.tasks == s.tasks && r.ticks == s.ticks + |actives|
            && (InAll(id, actives) ==> id in r.workers && r.workers[id] == s.workers[id])
            && (!InAll(id, actives) && id in r.workers ==> r.workers[id] >= s.ticks)
  {
    if actives != [] {
      var init, last := actives[..|actives|-1], actives[|actives|-1];
      KeptOrNew(s, init, id);
      assert InAll(id, actives) <==> InAll(id, init) && id in last by {
        if InAll(id, actives) {
          assert forall k | 0 <= k < |init| :: init[k] == actives[k];
        }
        if InAll(id, init) && id in last {
          assert forall k | 0 <= k < |init| :: actives[k] == init[k];
        }
      }
    }
  }

  /**
    Ticks with no reconcile between them: the next reconcile leaves every task bound to the registered
    worker if and only if no deployment had gone and come back meanwhile. One that has keeps its old,
    stopped worker's task, and its new worker is never beaten.
   */
  lemma {:induction false} BoundUnlessGoneAndBack(events: seq<Event>, actives: seq<set<Id>>)
    requires Bound(Run(Empty(), events))
    ensures var s := Run(Empty(), events);
            && (Bound(Apply(RunTicks(s, actives), Reconcile)) <==>
                forall id | id in s.workers && id in RunTicks(s, actives).workers :: InAll(id, actives))
  {
    hide InAll, Past, RunTicks, Run;
    NothingInThePast();
    RunStaysInThePast(Empty(), events);
    var s := Run(Empty(), events);
    var r := RunTicks(s, actives);
    BoundExactly(r);
    forall id | id in s.workers
      ensures r.tasks == s.tasks
      ensures id in r.workers ==> (s.tasks[id] == r.workers[id] <==> InAll(id, actives))
    {
      KeptOrNew(s, actives, id);
      StartedBefore(s, id);
    }
    SameTasks(s, actives);
  }

  lemma {:induction false} StartedBefore(s: System, id: Id)
    requires Past(s) && id in s.workers
    ensures s.workers[id] < s.ticks
  {
  }

  lemma {:induction false} SameTasks(s: System, actives: seq<set<Id>>)
    ensures RunTicks(s, actives).tasks == s.tasks
  {
    if actives != [] {
      SameTasks(s, actives[..|actives|-1]);
    }
  }

  // ---------------------------------------------------------------------
  // The objects take these steps
  // ---------------------------------------------------------------------

  /** The objects' maps, when `born` says in which tick each worker object was started. */
  ghost predicate Shows(
      workers: map<Id, SessionWorker.Worker>, tasks: map<Id, SessionWorker.Worker>,
      born: map<SessionWorker.Worker, nat>, s: System)
  {
    && workers.Keys == s.workers.Keys && tasks.Keys == s.tasks.Keys
    && (forall id | id in workers :: workers[id] in born && born[workers[id]] == s.workers[id])
    && (forall id | id in tasks :: tasks[id] in born && born[tasks[id]] == s.tasks[id])
    && (forall id | id in workers && id in tasks :: s.tasks[id] == s.workers[id] ==> tasks[id] == workers[id])
  }

  /** The system is bound exactly when every task beats the registered object. */
  lemma {:induction false} BoundMeansSameObjects(
      workers: map<Id, SessionWorker.Worker>, tasks: map<Id, SessionWorker.Worker>,
      born: map<SessionWorker.Worker, nat>, s: System)
    requires Shows(workers, tasks, born, s)
    ensures Bound(s) <==> tasks == workers
  {
    if tasks == workers {
      assert forall id | id in s.tasks :: id in tasks && s.tasks[id] == s.workers[id];
    }
  }

  method TicksOnce(
      supervisor: SessionSupervisor.Supervisor, ghost tasks: map<Id, SessionWorker.Worker>,
      db: Option<seq<SessionSupervisor.Row>>, now: SessionModels.Stamp,
      ghost born: map<SessionWorker.Worker, nat>, ghost s: System)
    returns (ghost born2: map<SessionWorker.Worker, nat>)
    requires supervisor.Valid() && Shows(supervisor.workers, tasks, born, s) && Past(s)
    modifies supervisor, set id | id in supervisor.workers :: supervisor.workers[id]
    ensures supervisor.Valid()
    ensures Shows(supervisor.workers, tasks, born2, Apply(s, Tick(SessionSupervisor.Ids(SessionSupervisor.Fetched(db)))))
  {
    ghost var before := supervisor.workers;
    supervisor.Tick(db, now);
    forall id | id in before && id in supervisor.workers
      ensures supervisor.workers[id] == before[id]
    {
      assert supervisor.Seen()[id].worker == before[id];
    }
    born2 := map w | w in born.Keys + supervisor.workers.Values :: if w in born then born[w] else s.ticks;
    TickShown(before, supervisor.workers, tasks, born, born2, s, SessionSupervisor.Ids(SessionSupervisor.Fetched(db)));
  }

  lemma {:induction false} TickShown(
      before: map<Id, SessionWorker.Worker>, after: map<Id, SessionWorker.Worker>, tasks: map<Id, SessionWorker.Worker>,
      born: map<SessionWorker.Worker, nat>, born2: map<SessionWorker.Worker, nat>, s: System, active: set<Id>)
    requires Shows(before, tasks, born, s) && Past(s) && after.Keys == active
    requires forall id | id in after :: if id in before then after[id] == before[id] else after[id] !in born
    requires born2 == map w | w in born.Keys + after.Values :: if w in born then born[w] else s.ticks
    ensures Shows(after, tasks, born2, Apply(s, Tick(active)))
  {
  }

  method ReconcilesOnce(scheduler: Scheduler, ghost born: map<SessionWorker.Worker, nat>, ghost s: System)
    requires Shows(scheduler.supervisor.workers, scheduler.tasks, born, s)
    modifies scheduler
    ensures Shows(scheduler.supervisor.workers, scheduler.tasks, born, Apply(s, Reconcile))
  {
    scheduler.ReconcileTasks();
  }
}
