/**
  Distributed call intake: any number of worker processes pull jobs, reserve the call with a Redis
  SET NX EX, run the session under a semaphore, then delete the reservation without checking whose it is.
 */
module CallIntake {
  import opened Common

  type WorkerId = nat
  type CallId = string

  datatype Phase =
    | Idle                       // at the top of the supervisor loop
    | Pulling                    // holds a permit, waits for a job
    | Reserving(callId: CallId)  // holds a permit and a valid job
    | Dead                       // the process is gone

  datatype Worker = Worker(permits: nat, phase: Phase, shuttingDown: bool)

  datatype Stage =
    | Active    // CallSession is running
    | Ending    // it has finished; the DELETE has not reached Redis
    | Deleted   // it has; the permit is not yet back

  datatype Session = Session(worker: WorkerId, callId: CallId, reservedAt: nat, stage: Stage)

  /** `keys` maps a call id to the time at which its `calls:active:` key expires. */
  datatype System = System(
    now: nat,
    keys: map<CallId, nat>,
    workers: map<WorkerId, Worker>,
    sessions: map<nat, Session>,
    nextSession: nat)

  datatype Step =
    | Acquire(w: WorkerId)                // await sem.acquire()
    | PullNothing(w: WorkerId)            // no job, a pull error, or an unusable payload
    | PullJob(w: WorkerId, callId: CallId) // any job, repeats of a call id included
    | Reserve(w: WorkerId)
    | Finish(sid: nat)
    | Delete(sid: nat, reached: bool)     // _release; a RedisError may keep it from Redis
    | Free(sid: nat)                      // sem.release()
    | Shutdown(w: WorkerId)
    | Crash(w: WorkerId)
    | Advance(seconds: nat)

  function Initial(concurrency: map<WorkerId, nat>): System {
    System(0, map[], map w | w in concurrency :: Worker(concurrency[w], Idle, false), map[], 0)
  }

  /** Redis still has the key. */
  predicate KeyLive(s: System, c: CallId) {
    c in s.keys && s.now < s.keys[c]
  }

  function SetWorker(s: System, w: WorkerId, worker: Worker): System {
    s.(workers := s.workers[w := worker])
  }

  /** The effect of one step; a step that cannot happen now changes nothing. */
  function Apply(s: System, step: Step, ttl: nat): System {
    match step
    case Acquire(w) =>
      if w in s.workers && s.workers[w].phase == Idle && !s.workers[w].shuttingDown && s.workers[w].permits > 0 then
        SetWorker(s, w, s.workers[w].(permits := s.workers[w].permits - 1, phase := Pulling))
      else s
    case PullNothing(w) =>
      if w in s.workers && s.workers[w].phase == Pulling then
        SetWorker(s, w, s.workers[w].(permits := s.workers[w].permits + 1, phase := Idle))
      else s
    case PullJob(w, c) =>
      if w in s.workers && s.workers[w].phase == Pulling then SetWorker(s, w, s.workers[w].(phase := Reserving(c))) else s
    case Reserve(w) =>
      if w in s.workers && s.workers[w].phase.Reserving? then
        var c := s.workers[w].phase.callId;
        if KeyLive(s, c) then SetWorker(s, w, s.workers[w].(permits := s.workers[w].permits + 1, phase := Idle))
        else
          SetWorker(s, w, s.workers[w].(phase := Idle)).(
            keys := s.keys[c := s.now + ttl],
            sessions := s.sessions[s.nextSession := Session(w, c, s.now, Active)],
            nextSession := s.nextSession + 1)
      else s
    case Finish(sid) =>
      if sid in s.sessions && s.sessions[sid].stage == Active then
        s.(sessions := s.sessions[sid := s.sessions[sid].(stage := Ending)])
      else s
    case Delete(sid, reached) =>
      if sid in s.sessions && s.sessions[sid].stage == Ending then
        s.(sessions := s.sessions[sid := s.sessions[sid].(stage := Deleted)],
           keys := if reached then s.keys - {s.sessions[sid].callId} else s.keys)
      else s
    case Free(sid) =>
      if sid in s.sessions && s.sessions[sid].stage == Deleted then
        var w := s.sessions[sid].worker;
        var s' := s.(sessions := s.sessions - {sid});
        if w in s.workers then SetWorker(s', w, s.workers[w].(permits := s.workers[w].permits + 1)) else s'
      else s
    case Shutdown(w) =>
      if w in s.workers then SetWorker(s, w, s.workers[w].(shuttingDown := true)) else s
    case Crash(w) =>
      if w in s.workers then
        SetWorker(s, w, s.workers[w].(phase := Dead)).(
          sessions := map sid | sid in s.sessions && s.sessions[sid].worker != w :: s.sessions[sid])
      else s
    case Advance(seconds) => s.(now := s.now + seconds)
  }

  function Run(s: System, steps: seq<Step>, ttl: nat): System
    decreases |steps|
  {
    if steps == [] then s else Run(Apply(s, steps[0], ttl), steps[1..], ttl)
  }

  // ---------------------------------------------------------------------
  // What is promised, and what it depends on
  // ---------------------------------------------------------------------

  /** No call is handled by two running sessions. */
  ghost predicate Exclusive(s: System) {
    forall i, j | i in s.sessions && j in s.sessions && i != j ::
      s.sessions[i].stage == Active && s.sessions[j].stage == Active ==> s.sessions[i].callId != s.sessions[j].callId
  }

  /**
    A time limit on sessions, counted from their reservation: for the whole session including the delete
    of its key, or only for the time it is running.
   */
  datatype Limit = Limit(age: nat, untilDelete: bool)

  predicate Counts(stage: Stage, limit: Limit) {
    stage == Active || (stage == Ending && limit.untilDelete)
  }

  ghost predicate Within(s: System, limit: Limit) {
    forall i | i in s.sessions :: Counts(s.sessions[i].stage, limit) ==> s.now <= s.sessions[i].reservedAt + limit.age
  }

  ghost predicate AlwaysWithin(s: System, steps: seq<Step>, ttl: nat, limit: Limit)
    decreases |steps|
  {
    Within(s, limit) && (steps != [] ==> AlwaysWithin(Apply(s, steps[0], ttl), steps[1..], ttl, limit))
  }

  /** No worker process dies, and every delete reaches Redis. */
  predicate Lossless(steps: seq<Step>) {
    forall step <- steps :: !step.Crash? && (step.Delete? ==> step.reached)
  }

  /** Each call not yet released is held by one session, whose own key is in Redis. */
  ghost predicate Owned(s: System, ttl: nat) {
    && (forall i | i in s.sessions :: i < s.nextSession)
    && (forall i | i in s.sessions && s.sessions[i].stage != Deleted ::
          s.sessions[i].callId in s.keys && s.keys[s.sessions[i].callId] == s.sessions[i].reservedAt + ttl)
    && (forall i, j | i in s.sessions && j in s.sessions && i != j ::
          s.sessions[i].stage != Deleted && s.sessions[j].stage != Deleted ==> s.sessions[i].callId != s.sessions[j].callId)
  }

  /** Session `i` handles call `c` and has not given it back. */
  ghost predicate Holds(s: System, c: CallId, i: nat) {
    i in s.sessions && s.sessions[i].callId == c && s.sessions[i].stage != Deleted
  }

  /** Every key in Redis belongs to a session that has not been released. */
  ghost predicate NoOrphans(s: System) {
    forall c | c in s.keys :: exists i :: Holds(s, c, i)
  }

  /** A reservation that succeeds is for a call nobody holds: a holder's key would still be live. */
  lemma {:induction false} ReserveOwned(s: System, w: WorkerId, ttl: nat, age: nat)
    requires Owned(s, ttl) && Within(s, Limit(age, true)) && age < ttl
    ensures Owned(Apply(s, Reserve(w), ttl), ttl)
  {
    if w in s.workers && s.workers[w].phase.Reserving? {
      assert forall i | i in s.sessions && s.sessions[i].stage != Deleted :: KeyLive(s, s.sessions[i].callId);
    }
  }

  lemma {:induction false} OtherOwned(s: System, step: Step, ttl: nat)
    requires Owned(s, ttl) && !step.Reserve?
    ensures Owned(Apply(s, step, ttl), ttl)
  {
    hide KeyLive;
  }

  lemma {:induction false} ApplyOwned(s: System, step: Step, ttl: nat, age: nat)
    requires Owned(s, ttl) && Within(s, Limit(age, true)) && age < ttl
    ensures Owned(Apply(s, step, ttl), ttl)
  {
    hide *;
    if step.Reserve? {
      ReserveOwned(s, step.w, ttl, age);
    } else {
      OtherOwned(s, step, ttl);
    }
  }

  /** Who holds a call goes on holding it, unless the step deletes its key. */
  lemma {:induction false} StillHolds(s: System, step: Step, ttl: nat, c: CallId, i: nat)
    requires Owned(s, ttl) && Holds(s, c, i) && !step.Crash? && (step.Delete? ==> step.reached)
    ensures c in Apply(s, step, ttl).keys ==> Holds(Apply(s, step, ttl), c, i)
  {
  }

  /** Every key outlives the step unless its session is released by it. */
  lemma {:induction false} ApplyNoOrphans(s: System, step: Step, ttl: nat)
    requires Owned(s, ttl) && NoOrphans(s) && !step.Crash? && (step.Delete? ==> step.reached)
    ensures NoOrphans(Apply(s, step, ttl))
  {
    forall c | c in Apply(s, step, ttl).keys
      ensures exists i :: Holds(Apply(s, step, ttl), c, i)
    {
      if c in s.keys {
        var i :| Holds(s, c, i);
        StillHolds(s, step, ttl, c, i);
      } else {
        assert Holds(Apply(s, step, ttl), c, s.nextSession);
      }
    }
  }

  lemma {:induction false} RunOwned(s: System, steps: seq<Step>, ttl: nat, age: nat)
    requires Owned(s, ttl) && age < ttl && AlwaysWithin(s, steps, ttl, Limit(age, true))
    ensures Owned(Run(s, steps, ttl), ttl) && Within(Run(s, steps, ttl), Limit(age, true))
    ensures NoOrphans(s) && Lossless(steps) ==> NoOrphans(Run(s, steps, ttl))
    decreases |steps|
  {
    if steps != [] {
      ApplyOwned(s, steps[0], ttl, age);
      if NoOrphans(s) && Lossless(steps) {
        assert steps[0] in steps;
        ApplyNoOrphans(s, steps[0], ttl);
        assert forall step <- steps[1..] :: step in steps;
      }
      RunOwned(Apply(s, steps[0], ttl), steps[1..], ttl, age);
    }
  }

  /**
    Safety over every run: as long as each session's key is deleted before it can expire, no two sessions
    handle the same call, each running session's own key is in Redis, and (when nothing is lost) the live
    keys are exactly the calls being handled.
   */
  lemma {:induction false} ReservationsExclude(concurrency: map<WorkerId, nat>, steps: seq<Step>, ttl: nat, age: nat)
    requires age < ttl && AlwaysWithin(Initial(concurrency), steps, ttl, Limit(age, true))
    ensures var s := Run(Initial(concurrency), steps, ttl);
            && Exclusive(s)
            && (forall i | i in s.sessions && s.sessions[i].stage != Deleted ::
                  KeyLive(s, s.sessions[i].callId) && s.keys[s.sessions[i].callId] == s.sessions[i].reservedAt + ttl)
            && (Lossless(steps) ==> NoOrphans(s))
  {
    RunOwned(Initial(concurrency), steps, ttl, age);
  }

  /** A delete within the time limit takes away its own session's key and nobody else's. */
  lemma {:induction false} DeleteHitsOwnKey(concurrency: map<WorkerId, nat>, steps: seq<Step>, ttl: nat, age: nat, sid: nat)
    requires age < ttl && AlwaysWithin(Initial(concurrency), steps, ttl, Limit(age, true))
    ensures var s := Run(Initial(concurrency), steps, ttl);
            var s' := Apply(s, Delete(sid, true), ttl);
            && (s'.keys != s.keys ==> sid in s.sessions && s.keys[s.sessions[sid].callId] == s.sessions[sid].reservedAt + ttl)
            && (forall i | i in s.sessions && i != sid && s.sessions[i].stage != Deleted ::
                  KeyLive(s', s.sessions[i].callId) && s'.keys[s.sessions[i].callId] == s.sessions[i].reservedAt + ttl)
  {
    RunOwned(Initial(concurrency), steps, ttl, age);
  }

  // ---------------------------------------------------------------------
  // The limit is exact
  // ---------------------------------------------------------------------

  /** Every run that keeps the time limit is exclusive throughout (its prefixes keep the limit too). */
  ghost predicate Safe(concurrency: map<WorkerId, nat>, ttl: nat, limit: Limit) {
    forall steps :: AlwaysWithin(Initial(concurrency), steps, ttl, limit) ==> Exclusive(Run(Initial(concurrency), steps, ttl))
  }

  lemma {:induction false} RunCat(s: System, a: seq<Step>, b: seq<Step>, ttl: nat, limit: Limit)
    ensures Run(s, a + b, ttl) == Run(Run(s, a, ttl), b, ttl)
    ensures AlwaysWithin(s, a, ttl, limit) && AlwaysWithin(Run(s, a, ttl), b, ttl, limit) ==> AlwaysWithin(s, a + b, ttl, limit)
    decreases |a|
  {
    if a == [] {
      assert a + b == b;
    } else {
      assert (a + b)[1..] == a[1..] + b;
      RunCat(Apply(s, a[0], ttl), a[1..], b, ttl, limit);
    }
  }

  lemma {:induction false} OneStep(s: System, step: Step, ttl: nat, limit: Limit)
    requires Within(s, limit) && Within(Apply(s, step, ttl), limit)
    ensures Run(s, [step], ttl) == Apply(s, step, ttl)
    ensures AlwaysWithin(s, [step], ttl, limit)
  {
    assert [step][1..] == [];
  }

  /** Extending a run that keeps the limit by one more step that does. */
  lemma {:induction false} Extend(s: System, steps: seq<Step>, end: System, step: Step, ttl: nat, limit: Limit)
    requires AlwaysWithin(s, steps, ttl, limit) && end == Run(s, steps, ttl)
    requires Within(end, limit) && Within(Apply(end, step, ttl), limit)
    ensures AlwaysWithin(s, steps + [step], ttl, limit) && Run(s, steps + [step], ttl) == Apply(end, step, ttl)
  {
    OneStep(end, step, ttl, limit);
    RunCat(s, steps, [step], ttl, limit);
  }

  function TakeCall(w: WorkerId, c: CallId): seq<Step> { [Acquire(w)] + [PullJob(w, c)] + [Reserve(w)] }

  predicate Ready(s: System, w: WorkerId) {
    w in s.workers && s.workers[w].phase == Idle && !s.workers[w].shuttingDown && s.workers[w].permits > 0
  }

  /** A worker with a free permit starts a second session whenever the key of the call is not live. */
  lemma {:induction false} TakesCall(s: System, w: WorkerId, c: CallId, ttl: nat, limit: Limit) returns (s': System)
    requires Ready(s, w) && !KeyLive(s, c) && Within(s, limit)
    ensures s' == Run(s, TakeCall(w, c), ttl)
               == s.(keys := s.keys[c := s.now + ttl],
                     workers := s.workers[w := s.workers[w].(permits := s.workers[w].permits - 1)],
                     sessions := s.sessions[s.nextSession := Session(w, c, s.now, Active)],
                     nextSession := s.nextSession + 1)
    ensures AlwaysWithin(s, TakeCall(w, c), ttl, limit) && Within(s', limit)
  {
    var s1 := Apply(s, Acquire(w), ttl);
    var s2 := Apply(s1, PullJob(w, c), ttl);
    s' := Apply(s2, Reserve(w), ttl);
    OneStep(s, Acquire(w), ttl, limit);
    OneStep(s1, PullJob(w, c), ttl, limit);
    OneStep(s2, Reserve(w), ttl, limit);
    RunCat(s, [Acquire(w)], [PullJob(w, c)], ttl, limit);
    RunCat(s, [Acquire(w)] + [PullJob(w, c)], [Reserve(w)], ttl, limit);
  }

  /** With a limit of `ttl` or more, a second worker can take a call that is still running. */
  lemma {:induction false} OverstayingIsUnsafe(concurrency: map<WorkerId, nat>, w1: WorkerId, w2: WorkerId, c: CallId, ttl: nat, limit: Limit)
    requires w1 in concurrency && w2 in concurrency && w1 != w2 && concurrency[w1] > 0 && concurrency[w2] > 0
    requires ttl <= limit.age
    ensures !Safe(concurrency, ttl, limit)
  {
    var s0 := Initial(concurrency);
    var s1 := TakesCall(s0, w1, c, ttl, limit);
    var s2 := Apply(s1, Advance(ttl), ttl);
    OneStep(s1, Advance(ttl), ttl, limit);
    var s3 := TakesCall(s2, w2, c, ttl, limit);
    RunCat(s0, TakeCall(w1, c), [Advance(ttl)], ttl, limit);
    RunCat(s0, TakeCall(w1, c) + [Advance(ttl)], TakeCall(w2, c), ttl, limit);
    assert s3.sessions[0].callId == c == s3.sessions[1].callId;
  }

  /** Intake is safe for sessions released within `age` exactly when `age` is less than the TTL. */
  lemma {:induction false} SafeExactlyBelowTtl(concurrency: map<WorkerId, nat>, w1: WorkerId, w2: WorkerId, ttl: nat, age: nat)
    requires w1 in concurrency && w2 in concurrency && w1 != w2 && concurrency[w1] > 0 && concurrency[w2] > 0
    ensures Safe(concurrency, ttl, Limit(age, true)) <==> age < ttl
  {
    if age < ttl {
      forall steps | AlwaysWithin(Initial(concurrency), steps, ttl, Limit(age, true))
        ensures Exclusive(Run(Initial(concurrency), steps, ttl))
      {
        ReservationsExclude(concurrency, steps, ttl, age);
      }
    } else {
      OverstayingIsUnsafe(concurrency, w1, w2, "c", ttl, Limit(age, true));
    }
  }

  /**
    Limiting only the running time is never enough, not even to zero: a delete that arrives after its
    key expired removes the key of the next session, and a third session starts beside that one.
   */
  lemma {:induction false} FinishingInTimeIsNotEnough(concurrency: map<WorkerId, nat>, w1: WorkerId, w2: WorkerId, ttl: nat, age: nat)
    requires w1 in concurrency && w2 in concurrency && w1 != w2 && concurrency[w1] > 0 && concurrency[w2] > 0
    ensures !Safe(concurrency, ttl, Limit(age, false))
  {
    var c, limit, s0 := "c", Limit(age, false), Initial(concurrency);
    var s1 := TakesCall(s0, w1, c, ttl, limit);
    var early, s4 := LateRelease(s1, w1, w2, c, ttl, limit);
    RunCat(s0, TakeCall(w1, c), early, ttl, limit);
    var s7 := TakesCall(s4, w1, c, ttl, limit);
    RunCat(s0, TakeCall(w1, c) + early, TakeCall(w1, c), ttl, limit);
    assert s7.sessions[1].callId == c == s7.sessions[2].callId;
  }

  /** Session 0 finishes at once, its key expires, session 1 takes the call, and only then session 0's delete arrives. */
  lemma {:induction false} LateRelease(s: System, w1: WorkerId, w2: WorkerId, c: CallId, ttl: nat, limit: Limit)
    returns (steps: seq<Step>, s': System)
    requires !limit.untilDelete && w1 != w2 && Ready(s, w2)
    requires w1 in s.workers && s.workers[w1].phase == Idle && !s.workers[w1].shuttingDown
    requires s.sessions == map[0 := Session(w1, c, s.now, Active)] && s.nextSession == 1
    requires s.keys == map[c := s.now + ttl]
    ensures AlwaysWithin(s, steps, ttl, limit) && s' == Run(s, steps, ttl) && Within(s', limit)
    ensures Ready(s', w1) && !KeyLive(s', c) && s'.nextSession == 2
    ensures s'.sessions == map[1 := Session(w2, c, s'.now, Active)]
  {
    hide Run, AlwaysWithin, TakeCall;
    var s1 := Apply(s, Finish(0), ttl);
    OneStep(s, Finish(0), ttl, limit);
    var s2 := Apply(s1, Advance(ttl), ttl);
    Extend(s, [Finish(0)], s1, Advance(ttl), ttl, limit);
    var s3 := TakesCall(s2, w2, c, ttl, limit);
    steps := [Finish(0)] + [Advance(ttl)];
    RunCat(s, steps, TakeCall(w2, c), ttl, limit);
    steps := steps + TakeCall(w2, c);
    var s4 := Apply(s3, Delete(0, true), ttl);
    Extend(s, steps, s3, Delete(0, true), ttl, limit);
    steps := steps + [Delete(0, true)];
    s' := Apply(s4, Free(0), ttl);
    Extend(s, steps, s4, Free(0), ttl, limit);
    steps := steps + [Free(0)];
  }

  // ---------------------------------------------------------------------
  // Permits
  // ---------------------------------------------------------------------

  function SessionsOf(s: System, w: WorkerId): set<nat> {
    set sid | sid in s.sessions && s.sessions[sid].worker == w
  }

  /** Permits of a worker that are in use: one by the supervisor loop, one by each session. */
  function Held(s: System, w: WorkerId): nat
    requires w in s.workers
  {
    |SessionsOf(s, w)| + (if s.workers[w].phase.Pulling? || s.workers[w].phase.Reserving? then 1 else 0)
  }

  ghost predicate PermitsAddUp(s: System, concurrency: map<WorkerId, nat>) {
    && s.workers.Keys == concurrency.Keys
    && (forall i | i in s.sessions :: i < s.nextSession)
    && forall w | w in s.workers :: s.workers[w].phase != Dead ==> s.workers[w].permits + Held(s, w) == concurrency[w]
  }

  predicate Adds(s: System, step: Step, w: WorkerId) {
    && step.Reserve? && step.w == w && w in s.workers
    && s.workers[w].phase.Reserving? && !KeyLive(s, s.workers[w].phase.callId)
  }

  predicate Removes(s: System, step: Step, w: WorkerId) {
    step.Free? && step.sid in s.sessions && s.sessions[step.sid].stage == Deleted && s.sessions[step.sid].worker == w
  }

  lemma {:induction false} SessionsGrow(s: System, step: Step, ttl: nat, w: WorkerId)
    requires (forall i | i in s.sessions :: i < s.nextSession) && Adds(s, step, w)
    ensures |SessionsOf(Apply(s, step, ttl), w)| == |SessionsOf(s, w)| + 1
  {
    assert SessionsOf(Apply(s, step, ttl), w) == SessionsOf(s, w) + {s.nextSession};
  }

  lemma {:induction false} SessionsShrink(s: System, step: Step, ttl: nat, w: WorkerId)
    requires Removes(s, step, w)
    ensures |SessionsOf(s, w)| == |SessionsOf(Apply(s, step, ttl), w)| + 1
  {
    assert SessionsOf(s, w) == SessionsOf(Apply(s, step, ttl), w) + {step.sid};
  }

  /** Only a reservation adds a session to a worker, only the return of its permit removes one. */
  lemma {:induction false} SessionsStay(s: System, step: Step, ttl: nat, w: WorkerId)
    requires forall i | i in s.sessions :: i < s.nextSession
    requires !Adds(s, step, w) && !Removes(s, step, w) && !(step.Crash? && step.w == w)
    ensures SessionsOf(Apply(s, step, ttl), w) == SessionsOf(s, w)
  {
    var after := Apply(s, step, ttl);
    assert forall i :: i in after.sessions && after.sessions[i].worker == w <==> i in s.sessions && s.sessions[i].worker == w;
  }

  lemma {:induction false} ApplyPermits(s: System, step: Step, ttl: nat, concurrency: map<WorkerId, nat>)
    requires PermitsAddUp(s, concurrency)
    ensures PermitsAddUp(Apply(s, step, ttl), concurrency)
  {
    var s' := Apply(s, step, ttl);
    forall w | w in s'.workers && s'.workers[w].phase != Dead
      ensures s'.workers[w].permits + Held(s', w) == concurrency[w]
    {
      WorkerPermits(s, step, ttl, concurrency, w);
    }
  }

  lemma {:induction false} WorkerPermits(s: System, step: Step, ttl: nat, concurrency: map<WorkerId, nat>, w: WorkerId)
    requires PermitsAddUp(s, concurrency)
    requires var s' := Apply(s, step, ttl); w in s'.workers && s'.workers[w].phase != Dead
    ensures var s' := Apply(s, step, ttl); s'.workers[w].permits + Held(s', w) == concurrency[w]
  {
    assert w in s.workers && s.workers[w].phase != Dead && s.workers[w].permits + Held(s, w) == concurrency[w];
    if Adds(s, step, w) {
      SessionsGrow(s, step, ttl, w);
    } else if Removes(s, step, w) {
      SessionsShrink(s, step, ttl, w);
    } else {
      SessionsStay(s, step, ttl, w);
    }
    hide SessionsOf;
  }

  /** In every run, each live worker's free permits and permits in use add up to its concurrency. */
  lemma {:induction false} PermitsConserved(s: System, steps: seq<Step>, ttl: nat, concurrency: map<WorkerId, nat>)
    requires PermitsAddUp(s, concurrency)
    ensures PermitsAddUp(Run(s, steps, ttl), concurrency)
    decreases |steps|
  {
    if steps != [] {
      ApplyPermits(s, steps[0], ttl, concurrency);
      PermitsConserved(Apply(s, steps[0], ttl), steps[1..], ttl, concurrency);
    }
  }

  /** So a worker never runs more sessions than its concurrency. */
  lemma {:induction false} ConcurrencyBound(concurrency: map<WorkerId, nat>, steps: seq<Step>, ttl: nat, w: WorkerId)
    requires w in concurrency
    ensures var s := Run(Initial(concurrency), steps, ttl);
            w in s.workers && (s.workers[w].phase != Dead ==>
              s.workers[w].permits + Held(s, w) == concurrency[w] && |SessionsOf(s, w)| <= concurrency[w])
  {
    var s0 := Initial(concurrency);
    assert forall v | v in s0.workers :: SessionsOf(s0, v) == {};
    PermitsConserved(s0, steps, ttl, concurrency);
  }

  // ---------------------------------------------------------------------
  // Shutting down and dying
  // ---------------------------------------------------------------------

  /** A worker that takes no more calls: it is gone, or shutting down and back at the top of its loop. */
  predicate Quiet(s: System, w: WorkerId) {
    w in s.workers && (s.workers[w].phase == Dead || (s.workers[w].phase == Idle && s.workers[w].shuttingDown))
  }

  ghost predicate NoNewSessions(s: System, t: System, w: WorkerId) {
    forall i | i in t.sessions && t.sessions[i].worker == w :: i in s.sessions && s.sessions[i].worker == w
  }

  lemma {:induction false} QuietStep(s: System, step: Step, ttl: nat, w: WorkerId)
    requires Quiet(s, w)
    ensures Quiet(Apply(s, step, ttl), w) && NoNewSessions(s, Apply(s, step, ttl), w)
  {
    hide KeyLive;
  }

  /** Whatever else happens, a quiet worker stays quiet and starts no session. */
  lemma {:induction false} QuietForever(s: System, steps: seq<Step>, ttl: nat, w: WorkerId)
    requires Quiet(s, w)
    ensures Quiet(Run(s, steps, ttl), w) && NoNewSessions(s, Run(s, steps, ttl), w)
    decreases |steps|
  {
    hide Apply, Quiet;
    if steps != [] {
      QuietStep(s, steps[0], ttl, w);
      QuietForever(Apply(s, steps[0], ttl), steps[1..], ttl, w);
    }
  }

  /** A shutdown quiets an idle worker at once, and a worker that already waits for a job when it is done with it. */
  lemma {:induction false} ShutdownQuiets(s: System, w: WorkerId, ttl: nat)
    requires w in s.workers
    ensures var t := Apply(s, Shutdown(w), ttl);
            && t.sessions == s.sessions && t.keys == s.keys
            && match s.workers[w].phase
               case Idle => Quiet(t, w)
               case Pulling => Quiet(Apply(t, PullNothing(w), ttl), w)
               case Reserving(_) => Quiet(Apply(t, Reserve(w), ttl), w)
               case Dead => Quiet(t, w)
  {
    hide KeyLive;
  }

  /** A worker that dies leaves no session, but leaves its keys: its calls stay reserved until they expire. */
  lemma {:induction false} CrashLeavesKeys(s: System, w: WorkerId, steps: seq<Step>, ttl: nat)
    requires w in s.workers
    ensures var t := Apply(s, Crash(w), ttl);
            && t.keys == s.keys && Quiet(t, w)
            && (forall i | i in s.sessions && s.sessions[i].worker != w :: i in t.sessions && t.sessions[i] == s.sessions[i])
            && forall i | i in Run(t, steps, ttl).sessions :: Run(t, steps, ttl).sessions[i].worker != w
  {
    hide Run;
    QuietForever(Apply(s, Crash(w), ttl), steps, ttl, w);
  }
}
