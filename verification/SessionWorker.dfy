/**
  One deployment's ViciDial session: login with backoff, heartbeats that count failures and log in
  again, agent actions, and the copy of the record kept in Redis. Operations run one after the other.
 */
module SessionWorker {
  import opened Common
  import opened SessionModels

  /** The hash of this session in Redis; `outages` says of the coming commands which of them fail (none after its end). */
  datatype Redis = Redis(hash: Hash, outages: seq<bool>)

  /** What a login attempt brings. */
  datatype Login = LoggedIn(captured: CapturedSession, now: Stamp) | LoginFailed(error: string)

  /** The answer to a heartbeat, the time of it, and what login attempts would bring if it leads to any. */
  datatype Beat = Beat(good: bool, now: Stamp, logins: nat -> Login)

  datatype CallAnswer = ExpiredAnswer | Info(leadId: Option<string>, uniqueid: Option<string>)

  datatype Session = Session(
    state: SessionState, captured: Option<CapturedSession>, http: bool, stopped: bool,
    redis: Redis, slept: seq<nat>, gauge: map<SessionStatus, int>)

  /** What does not change: the conversions and the delays between login attempts. */
  datatype Config = Config(codec: Codec, delays: seq<nat>)

  // ---------------------------------------------------------------------
  // Redis and the status
  // ---------------------------------------------------------------------

  predicate Fails(r: Redis) { r.outages != [] && r.outages[0] }

  function Next(r: Redis): Redis { if r.outages == [] then r else r.(outages := r.outages[1..]) }

  /** `_mirror_to_redis`: a failing write is only logged. */
  function Mirror(cfg: Config, w: Session): Session {
    var r := Next(w.redis);
    w.(redis := if Fails(w.redis) then r else r.(hash := r.hash + ToRedis(cfg.codec, w.state)))
  }

  function Reading(gauge: map<SessionStatus, int>, s: SessionStatus): int { if s in gauge then gauge[s] else 0 }

  /** The gauge of sessions by status, when one changes its status. */
  function Moved(gauge: map<SessionStatus, int>, prev: SessionStatus, s: SessionStatus): map<SessionStatus, int> {
    if prev == s then gauge else gauge[prev := Reading(gauge, prev) - 1][s := Reading(gauge, s) + 1]
  }

  function SetStatus(cfg: Config, w: Session, s: SessionStatus): Session {
    Mirror(cfg, w.(state := w.state.(status := s), gauge := Moved(w.gauge, w.state.status, s)))
  }

  // ---------------------------------------------------------------------
  // Login and heartbeat
  // ---------------------------------------------------------------------

  function AdoptedState(s: SessionState, c: CapturedSession, now: Stamp): SessionState {
    s.(cookies := c.cookies, confExten := c.confExten, sessionId := c.sessionId, sessionName := c.sessionName,
       userAgent := c.userAgent, lastHeartbeatAt := Some(now), heartbeatFailures := 0, lastError := "")
  }

  /** `_adopt_captured`. */
  function Adopt(cfg: Config, w: Session, c: CapturedSession, now: Stamp): Session {
    SetStatus(cfg, w.(captured := Some(c), http := true, state := AdoptedState(w.state, c, now)), READY)
  }

  function Sleep(w: Session, delay: nat): Session {
    if delay == 0 then w else w.(slept := w.slept + [delay])
  }

  function Attempted(w: Session): Session { w.(state := w.state.(loginAttempts := w.state.loginAttempts + 1)) }

  /** The rest of a login round: the delays still to come, and the number of the next attempt. */
  function LoginFrom(cfg: Config, w: Session, delays: seq<nat>, k: nat, logins: nat -> Login): Session
    decreases |delays|
  {
    if delays == [] then SetStatus(cfg, w, ERROR)
    else if w.stopped then w
    else
      var tried := Attempted(Sleep(w, delays[0]));
      match logins(k)
      case LoggedIn(c, now) => Adopt(cfg, tried, c, now)
      case LoginFailed(error) =>
        LoginFrom(cfg, tried.(state := tried.state.(lastError := error)), delays[1..], k + 1, logins)
  }

  /** `_login_with_backoff`. */
  function LoginRound(cfg: Config, w: Session, logins: nat -> Login): Session {
    LoginFrom(cfg, w, [0] + cfg.delays, 0, logins)
  }

  function WithFailures(w: Session, n: int): Session { w.(state := w.state.(heartbeatFailures := n)) }

  /** `_maybe_recover`. */
  function MaybeRecover(cfg: Config, w: Session, logins: nat -> Login): Session {
    if w.state.heartbeatFailures < 3 then w else LoginRound(cfg, w.(captured := None, http := false), logins)
  }

  predicate HasSession(w: Session) { w.captured.Some? && w.http }

  function Heartbeat(cfg: Config, w: Session, b: Beat): Session {
    if !HasSession(w) then w
    else if b.good then
      Mirror(cfg, w.(state := w.state.(heartbeatFailures := 0, lastHeartbeatAt := Some(b.now))))
    else MaybeRecover(cfg, WithFailures(w, w.state.heartbeatFailures + 1), b.logins)
  }

  // ---------------------------------------------------------------------
  // Start and stop
  // ---------------------------------------------------------------------

  /** A hash from which a session can be adopted. */
  function Revivable(cfg: Config, h: Hash): Option<CapturedSession> {
    if h == map[] then None
    else
      match FromRedis(cfg.codec, h)
      case None => None
      case Some(prior) =>
        if prior.cookies == map[] || prior.confExten == "" then None
        else Some(CapturedSession(prior.cookies, prior.confExten, prior.sessionId, prior.sessionName, prior.userAgent))
  }

  /** `_resume_from_redis`; the new session and whether it was resumed. */
  function ResumeFromRedis(cfg: Config, w: Session, now: Stamp, b: Beat): (Session, bool) {
    var read := w.(redis := Next(w.redis));
    if Fails(w.redis) || Revivable(cfg, w.redis.hash).None? then (read, false)
    else
      var beaten := Heartbeat(cfg, Adopt(cfg, read, Revivable(cfg, w.redis.hash).value, now), b);
      if beaten.state.heartbeatFailures > 0 then (beaten.(captured := None, http := false), false) else (beaten, true)
  }

  function Start(cfg: Config, w: Session, now: Stamp, b: Beat, logins: nat -> Login): Session {
    var (resumed, ok) := ResumeFromRedis(cfg, SetStatus(cfg, w, LOGGING_IN), now, b);
    if ok then resumed else LoginRound(cfg, resumed, logins)
  }

  function Deleted(r: Redis): Redis { if Fails(r) then Next(r) else Next(r).(hash := map[]) }

  function Stop(cfg: Config, w: Session): Session {
    if w.stopped then w
    else
      var closed := w.(stopped := true, http := if HasSession(w) then false else w.http);
      var out := SetStatus(cfg, closed, LOGGED_OUT);
      out.(redis := Deleted(out.redis))
  }

  // ---------------------------------------------------------------------
  // Agent actions
  // ---------------------------------------------------------------------

  /** `_raise_if_expired`: the next failing heartbeat logs in again. */
  function Expired(w: Session): Session { WithFailures(w, w.state.heartbeatFailures + 99) }

  /** An action that sets the status `s` if it succeeds (pause, resume), or none (dispose, transfer, hangup, dial). */
  function Act(cfg: Config, w: Session, expired: bool, s: Option<SessionStatus>): Session {
    if !HasSession(w) then w
    else if expired then Expired(w)
    else if s.Some? then SetStatus(cfg, w, s.value)
    else w
  }

  predicate Truthy(o: Option<string>) { o.Some? && o.value != "" }

  function GetCallInfo(cfg: Config, w: Session, a: CallAnswer): Session {
    if !HasSession(w) then w
    else
      match a
      case ExpiredAnswer => Expired(w)
      case Info(leadId, uniqueid) =>
        if !Truthy(leadId) then w
        else if Truthy(uniqueid) then Mirror(cfg, w.(state := w.state.(lastCallId := uniqueid)))
        else Mirror(cfg, w)
  }

  // ---------------------------------------------------------------------
  // The worker
  // ---------------------------------------------------------------------

  class Worker {
    const cfg: Config
    var state: SessionState
    var captured: Option<CapturedSession>
    var http: bool
    var stopped: bool
    var redis: Redis
    var slept: seq<nat>
    var gauge: map<SessionStatus, int>

    constructor (cfg: Config, state: SessionState, redis: Redis)
      ensures this.cfg == cfg && Value() == Session(state, None, false, false, redis, [], map[])
    {
      this.cfg, this.state, this.redis := cfg, state, redis;
      captured, http, stopped, slept, gauge := None, false, false, [], map[];
    }

    ghost function Value(): Session
      reads this
    {
      Session(state, captured, http, stopped, redis, slept, gauge)
    }

    method MirrorToRedis()
      modifies this`redis
      ensures Value() == Mirror(cfg, old(Value()))
    {
      var failed := Fails(redis);
      redis := Next(redis);
      if !failed {
        redis := redis.(hash := redis.hash + ToRedis(cfg.codec, state));
      }
    }

    method MoveTo(s: SessionStatus)
      modifies this`state, this`gauge, this`redis
      ensures Value() == SetStatus(cfg, old(Value()), s)
    {
      hide Mirror;
      var prev := state.status;
      state := state.(status := s);
      if prev != s {
        gauge := gauge[prev := Reading(gauge, prev) - 1];
        gauge := gauge[s := Reading(gauge, s) + 1];
      }
      MirrorToRedis();
    }

    method AdoptCaptured(c: CapturedSession, now: Stamp)
      modifies this`captured, this`http, this`state, this`gauge, this`redis
      ensures Value() == Adopt(cfg, old(Value()), c, now)
    {
      hide SetStatus;
      captured, http := Some(c), true;
      state := state.(cookies := c.cookies, confExten := c.confExten);
      state := state.(sessionId := c.sessionId, sessionName := c.sessionName, userAgent := c.userAgent);
      state := state.(lastHeartbeatAt := Some(now), heartbeatFailures := 0, lastError := "");
      MoveTo(READY);
    }

    method LoginWithBackoff(logins: nat -> Login)
      modifies this`captured, this`http, this`state, this`gauge, this`redis, this`slept
      ensures Value() == LoginRound(cfg, old(Value()), logins)
    {
      hide Adopt, SetStatus, LoginFrom;
      var delays := [0] + cfg.delays;
      var k := 0;
      assert delays[0..] == delays;
      while k < |delays|
        invariant k <= |delays|
        invariant LoginFrom(cfg, Value(), delays[k..], k, logins) == LoginRound(cfg, old(Value()), logins)
      {
        NextAttempt(cfg, Value(), delays, k, logins);
        if stopped {
          return;
        }
        if delays[k] != 0 {
          slept := slept + [delays[k]];
        }
        state := state.(loginAttempts := state.loginAttempts + 1);
        var login := logins(k);
        if login.LoggedIn? {
          AdoptCaptured(login.captured, login.now);
          return;
        }
        state := state.(lastError := login.error);
        k := k + 1;
      }
      NoMoreAttempts(cfg, Value(), delays, logins);
      MoveTo(ERROR);
    }

    method Recover(logins: nat -> Login)
      modifies this`captured, this`http, this`state, this`gauge, this`redis, this`slept
      ensures Value() == MaybeRecover(cfg, old(Value()), logins)
    {
      hide LoginRound;
      if state.heartbeatFailures < 3 {
        return;
      }
      http, captured := false, None;
      LoginWithBackoff(logins);
    }

    method Beat(b: Beat)
      modifies this`captured, this`http, this`state, this`gauge, this`redis, this`slept
      ensures Value() == Heartbeat(cfg, old(Value()), b)
    {
      hide MaybeRecover, Mirror;
      if captured.None? || !http {
        return;
      }
      if !b.good {
        state := state.(heartbeatFailures := state.heartbeatFailures + 1);
        Recover(b.logins);
        return;
      }
      state := state.(heartbeatFailures := 0, lastHeartbeatAt := Some(b.now));
      MirrorToRedis();
    }

    method Resume(now: Stamp, b: Beat) returns (ok: bool)
      modifies this`captured, this`http, this`state, this`gauge, this`redis, this`slept
      ensures (Value(), ok) == ResumeFromRedis(cfg, old(Value()), now, b)
    {
      hide Adopt, Heartbeat, Revivable;
      var failed, hash := Fails(redis), redis.hash;
      redis := Next(redis);
      if failed {
        return false;
      }
      var prior := Revivable(cfg, hash);
      if prior.None? {
        return false;
      }
      AdoptCaptured(prior.value, now);
      Beat(b);
      if state.heartbeatFailures > 0 {
        captured, http := None, false;
        return false;
      }
      return true;
    }

    method Begin(now: Stamp, b: Beat, logins: nat -> Login)
      modifies this`captured, this`http, this`state, this`gauge, this`redis, this`slept
      ensures Value() == Start(cfg, old(Value()), now, b, logins)
    {
      hide SetStatus, ResumeFromRedis, LoginRound;
      MoveTo(LOGGING_IN);
      var resumed := Resume(now, b);
      if !resumed {
        LoginWithBackoff(logins);
      }
    }

    method End()
      modifies this
      ensures Value() == Stop(cfg, old(Value()))
    {
      hide SetStatus;
      if stopped {
        return;
      }
      stopped := true;
      if captured.Some? && http {
        http := false;
      }
      MoveTo(LOGGED_OUT);
      var failed := Fails(redis);
      redis := Next(redis);
      if !failed {
        redis := redis.(hash := map[]);
      }
    }

    /** Pause, resume, dispose, transfer, hangup and dial; `raised` is the exception the caller sees. */
    method Action(expired: bool, s: Option<SessionStatus>) returns (raised: bool)
      modifies this`state, this`gauge, this`redis
      ensures Value() == Act(cfg, old(Value()), expired, s)
      ensures raised <==> !old(HasSession(Value())) || expired
    {
      hide SetStatus;
      if captured.None? || !http {
        return true;
      }
      if expired {
        state := state.(heartbeatFailures := state.heartbeatFailures + 99);
        return true;
      }
      if s.Some? {
        MoveTo(s.value);
      }
      return false;
    }

    method CallInfo(a: CallAnswer) returns (raised: bool)
      modifies this`state, this`redis
      ensures Value() == GetCallInfo(cfg, old(Value()), a)
      ensures raised <==> !old(HasSession(Value())) || a.ExpiredAnswer?
    {
      hide Mirror;
      if captured.None? || !http {
        return true;
      }
      if a.ExpiredAnswer? {
        state := state.(heartbeatFailures := state.heartbeatFailures + 99);
        return true;
      }
      if a.leadId.Some? && a.leadId.value != "" {
        if a.uniqueid.Some? && a.uniqueid.value != "" {
          state := state.(lastCallId := a.uniqueid);
        }
        MirrorToRedis();
      }
      return false;
    }
  }

  // ---------------------------------------------------------------------
  // Login rounds
  // ---------------------------------------------------------------------

  /** The delays that are slept. */
  function Nonzero(delays: seq<nat>): seq<nat> {
    if delays == [] then [] else (if delays[0] == 0 then [] else [delays[0]]) + Nonzero(delays[1..])
  }

  ghost predicate LoggedInAs(w: Session, c: CapturedSession, now: Stamp) {
    && HasSession(w) && w.state.lastHeartbeatAt == Some(now) && w.captured == Some(c) && w.state.status == READY
    && w.state.heartbeatFailures == 0 && w.state.lastError == ""
    && w.state.cookies == c.cookies && w.state.confExten == c.confExten && w.state.sessionId == c.sessionId
    && w.state.sessionName == c.sessionName && w.state.userAgent == c.userAgent
  }

  lemma {:induction false} TriedOnce(w: Session, delays: seq<nat>, i: nat)
    requires delays != [] && 1 <= i <= |delays|
    ensures Attempted(Sleep(w, delays[0])).slept + Nonzero(delays[1..i]) == w.slept + Nonzero(delays[..i])
    ensures Attempted(Sleep(w, delays[0])).state == w.state.(loginAttempts := w.state.loginAttempts + 1)
  {
    assert delays[..i][1..] == delays[1..i];
    assert delays[..i][0] == delays[0];
  }

  lemma {:induction false} FirstSuccess(cfg: Config, w: Session, delays: seq<nat>, k: nat, i: nat, logins: nat -> Login)
    requires !w.stopped && i < |delays| && logins(k + i).LoggedIn?
    requires forall j | k <= j < k + i :: logins(j).LoginFailed?
    ensures var r := LoginFrom(cfg, w, delays, k, logins);
            && LoggedInAs(r, logins(k + i).captured, logins(k + i).now)
            && r.state.loginAttempts == w.state.loginAttempts + i + 1
            && r.slept == w.slept + Nonzero(delays[..i + 1])
    decreases i
  {
    hide Nonzero;
    TriedOnce(w, delays, i + 1);
    if i == 0 {
      NothingLeft(delays);
    } else {
      FirstSuccess(cfg, FailedOnce(w, delays[0], logins(k)), delays[1..], k + 1, i - 1, logins);
      assert delays[1..][..i] == delays[1..i + 1];
    }
  }

  lemma {:induction false} NextAttempt(cfg: Config, w: Session, delays: seq<nat>, k: nat, logins: nat -> Login)
    requires k < |delays|
    ensures LoginFrom(cfg, w, delays[k..], k, logins)
         == if w.stopped then w
            else if logins(k).LoggedIn? then
              Adopt(cfg, Attempted(Sleep(w, delays[k])), logins(k).captured, logins(k).now)
            else LoginFrom(cfg, FailedOnce(w, delays[k], logins(k)), delays[k + 1..], k + 1, logins)
  {
    hide Adopt;
    assert delays[k..][1..] == delays[k + 1..];
  }

  lemma {:induction false} NoMoreAttempts(cfg: Config, w: Session, delays: seq<nat>, logins: nat -> Login)
    ensures LoginFrom(cfg, w, delays[|delays|..], |delays|, logins) == SetStatus(cfg, w, ERROR)
  {
    hide SetStatus;
  }

  function FailedOnce(w: Session, delay: nat, login: Login): Session
    requires login.LoginFailed?
  {
    var tried := Attempted(Sleep(w, delay));
    tried.(state := tried.state.(lastError := login.error))
  }

  lemma {:induction false} NothingLeft(delays: seq<nat>)
    requires delays != []
    ensures Nonzero(delays[1..1]) == [] && forall s: seq<nat> :: s + Nonzero(delays[1..1]) == s
  {
  }

  lemma {:induction false} AllFail(cfg: Config, w: Session, delays: seq<nat>, k: nat, logins: nat -> Login)
    requires !w.stopped && forall j | k <= j < k + |delays| :: logins(j).LoginFailed?
    ensures var r := LoginFrom(cfg, w, delays, k, logins);
            && r.state.status == ERROR && r.captured == w.captured && r.http == w.http && r.stopped == w.stopped
            && r.state.loginAttempts == w.state.loginAttempts + |delays|
            && r.slept == w.slept + Nonzero(delays)
            && r.state.lastError == if delays == [] then w.state.lastError else logins(k + |delays| - 1).error
    decreases |delays|
  {
    if delays != [] {
      TriedOnce(w, delays, |delays|);
      hide Nonzero;
      assert delays[1..|delays|] == delays[1..] && delays[..|delays|] == delays;
      AllFail(cfg, FailedOnce(w, delays[0], logins(k)), delays[1..], k + 1, logins);
    } else {
      assert w.slept + [] == w.slept;
    }
  }

  /**
    A login round makes one attempt more than there are delays at most, and stops at the first that
    succeeds: then the worker is ready. If none does it is in error, without a session. What it slept
    is the delays before the attempts it made.
   */
  lemma {:induction false} LoginRoundLaw(cfg: Config, w: Session, logins: nat -> Login, made: nat)
    requires !w.stopped && !HasSession(w)
    requires made <= |cfg.delays| && forall j | 0 <= j < made :: logins(j).LoginFailed?
    ensures var r := LoginRound(cfg, w, logins);
            if logins(made).LoggedIn? then
              && LoggedInAs(r, logins(made).captured, logins(made).now)
              && r.state.loginAttempts == w.state.loginAttempts + made + 1
              && r.slept == w.slept + Nonzero(cfg.delays[..made])
            else made == |cfg.delays| ==>
              && r.state.status == ERROR && !HasSession(r) && r.state.lastError == logins(made).error
              && r.state.loginAttempts == w.state.loginAttempts + 1 + |cfg.delays|
              && r.slept == w.slept + Nonzero(cfg.delays)
  {
    hide LoginFrom, LoggedInAs;
    var delays := [0] + cfg.delays;
    assert delays[1..] == cfg.delays && delays[..made + 1][1..] == cfg.delays[..made];
    if logins(made).LoggedIn? {
      FirstSuccess(cfg, w, delays, 0, made, logins);
    } else if made == |cfg.delays| {
      AllFail(cfg, w, delays, 0, logins);
    }
  }

  // ---------------------------------------------------------------------
  // Starting
  // ---------------------------------------------------------------------

  lemma {:induction false} EmptyRecordIsNotRevivable(cfg: Config, h: Hash, s: SessionState)
    requires Inverse(cfg.codec) && s.cookies == map[]
    ensures Revivable(cfg, h + ToRedis(cfg.codec, s)).None?
  {
    var written := h + ToRedis(cfg.codec, s);
    assert written[Cookies] == cfg.codec.dumps(s.cookies);
    NumbersComeBack(cfg.codec, EPOCH, 0, s.cookies);
    assert CookiesAt(cfg.codec, written) == map[];
  }

  /** A new worker resumes a session exactly if its first write to Redis fails, the read after it does not, the hash is usable and the heartbeat good. */
  lemma {:induction false} ResumedExactly(cfg: Config, w: Session, now: Stamp, b: Beat)
    requires Inverse(cfg.codec) && w.state.cookies == map[]
    ensures ResumeFromRedis(cfg, SetStatus(cfg, w, LOGGING_IN), now, b).1
       <==> Fails(w.redis) && !Fails(Next(w.redis)) && Revivable(cfg, w.redis.hash).Some? && b.good
  {
    hide Revivable, Inverse, LoginRound;
    EmptyRecordIsNotRevivable(cfg, w.redis.hash, w.state.(status := LOGGING_IN));
  }

  /** So, as long as Redis works, starting always logs in anew, whatever session the hash held before. */
  lemma {:induction false} StartLogsIn(cfg: Config, w: Session, now: Stamp, b: Beat, logins: nat -> Login)
    requires Inverse(cfg.codec) && w.state.cookies == map[] && w.redis.outages == []
    ensures Start(cfg, w, now, b, logins) == LoginRound(cfg, SetStatus(cfg, w, LOGGING_IN), logins)
  {
    hide Revivable, Inverse, LoginRound;
    ResumedExactly(cfg, w, now, b);
    EmptyRecordIsNotRevivable(cfg, w.redis.hash, w.state.(status := LOGGING_IN));
  }

  // ---------------------------------------------------------------------
  // Runs
  // ---------------------------------------------------------------------

  /** What happens to a started worker; `Bump` is the supervisor marking a session as unhealthy. */
  datatype Op =
    | DoBeat(b: Beat) | Bump | DoPause(expired: bool) | DoResume(expired: bool) | DoOther(expired: bool)
    | DoCallInfo(a: CallAnswer) | DoStop

  function Apply(cfg: Config, w: Session, op: Op): Session {
    match op
    case DoBeat(b) => Heartbeat(cfg, w, b)
    case Bump => if w.state.lastHeartbeatAt.None? then w else WithFailures(w, 99)
    case DoPause(expired) => Act(cfg, w, expired, Some(PAUSED))
    case DoResume(expired) => Act(cfg, w, expired, Some(READY))
    case DoOther(expired) => Act(cfg, w, expired, None)
    case DoCallInfo(a) => GetCallInfo(cfg, w, a)
    case DoStop => Stop(cfg, w)
  }

  function Run(cfg: Config, w: Session, ops: seq<Op>): Session {
    if ops == [] then w else Apply(cfg, Run(cfg, w, ops[..|ops|-1]), ops[|ops|-1])
  }

  // ---------------------------------------------------------------------
  // The mirror
  // ---------------------------------------------------------------------

  /** The hash agrees with the record in every field, except perhaps the count of failures. */
  ghost predicate Mirrored(cfg: Config, w: Session) {
    forall f: Field | f != HeartbeatFailures :: f in w.redis.hash && w.redis.hash[f] == Printed(cfg.codec, w.state, f)
  }

  /** Redis works and the worker is running. */
  predicate Normal(w: Session) { w.redis.outages == [] && !w.stopped }

  lemma {:induction false} MirrorWrites(cfg: Config, w: Session)
    requires Normal(w)
    ensures Mirrored(cfg, Mirror(cfg, w)) && Normal(Mirror(cfg, w))
    ensures Mirror(cfg, w).redis.hash == ToRedis(cfg.codec, w.state)
  {
    hide Printed;
    var h := ToRedis(cfg.codec, w.state);
    assert w.redis.hash + h == h;
  }

  lemma {:induction false} LoginMirrors(cfg: Config, w: Session, delays: seq<nat>, k: nat, logins: nat -> Login)
    requires Normal(w)
    ensures Mirrored(cfg, LoginFrom(cfg, w, delays, k, logins)) && Normal(LoginFrom(cfg, w, delays, k, logins))
    decreases |delays|
  {
    hide Mirrored, Mirror;
    if delays == [] {
      MirrorWrites(cfg, w.(state := w.state.(status := ERROR), gauge := Moved(w.gauge, w.state.status, ERROR)));
    } else if logins(k).LoggedIn? {
      var tried, c, now := Attempted(Sleep(w, delays[0])), logins(k).captured, logins(k).now;
      StatusMirrors(cfg, tried.(captured := Some(c), http := true, state := AdoptedState(tried.state, c, now)), READY);
    } else {
      LoginMirrors(cfg, FailedOnce(w, delays[0], logins(k)), delays[1..], k + 1, logins);
    }
  }

  lemma {:induction false} StatusMirrors(cfg: Config, w: Session, s: SessionStatus)
    requires Normal(w)
    ensures Mirrored(cfg, SetStatus(cfg, w, s)) && Normal(SetStatus(cfg, w, s))
  {
    MirrorWrites(cfg, w.(state := w.state.(status := s), gauge := Moved(w.gauge, w.state.status, s)));
    hide Mirrored, Mirror;
  }

  lemma {:induction false} FailuresUnseen(cfg: Config, w: Session, n: int)
    requires Mirrored(cfg, w)
    ensures Mirrored(cfg, WithFailures(w, n))
  {
    forall f: Field | f != HeartbeatFailures
      ensures Printed(cfg.codec, WithFailures(w, n).state, f) == Printed(cfg.codec, w.state, f)
    {
    }
    hide Printed;
  }

  lemma {:induction false} ApplyMirrors(cfg: Config, w: Session, op: Op)
    requires Normal(w) && Mirrored(cfg, w) && !op.DoStop?
    ensures Normal(Apply(cfg, w, op)) && Mirrored(cfg, Apply(cfg, w, op))
  {
    hide Mirrored, Mirror, SetStatus, LoginFrom;
    FailuresUnseen(cfg, w, 99);
    FailuresUnseen(cfg, w, w.state.heartbeatFailures + 99);
    FailuresUnseen(cfg, w, w.state.heartbeatFailures + 1);
    match op
    case DoBeat(b) =>
      MirrorWrites(cfg, w.(state := w.state.(heartbeatFailures := 0, lastHeartbeatAt := Some(b.now))));
      var counted := WithFailures(w, w.state.heartbeatFailures + 1);
      LoginMirrors(cfg, counted.(captured := None, http := false), [0] + cfg.delays, 0, b.logins);
    case Bump =>
    case DoPause(_) => StatusMirrors(cfg, w, PAUSED);
    case DoResume(_) => StatusMirrors(cfg, w, READY);
    case DoOther(_) =>
    case DoCallInfo(a) =>
      MirrorWrites(cfg, w);
      if a.Info? {
        MirrorWrites(cfg, w.(state := w.state.(lastCallId := a.uniqueid)));
      }
  }

  /** While Redis works and nothing stops the worker, its hash agrees with the record after every operation, except for the count of failures. */
  lemma {:induction false} MirrorLaw(cfg: Config, w: Session, ops: seq<Op>)
    requires Normal(w) && Mirrored(cfg, w) && forall i | 0 <= i < |ops| :: !ops[i].DoStop?
    ensures Normal(Run(cfg, w, ops)) && Mirrored(cfg, Run(cfg, w, ops))
  {
    hide Mirrored, Apply;
    if ops != [] {
      MirrorLaw(cfg, w, ops[..|ops|-1]);
      ApplyMirrors(cfg, Run(cfg, w, ops[..|ops|-1]), ops[|ops|-1]);
    }
  }

  lemma {:induction false} StartMirrors(cfg: Config, w: Session, now: Stamp, b: Beat, logins: nat -> Login)
    requires Inverse(cfg.codec) && w.state.cookies == map[] && Normal(w)
    ensures Normal(Start(cfg, w, now, b, logins)) && Mirrored(cfg, Start(cfg, w, now, b, logins))
  {
    hide Mirrored, SetStatus, LoginFrom, Start, Inverse;
    StartLogsIn(cfg, w, now, b, logins);
    StatusMirrors(cfg, w, LOGGING_IN);
    LoginMirrors(cfg, SetStatus(cfg, w, LOGGING_IN), [0] + cfg.delays, 0, logins);
  }

  // ---------------------------------------------------------------------
  // Every reachable record survives the round trip
  // ---------------------------------------------------------------------

  lemma {:induction false} LoginKeepsCallId(cfg: Config, w: Session, delays: seq<nat>, k: nat, logins: nat -> Login)
    ensures LoginFrom(cfg, w, delays, k, logins).state.lastCallId == w.state.lastCallId
    decreases |delays|
  {
    if delays != [] && !w.stopped && logins(k).LoginFailed? {
      LoginKeepsCallId(cfg, FailedOnce(w, delays[0], logins(k)), delays[1..], k + 1, logins);
    }
  }

  lemma {:induction false} ApplyKeepsCallId(cfg: Config, w: Session, op: Op)
    requires w.state.lastCallId != Some("")
    ensures Apply(cfg, w, op).state.lastCallId != Some("")
  {
    hide LoginFrom, Moved;
    if op.DoBeat? {
      var counted := WithFailures(w, w.state.heartbeatFailures + 1);
      LoginKeepsCallId(cfg, counted.(captured := None, http := false), [0] + cfg.delays, 0, op.b.logins);
    }
  }

  lemma {:induction false} StartKeepsCallId(cfg: Config, w: Session, now: Stamp, b: Beat, logins: nat -> Login)
    requires w.state.lastCallId == None
    ensures Start(cfg, w, now, b, logins).state.lastCallId == None
  {
    hide LoginFrom, Revivable, Moved;
    var begun := SetStatus(cfg, w, LOGGING_IN);
    var (resumed, ok) := ResumeFromRedis(cfg, begun, now, b);
    LoginKeepsCallId(cfg, resumed, [0] + cfg.delays, 0, logins);
    if Revivable(cfg, begun.redis.hash).Some? {
      var adopted := Adopt(cfg, begun.(redis := Next(begun.redis)), Revivable(cfg, begun.redis.hash).value, now);
      var counted := WithFailures(adopted, adopted.state.heartbeatFailures + 1);
      LoginKeepsCallId(cfg, counted.(captured := None, http := false), [0] + cfg.delays, 0, b.logins);
    }
  }

  lemma {:induction false} RunKeepsCallId(cfg: Config, w: Session, ops: seq<Op>)
    requires w.state.lastCallId != Some("")
    ensures Run(cfg, w, ops).state.lastCallId != Some("")
  {
    hide Apply;
    if ops != [] {
      RunKeepsCallId(cfg, w, ops[..|ops|-1]);
      ApplyKeepsCallId(cfg, Run(cfg, w, ops[..|ops|-1]), ops[|ops|-1]);
    }
  }

  /** Whatever happens to a worker after its start, its record is exactly what its Redis form reads back as. */
  lemma {:induction false} ReachableRoundTrip(cfg: Config, w: Session, now: Stamp, b: Beat, logins: nat -> Login, ops: seq<Op>)
    requires Inverse(cfg.codec) && w.state.lastCallId == None
    ensures var r := Run(cfg, Start(cfg, w, now, b, logins), ops);
            FromRedis(cfg.codec, ToRedis(cfg.codec, r.state)) == Some(r.state)
  {
    hide *;
    StartKeepsCallId(cfg, w, now, b, logins);
    RunKeepsCallId(cfg, Start(cfg, w, now, b, logins), ops);
    RoundTripExactly(cfg.codec, Run(cfg, Start(cfg, w, now, b, logins), ops).state);
  }

  // ---------------------------------------------------------------------
  // Failing heartbeats
  // ---------------------------------------------------------------------

  /** The count of failures of a worker that has a session. */
  function CountOf(w: Session): Option<int> { if HasSession(w) then Some(w.state.heartbeatFailures) else None }

  /** The heartbeat that fails and takes the count to three or more. */
  predicate Drops(count: Option<int>, op: Op) {
    count.Some? && op.DoBeat? && !op.b.good && count.value + 1 >= 3
  }

  /** How an operation moves the count of a session that is kept. */
  function Counted(count: int, op: Op): int {
    match op
    case DoBeat(b) => if b.good then 0 else count + 1
    case Bump => 99
    case DoPause(expired) => if expired then count + 99 else count
    case DoResume(expired) => if expired then count + 99 else count
    case DoOther(expired) => if expired then count + 99 else count
    case DoCallInfo(a) => if a.ExpiredAnswer? then count + 99 else count
    case DoStop => count
  }

  /** One of the attempts of a login round succeeds. */
  ghost predicate Recovers(cfg: Config, logins: nat -> Login) {
    exists k: nat :: k <= |cfg.delays| && logins(k).LoggedIn?
  }

  ghost function NextCount(cfg: Config, count: Option<int>, op: Op): Option<int> {
    if count.None? then None
    else if Drops(count, op) then if Recovers(cfg, op.b.logins) then Some(0) else None
    else Some(Counted(count.value, op))
  }

  /** The count after all of `ops`, told from them alone; None when there is no session any more. */
  ghost function Tally(cfg: Config, start: Option<int>, ops: seq<Op>): Option<int> {
    if ops == [] then start else NextCount(cfg, Tally(cfg, start, ops[..|ops|-1]), ops[|ops|-1])
  }

  /** A session always has the time of a last heartbeat, as adopting it sets one. */
  predicate Running(w: Session) { !w.stopped && (HasSession(w) ==> w.state.lastHeartbeatAt.Some?) }

  predicate SameSession(w: Session, r: Session) {
    && r.captured == w.captured && r.http == w.http && r.state.loginAttempts == w.state.loginAttempts
    && r.state.cookies == w.state.cookies && r.state.confExten == w.state.confExten
    && r.state.sessionId == w.state.sessionId && r.state.sessionName == w.state.sessionName
    && r.state.userAgent == w.state.userAgent && r.slept == w.slept
  }

  lemma {:induction false} MirrorKeepsRecord(cfg: Config, w: Session)
    ensures Mirror(cfg, w) == w.(redis := Mirror(cfg, w).redis)
  {
  }

  lemma {:induction false} AttemptsGrow(cfg: Config, w: Session, delays: seq<nat>, k: nat, logins: nat -> Login)
    ensures LoginFrom(cfg, w, delays, k, logins).state.loginAttempts >= w.state.loginAttempts + if w.stopped || delays == [] then 0 else 1
    ensures LoginFrom(cfg, w, delays, k, logins).stopped == w.stopped
    decreases |delays|
  {
    hide Moved;
    if delays != [] && !w.stopped && logins(k).LoginFailed? {
      AttemptsGrow(cfg, FailedOnce(w, delays[0], logins(k)), delays[1..], k + 1, logins);
    }
  }

  lemma {:induction false} AdoptsIfAnySucceeds(cfg: Config, w: Session, delays: seq<nat>, k: nat, logins: nat -> Login)
    requires !w.stopped && !HasSession(w)
    ensures var r := LoginFrom(cfg, w, delays, k, logins);
            && (HasSession(r) <==> exists j :: k <= j < k + |delays| && logins(j).LoggedIn?)
            && (HasSession(r) ==> r.state.heartbeatFailures == 0 && r.state.lastHeartbeatAt.Some?)
    decreases |delays|
  {
    hide Moved;
    if delays != [] && logins(k).LoginFailed? {
      AdoptsIfAnySucceeds(cfg, FailedOnce(w, delays[0], logins(k)), delays[1..], k + 1, logins);
    }
  }

  lemma {:induction false} RoundRecovers(cfg: Config, w: Session, logins: nat -> Login)
    requires !w.stopped && !HasSession(w)
    ensures var r := LoginRound(cfg, w, logins);
            && CountOf(r) == (if Recovers(cfg, logins) then Some(0) else None)
            && Running(r) && r.state.loginAttempts > w.state.loginAttempts
  {
    hide LoginFrom;
    AdoptsIfAnySucceeds(cfg, w, [0] + cfg.delays, 0, logins);
    AttemptsGrow(cfg, w, [0] + cfg.delays, 0, logins);
  }

  /** The session a failing heartbeat leaves to the login round. */
  function Dropped(w: Session): Session {
    WithFailures(w, w.state.heartbeatFailures + 1).(captured := None, http := false)
  }

  lemma {:induction false} BeatCounts(cfg: Config, w: Session, b: Beat)
    requires Running(w)
    ensures var r := Heartbeat(cfg, w, b);
            && CountOf(r) == NextCount(cfg, CountOf(w), DoBeat(b)) && Running(r)
            && (if Drops(CountOf(w), DoBeat(b)) then
                  r == LoginRound(cfg, Dropped(w), b.logins) && r.state.loginAttempts > w.state.loginAttempts
                else SameSession(w, r))
  {
    hide LoginRound, Mirror, Recovers;
    MirrorKeepsRecord(cfg, w.(state := w.state.(heartbeatFailures := 0, lastHeartbeatAt := Some(b.now))));
    RoundRecovers(cfg, Dropped(w), b.logins);
  }

  lemma {:induction false} OtherCounts(cfg: Config, w: Session, op: Op)
    requires Running(w) && !op.DoStop? && !op.DoBeat?
    ensures var r := Apply(cfg, w, op);
            CountOf(r) == NextCount(cfg, CountOf(w), op) && Running(r) && SameSession(w, r)
  {
    hide Mirror, Moved;
    MirrorKeepsRecord(cfg, w);
    MirrorKeepsRecord(cfg, w.(state := w.state.(status := PAUSED), gauge := Moved(w.gauge, w.state.status, PAUSED)));
    MirrorKeepsRecord(cfg, w.(state := w.state.(status := READY), gauge := Moved(w.gauge, w.state.status, READY)));
    if op.DoCallInfo? && op.a.Info? {
      MirrorKeepsRecord(cfg, w.(state := w.state.(lastCallId := op.a.uniqueid)));
    }
  }

  /** One operation: the session is dropped, and a login round run, exactly by a heartbeat that takes the count to three. */
  lemma {:induction false} ApplyCounts(cfg: Config, w: Session, op: Op)
    requires Running(w) && !op.DoStop?
    ensures var r := Apply(cfg, w, op);
            && CountOf(r) == NextCount(cfg, CountOf(w), op) && Running(r)
            && (if Drops(CountOf(w), op) then
                  r == LoginRound(cfg, Dropped(w), op.b.logins) && r.state.loginAttempts > w.state.loginAttempts
                else SameSession(w, r))
  {
    hide Heartbeat, LoginRound, CountOf, NextCount, SameSession, Running, Act, GetCallInfo;
    if op.DoBeat? {
      BeatCounts(cfg, w, op.b);
    } else {
      OtherCounts(cfg, w, op);
    }
  }

  /** In every run without a stop the count is what the operations say, and so is whether there is a session. */
  lemma {:induction false} CountLaw(cfg: Config, w: Session, ops: seq<Op>)
    requires Running(w) && forall i | 0 <= i < |ops| :: !ops[i].DoStop?
    ensures CountOf(Run(cfg, w, ops)) == Tally(cfg, CountOf(w), ops) && Running(Run(cfg, w, ops))
    ensures Run(cfg, w, ops).state.loginAttempts >= w.state.loginAttempts
  {
    hide Apply, CountOf, NextCount, Running, LoginRound;
    if ops != [] {
      CountLaw(cfg, w, ops[..|ops|-1]);
      ApplyCounts(cfg, Run(cfg, w, ops[..|ops|-1]), ops[|ops|-1]);
    }
  }

  /** The `n`-th operation of a run takes the count of a session to three by a failing heartbeat. */
  ghost predicate DropsAt(cfg: Config, start: Option<int>, ops: seq<Op>, n: nat) {
    n < |ops| && Drops(Tally(cfg, start, ops[..n]), ops[n])
  }

  /**
    Each operation of every run without a stop, whatever came before: either it is a heartbeat that takes
    the count to three, and it drops the session and runs a login round; or it keeps session and attempts.
   */
  lemma {:induction false} SessionDroppedExactly(cfg: Config, w: Session, ops: seq<Op>, n: nat)
    requires Running(w) && n < |ops| && forall i | 0 <= i < |ops| :: !ops[i].DoStop?
    ensures var before, after := Run(cfg, w, ops[..n]), Run(cfg, w, ops[..n + 1]);
            if DropsAt(cfg, CountOf(w), ops, n) then
              after == LoginRound(cfg, Dropped(before), ops[n].b.logins)
              && after.state.loginAttempts > before.state.loginAttempts
            else SameSession(before, after)
  {
    hide Apply, CountOf, NextCount, Running, LoginRound, Tally, SameSession, Dropped;
    CountLaw(cfg, w, ops[..n]);
    ApplyCounts(cfg, Run(cfg, w, ops[..n]), ops[n]);
    assert ops[..n + 1][..n] == ops[..n];
  }

  lemma {:induction false} SameTwice(a: Session, b: Session, c: Session)
    requires SameSession(a, b) && SameSession(b, c)
    ensures SameSession(a, c)
  {
  }

  /** As long as no heartbeat takes the count to three the session is the same one, and no login is tried. */
  lemma {:induction false} SessionSurvives(cfg: Config, w: Session, ops: seq<Op>, n: nat)
    requires Running(w) && n <= |ops| && forall i | 0 <= i < |ops| :: !ops[i].DoStop?
    requires forall m: nat | m < n :: !DropsAt(cfg, CountOf(w), ops, m)
    ensures SameSession(w, Run(cfg, w, ops[..n]))
  {
    hide Apply, CountOf, Running, DropsAt;
    if n > 0 {
      SessionSurvives(cfg, w, ops, n - 1);
      hide Run;
      assert !DropsAt(cfg, CountOf(w), ops, n - 1);
      SessionDroppedExactly(cfg, w, ops, n - 1);
      SameTwice(w, Run(cfg, w, ops[..n - 1]), Run(cfg, w, ops[..n]));
    }
  }

  lemma {:induction false} AttemptsNeverShrink(cfg: Config, w: Session, ops: seq<Op>, m: nat, n: nat)
    requires Running(w) && m <= n <= |ops| && forall i | 0 <= i < |ops| :: !ops[i].DoStop?
    ensures Run(cfg, w, ops[..n]).state.loginAttempts >= Run(cfg, w, ops[..m]).state.loginAttempts
  {
    hide Run, Running, DropsAt, LoginRound;
    if m < n {
      AttemptsNeverShrink(cfg, w, ops, m, n - 1);
      SessionDroppedExactly(cfg, w, ops, n - 1);
    }
  }

  /** A run without a stop logs in anew if and only if some heartbeat in it takes the count to three. */
  lemma {:induction false} ReloginExactly(cfg: Config, w: Session, ops: seq<Op>)
    requires Running(w) && forall i | 0 <= i < |ops| :: !ops[i].DoStop?
    ensures Run(cfg, w, ops).state.loginAttempts > w.state.loginAttempts
       <==> exists n: nat :: DropsAt(cfg, CountOf(w), ops, n)
  {
    hide Running, DropsAt, CountOf, LoginRound;
    assert ops[..|ops|] == ops && Run(cfg, w, ops[..0]) == w;
    hide Run;
    if n: nat :| n < |ops| && DropsAt(cfg, CountOf(w), ops, n) {
      AttemptsNeverShrink(cfg, w, ops, 0, n);
      SessionDroppedExactly(cfg, w, ops, n);
      AttemptsNeverShrink(cfg, w, ops, n + 1, |ops|);
    } else {
      DropsInside(cfg, CountOf(w), ops);
      SessionSurvives(cfg, w, ops, |ops|);
    }
  }

  lemma {:induction false} DropsInside(cfg: Config, start: Option<int>, ops: seq<Op>)
    ensures forall n: nat :: DropsAt(cfg, start, ops, n) ==> n < |ops|
  {
  }

  /** Starting gives a worker of which all this holds. */
  lemma {:induction false} StartRuns(cfg: Config, w: Session, now: Stamp, b: Beat, logins: nat -> Login)
    requires !w.stopped && !HasSession(w)
    ensures Running(Start(cfg, w, now, b, logins))
  {
    hide LoginRound, Revivable, Moved, Mirror, Heartbeat;
    var begun := SetStatus(cfg, w, LOGGING_IN);
    MirrorKeepsRecord(cfg, w.(state := w.state.(status := LOGGING_IN), gauge := Moved(w.gauge, w.state.status, LOGGING_IN)));
    var read := begun.(redis := Next(begun.redis));
    if Revivable(cfg, begun.redis.hash).Some? {
      var c := Revivable(cfg, begun.redis.hash).value;
      var adopted := read.(captured := Some(c), http := true, state := AdoptedState(read.state, c, now));
      MirrorKeepsRecord(cfg, adopted.(state := adopted.state.(status := READY), gauge := Moved(adopted.gauge, adopted.state.status, READY)));
      BeatCounts(cfg, Adopt(cfg, read, c, now), b);
    }
    var (resumed, ok) := ResumeFromRedis(cfg, begun, now, b);
    if !ok {
      RoundRecovers(cfg, resumed, logins);
    }
  }

  // ---------------------------------------------------------------------
  // What the record says after any run
  // ---------------------------------------------------------------------

  /** The parts of a worker's record that operations change: count, status, last call, last heartbeat. */
  datatype Record = Record(count: Option<int>, status: SessionStatus, callId: Option<string>, beat: Option<Stamp>)

  function RecordOf(w: Session): Record {
    Record(CountOf(w), w.state.status, w.state.lastCallId, w.state.lastHeartbeatAt)
  }

  /** The first of `n` login attempts from number `k` on that succeeds. */
  function FirstLogin(logins: nat -> Login, k: nat, n: nat): Option<nat>
    decreases n
  {
    if n == 0 then None else if logins(k).LoggedIn? then Some(k) else FirstLogin(logins, k + 1, n - 1)
  }

  lemma {:induction false} FirstLoginExactly(logins: nat -> Login, k: nat, n: nat)
    ensures match FirstLogin(logins, k, n)
            case None => forall j | k <= j < k + n :: logins(j).LoginFailed?
            case Some(i) => k <= i < k + n && logins(i).LoggedIn? && forall j | k <= j < i :: logins(j).LoginFailed?
    decreases n
  {
    if n > 0 && logins(k).LoginFailed? {
      FirstLoginExactly(logins, k + 1, n - 1);
    }
  }

  /** How an operation changes the record, told from the operation alone. */
  function NextRecord(cfg: Config, r: Record, op: Op): Record {
    if r.count.None? then r
    else if Drops(r.count, op) then
      match FirstLogin(op.b.logins, 0, 1 + |cfg.delays|)
      case None => r.(count := None, status := ERROR)
      case Some(i) =>
        if op.b.logins(i).LoggedIn? then Record(Some(0), READY, r.callId, Some(op.b.logins(i).now)) else r
    else
      var counted := r.(count := Some(Counted(r.count.value, op)));
      match op
      case DoBeat(b) => if b.good then counted.(beat := Some(b.now)) else counted
      case DoPause(expired) => if expired then counted else counted.(status := PAUSED)
      case DoResume(expired) => if expired then counted else counted.(status := READY)
      case DoCallInfo(Info(leadId, uniqueid)) =>
        if leadId == None || leadId == Some("") || uniqueid == None || uniqueid == Some("") then counted
        else counted.(callId := uniqueid)
      case _ => counted
  }

  function Recorded(cfg: Config, r: Record, ops: seq<Op>): Record {
    if ops == [] then r else NextRecord(cfg, Recorded(cfg, r, ops[..|ops|-1]), ops[|ops|-1])
  }

  lemma {:induction false} LoginRecord(cfg: Config, w: Session, delays: seq<nat>, k: nat, logins: nat -> Login)
    requires !w.stopped && !HasSession(w)
    ensures var r := RecordOf(LoginFrom(cfg, w, delays, k, logins));
            match FirstLogin(logins, k, |delays|)
            case None => r == Record(None, ERROR, w.state.lastCallId, w.state.lastHeartbeatAt)
            case Some(i) => logins(i).LoggedIn? && r == Record(Some(0), READY, w.state.lastCallId, Some(logins(i).now))
    decreases |delays|
  {
    hide Moved;
    if delays != [] && logins(k).LoginFailed? {
      LoginRecord(cfg, FailedOnce(w, delays[0], logins(k)), delays[1..], k + 1, logins);
    }
  }

  lemma {:induction false} RecordStep(cfg: Config, w: Session, op: Op)
    requires Running(w) && !op.DoStop?
    ensures RecordOf(Apply(cfg, w, op)) == NextRecord(cfg, RecordOf(w), op)
  {
    hide Mirror, Moved, LoginFrom, FirstLogin, GetCallInfo;
    match op
    case DoBeat(b) =>
      MirrorKeepsRecord(cfg, w.(state := w.state.(heartbeatFailures := 0, lastHeartbeatAt := Some(b.now))));
      LoginRecord(cfg, Dropped(w), [0] + cfg.delays, 0, b.logins);
    case Bump =>
    case DoPause(_) =>
      MirrorKeepsRecord(cfg, w.(state := w.state.(status := PAUSED), gauge := Moved(w.gauge, w.state.status, PAUSED)));
    case DoResume(_) =>
      MirrorKeepsRecord(cfg, w.(state := w.state.(status := READY), gauge := Moved(w.gauge, w.state.status, READY)));
    case DoOther(_) =>
    case DoCallInfo(a) => CallInfoRecord(cfg, w, a);
  }

  lemma {:induction false} CallInfoRecord(cfg: Config, w: Session, a: CallAnswer)
    ensures RecordOf(GetCallInfo(cfg, w, a)) == NextRecord(cfg, RecordOf(w), DoCallInfo(a))
  {
    hide Mirror;
    MirrorKeepsRecord(cfg, w);
    if a.Info? {
      MirrorKeepsRecord(cfg, w.(state := w.state.(lastCallId := a.uniqueid)));
    }
  }

  /** In every run without a stop: failures, status, last call id and last heartbeat are what the operations say. */
  lemma {:induction false} RecordLaw(cfg: Config, w: Session, ops: seq<Op>)
    requires Running(w) && forall i | 0 <= i < |ops| :: !ops[i].DoStop?
    ensures RecordOf(Run(cfg, w, ops)) == Recorded(cfg, RecordOf(w), ops)
  {
    hide Apply, NextRecord, Running, RecordOf, CountOf, Tally;
    if ops != [] {
      RecordLaw(cfg, w, ops[..|ops|-1]);
      CountLaw(cfg, w, ops[..|ops|-1]);
      RecordStep(cfg, Run(cfg, w, ops[..|ops|-1]), ops[|ops|-1]);
    }
  }

  // ---------------------------------------------------------------------
  // Stopping
  // ---------------------------------------------------------------------

  /** A stopped worker is logged out, without a session, and with Redis working its hash is gone; nothing changes that any more. */
  lemma {:induction false} StopIsFinal(cfg: Config, w: Session, ops: seq<Op>)
    requires !w.stopped
    ensures var r := Stop(cfg, w);
            && r.stopped && r.state.status == LOGGED_OUT && !HasSession(r)
            && (w.redis.outages == [] ==> r.redis.hash == map[])
            && Run(cfg, r, ops) == WithFailures(r, Run(cfg, r, ops).state.heartbeatFailures)
  {
    StopLogsOut(cfg, w);
    hide Stop;
    StoppedStays(cfg, Stop(cfg, w), ops);
  }

  lemma {:induction false} StopLogsOut(cfg: Config, w: Session)
    requires !w.stopped
    ensures var r := Stop(cfg, w);
            && r.stopped && r.state.status == LOGGED_OUT && !HasSession(r)
            && (w.redis.outages == [] ==> r.redis.hash == map[])
  {
    hide Moved;
  }

  lemma {:induction false} StoppedStays(cfg: Config, w: Session, ops: seq<Op>)
    requires w.stopped && !HasSession(w)
    ensures Run(cfg, w, ops) == WithFailures(w, Run(cfg, w, ops).state.heartbeatFailures)
  {
    hide MaybeRecover, Mirror, SetStatus;
    if ops != [] {
      StoppedStays(cfg, w, ops[..|ops|-1]);
    }
  }

  /** A login round of a worker stopped meanwhile does nothing. */
  lemma {:induction false} StoppedDoesNotLogIn(cfg: Config, w: Session, logins: nat -> Login)
    requires w.stopped
    ensures LoginRound(cfg, w, logins) == w
  {
    hide SetStatus;
  }

  // ---------------------------------------------------------------------
  // What is in Redis, and what comes back from it
  // ---------------------------------------------------------------------

  /** After a login with Redis working, the hash has the session, field by field, as others read it. */
  lemma {:induction false} LoginIsMirrored(cfg: Config, w: Session, logins: nat -> Login, made: nat)
    requires Normal(w) && !HasSession(w) && made <= |cfg.delays|
    requires logins(made).LoggedIn? && forall j | 0 <= j < made :: logins(j).LoginFailed?
    ensures var h, c := LoginRound(cfg, w, logins).redis.hash, logins(made).captured;
            && Get(h, Status, "") == "ready" && Get(h, Cookies, "") == cfg.codec.dumps(c.cookies)
            && Get(h, ConfExten, "") == c.confExten && Get(h, SessionId, "") == c.sessionId
            && Get(h, SessionName, "") == c.sessionName && Get(h, UserAgent, "") == c.userAgent
            && Get(h, LastHeartbeatAt, "") == cfg.codec.printTime(logins(made).now) && Get(h, LastError, "-") == ""
            && Get(h, LoginAttempts, "") == cfg.codec.printInt(w.state.loginAttempts + made + 1)
  {
    hide LoginFrom, LoginRound;
    LoginRoundLaw(cfg, w, logins, made);
    RoundMirrors(cfg, w, logins);
  }

  /** Every change of status with Redis working can be read from the hash. */
  lemma {:induction false} StatusIsMirrored(cfg: Config, w: Session, s: SessionStatus)
    requires Normal(w)
    ensures Get(SetStatus(cfg, w, s).redis.hash, Status, "")
         == match s
            case LOGGING_IN => "logging_in"
            case READY => "ready"
            case ON_CALL => "on_call"
            case PAUSED => "paused"
            case ERROR => "error"
            case LOGGED_OUT => "logged_out"
  {
    hide Moved;
    StatusMirrors(cfg, w, s);
  }

  lemma {:induction false} RoundMirrors(cfg: Config, w: Session, logins: nat -> Login)
    requires Normal(w)
    ensures Mirrored(cfg, LoginRound(cfg, w, logins))
  {
    hide Mirrored, LoginFrom;
    LoginMirrors(cfg, w, [0] + cfg.delays, 0, logins);
  }

  /** A stored record with cookies and an extension can be resumed, no other, and what is resumed is the very session that was stored. */
  lemma {:induction false} ResumeRestores(cfg: Config, w: Session, stored: SessionState, now: Stamp, b: Beat)
    requires Inverse(cfg.codec) && w.state.cookies == map[] && b.good
    requires Fails(w.redis) && !Fails(Next(w.redis)) && w.redis.hash == ToRedis(cfg.codec, stored)
    ensures var (r, ok) := ResumeFromRedis(cfg, SetStatus(cfg, w, LOGGING_IN), now, b);
            && (ok <==> stored.cookies != map[] && stored.confExten != "")
            && (ok ==>
                  && HasSession(r) && r.state.status == READY
                  && r.captured == Some(SessionOf(stored))
                  && r.state.cookies == stored.cookies && r.state.confExten == stored.confExten)
  {
    RoundTripExactly(cfg.codec, stored);
    StoredIsRevivable(cfg, stored);
    hide Inverse, Revivable, FromRedis, Moved, LoginFrom, ToRedis;
  }

  function SessionOf(s: SessionState): CapturedSession {
    CapturedSession(s.cookies, s.confExten, s.sessionId, s.sessionName, s.userAgent)
  }

  lemma {:induction false} StoredIsRevivable(cfg: Config, stored: SessionState)
    requires FromRedis(cfg.codec, ToRedis(cfg.codec, stored))
          == Some(if stored.lastCallId == Some("") then stored.(lastCallId := None) else stored)
    ensures Revivable(cfg, ToRedis(cfg.codec, stored))
         == if stored.cookies != map[] && stored.confExten != "" then Some(SessionOf(stored)) else None
  {
    hide FromRedis;
    assert Status in ToRedis(cfg.codec, stored);
  }

  // ---------------------------------------------------------------------
  // Runs of heartbeats only
  // ---------------------------------------------------------------------

  predicate OnlyBeats(ops: seq<Op>) { forall i | 0 <= i < |ops| :: ops[i].DoBeat? }

  predicate FailsAt(ops: seq<Op>, n: int) { 0 <= n < |ops| && ops[n].DoBeat? && !ops[n].b.good }

  /** The heartbeat `n` and the two before it fail. */
  predicate ThirdFailure(ops: seq<Op>, n: nat) { FailsAt(ops, n) && FailsAt(ops, n - 1) && FailsAt(ops, n - 2) }

  lemma {:induction false} TallyOfBeats(cfg: Config, ops: seq<Op>, n: nat)
    requires OnlyBeats(ops) && n <= |ops| && forall m: nat | m < n :: !ThirdFailure(ops, m)
    ensures Tally(cfg, Some(0), ops[..n])
         == Some(if !FailsAt(ops, n - 1) then 0 else if !FailsAt(ops, n - 2) then 1 else 2)
  {
    if n > 0 {
      TallyOfBeats(cfg, ops, n - 1);
      assert ops[..n][..n - 1] == ops[..n - 1];
      assert !ThirdFailure(ops, n - 1);
    }
  }

  /** A run of heartbeats on a session without counted failures logs in anew if and only if three in a row fail. */
  lemma {:induction false} ReloginExactlyAfterThree(cfg: Config, w: Session, ops: seq<Op>)
    requires Running(w) && CountOf(w) == Some(0) && OnlyBeats(ops)
    ensures Run(cfg, w, ops).state.loginAttempts > w.state.loginAttempts <==> exists n: nat :: ThirdFailure(ops, n)
  {
    hide Run, Running, CountOf, Tally;
    ReloginExactly(cfg, w, ops);
    if n0: nat :| ThirdFailure(ops, n0) {
      var n := 0;
      while !ThirdFailure(ops, n)
        invariant n <= n0 && forall m: nat | m < n :: !ThirdFailure(ops, m)
        decreases n0 - n
      {
        n := n + 1;
      }
      TallyOfBeats(cfg, ops, n);
      assert DropsAt(cfg, CountOf(w), ops, n);
    } else {
      forall n: nat
        ensures !DropsAt(cfg, CountOf(w), ops, n)
      {
        if n < |ops| {
          TallyOfBeats(cfg, ops, n);
          assert !ThirdFailure(ops, n);
        }
      }
    }
  }

  /** An expired action or an unhealthy session only raises the count: the login is forced only if the next heartbeat fails, a good one clears it. */
  lemma {:induction false} ForcedOnlyByFailingHeartbeat(cfg: Config, w: Session, b: Beat, n: int)
    requires HasSession(w) && !w.stopped && n >= 2
    ensures var r := Heartbeat(cfg, WithFailures(w, n), b);
            && (r.state.loginAttempts > w.state.loginAttempts <==> !b.good)
            && (b.good ==> r.state.heartbeatFailures == 0 && r.captured == w.captured)
  {
    hide LoginFrom, Mirror;
    var bumped := WithFailures(w, n);
    MirrorKeepsRecord(cfg, bumped.(state := bumped.state.(heartbeatFailures := 0, lastHeartbeatAt := Some(b.now))));
    var dropped := WithFailures(w, n + 1).(captured := None, http := false);
    AttemptsGrow(cfg, dropped, [0] + cfg.delays, 0, b.logins);
  }

  // ---------------------------------------------------------------------
  // After a login round has failed
  // ---------------------------------------------------------------------

  /** Without a session nothing happens to a worker any more until it is stopped: only its count of failures is set. */
  lemma {:induction false} ErrorIsFinal(cfg: Config, w: Session, ops: seq<Op>)
    requires !HasSession(w) && forall i | 0 <= i < |ops| :: !ops[i].DoStop?
    ensures Run(cfg, w, ops) == WithFailures(w, Run(cfg, w, ops).state.heartbeatFailures)
  {
    hide MaybeRecover, Mirror, SetStatus;
    if ops != [] {
      ErrorIsFinal(cfg, w, ops[..|ops|-1]);
    }
  }

  // ---------------------------------------------------------------------
  // The gauge of sessions by status
  // ---------------------------------------------------------------------

  /** A new worker is not counted, and each change of status moves one: the gauge shows the status less one for `logging_in`. */
  ghost predicate GaugeOffByOne(w: Session) {
    forall s: SessionStatus ::
      Reading(w.gauge, s) == (if s == w.state.status then 1 else 0) - (if s == LOGGING_IN then 1 else 0)
  }

  lemma {:induction false} StatusMovesGauge(cfg: Config, w: Session, s: SessionStatus)
    requires GaugeOffByOne(w)
    ensures GaugeOffByOne(SetStatus(cfg, w, s))
  {
    hide Mirror, Reading, Moved;
    var moved := w.(state := w.state.(status := s), gauge := Moved(w.gauge, w.state.status, s));
    MirrorKeepsRecord(cfg, moved);
    forall t: SessionStatus
      ensures Reading(moved.gauge, t) == (if t == s then 1 else 0) - (if t == LOGGING_IN then 1 else 0)
    {
      MovedReads(w.gauge, w.state.status, s, t);
    }
  }

  lemma {:induction false} MovedReads(gauge: map<SessionStatus, int>, prev: SessionStatus, s: SessionStatus, t: SessionStatus)
    ensures Reading(Moved(gauge, prev, s), t) == Reading(gauge, t) - (if t == prev then 1 else 0) + (if t == s then 1 else 0)
  {
  }

  lemma {:induction false} LoginMovesGauge(cfg: Config, w: Session, delays: seq<nat>, k: nat, logins: nat -> Login)
    requires GaugeOffByOne(w)
    ensures GaugeOffByOne(LoginFrom(cfg, w, delays, k, logins))
    decreases |delays|
  {
    hide SetStatus, Reading;
    if delays == [] {
      StatusMovesGauge(cfg, w, ERROR);
    } else if !w.stopped {
      var tried := Attempted(Sleep(w, delays[0]));
      match logins(k)
      case LoggedIn(c, now) =>
        StatusMovesGauge(cfg, tried.(captured := Some(c), http := true, state := AdoptedState(tried.state, c, now)), READY);
      case LoginFailed(_) =>
        LoginMovesGauge(cfg, FailedOnce(w, delays[0], logins(k)), delays[1..], k + 1, logins);
    }
  }

  lemma {:induction false} BeatMovesGauge(cfg: Config, w: Session, b: Beat)
    requires GaugeOffByOne(w)
    ensures GaugeOffByOne(Heartbeat(cfg, w, b))
  {
    hide Mirror, LoginFrom, Reading;
    MirrorKeepsRecord(cfg, w.(state := w.state.(heartbeatFailures := 0, lastHeartbeatAt := Some(b.now))));
    var counted := WithFailures(w, w.state.heartbeatFailures + 1);
    LoginMovesGauge(cfg, counted.(captured := None, http := false), [0] + cfg.delays, 0, b.logins);
  }

  lemma {:induction false} ApplyMovesGauge(cfg: Config, w: Session, op: Op)
    requires GaugeOffByOne(w)
    ensures GaugeOffByOne(Apply(cfg, w, op))
  {
    hide Mirror, SetStatus, Heartbeat, Reading;
    match op
    case DoBeat(b) => BeatMovesGauge(cfg, w, b);
    case Bump =>
    case DoPause(_) => StatusMovesGauge(cfg, w, PAUSED);
    case DoResume(_) => StatusMovesGauge(cfg, w, READY);
    case DoOther(_) =>
    case DoCallInfo(a) =>
      MirrorKeepsRecord(cfg, w);
      if a.Info? {
        MirrorKeepsRecord(cfg, w.(state := w.state.(lastCallId := a.uniqueid)));
      }
    case DoStop =>
      StatusMovesGauge(cfg, w.(stopped := true, http := if HasSession(w) then false else w.http), LOGGED_OUT);
  }

  lemma {:induction false} RunMovesGauge(cfg: Config, w: Session, ops: seq<Op>)
    requires GaugeOffByOne(w)
    ensures GaugeOffByOne(Run(cfg, w, ops))
  {
    hide GaugeOffByOne, Apply;
    if ops != [] {
      RunMovesGauge(cfg, w, ops[..|ops|-1]);
      ApplyMovesGauge(cfg, Run(cfg, w, ops[..|ops|-1]), ops[|ops|-1]);
    }
  }

  lemma {:induction false} StartMovesGauge(cfg: Config, w: Session, now: Stamp, b: Beat, logins: nat -> Login)
    requires w.state.status == LOGGING_IN && w.gauge == map[]
    ensures GaugeOffByOne(Start(cfg, w, now, b, logins))
  {
    hide SetStatus, Heartbeat, LoginFrom, Revivable;
    StatusMovesGauge(cfg, w, LOGGING_IN);
    var begun := SetStatus(cfg, w, LOGGING_IN);
    var read := begun.(redis := Next(begun.redis));
    var (resumed, ok) := ResumeFromRedis(cfg, begun, now, b);
    if Revivable(cfg, begun.redis.hash).Some? {
      var c := Revivable(cfg, begun.redis.hash).value;
      StatusMovesGauge(cfg, read.(captured := Some(c), http := true, state := AdoptedState(read.state, c, now)), READY);
      BeatMovesGauge(cfg, Adopt(cfg, read, c, now), b);
    }
    LoginMovesGauge(cfg, resumed, [0] + cfg.delays, 0, logins);
  }

  /** In every run of a new worker the gauge is one too low for `logging_in`: it never shows a session logging in, and -1 once one has logged in. */
  lemma {:induction false} GaugeLaw(cfg: Config, w: Session, now: Stamp, b: Beat, logins: nat -> Login, ops: seq<Op>)
    requires w.state.status == LOGGING_IN && w.gauge == map[]
    ensures GaugeOffByOne(Run(cfg, Start(cfg, w, now, b, logins), ops))
  {
    hide GaugeOffByOne, Start;
    StartMovesGauge(cfg, w, now, b, logins);
    RunMovesGauge(cfg, Start(cfg, w, now, b, logins), ops);
  }
}
