/**
  The in-memory record of a ViciDial session and its form as a Redis hash. Printing and parsing of
  numbers and JSON are taken as given pairs; clock readings are doubles.
 */
module SessionModels {
  import opened Common

  function Pow2(n: nat): nat { if n == 0 then 1 else 2 * Pow2(n - 1) }

  /** Clock readings are counted in parts of a second as fine as the finest double, 2^1074 to the second. */
  const FRACTION_BITS: nat := 1074
  const SECOND: nat := Pow2(FRACTION_BITS)

  /** `x` is the value of a finite double: a whole number below 2^53, shifted. */
  ghost predicate IsDouble(x: int) {
    x == 0 || exists mantissa: int, shift: nat :: Shifted(x, mantissa, shift)
  }

  ghost predicate Shifted(x: int, mantissa: int, shift: nat) {
    -0x20_0000_0000_0000 < mantissa < 0x20_0000_0000_0000 && shift <= 2045 && x == mantissa * Pow2(shift)
  }

  /** A clock reading as Python holds it, a double. */
  type Stamp = x: int | IsDouble(x) witness 0

  const EPOCH: Stamp := 0

  datatype SessionStatus = LOGGING_IN | READY | ON_CALL | PAUSED | ERROR | LOGGED_OUT

  datatype CapturedSession = CapturedSession(
    cookies: map<string, string>, confExten: string, sessionId: string, sessionName: string, userAgent: string)

  datatype SessionState = SessionState(
    deploymentId: string, tenantId: string, viciUser: string, phoneLogin: string, campaign: string,
    status: SessionStatus,
    cookies: map<string, string>, confExten: string, sessionId: string, sessionName: string, userAgent: string,
    lastHeartbeatAt: Option<Stamp>, lastCallId: Option<string>,
    loginAttempts: int, heartbeatFailures: int, lastError: string, createdAt: Stamp)

  /** The keys of the hash. */
  datatype Field =
    | DeploymentId | TenantId | ViciUser | PhoneLogin | Campaign | Status
    | Cookies | ConfExten | SessionId | SessionName | UserAgent
    | LastHeartbeatAt | LastCallId | LoginAttempts | HeartbeatFailures | LastError | CreatedAt

  type Hash = map<Field, string>

  datatype Codec = Codec(
    printTime: Stamp -> string, parseTime: string -> Option<Stamp>,
    printInt: int -> string, parseInt: string -> Option<int>,
    dumps: map<string, string> -> string, loads: string -> Option<map<string, string>>)

  /** Parsing undoes printing, and nothing prints as the empty string. */
  ghost predicate Inverse(c: Codec) {
    && (forall x: Stamp :: c.parseTime(c.printTime(x)) == Some(x) && c.printTime(x) != "")
    && (forall i :: c.parseInt(c.printInt(i)) == Some(i) && c.printInt(i) != "")
    && (forall m :: c.loads(c.dumps(m)) == Some(m) && c.dumps(m) != "")
  }

  function StatusValue(s: SessionStatus): string {
    match s
    case LOGGING_IN => "logging_in"
    case READY => "ready"
    case ON_CALL => "on_call"
    case PAUSED => "paused"
    case ERROR => "error"
    case LOGGED_OUT => "logged_out"
  }

  /** `SessionStatus(value)`; None for its ValueError. */
  function StatusOf(value: string): Option<SessionStatus> {
    if value == "logging_in" then Some(LOGGING_IN)
    else if value == "ready" then Some(READY)
    else if value == "on_call" then Some(ON_CALL)
    else if value == "paused" then Some(PAUSED)
    else if value == "error" then Some(ERROR)
    else if value == "logged_out" then Some(LOGGED_OUT)
    else None
  }

  lemma {:induction false} StatusRoundTrip(s: SessionStatus)
    ensures StatusOf(StatusValue(s)) == Some(s)
  {
    var v := StatusValue(s);
    match s
    case LOGGING_IN =>
    case READY => assert |v| == 5;
    case ON_CALL => assert |v| == 7;
    case PAUSED => assert |v| == 6;
    case ERROR => assert |v| == 5 && v[0] == 'e';
    case LOGGED_OUT => assert |v| == 10 && v[4] == 'e';
  }

  /** One value of the hash: None becomes the empty string. */
  function Printed(c: Codec, s: SessionState, f: Field): string {
    match f
    case DeploymentId => s.deploymentId
    case TenantId => s.tenantId
    case ViciUser => s.viciUser
    case PhoneLogin => s.phoneLogin
    case Campaign => s.campaign
    case Status => StatusValue(s.status)
    case Cookies => c.dumps(s.cookies)
    case ConfExten => s.confExten
    case SessionId => s.sessionId
    case SessionName => s.sessionName
    case UserAgent => s.userAgent
    case LastHeartbeatAt => if s.lastHeartbeatAt.None? then "" else c.printTime(s.lastHeartbeatAt.value)
    case LastCallId => if s.lastCallId.None? then "" else s.lastCallId.value
    case LoginAttempts => c.printInt(s.loginAttempts)
    case HeartbeatFailures => c.printInt(s.heartbeatFailures)
    case LastError => s.lastError
    case CreatedAt => c.printTime(s.createdAt)
  }

  /** `to_redis_payload`. */
  function ToRedis(c: Codec, s: SessionState): (h: Hash)
    ensures forall f: Field :: f in h && h[f] == Printed(c, s, f)
  {
    map f: Field | true :: Printed(c, s, f)
  }

  function Get(h: Hash, f: Field, default: string): string { if f in h then h[f] else default }

  /** `int(data.get(f) or 0)`; None for its ValueError. */
  function IntAt(c: Codec, h: Hash, f: Field): Option<int> {
    if Get(h, f, "") == "" then Some(0) else c.parseInt(h[f])
  }

  function CookiesAt(c: Codec, h: Hash): map<string, string> {
    var raw := Get(h, Cookies, "");
    var parsed := c.loads(if raw == "" then "{}" else raw);
    if parsed.Some? then parsed.value else map[]
  }

  /** The optional time of the last heartbeat; the outer None for a ValueError. */
  function HeartbeatAt(c: Codec, h: Hash): Option<Option<Stamp>> {
    if Get(h, LastHeartbeatAt, "") == "" then Some(None)
    else
      var parsed := c.parseTime(h[LastHeartbeatAt]);
      if parsed.None? then None else Some(Some(parsed.value))
  }

  function CreatedAtOf(c: Codec, h: Hash): Option<Stamp> {
    if Get(h, CreatedAt, "") == "" then Some(EPOCH) else c.parseTime(h[CreatedAt])
  }

  /** `from_redis_payload`; None when it raises. */
  function FromRedis(c: Codec, h: Hash): Option<SessionState> {
    var status := StatusOf(Get(h, Status, StatusValue(LOGGING_IN)));
    var beat := HeartbeatAt(c, h);
    var attempts, failures, created := IntAt(c, h, LoginAttempts), IntAt(c, h, HeartbeatFailures), CreatedAtOf(c, h);
    if status.None? || beat.None? || attempts.None? || failures.None? || created.None? then None
    else Some(SessionState(
      Get(h, DeploymentId, ""), Get(h, TenantId, ""), Get(h, ViciUser, ""), Get(h, PhoneLogin, ""), Get(h, Campaign, ""),
      status.value, CookiesAt(c, h), Get(h, ConfExten, ""), Get(h, SessionId, ""), Get(h, SessionName, ""),
      Get(h, UserAgent, ""), beat.value, if Get(h, LastCallId, "") == "" then None else Some(h[LastCallId]),
      attempts.value, failures.value, Get(h, LastError, ""), created.value))
  }

  lemma {:induction false} NumbersComeBack(c: Codec, x: Stamp, i: int, m: map<string, string>)
    requires Inverse(c)
    ensures c.parseTime(c.printTime(x)) == Some(x) && c.printTime(x) != ""
    ensures c.parseInt(c.printInt(i)) == Some(i) && c.printInt(i) != ""
    ensures c.loads(c.dumps(m)) == Some(m) && c.dumps(m) != ""
  {
  }

  lemma {:induction false} HeartbeatComesBack(c: Codec, s: SessionState)
    requires Inverse(c)
    ensures HeartbeatAt(c, ToRedis(c, s)) == Some(s.lastHeartbeatAt)
    ensures CreatedAtOf(c, ToRedis(c, s)) == Some(s.createdAt)
  {
    if s.lastHeartbeatAt.Some? {
      NumbersComeBack(c, s.lastHeartbeatAt.value, 0, map[]);
    }
    NumbersComeBack(c, s.createdAt, 0, map[]);
    hide Inverse;
  }

  lemma {:induction false} CountsComeBack(c: Codec, s: SessionState)
    requires Inverse(c)
    ensures IntAt(c, ToRedis(c, s), LoginAttempts) == Some(s.loginAttempts)
    ensures IntAt(c, ToRedis(c, s), HeartbeatFailures) == Some(s.heartbeatFailures)
    ensures CookiesAt(c, ToRedis(c, s)) == s.cookies
  {
    NumbersComeBack(c, EPOCH, s.loginAttempts, s.cookies);
    NumbersComeBack(c, EPOCH, s.heartbeatFailures, s.cookies);
    hide Inverse;
  }

  ghost predicate PlainFields(h: Hash, s: SessionState) {
    && Get(h, DeploymentId, "") == s.deploymentId && Get(h, TenantId, "") == s.tenantId
    && Get(h, ViciUser, "") == s.viciUser && Get(h, PhoneLogin, "") == s.phoneLogin && Get(h, Campaign, "") == s.campaign
    && Get(h, ConfExten, "") == s.confExten && Get(h, SessionId, "") == s.sessionId
    && Get(h, SessionName, "") == s.sessionName && Get(h, UserAgent, "") == s.userAgent
    && Get(h, LastError, "") == s.lastError
    && Get(h, LastCallId, "") == (if s.lastCallId.None? then "" else s.lastCallId.value)
    && (LastCallId in h ==> h[LastCallId] == Get(h, LastCallId, ""))
  }

  lemma {:induction false} PlainFieldsComeBack(c: Codec, s: SessionState)
    ensures PlainFields(ToRedis(c, s), s)
    ensures Get(ToRedis(c, s), Status, StatusValue(LOGGING_IN)) == StatusValue(s.status)
  {
    hide StatusValue;
  }

  lemma {:induction false} Assembled(c: Codec, h: Hash, s: SessionState)
    requires PlainFields(h, s) && StatusOf(Get(h, Status, StatusValue(LOGGING_IN))) == Some(s.status)
    requires HeartbeatAt(c, h) == Some(s.lastHeartbeatAt) && CreatedAtOf(c, h) == Some(s.createdAt)
    requires IntAt(c, h, LoginAttempts) == Some(s.loginAttempts) && IntAt(c, h, HeartbeatFailures) == Some(s.heartbeatFailures)
    requires CookiesAt(c, h) == s.cookies
    ensures FromRedis(c, h) == Some(if s.lastCallId == Some("") then s.(lastCallId := None) else s)
  {
    hide StatusOf, StatusValue, HeartbeatAt, IntAt, CreatedAtOf, CookiesAt;
  }

  /** A record comes back from its hash exactly when its last call id is not the empty string, which reads back as None. */
  lemma {:induction false} RoundTripExactly(c: Codec, s: SessionState)
    requires Inverse(c)
    ensures FromRedis(c, ToRedis(c, s)) == Some(s) <==> s.lastCallId != Some("")
    ensures FromRedis(c, ToRedis(c, s)) == Some(if s.lastCallId == Some("") then s.(lastCallId := None) else s)
  {
    hide *;
    StatusRoundTrip(s.status);
    PlainFieldsComeBack(c, s);
    HeartbeatComesBack(c, s);
    CountsComeBack(c, s);
    Assembled(c, ToRedis(c, s), s);
  }

  // ---------------------------------------------------------------------
  // There are conversions of this kind
  // ---------------------------------------------------------------------

  function Digit(d: nat): char
    requires d < 10
  {
    ('0' as int + d) as char
  }

  function PrintNat(n: nat): (s: string)
    ensures s != ""
  {
    if n < 10 then [Digit(n)] else PrintNat(n / 10) + [Digit(n % 10)]
  }

  function ParseNat(s: string): Option<nat> {
    if s == "" then None
    else
      var last := s[|s|-1];
      if !('0' <= last <= '9') then None
      else
        var d: nat := last as int - '0' as int;
        if |s| == 1 then Some(d)
        else
          match ParseNat(s[..|s|-1])
          case None => None
          case Some(n) => Some(10 * n + d)
  }

  lemma {:induction false} NatComesBack(n: nat)
    ensures ParseNat(PrintNat(n)) == Some(n)
  {
    if n >= 10 {
      NatComesBack(n / 10);
      var s := PrintNat(n);
      assert s[..|s|-1] == PrintNat(n / 10) && s[|s|-1] == Digit(n % 10);
    }
  }

  function PrintInt(i: int): string { if i < 0 then "-" + PrintNat(-i) else PrintNat(i) }

  function ParseInt(s: string): Option<int> {
    var negative := s != "" && s[0] == '-';
    var size := ParseNat(if negative then s[1..] else s);
    if size.None? then None
    else
      var i: int := if negative then -1 * size.value else size.value;
      Some(i)
  }

  lemma {:induction false} FirstDigit(n: nat)
    ensures PrintNat(n)[0] != '-'
  {
    if n >= 10 {
      FirstDigit(n / 10);
    }
  }

  lemma {:induction false} IntComesBack(i: int)
    ensures ParseInt(PrintInt(i)) == Some(i) && PrintInt(i) != ""
  {
    if i < 0 {
      NatComesBack(-i);
      assert PrintInt(i)[1..] == PrintNat(-i);
    } else {
      NatComesBack(i);
      FirstDigit(i);
    }
  }

  ghost function ParseStamp(s: string): Option<Stamp> {
    var i := ParseInt(s);
    if i.Some? && IsDouble(i.value) then Some(i.value) else None
  }

  /** A text in which the end of a string is marked, so that strings can follow each other. */
  function Marked(s: string): string { if s == "" then "." else [','] + [s[0]] + Marked(s[1..]) }

  /** The string a text begins with, and the text after it. */
  function Unmark(t: string): (r: Option<(string, string)>)
    ensures r.Some? ==> |r.value.1| < |t|
  {
    if t == "" then None
    else if t[0] == '.' then Some(("", t[1..]))
    else if |t| < 2 then None
    else
      match Unmark(t[2..])
      case None => None
      case Some((s, rest)) => Some(([t[1]] + s, rest))
  }

  lemma {:induction false} MarkedComesBack(s: string, rest: string)
    ensures Unmark(Marked(s) + rest) == Some((s, rest))
  {
    var t := Marked(s) + rest;
    if s == "" {
      assert t[1..] == rest;
    } else {
      MarkedComesBack(s[1..], rest);
      assert t == [','] + [s[0]] + (Marked(s[1..]) + rest);
      assert t[2..] == Marked(s[1..]) + rest;
      assert [s[0]] + s[1..] == s;
    }
  }

  function Loads(t: string): Option<map<string, string>>
    decreases |t|
  {
    if t == "." then Some(map[])
    else
      match Unmark(t)
      case None => None
      case Some((key, more)) =>
        match Unmark(more)
        case None => None
        case Some((value, rest)) =>
          match Loads(rest)
          case None => None
          case Some(m) => Some(m[key := value])
  }

  /** Every map has a text. */
  lemma {:induction false} SomeText(m: map<string, string>) returns (t: string)
    ensures t != "" && Loads(t) == Some(m)
  {
    if m == map[] {
      t := ".";
    } else {
      var key :| key in m;
      var others := m - {key};
      assert others.Keys == m.Keys - {key};
      var rest := SomeText(others);
      t := Marked(key) + (Marked(m[key]) + rest);
      MarkedComesBack(key, Marked(m[key]) + rest);
      MarkedComesBack(m[key], rest);
      assert others[key := m[key]] == m;
      assert t != "." by {
        assert |Marked(m[key]) + rest| > 0 && |Marked(key)| > 0;
      }
    }
  }

  ghost predicate IsText(m: map<string, string>, t: string) { t != "" && Loads(t) == Some(m) }

  ghost function Dumps(m: map<string, string>): string {
    SomeTextExists(m);
    var t :| IsText(m, t);
    t
  }

  lemma {:induction false} SomeTextExists(m: map<string, string>)
    ensures exists t :: IsText(m, t)
  {
    var t := SomeText(m);
    assert IsText(m, t);
  }

  ghost function SomeCodec(): Codec {
    Codec(x => PrintInt(x), ParseStamp, PrintInt, ParseInt, Dumps, Loads)
  }

  lemma {:induction false} SomeCodecOnStamps(x: Stamp)
    ensures SomeCodec().parseTime(SomeCodec().printTime(x)) == Some(x) && SomeCodec().printTime(x) != ""
  {
    hide PrintInt, ParseInt, IsDouble;
    IntComesBack(x);
  }

  lemma {:induction false} SomeCodecOnInts(i: int)
    ensures SomeCodec().parseInt(SomeCodec().printInt(i)) == Some(i) && SomeCodec().printInt(i) != ""
  {
    hide PrintInt, ParseInt;
    IntComesBack(i);
  }

  lemma {:induction false} SomeCodecOnCookies(m: map<string, string>)
    ensures SomeCodec().loads(SomeCodec().dumps(m)) == Some(m) && SomeCodec().dumps(m) != ""
  {
    hide Loads;
    SomeTextExists(m);
    assert IsText(m, Dumps(m));
  }

  /** Inverse conversions exist for doubles, integers and cookies: the round trips are not empty promises. */
  lemma {:induction false} InverseExists()
    ensures Inverse(SomeCodec())
  {
    hide SomeCodec;
    forall x: Stamp
      ensures SomeCodec().parseTime(SomeCodec().printTime(x)) == Some(x) && SomeCodec().printTime(x) != ""
    {
      SomeCodecOnStamps(x);
    }
    forall i: int
      ensures SomeCodec().parseInt(SomeCodec().printInt(i)) == Some(i) && SomeCodec().printInt(i) != ""
    {
      SomeCodecOnInts(i);
    }
    forall m: map<string, string>
      ensures SomeCodec().loads(SomeCodec().dumps(m)) == Some(m) && SomeCodec().dumps(m) != ""
    {
      SomeCodecOnCookies(m);
    }
  }
}
