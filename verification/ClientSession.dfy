/** fileee/transport.go and fileee/auth.go as one goroutine runs them: RoundTrip's retry loop, the re-auth
    handshake that goes through the same RoundTrip, EnsureSession with its freshness window, Logout and a
    service call. The answers of limiter, server and session store are arbitrary; other goroutines may
    publish re-auths, mark the session fresh and let time pass whenever this one does not hold the mutex. */
module ClientSession {
  import opened Backoff
  import opened CookieJar
  import opened Integers
  import opened Optional
  import opened RoundTripSpec
  import opened RoundTripTrace

  datatype Error =
    | StoreFailed
    | Blocked(seconds: int)
    | SessionExpired
    | SessionLost(cause: Error)
    | InvalidCredentials
    | TwoFactorInvalid
    | TotpFailed
    | RequestFailed
    | ReadFailed
    | NotFound
    | Rejected(status: int)
    | Undecodable

  datatype Result = Ok | Err(error: Error)

  /** errors.Is(err, ErrSessionExpired). */
  predicate IsSessionExpired(e: Error) {
    e.SessionExpired? || e.SessionLost?
  }

  /** errors.As(err, &apiErr). */
  function ApiStatus(e: Error): Option<int> {
    match e
    case Rejected(status) => Some(status)
    case SessionLost(cause) => ApiStatus(cause)
    case _ => None
  }

  /** What the body of a response gives: whether it can be read, the wire structs of existent and user-session
      if it decodes to them, and whether it decodes to the entity asked for. */
  datatype Body = Body(readable: bool, existence: Option<Existence>, session: Option<SessionInfo>, entity: bool)

  datatype Existence = Existence(existent: bool, twoFactor: bool)

  datatype SessionInfo = SessionInfo(authorized: bool, secondsBlocked: real)

  /** One call of http.Client.Do and what came of it. */
  datatype Call = Call(marked: bool, endpoint: string, verb: string, out: Outcome, body: Body)

  // ---------------------------------------------------------------- what the answers of the server entail

  predicate TokenLoginSays(c: Call, res: Result) {
    && c.endpoint == "/api/f/token/login" && c.verb == "POST"
    && (c.out.Failed? ==> res == Err(RequestFailed))
    && (c.out.Returned? && c.out.code != 200 ==> res == Err(Rejected(c.out.code)))
    && (c.out == Returned(200) ==> res == Ok || res == Err(StoreFailed))
  }

  predicate PostLoginSays(c: Call, twoFactor: bool, res: Result) {
    && c.endpoint == "/api/f/login" && c.verb == "POST"
    && (c.out.Failed? ==> res == Err(RequestFailed))
    && (c.out.Returned? && !c.body.readable ==> res == Err(ReadFailed))
    && (c.out == Returned(200) && c.body.readable ==> res == Ok || res == Err(StoreFailed))
    && (c.out in {Returned(401), Returned(403)} && c.body.readable ==>
          res == Err(if twoFactor then TwoFactorInvalid else InvalidCredentials))
    && (c.out.Returned? && c.out.code !in {200, 401, 403} && c.body.readable ==> res == Err(Rejected(c.out.code)))
  }

  /** Why the handshake ends with the answer to existent; None if the password is sent. */
  function ExistentRefusal(c: Call, totpSeed: string, totpValid: bool): Option<Error> {
    if c.out.Failed? then Some(RequestFailed)
    else if !c.body.readable then Some(ReadFailed)
    else if c.out.code != 200 then Some(Rejected(c.out.code))
    else match c.body.existence
      case None => Some(Undecodable)
      case Some(Existence(false, _)) => Some(InvalidCredentials)
      case Some(Existence(true, false)) => None
      case Some(Existence(true, true)) =>
        if totpSeed == "" then Some(TwoFactorInvalid) else if totpValid then None else Some(TotpFailed)
  }

  predicate LoginSays(cs: seq<Call>, totpSeed: string, totpValid: bool, res: Result) {
    && cs != [] && cs[0].endpoint == "/api/f/start" && cs[0].verb == "GET"
    && if cs[0].out.Failed? then |cs| == 1 && res == Err(RequestFailed)
       else
         && |cs| >= 2 && cs[1].endpoint == "/api/f/existent" && cs[1].verb == "POST"
         && match ExistentRefusal(cs[1], totpSeed, totpValid)
            case Some(error) => |cs| == 2 && res == Err(error)
            case None => |cs| == 3 && PostLoginSays(cs[2], cs[1].body.existence.value.twoFactor, res)
  }

  /** reauthenticate wraps the error of the login. */
  predicate FullLoginSays(cs: seq<Call>, totpSeed: string, totpValid: bool, res: Result) {
    if res.Ok? then LoginSays(cs, totpSeed, totpValid, Ok)
    else res.error.SessionLost? && LoginSays(cs, totpSeed, totpValid, Err(res.error.cause))
  }

  /** With a token, token/login comes first; unless it is accepted and the session stored, the full login
      follows. */
  predicate ReauthSays(hasToken: bool, cs: seq<Call>, totpSeed: string, totpValid: bool, res: Result) {
    if !hasToken then FullLoginSays(cs, totpSeed, totpValid, res)
    else
      && cs != [] && cs[0].endpoint == "/api/f/token/login" && cs[0].verb == "POST"
      && if |cs| == 1 then cs[0].out == Returned(200) && res.Ok?
         else FullLoginSays(cs[1..], totpSeed, totpValid, res)
  }

  /** A re-auth succeeds only if token/login or login, as the last request of it, answered 200; and it fails
      after a readable 200 of login only if the session could not be stored. */
  lemma ReauthSucceedsOnly200(hasToken: bool, cs: seq<Call>, totpSeed: string, totpValid: bool, res: Result)
    requires ReauthSays(hasToken, cs, totpSeed, totpValid, res)
    ensures res.Ok? ==>
              cs != [] && Last(cs).out == Returned(200)
              && Last(cs).endpoint in {"/api/f/token/login", "/api/f/login"}
    ensures (cs != [] && Last(cs).endpoint == "/api/f/login" && Last(cs).out == Returned(200)
             && Last(cs).body.readable && res.Err?) ==> res == Err(SessionLost(StoreFailed))
  {
    if hasToken && |cs| > 1 {
      assert Last(cs[1..]) == Last(cs);
    }
  }

  predicate ProbeSays(c: Call, probe: Probe) {
    && c.endpoint == "/api/f/user-session" && c.verb == "GET"
    && (c.out.Failed? ==> probe == Unseen(RequestFailed))
    && (c.out.Returned? && !c.body.readable ==> probe == Unseen(ReadFailed))
    && (c.out.Returned? && c.out.code != 200 && c.body.readable ==> probe == Unseen(Rejected(c.out.code)))
    && (c.out == Returned(200) && c.body.readable ==>
          match c.body.session
          case None => probe == Unseen(Undecodable)
          case Some(info) => probe == Seen(info.authorized, info.secondsBlocked))
  }

  /** The server accepts the session. */
  predicate Authorized(c: Call) {
    && c.out == Returned(200) && c.body.readable
    && c.body.session.Some? && c.body.session.value.authorized
  }

  predicate IsBlocked(c: Call)
    requires Authorized(c)
  {
    c.body.session.value.secondsBlocked > 0.0
  }

  /** A blocked account is an error with the whole seconds left. */
  predicate VerifiedSays(c: Call, res: Result)
    requires Authorized(c)
  {
    if IsBlocked(c) then
      && res.Err? && res.error.Blocked?
      && res.error.seconds as real <= c.body.session.value.secondsBlocked < (res.error.seconds + 1) as real
    else res == Ok
  }

  predicate GetSays(c: Call, res: Result) {
    && (c.out.Failed? ==> res == Err(RequestFailed))
    && (c.out.Returned? && !c.body.readable ==> res == Err(ReadFailed))
    && (c.out == Returned(404) && c.body.readable ==> res == Err(NotFound))
    && (c.out.Returned? && c.out.code !in {200, 404} && c.body.readable ==> res == Err(Rejected(c.out.code)))
    && (c.out == Returned(200) && c.body.readable ==> res == if c.body.entity then Ok else Err(Undecodable))
  }

  datatype Probe = Seen(authorized: bool, secondsBlocked: real) | Unseen(error: Error)

  /** How EnsureSession came to its result. */
  datatype Path = Skipped | Probed | Reauthenticated | GaveUp

  /** Go's zero time.Time: no clock reads before it. */
  const ZERO_TIME: int := 0

  /** What an attempt hands to the base transport: the x-xsrf-token header and the Cookie header. */
  datatype Sent = Sent(token: Option<string>, cookies: seq<Cookie>)

  /** The methods that injectXSRF gives a token. */
  predicate IsMutating(verb: string) { verb == "POST" || verb == "PUT" || verb == "DELETE" }

  function XsrfHeader(verb: string, jar: Jar, base: string): Option<string> {
    if IsMutating(verb) then Lookup(jar, ApiScope(base), "XSRF-TOKEN") else None
  }

  ghost predicate TokenBelowRoot(jar: Jar, base: string) {
    exists path :: IsLongest(jar, ApiScope(base), "rememberMe", path) && path != "/"
                   && jar[Key("rememberMe", path)] != ""
  }

  /** The step machine can get to f. */
  ghost predicate Reaches(cfg: Config, skip: bool, f: Frame) {
    f.skip == skip && exists tr :: Run(cfg, skip, tr) == Some(f)
  }

  lemma Started(cfg: Config, skip: bool)
    ensures Reaches(cfg, skip, Init(skip))
  {
    assert Run(cfg, skip, []) == Some(Init(skip));
  }

  lemma Take(cfg: Config, skip: bool, f: Frame, e: Event) returns (g: Frame)
    requires Reaches(cfg, skip, f) && Step(cfg, f, e).Some?
    ensures Reaches(cfg, skip, g) && Step(cfg, f, e) == Some(g)
  {
    var tr :| Run(cfg, skip, tr) == Some(f);
    g := Step(cfg, f, e).value;
    StepsAppend(cfg, Init(skip), tr, [e]);
    Unfold(cfg, f, [e]);
    assert Run(cfg, skip, tr + [e]) == Some(g);
  }

  predicate Retried(cfg: Config, f: Frame, answer: Answer) {
    match answer
    case NetworkError => cfg.policy.ShouldRetry(f.attempt, None, true)
    case Status(code) =>
      (code == 429 || code >= 500) && cfg.policy.ShouldRetry(f.attempt, Some(code), false)
  }

  predicate Forbidden(cfg: Config, f: Frame, answer: Answer) {
    answer.Status? && Eligible(cfg, f, answer.code)
  }

  /** The three ways a loop round goes on after the base transport answered. */
  lemma RoundEnds(cfg: Config, skip: bool, f: Frame, answer: Answer) returns (g: Frame)
    requires Reaches(cfg, skip, f) && f.pc.Sending?
    requires !Retried(cfg, f, answer) && !Forbidden(cfg, f, answer)
    ensures Reaches(cfg, skip, g)
    ensures g.pc == Finished(if answer.NetworkError? then Failed(Network) else Returned(answer.code))
    ensures g.sends == f.sends + 1 && g.waits == f.waits && g.reauthed == f.reauthed && g.attempt == f.attempt
    ensures g.slept == f.slept && g.answers == f.answers + [answer]
  {
    g := Take(cfg, skip, f, Answered(answer));
  }

  lemma RoundRetries(cfg: Config, skip: bool, f: Frame, answer: Answer, delay: int) returns (g: Frame)
    requires Reaches(cfg, skip, f) && f.pc.Sending?
    requires Retried(cfg, f, answer) && !Forbidden(cfg, f, answer) && cfg.policy.PossibleDelay(f.attempt, delay)
    ensures Reaches(cfg, skip, g) && g.pc == Waiting && g.attempt == f.attempt + 1
    ensures g.sends == f.sends + 1 && g.waits == f.waits && g.reauthed == f.reauthed && g.skip == f.skip
    ensures Sum(g.slept) == Sum(f.slept) + delay && g.answers == f.answers + [answer]
  {
    g := Take(cfg, skip, f, Answered(answer));
    g := Take(cfg, skip, g, Slept(delay));
    assert (f.slept + [delay])[..|f.slept|] == f.slept;
  }

  lemma RoundForbidden(cfg: Config, skip: bool, f: Frame, answer: Answer) returns (g: Frame)
    requires Reaches(cfg, skip, f) && f.pc.Sending? && Forbidden(cfg, f, answer)
    ensures Reaches(cfg, skip, g) && g.pc == Locking && g.reauthed && g.attempt == f.attempt
    ensures g.sends == f.sends + 1 && g.waits == f.waits && g.skip == f.skip && g.snap == f.snap && g.slept == f.slept
    ensures g.answers == f.answers + [answer]
  {
    g := Take(cfg, skip, f, Answered(answer));
  }

  /** The section under the mutex, given the epoch found there and what the callback returned. */
  lemma ReauthSection(cfg: Config, skip: bool, f: Frame, epoch: nat, ok: bool) returns (g: Frame)
    requires Reaches(cfg, skip, f) && f.pc == Locking && (epoch != f.snap ==> ok)
    ensures Reaches(cfg, skip, g)
    ensures g.pc == if ok then Waiting else Finished(Failed(ReauthFailed))
    ensures g.attempt == f.attempt && g.reauthed == f.reauthed && g.skip == f.skip
    ensures g.sends == f.sends && g.waits == f.waits && g.slept == f.slept && g.answers == f.answers
  {
    g := LockAndCompare(cfg, skip, f, epoch);
    if epoch == f.snap {
      g := CallbackReturns(cfg, skip, g, ok);
    }
    g := Take(cfg, skip, g, Unlocked);
  }

  lemma LockAndCompare(cfg: Config, skip: bool, f: Frame, epoch: nat) returns (g: Frame)
    requires Reaches(cfg, skip, f) && f.pc == Locking
    ensures Reaches(cfg, skip, g) && g == f.(pc := if epoch == f.snap then Reauthing else Unlocking(true))
  {
    g := Take(cfg, skip, f, Locked);
    g := Take(cfg, skip, g, Compared(epoch));
  }

  lemma CallbackReturns(cfg: Config, skip: bool, f: Frame, ok: bool) returns (g: Frame)
    requires Reaches(cfg, skip, f) && f.pc == Reauthing
    ensures Reaches(cfg, skip, g) && g == f.(pc := Unlocking(ok))
  {
    g := Take(cfg, skip, f, Reauthed(ok));
    if ok {
      g := Take(cfg, skip, g, Published);
    }
  }

  /** What the invariant of the machine leaves room for. */
  lemma Room(cfg: Config, skip: bool, f: Frame)
    requires Reaches(cfg, skip, f)
    ensures f.skip == skip && Left(cfg, f) >= 0
    ensures f.sends <= f.waits && f.sends <= cfg.policy.Budget() + 2
    ensures skip || !f.reauthed ==> f.sends <= cfg.policy.Budget() + 1
    ensures |f.answers| == f.sends
  {
    var tr :| Run(cfg, skip, tr) == Some(f);
    RunKeepsInv(cfg, skip, tr);
    SendsBounded(cfg, f);
  }

  lemma Explained(cfg: Config, skip: bool, f: Frame)
    requires Reaches(cfg, skip, f) && f.pc.Finished?
    ensures Explains(cfg, skip, f.answers, f.pc.out)
  {
    var tr :| Run(cfg, skip, tr) == Some(f);
    OutcomeExplained(cfg, skip, tr);
  }

  class Client {
    const cfg: Config
    const freshness: int
    const totpSeed: string

    /** totp.GenerateCode accepts the seed. */
    const totpValid: bool

    /** The path of the base URL. */
    const base: string

    var reauthEpoch: nat
    var reauthMuHeld: bool
    var jar: Jar
    var stored: Option<seq<Cookie>>
    var clock: int
    var verifiedUntil: int

    /** What the base transport answered to this goroutine's requests, those marked by withSkipReauth and the
        others; the limiter waits it was granted, the calls it made, and when anybody, or this goroutine
        itself, last recorded a successful probe or re-auth. */
    ghost var markedWire: seq<Answer>
    ghost var plainWire: seq<Answer>
    ghost var waits: nat
    ghost var calls: seq<Call>
    ghost var lastVerified: Option<int>
    ghost var ownVerified: Option<int>

    /** The epoch counts what this goroutine published and what the others did. */
    ghost var ownPublished: nat
    ghost var othersPublished: nat

    ghost predicate Valid()
      reads this
    {
      && cfg.policy.MaxDelay >= -1
      && cfg.canReauth
      && IsUrlPath(base)
      && ZERO_TIME <= clock
      && (lastVerified.Some? ==> freshness > 0 && ZERO_TIME <= lastVerified.value <= clock)
      && verifiedUntil == (if lastVerified.None? then ZERO_TIME else lastVerified.value + freshness)
      && reauthEpoch == ownPublished + othersPublished
    }

    constructor (policy: Policy, freshness: int, totpSeed: string, totpValid: bool, base: string, now: int)
      requires policy.MaxDelay >= -1 && now >= ZERO_TIME && IsUrlPath(base)
      ensures Valid() && !reauthMuHeld && lastVerified.None?
    {
      cfg, this.freshness, this.base := Config(policy, true), freshness, base;
      this.totpSeed, this.totpValid := totpSeed, totpValid;
      reauthEpoch, reauthMuHeld, jar, stored := 0, false, EMPTY, None;
      clock, verifiedUntil := now, ZERO_TIME;
      markedWire, plainWire, waits, calls := [], [], 0, [];
      lastVerified, ownVerified, ownPublished, othersPublished := None, None, 0, 0;
    }

    predicate IsFresh()
      reads this
    {
      freshness > 0 && clock < verifiedUntil
    }

    method MarkFresh()
      requires Valid()
      modifies this`verifiedUntil, this`lastVerified, this`ownVerified
      ensures Valid() && verifiedUntil >= old(verifiedUntil)
      ensures if freshness > 0 then
                lastVerified == Some(clock) && ownVerified == lastVerified && verifiedUntil == clock + freshness
              else unchanged(this)
    {
      if freshness <= 0 {
        return;
      }
      verifiedUntil := clock + freshness;
      lastVerified, ownVerified := Some(clock), Some(clock);
    }

    /** What other goroutines may do meanwhile. */
    method Others()
      requires Valid()
      modifies this`clock, this`reauthEpoch, this`othersPublished, this`verifiedUntil, this`lastVerified
      ensures Kept(old(reauthMuHeld), old(clock), old(verifiedUntil), old(reauthEpoch), old(lastVerified))
      ensures lastVerified == old(lastVerified) || lastVerified == Some(clock)
    {
      var passed: nat, published: nat, marked: bool := *, *, *;
      clock := clock + passed;
      if !reauthMuHeld {
        reauthEpoch, othersPublished := reauthEpoch + published, othersPublished + published;
      }
      if marked && freshness > 0 {
        verifiedUntil, lastVerified := clock + freshness, Some(clock);
      }
    }

    method Sleep(delay: nat)
      requires Valid()
      modifies this`clock
      ensures Valid() && clock == old(clock) + delay
    {
      clock := clock + delay;
    }

    /** The mutex is as it was, clock, freshness window and epoch have only moved forward, nobody else
        publishes a re-auth while this goroutine holds the mutex, and a new verification is no older than
        the state compared with. */
    ghost predicate Kept(held0: bool, clock0: int, until0: int, epoch0: nat, last0: Option<int>)
      reads this
    {
      && Valid()
      && reauthMuHeld == held0
      && clock0 <= clock && until0 <= verifiedUntil && epoch0 <= reauthEpoch
      && (held0 ==> reauthEpoch == epoch0)
      && (lastVerified == last0 || (lastVerified.Some? && clock0 <= lastVerified.value <= clock))
    }

    /** At most n requests more reached the base transport, each with a limiter wait of its own. */
    ghost predicate Spent(n: nat, sends0: nat, waits0: nat)
      reads this
    {
      sends0 <= Sends() <= sends0 + n && Sends() - sends0 <= waits - waits0
    }

    ghost function Wire(marked: bool): seq<Answer>
      reads this
    {
      if marked then markedWire else plainWire
    }

    /** How many requests were handed to the base transport. */
    ghost function Sends(): nat
      reads this
    {
      |markedWire| + |plainWire|
    }

    /** The calls made since are all marked. */
    ghost predicate MarkedCalls(calls0: seq<Call>)
      reads this
    {
      calls0 <= calls && forall i :: |calls0| <= i < |calls| ==> calls[i].marked
    }

    /** One more call was made. */
    ghost predicate OneCall(calls0: seq<Call>)
      reads this
    {
      |calls| == |calls0| + 1 && calls0 <= calls && Last(calls).marked
    }

    ghost predicate HasToken()
      reads this
    {
      Lookup(jar, ApiScope(base), "rememberMe") !in {None, Some("")}
    }

    ghost predicate HasSession()
      reads this
    {
      stored.Some? && stored.value != []
    }

    /** These calls are a re-auth, with or without a token. */
    predicate Reauthed(cs: seq<Call>, res: Result) {
      ReauthSays(true, cs, totpSeed, totpValid, res) || ReauthSays(false, cs, totpSeed, totpValid, res)
    }

    function OneRequest(): nat { cfg.policy.Budget() + 1 }

    /** RoundTrip (transport.go:152-234). It ends in a frame that the step machine reaches and that is
        finished with the same outcome, and the time it slept has passed. `cookies` is the Cookie header, which
        http.Client put on before and every attempt repeats; the token is read anew for each. So on the last
        attempt the two agree exactly when the XSRF cookie the request saw at first is the one the jar has for
        the handshake path now: a re-auth that changed it breaks the double submit. */
    method RoundTrip(skip: bool, verb: string, path: string, cookies: seq<Cookie>)
      returns (out: Outcome, sent: seq<Sent>, ghost f: Frame)
      requires Valid() && (!skip ==> !reauthMuHeld) && Lists(jar, path, cookies)
      modifies this
      ensures Kept(old(reauthMuHeld), old(clock), old(verifiedUntil), old(reauthEpoch), old(lastVerified))
      ensures ownVerified == old(ownVerified)
      ensures Reaches(cfg, skip, f) && f.pc == Finished(out) && |sent| == f.sends
      ensures forall r :: r in sent ==> r.cookies == cookies
      ensures out.Returned? ==> sent != [] && sent[|sent| - 1].token == XsrfHeader(verb, jar, base)
      ensures out.Returned? && IsMutating(verb) ==>
                (FirstValue(sent[|sent| - 1].cookies, "XSRF-TOKEN") == sent[|sent| - 1].token
                 <==> old(Lookup(jar, path, "XSRF-TOKEN")) == Lookup(jar, ApiScope(base), "XSRF-TOKEN"))
      ensures Spent((if skip then 1 else 5) * OneRequest() + (if skip then 0 else 1), old(Sends()), old(waits))
      ensures Wire(skip) == old(Wire(skip)) + f.answers && Explains(cfg, skip, f.answers, out)
      ensures clock >= old(clock) + Sum(f.slept)
      ensures out.Returned? ==> f.answers != [] && Last(f.answers) == Status(out.code)
      ensures MarkedCalls(old(calls))
      ensures skip ==>
                && plainWire == old(plainWire) && ownPublished == old(ownPublished)
                && jar == old(jar) && stored == old(stored) && calls == old(calls)
      decreases if skip then 0 else 4, 4
    {
      Started(cfg, skip);
      ListedFirst(jar, path, cookies, "XSRF-TOKEN");
      var readable: bool := *;
      f := Take(cfg, skip, Init(skip), BodyRead(readable));
      Room(cfg, skip, f);
      if !readable {
        out, sent := Failed(BodyUnreadable), [];
      } else {
        out, sent, f := Attempts(skip, verb, cookies, f);
        assert out.Returned? ==> sent[|sent| - 1].cookies == cookies;
      }
      Explained(cfg, skip, f);
    }

    /** The loop of RoundTrip (transport.go:158-233). */
    method Attempts(skip: bool, verb: string, cookies: seq<Cookie>, ghost f0: Frame)
      returns (out: Outcome, sent: seq<Sent>, ghost f: Frame)
      requires Valid() && (!skip ==> !reauthMuHeld)
      requires Reaches(cfg, skip, f0) && f0 == Init(skip).(pc := Waiting)
      modifies this
      ensures Kept(old(reauthMuHeld), old(clock), old(verifiedUntil), old(reauthEpoch), old(lastVerified))
      ensures ownVerified == old(ownVerified)
      ensures Reaches(cfg, skip, f) && f.pc == Finished(out) && |sent| == f.sends
      ensures forall r :: r in sent ==> r.cookies == cookies
      ensures out.Returned? ==> sent != [] && sent[|sent| - 1].token == XsrfHeader(verb, jar, base)
      ensures Spent((if skip then 1 else 5) * OneRequest() + (if skip then 0 else 1), old(Sends()), old(waits))
      ensures Wire(skip) == old(Wire(skip)) + f.answers
      ensures out.Returned? ==> f.answers != [] && Last(f.answers) == Status(out.code)
      ensures clock >= old(clock) + Sum(f.slept)
      ensures MarkedCalls(old(calls))
      ensures skip ==>
                && plainWire == old(plainWire) && ownPublished == old(ownPublished)
                && jar == old(jar) && stored == old(stored) && calls == old(calls)
      decreases if skip then 0 else 4, 3
    {
      sent, f := [], f0;
      ghost var nested, nestedWaits := 0, 0;
      var attempt: nat, reauthed := 0, false;
      Room(cfg, skip, f);
      while true
        invariant Kept(old(reauthMuHeld), old(clock), old(verifiedUntil), old(reauthEpoch), old(lastVerified))
        invariant ownVerified == old(ownVerified)
        invariant Reaches(cfg, skip, f) && f.pc == Waiting && Left(cfg, f) >= 0
        invariant f.attempt == attempt && f.reauthed == reauthed && |sent| == f.sends
        invariant forall r :: r in sent ==> r.cookies == cookies
        invariant clock >= old(clock) + Sum(f.slept)
        invariant Wire(skip) == old(Wire(skip)) + f.answers
        invariant Sends() == old(Sends()) + f.sends + nested && waits == old(waits) + f.waits + nestedWaits
        invariant 0 <= nested <= nestedWaits && nested <= (if reauthed then 4 * OneRequest() else 0)
        invariant MarkedCalls(old(calls))
        invariant skip ==>
                    && nested == 0 && plainWire == old(plainWire) && ownPublished == old(ownPublished)
                    && jar == old(jar) && stored == old(stored) && calls == old(calls)
        decreases Left(cfg, f)
      {
        var done, token;
        ghost var more, moreWaits;
        done, token, attempt, reauthed, f, more, moreWaits := Round(skip, verb, attempt, reauthed, f);
        Room(cfg, skip, f);
        nested, nestedWaits := nested + more, nestedWaits + moreWaits;
        if token.Some? {
          sent := sent + [Sent(token.value, cookies)];
          assert sent[|sent| - 1] == Sent(token.value, cookies);
        }
        if done.Some? {
          out := done.value;
          break;
        }
      }
    }

    /** One loop round (transport.go:161-232): it returns, or the loop goes on. The ghost results count the
        requests and waits of a handshake inside it. */
    method Round(skip: bool, verb: string, attempt0: nat, reauthed0: bool, ghost f0: Frame)
      returns (done: Option<Outcome>, token: Option<Option<string>>, attempt: nat, reauthed: bool,
               ghost f: Frame, ghost nested: int, ghost nestedWaits: int)
      requires Valid() && (!skip ==> !reauthMuHeld)
      requires Reaches(cfg, skip, f0) && f0.pc == Waiting && f0.attempt == attempt0 && f0.reauthed == reauthed0
      modifies this
      ensures Kept(old(reauthMuHeld), old(clock), old(verifiedUntil), old(reauthEpoch), old(lastVerified))
      ensures ownVerified == old(ownVerified)
      ensures Reaches(cfg, skip, f) && f.pc == if done.Some? then Finished(done.value) else Waiting
      ensures f.attempt == attempt && f.reauthed == reauthed && (reauthed0 ==> reauthed)
      ensures done.None? ==> Left(cfg, f) < Left(cfg, f0)
      ensures clock - old(clock) >= Sum(f.slept) - Sum(f0.slept)
      ensures f.sends == f0.sends + if token.Some? then 1 else 0
      ensures token.None? ==> done.Some? && done.value.Failed?
      ensures done.Some? && done.value.Returned? ==> token == Some(XsrfHeader(verb, jar, base))
      ensures token.None? ==> f.answers == f0.answers && Wire(skip) == old(Wire(skip))
      ensures token.Some? ==>
                && f.answers != [] && f.answers == f0.answers + [Last(f.answers)]
                && Wire(skip) == old(Wire(skip)) + [Last(f.answers)]
      ensures done.Some? && done.value.Returned? ==> f.answers != [] && Last(f.answers) == Status(done.value.code)
      ensures skip ==> plainWire == old(plainWire)
      ensures Sends() == old(Sends()) + f.sends - f0.sends + nested
      ensures waits == old(waits) + f.waits - f0.waits + nestedWaits
      ensures 0 <= nested <= nestedWaits && nested <= (if reauthed && !reauthed0 then 4 * OneRequest() else 0)
      ensures MarkedCalls(old(calls))
      ensures skip ==>
                && nested == 0 && ownPublished == old(ownPublished)
                && jar == old(jar) && stored == old(stored) && calls == old(calls)
      decreases if skip then 0 else 4, 2
    {
      nested, nestedWaits := 0, 0;
      var failed, epochAtAttempt, header, answer, draw;
      failed, epochAtAttempt, header, answer, draw, f := SendOnce(skip, verb, f0);
      if failed.Some? {
        return Some(Failed(failed.value)), None, attempt0, reauthed0, f, 0, 0;
      }
      token := Some(header);
      ghost var sends1, waits1 := Sends(), waits;
      done, attempt, reauthed, f := Settle(skip, answer, draw, attempt0, reauthed0, epochAtAttempt, f);
      nested, nestedWaits := Sends() - sends1, waits - waits1;
    }

    /** The rest of the loop round, from the answer on (transport.go:180-232): return, or loop again. */
    method Settle(skip: bool, answer: Answer, draw: nat, attempt0: nat, reauthed0: bool, epochAtAttempt: nat,
                  ghost f0: Frame)
      returns (done: Option<Outcome>, attempt: nat, reauthed: bool, ghost f: Frame)
      requires Valid() && (!skip ==> !reauthMuHeld)
      requires Reaches(cfg, skip, f0) && f0.pc == Sending && f0.skip == skip
      requires f0.attempt == attempt0 && f0.reauthed == reauthed0 && f0.snap == epochAtAttempt <= reauthEpoch
      modifies this
      ensures Kept(old(reauthMuHeld), old(clock), old(verifiedUntil), old(reauthEpoch), old(lastVerified))
      ensures ownVerified == old(ownVerified)
      ensures Reaches(cfg, skip, f) && f.pc == if done.Some? then Finished(done.value) else Waiting
      ensures f.attempt == attempt && f.reauthed == reauthed && (reauthed0 ==> reauthed)
      ensures f.sends == f0.sends + 1 && f.waits == f0.waits && f.answers == f0.answers + [answer]
      ensures answer.Status? && answer.code !in {403, 429} && answer.code < 500 ==>
                done == Some(Returned(answer.code)) && attempt == attempt0 && reauthed == reauthed0
      ensures answer == Status(403) && (skip || reauthed0) ==>
                done == Some(Returned(403)) && attempt == attempt0 && reauthed == reauthed0
      ensures answer == Status(403) && !skip && !reauthed0 ==>
                && done in {None, Some(Failed(ReauthFailed))} && attempt == attempt0 && reauthed
                && (done.None? ==> reauthEpoch > epochAtAttempt)
                && (calls == old(calls) ==> done.None?)
                && ownPublished == old(ownPublished) + if calls != old(calls) && done.None? then 1 else 0
      ensures Transient(answer) && attempt0 < cfg.policy.MaxAttempts ==>
                done.None? && attempt == attempt0 + 1 && reauthed == reauthed0
      ensures Transient(answer) && attempt0 >= cfg.policy.MaxAttempts ==>
                && done == Some(if answer.NetworkError? then Failed(Network) else Returned(answer.code))
                && attempt == attempt0 && reauthed == reauthed0
      ensures clock - old(clock) >= Sum(f.slept) - Sum(f0.slept)
      ensures done.None? ==> attempt > attempt0 || (reauthed && !reauthed0)
      ensures attempt >= attempt0
      ensures Spent(if reauthed && !reauthed0 then 4 * OneRequest() else 0, old(Sends()), old(waits))
      ensures reauthed == reauthed0 ==>
                && markedWire == old(markedWire) && waits == old(waits) && ownPublished == old(ownPublished)
                && jar == old(jar) && stored == old(stored) && calls == old(calls)
      ensures plainWire == old(plainWire) && MarkedCalls(old(calls))
      ensures done.Some? && done.value.Returned? ==> reauthed == reauthed0
      ensures skip ==> reauthed == reauthed0
      decreases if skip then 0 else 4, 1
    {
      attempt, reauthed, done := attempt0, reauthed0, None;
      if answer.NetworkError? {
        if !cfg.policy.ShouldRetry(attempt, None, true) {
          f := RoundEnds(cfg, skip, f0, answer);
          return Some(Failed(Network)), attempt, reauthed, f;
        }
        var delay := cfg.policy.NextDelay(attempt, draw);
        Sleep(delay);
        f := RoundRetries(cfg, skip, f0, answer, delay);
        attempt := attempt + 1;
        return;
      }
      var status := answer.code;
      if status == 403 && !reauthed && cfg.canReauth && !skip {
        reauthed := true;
        f := RoundForbidden(cfg, skip, f0, answer);
        var reauthErr;
        reauthErr, f := CheckAndReauth(epochAtAttempt, f);
        if reauthErr.Err? {
          done := Some(Failed(ReauthFailed));
        }
        return;
      }
      if status != 429 && status < 500 {
        f := RoundEnds(cfg, skip, f0, answer);
        return Some(Returned(status)), attempt, reauthed, f;
      }
      if !cfg.policy.ShouldRetry(attempt, Some(status), false) {
        f := RoundEnds(cfg, skip, f0, answer);
        return Some(Returned(status)), attempt, reauthed, f;
      }
      var delay := cfg.policy.NextDelay(attempt, draw);
      Sleep(delay);
      f := RoundRetries(cfg, skip, f0, answer, delay);
      attempt := attempt + 1;
    }

    /** transport.go:119-138; None leaves the header as the caller set it. */
    method InjectXsrf(verb: string) returns (token: Option<string>)
      ensures verb in {"POST", "PUT", "DELETE"} ==> token == Lookup(jar, ApiScope(base), "XSRF-TOKEN")
      ensures verb !in {"POST", "PUT", "DELETE"} ==> token.None?
      ensures token == XsrfHeader(verb, jar, base)
    {
      if !IsMutating(verb) {
        return None;
      }
      token := First(jar, ApiScope(base), "XSRF-TOKEN");
    }

    /** The wrapped transport; draw is what the generator will give if the answer leads to a delay. */
    method BaseRoundTrip(skip: bool) returns (answer: Answer, draw: nat)
      requires Valid()
      modifies this`clock, this`reauthEpoch, this`othersPublished, this`verifiedUntil, this`lastVerified,
               this`markedWire, this`plainWire
      ensures Kept(old(reauthMuHeld), old(clock), old(verifiedUntil), old(reauthEpoch), old(lastVerified))
      ensures Wire(skip) == old(Wire(skip)) + [answer] && Wire(!skip) == old(Wire(!skip))
    {
      Others();
      var answered: bool, status: int := *, *;
      answer := if answered then Status(status) else NetworkError;
      if skip {
        markedWire := markedWire + [answer];
      } else {
        plainWire := plainWire + [answer];
      }
      draw := *;
    }

    /** One loop round up to the answer (transport.go:161-179). */
    method SendOnce(skip: bool, verb: string, ghost f0: Frame)
      returns (failed: Option<Failure>, epochAtAttempt: nat, token: Option<string>, answer: Answer, draw: nat,
               ghost f: Frame)
      requires Valid() && Reaches(cfg, skip, f0) && f0.pc == Waiting
      modifies this`clock, this`reauthEpoch, this`othersPublished, this`verifiedUntil, this`lastVerified,
               this`waits, this`markedWire, this`plainWire
      ensures Kept(old(reauthMuHeld), old(clock), old(verifiedUntil), old(reauthEpoch), old(lastVerified))
      ensures Reaches(cfg, skip, f) && waits == old(waits) + f.waits - f0.waits
      ensures failed.None? ==>
                && f == f0.(pc := Sending, waits := f0.waits + 1, snap := epochAtAttempt)
                && epochAtAttempt <= reauthEpoch
                && Wire(skip) == old(Wire(skip)) + [answer] && Wire(!skip) == old(Wire(!skip))
                && token == XsrfHeader(verb, jar, base)
      ensures failed.Some? ==>
                && f.pc == Finished(Failed(failed.value)) && f.answers == f0.answers
                && Wire(skip) == old(Wire(skip)) && Wire(!skip) == old(Wire(!skip))
                && f.sends == f0.sends && f.reauthed == f0.reauthed && f.attempt == f0.attempt && f.slept == f0.slept
    {
      token, answer, draw := None, NetworkError, 0;
      failed, epochAtAttempt, f := Prepare(skip, f0);
      if failed.None? {
        token := InjectXsrf(verb);
        answer, draw := BaseRoundTrip(skip);
      }
    }

    /** One loop round up to the call of the base transport (transport.go:161-177). */
    method Prepare(skip: bool, ghost f0: Frame)
      returns (failed: Option<Failure>, epochAtAttempt: nat, ghost f: Frame)
      requires Valid() && Reaches(cfg, skip, f0) && f0.pc == Waiting
      modifies this`clock, this`reauthEpoch, this`othersPublished, this`verifiedUntil, this`lastVerified,
               this`waits
      ensures Kept(old(reauthMuHeld), old(clock), old(verifiedUntil), old(reauthEpoch), old(lastVerified))
      ensures Reaches(cfg, skip, f) && waits == old(waits) + f.waits - f0.waits
      ensures failed.None? ==>
                epochAtAttempt == reauthEpoch && f == f0.(pc := Sending, waits := f0.waits + 1, snap := reauthEpoch)
      ensures failed.Some? ==>
                && f.pc == Finished(Failed(failed.value))
                && f.sends == f0.sends && f.reauthed == f0.reauthed && f.attempt == f0.attempt && f.slept == f0.slept
                && f.answers == f0.answers
    {
      Others();
      f := f0;
      var granted: bool := *;
      f := Take(cfg, skip, f, Waited(granted));
      epochAtAttempt := reauthEpoch;
      if !granted {
        return Some(LimiterRefused), epochAtAttempt, f;
      }
      waits := waits + 1;
      f := Take(cfg, skip, f, Loaded(epochAtAttempt));
      var reproducible: bool := *;
      f := Take(cfg, skip, f, Cloned(reproducible));
      failed := if reproducible then None else Some(BodyNotReproducible);
    }

    /** The check-and-reauth section under reauthMu (transport.go:199-221). */
    method CheckAndReauth(epochAtAttempt: nat, ghost f0: Frame) returns (reauthErr: Result, ghost f: Frame)
      requires Valid() && !reauthMuHeld
      requires Reaches(cfg, false, f0) && f0.pc == Locking && f0.snap == epochAtAttempt <= reauthEpoch
      modifies this
      ensures Kept(old(reauthMuHeld), old(clock), old(verifiedUntil), old(reauthEpoch), old(lastVerified))
      ensures ownVerified == old(ownVerified)
      ensures Reaches(cfg, false, f)
      ensures f.pc == if reauthErr.Ok? then Waiting else Finished(Failed(ReauthFailed))
      ensures f.attempt == f0.attempt && f.reauthed == f0.reauthed && f.skip == f0.skip
      ensures f.sends == f0.sends && f.waits == f0.waits && f.slept == f0.slept && f.answers == f0.answers
      ensures reauthErr.Ok? ==> reauthEpoch > epochAtAttempt
      ensures reauthErr.Err? ==> reauthEpoch == epochAtAttempt
      ensures plainWire == old(plainWire) && MarkedCalls(old(calls))
      ensures calls == old(calls) ==> reauthErr.Ok?
      ensures calls != old(calls) && reauthErr.Ok? ==> reauthEpoch == epochAtAttempt + 1
      ensures ownPublished == old(ownPublished) + if calls != old(calls) && reauthErr.Ok? then 1 else 0
      ensures calls != old(calls) ==>
                Reauthed(calls[|old(calls)|..], reauthErr)
      ensures Spent(4 * OneRequest(), old(Sends()), old(waits))
      decreases 4, 0
    {
      Others();
      reauthMuHeld := true;
      ghost var epoch := reauthEpoch;
      reauthErr := ReauthUnlessNewer(epochAtAttempt);
      reauthMuHeld := false;
      f := ReauthSection(cfg, false, f0, epoch, reauthErr.Ok?);
    }

    /** With the mutex held: the callback is called if and only if the epoch is still that of the attempt, and
        its success is published. */
    method ReauthUnlessNewer(epochAtAttempt: nat) returns (reauthErr: Result)
      requires Valid() && reauthMuHeld
      modifies this
      ensures Kept(old(reauthMuHeld), old(clock), old(verifiedUntil), reauthEpoch, old(lastVerified))
      ensures ownVerified == old(ownVerified) && plainWire == old(plainWire) && MarkedCalls(old(calls))
      ensures calls != old(calls) <==> old(reauthEpoch) == epochAtAttempt
      ensures calls == old(calls) ==> reauthErr.Ok?
      ensures calls != old(calls) ==> Reauthed(calls[|old(calls)|..], reauthErr)
      ensures ownPublished == old(ownPublished) + if calls != old(calls) && reauthErr.Ok? then 1 else 0
      ensures reauthEpoch - old(reauthEpoch) == ownPublished - old(ownPublished)
      ensures Spent(4 * OneRequest(), old(Sends()), old(waits))
      decreases 3, 1
    {
      if reauthEpoch != epochAtAttempt {
        return Ok;
      }
      reauthErr := Reauthenticate();
      if reauthErr.Ok? {
        reauthEpoch, ownPublished := reauthEpoch + 1, ownPublished + 1;
      }
    }

    function Received(before: Jar, endpoint: string, received: seq<SetCookie>): Jar {
      SetCookies(before, DefaultPath(base + endpoint), received)
    }

    /** What http.Client.Do does up to the response: the Cookie header is what the request's path sees in the
        jar beforehand. */
    method Send(skip: bool, verb: string, path: string) returns (out: Outcome)
      requires Valid() && (!skip ==> !reauthMuHeld)
      modifies this
      ensures Kept(old(reauthMuHeld), old(clock), old(verifiedUntil), old(reauthEpoch), old(lastVerified))
      ensures ownVerified == old(ownVerified)
      ensures Spent((if skip then 1 else 5) * OneRequest() + (if skip then 0 else 1), old(Sends()), old(waits))
      ensures out.Returned? ==> |Wire(skip)| > |old(Wire(skip))| && Last(Wire(skip)) == Status(out.code)
      ensures MarkedCalls(old(calls))
      ensures skip ==>
                && plainWire == old(plainWire) && ownPublished == old(ownPublished)
                && jar == old(jar) && stored == old(stored) && calls == old(calls)
      decreases if skip then 0 else 4, 5
    {
      var cookies, sent;
      ghost var keys, f;
      cookies, keys := Query(jar, path);
      out, sent, f := RoundTrip(skip, verb, path, cookies);
    }

    /** http.Client.Do without redirects: the Cookie header, one RoundTrip, then the cookies of the response,
        if one came, go to the jar. */
    method Do(skip: bool, verb: string, endpoint: string, received: seq<SetCookie>)
      returns (out: Outcome, body: Body)
      requires Valid() && (!skip ==> !reauthMuHeld)
      modifies this
      ensures Kept(old(reauthMuHeld), old(clock), old(verifiedUntil), old(reauthEpoch), old(lastVerified))
      ensures ownVerified == old(ownVerified)
      ensures Spent((if skip then 1 else 5) * OneRequest() + (if skip then 0 else 1), old(Sends()), old(waits))
      ensures out.Returned? ==> |Wire(skip)| > |old(Wire(skip))| && Last(Wire(skip)) == Status(out.code)
      ensures |calls| > |old(calls)| && Last(calls) == Call(skip, endpoint, verb, out, body)
      ensures old(calls) <= calls && forall i :: |old(calls)| <= i < |calls| - 1 ==> calls[i].marked
      ensures skip ==>
                && OneCall(old(calls)) && plainWire == old(plainWire)
                && ownPublished == old(ownPublished) && stored == old(stored)
      ensures skip ==> jar == if out.Returned? then Received(old(jar), endpoint, received) else old(jar)
      decreases if skip then 1 else 5
    {
      out := Send(skip, verb, base + endpoint);
      if out.Returned? {
        jar := Received(jar, endpoint, received);
      }
      body := *;
      calls := calls + [Call(skip, endpoint, verb, out, body)];
    }

    /** The session store replaces the session as a whole or not at all. */
    method Save(session: seq<Cookie>) returns (res: Result)
      modifies this`stored
      ensures res.Ok? ==> stored == Some(session)
      ensures res.Err? ==> res.error == StoreFailed && stored == old(stored)
    {
      var written: bool := *;
      if !written {
        return Err(StoreFailed);
      }
      stored := Some(session);
      res := Ok;
    }

    method PersistSession() returns (res: Result)
      modifies this`stored
      ensures res.Ok? ==> stored.Some? && Lists(jar, ApiScope(base), stored.value)
      ensures res.Err? ==> res.error == StoreFailed && stored == old(stored)
    {
      var cookies;
      ghost var keys;
      cookies, keys := Query(jar, ApiScope(base));
      res := Save(cookies);
    }

    /** The cookies of the response are the only change to the jar. A new XSRF token is the one the next
        request uses exactly when no longer path hides it; cookies without a path go unseen altogether. */
    method TokenLogin(received: seq<SetCookie>) returns (res: Result)
      requires Valid()
      modifies this
      ensures Kept(old(reauthMuHeld), old(clock), old(verifiedUntil), old(reauthEpoch), old(lastVerified))
      ensures ownVerified == old(ownVerified) && ownPublished == old(ownPublished)
      ensures Spent(OneRequest(), old(Sends()), old(waits)) && plainWire == old(plainWire)
      ensures res.Ok? ==> stored.Some? && Lists(jar, ApiScope(base), stored.value)
      ensures res.Err? ==> stored == old(stored)
      ensures res == Err(SessionExpired) <==> !old(HasToken())
      ensures res == Err(SessionExpired) ==> calls == old(calls) && Sends() == old(Sends()) && jar == old(jar)
      ensures res != Err(SessionExpired) ==> OneCall(old(calls)) && TokenLoginSays(Last(calls), res)
      ensures res == Err(RequestFailed) ==> jar == old(jar)
      ensures res !in {Err(SessionExpired), Err(RequestFailed)} ==>
                jar == Received(old(jar), "/api/f/token/login", received)
      ensures res !in {Err(SessionExpired), Err(RequestFailed)} ==>
                forall i :: 0 <= i < |received| && OnlyOfName(received, i) && !received[i].expire
                            && received[i].name == "XSRF-TOKEN" ==>
                              XsrfHeader("POST", jar, base)
                              == if Wins(old(jar), ApiScope(base), TokenLoginKey(base, received[i]))
                                 then Some(received[i].value) else XsrfHeader("POST", old(jar), base)
      ensures (forall c :: c in received ==> c.path == "") ==>
                && XsrfHeader("POST", jar, base) == XsrfHeader("POST", old(jar), base)
                && (res.Ok? ==> Lists(old(jar), ApiScope(base), stored.value))
      decreases 2, 0
    {
      var token := First(jar, ApiScope(base), "rememberMe");
      if token.None? || token.value == "" {
        return Err(SessionExpired);
      }
      var out, _ := Do(true, "POST", "/api/f/token/login", received);
      if out.Failed? {
        return Err(RequestFailed);
      }
      forall i | 0 <= i < |received| && OnlyOfName(received, i) && !received[i].expire {
        ResponseLookup(old(jar), ApiScope(base), DefaultPath(base + "/api/f/token/login"), received, i);
      }
      if forall c :: c in received ==> c.path == "" {
        TokenLoginCookiesUnseen(old(jar), base, received, "XSRF-TOKEN");
      }
      if out.code != 200 {
        return Err(Rejected(out.code));
      }
      res := PersistSession();
    }

    method Login() returns (res: Result)
      requires Valid()
      modifies this
      ensures Kept(old(reauthMuHeld), old(clock), old(verifiedUntil), old(reauthEpoch), old(lastVerified))
      ensures ownVerified == old(ownVerified) && ownPublished == old(ownPublished)
      ensures Spent(3 * OneRequest(), old(Sends()), old(waits)) && plainWire == old(plainWire)
      ensures res.Err? ==> stored == old(stored) && !IsSessionExpired(res.error)
      ensures res.Ok? ==> stored.Some? && Lists(jar, ApiScope(base), stored.value)
      ensures MarkedCalls(old(calls)) && LoginSays(calls[|old(calls)|..], totpSeed, totpValid, res)
      decreases 2, 1
    {
      var received: seq<SetCookie> := *;
      var out, _ := Do(true, "GET", "/api/f/start", received);
      ghost var start := Last(calls);
      assert calls[|old(calls)|..] == [start];
      if out.Failed? {
        return Err(RequestFailed);
      }
      var twoFactor;
      res, twoFactor := AskExistent();
      ghost var existent := Last(calls);
      assert calls[|old(calls)|..] == [start, existent];
      if res.Err? {
        return;
      }
      res := PostLogin(twoFactor);
      assert calls[|old(calls)|..] == [start, existent, Last(calls)];
    }

    /** The second request of the handshake and the one-time code (auth.go:170-219). */
    method AskExistent() returns (res: Result, twoFactor: bool)
      requires Valid()
      modifies this
      ensures Kept(old(reauthMuHeld), old(clock), old(verifiedUntil), old(reauthEpoch), old(lastVerified))
      ensures ownVerified == old(ownVerified) && ownPublished == old(ownPublished)
      ensures Spent(OneRequest(), old(Sends()), old(waits)) && plainWire == old(plainWire) && stored == old(stored)
      ensures res.Err? ==> !IsSessionExpired(res.error)
      ensures OneCall(old(calls)) && Last(calls).endpoint == "/api/f/existent" && Last(calls).verb == "POST"
      ensures ExistentRefusal(Last(calls), totpSeed, totpValid) == if res.Err? then Some(res.error) else None
      ensures res.Ok? ==> twoFactor == Last(calls).body.existence.value.twoFactor
      decreases 2, 0
    {
      twoFactor := false;
      var received: seq<SetCookie> := *;
      var out, body := Do(true, "POST", "/api/f/existent", received);
      if out.Failed? {
        return Err(RequestFailed), twoFactor;
      }
      if !body.readable {
        return Err(ReadFailed), twoFactor;
      }
      if out.code != 200 {
        return Err(Rejected(out.code)), twoFactor;
      }
      if body.existence.None? {
        return Err(Undecodable), twoFactor;
      }
      if !body.existence.value.existent {
        return Err(InvalidCredentials), twoFactor;
      }
      twoFactor := body.existence.value.twoFactor;
      if twoFactor && totpSeed == "" {
        return Err(TwoFactorInvalid), twoFactor;
      }
      res := if twoFactor && !totpValid then Err(TotpFailed) else Ok;
    }

    /** The last request of the handshake (auth.go:221-246). */
    method PostLogin(twoFactor: bool) returns (res: Result)
      requires Valid()
      modifies this
      ensures Kept(old(reauthMuHeld), old(clock), old(verifiedUntil), old(reauthEpoch), old(lastVerified))
      ensures ownVerified == old(ownVerified) && ownPublished == old(ownPublished)
      ensures Spent(OneRequest(), old(Sends()), old(waits)) && plainWire == old(plainWire)
      ensures res.Err? ==> stored == old(stored) && !IsSessionExpired(res.error)
      ensures res.Ok? ==> stored.Some? && Lists(jar, ApiScope(base), stored.value)
      ensures OneCall(old(calls)) && PostLoginSays(Last(calls), twoFactor, res)
      decreases 2, 0
    {
      var received: seq<SetCookie> := *;
      var out, body := Do(true, "POST", "/api/f/login", received);
      if out.Failed? {
        return Err(RequestFailed);
      }
      if !body.readable {
        return Err(ReadFailed);
      }
      if out.code == 200 {
        res := PersistSession();
      } else if out.code == 401 || out.code == 403 {
        res := Err(if twoFactor then TwoFactorInvalid else InvalidCredentials);
      } else {
        res := Err(Rejected(out.code));
      }
    }

    method Reauthenticate() returns (res: Result)
      requires Valid()
      modifies this
      ensures Kept(old(reauthMuHeld), old(clock), old(verifiedUntil), old(reauthEpoch), old(lastVerified))
      ensures ownVerified == old(ownVerified) && ownPublished == old(ownPublished)
      ensures Spent(4 * OneRequest(), old(Sends()), old(waits)) && plainWire == old(plainWire)
      ensures res.Ok? ==> stored.Some? && Lists(jar, ApiScope(base), stored.value)
      ensures res.Err? ==> stored == old(stored)
      ensures res.Err? ==> res.error.SessionLost? && !IsSessionExpired(res.error.cause)
      ensures MarkedCalls(old(calls))
      ensures ReauthSays(old(HasToken()), calls[|old(calls)|..], totpSeed, totpValid, res)
      ensures |calls| > |old(calls)| && Reauthed(calls[|old(calls)|..], res)
      decreases 3, 0
    {
      var received: seq<SetCookie> := *;
      res := TokenLogin(received);
      if res.Ok? {
        return;
      }
      ghost var calls1 := calls;
      res := Login();
      assert calls1 != old(calls) ==> calls[|old(calls)|..][1..] == calls[|calls1|..];
      if res.Err? {
        res := Err(SessionLost(res.error));
      }
    }

    /** GET user-session: whether the server still accepts the session, and for how long it is blocked. */
    method UserSession(received: seq<SetCookie>) returns (probe: Probe)
      requires Valid()
      modifies this
      ensures Kept(old(reauthMuHeld), old(clock), old(verifiedUntil), old(reauthEpoch), old(lastVerified))
      ensures ownVerified == old(ownVerified)
      ensures Spent(OneRequest(), old(Sends()), old(waits)) && stored == old(stored)
      ensures OneCall(old(calls)) && ProbeSays(Last(calls), probe)
      ensures jar == if Last(calls).out.Returned? then Received(old(jar), "/api/f/user-session", received)
                     else old(jar)
    {
      var out, body := Do(true, "GET", "/api/f/user-session", received);
      if out.Failed? {
        return Unseen(RequestFailed);
      }
      if !body.readable {
        return Unseen(ReadFailed);
      }
      if out.code != 200 {
        return Unseen(Rejected(out.code));
      }
      probe := if body.session.Some? then Seen(body.session.value.authorized, body.session.value.secondsBlocked)
      else Unseen(Undecodable);
    }

    /** The stored session goes to the jar and is probed (auth.go:298-305); None when the server does not
        accept it. */
    method ProbeStored(received: seq<SetCookie>) returns (probed: Option<Result>)
      requires Valid() && stored.Some?
      modifies this
      ensures Kept(old(reauthMuHeld), old(clock), old(verifiedUntil), old(reauthEpoch), old(lastVerified))
      ensures Spent(OneRequest(), old(Sends()), old(waits)) && stored == old(stored)
      ensures OneCall(old(calls)) && Last(calls).endpoint == "/api/f/user-session"
      ensures var loaded := Load(old(jar), base, old(stored).value);
              jar == if Last(calls).out.Returned? then Received(loaded, "/api/f/user-session", received) else loaded
      ensures probed.None? <==> !Authorized(Last(calls))
      ensures Authorized(Last(calls)) ==> VerifiedSays(Last(calls), probed.value)
      ensures probed == Some(Ok) && freshness > 0 ==> verifiedUntil == clock + freshness
      ensures ownVerified == if Authorized(Last(calls)) && !IsBlocked(Last(calls)) && freshness > 0 then Some(clock)
                             else old(ownVerified)
    {
      jar := Load(jar, base, stored.value);
      var probe := UserSession(received);
      if !(probe.Seen? && probe.authorized) {
        return None;
      }
      if probe.secondsBlocked > 0.0 {
        return Some(Err(Blocked(probe.secondsBlocked.Floor)));
      }
      MarkFresh();
      probed := Some(Ok);
    }

    /** The rest of EnsureSession (auth.go:307-311). */
    method ReauthAndMark() returns (res: Result)
      requires Valid()
      modifies this
      ensures Kept(old(reauthMuHeld), old(clock), old(verifiedUntil), old(reauthEpoch), old(lastVerified))
      ensures Spent(4 * OneRequest(), old(Sends()), old(waits)) && MarkedCalls(old(calls))
      ensures ReauthSays(old(HasToken()), calls[|old(calls)|..], totpSeed, totpValid, res)
      ensures |calls| > |old(calls)| && Reauthed(calls[|old(calls)|..], res)
      ensures res.Ok? ==> stored.Some? && Lists(jar, ApiScope(base), stored.value)
      ensures res.Err? ==> stored == old(stored) && res.error.SessionLost?
      ensures res.Ok? && freshness > 0 ==> verifiedUntil == clock + freshness
      ensures ownVerified == if res.Ok? && freshness > 0 then Some(clock) else old(ownVerified)
    {
      res := Reauthenticate();
      if res.Err? {
        return;
      }
      MarkFresh();
    }

    /** EnsureSession once the store was read (auth.go:297-311). */
    method ProbeOrReauth() returns (res: Result, path: Path)
      requires Valid()
      modifies this
      ensures Kept(old(reauthMuHeld), old(clock), old(verifiedUntil), old(reauthEpoch), old(lastVerified))
      ensures Spent(5 * OneRequest(), old(Sends()), old(waits)) && MarkedCalls(old(calls))
      ensures |calls| > |old(calls)| && path in {Probed, Reauthenticated, GaveUp}
      ensures old(HasSession()) ==> calls[|old(calls)|].endpoint == "/api/f/user-session"
      ensures path.Probed? <==> old(HasSession()) && Authorized(calls[|old(calls)|])
      ensures path.Probed? ==>
                |calls| == |old(calls)| + 1 && VerifiedSays(Last(calls), res) && stored == old(stored)
      ensures !path.Probed? && old(HasSession()) ==> Reauthed(calls[|old(calls)| + 1..], res)
      ensures !old(HasSession()) ==>
                ReauthSays(old(HasToken()), calls[|old(calls)|..], totpSeed, totpValid, res)
      ensures path.Reauthenticated? ==> res.Ok? && stored.Some? && Lists(jar, ApiScope(base), stored.value)
      ensures path.GaveUp? ==> res.Err? && res.error.SessionLost?
      ensures res.Err? ==> stored == old(stored)
      ensures res.Ok? && freshness > 0 ==> verifiedUntil == clock + freshness
      ensures ownVerified == if res.Ok? && freshness > 0 then Some(clock) else old(ownVerified)
    {
      if stored.Some? && stored.value != [] {
        var received: seq<SetCookie> := *;
        var probed := ProbeStored(received);
        if probed.Some? {
          return probed.value, Probed;
        }
        assert calls[|old(calls)|] == Last(calls);
      }
      ghost var calls1 := calls;
      res := ReauthAndMark();
      assert calls[..|calls1|] == calls1;
      path := if res.Ok? then Reauthenticated else GaveUp;
    }

    /** auth.go:289-312; `readable`: the store could be read. It skips the server exactly when it may and a
        successful probe or re-auth was recorded less than `freshness` ago. It trusts the stored session exactly
        when there is one and the server authorizes it; otherwise it re-authenticates. Every success, and
        nothing else, records a new verification. */
    method EnsureSession(force: bool, readable: bool) returns (res: Result, path: Path)
      requires Valid()
      modifies this
      ensures Kept(old(reauthMuHeld), old(clock), old(verifiedUntil), old(reauthEpoch), old(lastVerified))
      ensures Spent(5 * OneRequest(), old(Sends()), old(waits)) && MarkedCalls(old(calls))
      ensures path.Skipped? <==>
                && !force && freshness > 0
                && old(lastVerified).Some? && old(clock) - old(lastVerified).value < freshness
      ensures path.Skipped? ==> res.Ok? && jar == old(jar) && stored == old(stored)
      ensures path.Skipped? || !readable ==> calls == old(calls) && Sends() == old(Sends())
      ensures !path.Skipped? && !readable ==> res == Err(StoreFailed) && path.GaveUp?
      ensures path.Probed? <==>
                && !path.Skipped? && readable && old(HasSession())
                && |calls| > |old(calls)| && Authorized(calls[|old(calls)|])
      ensures !path.Skipped? && readable && old(HasSession()) ==>
                |calls| > |old(calls)| && calls[|old(calls)|].endpoint == "/api/f/user-session"
      ensures path.Probed? ==>
                |calls| == |old(calls)| + 1 && VerifiedSays(Last(calls), res) && stored == old(stored)
      ensures !path.Skipped? && readable && !path.Probed? && old(HasSession()) ==>
                Reauthed(calls[|old(calls)| + 1..], res)
      ensures !path.Skipped? && readable && !old(HasSession()) ==>
                ReauthSays(old(HasToken()), calls[|old(calls)|..], totpSeed, totpValid, res)
      ensures path.Reauthenticated? ==> res.Ok? && stored.Some? && Lists(jar, ApiScope(base), stored.value)
      ensures path.GaveUp? ==> res.Err? && (res.error.StoreFailed? || res.error.SessionLost?)
      ensures res.Err? ==> stored == old(stored)
      ensures res.Ok? && !path.Skipped? && freshness > 0 ==> verifiedUntil == clock + freshness
      ensures ownVerified == if res.Ok? && !path.Skipped? && freshness > 0 then Some(clock) else old(ownVerified)
    {
      if !force && IsFresh() {
        return Ok, Skipped;
      }
      if !readable {
        return Err(StoreFailed), GaveUp;
      }
      res, path := ProbeOrReauth();
    }

    /** auth.go:400-414. The status of the response is not looked at, and the freshness window is left as it
        is. */
    method Logout(received: seq<SetCookie>) returns (res: Result)
      requires Valid()
      modifies this
      ensures Kept(old(reauthMuHeld), old(clock), old(verifiedUntil), old(reauthEpoch), old(lastVerified))
      ensures ownVerified == old(ownVerified)
      ensures Spent(OneRequest(), old(Sends()), old(waits))
      ensures OneCall(old(calls)) && Last(calls).endpoint == "/api/f/logout" && Last(calls).verb == "POST"
      ensures res == Err(RequestFailed) <==> Last(calls).out.Failed?
      ensures res.Ok? ==> stored == Some([])
      ensures res.Err? ==> stored == old(stored) && res.error in {RequestFailed, StoreFailed}
      ensures jar == if Last(calls).out.Returned? then BelowRoot(Received(old(jar), "/api/f/logout", received))
                     else old(jar)
    {
      var out, _ := Do(true, "POST", "/api/f/logout", received);
      if out.Failed? {
        return Err(RequestFailed);
      }
      jar := ClearJar(jar, base);
      res := Save([]);
    }

    /** logout clears the jar so that no dead rememberMe token stays behind. A token login right after it
        still sends one exactly when the jar had a non-empty one under a longer path than "/". */
    method LogoutThenTokenLogin(received: seq<SetCookie>, more: seq<SetCookie>)
      returns (loggedOut: Result, login: Result)
      requires Valid()
      modifies this
      ensures Kept(old(reauthMuHeld), old(clock), old(verifiedUntil), old(reauthEpoch), old(lastVerified))
      ensures loggedOut.Ok? ==>
                (login != Err(SessionExpired)
                 <==> TokenBelowRoot(Received(old(jar), "/api/f/logout", received), base))
    {
      ghost var answered := Received(jar, "/api/f/logout", received);
      loggedOut := Logout(received);
      ClearedLookup(answered, base, "rememberMe");
      LookupMeaning(answered, ApiScope(base), "rememberMe");
      login := TokenLogin(more);
    }

    /** The documentation says that EnsureSession after Logout necessarily re-authenticates. It does so
        exactly when the freshness window is closed at that moment: at clock1, with the window until until1.
        Logout leaves the window as it was, unless another goroutine recorded a verification meanwhile. */
    method LogoutThenEnsureSession()
      returns (loggedOut: Result, res: Result, path: Path,
               ghost clock1: int, ghost until1: int, ghost last1: Option<int>)
      requires Valid()
      modifies this
      ensures Kept(old(reauthMuHeld), old(clock), old(verifiedUntil), old(reauthEpoch), old(lastVerified))
      ensures old(clock) <= clock1 <= clock && old(verifiedUntil) <= until1
      ensures last1 == old(lastVerified) ==> until1 == old(verifiedUntil)
      ensures last1 != old(lastVerified) ==>
                last1.Some? && old(clock) <= last1.value <= clock1 && until1 == last1.value + freshness
      ensures path.Skipped? <==> freshness > 0 && clock1 < until1
      ensures loggedOut.Ok? && res.Ok? ==> (path.Reauthenticated? <==> freshness <= 0 || until1 <= clock1)
    {
      var received: seq<SetCookie> := *;
      loggedOut := Logout(received);
      clock1, until1, last1 := clock, verifiedUntil, lastVerified;
      var readable: bool := *;
      res, path := EnsureSession(false, readable);
    }

    /** A read of the service layer (service.go:155-179): EnsureSession, then one request, whose answer decides.
        Without the request the error is that of EnsureSession. */
    method Get(resource: string, id: string) returns (res: Result)
      requires Valid() && !reauthMuHeld
      modifies this
      ensures Valid() && !reauthMuHeld
      ensures Spent(10 * cfg.policy.Budget() + 11, old(Sends()), old(waits))
      ensures old(calls) <= calls && forall i :: |old(calls)| <= i < |calls| - 1 ==> calls[i].marked
      ensures if |calls| > |old(calls)| && !Last(calls).marked then
                && Last(calls).endpoint == "/api/" + resource + "/rest/" + id && Last(calls).verb == "GET"
                && GetSays(Last(calls), res)
              else res.Err? && (res.error.StoreFailed? || res.error.Blocked? || res.error.SessionLost?)
    {
      var readable: bool := *;
      var ensured, _ := EnsureSession(false, readable);
      if ensured.Err? {
        return ensured;
      }
      var received: seq<SetCookie> := *;
      var out, body := Do(false, "GET", "/api/" + resource + "/rest/" + id, received);
      if out.Failed? {
        return Err(RequestFailed);
      }
      if !body.readable {
        return Err(ReadFailed);
      }
      if out.code == 404 {
        return Err(NotFound);
      }
      if out.code != 200 {
        return Err(Rejected(out.code));
      }
      res := if body.entity then Ok else Err(Undecodable);
    }
  }
}
