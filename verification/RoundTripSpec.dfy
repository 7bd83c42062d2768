/** fileee/transport.go, lines 152-234: one RoundTrip as a step machine. An event is one interaction with
    the outside: the limiter, the epoch counter, the base transport, the clock, the mutex, the re-auth
    callback. The same machine specifies the sequential method in ClientSession.dfy and, interleaved with any
    number of copies of itself, the concurrent system in Concurrency.dfy. */
module RoundTripSpec {
  import opened Backoff
  import opened Integers
  import opened Optional

  datatype Answer = NetworkError | Status(code: int)

  datatype Failure = BodyUnreadable | LimiterRefused | BodyNotReproducible | Network | ReauthFailed

  datatype Outcome = Returned(code: int) | Failed(why: Failure)

  datatype Pc =
    | Start
    | Waiting
    | Snapshot
    | Cloning
    | Sending
    | Sleeping
    | Locking
    | Checking
    | Reauthing
    | Publishing
    | Unlocking(retry: bool)
    | Finished(out: Outcome)

  datatype Event =
    | BodyRead(ok: bool)
    | Waited(ok: bool)
    | Loaded(epoch: nat)
    | Cloned(ok: bool)
    | Answered(answer: Answer)
    | Slept(d: int)
    | Locked
    | Compared(epoch: nat)
    | Reauthed(ok: bool)
    | Published
    | Unlocked

  /** canReauth: the transport has a re-auth callback. */
  datatype Config = Config(policy: Policy, canReauth: bool)

  /** skip: the request's context is marked by withSkipReauth. The fields after snap record what
      happened: limiter waits granted, requests handed to the base transport and what it answered, sleeps,
      how often each response body was closed, and how often the loop was re-entered after a re-auth. */
  datatype Frame = Frame(
    skip: bool, pc: Pc, attempt: nat, reauthed: bool, snap: nat,
    waits: nat, sends: nat, answers: seq<Answer>, slept: seq<int>, closes: seq<nat>, retries: nat)

  function Init(skip: bool): Frame {
    Frame(skip, Start, 0, false, 0, 0, 0, [], [], [], 0)
  }

  function CloseLast(closes: seq<nat>): seq<nat>
    requires closes != []
  {
    closes[|closes| - 1 := closes[|closes| - 1] + 1]
  }

  predicate Eligible(cfg: Config, f: Frame, code: int) {
    code == 403 && !f.reauthed && cfg.canReauth && !f.skip
  }

  /** Lines 179-232 after the base transport answered. */
  function AfterAnswer(cfg: Config, f: Frame, answer: Answer): Frame {
    match answer
    case NetworkError =>
      var g := f.(sends := f.sends + 1, answers := f.answers + [answer]);
      if cfg.policy.ShouldRetry(f.attempt, None, true) then g.(pc := Sleeping)
      else g.(pc := Finished(Failed(Network)))
    case Status(code) =>
      var open := f.closes + [0];
      var g := f.(sends := f.sends + 1, answers := f.answers + [answer], closes := open);
      if Eligible(cfg, f, code) then
        g.(pc := Locking, reauthed := true, closes := CloseLast(open))
      else if code != 429 && code < 500 then g.(pc := Finished(Returned(code)))
      else if !cfg.policy.ShouldRetry(f.attempt, Some(code), false) then g.(pc := Finished(Returned(code)))
      else g.(pc := Sleeping, closes := CloseLast(open))
  }

  function Step(cfg: Config, f: Frame, e: Event): Option<Frame> {
    match (f.pc, e)
    case (Start, BodyRead(ok)) =>
      Some(f.(pc := if ok then Waiting else Finished(Failed(BodyUnreadable))))
    case (Waiting, Waited(ok)) =>
      if ok then Some(f.(pc := Snapshot, waits := f.waits + 1))
      else Some(f.(pc := Finished(Failed(LimiterRefused))))
    case (Snapshot, Loaded(epoch)) => Some(f.(pc := Cloning, snap := epoch))
    case (Cloning, Cloned(ok)) =>
      Some(f.(pc := if ok then Sending else Finished(Failed(BodyNotReproducible))))
    case (Sending, Answered(answer)) => Some(AfterAnswer(cfg, f, answer))
    case (Sleeping, Slept(d)) =>
      if cfg.policy.PossibleDelay(f.attempt, d) then
        Some(f.(pc := Waiting, attempt := f.attempt + 1, slept := f.slept + [d]))
      else None
    case (Locking, Locked) => Some(f.(pc := Checking))
    case (Checking, Compared(epoch)) =>
      Some(f.(pc := if epoch == f.snap then Reauthing else Unlocking(true)))
    case (Reauthing, Reauthed(ok)) => Some(f.(pc := if ok then Publishing else Unlocking(false)))
    case (Publishing, Published) => Some(f.(pc := Unlocking(true)))
    case (Unlocking(retry), Unlocked) =>
      if retry then Some(f.(pc := Waiting, retries := f.retries + 1))
      else Some(f.(pc := Finished(Failed(ReauthFailed))))
    case _ => None
  }

  /** The frame a sequence of events leads to; None when some event was not possible. */
  function Steps(cfg: Config, f: Frame, tr: seq<Event>): Option<Frame>
    decreases |tr|
  {
    if tr == [] then Some(f)
    else match Step(cfg, f, tr[0]) case None => None case Some(g) => Steps(cfg, g, tr[1..])
  }

  function Run(cfg: Config, skip: bool, tr: seq<Event>): Option<Frame> {
    Steps(cfg, Init(skip), tr)
  }

  lemma {:induction false} StepsAppend(cfg: Config, f: Frame, s: seq<Event>, t: seq<Event>)
    requires Steps(cfg, f, s).Some?
    ensures Steps(cfg, f, s + t) == Steps(cfg, Steps(cfg, f, s).value, t)
    decreases |s|
  {
    if s == [] {
      assert s + t == t;
    } else {
      assert (s + t)[1..] == s[1..] + t;
      StepsAppend(cfg, Step(cfg, f, s[0]).value, s[1..], t);
    }
  }

  // ---------------------------------------------------------------- what every step keeps

  predicate InCritical(pc: Pc) {
    pc.Checking? || pc.Reauthing? || pc.Publishing? || pc.Unlocking?
  }

  /** Past the answer of the current loop round. */
  predicate Answering(pc: Pc) {
    pc.Sleeping? || pc.Locking? || InCritical(pc)
  }

  predicate BeforeAnswer(pc: Pc) {
    pc.Start? || pc.Waiting? || pc.Snapshot? || pc.Cloning? || pc.Sending?
  }

  predicate AllClosedOnce(closes: seq<nat>) {
    forall i :: 0 <= i < |closes| ==> closes[i] == 1
  }

  /** Every response closed exactly once, except the returned one, which is open. */
  predicate BodiesSettled(f: Frame) {
    if f.pc.Finished? && f.pc.out.Returned? then
      && f.closes != []
      && f.closes[|f.closes| - 1] == 0
      && AllClosedOnce(f.closes[..|f.closes| - 1])
    else AllClosedOnce(f.closes)
  }

  /** What the outcome tells the caller. */
  predicate OutcomeJustified(cfg: Config, f: Frame) {
    f.pc.Finished? ==>
      match f.pc.out
      case Returned(code) =>
        && (code == 403 && cfg.canReauth && !f.skip ==> f.retries == 1)
        && (code == 429 || code >= 500 ==> f.attempt == cfg.policy.Budget())
      case Failed(Network) => f.attempt == cfg.policy.Budget()
      case Failed(ReauthFailed) => f.reauthed && f.retries == 0
      case Failed(_) => true
  }

  predicate FrameInv(cfg: Config, f: Frame) {
    && f.attempt <= cfg.policy.Budget()
    && (f.pc.Sleeping? ==> f.attempt < cfg.policy.Budget())
    && |f.slept| == f.attempt
    && SleepsInOrder(cfg.policy, f.slept)
    && f.retries <= 1
    && (f.reauthed ==> cfg.canReauth && !f.skip)
    && (f.pc.Locking? || InCritical(f.pc) ==> f.reauthed && f.retries == 0)
    && (f.retries == 1 ==> f.reauthed)
    && (BeforeAnswer(f.pc) || f.pc.Sleeping? ==> (f.reauthed <==> f.retries == 1))
    && (BeforeAnswer(f.pc) ==> f.sends == f.attempt + f.retries)
    && (Answering(f.pc) ==> f.sends == f.attempt + f.retries + 1)
    && (f.pc.Finished? ==> f.attempt + f.retries <= f.sends <= f.attempt + f.retries + 1)
    && f.sends <= f.waits <= f.sends + 1
    && |f.answers| == f.sends
    && (f.pc.Start? || f.pc.Waiting? || Answering(f.pc) ==> f.waits == f.sends)
    && (f.pc.Snapshot? || f.pc.Cloning? || f.pc.Sending? ==> f.waits == f.sends + 1)
    && BodiesSettled(f)
    && OutcomeJustified(cfg, f)
  }

  lemma ClosingSettles(closes: seq<nat>)
    requires AllClosedOnce(closes)
    ensures AllClosedOnce(CloseLast(closes + [0]))
    ensures (closes + [0])[..|closes|] == closes
  {}

  lemma AnswerKeepsInv(cfg: Config, f: Frame, answer: Answer)
    requires FrameInv(cfg, f) && f.pc.Sending?
    ensures FrameInv(cfg, AfterAnswer(cfg, f, answer))
  {
    var g := AfterAnswer(cfg, f, answer);
    assert BodiesSettled(g) by { ClosingSettles(f.closes); }
    assert g.slept == f.slept;
    assert OutcomeJustified(cfg, g);
  }

  lemma SleepKeepsInv(cfg: Config, f: Frame, d: int)
    requires FrameInv(cfg, f) && f.pc.Sleeping? && cfg.policy.PossibleDelay(f.attempt, d)
    ensures FrameInv(cfg, f.(pc := Waiting, attempt := f.attempt + 1, slept := f.slept + [d]))
  {}

  lemma StepKeepsInv(cfg: Config, f: Frame, e: Event)
    requires FrameInv(cfg, f) && Step(cfg, f, e).Some?
    ensures FrameInv(cfg, Step(cfg, f, e).value)
  {
    match e
    case Answered(answer) => AnswerKeepsInv(cfg, f, answer);
    case Slept(d) => SleepKeepsInv(cfg, f, d);
    case _ => assert Step(cfg, f, e).value.slept == f.slept;
  }

  lemma {:induction false} StepsKeepInv(cfg: Config, f: Frame, tr: seq<Event>)
    requires FrameInv(cfg, f) && Steps(cfg, f, tr).Some?
    ensures FrameInv(cfg, Steps(cfg, f, tr).value) && Steps(cfg, f, tr).value.skip == f.skip
    decreases |tr|
  {
    if tr != [] {
      StepKeepsInv(cfg, f, tr[0]);
      StepsKeepInv(cfg, Step(cfg, f, tr[0]).value, tr[1..]);
    }
  }

  lemma RunKeepsInv(cfg: Config, skip: bool, tr: seq<Event>)
    requires Run(cfg, skip, tr).Some?
    ensures FrameInv(cfg, Run(cfg, skip, tr).value) && Run(cfg, skip, tr).value.skip == skip
  {
    StepsKeepInv(cfg, Init(skip), tr);
  }

  // ---------------------------------------------------------------- consequences for one RoundTrip

  /** At most MaxAttempts + 2 requests reach the base transport, MaxAttempts + 1 when no re-auth may be
      started, and each was granted its own limiter wait. */
  lemma SendsBounded(cfg: Config, f: Frame)
    requires FrameInv(cfg, f)
    ensures f.sends <= f.waits
    ensures f.sends <= cfg.policy.Budget() + 2
    ensures f.skip || !cfg.canReauth || !f.reauthed ==> f.sends <= cfg.policy.Budget() + 1
  {}

  /** The total sleep after r retries lies between the sums of the halved and of the full caps of the
      attempts 0 .. r-1, and below the documented sum of base * 2^i, each at most MaxDelay: a re-auth retry
      in between does not shift the sequence. */
  lemma TotalSleepBounded(cfg: Config, skip: bool, tr: seq<Event>)
    requires cfg.policy.BaseDelay > 0 && cfg.policy.MaxDelay > 0
    requires Run(cfg, skip, tr).Some?
    ensures var f, p := Run(cfg, skip, tr).value, cfg.policy;
            && |f.slept| == f.attempt <= p.Budget()
            && SumOfHalves(p, f.attempt) <= Sum(f.slept) <= SumOfCaps(p, f.attempt)
            && Sum(f.slept) <= Min(p.BaseDelay * (Pow2(f.attempt) - 1), f.attempt * p.MaxDelay)
  {
    RunKeepsInv(cfg, skip, tr);
    var f, p := Run(cfg, skip, tr).value, cfg.policy;
    SleepBetweenSums(p, f.slept);
    SumOfCapsBounded(p, f.attempt);
  }

  /** A measure every step decreases. */
  const ROUND: nat := 20

  function Rank(pc: Pc): nat {
    match pc
    case Start => 12
    case Waiting => 11
    case Snapshot => 10
    case Cloning => 9
    case Sending => 8
    case Sleeping => 7
    case Locking => 18
    case Checking => 17
    case Reauthing => 16
    case Publishing => 15
    case Unlocking(_) => 14
    case Finished(_) => 0
  }

  function Left(cfg: Config, f: Frame): int {
    cfg.policy.Budget() - f.attempt + (if f.reauthed then 0 else 1)
  }

  function Measure(cfg: Config, f: Frame): int {
    ROUND * Left(cfg, f) + Rank(f.pc)
  }

  function MeasureBound(cfg: Config): nat {
    ROUND * (cfg.policy.Budget() + 2)
  }

  lemma StepDecreases(cfg: Config, f: Frame, e: Event)
    requires FrameInv(cfg, f) && Step(cfg, f, e).Some?
    ensures 0 <= Measure(cfg, Step(cfg, f, e).value) < Measure(cfg, f) < MeasureBound(cfg)
  {}

  /** Every run is finite: it has at most 20 * (MaxAttempts + 2) steps. */
  lemma {:induction false} RunsAreShort(cfg: Config, f: Frame, tr: seq<Event>)
    requires FrameInv(cfg, f) && Steps(cfg, f, tr).Some?
    ensures |tr| + Measure(cfg, Steps(cfg, f, tr).value) <= Measure(cfg, f)
    decreases |tr|
  {
    if tr != [] {
      StepDecreases(cfg, f, tr[0]);
      StepKeepsInv(cfg, f, tr[0]);
      RunsAreShort(cfg, Step(cfg, f, tr[0]).value, tr[1..]);
    }
  }

  // ---------------------------------------------------------------- the bound is reached

  function Round(p: Policy, n: nat, code: int): seq<Event> {
    ASK + ([Answered(Status(code))]
           + if code == 403 then [Locked, Compared(1), Unlocked] else [Slept(p.Cap(n) / 2)])
  }

  function FailingRounds(p: Policy, n: nat): seq<Event> {
    if n == 0 then [BodyRead(true)] + Round(p, 0, 403)
    else FailingRounds(p, n - 1) + Round(p, n - 1, 500)
  }

  lemma RunRound(cfg: Config, f: Frame, code: int)
    requires cfg.policy.MaxDelay > 0 && cfg.canReauth && f.pc == Waiting && !f.skip
    requires if code == 403 then !f.reauthed else code == 500 && f.attempt < cfg.policy.Budget()
    ensures var r := Steps(cfg, f, Round(cfg.policy, f.attempt, code));
            r.Some? && r.value.pc == Waiting && r.value.sends == f.sends + 1 && !r.value.skip
            && r.value.attempt == (if code == 403 then f.attempt else f.attempt + 1)
            && r.value.reauthed == (f.reauthed || code == 403)
  {
    var d := cfg.policy.Cap(f.attempt) / 2;
    assert cfg.policy.Cap(f.attempt) > 0;
    var g := AfterAnswer(cfg, f.(pc := Sending, waits := f.waits + 1, snap := 0), Status(code));
    if code == 403 {
      AskAnswered(cfg, f, code, [Locked, Compared(1), Unlocked]);
      Unfold(cfg, g, [Locked, Compared(1), Unlocked]);
      Unfold(cfg, g.(pc := Checking), [Compared(1), Unlocked]);
      Unfold(cfg, g.(pc := Unlocking(true)), [Unlocked]);
    } else {
      AskAnswered(cfg, f, code, [Slept(d)]);
      Unfold(cfg, g, [Slept(d)]);
    }
  }

  lemma AskAnswered(cfg: Config, f: Frame, code: int, rest: seq<Event>)
    requires f.pc == Waiting && rest != []
    ensures Steps(cfg, f, ASK + ([Answered(Status(code))] + rest))
            == Steps(cfg, AfterAnswer(cfg, f.(pc := Sending, waits := f.waits + 1, snap := 0), Status(code)), rest)
  {
    var t := [Answered(Status(code))] + rest;
    Ask(cfg, f);
    StepsAppend(cfg, f, ASK, t);
    Unfold(cfg, f.(pc := Sending, waits := f.waits + 1, snap := 0), t);
    assert t[1..] == rest;
  }

  const ASK: seq<Event> := [Waited(true), Loaded(0), Cloned(true)]

  lemma Ask(cfg: Config, f: Frame)
    requires f.pc == Waiting
    ensures Steps(cfg, f, ASK) == Some(f.(pc := Sending, waits := f.waits + 1, snap := 0))
  {
    var g := f.(pc := Snapshot, waits := f.waits + 1);
    Unfold(cfg, f, ASK);
    Unfold(cfg, g, [Loaded(0), Cloned(true)]);
    Unfold(cfg, g.(pc := Cloning, snap := 0), [Cloned(true)]);
    assert ASK[1..] == [Loaded(0), Cloned(true)];
  }

  lemma Unfold(cfg: Config, f: Frame, t: seq<Event>)
    requires t != [] && Step(cfg, f, t[0]).Some?
    ensures Steps(cfg, f, t) == Steps(cfg, Step(cfg, f, t[0]).value, t[1..])
    ensures |t| == 1 ==> Steps(cfg, f, t) == Step(cfg, f, t[0])
    ensures |t| == 2 ==> t[1..] == [t[1]]
    ensures |t| == 3 ==> t[1..] == [t[1], t[2]]
  {}

  lemma {:induction false} FailingRoundsRun(cfg: Config, n: nat)
    requires cfg.policy.MaxDelay > 0 && cfg.canReauth && n <= cfg.policy.Budget()
    ensures var r := Run(cfg, false, FailingRounds(cfg.policy, n));
            r.Some? && r.value.pc == Waiting && r.value.attempt == n && r.value.sends == n + 1
            && r.value.reauthed && !r.value.skip
  {
    var p := cfg.policy;
    if n == 0 {
      var t := [BodyRead(true)];
      assert Steps(cfg, Init(false), t) == Some(Init(false).(pc := Waiting));
      StepsAppend(cfg, Init(false), t, Round(p, 0, 403));
      RunRound(cfg, Init(false).(pc := Waiting), 403);
    } else {
      FailingRoundsRun(cfg, n - 1);
      StepsAppend(cfg, Init(false), FailingRounds(p, n - 1), Round(p, n - 1, 500));
      RunRound(cfg, Run(cfg, false, FailingRounds(p, n - 1)).value, 500);
    }
  }

  /** The bound of SendsBounded is exact: one eligible 403, then failures until the attempts are used up. */
  lemma SendsBoundReached(cfg: Config) returns (tr: seq<Event>)
    requires cfg.policy.MaxDelay > 0 && cfg.canReauth
    ensures Run(cfg, false, tr).Some? && Run(cfg, false, tr).value.pc.Finished?
    ensures Run(cfg, false, tr).value.sends == cfg.policy.Budget() + 2
  {
    var t := FailingRounds(cfg.policy, cfg.policy.Budget());
    FailingRoundsRun(cfg, cfg.policy.Budget());
    var f := Run(cfg, false, t).value;
    tr := t + ASK + [Answered(NetworkError)];
    StepsAppend(cfg, Init(false), t, ASK);
    Ask(cfg, f);
    StepsAppend(cfg, Init(false), t + ASK, [Answered(NetworkError)]);
    Unfold(cfg, Run(cfg, false, t + ASK).value, [Answered(NetworkError)]);
  }
}
