/** What a caller of RoundTrip (fileee/transport.go, lines 152-234) can observe, said without its program
    counter: which event may follow a history, when the history is over and with which outcome. The step
    machine of RoundTripSpec.dfy is proved to allow exactly these histories. */
module RoundTripTrace {
  import opened Backoff
  import opened Integers
  import opened Optional
  import opened RoundTripSpec

  function Last<T>(s: seq<T>): T
    requires s != []
  {
    s[|s| - 1]
  }

  function Sleeps(tr: seq<Event>): nat {
    if tr == [] then 0 else Sleeps(tr[..|tr| - 1]) + if Last(tr).Slept? then 1 else 0
  }

  function LastLoaded(tr: seq<Event>): nat {
    if tr == [] then 0 else if Last(tr).Loaded? then Last(tr).epoch else LastLoaded(tr[..|tr| - 1])
  }

  /** The answers of the base transport, in order. */
  function Answers(tr: seq<Event>): seq<Answer> {
    if tr == [] then []
    else Answers(tr[..|tr| - 1]) + if Last(tr).Answered? then [Last(tr).answer] else []
  }

  /** How often the server answered 403. */
  function Refusals(answers: seq<Answer>): nat {
    if answers == [] then 0 else Refusals(answers[..|answers| - 1]) + if Last(answers) == Status(403) then 1 else 0
  }

  /** A network error, 429 or 5xx. */
  predicate Transient(a: Answer) {
    a.NetworkError? || a.code == 429 || a.code >= 500
  }

  predicate MayReauth(cfg: Config, skip: bool) { cfg.canReauth && !skip }

  /** A response that is neither 403 nor transient. */
  predicate Settled(a: Answer) {
    a.Status? && a.code != 403 && a.code != 429 && a.code < 500
  }

  /** What counts of a history: the last event, how many sleeps and 403 answers there were, the last epoch
      loaded, and whether the event before the last was a failed re-auth. */
  datatype Past = Past(last: Option<Event>, sleeps: nat, refusals: nat, loaded: nat, failed: bool)

  function PastOf(tr: seq<Event>): Past {
    if tr == [] then Past(None, 0, 0, 0, false)
    else Past(Some(Last(tr)), Sleeps(tr), Refusals(Answers(tr)), LastLoaded(tr),
              |tr| >= 2 && tr[|tr| - 2] == Reauthed(false))
  }

  /** The event e may follow. */
  predicate Allows(cfg: Config, skip: bool, p: Past, e: Event) {
    match p.last
    case None => e.BodyRead?
    case Some(BodyRead(ok)) => ok && e.Waited?
    case Some(Waited(ok)) => ok && e.Loaded?
    case Some(Loaded(_)) => e.Cloned?
    case Some(Cloned(ok)) => ok && e.Answered?
    case Some(Answered(a)) =>
      if Transient(a) then p.sleeps < cfg.policy.MaxAttempts && e.Slept? && cfg.policy.PossibleDelay(p.sleeps, e.d)
      else a == Status(403) && MayReauth(cfg, skip) && p.refusals == 1 && e.Locked?
    case Some(Slept(_)) => e.Waited?
    case Some(Locked) => e.Compared?
    case Some(Compared(epoch)) => if epoch == p.loaded then e.Reauthed? else e.Unlocked?
    case Some(Reauthed(ok)) => if ok then e.Published? else e.Unlocked?
    case Some(Published) => e.Unlocked?
    case Some(Unlocked) => !p.failed && e.Waited?
  }

  /** The outcome, if it is over. */
  function Over(cfg: Config, skip: bool, p: Past): Option<Outcome> {
    match p.last
    case Some(BodyRead(false)) => Some(Failed(BodyUnreadable))
    case Some(Waited(false)) => Some(Failed(LimiterRefused))
    case Some(Cloned(false)) => Some(Failed(BodyNotReproducible))
    case Some(Answered(NetworkError)) => if p.sleeps < cfg.policy.MaxAttempts then None else Some(Failed(Network))
    case Some(Answered(Status(code))) =>
      if code == 403 then
        if MayReauth(cfg, skip) && p.refusals == 1 then None else Some(Returned(403))
      else if code == 429 || code >= 500 then
        if p.sleeps < cfg.policy.MaxAttempts then None else Some(Returned(code))
      else Some(Returned(code))
    case Some(Unlocked) => if p.failed then Some(Failed(ReauthFailed)) else None
    case _ => None
  }

  /** The event e may follow the history tr. */
  predicate Enabled(cfg: Config, skip: bool, tr: seq<Event>, e: Event) {
    Allows(cfg, skip, PastOf(tr), e)
  }

  /** The outcome, if the history is over. */
  function Ending(cfg: Config, skip: bool, tr: seq<Event>): Option<Outcome> {
    Over(cfg, skip, PastOf(tr))
  }

  // ---------------------------------------------------------------- the machine follows the history

  function Next(p: Past, e: Event): Past {
    Past(Some(e),
         p.sleeps + if e.Slept? then 1 else 0,
         p.refusals + if e == Answered(Status(403)) then 1 else 0,
         if e.Loaded? then e.epoch else p.loaded,
         p.last == Some(Reauthed(false)))
  }

  /** The program counter of the machine after this past. */
  function PcAfter(cfg: Config, skip: bool, p: Past): Pc {
    match Over(cfg, skip, p)
    case Some(out) => Finished(out)
    case None =>
      match p.last
      case None => Start
      case Some(BodyRead(_)) => Waiting
      case Some(Waited(_)) => Snapshot
      case Some(Loaded(_)) => Cloning
      case Some(Cloned(_)) => Sending
      case Some(Answered(a)) => if Transient(a) then Sleeping else Locking
      case Some(Slept(_)) => Waiting
      case Some(Locked) => Checking
      case Some(Compared(epoch)) => if epoch == p.loaded then Reauthing else Unlocking(true)
      case Some(Reauthed(ok)) => if ok then Publishing else Unlocking(false)
      case Some(Published) => Unlocking(true)
      case Some(Unlocked) => Waiting
  }

  predicate Tracks(cfg: Config, skip: bool, p: Past, f: Frame) {
    && f.skip == skip
    && f.pc == PcAfter(cfg, skip, p)
    && f.attempt == p.sleeps
    && f.snap == p.loaded
    && (f.reauthed <==> MayReauth(cfg, skip) && p.refusals > 0)
    && (f.pc == Unlocking(false) <==> p.last == Some(Reauthed(false)))
  }

  lemma StepAllowed(cfg: Config, skip: bool, p: Past, f: Frame, e: Event)
    requires Tracks(cfg, skip, p, f)
    ensures Step(cfg, f, e).Some? <==> Allows(cfg, skip, p, e)
  {}

  lemma AnswerTracks(cfg: Config, skip: bool, p: Past, f: Frame, answer: Answer)
    requires Tracks(cfg, skip, p, f) && f.pc == Sending
    ensures Tracks(cfg, skip, Next(p, Answered(answer)), AfterAnswer(cfg, f, answer))
    ensures AfterAnswer(cfg, f, answer).answers == f.answers + [answer]
  {}

  lemma StepTracks(cfg: Config, skip: bool, p: Past, f: Frame, e: Event)
    requires Tracks(cfg, skip, p, f) && Step(cfg, f, e).Some?
    ensures Tracks(cfg, skip, Next(p, e), Step(cfg, f, e).value)
    ensures Step(cfg, f, e).value.answers == if e.Answered? then f.answers + [e.answer] else f.answers
  {
    if e.Answered? { AnswerTracks(cfg, skip, p, f, e.answer); }
  }

  predicate Agrees(cfg: Config, skip: bool, tr: seq<Event>, f: Frame) {
    Tracks(cfg, skip, PastOf(tr), f) && f.answers == Answers(tr)
  }

  lemma HistorySnoc(tr: seq<Event>, e: Event)
    ensures Sleeps(tr + [e]) == Sleeps(tr) + if e.Slept? then 1 else 0
    ensures LastLoaded(tr + [e]) == if e.Loaded? then e.epoch else LastLoaded(tr)
    ensures Answers(tr + [e]) == if e.Answered? then Answers(tr) + [e.answer] else Answers(tr)
    ensures Last(tr + [e]) == e && (tr != [] ==> (tr + [e])[|tr + [e]| - 2] == Last(tr))
    ensures PastOf(tr + [e]) == Next(PastOf(tr), e)
  {
    assert (tr + [e])[..|tr|] == tr;
    if e.Answered? { CountsSnoc(Answers(tr), e.answer); }
  }

  lemma StepEnabled(cfg: Config, skip: bool, tr: seq<Event>, f: Frame, e: Event)
    requires Agrees(cfg, skip, tr, f)
    ensures Step(cfg, f, e).Some? <==> Enabled(cfg, skip, tr, e)
  {
    StepAllowed(cfg, skip, PastOf(tr), f, e);
  }

  lemma StepAgrees(cfg: Config, skip: bool, tr: seq<Event>, f: Frame, e: Event)
    requires Agrees(cfg, skip, tr, f) && Step(cfg, f, e).Some?
    ensures Agrees(cfg, skip, tr + [e], Step(cfg, f, e).value)
  {
    HistorySnoc(tr, e);
    StepTracks(cfg, skip, PastOf(tr), f, e);
  }

  lemma RunSnoc(cfg: Config, skip: bool, tr: seq<Event>, e: Event)
    requires Run(cfg, skip, tr).Some?
    ensures Run(cfg, skip, tr + [e]) == Step(cfg, Run(cfg, skip, tr).value, e)
  {
    StepsAppend(cfg, Init(skip), tr, [e]);
    var f := Run(cfg, skip, tr).value;
    assert Steps(cfg, f, [e]) == Step(cfg, f, e) by {
      if Step(cfg, f, e).Some? { Unfold(cfg, f, [e]); }
    }
  }

  lemma {:induction false} PrefixRuns(cfg: Config, f: Frame, s: seq<Event>, t: seq<Event>)
    requires Steps(cfg, f, s + t).Some?
    ensures Steps(cfg, f, s).Some?
    decreases |s|
  {
    if s != [] {
      assert (s + t)[1..] == s[1..] + t && (s + t)[0] == s[0];
      PrefixRuns(cfg, Step(cfg, f, s[0]).value, s[1..], t);
    }
  }

  lemma {:induction false} RunAgrees(cfg: Config, skip: bool, tr: seq<Event>)
    requires Run(cfg, skip, tr).Some?
    ensures Agrees(cfg, skip, tr, Run(cfg, skip, tr).value)
  {
    if tr != [] {
      var n := |tr| - 1;
      assert tr == tr[..n] + [tr[n]];
      PrefixRuns(cfg, Init(skip), tr[..n], [tr[n]]);
      RunAgrees(cfg, skip, tr[..n]);
      RunSnoc(cfg, skip, tr[..n], tr[n]);
      StepAgrees(cfg, skip, tr[..n], Run(cfg, skip, tr[..n]).value, tr[n]);
    }
  }

  // ---------------------------------------------------------------- the machine allows exactly these histories

  /** RoundTrip can go through a history if and only if every event of it may follow those before. */
  lemma {:induction false} RunIff(cfg: Config, skip: bool, tr: seq<Event>)
    ensures Run(cfg, skip, tr).Some? <==> forall j :: 0 <= j < |tr| ==> Enabled(cfg, skip, tr[..j], tr[j])
  {
    if tr != [] {
      var n := |tr| - 1;
      var front := tr[..n];
      assert tr == front + [tr[n]];
      RunIff(cfg, skip, front);
      assert forall j :: 0 <= j < n ==> front[..j] == tr[..j] && front[j] == tr[j];
      if Run(cfg, skip, front).Some? {
        RunAgrees(cfg, skip, front);
        RunSnoc(cfg, skip, front, tr[n]);
        StepEnabled(cfg, skip, front, Run(cfg, skip, front).value, tr[n]);
      } else if Run(cfg, skip, tr).Some? {
        PrefixRuns(cfg, Init(skip), front, [tr[n]]);
      }
    }
  }

  lemma OverEnds(cfg: Config, skip: bool, p: Past, e: Event)
    requires Over(cfg, skip, p).Some?
    ensures !Allows(cfg, skip, p, e)
  {}

  /** It has returned if and only if the history is over, and with that outcome; then no event follows. */
  lemma OutcomeIff(cfg: Config, skip: bool, tr: seq<Event>)
    requires Run(cfg, skip, tr).Some?
    ensures var f := Run(cfg, skip, tr).value;
            && (f.pc.Finished? <==> Ending(cfg, skip, tr).Some?)
            && (f.pc.Finished? ==> f.pc.out == Ending(cfg, skip, tr).value)
            && f.answers == Answers(tr)
            && (f.pc.Finished? ==> forall e :: !Enabled(cfg, skip, tr, e))
  {
    RunAgrees(cfg, skip, tr);
    if Ending(cfg, skip, tr).Some? {
      forall e ensures !Enabled(cfg, skip, tr, e) { OverEnds(cfg, skip, PastOf(tr), e); }
    }
  }

  // ---------------------------------------------------------------- which answer leads where

  lemma EnabledAt(cfg: Config, skip: bool, tr: seq<Event>, j: nat)
    requires Run(cfg, skip, tr).Some? && j < |tr|
    ensures Enabled(cfg, skip, tr[..j], tr[j])
    ensures j > 0 ==> Last(tr[..j]) == tr[j - 1]
  {
    RunIff(cfg, skip, tr);
  }

  /** An answer other than 403, 429, 5xx and a network error ends the call at once and is returned. */
  lemma SettledEnds(cfg: Config, skip: bool, tr: seq<Event>, j: nat, code: int)
    requires Run(cfg, skip, tr).Some? && j < |tr| && tr[j] == Answered(Status(code))
    requires code != 403 && code != 429 && code < 500
    ensures j == |tr| - 1 && Run(cfg, skip, tr).value.pc == Finished(Returned(code))
  {
    if j + 1 < |tr| { EnabledAt(cfg, skip, tr, j + 1); }
    OutcomeIff(cfg, skip, tr);
  }

  /** The mutex is taken only after a 403. */
  lemma LockedAfterRefusal(cfg: Config, skip: bool, tr: seq<Event>, j: nat)
    requires Run(cfg, skip, tr).Some? && j < |tr| && tr[j].Locked?
    ensures j >= 1 && tr[j - 1] == Answered(Status(403)) && MayReauth(cfg, skip)
  {
    EnabledAt(cfg, skip, tr, j);
  }

  /** The callback is called only under the mutex, after a comparison with the snapshot that found no newer
      epoch. */
  lemma ReauthOnlyAfterRefusal(cfg: Config, skip: bool, tr: seq<Event>, j: nat)
    requires Run(cfg, skip, tr).Some? && j < |tr| && tr[j].Reauthed?
    ensures j >= 3 && tr[j - 3] == Answered(Status(403)) && MayReauth(cfg, skip) && tr[j - 2].Locked?
    ensures tr[j - 1] == Compared(LastLoaded(tr[..j]))
  {
    EnabledAt(cfg, skip, tr, j);
    BeforeReauthed(cfg, skip, tr[..j], tr[j]);
    EnabledAt(cfg, skip, tr, j - 1);
    BeforeCompared(cfg, skip, tr[..j - 1], tr[j - 1]);
    LockedAfterRefusal(cfg, skip, tr, j - 2);
  }

  lemma BeforeReauthed(cfg: Config, skip: bool, tr: seq<Event>, e: Event)
    requires Enabled(cfg, skip, tr, e) && e.Reauthed?
    ensures tr != [] && Last(tr) == Compared(LastLoaded(tr))
  {}

  lemma BeforeCompared(cfg: Config, skip: bool, tr: seq<Event>, e: Event)
    requires Enabled(cfg, skip, tr, e) && e.Compared?
    ensures tr != [] && Last(tr).Locked?
  {}

  /** The first 403 leads to the mutex if and only if there is a callback and the request is not marked;
      otherwise, and on every later 403, the 403 is returned. */
  lemma RefusalLeads(cfg: Config, skip: bool, tr: seq<Event>)
    requires Run(cfg, skip, tr).Some? && tr != [] && Last(tr) == Answered(Status(403))
    ensures var f := Run(cfg, skip, tr).value;
            && (f.pc == Locking <==> cfg.canReauth && !skip && Refusals(Answers(tr)) == 1)
            && (f.pc == Finished(Returned(403)) <==> !(cfg.canReauth && !skip && Refusals(Answers(tr)) == 1))
  {
    RunAgrees(cfg, skip, tr);
  }

  /** A sleep directly follows a network error, 429 or 5xx, and after one of these there is a sleep if and only
      if fewer than MaxAttempts went before. */
  lemma SleepIff(cfg: Config, skip: bool, tr: seq<Event>, d: int)
    requires Run(cfg, skip, tr).Some?
    ensures Run(cfg, skip, tr + [Slept(d)]).Some?
            <==> tr != [] && Last(tr).Answered? && Transient(Last(tr).answer)
                 && Sleeps(tr) < cfg.policy.MaxAttempts && cfg.policy.PossibleDelay(Sleeps(tr), d)
  {
    RunAgrees(cfg, skip, tr);
    RunSnoc(cfg, skip, tr, Slept(d));
    StepEnabled(cfg, skip, tr, Run(cfg, skip, tr).value, Slept(d));
  }

  // ---------------------------------------------------------------- the outcome from the answers

  /** How many answers were transient. */
  function Transients(answers: seq<Answer>): nat {
    if answers == [] then 0
    else Transients(answers[..|answers| - 1]) + if Transient(Last(answers)) then 1 else 0
  }

  /** The failures that come without an answer of the server. */
  predicate Unanswered(out: Outcome) {
    out.Failed? && out.why in {BodyUnreadable, LimiterRefused, BodyNotReproducible}
  }

  /** What the answers say about the outcome. */
  predicate Explains(cfg: Config, skip: bool, answers: seq<Answer>, out: Outcome) {
    && (forall j :: 0 <= j < |answers| - 1 ==> !Settled(answers[j]))
    && Refusals(answers) <= (if MayReauth(cfg, skip) then 2 else 1)
    && Transients(answers) <= cfg.policy.Budget() + 1
    && (answers == [] ==> Unanswered(out))
    && (answers != [] ==>
          var last := Last(answers);
          && (Settled(last) ==> out == Returned(last.code))
          && (last == Status(403) ==>
                if MayReauth(cfg, skip) && Refusals(answers) == 1 then out == Failed(ReauthFailed) || Unanswered(out)
                else out == Returned(403))
          && (Transient(last) ==>
                if Transients(answers) <= cfg.policy.Budget() then Unanswered(out)
                else out == if last.NetworkError? then Failed(Network) else Returned(last.code)))
  }

  predicate InSection(e: Event) {
    e.Locked? || e.Compared? || e.Reauthed? || e.Published? || e.Unlocked?
  }

  function MaxRefusals(cfg: Config, skip: bool): nat { if MayReauth(cfg, skip) then 2 else 1 }

  /** What the answers of a history, its sleeps and its last event have in common. */
  predicate Fits(cfg: Config, skip: bool, answers: seq<Answer>, sleeps: nat, last: Option<Event>) {
    && sleeps <= cfg.policy.Budget()
    && Transients(answers)
       == sleeps + (if last.Some? && last.value.Answered? && Transient(last.value.answer) then 1 else 0)
    && Refusals(answers) <= MaxRefusals(cfg, skip)
    && (forall j :: 0 <= j < |answers| - 1 ==> !Settled(answers[j]))
    && (answers != [] && (Settled(Last(answers)) || Refusals(answers) == MaxRefusals(cfg, skip)) ==>
          last == Some(Answered(Last(answers))) && (Settled(Last(answers)) || Last(answers) == Status(403)))
    && (last.None? || last.value.BodyRead? ==> answers == [])
    && (last.Some? && InSection(last.value) ==> answers != [] && Last(answers) == Status(403))
    && (last.Some? && last.value.Answered? ==> answers != [] && Last(answers) == last.value.answer)
  }

  predicate Consistent(cfg: Config, skip: bool, tr: seq<Event>) {
    Fits(cfg, skip, Answers(tr), Sleeps(tr), PastOf(tr).last)
  }

  lemma CountsSnoc(answers: seq<Answer>, a: Answer)
    ensures Refusals(answers + [a]) == Refusals(answers) + if a == Status(403) then 1 else 0
    ensures Transients(answers + [a]) == Transients(answers) + if Transient(a) then 1 else 0
  {
    assert (answers + [a])[..|answers|] == answers;
  }

  /** While a history goes on, its last answer has not ended it. */
  lemma StillOpen(cfg: Config, skip: bool, answers: seq<Answer>, p: Past, e: Event)
    requires Fits(cfg, skip, answers, p.sleeps, p.last) && Allows(cfg, skip, p, e)
    requires p.refusals == Refusals(answers)
    ensures answers != [] ==> !Settled(Last(answers)) && Refusals(answers) < MaxRefusals(cfg, skip)
  {}

  /** Before an answer there was none yet, or the last one was a first refusal or transient. */
  lemma AnswerFits(cfg: Config, skip: bool, answers: seq<Answer>, p: Past, answer: Answer)
    requires Fits(cfg, skip, answers, p.sleeps, p.last) && Allows(cfg, skip, p, Answered(answer))
    requires p.refusals == Refusals(answers)
    ensures Fits(cfg, skip, answers + [answer], p.sleeps, Some(Answered(answer)))
  {
    StillOpen(cfg, skip, answers, p, Answered(answer));
    CountsSnoc(answers, answer);
    assert Last(answers + [answer]) == answer;
    assert forall j :: 0 <= j < |answers| ==> !Settled(answers[j]);
  }

  /** After an answer that goes on there is a sleep or the mutex. */
  lemma ReactionFits(cfg: Config, skip: bool, answers: seq<Answer>, p: Past, e: Event)
    requires Fits(cfg, skip, answers, p.sleeps, p.last) && Allows(cfg, skip, p, e)
    requires p.refusals == Refusals(answers) && p.last.Some? && p.last.value.Answered?
    ensures Fits(cfg, skip, answers, if e.Slept? then p.sleeps + 1 else p.sleeps, Some(e))
    ensures e.Slept? || e.Locked?
  {
    StillOpen(cfg, skip, answers, p, e);
  }

  lemma PlainFits(cfg: Config, skip: bool, answers: seq<Answer>, p: Past, e: Event)
    requires Fits(cfg, skip, answers, p.sleeps, p.last) && Allows(cfg, skip, p, e)
    requires p.refusals == Refusals(answers) && !e.Answered? && (p.last.Some? ==> !p.last.value.Answered?)
    ensures Fits(cfg, skip, answers, p.sleeps, Some(e)) && !e.Slept?
  {
    StillOpen(cfg, skip, answers, p, e);
    assert !e.Locked?;
    assert InSection(e) ==> p.last.Some? && InSection(p.last.value);
  }

  lemma NextConsistent(cfg: Config, skip: bool, tr: seq<Event>, e: Event)
    requires Consistent(cfg, skip, tr) && Enabled(cfg, skip, tr, e)
    ensures Consistent(cfg, skip, tr + [e])
  {
    HistorySnoc(tr, e);
    var answers, p := Answers(tr), PastOf(tr);
    if e.Answered? {
      AnswerFits(cfg, skip, answers, p, e.answer);
    } else if p.last.Some? && p.last.value.Answered? {
      ReactionFits(cfg, skip, answers, p, e);
    } else {
      PlainFits(cfg, skip, answers, p, e);
    }
  }

  lemma {:induction false} RunConsistent(cfg: Config, skip: bool, tr: seq<Event>)
    requires Run(cfg, skip, tr).Some?
    ensures Consistent(cfg, skip, tr)
  {
    if tr != [] {
      var n := |tr| - 1;
      assert tr == tr[..n] + [tr[n]];
      EnabledAt(cfg, skip, tr, n);
      PrefixRuns(cfg, Init(skip), tr[..n], [tr[n]]);
      RunConsistent(cfg, skip, tr[..n]);
      NextConsistent(cfg, skip, tr[..n], tr[n]);
    }
  }

  /** The call ended with an answer. */
  lemma AnswerExplained(cfg: Config, skip: bool, tr: seq<Event>, out: Outcome)
    requires Consistent(cfg, skip, tr) && Ending(cfg, skip, tr) == Some(out) && Last(tr).Answered?
    ensures Explains(cfg, skip, Answers(tr), out)
  {
    assert Last(Answers(tr)) == Last(tr).answer;
  }

  lemma EndsOtherwise(cfg: Config, skip: bool, tr: seq<Event>, out: Outcome)
    requires Ending(cfg, skip, tr) == Some(out) && !Last(tr).Answered?
    ensures Unanswered(out) || (Last(tr).Unlocked? && out == Failed(ReauthFailed))
  {}

  /** The call ended otherwise: there was no answer, or the last one was a first refusal or transient. */
  lemma OtherExplained(cfg: Config, skip: bool, tr: seq<Event>, out: Outcome)
    requires Consistent(cfg, skip, tr) && Ending(cfg, skip, tr) == Some(out) && !Last(tr).Answered?
    ensures Explains(cfg, skip, Answers(tr), out)
  {
    EndsOtherwise(cfg, skip, tr, out);
    var answers := Answers(tr);
    if answers != [] {
      assert !Settled(Last(answers)) && Refusals(answers) < MaxRefusals(cfg, skip);
      if Last(answers) == Status(403) {
        assert Refusals(answers) > 0;
      } else {
        assert !Last(tr).Unlocked?;
      }
    }
  }

  /** The answers of the base transport decide the outcome, but for the failures that come without one and the
      result of the re-auth. */
  lemma OutcomeExplained(cfg: Config, skip: bool, tr: seq<Event>)
    requires Run(cfg, skip, tr).Some? && Run(cfg, skip, tr).value.pc.Finished?
    ensures var f := Run(cfg, skip, tr).value; Explains(cfg, skip, f.answers, f.pc.out)
  {
    RunConsistent(cfg, skip, tr);
    OutcomeIff(cfg, skip, tr);
    var out := Ending(cfg, skip, tr).value;
    if Last(tr).Answered? {
      AnswerExplained(cfg, skip, tr, out);
    } else {
      OtherExplained(cfg, skip, tr, out);
    }
  }
}
