/** fileee/transport.go and fileee/auth.go: any number of requests sharing one transport, in every
    interleaving. A request that holds reauthMu runs the re-auth handshake, whose up to four requests
    (token/login, start, existent, login) go through the same transport. */
module Concurrency {
  import opened Optional
  import opened Backoff
  import opened Integers
  import opened RoundTripSpec

  datatype Stage = TokenLogin | LoginStart | LoginExistent | LoginPost

  datatype Handshake = NoHandshake | Handshake(stage: Stage, inner: Frame)

  /** nested: requests that finished handshake stages handed to the base transport. attached:
      http.Client has put on the cookies, which it does before RoundTrip; begun: the epoch then. */
  datatype Thread = Thread(outer: Frame, hs: Handshake, nested: nat, begun: nat, attached: bool)

  /** One completed call of the re-auth callback under reauthMu. */
  datatype Try = Try(who: nat, begun: nat, snap: nat, ok: bool)

  datatype Global = Global(threads: seq<Thread>, owner: Option<nat>, epoch: nat, tries: seq<Try>)

  datatype Action =
    | Attach
    | Own(e: Event)
    | Begin(hasToken: bool)
    | Inner(e: Event)
    | EndStage(good: bool)

  function InitGlobal(skips: seq<bool>): Global {
    Global(seq(|skips|, i requires 0 <= i < |skips| => Thread(Init(skips[i]), NoHandshake, 0, 0, false)), None, 0, [])
  }

  /** Shared variables as the event must see them. */
  predicate SeesShared(g: Global, e: Event) {
    match e
    case Loaded(epoch) => epoch == g.epoch
    case Compared(epoch) => epoch == g.epoch
    case Locked => g.owner.None?
    case _ => true
  }

  function Commit(g: Global, i: nat, e: Event): Global {
    match e
    case Locked => g.(owner := Some(i))
    case Published => g.(epoch := g.epoch + 1)
    case Unlocked => g.(owner := None)
    case _ => g
  }

  function Put(g: Global, i: nat, t: Thread): Global
    requires i < |g.threads|
  {
    g.(threads := g.threads[i := t])
  }

  /** Where reauthenticate goes when a handshake request returned: token/login falls back to the login
      handshake, /f/start counts whatever its status, the other three need status 200. `good` stands for
      what the payload, the decoding, the credentials and the session store add to that. */
  datatype Verdict = Next(stage: Stage) | Over(ok: bool)

  function Judge(stage: Stage, out: Outcome, good: bool): Verdict {
    var accepted := out == Returned(200) && good;
    match stage
    case TokenLogin => if accepted then Over(true) else Next(LoginStart)
    case LoginStart => if out.Returned? && good then Next(LoginExistent) else Over(false)
    case LoginExistent => if accepted then Next(LoginPost) else Over(false)
    case LoginPost => Over(accepted)
  }

  function TryOf(i: nat, t: Thread, ok: bool): Try { Try(i, t.begun, t.outer.snap, ok) }

  function NextState(cfg: Config, g: Global, i: nat, a: Action): Option<Global> {
    if i >= |g.threads| then None
    else
      var t := g.threads[i];
      match a
      case Attach =>
        if t.attached || !t.outer.pc.Start? then None else Some(Put(g, i, t.(attached := true, begun := g.epoch)))
      case Own(e) =>
        if e.Reauthed? || !SeesShared(g, e) || (e.BodyRead? && !t.attached) then None
        else (match Step(cfg, t.outer, e)
              case None => None
              case Some(f) => Some(Put(Commit(g, i, e), i, t.(outer := f))))
      case Begin(hasToken) =>
        if !t.outer.pc.Reauthing? || !t.hs.NoHandshake? then None
        else Some(Put(g, i, t.(hs := Handshake(if hasToken then TokenLogin else LoginStart, Init(true)))))
      case Inner(e) =>
        if !t.hs.Handshake? || e.Reauthed? || !SeesShared(g, e) then None
        else (match Step(cfg, t.hs.inner, e)
              case None => None
              case Some(f) => Some(Put(Commit(g, i, e), i, t.(hs := t.hs.(inner := f)))))
      case EndStage(good) =>
        if !t.hs.Handshake? || !t.hs.inner.pc.Finished? then None
        else
          var nested := t.nested + t.hs.inner.sends;
          match Judge(t.hs.stage, t.hs.inner.pc.out, good)
          case Next(stage) => Some(Put(g, i, t.(hs := Handshake(stage, Init(true)), nested := nested)))
          case Over(ok) =>
            match Step(cfg, t.outer, Reauthed(ok))
            case None => None
            case Some(f) =>
              Some(Put(g.(tries := g.tries + [TryOf(i, t, ok)]), i,
                       t.(outer := f, hs := NoHandshake, nested := nested)))
  }

  type Schedule = seq<(nat, Action)>

  function Exec(cfg: Config, g: Global, s: Schedule): Option<Global>
    decreases |s|
  {
    if s == [] then Some(g)
    else match NextState(cfg, g, s[0].0, s[0].1) case None => None case Some(h) => Exec(cfg, h, s[1..])
  }

  // ---------------------------------------------------------------- the invariant

  function OkCount(tries: seq<Try>): nat {
    if tries == [] then 0
    else OkCount(tries[..|tries| - 1]) + (if tries[|tries| - 1].ok then 1 else 0)
  }

  /** Every call was made by a request whose snapshot, taken after its cookies were put on, was the number of
      successes before the call. */
  predicate TriesInOrder(tries: seq<Try>) {
    forall k :: 0 <= k < |tries| ==> tries[k].begun <= tries[k].snap == OkCount(tries[..k])
  }

  /** unit for every stage that precedes this one. */
  function Before(stage: Stage, unit: nat): nat {
    match stage
    case TokenLogin => 0
    case LoginStart => unit
    case LoginExistent => 2 * unit
    case LoginPost => 3 * unit
  }

  predicate HandshakeInv(cfg: Config, t: Thread) {
    match t.hs
    case NoHandshake =>
      && t.nested <= 4 * (cfg.policy.Budget() + 1)
      && (!t.outer.reauthed || t.outer.pc.Locking? || t.outer.pc.Checking? || t.outer.pc.Reauthing?
          ==> t.nested == 0)
    case Handshake(stage, inner) =>
      && t.outer.pc.Reauthing?
      && inner.skip
      && FrameInv(cfg, inner)
      && t.nested <= Before(stage, cfg.policy.Budget() + 1)
  }

  predicate ThreadInv(cfg: Config, g: Global, i: nat)
    requires i < |g.threads|
  {
    var t := g.threads[i];
    && FrameInv(cfg, t.outer)
    && HandshakeInv(cfg, t)
    && (InCritical(t.outer.pc) <==> g.owner == Some(i))
    && (t.outer.pc.Reauthing? || t.outer.pc.Publishing? ==> t.outer.snap == g.epoch)
    && (t.outer.pc == Unlocking(true) ==> t.outer.snap < g.epoch)
    && t.outer.snap <= g.epoch
    && t.begun <= g.epoch
    && (t.outer.pc.Cloning? || t.outer.pc.Sending? || Answering(t.outer.pc) ==> t.begun <= t.outer.snap)
  }

  predicate OwnerPublishing(g: Global) {
    g.owner.Some? && g.owner.value < |g.threads| && g.threads[g.owner.value].outer.pc.Publishing?
  }

  predicate GlobalInv(cfg: Config, g: Global) {
    && (g.owner.Some? ==> g.owner.value < |g.threads|)
    && (forall i :: 0 <= i < |g.threads| ==> ThreadInv(cfg, g, i))
    && TriesInOrder(g.tries)
    && OkCount(g.tries) == g.epoch + if OwnerPublishing(g) then 1 else 0
  }

  /** Handshake requests never come near the mutex: this is what the skip mark is for. */
  lemma InnerStaysClear(cfg: Config, f: Frame)
    requires FrameInv(cfg, f) && f.skip
    ensures !f.pc.Locking? && !InCritical(f.pc)
  {}

  lemma TriesSnoc(tries: seq<Try>, t: Try)
    requires TriesInOrder(tries) && t.begun <= t.snap == OkCount(tries)
    ensures TriesInOrder(tries + [t])
    ensures OkCount(tries + [t]) == OkCount(tries) + if t.ok then 1 else 0
  {
    assert (tries + [t])[..|tries|] == tries;
    forall k | 0 <= k < |tries| ensures (tries + [t])[..k] == tries[..k] {}
  }

  /** The other requests do not notice a step of request i: it hands the mutex only to or from itself,
      and advances the epoch only while it holds the mutex. */
  lemma OthersKeepInv(cfg: Config, g: Global, h: Global, i: nat)
    requires GlobalInv(cfg, g) && i < |g.threads| == |h.threads|
    requires forall j :: 0 <= j < |g.threads| && j != i ==> h.threads[j] == g.threads[j]
    requires h.owner == g.owner || (g.owner.None? && h.owner == Some(i)) || (g.owner == Some(i) && h.owner.None?)
    requires h.epoch == g.epoch || (h.epoch > g.epoch && g.owner == Some(i))
    ensures forall j :: 0 <= j < |h.threads| && j != i ==> ThreadInv(cfg, h, j)
  {
    forall j | 0 <= j < |h.threads| && j != i ensures ThreadInv(cfg, h, j) {
      assert ThreadInv(cfg, g, j);
    }
  }

  /** Request i makes a step of its own machine. */
  predicate OwnStep(cfg: Config, g: Global, i: nat, e: Event) {
    GlobalInv(cfg, g) && NextState(cfg, g, i, Own(e)).Some?
  }

  lemma LockKeepsThreadInv(cfg: Config, g: Global, i: nat, e: Event)
    requires OwnStep(cfg, g, i, e) && (e.Locked? || e.Compared?)
    ensures ThreadInv(cfg, NextState(cfg, g, i, Own(e)).value, i)
  {
    assert ThreadInv(cfg, g, i);
    StepKeepsInv(cfg, g.threads[i].outer, e);
  }

  lemma UnlockKeepsThreadInv(cfg: Config, g: Global, i: nat, e: Event)
    requires OwnStep(cfg, g, i, e) && (e.Published? || e.Unlocked?)
    ensures ThreadInv(cfg, NextState(cfg, g, i, Own(e)).value, i)
  {
    assert ThreadInv(cfg, g, i);
    StepKeepsInv(cfg, g.threads[i].outer, e);
  }

  lemma PlainKeepsThreadInv(cfg: Config, g: Global, i: nat, e: Event)
    requires OwnStep(cfg, g, i, e) && !e.Locked? && !e.Compared? && !e.Published? && !e.Unlocked?
    ensures ThreadInv(cfg, NextState(cfg, g, i, Own(e)).value, i)
  {
    assert ThreadInv(cfg, g, i);
    StepKeepsInv(cfg, g.threads[i].outer, e);
    assert Commit(g, i, e) == g;
  }

  lemma OwnKeepsThreadInv(cfg: Config, g: Global, i: nat, e: Event)
    requires OwnStep(cfg, g, i, e)
    ensures ThreadInv(cfg, NextState(cfg, g, i, Own(e)).value, i)
    ensures g.threads[i].hs.NoHandshake?
  {
    assert ThreadInv(cfg, g, i);
    if e.Locked? || e.Compared? {
      LockKeepsThreadInv(cfg, g, i, e);
    } else if e.Published? || e.Unlocked? {
      UnlockKeepsThreadInv(cfg, g, i, e);
    } else {
      PlainKeepsThreadInv(cfg, g, i, e);
    }
  }

  lemma OwnKeepsInv(cfg: Config, g: Global, i: nat, e: Event)
    requires GlobalInv(cfg, g) && NextState(cfg, g, i, Own(e)).Some?
    ensures GlobalInv(cfg, NextState(cfg, g, i, Own(e)).value)
  {
    assert ThreadInv(cfg, g, i);
    OwnKeepsThreadInv(cfg, g, i, e);
    OthersKeepInv(cfg, g, NextState(cfg, g, i, Own(e)).value, i);
  }

  lemma InnerKeepsInv(cfg: Config, g: Global, i: nat, e: Event)
    requires GlobalInv(cfg, g) && NextState(cfg, g, i, Inner(e)).Some?
    ensures GlobalInv(cfg, NextState(cfg, g, i, Inner(e)).value)
  {
    var h := NextState(cfg, g, i, Inner(e)).value;
    var t := g.threads[i];
    assert ThreadInv(cfg, g, i);
    StepKeepsInv(cfg, t.hs.inner, e);
    InnerStaysClear(cfg, t.hs.inner);
    assert Commit(g, i, e) == g;
    assert ThreadInv(cfg, h, i);
    OthersKeepInv(cfg, g, h, i);
  }

  lemma EndStageKeepsInv(cfg: Config, g: Global, i: nat, good: bool)
    requires GlobalInv(cfg, g) && NextState(cfg, g, i, EndStage(good)).Some?
    ensures GlobalInv(cfg, NextState(cfg, g, i, EndStage(good)).value)
  {
    var t := g.threads[i];
    var nested := t.nested + t.hs.inner.sends;
    StageCost(cfg, g, i);
    match Judge(t.hs.stage, t.hs.inner.pc.out, good)
    case Next(stage) =>
      assert NextState(cfg, g, i, EndStage(good)).value
             == Put(g, i, t.(hs := Handshake(stage, Init(true)), nested := nested));
      StageAdvanceKeepsInv(cfg, g, i, stage, nested);
    case Over(ok) =>
      var f := Step(cfg, t.outer, Reauthed(ok)).value;
      assert NextState(cfg, g, i, EndStage(good)).value
             == Put(g.(tries := g.tries + [TryOf(i, t, ok)]), i,
                    t.(outer := f, hs := NoHandshake, nested := nested));
      HandshakeOverKeepsInv(cfg, g, i, ok, nested);
  }

  /** How the handshake goes on from the status of a request of it, and how it ends: only a 200 of token/login
      or login, with a session stored, is a success; token/login may fail, the others may not. */
  lemma StageEnds(cfg: Config, g: Global, i: nat, good: bool)
    requires NextState(cfg, g, i, EndStage(good)).Some?
    ensures var t, h := g.threads[i], NextState(cfg, g, i, EndStage(good)).value;
            var accepted := t.hs.inner.pc.out == Returned(200) && good;
            var ended := |h.tries| == |g.tries| + 1 && h.threads[i].hs.NoHandshake?;
            var goesOn := h.tries == g.tries && h.threads[i].hs.Handshake? && h.threads[i].hs.inner == Init(true);
            && (ended || goesOn)
            && (t.hs.stage.TokenLogin? ==>
                  if accepted then ended && h.tries[|g.tries|].ok else goesOn && h.threads[i].hs.stage == LoginStart)
            && (t.hs.stage.LoginStart? ==>
                  if t.hs.inner.pc.out.Returned? && good then goesOn && h.threads[i].hs.stage == LoginExistent
                  else ended && !h.tries[|g.tries|].ok)
            && (t.hs.stage.LoginExistent? ==>
                  if accepted then goesOn && h.threads[i].hs.stage == LoginPost
                  else ended && !h.tries[|g.tries|].ok)
            && (t.hs.stage.LoginPost? ==> ended && (h.tries[|g.tries|].ok <==> accepted))
  {}

  lemma StageCost(cfg: Config, g: Global, i: nat)
    requires i < |g.threads| && ThreadInv(cfg, g, i) && g.threads[i].hs.Handshake?
    ensures var t, b := g.threads[i], cfg.policy.Budget() + 1;
            && t.nested + t.hs.inner.sends <= Before(t.hs.stage, b) + b <= 4 * b
            && t.outer.pc.Reauthing?
  {}

  lemma StageAdvanceKeepsInv(cfg: Config, g: Global, i: nat, stage: Stage, nested: nat)
    requires GlobalInv(cfg, g) && i < |g.threads| && g.threads[i].outer.pc.Reauthing?
    requires nested <= Before(stage, cfg.policy.Budget() + 1)
    ensures GlobalInv(cfg, Put(g, i, g.threads[i].(hs := Handshake(stage, Init(true)), nested := nested)))
  {
    assert ThreadInv(cfg, g, i);
    var h := Put(g, i, g.threads[i].(hs := Handshake(stage, Init(true)), nested := nested));
    assert ThreadInv(cfg, h, i);
    OthersKeepInv(cfg, g, h, i);
  }

  lemma HandshakeOverKeepsInv(cfg: Config, g: Global, i: nat, ok: bool, nested: nat)
    requires GlobalInv(cfg, g) && i < |g.threads| && g.threads[i].outer.pc.Reauthing?
    requires nested <= 4 * (cfg.policy.Budget() + 1)
    ensures var t := g.threads[i];
            var f := Step(cfg, t.outer, Reauthed(ok)).value;
            GlobalInv(cfg, Put(g.(tries := g.tries + [TryOf(i, t, ok)]), i,
                               t.(outer := f, hs := NoHandshake, nested := nested)))
  {
    var t := g.threads[i];
    assert ThreadInv(cfg, g, i);
    StepKeepsInv(cfg, t.outer, Reauthed(ok));
    TriesSnoc(g.tries, TryOf(i, t, ok));
    var f := Step(cfg, t.outer, Reauthed(ok)).value;
    var h := Put(g.(tries := g.tries + [TryOf(i, t, ok)]), i,
                    t.(outer := f, hs := NoHandshake, nested := nested));
    assert ThreadInv(cfg, h, i);
    OthersKeepInv(cfg, g, h, i);
  }

  lemma NextKeepsInv(cfg: Config, g: Global, i: nat, a: Action)
    requires GlobalInv(cfg, g) && NextState(cfg, g, i, a).Some?
    ensures GlobalInv(cfg, NextState(cfg, g, i, a).value)
  {
    match a
    case Own(e) => OwnKeepsInv(cfg, g, i, e);
    case Inner(e) => InnerKeepsInv(cfg, g, i, e);
    case EndStage(good) => EndStageKeepsInv(cfg, g, i, good);
    case _ =>
      var h := NextState(cfg, g, i, a).value;
      assert ThreadInv(cfg, g, i);
      assert ThreadInv(cfg, h, i);
      OthersKeepInv(cfg, g, h, i);
  }

  lemma {:induction false} ExecKeepsInv(cfg: Config, g: Global, s: Schedule)
    requires GlobalInv(cfg, g) && Exec(cfg, g, s).Some?
    ensures GlobalInv(cfg, Exec(cfg, g, s).value)
    decreases |s|
  {
    if s != [] {
      NextKeepsInv(cfg, g, s[0].0, s[0].1);
      ExecKeepsInv(cfg, NextState(cfg, g, s[0].0, s[0].1).value, s[1..]);
    }
  }

  lemma ReachableInv(cfg: Config, skips: seq<bool>, s: Schedule)
    requires Exec(cfg, InitGlobal(skips), s).Some?
    ensures GlobalInv(cfg, Exec(cfg, InitGlobal(skips), s).value)
  {
    ExecKeepsInv(cfg, InitGlobal(skips), s);
  }

  // ---------------------------------------------------------------- stampede protection

  function Successes(tries: seq<Try>): seq<nat> {
    if tries == [] then []
    else Successes(tries[..|tries| - 1])
         + if tries[|tries| - 1].ok then [tries[|tries| - 1].snap] else []
  }

  lemma {:induction false} SuccessesAreInOrder(tries: seq<Try>)
    requires TriesInOrder(tries)
    ensures Successes(tries) == seq(OkCount(tries), k => k)
  {
    if tries != [] {
      var front := tries[..|tries| - 1];
      forall k | 0 <= k < |front| ensures front[..k] == tries[..k] {}
      SuccessesAreInOrder(front);
    }
  }

  lemma {:induction false} OkCountMonotone(tries: seq<Try>, a: nat, b: nat)
    requires a <= b <= |tries|
    ensures OkCount(tries[..a]) + (if a < b && tries[a].ok then 1 else 0) <= OkCount(tries[..b])
  {
    if a < b {
      OkCountMonotone(tries, a, b - 1);
      assert tries[..b][..b - 1] == tries[..b - 1];
    }
  }

  /** Whenever the mutex is free the epoch counts the successful re-auths so far, and the requests that
      performed them held the snapshots 0, 1, .., epoch - 1, in this order. */
  lemma EpochCountsSuccesses(cfg: Config, skips: seq<bool>, s: Schedule)
    requires Exec(cfg, InitGlobal(skips), s).Some?
    ensures var g := Exec(cfg, InitGlobal(skips), s).value;
            && TriesInOrder(g.tries)
            && g.epoch <= OkCount(g.tries) <= g.epoch + 1
            && (g.owner.None? ==> Successes(g.tries) == seq(g.epoch, k => k))
  {
    ReachableInv(cfg, skips, s);
    SuccessesAreInOrder(Exec(cfg, InitGlobal(skips), s).value.tries);
  }

  /** Two calls on behalf of one snapshot: every call from the first up to the second failed. */
  lemma SecondCallOnlyAfterFailure(tries: seq<Try>, a: nat, b: nat)
    requires TriesInOrder(tries) && a < b < |tries| && tries[a].snap == tries[b].snap
    ensures forall k :: a <= k < b ==> !tries[k].ok && tries[k].snap == tries[a].snap
  {
    forall k | a <= k < b ensures !tries[k].ok && tries[k].snap == tries[a].snap {
      OkCountMonotone(tries, a, k);
      OkCountMonotone(tries, k, b);
    }
  }

  /** The epoch protects requests of one snapshot exactly as long as the re-auths succeed. */
  lemma OneCallPerSnapshotIff(tries: seq<Try>)
    requires TriesInOrder(tries)
    ensures (forall a, b :: 0 <= a < b < |tries| ==> tries[a].snap != tries[b].snap)
            <==> (forall k :: 0 <= k < |tries| - 1 ==> tries[k].ok)
  {
    if k: nat :| k < |tries| - 1 && !tries[k].ok {
      assert tries[..k + 1][..k] == tries[..k];
      assert tries[k].snap == tries[k + 1].snap;
    } else {
      forall a, b | 0 <= a < b < |tries| ensures tries[a].snap != tries[b].snap {
        if tries[a].snap == tries[b].snap {
          SecondCallOnlyAfterFailure(tries, a, b);
        }
      }
    }
  }

  /** Call number j published an epoch above the one in which the request of call number k began. */
  predicate PublishedSince(tries: seq<Try>, j: nat, k: nat)
    requires j < k < |tries|
  {
    tries[j].ok && tries[k].begun <= tries[j].snap
  }

  /** A request calls the re-auth although one was published since it began if and only if its snapshot is
      newer than its beginning: it waited for the limiter, or backed off, across the publication. */
  lemma CallDespitePublicationIff(tries: seq<Try>, k: nat)
    requires TriesInOrder(tries) && k < |tries|
    ensures (exists j: nat :: j < k && PublishedSince(tries, j, k)) <==> tries[k].begun < tries[k].snap
  {
    if j: nat :| j < k && PublishedSince(tries, j, k) {
      OkCountMonotone(tries, j, k);
    }
    if tries[k].begun < tries[k].snap {
      var j := SuccessAt(tries, k, tries[k].begun);
      assert PublishedSince(tries, j, k);
    }
  }

  lemma {:induction false} SuccessAt(tries: seq<Try>, k: nat, e: nat) returns (j: nat)
    requires TriesInOrder(tries) && k <= |tries| && e < OkCount(tries[..k])
    ensures j < k && tries[j].ok && tries[j].snap == e
  {
    assert tries[..k][..k - 1] == tries[..k - 1];
    if e < OkCount(tries[..k - 1]) {
      j := SuccessAt(tries, k - 1, e);
    } else {
      j := k - 1;
    }
  }

  /** The documentation promises that requests which run into 403 in one expired session share one re-auth:
      no two calls on behalf of requests that began in the same epoch. */
  predicate Shared(tries: seq<Try>) {
    forall a, b :: 0 <= a < b < |tries| ==> tries[a].begun != tries[b].begun
  }

  /** No re-auth before the last failed. */
  predicate NoneFailedBefore(tries: seq<Try>) {
    forall k :: 0 <= k < |tries| - 1 ==> tries[k].ok
  }

  /** No request that called it took its snapshot after a publication it had not begun after. */
  predicate SnapshotsCurrent(tries: seq<Try>) {
    forall k :: 0 <= k < |tries| ==> tries[k].snap == tries[k].begun
  }

  /** The promise holds for the calls made so far if and only if none but the last failed and every caller
      took its snapshot in the epoch in which it began. */
  lemma SharedReauthIff(cfg: Config, skips: seq<bool>, s: Schedule)
    requires Exec(cfg, InitGlobal(skips), s).Some?
    ensures var tries := Exec(cfg, InitGlobal(skips), s).value.tries;
            Shared(tries) <==> NoneFailedBefore(tries) && SnapshotsCurrent(tries)
  {
    ReachableInv(cfg, skips, s);
    var tries := Exec(cfg, InitGlobal(skips), s).value.tries;
    OneCallPerSnapshotIff(tries);
    if Shared(tries) {
      SharedCountsUp(tries, |tries|);
    }
  }

  /** Calls on behalf of different beginnings leave no room: call number k began in epoch k. */
  lemma {:induction false} SharedCountsUp(tries: seq<Try>, n: nat)
    requires TriesInOrder(tries) && Shared(tries) && n <= |tries|
    ensures forall k :: 0 <= k < n ==> tries[k].begun == tries[k].snap == k
  {
    if n > 0 {
      SharedCountsUp(tries, n - 1);
      OkCountAtMost(tries, n - 1);
      assert tries[n - 1].begun <= n - 1;
      var atBegun := tries[tries[n - 1].begun];
    }
  }

  lemma {:induction false} OkCountAtMost(tries: seq<Try>, n: nat)
    requires n <= |tries|
    ensures OkCount(tries[..n]) <= n
  {
    if n > 0 {
      assert tries[..n][..n - 1] == tries[..n - 1];
      OkCountAtMost(tries, n - 1);
    }
  }

  lemma {:induction false} EpochMonotone(cfg: Config, g: Global, s: Schedule)
    requires Exec(cfg, g, s).Some?
    ensures g.epoch <= Exec(cfg, g, s).value.epoch
    decreases |s|
  {
    if s != [] {
      EpochMonotone(cfg, NextState(cfg, g, s[0].0, s[0].1).value, s[1..]);
    }
  }

  /** A request that goes back to sending after a 403 has not retried before, and does so only when a
      re-auth was published after its snapshot, by itself or by another request; every snapshot it takes
      from then on is newer. */
  lemma RetryOnlyAfterPublishedReauth(cfg: Config, skips: seq<bool>, s: Schedule, i: nat, later: Schedule)
    requires Exec(cfg, InitGlobal(skips), s).Some?
    requires var g := Exec(cfg, InitGlobal(skips), s).value;
             i < |g.threads| && g.threads[i].outer.pc.Unlocking?
             && NextState(cfg, g, i, Own(Unlocked)).Some?
             && Exec(cfg, NextState(cfg, g, i, Own(Unlocked)).value, later).Some?
    ensures var g := Exec(cfg, InitGlobal(skips), s).value;
            var h := NextState(cfg, g, i, Own(Unlocked)).value;
            var f := h.threads[i].outer;
            if f.pc.Waiting? then
              && g.threads[i].outer.retries == 0
              && f.snap < OkCount(g.tries)
              && f.snap < h.epoch <= Exec(cfg, h, later).value.epoch
            else f.pc == Finished(Failed(ReauthFailed))
  {
    ReachableInv(cfg, skips, s);
    var g := Exec(cfg, InitGlobal(skips), s).value;
    assert ThreadInv(cfg, g, i);
    EpochMonotone(cfg, NextState(cfg, g, i, Own(Unlocked)).value, later);
  }

  // ---------------------------------------------------------------- no deadlock, termination, cost

  function LocalMove(p: Policy, g: Global, f: Frame): Event {
    match f.pc
    case Start => BodyRead(true)
    case Waiting => Waited(true)
    case Snapshot => Loaded(g.epoch)
    case Cloning => Cloned(true)
    case Sending => Answered(NetworkError)
    case Sleeping => Slept(if p.Cap(f.attempt) >= 0 then p.Cap(f.attempt) / 2 else 0)
    case Locking => Locked
    case Checking => Compared(g.epoch)
    case Reauthing => Reauthed(true)
    case Publishing => Published
    case Unlocking(_) => Unlocked
    case Finished(_) => Unlocked
  }

  predicate Done(g: Global) {
    forall i :: 0 <= i < |g.threads| ==> g.threads[i].outer.pc.Finished?
  }

  /** The thread to move next: the holder of the mutex if there is one, else any unfinished request. */
  ghost function Mover(g: Global): nat
    requires !Done(g)
  {
    if g.owner.Some? then g.owner.value
    else var i: nat :| i < |g.threads| && !g.threads[i].outer.pc.Finished?; i
  }

  lemma FrameCanMove(cfg: Config, g: Global, f: Frame)
    requires cfg.policy.MaxDelay >= -1 && !f.pc.Finished?
    ensures Step(cfg, f, LocalMove(cfg.policy, g, f)).Some?
  {}

  /** In every reachable state with an unfinished request some request can move, although the holder of
      the mutex sends its handshake through the transport that locks it. (MaxDelay below -1 makes
      NextDelay panic, see Backoff.JitterRangePositive.) */
  lemma NoDeadlock(cfg: Config, skips: seq<bool>, s: Schedule) returns (i: nat, a: Action)
    requires cfg.policy.MaxDelay >= -1 && Exec(cfg, InitGlobal(skips), s).Some?
    requires !Done(Exec(cfg, InitGlobal(skips), s).value)
    ensures NextState(cfg, Exec(cfg, InitGlobal(skips), s).value, i, a).Some?
  {
    ReachableInv(cfg, skips, s);
    var g := Exec(cfg, InitGlobal(skips), s).value;
    i := Mover(g);
    var t := g.threads[i];
    assert ThreadInv(cfg, g, i);
    if t.outer.pc.Start? && !t.attached {
      a := Attach;
    } else if !t.outer.pc.Reauthing? {
      FrameCanMove(cfg, g, t.outer);
      a := Own(LocalMove(cfg.policy, g, t.outer));
    } else if t.hs.NoHandshake? {
      a := Begin(true);
    } else if t.hs.inner.pc.Finished? {
      a := EndStage(true);
    } else {
      FrameCanMove(cfg, g, t.hs.inner);
      InnerStaysClear(cfg, t.hs.inner);
      a := Inner(LocalMove(cfg.policy, g, t.hs.inner));
    }
  }

  /** The steps a handshake may still need. */
  function HandshakeMeasure(cfg: Config, t: Thread): int {
    var perStage := MeasureBound(cfg) + 1;
    match t.hs
    case Handshake(stage, inner) => 3 * perStage - Before(stage, perStage) + Measure(cfg, inner) + 1
    case NoHandshake =>
      if !t.outer.reauthed || t.outer.pc.Locking? || t.outer.pc.Checking? || t.outer.pc.Reauthing?
      then 4 * perStage + 1 else 0
  }

  function ThreadMeasure(cfg: Config, t: Thread): int {
    if t.outer.pc.Finished? then 0
    else Measure(cfg, t.outer) + HandshakeMeasure(cfg, t) + if t.attached then 0 else 1
  }

  /** 100 * (MaxAttempts + 2) + 6. */
  function StepBound(cfg: Config): nat { 5 * (MeasureBound(cfg) + 1) + 1 }

  lemma ThreadMeasureBounds(cfg: Config, g: Global, i: nat)
    requires i < |g.threads| && ThreadInv(cfg, g, i)
    ensures 0 <= ThreadMeasure(cfg, g.threads[i]) <= StepBound(cfg)
  {}

  lemma NextDecreases(cfg: Config, g: Global, i: nat, a: Action)
    requires GlobalInv(cfg, g) && NextState(cfg, g, i, a).Some?
    ensures var h := NextState(cfg, g, i, a).value;
            && |h.threads| == |g.threads|
            && (forall j :: 0 <= j < |g.threads| && j != i ==> h.threads[j] == g.threads[j])
            && ThreadMeasure(cfg, h.threads[i]) < ThreadMeasure(cfg, g.threads[i])
  {
    assert ThreadInv(cfg, g, i);
    match a
    case Own(e) => OwnDecreases(cfg, g.threads[i], e);
    case Attach =>
    case Begin(_) => assert Measure(cfg, Init(true)) < MeasureBound(cfg);
    case Inner(e) => StepDecreases(cfg, g.threads[i].hs.inner, e);
    case EndStage(good) => EndStageDecreases(cfg, g, i, good);
  }

  lemma OwnDecreases(cfg: Config, t: Thread, e: Event)
    requires FrameInv(cfg, t.outer) && t.hs.NoHandshake? && !e.Reauthed? && Step(cfg, t.outer, e).Some?
    ensures ThreadMeasure(cfg, t.(outer := Step(cfg, t.outer, e).value)) < ThreadMeasure(cfg, t)
  {}

  lemma EndStageDecreases(cfg: Config, g: Global, i: nat, good: bool)
    requires i < |g.threads| && ThreadInv(cfg, g, i) && NextState(cfg, g, i, EndStage(good)).Some?
    ensures ThreadMeasure(cfg, NextState(cfg, g, i, EndStage(good)).value.threads[i])
            < ThreadMeasure(cfg, g.threads[i])
  {}

  function Total(cfg: Config, ts: seq<Thread>): int {
    if ts == [] then 0 else Total(cfg, ts[..|ts| - 1]) + ThreadMeasure(cfg, ts[|ts| - 1])
  }

  lemma {:induction false} TotalChange(cfg: Config, ts: seq<Thread>, us: seq<Thread>, i: nat)
    requires |ts| == |us| && i < |ts|
    requires forall j :: 0 <= j < |ts| && j != i ==> us[j] == ts[j]
    ensures Total(cfg, us) - Total(cfg, ts) == ThreadMeasure(cfg, us[i]) - ThreadMeasure(cfg, ts[i])
  {
    var n := |ts| - 1;
    if i < n {
      TotalChange(cfg, ts[..n], us[..n], i);
    } else {
      assert ts[..n] == us[..n];
    }
  }

  lemma {:induction false} TotalBounds(cfg: Config, ts: seq<Thread>, bound: nat)
    requires forall j :: 0 <= j < |ts| ==> 0 <= ThreadMeasure(cfg, ts[j]) <= bound
    ensures 0 <= Total(cfg, ts) <= |ts| * bound
  {
    if ts != [] {
      TotalBounds(cfg, ts[..|ts| - 1], bound);
      Distribute(0, 0, |ts|, bound);
    }
  }

  lemma {:induction false} ExecDecreases(cfg: Config, g: Global, s: Schedule)
    requires GlobalInv(cfg, g) && Exec(cfg, g, s).Some?
    ensures |s| + Total(cfg, Exec(cfg, g, s).value.threads) <= Total(cfg, g.threads)
    decreases |s|
  {
    if s != [] {
      var h := NextState(cfg, g, s[0].0, s[0].1).value;
      NextKeepsInv(cfg, g, s[0].0, s[0].1);
      NextDecreases(cfg, g, s[0].0, s[0].1);
      TotalChange(cfg, g.threads, h.threads, s[0].0);
      ExecDecreases(cfg, h, s[1..]);
    }
  }

  /** Every schedule of n requests stops after at most n * (100 * (MaxAttempts + 2) + 6) steps. */
  lemma SchedulesTerminate(cfg: Config, skips: seq<bool>, s: Schedule)
    requires Exec(cfg, InitGlobal(skips), s).Some?
    ensures |s| <= |skips| * StepBound(cfg)
  {
    var g0, g := InitGlobal(skips), Exec(cfg, InitGlobal(skips), s).value;
    ReachableInv(cfg, skips, []);
    ReachableInv(cfg, skips, s);
    ExecDecreases(cfg, g0, s);
    forall j | 0 <= j < |g0.threads|
      ensures 0 <= ThreadMeasure(cfg, g0.threads[j]) <= StepBound(cfg)
    {
      ThreadMeasureBounds(cfg, g0, j);
    }
    forall j | 0 <= j < |g.threads|
      ensures 0 <= ThreadMeasure(cfg, g.threads[j]) <= StepBound(cfg)
    {
      assert ThreadInv(cfg, g, j);
      ThreadMeasureBounds(cfg, g, j);
    }
    TotalBounds(cfg, g0.threads, StepBound(cfg));
    TotalBounds(cfg, g.threads, StepBound(cfg));
  }

  /** Every schedule can be continued until all requests have returned. */
  lemma {:induction false} EveryScheduleCompletes(cfg: Config, skips: seq<bool>, s: Schedule) returns (t: Schedule)
    requires cfg.policy.MaxDelay >= -1 && Exec(cfg, InitGlobal(skips), s).Some?
    ensures Exec(cfg, InitGlobal(skips), s + t).Some?
    ensures Done(Exec(cfg, InitGlobal(skips), s + t).value)
    decreases |skips| * StepBound(cfg) - |s|
  {
    SchedulesTerminate(cfg, skips, s);
    if Done(Exec(cfg, InitGlobal(skips), s).value) {
      t := [];
      assert s + t == s;
    } else {
      var i, a := NoDeadlock(cfg, skips, s);
      ExecAppend(cfg, InitGlobal(skips), s, [(i, a)]);
      assert [(i, a)][1..] == [];
      SchedulesTerminate(cfg, skips, s + [(i, a)]);
      var rest := EveryScheduleCompletes(cfg, skips, s + [(i, a)]);
      t := [(i, a)] + rest;
      assert s + t == s + [(i, a)] + rest;
    }
  }

  /** What one request hands to the base transport, itself and inside the re-auth it triggers. */
  lemma RequestCostBounded(cfg: Config, skips: seq<bool>, s: Schedule, i: nat)
    requires Exec(cfg, InitGlobal(skips), s).Some? && i < |Exec(cfg, InitGlobal(skips), s).value.threads|
    ensures var t := Exec(cfg, InitGlobal(skips), s).value.threads[i];
            var nested := t.nested + if t.hs.Handshake? then t.hs.inner.sends else 0;
            && t.outer.sends <= t.outer.waits
            && t.outer.sends <= cfg.policy.Budget() + 2
            && nested <= 4 * (cfg.policy.Budget() + 1)
            && (t.outer.skip ==> t.outer.sends <= cfg.policy.Budget() + 1 && nested == 0)
            && BodiesSettled(t.outer)
  {
    ReachableInv(cfg, skips, s);
    var g := Exec(cfg, InitGlobal(skips), s).value;
    assert ThreadInv(cfg, g, i);
    SendsBounded(cfg, g.threads[i].outer);
    if g.threads[i].hs.Handshake? {
      SendsBounded(cfg, g.threads[i].hs.inner);
    }
  }

  // ---------------------------------------------------------------- failed re-auths are not shared

  lemma {:induction false} ExecAppend(cfg: Config, g: Global, s: Schedule, t: Schedule)
    requires Exec(cfg, g, s).Some?
    ensures Exec(cfg, g, s + t) == Exec(cfg, Exec(cfg, g, s).value, t)
    decreases |s|
  {
    if s == [] {
      assert s + t == t;
    } else {
      assert (s + t)[1..] == s[1..] + t;
      ExecAppend(cfg, NextState(cfg, g, s[0].0, s[0].1).value, s[1..], t);
    }
  }

  /** One more action of request i, whose state before and after it is spelled out. */
  lemma Extend(cfg: Config, g0: Global, s: Schedule, g: Global, h: Global, i: nat, t: Thread, a: Action, u: Thread)
    returns (longer: Schedule)
    requires i < |g.threads| && g.threads == h.threads && Exec(cfg, g0, s) == Some(Put(g, i, t))
    requires NextState(cfg, Put(g, i, t), i, a) == Some(Put(Put(h, i, t), i, u))
    ensures Exec(cfg, g0, longer) == Some(Put(h, i, u))
  {
    longer := s + [(i, a)];
    ExecAppend(cfg, g0, s, [(i, a)]);
    assert [(i, a)][1..] == [];
    assert Put(Put(h, i, t), i, u) == Put(h, i, u);
  }

  lemma ExtendOwn(cfg: Config, g0: Global, s: Schedule, g: Global, i: nat, t: Thread, e: Event, f: Frame)
    returns (longer: Schedule)
    requires i < |g.threads| && Exec(cfg, g0, s) == Some(Put(g, i, t))
    requires !e.Reauthed? && SeesShared(g, e) && Step(cfg, t.outer, e) == Some(f)
    requires e.BodyRead? ==> t.attached
    ensures Exec(cfg, g0, longer) == Some(Put(Commit(g, i, e), i, t.(outer := f)))
  {
    longer := Extend(cfg, g0, s, g, Commit(g, i, e), i, t, Own(e), t.(outer := f));
  }

  const FRESH: Thread := Thread(Init(false), NoHandshake, 0, 0, false)
  const ATTACHED: Thread := FRESH.(attached := true)
  const AT_LOCK: Thread := ATTACHED.(
    outer := Init(false).(pc := Locking, reauthed := true, waits := 1, sends := 1, answers := [Status(403)],
                          closes := [1]))
  const REFUSED: Thread := AT_LOCK.(outer := AT_LOCK.outer.(pc := Finished(Failed(ReauthFailed))))

  /** n requests: the first k sent once in epoch 0, got 403 and wait for the mutex. */
  function Queueing(n: nat, k: nat): Global {
    Global(seq(n, i => if i < k then AT_LOCK else FRESH), None, 0, [])
  }

  /** The first k of them have called the re-auth callback in vain. */
  function Failing(n: nat, k: nat): Global {
    Global(seq(n, i => if i < k then REFUSED else AT_LOCK), None, 0, seq(k, (i: nat) => Try(i, 0, 0, false)))
  }

  lemma OneQueues(cfg: Config, g: Global, i: nat) returns (s: Schedule)
    requires cfg.canReauth && i < |g.threads| && g.threads[i] == FRESH && g.epoch == 0
    ensures Exec(cfg, g, s) == Some(Put(g, i, AT_LOCK))
  {
    assert Put(g, i, FRESH) == g;
    var f := Init(false);
    var t1 := ATTACHED.(outer := f.(pc := Waiting));
    var t2 := ATTACHED.(outer := f.(pc := Snapshot, waits := 1));
    var t3 := ATTACHED.(outer := f.(pc := Cloning, waits := 1));
    var t4 := ATTACHED.(outer := f.(pc := Sending, waits := 1));
    s := Extend(cfg, g, [], g, g, i, FRESH, Attach, ATTACHED);
    s := ExtendOwn(cfg, g, s, g, i, ATTACHED, BodyRead(true), t1.outer);
    s := ExtendOwn(cfg, g, s, g, i, t1, Waited(true), t2.outer);
    s := ExtendOwn(cfg, g, s, g, i, t2, Loaded(0), t3.outer);
    s := ExtendOwn(cfg, g, s, g, i, t3, Cloned(true), t4.outer);
    assert CloseLast([] + [0]) == [1] && Init(false).answers + [Status(403)] == [Status(403)];
    s := ExtendOwn(cfg, g, s, g, i, t4, Answered(Status(403)), AT_LOCK.outer);
  }

  lemma OneReauthFails(cfg: Config, g: Global, i: nat) returns (s: Schedule)
    requires i < |g.threads| && g.threads[i] == AT_LOCK && g.epoch == 0 && g.owner.None?
    ensures Exec(cfg, g, s) == Some(Put(g.(tries := g.tries + [Try(i, 0, 0, false)]), i, REFUSED))
  {
    var h := g.(owner := Some(i));
    s := OneLocks(cfg, g, i);
    s := HandshakeFails(cfg, g, s, h, i);
    var t := AT_LOCK.(outer := AT_LOCK.outer.(pc := Unlocking(false)));
    s := ExtendOwn(cfg, g, s, h.(tries := h.tries + [Try(i, 0, 0, false)]), i, t, Unlocked, REFUSED.outer);
  }

  lemma OneLocks(cfg: Config, g: Global, i: nat) returns (s: Schedule)
    requires i < |g.threads| && g.threads[i] == AT_LOCK && g.epoch == 0 && g.owner.None?
    ensures Exec(cfg, g, s)
            == Some(Put(g.(owner := Some(i)), i, AT_LOCK.(outer := AT_LOCK.outer.(pc := Reauthing))))
  {
    assert Put(g, i, AT_LOCK) == g;
    var f := AT_LOCK.outer;
    var t1 := AT_LOCK.(outer := f.(pc := Checking));
    s := ExtendOwn(cfg, g, [], g, i, AT_LOCK, Locked, t1.outer);
    s := ExtendOwn(cfg, g, s, g.(owner := Some(i)), i, t1, Compared(0), f.(pc := Reauthing));
  }

  lemma HandshakeFails(cfg: Config, g: Global, s0: Schedule, h: Global, i: nat) returns (s: Schedule)
    requires i < |h.threads| && h.owner == Some(i)
    requires Exec(cfg, g, s0) == Some(Put(h, i, AT_LOCK.(outer := AT_LOCK.outer.(pc := Reauthing))))
    ensures Exec(cfg, g, s) == Some(Put(h.(tries := h.tries + [Try(i, 0, 0, false)]), i,
                                        AT_LOCK.(outer := AT_LOCK.outer.(pc := Unlocking(false)))))
  {
    var t2 := AT_LOCK.(outer := AT_LOCK.outer.(pc := Reauthing));
    var t3 := t2.(hs := Handshake(LoginStart, Init(true)));
    var t4 := t3.(hs := Handshake(LoginStart, Init(true).(pc := Waiting)));
    s := Extend(cfg, g, s0, h, h, i, t2, Begin(false), t3);
    s := Extend(cfg, g, s, h, h, i, t3, Inner(BodyRead(true)), t4);
    s := StartRefused(cfg, g, s, h, i, t4);
  }

  lemma StartRefused(cfg: Config, g: Global, s0: Schedule, h: Global, i: nat, t4: Thread) returns (s: Schedule)
    requires i < |h.threads|
    requires t4 == AT_LOCK.(outer := AT_LOCK.outer.(pc := Reauthing),
                            hs := Handshake(LoginStart, Init(true).(pc := Waiting)))
    requires Exec(cfg, g, s0) == Some(Put(h, i, t4))
    ensures Exec(cfg, g, s) == Some(Put(h.(tries := h.tries + [Try(i, 0, 0, false)]), i,
                                        AT_LOCK.(outer := AT_LOCK.outer.(pc := Unlocking(false)))))
  {
    var t5 := t4.(hs := Handshake(LoginStart, Init(true).(pc := Finished(Failed(LimiterRefused)))));
    s := Extend(cfg, g, s0, h, h, i, t4, Inner(Waited(false)), t5);
    s := Extend(cfg, g, s, h, h.(tries := h.tries + [Try(i, 0, 0, false)]), i, t5, EndStage(false),
                AT_LOCK.(outer := AT_LOCK.outer.(pc := Unlocking(false))));
  }

  lemma SameThreads(ts: seq<Thread>, us: seq<Thread>)
    requires |ts| == |us| && forall j :: 0 <= j < |ts| ==> ts[j] == us[j]
    ensures ts == us
  {}

  lemma {:induction false} AllQueue(cfg: Config, n: nat, k: nat) returns (s: Schedule)
    requires cfg.canReauth && k <= n
    ensures Exec(cfg, Queueing(n, 0), s) == Some(Queueing(n, k))
  {
    if k == 0 {
      s := [];
    } else {
      var front := AllQueue(cfg, n, k - 1);
      var last := OneQueues(cfg, Queueing(n, k - 1), k - 1);
      ExecAppend(cfg, Queueing(n, 0), front, last);
      s := front + last;
      SameThreads(Put(Queueing(n, k - 1), k - 1, AT_LOCK).threads, Queueing(n, k).threads);
    }
  }

  lemma OneMoreFailed(n: nat, k: nat)
    requires 1 <= k <= n
    ensures var g := Failing(n, k - 1);
            Put(g.(tries := g.tries + [Try(k - 1, 0, 0, false)]), k - 1, REFUSED) == Failing(n, k)
  {
    var g := Failing(n, k - 1);
    assert Failing(n, k).tries == g.tries + [Try(k - 1, 0, 0, false)];
    SameThreads(Put(g, k - 1, REFUSED).threads, Failing(n, k).threads);
  }

  lemma {:induction false} AllFail(cfg: Config, n: nat, k: nat) returns (s: Schedule)
    requires k <= n
    ensures Exec(cfg, Failing(n, 0), s) == Some(Failing(n, k))
  {
    if k == 0 {
      s := [];
    } else {
      var front := AllFail(cfg, n, k - 1);
      var g := Failing(n, k - 1);
      var last := OneReauthFails(cfg, g, k - 1);
      ExecAppend(cfg, Failing(n, 0), front, last);
      s := front + last;
      OneMoreFailed(n, k);
    }
  }

  /** The documentation promises that requests failing together share one re-auth. When it fails they do
      not: for every n there is a schedule in which n requests of one epoch call it n times. */
  lemma FailedReauthsStampede(cfg: Config, n: nat) returns (s: Schedule)
    requires cfg.canReauth
    ensures Exec(cfg, InitGlobal(seq(n, i => false)), s).Some?
    ensures var g := Exec(cfg, InitGlobal(seq(n, i => false)), s).value;
            |g.tries| == n && forall k :: 0 <= k < n ==> g.tries[k] == Try(k, 0, 0, false)
  {
    var queue := AllQueue(cfg, n, n);
    var fail := AllFail(cfg, n, n);
    assert InitGlobal(seq(n, i => false)).threads == Queueing(n, 0).threads;
    assert Queueing(n, n).threads == Failing(n, 0).threads;
    assert Queueing(n, n) == Failing(n, 0);
    ExecAppend(cfg, Queueing(n, 0), queue, fail);
    s := queue + fail;
  }

  // ---------------------------------------------------------------- nor are successful ones

  const ENTERED: Thread := ATTACHED.(outer := Init(false).(pc := Waiting))

  /** Back to sending after its own re-auth for snapshot e. */
  function Retrying(e: nat): Thread {
    ENTERED.(outer := ENTERED.outer.(reauthed := true, snap := e, waits := 1, sends := 1, answers := [Status(403)],
                                     closes := [1], retries := 1),
             nested := 1)
  }

  /** n requests: the first k have entered RoundTrip and wait for the limiter. */
  function Entering(n: nat, k: nat): Global {
    Global(seq(n, i => if i < k then ENTERED else FRESH), None, 0, [])
  }

  /** The first k of them have been let through one after the other; each got 403 and re-authenticated. */
  function Succeeding(n: nat, k: nat): Global {
    Global(seq(n, (i: nat) => if i < k then Retrying(i) else ENTERED), None, k, seq(k, (i: nat) => Try(i, 0, i, true)))
  }

  lemma ExtendInner(cfg: Config, g0: Global, s: Schedule, g: Global, i: nat, t: Thread, e: Event, f: Frame)
    returns (longer: Schedule)
    requires i < |g.threads| && t.hs.Handshake? && Exec(cfg, g0, s) == Some(Put(g, i, t))
    requires !e.Reauthed? && SeesShared(g, e) && Commit(g, i, e) == g && Step(cfg, t.hs.inner, e) == Some(f)
    ensures Exec(cfg, g0, longer) == Some(Put(g, i, t.(hs := t.hs.(inner := f))))
  {
    longer := Extend(cfg, g0, s, g, g, i, t, Inner(e), t.(hs := t.hs.(inner := f)));
  }

  /** Snapshot in the present epoch, 403, mutex, callback. */
  function CallingBack(e: nat): Thread {
    ENTERED.(outer := ENTERED.outer.(pc := Reauthing, reauthed := true, snap := e, waits := 1, sends := 1,
                                     answers := [Status(403)], closes := [1]))
  }

  lemma OneIsRefused(cfg: Config, g: Global, i: nat) returns (s: Schedule)
    requires cfg.canReauth && i < |g.threads| && g.threads[i] == ENTERED
    ensures Exec(cfg, g, s)
            == Some(Put(g, i, CallingBack(g.epoch).(outer := CallingBack(g.epoch).outer.(pc := Locking))))
  {
    assert Put(g, i, ENTERED) == g;
    var f := ENTERED.outer;
    var f1 := f.(pc := Snapshot, waits := 1);
    var f2 := f1.(pc := Cloning, snap := g.epoch);
    var f3 := f2.(pc := Sending);
    s := ExtendOwn(cfg, g, [], g, i, ENTERED, Waited(true), f1);
    s := ExtendOwn(cfg, g, s, g, i, ENTERED.(outer := f1), Loaded(g.epoch), f2);
    s := ExtendOwn(cfg, g, s, g, i, ENTERED.(outer := f2), Cloned(true), f3);
    assert CloseLast([] + [0]) == [1] && Init(false).answers + [Status(403)] == [Status(403)];
    s := ExtendOwn(cfg, g, s, g, i, ENTERED.(outer := f3), Answered(Status(403)),
                   CallingBack(g.epoch).outer.(pc := Locking));
  }

  lemma OneCallsBack(cfg: Config, g: Global, i: nat) returns (s: Schedule)
    requires cfg.canReauth && i < |g.threads| && g.threads[i] == ENTERED && g.owner.None?
    ensures Exec(cfg, g, s) == Some(Put(g.(owner := Some(i)), i, CallingBack(g.epoch)))
  {
    s := OneIsRefused(cfg, g, i);
    var t := CallingBack(g.epoch);
    s := ExtendOwn(cfg, g, s, g, i, t.(outer := t.outer.(pc := Locking)), Locked, t.outer.(pc := Checking));
    s := ExtendOwn(cfg, g, s, g.(owner := Some(i)), i, t.(outer := t.outer.(pc := Checking)), Compared(g.epoch),
                   t.outer);
  }

  function Accepted(e: nat): Frame {
    Init(true).(pc := Finished(Returned(200)), snap := e, waits := 1, sends := 1, answers := [Status(200)],
                closes := [0])
  }

  lemma TokenLoginAnswered(cfg: Config, g0: Global, s0: Schedule, g: Global, i: nat, t: Thread) returns (s: Schedule)
    requires i < |g.threads| && t.outer.pc.Reauthing? && t.hs.NoHandshake?
    requires Exec(cfg, g0, s0) == Some(Put(g, i, t))
    ensures Exec(cfg, g0, s) == Some(Put(g, i, t.(hs := Handshake(TokenLogin, Accepted(g.epoch)))))
  {
    s := Extend(cfg, g0, s0, g, g, i, t, Begin(true), t.(hs := Handshake(TokenLogin, Init(true))));
    s := InnerAnswered(cfg, g0, s, g, i, t.(hs := Handshake(TokenLogin, Init(true))));
  }

  lemma InnerAnswered(cfg: Config, g0: Global, s0: Schedule, g: Global, i: nat, t: Thread) returns (s: Schedule)
    requires i < |g.threads| && t.hs.Handshake? && t.hs.inner == Init(true) && Exec(cfg, g0, s0) == Some(Put(g, i, t))
    ensures Exec(cfg, g0, s) == Some(Put(g, i, t.(hs := t.hs.(inner := Accepted(g.epoch)))))
  {
    var f := Init(true);
    var f1 := f.(pc := Waiting);
    var f2 := f.(pc := Snapshot, waits := 1);
    var f3 := f2.(pc := Cloning, snap := g.epoch);
    var f4 := f3.(pc := Sending);
    s := ExtendInner(cfg, g0, s0, g, i, t, BodyRead(true), f1);
    s := ExtendInner(cfg, g0, s, g, i, t.(hs := t.hs.(inner := f1)), Waited(true), f2);
    s := ExtendInner(cfg, g0, s, g, i, t.(hs := t.hs.(inner := f2)), Loaded(g.epoch), f3);
    s := ExtendInner(cfg, g0, s, g, i, t.(hs := t.hs.(inner := f3)), Cloned(true), f4);
    assert [] + [0] == [0] && Init(true).answers + [Status(200)] == [Status(200)];
    s := ExtendInner(cfg, g0, s, g, i, t.(hs := t.hs.(inner := f4)), Answered(Status(200)), Accepted(g.epoch));
  }

  lemma OneReauthSucceeds(cfg: Config, g: Global, i: nat) returns (s: Schedule)
    requires cfg.canReauth && i < |g.threads| && g.threads[i] == ENTERED && g.owner.None?
    ensures Exec(cfg, g, s)
            == Some(Put(g.(epoch := g.epoch + 1, tries := g.tries + [Try(i, 0, g.epoch, true)]), i, Retrying(g.epoch)))
  {
    var h, t := g.(owner := Some(i)), CallingBack(g.epoch);
    s := OneCallsBack(cfg, g, i);
    s := TokenLoginAnswered(cfg, g, s, h, i, t);
    s := OnePublishes(cfg, g, s, h, i, t, Accepted(g.epoch));
  }

  lemma CallbackSucceeds(cfg: Config, g: Global, i: nat, t: Thread, inner: Frame, e: nat)
    requires i < |g.threads| && t == CallingBack(e).(hs := Handshake(TokenLogin, inner))
    requires inner.pc == Finished(Returned(200)) && inner.sends == 1
    ensures NextState(cfg, Put(g, i, t), i, EndStage(true))
            == Some(Put(Put(g.(tries := g.tries + [Try(i, 0, e, true)]), i, t), i, AboutToPublish(e)))
  {}

  /** The callback has returned nil; the epoch is about to be advanced. */
  function AboutToPublish(e: nat): Thread {
    CallingBack(e).(outer := CallingBack(e).outer.(pc := Publishing), nested := 1)
  }

  lemma OnePublishes(cfg: Config, g: Global, s0: Schedule, h: Global, i: nat, t: Thread, inner: Frame)
    returns (s: Schedule)
    requires i < |h.threads| && h == g.(owner := Some(i)) && g.owner.None? && t == CallingBack(g.epoch)
    requires inner.pc == Finished(Returned(200)) && inner.sends == 1
    requires Exec(cfg, g, s0) == Some(Put(h, i, t.(hs := Handshake(TokenLogin, inner))))
    ensures Exec(cfg, g, s)
            == Some(Put(g.(epoch := g.epoch + 1, tries := g.tries + [Try(i, 0, g.epoch, true)]), i, Retrying(g.epoch)))
  {
    var h1 := h.(tries := h.tries + [Try(i, 0, g.epoch, true)]);
    var t1 := AboutToPublish(g.epoch);
    CallbackSucceeds(cfg, h, i, t.(hs := Handshake(TokenLogin, inner)), inner, g.epoch);
    s := Extend(cfg, g, s0, h, h1, i, t.(hs := Handshake(TokenLogin, inner)), EndStage(true), t1);
    s := OneUnlocks(cfg, g, s, h1, i, g.epoch);
  }

  lemma OneUnlocks(cfg: Config, g: Global, s0: Schedule, h: Global, i: nat, e: nat) returns (s: Schedule)
    requires i < |h.threads| && Exec(cfg, g, s0) == Some(Put(h, i, AboutToPublish(e)))
    ensures Exec(cfg, g, s) == Some(Put(h.(epoch := h.epoch + 1, owner := None), i, Retrying(e)))
  {
    var t1 := AboutToPublish(e);
    var t2 := t1.(outer := t1.outer.(pc := Unlocking(true)));
    s := ExtendOwn(cfg, g, s0, h, i, t1, Published, t2.outer);
    s := ExtendOwn(cfg, g, s, h.(epoch := h.epoch + 1), i, t2, Unlocked, Retrying(e).outer);
  }

  lemma {:induction false} AllEnter(cfg: Config, n: nat, k: nat) returns (s: Schedule)
    requires k <= n
    ensures Exec(cfg, Entering(n, 0), s) == Some(Entering(n, k))
  {
    if k == 0 {
      s := [];
    } else {
      var front := AllEnter(cfg, n, k - 1);
      var g := Entering(n, k - 1);
      assert Put(g, k - 1, FRESH) == g;
      var last := Extend(cfg, g, [], g, g, k - 1, FRESH, Attach, ATTACHED);
      last := ExtendOwn(cfg, g, last, g, k - 1, ATTACHED, BodyRead(true), ENTERED.outer);
      ExecAppend(cfg, Entering(n, 0), front, last);
      s := front + last;
      SameThreads(Put(g, k - 1, ENTERED).threads, Entering(n, k).threads);
    }
  }

  lemma OneMoreSucceeded(n: nat, k: nat)
    requires 1 <= k <= n
    ensures var g := Succeeding(n, k - 1);
            Put(g.(epoch := k, tries := g.tries + [Try(k - 1, 0, k - 1, true)]), k - 1, Retrying(k - 1))
            == Succeeding(n, k)
  {
    var g := Succeeding(n, k - 1);
    assert Succeeding(n, k).tries == g.tries + [Try(k - 1, 0, k - 1, true)];
    SameThreads(Put(g, k - 1, Retrying(k - 1)).threads, Succeeding(n, k).threads);
  }

  lemma {:induction false} AllSucceed(cfg: Config, n: nat, k: nat) returns (s: Schedule)
    requires cfg.canReauth && k <= n
    ensures Exec(cfg, Succeeding(n, 0), s) == Some(Succeeding(n, k))
  {
    if k == 0 {
      s := [];
    } else {
      var front := AllSucceed(cfg, n, k - 1);
      var last := OneReauthSucceeds(cfg, Succeeding(n, k - 1), k - 1);
      ExecAppend(cfg, Succeeding(n, 0), front, last);
      s := front + last;
      OneMoreSucceeded(n, k);
    }
  }

  /** The limiter is enough to break the promise: for every n there is a schedule in which n requests have all
      entered RoundTrip before any re-auth, and which goes on to n re-auths, all of them successful. */
  lemma SuccessfulReauthsStampede(cfg: Config, n: nat) returns (entered: Schedule, rest: Schedule)
    requires cfg.canReauth
    ensures Exec(cfg, InitGlobal(seq(n, i => false)), entered) == Some(Entering(n, n))
    ensures Exec(cfg, InitGlobal(seq(n, i => false)), entered + rest).Some?
    ensures var g := Exec(cfg, InitGlobal(seq(n, i => false)), entered + rest).value;
            |g.tries| == n && forall k :: 0 <= k < n ==> g.tries[k] == Try(k, 0, k, true)
  {
    entered := AllEnter(cfg, n, n);
    rest := AllSucceed(cfg, n, n);
    assert InitGlobal(seq(n, i => false)).threads == Entering(n, 0).threads;
    assert Entering(n, n).threads == Succeeding(n, 0).threads;
    assert Entering(n, n) == Succeeding(n, 0);
    ExecAppend(cfg, Entering(n, 0), entered, rest);
  }
}
