/** The desktop's workspace connection flow.

    Every await is a point where a user cancel, a focus check or a timer can come in between. A step
    below is one stretch of code between two awaits; the environment chooses the next one.
  */
module ConnectionFlow {
  import opened Basics

  datatype Progress = Opening | Waiting | Retrying
  datatype Settlement = Connected | Cancelled | Rejected

  /** How far the start call of a connection has come: it awaits the host, it awaits the browser, or it
      has returned. */
  datatype Phase = AwaitsStart | AwaitsOpen | Returned

  datatype Pending = Pending(
    binding: string,
    attempt: Option<nat>,
    timer: Option<nat>,
    checking: bool,
    phase: Phase,
    checks: nat,  // status requests awaited
    settled: seq<Settlement>  // every resolve and reject of the promise
  )

  /** A connection is known by its place in pendings. */
  datatype Flow = Flow(
    pendings: seq<Pending>,
    active: Option<nat>,
    progress: Option<Progress>,  // last value reported
    timers: map<nat, nat>,  // live timers, and the connection each was set for
    nextTimer: nat,
    issued: set<nat>,  // attempts the host has issued
    cancelled: multiset<nat>,  // attempts cancelled at the host
    verified: set<nat>,  // attempts the host has reported connected to the active connection
    confirmed: set<nat>,  // connections the host has reported connected while active
    blank: set<nat>  // connections ended by a rejection whose reason is falsy
  ) {
    predicate IsActive(p: nat) {
      active == Some(p)
    }

    function Put(p: nat, v: Pending): Flow
      requires p < |pendings|
    {
      this.(pendings := pendings[p := v])
    }
  }

  const INITIAL := Flow([], None, None, map[], 0, {}, multiset{}, {}, {}, {})

  /** A rejection reason; finish tests it for truth. */
  datatype Reason = Reason(truthy: bool)
  datatype StartResult = StartConnected | StartPending(attempt: nat) | StartFails(reason: Reason)
  datatype OpenResult = Opened | OpenFails(reason: Reason)
  datatype CheckResult = CheckConnected | CheckPending | CheckFails(reason: Reason, fatal: bool)

  // ---------------------------------------------------------------------------------------------
  // The steps
  // ---------------------------------------------------------------------------------------------

  function ClearTimer(f: Flow, p: nat): Flow
    requires p < |f.pendings|
  {
    if f.pendings[p].timer.Some? then f.(timers := f.timers - {f.pendings[p].timer.value}) else f
  }

  function Release(f: Flow, p: nat): Flow
    requires p < |f.pendings|
  {
    var f := ClearTimer(f, p);
    if f.pendings[p].attempt.Some? then f.(cancelled := f.cancelled + multiset{f.pendings[p].attempt.value}) else f
  }

  function Close(f: Flow, p: nat, s: Settlement): Flow
    requires p < |f.pendings|
  {
    var f := Release(f.(active := None), p);
    f.(progress := None).Put(p, f.pendings[p].(settled := f.pendings[p].settled + [s]))
  }

  function Finish(f: Flow, p: nat, error: Option<Reason>): Flow
    requires p < |f.pendings|
  {
    if !f.IsActive(p) then f
    else
      var truthy := error.Some? && error.value.truthy;
      var g := Close(f, p, if truthy then Rejected else Connected);
      if error.Some? && !truthy then g.(blank := g.blank + {p}) else g
  }

  function Connect(f: Flow, binding: string, ours: bool): Flow {
    if !ours || f.active.Some? then f
    else
      f.(pendings := f.pendings + [Pending(binding, None, None, false, AwaitsStart, 0, [])],
         active := Some(|f.pendings|), progress := Some(Opening))
  }

  /** check, up to the await. */
  function BeginCheck(f: Flow): Flow
    requires f.active.Some? ==> f.active.value < |f.pendings|
  {
    if f.active.None? then f
    else
      var p := f.active.value;
      var v := f.pendings[p];
      if v.attempt.None? || v.checking then f
      else ClearTimer(f.Put(p, v.(checking := true, checks := v.checks + 1)), p)
  }

  function SetTimer(f: Flow, p: nat): Flow
    requires p < |f.pendings|
  {
    f.Put(p, f.pendings[p].(timer := Some(f.nextTimer))).(timers := f.timers[f.nextTimer := p], nextTimer := f.nextTimer + 1)
  }

  /** check, from the host's answer on. Nothing in between reads the flag its finally block clears. */
  function EndCheck(f: Flow, p: nat, result: CheckResult): Flow
    requires p < |f.pendings| && 0 < f.pendings[p].checks
  {
    var v := f.pendings[p];
    var f := f.Put(p, v.(checks := v.checks - 1, checking := false));
    if !f.IsActive(p) then f
    else
      match result
      case CheckConnected => Confirm(GiveUp(f, p), p)
      case CheckPending => SetTimer(f.(progress := Some(Waiting)), p)
      case CheckFails(reason, fatal) =>
        if fatal then Finish(f, p, Some(reason)) else SetTimer(f.(progress := Some(Retrying)), p)
  }

  function AttemptOf(v: Pending): set<nat> {
    if v.attempt.Some? then {v.attempt.value} else {}
  }

  /** The attempt is the host's business no longer: it is connected. */
  function GiveUp(f: Flow, p: nat): Flow
    requires p < |f.pendings|
  {
    f.Put(p, f.pendings[p].(attempt := None)).(verified := f.verified + AttemptOf(f.pendings[p]))
  }

  /** The host has reported the active connection p connected. */
  function Confirm(f: Flow, p: nat): Flow
    requires p < |f.pendings|
  {
    Finish(f, p, None).(confirmed := f.confirmed + {p})
  }

  /** start, from the host's answer to the first await of its next. */
  function EndStart(f: Flow, p: nat, result: StartResult): Flow
    requires p < |f.pendings|
  {
    var returned := f.Put(p, f.pendings[p].(phase := Returned));
    match result
    case StartConnected =>
      if f.IsActive(p) then Confirm(returned, p) else returned
    case StartPending(a) =>
      if f.IsActive(p) then
        f.Put(p, f.pendings[p].(phase := AwaitsOpen, attempt := Some(a))).(issued := f.issued + {a})
      else returned.(issued := f.issued + {a}, cancelled := f.cancelled + multiset{a})
    case StartFails(reason) => Finish(returned, p, Some(reason))
  }

  /** start, after the browser was asked to open. */
  function EndOpen(f: Flow, p: nat, result: OpenResult): Flow
    requires p < |f.pendings|
  {
    var f := f.Put(p, f.pendings[p].(phase := Returned));
    match result
    case Opened => if f.IsActive(p) then BeginCheck(f.(progress := Some(Waiting))) else f
    case OpenFails(reason) => Finish(f, p, Some(reason))
  }

  function Cancel(f: Flow): Flow
    requires f.active.Some? ==> f.active.value < |f.pendings|
  {
    if f.active.None? then f else Close(f, f.active.value, Cancelled)
  }

  function Fire(f: Flow, h: nat): Flow
    requires f.active.Some? ==> f.active.value < |f.pendings|
  {
    if h in f.timers then BeginCheck(f.(timers := f.timers - {h})) else f
  }

  // ---------------------------------------------------------------------------------------------
  // Interleaving
  // ---------------------------------------------------------------------------------------------

  datatype Event =
    | DoConnect(binding: string, ours: bool)
    | DoCheck
    | DoCancel
    | DoFire(timer: nat)
    | StartAnswer(p: nat, start: StartResult)
    | OpenAnswer(p: nat, open: OpenResult)
    | CheckAnswer(p: nat, check: CheckResult)

  /** Answers come to requests that are awaited, and the host never issues an attempt twice. */
  predicate Admissible(f: Flow, e: Event) {
    match e
    case StartAnswer(p, result) =>
      && p < |f.pendings| && f.pendings[p].phase == AwaitsStart
      && (result.StartPending? ==> result.attempt !in f.issued)
    case OpenAnswer(p, _) => p < |f.pendings| && f.pendings[p].phase == AwaitsOpen
    case CheckAnswer(p, _) => p < |f.pendings| && 0 < f.pendings[p].checks
    case _ => true
  }

  function Next(f: Flow, e: Event): Flow
    requires Admissible(f, e) && (f.active.Some? ==> f.active.value < |f.pendings|)
  {
    match e
    case DoConnect(binding, ours) => Connect(f, binding, ours)
    case DoCheck => BeginCheck(f)
    case DoCancel => Cancel(f)
    case DoFire(h) => Fire(f, h)
    case StartAnswer(p, result) => EndStart(f, p, result)
    case OpenAnswer(p, result) => EndOpen(f, p, result)
    case CheckAnswer(p, result) => EndCheck(f, p, result)
  }

  // ---------------------------------------------------------------------------------------------
  // The invariant
  // ---------------------------------------------------------------------------------------------

  function One(b: bool): nat {
    if b then 1 else 0
  }

  predicate Held(f: Flow, a: nat)
    requires f.active.Some? ==> f.active.value < |f.pendings|
  {
    f.active.Some? && f.pendings[f.active.value].attempt == Some(a)
  }

  /** Each attempt issued is exactly one of held, cancelled once, or verified; no other attempt is any. */
  ghost predicate AttemptsConserved(f: Flow)
    requires f.active.Some? ==> f.active.value < |f.pendings|
  {
    forall a: nat :: One(Held(f, a)) + f.cancelled[a] + One(a in f.verified) == One(a in f.issued)
  }

  /** A promise is settled at most once, is open exactly while its connection is active, and says
      connected exactly when the host confirmed it or a falsy rejection ended it. */
  predicate PromiseOk(f: Flow, p: nat)
    requires p < |f.pendings|
  {
    var s := f.pendings[p].settled;
    && |s| <= 1
    && (s == [] <==> f.IsActive(p))
    && (s == [Connected] <==> p in f.confirmed + f.blank)
  }

  /** Holds at every step but while start or check has just given an attempt up. */
  predicate PhaseOk(f: Flow, p: nat)
    requires p < |f.pendings|
  {
    f.IsActive(p) && f.pendings[p].attempt.None? ==> f.pendings[p].phase == AwaitsStart
  }

  predicate PendingOk(f: Flow, p: nat)
    requires p < |f.pendings|
  {
    var v := f.pendings[p];
    && PromiseOk(f, p)
    && v.checks == One(v.checking)
    && (v.phase == AwaitsStart ==> v.attempt.None? && !v.checking)
    && (v.timer.Some? ==> v.timer.value < f.nextTimer)
    && (f.IsActive(p) && (v.checking || v.attempt.None?) ==> f.timers == map[])
  }

  ghost predicate Settling(f: Flow) {
    && (f.active.Some? ==> f.active.value < |f.pendings|)
    && (forall p | 0 <= p < |f.pendings| :: PendingOk(f, p))
    && (forall p <- f.confirmed + f.blank :: p < |f.pendings|)
    && (f.progress.None? <==> f.active.None?)
    && (forall h <- f.timers :: f.active == Some(f.timers[h]) && f.pendings[f.timers[h]].timer == Some(h))
    && AttemptsConserved(f)
  }

  ghost predicate Inv(f: Flow) {
    Settling(f) && forall p | 0 <= p < |f.pendings| :: PhaseOk(f, p)
  }

  lemma ClosedIsSettled(f: Flow, p: nat, s: Settlement, confirmed: set<nat>, blank: set<nat>)
    requires Settling(f) && f.IsActive(p)
    requires confirmed + blank == f.confirmed + f.blank + if s == Connected then {p} else {}
    ensures PendingOk(Close(f, p, s).(confirmed := confirmed, blank := blank), p)
  {
    assert PendingOk(f, p);
    CloseClearsTimers(f, p);
    assert ([s] == [Connected] <==> [s][0] == Connected);
    assert p in confirmed + blank <==> p in f.confirmed + f.blank || s == Connected;
  }

  lemma OthersStaySettled(f: Flow, p: nat, s: Settlement, confirmed: set<nat>, blank: set<nat>, q: nat)
    requires Settling(f) && f.IsActive(p) && q < |f.pendings| && q != p
    requires confirmed + blank == f.confirmed + f.blank + if s == Connected then {p} else {}
    ensures PendingOk(Close(f, p, s).(confirmed := confirmed, blank := blank), q)
  {
    assert PendingOk(f, q);
    assert q in confirmed + blank <==> q in f.confirmed + f.blank;
  }

  /** Ending the active connection, with the ledgers that say why brought up to date. */
  lemma CloseKeepsInv(f: Flow, p: nat, s: Settlement, confirmed: set<nat>, blank: set<nat>)
    requires Settling(f) && f.IsActive(p)
    requires confirmed + blank == f.confirmed + f.blank + if s == Connected then {p} else {}
    ensures Inv(Close(f, p, s).(confirmed := confirmed, blank := blank))
  {
    var g := Close(f, p, s).(confirmed := confirmed, blank := blank);
    CloseClearsTimers(f, p);
    forall q | 0 <= q < |g.pendings|
      ensures PendingOk(g, q)
    {
      if q == p {
        ClosedIsSettled(f, p, s, confirmed, blank);
      } else {
        OthersStaySettled(f, p, s, confirmed, blank, q);
      }
    }
    CloseKeepsAttempts(f, p, s);
    assert forall q <- g.confirmed + g.blank :: q in f.confirmed + f.blank || q == p;
  }

  /** The attempt the closed connection held is cancelled. */
  lemma CloseKeepsAttempts(f: Flow, p: nat, s: Settlement)
    requires Settling(f) && f.IsActive(p)
    ensures AttemptsConserved(Close(f, p, s))
  {
  }

  lemma CloseClearsTimers(f: Flow, p: nat)
    requires Settling(f) && f.IsActive(p)
    ensures ClearTimer(f.(active := None), p).timers == map[]
  {
  }

  lemma FinishKeepsInv(f: Flow, p: nat, error: Option<Reason>)
    requires Settling(f) && f.IsActive(p)
    ensures Inv(if error.Some? then Finish(f, p, error) else Confirm(f, p))
  {
    if error.None? {
      CloseKeepsInv(f, p, Connected, f.confirmed + {p}, f.blank);
    } else if error.value.truthy {
      CloseKeepsInv(f, p, Rejected, f.confirmed, f.blank);
    } else {
      CloseKeepsInv(f, p, Connected, f.confirmed, f.blank + {p});
    }
  }

  /** Reporting progress and setting the next poll timer, when none is live. */
  lemma SetTimerKeepsInv(f: Flow, p: nat, progress: Progress)
    requires Inv(f) && f.IsActive(p) && f.timers == map[] && f.pendings[p].attempt.Some? && !f.pendings[p].checking
    ensures Inv(SetTimer(f.(progress := Some(progress)), p))
  {
    var g := SetTimer(f.(progress := Some(progress)), p);
    assert PendingOk(f, p);
    assert forall q | 0 <= q < |f.pendings| :: PendingOk(f, q) && PhaseOk(f, q) ==> PendingOk(g, q) && PhaseOk(g, q);
  }

  /** A connection's own fields may change as long as they still agree with each other. */
  lemma PutKeepsSettling(f: Flow, p: nat, v: Pending)
    requires Settling(f) && p < |f.pendings|
    requires v.settled == f.pendings[p].settled && v.timer == f.pendings[p].timer && v.attempt == f.pendings[p].attempt
    requires v.checks == One(v.checking) && (v.phase == AwaitsStart ==> v.attempt.None? && !v.checking)
    requires v.checking ==> f.pendings[p].checking
    ensures Settling(f.Put(p, v))
    ensures Inv(f) && PhaseOk(f.Put(p, v), p) ==> Inv(f.Put(p, v))
  {
    var g := f.Put(p, v);
    assert PendingOk(f, p);
    assert forall q | 0 <= q < |f.pendings| :: PendingOk(f, q) ==> PendingOk(g, q);
    assert forall q | 0 <= q < |f.pendings| && q != p :: PhaseOk(f, q) ==> PhaseOk(g, q);
  }

  lemma ConnectKeepsInv(f: Flow, binding: string, ours: bool)
    requires Inv(f)
    ensures Inv(Connect(f, binding, ours))
  {
    var g := Connect(f, binding, ours);
    assert forall p | 0 <= p < |f.pendings| :: g.pendings[p] == f.pendings[p] && (PendingOk(f, p) ==> PendingOk(g, p));
  }

  lemma BeginCheckKeepsInv(f: Flow)
    requires Inv(f)
    ensures Inv(BeginCheck(f))
  {
    var g := BeginCheck(f);
    assert forall p | 0 <= p < |f.pendings| :: PendingOk(f, p) ==> PendingOk(g, p);
  }

  lemma EndStartKeepsInv(f: Flow, p: nat, result: StartResult)
    requires Inv(f) && Admissible(f, StartAnswer(p, result))
    ensures Inv(EndStart(f, p, result))
  {
    assert PendingOk(f, p);
    var returned := f.Put(p, f.pendings[p].(phase := Returned));
    PutKeepsSettling(f, p, f.pendings[p].(phase := Returned));
    match result
    case StartConnected =>
      if f.IsActive(p) {
        FinishKeepsInv(returned, p, None);
      }
    case StartFails(reason) =>
      if f.IsActive(p) {
        FinishKeepsInv(returned, p, Some(reason));
      }
    case StartPending(a) =>
      var g := EndStart(f, p, result);
      assert f.cancelled[a] == 0 && a !in f.verified by {
        assert One(Held(f, a)) + f.cancelled[a] + One(a in f.verified) == One(a in f.issued);
      }
      assert forall q | 0 <= q < |f.pendings| :: PendingOk(f, q) && PhaseOk(f, q) ==> PendingOk(g, q) && PhaseOk(g, q);
      IssuedKeepsAttempts(f, g, p, a);
  }

  lemma IssuedKeepsAttempts(f: Flow, g: Flow, p: nat, a: nat)
    requires Inv(f) && p < |f.pendings| && a !in f.issued && f.pendings[p].phase == AwaitsStart
    requires g == EndStart(f, p, StartPending(a))
    ensures AttemptsConserved(g)
  {
    assert PendingOk(f, p);
    forall b: nat
      ensures One(Held(g, b)) + g.cancelled[b] + One(b in g.verified) == One(b in g.issued)
    {
      assert One(Held(f, b)) + f.cancelled[b] + One(b in f.verified) == One(b in f.issued);
    }
  }

  lemma EndOpenKeepsInv(f: Flow, p: nat, result: OpenResult)
    requires Inv(f) && Admissible(f, OpenAnswer(p, result))
    ensures Inv(EndOpen(f, p, result))
  {
    assert PendingOk(f, p) && PhaseOk(f, p);
    var returned := f.Put(p, f.pendings[p].(phase := Returned));
    PutKeepsSettling(f, p, f.pendings[p].(phase := Returned));
    if f.IsActive(p) {
      match result
      case Opened =>
        var waiting := returned.(progress := Some(Waiting));
        assert Inv(waiting) by {
          assert forall q | 0 <= q < |f.pendings| :: PendingOk(returned, q) && PhaseOk(returned, q) ==> PendingOk(waiting, q) && PhaseOk(waiting, q);
        }
        BeginCheckKeepsInv(waiting);
      case OpenFails(reason) => FinishKeepsInv(returned, p, Some(reason));
    }
  }

  lemma EndCheckKeepsInv(f: Flow, p: nat, result: CheckResult)
    requires Inv(f) && Admissible(f, CheckAnswer(p, result))
    ensures Inv(EndCheck(f, p, result))
  {
    assert PendingOk(f, p) && PhaseOk(f, p);
    var v := f.pendings[p].(checks := f.pendings[p].checks - 1, checking := false);
    var landed := f.Put(p, v);
    PutKeepsSettling(f, p, v);
    if f.IsActive(p) {
      match result
      case CheckConnected =>
        GiveUpSettles(landed, p);
        FinishKeepsInv(GiveUp(landed, p), p, None);
      case CheckPending => SetTimerKeepsInv(landed, p, Waiting);
      case CheckFails(reason, fatal) =>
        if fatal {
          FinishKeepsInv(landed, p, Some(reason));
        } else {
          SetTimerKeepsInv(landed, p, Retrying);
        }
    }
  }

  /** The attempt the host verifies moves from held to verified. */
  lemma GiveUpSettles(f: Flow, p: nat)
    requires Settling(f) && f.IsActive(p) && f.timers == map[] && f.pendings[p].attempt.Some?
    ensures Settling(GiveUp(f, p))
  {
    var g := GiveUp(f, p);
    assert PendingOk(f, p);
    assert forall q | 0 <= q < |f.pendings| :: PendingOk(f, q) ==> PendingOk(g, q);
    forall b: nat
      ensures One(Held(g, b)) + g.cancelled[b] + One(b in g.verified) == One(b in g.issued)
    {
      assert One(Held(f, b)) + f.cancelled[b] + One(b in f.verified) == One(b in f.issued);
    }
  }

  lemma CancelKeepsInv(f: Flow)
    requires Inv(f)
    ensures Inv(Cancel(f))
  {
    if f.active.Some? {
      CloseKeepsInv(f, f.active.value, Cancelled, f.confirmed, f.blank);
    }
  }

  lemma FireKeepsInv(f: Flow, h: nat)
    requires Inv(f)
    ensures Inv(Fire(f, h))
  {
    if h in f.timers {
      var g := f.(timers := f.timers - {h});
      assert forall p | 0 <= p < |f.pendings| :: PendingOk(f, p) && PhaseOk(f, p) ==> PendingOk(g, p) && PhaseOk(g, p);
      BeginCheckKeepsInv(g);
    }
  }

  lemma NextKeepsInv(f: Flow, e: Event)
    requires Inv(f) && Admissible(f, e)
    ensures Inv(Next(f, e))
  {
    match e
    case DoConnect(binding, ours) => ConnectKeepsInv(f, binding, ours);
    case DoCheck => BeginCheckKeepsInv(f);
    case DoCancel => CancelKeepsInv(f);
    case DoFire(h) => FireKeepsInv(f, h);
    case StartAnswer(p, result) => EndStartKeepsInv(f, p, result);
    case OpenAnswer(p, result) => EndOpenKeepsInv(f, p, result);
    case CheckAnswer(p, result) => EndCheckKeepsInv(f, p, result);
  }

  // ---------------------------------------------------------------------------------------------
  // Whole runs
  // ---------------------------------------------------------------------------------------------

  ghost predicate Reaches(f: Flow, es: seq<Event>, g: Flow)
    decreases |es|
  {
    if es == [] then f == g
    else Admissible(f, es[0]) && (f.active.Some? ==> f.active.value < |f.pendings|) && Reaches(Next(f, es[0]), es[1..], g)
  }

  lemma {:induction false} ReachesKeepsInv(f: Flow, es: seq<Event>, g: Flow)
    requires Inv(f) && Reaches(f, es, g)
    ensures Inv(g)
    decreases |es|
  {
    if es != [] {
      NextKeepsInv(f, es[0]);
      ReachesKeepsInv(Next(f, es[0]), es[1..], g);
    }
  }

  /** In every run: an attempt the host issued is held by the active connection, cancelled once, or
      verified, and only one of these; an attempt not issued is none of them. */
  lemma AttemptHasOneFate(es: seq<Event>, f: Flow, a: nat)
    requires Reaches(INITIAL, es, f)
    ensures f.active.Some? ==> f.active.value < |f.pendings|
    ensures a in f.issued <==> Held(f, a) || a in f.cancelled || a in f.verified
    ensures f.cancelled[a] <= 1
    ensures !(Held(f, a) && a in f.cancelled) && !(Held(f, a) && a in f.verified) && !(a in f.cancelled && a in f.verified)
  {
    ReachesKeepsInv(INITIAL, es, f);
    assert One(Held(f, a)) + f.cancelled[a] + One(a in f.verified) == One(a in f.issued);
  }

  /** A verified attempt is never cancelled afterwards, nor a cancelled one verified. */
  lemma {:induction false} FateIsFinal(f: Flow, es: seq<Event>, g: Flow, a: nat)
    requires Inv(f) && Reaches(f, es, g)
    ensures a in f.verified ==> a in g.verified && a !in g.cancelled
    ensures a in f.cancelled ==> g.cancelled[a] == 1 && a !in g.verified
    decreases |es|
  {
    if es == [] {
      assert One(Held(f, a)) + f.cancelled[a] + One(a in f.verified) == One(a in f.issued);
    } else {
      NextKeepsInv(f, es[0]);
      LedgersGrow(f, es[0]);
      FateIsFinal(Next(f, es[0]), es[1..], g, a);
    }
  }

  /** The answer ends its connection, which is active, with a falsy reason. */
  predicate EndsBlank(f: Flow, e: Event) {
    match e
    case StartAnswer(p, StartFails(reason)) => f.IsActive(p) && !reason.truthy
    case OpenAnswer(p, OpenFails(reason)) => f.IsActive(p) && !reason.truthy
    case CheckAnswer(p, CheckFails(reason, fatal)) => f.IsActive(p) && fatal && !reason.truthy
    case _ => false
  }

  /** The answer says connected, and its connection is active. */
  predicate Confirms(f: Flow, e: Event) {
    match e
    case StartAnswer(p, StartConnected) => f.IsActive(p)
    case CheckAnswer(p, CheckConnected) => f.IsActive(p)
    case _ => false
  }

  /** The attempt a status request has just been answered connected for. */
  function Verifies(f: Flow, e: Event): set<nat>
    requires f.active.Some? ==> f.active.value < |f.pendings|
  {
    if e.CheckAnswer? && Confirms(f, e) then AttemptOf(f.pendings[f.active.value]) else {}
  }

  /** How one step moves the ledgers. An attempt is verified exactly by the connected answer to a status
      request of the connection that holds it, cancellations are only added, and a connection becomes
      confirmed or blank exactly when a connected answer or a falsy rejection ends it. */
  ghost predicate LedgersMove(f: Flow, e: Event, g: Flow)
    requires f.active.Some? ==> f.active.value < |f.pendings|
  {
    && g.verified == f.verified + Verifies(f, e) && f.cancelled <= g.cancelled
    && g.confirmed == f.confirmed + (if Confirms(f, e) then {f.active.value} else {})
    && g.blank == f.blank + if EndsBlank(f, e) then {f.active.value} else {}
  }

  lemma LedgersGrow(f: Flow, e: Event)
    requires Inv(f) && Admissible(f, e)
    ensures LedgersMove(f, e, Next(f, e))
  {
    match e
    case StartAnswer(p, result) => EndStartGrows(f, p, result);
    case OpenAnswer(p, result) => EndOpenGrows(f, p, result);
    case CheckAnswer(p, result) => EndCheckGrows(f, p, result);
    case DoCancel =>
      if f.active.Some? {
        CloseGrows(f, f.active.value, Cancelled);
      }
    case DoConnect(_, _) =>
    case DoCheck => BeginCheckGrows(f);
    case DoFire(h) => BeginCheckGrows(f.(timers := f.timers - {h}));
  }

  lemma BeginCheckGrows(f: Flow)
    requires f.active.Some? ==> f.active.value < |f.pendings|
    ensures var g := BeginCheck(f);
            g.verified == f.verified && f.cancelled == g.cancelled && g.confirmed == f.confirmed && g.blank == f.blank
  {
  }

  lemma CloseGrows(f: Flow, p: nat, s: Settlement)
    requires p < |f.pendings|
    ensures var g := Close(f, p, s);
            g.verified == f.verified && f.cancelled <= g.cancelled && g.confirmed == f.confirmed && g.blank == f.blank
  {
  }

  lemma FinishGrows(f: Flow, p: nat, error: Option<Reason>)
    requires p < |f.pendings|
    ensures var g := Finish(f, p, error);
            && g.verified == f.verified && f.cancelled <= g.cancelled && g.confirmed == f.confirmed
            && g.blank == f.blank + if f.IsActive(p) && error.Some? && !error.value.truthy then {p} else {}
  {
    CloseGrows(f, p, Rejected);
    CloseGrows(f, p, Connected);
  }

  lemma EndStartGrows(f: Flow, p: nat, result: StartResult)
    requires p < |f.pendings| && (f.active.Some? ==> f.active.value < |f.pendings|)
    ensures LedgersMove(f, StartAnswer(p, result), EndStart(f, p, result))
  {
    var returned := f.Put(p, f.pendings[p].(phase := Returned));
    FinishGrows(returned, p, if result.StartFails? then Some(result.reason) else None);
  }

  lemma EndOpenGrows(f: Flow, p: nat, result: OpenResult)
    requires p < |f.pendings| && (f.active.Some? ==> f.active.value < |f.pendings|)
    ensures LedgersMove(f, OpenAnswer(p, result), EndOpen(f, p, result))
  {
    if result.OpenFails? {
      FinishGrows(f.Put(p, f.pendings[p].(phase := Returned)), p, Some(result.reason));
    }
  }

  lemma EndCheckGrows(f: Flow, p: nat, result: CheckResult)
    requires p < |f.pendings| && 0 < f.pendings[p].checks && (f.active.Some? ==> f.active.value < |f.pendings|)
    ensures LedgersMove(f, CheckAnswer(p, result), EndCheck(f, p, result))
  {
    var v := f.pendings[p].(checks := f.pendings[p].checks - 1, checking := false);
    var landed := f.Put(p, v);
    if result.CheckFails? {
      FinishGrows(landed, p, Some(result.reason));
    } else if result.CheckConnected? {
      FinishGrows(GiveUp(landed, p), p, None);
    }
  }

  /** Some event of the run says connected for p while p is active, or ends p with a falsy reason. */
  ghost predicate Connects(f: Flow, es: seq<Event>, p: nat)
    decreases |es|
  {
    es != [] && Admissible(f, es[0]) && (f.active.Some? ==> f.active.value < |f.pendings|)
    && ((f.IsActive(p) && (Confirms(f, es[0]) || EndsBlank(f, es[0]))) || Connects(Next(f, es[0]), es[1..], p))
  }

  lemma {:induction false} LedgersOfRun(f: Flow, es: seq<Event>, g: Flow, p: nat)
    requires Inv(f) && Reaches(f, es, g)
    ensures p in g.confirmed + g.blank <==> p in f.confirmed + f.blank || Connects(f, es, p)
    decreases |es|
  {
    if es != [] {
      NextKeepsInv(f, es[0]);
      LedgersGrow(f, es[0]);
      LedgersOfRun(Next(f, es[0]), es[1..], g, p);
    }
  }

  /** In every run each promise is settled at most once and open exactly while its connection is active;
      progress is null exactly when nothing is active; a live timer was set for the active connection,
      there is at most one, and none ticks while a status request of it is awaited; and no connection
      awaits two status requests. */
  lemma SettledOnce(es: seq<Event>, f: Flow, p: nat)
    requires Reaches(INITIAL, es, f) && p < |f.pendings|
    ensures |f.pendings[p].settled| <= 1 && (f.pendings[p].settled == [] <==> f.active == Some(p))
    ensures f.progress.None? <==> f.active.None?
    ensures f.pendings[p].checks <= 1
    ensures forall h, k | h in f.timers && k in f.timers :: h == k && f.active == Some(f.timers[h])
    ensures f.active == Some(p) && f.pendings[p].checks == 1 ==> f.timers == map[]
  {
    ReachesKeepsInv(INITIAL, es, f);
    assert PendingOk(f, p);
  }

  /** Which promises say connected: those for which the run holds an answer of the host that says so, or
      a falsy rejection, at a time when they were active; finish takes such a reason for no error. */
  lemma ConnectedMeansConfirmedExactly(es: seq<Event>, f: Flow, p: nat)
    requires Reaches(INITIAL, es, f) && p < |f.pendings|
    ensures f.pendings[p].settled == [Connected] <==> Connects(INITIAL, es, p)
    ensures f.pendings[p].settled == [Connected] <==> p in f.confirmed || p in f.blank
  {
    ReachesKeepsInv(INITIAL, es, f);
    LedgersOfRun(INITIAL, es, f, p);
    assert PendingOk(f, p);
  }

  /** A run with such a reason: the attempt is cancelled at the host, and its promise connects. */
  lemma FalsyReasonConnects(binding: string, a: nat) returns (es: seq<Event>, f: Flow)
    ensures Reaches(INITIAL, es, f)
    ensures |f.pendings| == 1 && f.pendings[0].settled == [Connected] && f.confirmed == {} && f.cancelled == multiset{a}
  {
    es := [DoConnect(binding, true), StartAnswer(0, StartPending(a)), OpenAnswer(0, OpenFails(Reason(false)))];
    var f1 := Next(INITIAL, es[0]);
    var f2 := Next(f1, es[1]);
    f := Next(f2, es[2]);
    assert Reaches(f, [], f);
    assert es[2..][1..] == [] && es[1..][1..] == es[2..];
    assert Reaches(f2, es[2..], f);
    assert Reaches(f1, es[1..], f);
  }

  // ---------------------------------------------------------------------------------------------
  // What each step leaves, in every case
  // ---------------------------------------------------------------------------------------------

  function CancelOf(v: Pending): multiset<nat> {
    if v.attempt.Some? then multiset{v.attempt.value} else multiset{}
  }

  /** The active connection ends: nothing is active, no timer ticks, and its promise, open so far, says s. */
  predicate Ended(f: Flow, p: nat, v: Pending, s: Settlement, g: Flow)
    requires p < |f.pendings|
  {
    && g.pendings == f.pendings[p := v.(settled := [s])] && g.active.None? && g.progress.None? && g.timers == map[]
    && g.nextTimer == f.nextTimer && g.issued == f.issued
  }

  /** It ends by a rejection: the promise is rejected if the reason is truthy, and the attempt is
      cancelled at the host. */
  predicate EndedBy(f: Flow, p: nat, v: Pending, reason: Reason, g: Flow)
    requires p < |f.pendings|
  {
    && Ended(f, p, v, if reason.truthy then Rejected else Connected, g)
    && g.cancelled == f.cancelled + CancelOf(v) && g.verified == f.verified && g.confirmed == f.confirmed
    && g.blank == if reason.truthy then f.blank else f.blank + {p}
  }

  /** It waits on, and is asked about again: one timer ticks, a new one, for it. */
  predicate WaitsOn(f: Flow, p: nat, v: Pending, progress: Progress, g: Flow)
    requires p < |f.pendings|
  {
    g == f.(pendings := f.pendings[p := v.(timer := Some(f.nextTimer))], progress := Some(progress),
            timers := map[f.nextTimer := p], nextTimer := f.nextTimer + 1)
  }

  predicate CheckOutcome(f: Flow, p: nat, result: CheckResult, g: Flow)
    requires p < |f.pendings| && 0 < f.pendings[p].checks
  {
    var v := f.pendings[p].(checking := false, checks := f.pendings[p].checks - 1);
    if !f.IsActive(p) then g == f.Put(p, v)
    else
      match result
      case CheckConnected =>
        && Ended(f, p, v.(attempt := None), Connected, g) && g.cancelled == f.cancelled && g.blank == f.blank
        && g.verified == f.verified + AttemptOf(v) && g.confirmed == f.confirmed + {p}
      case CheckPending => WaitsOn(f, p, v, Waiting, g)
      case CheckFails(reason, fatal) => if fatal then EndedBy(f, p, v, reason, g) else WaitsOn(f, p, v, Retrying, g)
  }

  lemma NoTimers(f: Flow, p: nat)
    requires Settling(f) && f.IsActive(p)
    ensures f.pendings[p].timer.Some? ==> f.timers - {f.pendings[p].timer.value} == map[]
    ensures f.pendings[p].timer.None? || f.pendings[p].checking || f.pendings[p].attempt.None? ==> f.timers == map[]
    ensures f.pendings[p].settled == []
  {
    assert PendingOk(f, p);
    assert forall h <- f.timers :: f.pendings[p].timer == Some(h);
  }

  /** Closing a connection some of whose fields have just been written. */
  lemma CloseEnds(f: Flow, h: Flow, p: nat, v: Pending, s: Settlement)
    requires Settling(f) && f.IsActive(p) && h.pendings == f.pendings[p := v]
    requires h.timers == f.timers && h.nextTimer == f.nextTimer && h.issued == f.issued
    requires v.timer == f.pendings[p].timer && v.settled == f.pendings[p].settled
    ensures var g := Close(h, p, s);
            && Ended(f, p, v, s, g) && g.cancelled == h.cancelled + CancelOf(v)
            && g.verified == h.verified && g.confirmed == h.confirmed && g.blank == h.blank
  {
    NoTimers(f, p);
    assert v.settled + [s] == [s];
    assert f.pendings[p := v][p := v.(settled := [s])] == f.pendings[p := v.(settled := [s])];
  }

  lemma FinishEnds(f: Flow, h: Flow, p: nat, v: Pending, reason: Reason)
    requires Settling(f) && f.IsActive(p) && h == f.Put(p, v)
    requires v.timer == f.pendings[p].timer && v.settled == f.pendings[p].settled
    ensures EndedBy(f, p, v, reason, Finish(h, p, Some(reason)))
  {
    CloseEnds(f, h, p, v, if reason.truthy then Rejected else Connected);
  }

  lemma ConfirmEnds(f: Flow, h: Flow, p: nat, v: Pending)
    requires Settling(f) && f.IsActive(p) && h.IsActive(p) && h.pendings == f.pendings[p := v]
    requires h.timers == f.timers && h.nextTimer == f.nextTimer && h.issued == f.issued
    requires v.timer == f.pendings[p].timer && v.settled == f.pendings[p].settled
    ensures var g := Confirm(h, p);
            && Ended(f, p, v, Connected, g) && g.cancelled == h.cancelled + CancelOf(v) && g.blank == h.blank
            && g.verified == h.verified && g.confirmed == h.confirmed + {p}
  {
    CloseEnds(f, h, p, v, Connected);
  }

  lemma TimerSet(f: Flow, p: nat, v: Pending, progress: Progress)
    requires Settling(f) && f.IsActive(p) && f.timers == map[]
    ensures WaitsOn(f, p, v, progress, SetTimer(f.Put(p, v).(progress := Some(progress)), p))
  {
    var w := v.(timer := Some(f.nextTimer));
    assert f.pendings[p := v][p := w] == f.pendings[p := w];
  }

  lemma CheckMeans(f: Flow, p: nat, result: CheckResult)
    requires Inv(f) && Admissible(f, CheckAnswer(p, result))
    ensures CheckOutcome(f, p, result, EndCheck(f, p, result))
  {
    if f.IsActive(p) {
      NoTimers(f, p);
      assert PendingOk(f, p);
      var v := f.pendings[p].(checking := false, checks := f.pendings[p].checks - 1);
      var h := f.Put(p, v);
      match result
      case CheckConnected =>
        assert f.pendings[p := v][p := v.(attempt := None)] == f.pendings[p := v.(attempt := None)];
        ConfirmEnds(f, GiveUp(h, p), p, v.(attempt := None));
      case CheckPending => TimerSet(f, p, v, Waiting);
      case CheckFails(reason, fatal) =>
        if fatal {
          FinishEnds(f, h, p, v, reason);
        } else {
          TimerSet(f, p, v, Retrying);
        }
    }
  }

  predicate StartOutcome(f: Flow, p: nat, result: StartResult, g: Flow)
    requires p < |f.pendings|
  {
    var v := f.pendings[p].(phase := Returned);
    match result
    case StartConnected =>
      if !f.IsActive(p) then g == f.Put(p, v)
      else
        && Ended(f, p, v, Connected, g) && g.cancelled == f.cancelled && g.blank == f.blank
        && g.verified == f.verified && g.confirmed == f.confirmed + {p}
    case StartPending(a) =>
      if f.IsActive(p) then g == f.Put(p, v.(phase := AwaitsOpen, attempt := Some(a))).(issued := f.issued + {a})
      else g == f.Put(p, v).(issued := f.issued + {a}, cancelled := f.cancelled + multiset{a})
    case StartFails(reason) => if f.IsActive(p) then EndedBy(f, p, v, reason, g) else g == f.Put(p, v)
  }

  lemma StartMeans(f: Flow, p: nat, result: StartResult)
    requires Inv(f) && Admissible(f, StartAnswer(p, result))
    ensures StartOutcome(f, p, result, EndStart(f, p, result))
  {
    if f.IsActive(p) {
      assert PendingOk(f, p);
      var v := f.pendings[p].(phase := Returned);
      match result
      case StartConnected => ConfirmEnds(f, f.Put(p, v), p, v);
      case StartPending(_) =>
      case StartFails(reason) => FinishEnds(f, f.Put(p, v), p, v, reason);
    }
  }

  /** A status request goes out for the attempt held, unless one is awaited, and then no timer ticks. */
  predicate CheckBegins(f: Flow, g: Flow) {
    if f.active.None? || f.active.value >= |f.pendings| then g == f
    else
      var p := f.active.value;
      var v := f.pendings[p];
      g == if v.attempt.None? || v.checking then f
           else f.(pendings := f.pendings[p := v.(checking := true, checks := v.checks + 1)], timers := map[])
  }

  predicate OpenOutcome(f: Flow, p: nat, result: OpenResult, g: Flow)
    requires p < |f.pendings|
  {
    var v := f.pendings[p].(phase := Returned);
    if !f.IsActive(p) then g == f.Put(p, v)
    else
      match result
      case Opened => CheckBegins(f.Put(p, v).(progress := Some(Waiting)), g)
      case OpenFails(reason) => EndedBy(f, p, v, reason, g)
  }

  lemma OpenMeans(f: Flow, p: nat, result: OpenResult)
    requires Inv(f) && Admissible(f, OpenAnswer(p, result))
    ensures OpenOutcome(f, p, result, EndOpen(f, p, result))
  {
    if f.IsActive(p) {
      var v := f.pendings[p].(phase := Returned);
      match result
      case Opened =>
        NoTimers(f, p);
        var w := v.(checking := true, checks := v.checks + 1);
        assert f.pendings[p := v][p := w] == f.pendings[p := w];
      case OpenFails(reason) => FinishEnds(f, f.Put(p, v), p, v, reason);
    }
  }

  lemma CheckBeginsMeans(f: Flow)
    requires Inv(f)
    ensures CheckBegins(f, BeginCheck(f))
  {
    if f.active.Some? {
      NoTimers(f, f.active.value);
    }
  }

  /** The first request opens a connection; a second is shared or refused, and nothing changes. */
  predicate ConnectOutcome(f: Flow, binding: string, ours: bool, g: Flow) {
    if !ours || f.active.Some? then g == f
    else
      g == f.(pendings := f.pendings + [Pending(binding, None, None, false, AwaitsStart, 0, [])],
              active := Some(|f.pendings|), progress := Some(Opening))
  }

  predicate CancelOutcome(f: Flow, g: Flow) {
    if f.active.None? || f.active.value >= |f.pendings| then g == f
    else
      var p := f.active.value;
      && Ended(f, p, f.pendings[p], Cancelled, g) && g.cancelled == f.cancelled + CancelOf(f.pendings[p])
      && g.verified == f.verified && g.confirmed == f.confirmed && g.blank == f.blank
  }

  lemma CancelMeans(f: Flow)
    requires Inv(f)
    ensures CancelOutcome(f, Cancel(f))
  {
    if f.active.Some? {
      var p := f.active.value;
      assert f.pendings == f.pendings[p := f.pendings[p]];
      CloseEnds(f, f, p, f.pendings[p], Cancelled);
    }
  }

  lemma ConnectMeans(f: Flow, binding: string, ours: bool)
    ensures ConnectOutcome(f, binding, ours, Connect(f, binding, ours))
  {
  }

  /** A timer that ticks asks about the active connection; one that does not has no effect. */
  lemma FireMeans(f: Flow, h: nat)
    requires Inv(f)
    ensures if h !in f.timers then Fire(f, h) == f else CheckBegins(f.(timers := map[]), Fire(f, h))
  {
    if h in f.timers {
      assert f.active == Some(f.timers[h]) && f.pendings[f.timers[h]].timer == Some(h);
      NoTimers(f, f.timers[h]);
    }
  }

  // A waiting connection is asked about again

  /** Once its start call has returned, the active connection awaits a status request, or the one timer
      that ticks is its own. */
  predicate Watched(f: Flow) {
    f.active.Some? && f.active.value < |f.pendings| && f.pendings[f.active.value].phase == Returned ==>
      var v := f.pendings[f.active.value];
      || v.checks == 1
      || (v.checks == 0 && v.timer.Some? && f.timers == map[v.timer.value := f.active.value])
  }

  lemma NextKeepsWatched(f: Flow, e: Event)
    requires Inv(f) && Admissible(f, e) && Watched(f)
    ensures Watched(Next(f, e))
  {
    if f.active.Some? {
      assert PendingOk(f, f.active.value) && PhaseOk(f, f.active.value);
    }
    match e
    case DoConnect(binding, ours) => ConnectMeans(f, binding, ours);
    case DoCheck => CheckBeginsMeans(f);
    case DoCancel => CancelMeans(f);
    case DoFire(h) => FireMeans(f, h);
    case StartAnswer(p, result) => StartMeans(f, p, result);
    case OpenAnswer(p, result) => OpenMeans(f, p, result);
    case CheckAnswer(p, result) => CheckMeans(f, p, result);
  }

  lemma {:induction false} ReachesKeepsWatched(f: Flow, es: seq<Event>, g: Flow)
    requires Inv(f) && Reaches(f, es, g) && Watched(f)
    ensures Watched(g)
    decreases |es|
  {
    if es != [] {
      NextKeepsInv(f, es[0]);
      NextKeepsWatched(f, es[0]);
      ReachesKeepsWatched(Next(f, es[0]), es[1..], g);
    }
  }

  /** In every run: an active connection whose start call has returned awaits one status request, or
      exactly one timer ticks and it is the connection's. So polling ends only with the connection. */
  lemma WaitingIsWatched(es: seq<Event>, f: Flow)
    requires Reaches(INITIAL, es, f)
    ensures f.active.Some? ==> f.active.value < |f.pendings|
    ensures f.active.Some? && f.pendings[f.active.value].phase == Returned ==>
              var v := f.pendings[f.active.value];
              || v.checks == 1
              || (v.checks == 0 && v.timer.Some? && f.timers == map[v.timer.value := f.active.value])
  {
    ReachesKeepsInv(INITIAL, es, f);
    ReachesKeepsWatched(INITIAL, es, f);
  }

  // How promises are settled

  /** What the event makes the promise of the active connection say, if it ends it. */
  function Verdict(f: Flow, e: Event): Option<Settlement> {
    match e
    case DoCancel => if f.active.Some? then Some(Cancelled) else None
    case StartAnswer(p, StartConnected) => if f.IsActive(p) then Some(Connected) else None
    case StartAnswer(p, StartFails(reason)) => if f.IsActive(p) then RejectedBy(reason) else None
    case OpenAnswer(p, OpenFails(reason)) => if f.IsActive(p) then RejectedBy(reason) else None
    case CheckAnswer(p, CheckConnected) => if f.IsActive(p) then Some(Connected) else None
    case CheckAnswer(p, CheckFails(reason, fatal)) => if f.IsActive(p) && fatal then RejectedBy(reason) else None
    case _ => None
  }

  function RejectedBy(reason: Reason): Option<Settlement> {
    Some(if reason.truthy then Rejected else Connected)
  }

  /** What a promise has said; nothing if it has not been opened. */
  function Said(f: Flow, p: nat): seq<Settlement> {
    if p < |f.pendings| then f.pendings[p].settled else []
  }

  lemma StartSettles(f: Flow, q: nat, result: StartResult, p: nat)
    requires Inv(f) && Admissible(f, StartAnswer(q, result))
    ensures var s := Verdict(f, StartAnswer(q, result));
            Said(EndStart(f, q, result), p) == if f.IsActive(p) && s.Some? then [s.value] else Said(f, p)
  {
    StartMeans(f, q, result);
  }

  lemma OpenSettles(f: Flow, q: nat, result: OpenResult, p: nat)
    requires Inv(f) && Admissible(f, OpenAnswer(q, result))
    ensures var s := Verdict(f, OpenAnswer(q, result));
            Said(EndOpen(f, q, result), p) == if f.IsActive(p) && s.Some? then [s.value] else Said(f, p)
  {
    OpenMeans(f, q, result);
  }

  lemma CheckSettles(f: Flow, q: nat, result: CheckResult, p: nat)
    requires Inv(f) && Admissible(f, CheckAnswer(q, result))
    ensures var s := Verdict(f, CheckAnswer(q, result));
            Said(EndCheck(f, q, result), p) == if f.IsActive(p) && s.Some? then [s.value] else Said(f, p)
  {
    CheckMeans(f, q, result);
  }

  /** Some event of the run makes the promise of p say s while p is active. */
  ghost predicate Says(f: Flow, es: seq<Event>, p: nat, s: Settlement)
    decreases |es|
  {
    es != [] && Admissible(f, es[0]) && (f.active.Some? ==> f.active.value < |f.pendings|)
    && ((f.IsActive(p) && Verdict(f, es[0]) == Some(s)) || Says(Next(f, es[0]), es[1..], p, s))
  }

  lemma ActiveIsOpen(f: Flow, p: nat)
    requires Inv(f) && f.IsActive(p)
    ensures Said(f, p) == []
  {
    assert PendingOk(f, p);
  }

  lemma StepSays(f: Flow, e: Event, p: nat)
    requires Inv(f) && Admissible(f, e)
    ensures Said(Next(f, e), p) == if f.IsActive(p) && Verdict(f, e).Some? then [Verdict(f, e).value] else Said(f, p)
  {
    match e
    case DoConnect(binding, ours) => ConnectMeans(f, binding, ours);
    case DoCheck => CheckBeginsMeans(f);
    case DoCancel => CancelMeans(f);
    case DoFire(h) => FireMeans(f, h);
    case StartAnswer(q, result) => StartSettles(f, q, result, p);
    case OpenAnswer(q, result) => OpenSettles(f, q, result, p);
    case CheckAnswer(q, result) => CheckSettles(f, q, result, p);
  }

  lemma {:induction false} SettledAsSaid(f: Flow, es: seq<Event>, g: Flow, p: nat, s: Settlement)
    requires Inv(f) && Reaches(f, es, g)
    ensures Said(g, p) == [s] <==> Said(f, p) == [s] || Says(f, es, p, s)
    decreases |es|
  {
    if es != [] {
      NextKeepsInv(f, es[0]);
      SettledAsSaid(Next(f, es[0]), es[1..], g, p, s);
      StepSays(f, es[0], p);
      if f.IsActive(p) {
        ActiveIsOpen(f, p);
      }
    }
  }

  /** In every run a promise says cancelled exactly if its connection was active at a cancel, and rejected
      or connected exactly if an answer that rejects with a truthy reason, or one that connects or rejects
      with a falsy one, came while it was active. */
  lemma PromisesSayWhy(es: seq<Event>, f: Flow, p: nat, s: Settlement)
    requires Reaches(INITIAL, es, f) && p < |f.pendings|
    ensures f.pendings[p].settled == [s] <==> Says(INITIAL, es, p, s)
  {
    SettledAsSaid(INITIAL, es, f, p, s);
  }

  // ---------------------------------------------------------------------------------------------
  // The flow as written
  // ---------------------------------------------------------------------------------------------

  class PendingConnection {
    const slot: nat  // its place in roster
    const binding: string
    var attemptId: Option<nat>
    var timer: Option<nat>
    var checking: bool
    var settled: seq<Settlement>
    ghost var phase: Phase
    ghost var checks: nat

    constructor (slot: nat, binding: string)
      ensures this.slot == slot && View() == Pending(binding, None, None, false, AwaitsStart, 0, [])
    {
      this.slot, this.binding := slot, binding;
      attemptId, timer, checking, settled := None, None, false, [];
      phase, checks := AwaitsStart, 0;
    }

    ghost function View(): Pending
      reads this
    {
      Pending(binding, attemptId, timer, checking, phase, checks, settled)
    }
  }

  ghost function Views(s: seq<PendingConnection>): (v: seq<Pending>)
    reads s
    ensures |v| == |s| && forall i | 0 <= i < |s| :: v[i] == s[i].View()
  {
    seq(|s|, i requires 0 <= i < |s| reads s => s[i].View())
  }

  /** The closure of createWorkspaceConnectionFlow. A method that awaits ends at the await; the Answer
      methods are the continuations. The ghost fields record what the host has seen. */
  class WorkspaceConnectionFlow {
    var active: PendingConnection?
    var progress: Option<Progress>
    var timers: map<nat, nat>
    var nextTimer: nat
    var roster: seq<PendingConnection>  // every connection opened, in order
    ghost var issued: set<nat>
    ghost var cancelled: multiset<nat>
    ghost var verified: set<nat>
    ghost var confirmed: set<nat>
    ghost var blank: set<nat>

    constructor ()
      ensures Valid() && View() == INITIAL
    {
      active, progress, timers, nextTimer := null, None, map[], 0;
      roster, issued, cancelled, verified, confirmed, blank := [], {}, multiset{}, {}, {}, {};
    }

    ghost predicate Knows(p: PendingConnection)
      reads this
    {
      p.slot < |roster| && roster[p.slot] == p
    }

    ghost predicate Valid()
      reads this
    {
      && (forall i | 0 <= i < |roster| :: roster[i].slot == i)
      && (active != null ==> Knows(active))
    }

    ghost function View(): Flow
      requires Valid()
      reads this, roster
    {
      Flow(Views(roster), if active == null then None else Some(active.slot), progress, timers, nextTimer,
           issued, cancelled, verified, confirmed, blank)
    }

    method Report(value: Option<Progress>)
      requires Valid()
      modifies this
      ensures Valid() && roster == old(roster) && active == old(active)
      ensures View() == old(View()).(progress := value)
    {
      progress := value;
    }

    method ReleasePending(p: PendingConnection)
      requires Valid() && Knows(p)
      modifies this
      ensures Valid() && roster == old(roster) && active == old(active)
      ensures View() == Release(old(View()), p.slot)
    {
      if p.timer.Some? {
        timers := timers - {p.timer.value};
      }
      if p.attemptId.Some? {
        cancelled := cancelled + multiset{p.attemptId.value};
      }
    }

    method Settle(p: PendingConnection, s: Settlement)
      requires Valid() && Knows(p) && active == p
      modifies this, p
      ensures Valid() && roster == old(roster)
      ensures View() == Close(old(View()), p.slot, s)
    {
      active := null;
      assert View() == old(View()).(active := None);
      ReleasePending(p);
      Report(None);
      ghost var f := View();
      p.settled := p.settled + [s];
      assert Views(roster) == f.pendings[p.slot := p.View()];
      assert View() == f.Put(p.slot, p.View());
    }

    method FinishPending(p: PendingConnection, error: Option<Reason>)
      requires Valid() && Knows(p)
      modifies this, p
      ensures Valid() && roster == old(roster)
      ensures View() == Finish(old(View()), p.slot, error)
    {
      if active != p {
        return;
      }
      if error.Some? && error.value.truthy {
        Settle(p, Rejected);
      } else {
        Settle(p, Connected);
        if error.Some? {
          blank := blank + {p.slot};
        }
      }
    }

    method Check()
      requires Valid()
      modifies this, roster
      ensures Valid() && roster == old(roster)
      ensures View() == BeginCheck(old(View()))
      ensures old(Inv(View())) ==> CheckBegins(old(View()), View())
    {
      ghost var before := View();
      if Inv(before) {
        CheckBeginsMeans(before);
      }
      var pending := active;
      if pending == null || pending.attemptId.None? || pending.checking {
        return;
      }
      pending.checking, pending.checks := true, pending.checks + 1;
      if pending.timer.Some? {
        timers := timers - {pending.timer.value};
      }
      assert View().pendings == BeginCheck(old(View())).pendings;
    }

    method ScheduleCheck(p: PendingConnection)
      requires Valid() && Knows(p)
      modifies this, p
      ensures Valid() && roster == old(roster) && active == old(active)
      ensures View() == SetTimer(old(View()), p.slot)
    {
      p.timer := Some(nextTimer);
      timers := timers[nextTimer := p.slot];
      nextTimer := nextTimer + 1;
      assert View().pendings == SetTimer(old(View()), p.slot).pendings;
    }

    /** Writes the fields of p that an answered await may change. */
    method Store(p: PendingConnection, attempt: Option<nat>, checking: bool, ghost phase: Phase, ghost checks: nat)
      requires Valid() && Knows(p)
      modifies p
      ensures Valid() && View() == old(View()).Put(p.slot,
                old(p.View()).(attempt := attempt, checking := checking, phase := phase, checks := checks))
    {
      p.attemptId, p.checking, p.phase, p.checks := attempt, checking, phase, checks;
      assert View().pendings == old(View()).Put(p.slot, p.View()).pendings;
    }

    method AnswerCheck(p: PendingConnection, result: CheckResult)
      requires Valid() && Knows(p) && 0 < p.checks
      modifies this, p
      ensures Valid() && roster == old(roster)
      ensures View() == EndCheck(old(View()), p.slot, result)
      ensures old(Inv(View()) && Admissible(View(), CheckAnswer(p.slot, result))) ==>
                CheckOutcome(old(View()), p.slot, result, View())
    {
      ghost var before := View();
      if Inv(before) && Admissible(before, CheckAnswer(p.slot, result)) {
        CheckMeans(before, p.slot, result);
      }
      Store(p, p.attemptId, false, p.phase, p.checks - 1);
      if active != p {
        return;
      }
      if result.CheckConnected? {
        GiveUpAttempt(p);
        ConfirmActive(p);
        return;
      }
      if result.CheckFails? && result.fatal {
        FinishPending(p, Some(result.reason));
        return;
      }
      Report(Some(if result.CheckPending? then Waiting else Retrying));
      ScheduleCheck(p);
    }

    method GiveUpAttempt(p: PendingConnection)
      requires Valid() && Knows(p)
      modifies this, p
      ensures Valid() && roster == old(roster) && active == old(active)
      ensures View() == GiveUp(old(View()), p.slot)
    {
      ghost var attempts := AttemptOf(p.View());
      Store(p, None, p.checking, p.phase, p.checks);
      ghost var f := View();
      verified := verified + attempts;
      assert View() == f.(verified := f.verified + attempts);
    }

    method ConfirmActive(p: PendingConnection)
      requires Valid() && Knows(p)
      modifies this, p
      ensures Valid() && roster == old(roster)
      ensures View() == Confirm(old(View()), p.slot)
    {
      FinishPending(p, None);
      ghost var g := View();
      confirmed := confirmed + {p.slot};
      assert View() == g.(confirmed := confirmed);
    }

    method AnswerStart(p: PendingConnection, result: StartResult)
      requires Valid() && Knows(p)
      modifies this, p
      ensures Valid() && roster == old(roster)
      ensures View() == EndStart(old(View()), p.slot, result)
      ensures old(Inv(View()) && Admissible(View(), StartAnswer(p.slot, result))) ==>
                StartOutcome(old(View()), p.slot, result, View())
    {
      ghost var before := View();
      if Inv(before) && Admissible(before, StartAnswer(p.slot, result)) {
        StartMeans(before, p.slot, result);
      }
      if result.StartPending? {
        KeepAttempt(p, result.attempt);
        return;
      }
      Store(p, p.attemptId, p.checking, Returned, p.checks);
      if result.StartFails? {
        FinishPending(p, Some(result.reason));
      } else if active == p {
        ConfirmActive(p);
      }
    }

    /** An attempt that comes too late is cancelled at once. */
    method KeepAttempt(p: PendingConnection, attempt: nat)
      requires Valid() && Knows(p)
      modifies this, p
      ensures Valid() && roster == old(roster)
      ensures View() == EndStart(old(View()), p.slot, StartPending(attempt))
    {
      ghost var f := View();
      if active != p {
        Store(p, p.attemptId, p.checking, Returned, p.checks);
        ghost var g := View();
        cancelled := cancelled + multiset{attempt};
        issued := issued + {attempt};
        assert View() == g.(issued := issued, cancelled := cancelled);
      } else {
        Store(p, Some(attempt), p.checking, AwaitsOpen, p.checks);
        ghost var g := View();
        issued := issued + {attempt};
        assert View() == g.(issued := issued);
      }
    }

    method AnswerOpen(p: PendingConnection, result: OpenResult)
      requires Valid() && Knows(p)
      modifies this, roster
      ensures Valid() && roster == old(roster)
      ensures View() == EndOpen(old(View()), p.slot, result)
      ensures old(Inv(View()) && Admissible(View(), OpenAnswer(p.slot, result))) ==>
                OpenOutcome(old(View()), p.slot, result, View())
    {
      ghost var before := View();
      if Inv(before) && Admissible(before, OpenAnswer(p.slot, result)) {
        OpenMeans(before, p.slot, result);
      }
      Store(p, p.attemptId, p.checking, Returned, p.checks);
      if result.OpenFails? {
        FinishPending(p, Some(result.reason));
      } else if active == p {
        Report(Some(Waiting));
        Check();
      }
    }

    /** The connection whose promise the caller gets; null stands for a rejected request. */
    method ConnectTo(binding: string, ours: bool) returns (p: PendingConnection?)
      requires Valid()
      modifies this
      ensures Valid() && View() == Connect(old(View()), binding, ours)
      ensures p != null <==> ours && (old(active) == null || old(active).binding == binding)
      ensures p != null ==> p == active && p.binding == binding
      ensures old(active) != null ==> active == old(active)
      ensures ConnectOutcome(old(View()), binding, ours, View())
    {
      ghost var before := View();
      ConnectMeans(before, binding, ours);
      if !ours {
        return null;
      }
      if active != null {
        return if active.binding == binding then active else null;
      }
      var pending := new PendingConnection(|roster|, binding);
      roster := roster + [pending];
      active := pending;
      progress := Some(Opening);
      assert View().pendings == Connect(old(View()), binding, ours).pendings;
      p := pending;
    }

    method CancelActive()
      requires Valid()
      modifies this, roster
      ensures Valid() && roster == old(roster)
      ensures View() == Cancel(old(View()))
      ensures old(Inv(View())) ==> CancelOutcome(old(View()), View())
    {
      ghost var before := View();
      if Inv(before) {
        CancelMeans(before);
      }
      if active != null {
        Settle(active, Cancelled);
      }
    }

    method TimerFires(h: nat)
      requires Valid()
      modifies this, roster
      ensures Valid() && roster == old(roster)
      ensures View() == Fire(old(View()), h)
      ensures old(Inv(View())) ==>
                if h !in old(timers) then View() == old(View()) else CheckBegins(old(View()).(timers := map[]), View())
    {
      ghost var before := View();
      if Inv(before) {
        FireMeans(before, h);
      }
      if h in timers {
        timers := timers - {h};
        Check();
      }
    }
  }
}
