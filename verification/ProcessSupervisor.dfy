/** The process supervisor and the family of processes it answers for.

    The kernel forks, ends, reparents and reaps processes while the supervisor polls; a step below is
    one system call of the supervisor or one event of the kernel, in any order. The kernel keeps only
    the family: the supervised child and what descends from it, living or waiting to be reaped.
  */
module ProcessSupervisor {
  import opened Basics

  /** An exited process stays until its parent reaps it. born numbers processes in order of creation. */
  datatype Process = Process(parent: nat, alive: bool, code: int, born: nat)

  datatype Receipt = NotStarted | Exited(code: Option<int>)

  datatype Pc =
    | Admit  // before the child exists
    | CheckOwner
    | Poll
    | BeginStop
    | KillRound
    | KillEach(ids: set<nat>)  // the children read from /proc that are still to be signalled
    | Drain
    | Sleep
    | Ended  // exited by itself
    | Killed

  datatype State = State(
    strong: bool,  // this process is the subreaper of its descendants
    family: map<nat, Process>,
    ticks: nat,
    firstExit: Option<int>,  // how the supervised child itself ended
    pc: Pc,
    child: nat,
    stopping: bool,
    code: Option<int>,
    deadline: bool,
    receipts: seq<Receipt>
  )

  const SELF: nat := 0  // the supervisor's own process
  const OUTSIDE: nat := 1  // whatever adopts orphans when the supervisor does not

  function Initial(strong: bool): State {
    State(strong, map[], 0, None, Admit, 0, false, None, false, [])
  }

  // ---------------------------------------------------------------------------------------------
  // The kernel
  // ---------------------------------------------------------------------------------------------

  predicate IsAlive(s: State, p: nat) {
    p in s.family && s.family[p].alive
  }

  predicate IsChild(s: State, p: nat) {
    p in s.family && s.family[p].parent == SELF
  }

  /** a is a proper ancestor of p inside the family. */
  predicate Above(s: State, a: nat, p: nat)
    decreases if p in s.family then s.family[p].born else 0
  {
    p in s.family &&
    var parent := s.family[p].parent;
    parent in s.family && s.family[parent].born < s.family[p].born && (parent == a || Above(s, a, parent))
  }

  predicate Running(s: State) {
    !s.pc.Ended? && !s.pc.Killed?
  }

  function Orphanage(s: State): nat {
    if s.strong && Running(s) then SELF else OUTSIDE
  }

  /** Who may adopt the children of p: the subreaper, or a living ancestor that made itself one. */
  predicate MayAdopt(s: State, heir: nat, p: nat) {
    heir == Orphanage(s) || (IsAlive(s, heir) && Above(s, heir, p))
  }

  function Fork(s: State, parent: nat, p: nat): State {
    s.(family := s.family[p := Process(parent, true, 0, s.ticks)], ticks := s.ticks + 1)
  }

  function Exit(s: State, p: nat, code: int, heir: nat): State
    requires p in s.family
  {
    var family := map q | q in s.family ::
      if q == p then s.family[q].(alive := false, code := code)
      else if s.family[q].parent == p then s.family[q].(parent := heir)
      else s.family[q];
    s.(family := family, firstExit := if s.family[p].born == 0 then Some(code) else s.firstExit)
  }

  function Reap(s: State, p: nat): State {
    s.(family := s.family - {p})
  }

  /** The supervisor is killed, and its children are adopted elsewhere. */
  function Die(s: State): State {
    var family := map q | q in s.family ::
      if s.family[q].parent == SELF then s.family[q].(parent := OUTSIDE) else s.family[q];
    s.(family := family, pc := Killed)
  }

  // ---------------------------------------------------------------------------------------------
  // The supervisor
  // ---------------------------------------------------------------------------------------------

  function Send(s: State, r: Receipt): State {
    s.(receipts := s.receipts + [r], pc := Ended)
  }

  /** Admission and Popen: child is none when either fails. */
  function DoAdmit(s: State, child: Option<nat>): State {
    if child.None? then Send(s, NotStarted)
    else Fork(s, SELF, child.value).(child := child.value, pc := CheckOwner)
  }

  function DoCheckOwner(s: State, gone: bool): State {
    s.(stopping := s.stopping || gone, pc := Poll)
  }

  /** child.poll: reap the child if it has exited; a child that cannot be waited for counts as code 0. */
  function DoPoll(s: State): State {
    var next := s.(pc := BeginStop);
    if s.code.Some? then next
    else if !IsChild(s, s.child) then next.(code := Some(0), stopping := true)
    else if s.family[s.child].alive then next
    else Reap(next.(code := Some(s.family[s.child].code), stopping := true), s.child)
  }

  function DoBeginStop(s: State): State {
    s.(deadline := s.deadline || s.stopping, pc := KillRound)
  }

  /** late: two seconds have passed since the deadline was set; listed: /proc could be read. Without a
      subreaper, or without /proc, the whole group is killed, and the supervisor with it. */
  function DoKillRound(s: State, late: bool, listed: bool): State {
    if !s.deadline || !late then s.(pc := Drain)
    else if !s.strong || !listed then Die(s)
    else s.(pc := KillEach(set p | p in s.family && IsChild(s, p)))
  }

  function DoKillOne(s: State, p: nat): State
    requires s.pc.KillEach?
  {
    s.(pc := KillEach(s.pc.ids - {p}))
  }

  /** One waitpid(-1, WNOHANG); p is the child it reaps, when one has exited. */
  function DoWait(s: State, p: nat): State {
    if !s.stopping || !s.strong then s.(pc := Sleep)
    else if IsChild(s, p) && !s.family[p].alive then
      Reap(if p == s.child && s.code.None? then s.(code := Some(s.family[p].code)) else s, p)
    else if exists q <- s.family :: IsChild(s, q) then s.(pc := Sleep)
    else Send(s, Exited(s.code))
  }

  datatype Event =
    | KFork(parent: nat, pid: nat)
    | KExit(pid: nat, code: int, heir: nat)
    | KReap(pid: nat)  // by a parent other than the supervisor
    | KSignal  // the stop handler runs
    | KKill  // the supervisor is killed
    | SAdmit(child: Option<nat>)
    | SCheckOwner(gone: bool)
    | SPoll
    | SBeginStop
    | SKillRound(late: bool, listed: bool)
    | SKillOne(pid: nat)
    | SKillDone
    | SWait(pid: nat)
    | SWake

  predicate FreshPid(s: State, p: nat) {
    p !in s.family && p != SELF && p != OUTSIDE
  }

  /** What can happen next. A process identifier is free again once its process is reaped. */
  predicate Admissible(s: State, e: Event) {
    match e
    case KFork(parent, p) => IsAlive(s, parent) && FreshPid(s, p)
    case KExit(p, _, heir) => IsAlive(s, p) && MayAdopt(s, heir, p)
    case KReap(p) => p in s.family && !s.family[p].alive && !IsChild(s, p)
    case KSignal => Running(s)
    case KKill => Running(s)
    case SAdmit(child) => s.pc.Admit? && (child.Some? ==> FreshPid(s, child.value))
    case SCheckOwner(_) => s.pc.CheckOwner?
    case SPoll => s.pc.Poll?
    case SBeginStop => s.pc.BeginStop?
    case SKillRound(_, _) => s.pc.KillRound?
    case SKillOne(p) => s.pc.KillEach? && p in s.pc.ids
    case SKillDone => s.pc.KillEach? && s.pc.ids == {}
    case SWait(p) =>
      && s.pc.Drain?
      && (s.stopping && s.strong && (exists q <- s.family :: IsChild(s, q) && !s.family[q].alive) ==> IsChild(s, p) && !s.family[p].alive)
    case SWake => s.pc.Sleep?
  }

  function Next(s: State, e: Event): State
    requires Admissible(s, e)
  {
    match e
    case KFork(parent, p) => Fork(s, parent, p)
    case KExit(p, code, heir) => Exit(s, p, code, heir)
    case KReap(p) => Reap(s, p)
    case KSignal => s.(stopping := true)
    case KKill => Die(s)
    case SAdmit(child) => DoAdmit(s, child)
    case SCheckOwner(gone) => DoCheckOwner(s, gone)
    case SPoll => DoPoll(s)
    case SBeginStop => DoBeginStop(s)
    case SKillRound(late, listed) => DoKillRound(s, late, listed)
    case SKillOne(p) => DoKillOne(s, p)
    case SKillDone => s.(pc := Drain)
    case SWait(p) => DoWait(s, p)
    case SWake => s.(pc := CheckOwner)
  }

  // ---------------------------------------------------------------------------------------------
  // The invariant
  // ---------------------------------------------------------------------------------------------

  /** A process hangs under the supervisor, under a living and older process of the family, or, when the
      supervisor is no subreaper, under the outside. */
  predicate Hangs(s: State, p: nat)
    requires p in s.family
  {
    var v := s.family[p];
    && v.born < s.ticks
    && p != SELF && p != OUTSIDE
    && (|| v.parent == SELF
        || (v.parent == OUTSIDE && (!s.strong || !Running(s)))
        || (IsAlive(s, v.parent) && s.family[v.parent].born < v.born))
  }

  /** Until its exit code is known, the supervised child is there to be waited for, and its number is its
      own; afterwards the code is the one it ended with. */
  predicate ChildOk(s: State) {
    match s.pc
    case Killed => true
    case Admit => s.code.None? && s.family == map[] && s.ticks == 0 && s.firstExit.None?
    case Ended => s.family == map[]
    case _ =>
      && s.ticks != 0
      && if s.code.Some? then s.firstExit == s.code
         else
           && IsChild(s, s.child) && s.family[s.child].born == 0
           && s.firstExit == if s.family[s.child].alive then None else Some(s.family[s.child].code)
  }

  ghost predicate FamilyOk(s: State) {
    && (forall p <- s.family :: Hangs(s, p))
    && (forall p <- s.family :: s.family[p].born == 0 ==> p == s.child && (Running(s) ==> s.code.None?))
  }

  ghost predicate Inv(s: State) {
    && FamilyOk(s)
    && ChildOk(s)
    && (s.firstExit.Some? ==> s.ticks != 0)
    && (s.pc.KillEach? ==> s.strong && forall p <- s.pc.ids :: IsChild(s, p))
    && (s.pc.Ended? <==> s.receipts != [])
    && |s.receipts| <= 1
    && (forall r <- s.receipts :: ReceiptTrue(s, r))
  }

  /** What a receipt claims: no process of the family is left, and the code is the child's own. */
  predicate ReceiptTrue(s: State, r: Receipt) {
    && s.family == map[]
    && match r
       case NotStarted => s.ticks == 0
       case Exited(code) => s.strong && code.Some? && s.firstExit == code
  }

  lemma {:induction false} AboveIsOlder(s: State, a: nat, p: nat)
    requires Above(s, a, p)
    ensures a in s.family && s.family[a].born < s.family[p].born
    decreases s.family[p].born
  {
    if s.family[p].parent != a {
      AboveIsOlder(s, a, s.family[p].parent);
    }
  }

  /** Following parents from any process of a subreaper's family ends at a child of the supervisor. */
  lemma {:induction false} SomeChild(s: State, p: nat) returns (c: nat)
    requires s.strong && Running(s) && p in s.family && forall q <- s.family :: Hangs(s, q)
    ensures IsChild(s, c)
    decreases s.family[p].born
  {
    c := p;
    if s.family[p].parent != SELF {
      c := SomeChild(s, s.family[p].parent);
    }
  }

  lemma ExitKeepsFamily(s: State, p: nat, code: int, heir: nat)
    requires FamilyOk(s) && IsAlive(s, p) && MayAdopt(s, heir, p)
    ensures FamilyOk(Exit(s, p, code, heir))
  {
    var t := Exit(s, p, code, heir);
    if heir != Orphanage(s) {
      AboveIsOlder(s, heir, p);
    }
    forall q <- t.family
      ensures Hangs(t, q)
    {
      assert Hangs(s, q) && Hangs(s, p);
    }
  }

  lemma ExitKeepsInv(s: State, p: nat, code: int, heir: nat)
    requires Inv(s) && IsAlive(s, p) && MayAdopt(s, heir, p)
    ensures Inv(Exit(s, p, code, heir))
  {
    ExitKeepsFamily(s, p, code, heir);
    assert Hangs(s, p);
    assert forall q <- s.family :: IsChild(s, q) ==> IsChild(Exit(s, p, code, heir), q);
  }

  lemma WaitKeepsInv(s: State, p: nat)
    requires Inv(s) && Admissible(s, SWait(p))
    ensures Inv(DoWait(s, p))
  {
    if s.strong && s.family != map[] {
      var q :| q in s.family;
      var c := SomeChild(s, q);
    }
  }

  lemma DieKeepsInv(s: State)
    requires Inv(s) && Running(s)
    ensures Inv(Die(s))
  {
  }

  lemma ForkKeepsInv(s: State, parent: nat, p: nat)
    requires Inv(s) && IsAlive(s, parent) && FreshPid(s, p)
    ensures Inv(Fork(s, parent, p))
  {
    assert Hangs(s, parent);
  }

  lemma ReapKeepsInv(s: State, p: nat)
    requires Inv(s) && p in s.family && !s.family[p].alive && !IsChild(s, p)
    ensures Inv(Reap(s, p))
  {
    var t := Reap(s, p);
    forall q <- t.family
      ensures Hangs(t, q)
    {
      assert Hangs(s, q);
    }
  }

  lemma AdmitKeepsInv(s: State, child: Option<nat>)
    requires Inv(s) && Admissible(s, SAdmit(child))
    ensures Inv(DoAdmit(s, child))
  {
  }

  lemma PollKeepsInv(s: State)
    requires Inv(s) && s.pc.Poll?
    ensures Inv(DoPoll(s))
  {
    assert s.code.None? ==> IsChild(s, s.child);
  }

  lemma KillRoundKeepsInv(s: State, late: bool, listed: bool)
    requires Inv(s) && s.pc.KillRound?
    ensures Inv(DoKillRound(s, late, listed))
  {
  }

  lemma NextKeepsInv(s: State, e: Event)
    requires Inv(s) && Admissible(s, e)
    ensures Inv(Next(s, e))
  {
    match e
    case KExit(p, code, heir) => ExitKeepsInv(s, p, code, heir);
    case KKill => DieKeepsInv(s);
    case SAdmit(child) => AdmitKeepsInv(s, child);
    case SPoll => PollKeepsInv(s);
    case SKillRound(late, listed) => KillRoundKeepsInv(s, late, listed);
    case SWait(p) => WaitKeepsInv(s, p);
    case KFork(parent, p) => ForkKeepsInv(s, parent, p);
    case KReap(p) => ReapKeepsInv(s, p);
    case KSignal =>
    case SCheckOwner(gone) => TurnKeepsInv(s, DoCheckOwner(s, gone));
    case SBeginStop => TurnKeepsInv(s, DoBeginStop(s));
    case SKillOne(p) => TurnKeepsInv(s, DoKillOne(s, p));
    case SKillDone => TurnKeepsInv(s, s.(pc := Drain));
    case SWake => TurnKeepsInv(s, s.(pc := CheckOwner));
  }

  /** A step that moves the supervisor on and touches no process. */
  lemma TurnKeepsInv(s: State, t: State)
    requires Inv(s) && Running(s) && Running(t) && !s.pc.Admit? && !t.pc.Admit?
    requires t == s.(pc := t.pc, stopping := t.stopping, deadline := t.deadline)
    requires t.pc.KillEach? ==> s.pc.KillEach? && t.pc.ids <= s.pc.ids
    ensures Inv(t)
  {
  }

  // ---------------------------------------------------------------------------------------------
  // Whole runs
  // ---------------------------------------------------------------------------------------------

  ghost predicate Reaches(s: State, es: seq<Event>, t: State)
    decreases |es|
  {
    if es == [] then s == t else Admissible(s, es[0]) && Reaches(Next(s, es[0]), es[1..], t)
  }

  lemma NextKeepsStrength(s: State, e: Event)
    requires Admissible(s, e)
    ensures Next(s, e).strong == s.strong
  {
  }

  lemma {:induction false} ReachesKeepsInv(s: State, es: seq<Event>, t: State)
    requires Inv(s) && Reaches(s, es, t)
    ensures Inv(t) && t.strong == s.strong
    decreases |es|
  {
    if es != [] {
      NextKeepsInv(s, es[0]);
      NextKeepsStrength(s, es[0]);
      ReachesKeepsInv(Next(s, es[0]), es[1..], t);
    }
  }

  /** In every run: an exited receipt is written only by a subreaper and only when no process of the
      family is left, living or unreaped, and it carries the code the supervised child itself ended
      with; a not-started receipt means that no process was ever made; and there is at most one. */
  lemma ReceiptsAreTrue(strong: bool, es: seq<Event>, s: State)
    requires Reaches(Initial(strong), es, s)
    ensures |s.receipts| <= 1
    ensures forall r <- s.receipts :: s.family == map[] && r == if s.ticks == 0 then NotStarted else Exited(s.firstExit)
    ensures Exited(s.firstExit) in s.receipts ==> strong && s.firstExit.Some?
  {
    ReachesKeepsInv(Initial(strong), es, s);
    if s.receipts != [] && s.receipts[0].Exited? {
      assert s.receipts[0] in s.receipts && s.firstExit.Some?;
    }
  }

  // Why it stops, and when it kills

  /** A reason to stop: the handler ran, the owner was found gone, or a poll learned the child's code. */
  predicate IsReason(s: State, e: Event) {
    match e
    case KSignal => true
    case SCheckOwner(gone) => gone
    case SPoll => s.code.None? && s.firstExit.Some?
    case _ => false
  }

  ghost predicate HasReason(s: State, es: seq<Event>)
    decreases |es|
  {
    es != [] && Admissible(s, es[0]) && (IsReason(s, es[0]) || HasReason(Next(s, es[0]), es[1..]))
  }

  /** The deadline is set by the first stop step after a reason. */
  ghost predicate HasStop(s: State, es: seq<Event>)
    decreases |es|
  {
    es != [] && Admissible(s, es[0]) && ((es[0].SBeginStop? && s.stopping) || HasStop(Next(s, es[0]), es[1..]))
  }

  lemma StepStops(s: State, e: Event)
    requires Inv(s) && Admissible(s, e)
    ensures Next(s, e).stopping <==> s.stopping || IsReason(s, e)
    ensures Next(s, e).deadline <==> s.deadline || (e.SBeginStop? && s.stopping)
    ensures Next(s, e).pc.KillEach? ==> s.deadline || s.pc.KillEach?
  {
    if e.SPoll? && s.code.None? {
      assert IsChild(s, s.child);
    }
  }

  lemma {:induction false} ReachesStops(s: State, es: seq<Event>, t: State)
    requires Inv(s) && Reaches(s, es, t)
    ensures t.stopping <==> s.stopping || HasReason(s, es)
    ensures t.deadline <==> s.deadline || HasStop(s, es)
    ensures (s.deadline ==> s.stopping) ==> (t.deadline ==> t.stopping)
    ensures (s.pc.KillEach? ==> s.deadline) ==> (t.pc.KillEach? ==> t.deadline)
    decreases |es|
  {
    if es != [] {
      StepStops(s, es[0]);
      NextKeepsInv(s, es[0]);
      ReachesStops(Next(s, es[0]), es[1..], t);
    }
  }

  /** In every run: the supervisor is stopping exactly if the run holds a reason to; it has a deadline
      exactly if a stop step came after one; and it signals processes, or ends its own group, only then:
      before, a kill round, late or not, just goes on. */
  lemma StopsForAReason(strong: bool, es: seq<Event>, s: State)
    requires Reaches(Initial(strong), es, s)
    ensures s.stopping <==> HasReason(Initial(strong), es)
    ensures s.deadline <==> HasStop(Initial(strong), es)
    ensures s.deadline ==> s.stopping
    ensures s.pc.KillEach? ==> s.deadline
    ensures !s.stopping && s.pc.KillRound? ==> forall late, listed :: Next(s, SKillRound(late, listed)) == s.(pc := Drain)
  {
    ReachesStops(Initial(strong), es, s);
  }

  /** Past the deadline, a subreaper that can list its children signals each of them, and any other
      supervisor ends with its group. */
  lemma KillsPastTheDeadline(s: State)
    requires Inv(s) && s.pc.KillRound? && s.deadline
    ensures Next(s, SKillRound(false, true)) == s.(pc := Drain)
    ensures var t := Next(s, SKillRound(true, true));
            s.strong ==>
              && t.pc.KillEach? && t == s.(pc := t.pc)
              && forall p :: p in t.pc.ids <==> p in s.family && s.family[p].parent == SELF
    ensures forall listed | !s.strong || !listed :: DiesAlone(s, Next(s, SKillRound(true, listed)))
  {
  }

  /** The supervisor is gone, and its processes are as they were but for no longer being its children. */
  ghost predicate DiesAlone(s: State, t: State) {
    && t == s.(pc := Killed, family := t.family)
    && t.family.Keys == s.family.Keys
    && forall p <- s.family ::
         t.family[p] == s.family[p].(parent := t.family[p].parent)
         && t.family[p].parent == if s.family[p].parent == SELF then OUTSIDE else s.family[p].parent
  }

  /** The steps of the loop body in their order, with nothing skipped; only a kill past the deadline or
      the last receipt leaves it. */
  lemma LoopGoesRound(s: State, e: Event)
    requires Inv(s) && Admissible(s, e)
    ensures var pc := Next(s, e).pc;
            match e
            case SAdmit(child) => pc == if child.None? then Ended else CheckOwner
            case SCheckOwner(_) => s.pc == CheckOwner && pc == Poll
            case SPoll => s.pc == Poll && pc == BeginStop
            case SBeginStop => s.pc == BeginStop && pc == KillRound
            case SKillRound(late, _) => s.pc == KillRound && (pc == Drain || (s.deadline && late && (pc.KillEach? || pc == Killed)))
            case SKillOne(p) => s.pc.KillEach? && pc == KillEach(s.pc.ids - {p})
            case SKillDone => s.pc.KillEach? && pc == Drain
            case SWait(p) =>
              && s.pc == Drain
              && if !s.stopping || !s.strong then pc == Sleep
                 else if s.family == map[] then pc == Ended
                 else if exists q :: q in s.family && s.family[q].parent == SELF && !s.family[q].alive then pc == Drain
                 else pc == Sleep
            case SWake => s.pc == Sleep && pc == CheckOwner
            case KKill => pc == Killed
            case _ => pc == s.pc
  {
    if e.SWait? && s.stopping && s.strong && s.family != map[] {
      var q :| q in s.family;
      var c := SomeChild(s, q);
    }
  }

  /** When a receipt is written: at a refused admission, and when a stopping subreaper that waits has no
      process left; nothing else keeps it from exiting and nothing else writes one. */
  lemma ReceiptIsWrittenExactly(s: State, e: Event)
    requires Inv(s) && Admissible(s, e)
    ensures Next(s, e).receipts
         == if e == SAdmit(None) then [NotStarted]
            else if e.SWait? && s.stopping && s.strong && s.family == map[] then [Exited(s.firstExit)]
            else s.receipts
  {
    if e.SWait? && s.stopping && s.strong && s.family != map[] {
      var q :| q in s.family;
      var c := SomeChild(s, q);
    }
  }

  /** A receipt is the last thing that happens: no process is left that could fork, end or be reaped. */
  lemma ReceiptIsFinal(s: State, e: Event)
    requires Inv(s) && s.receipts != []
    ensures !Admissible(s, e)
  {
  }

  /** Each process is a child of the next, which is alive; the last is a child of the supervisor. */
  predicate IsLine(s: State, line: seq<nat>)
    decreases |line|
  {
    && line != [] && line[0] in s.family
    && if |line| == 1 then IsChild(s, line[0])
       else IsAlive(s, line[1]) && s.family[line[0]].parent == line[1] && IsLine(s, line[1..])
  }

  /** Why: every process of a subreaper's family reaches the supervisor through living parents, so as
      long as one is left, waitpid still has a child to speak of. */
  lemma {:induction false} LineToSupervisor(s: State, p: nat) returns (line: seq<nat>)
    requires Inv(s) && s.strong && Running(s) && p in s.family
    ensures IsLine(s, line) && line[0] == p
    decreases s.family[p].born
  {
    line := [p];
    assert Hangs(s, p);
    if s.family[p].parent != SELF {
      var rest := LineToSupervisor(s, s.family[p].parent);
      line := [p] + rest;
    }
  }

  /** Whatever happens between reading the children and signalling them, an identifier on the list
      still names the very process it was read for: only the supervisor reaps its children. */
  lemma KillTargetsAreStable(s: State, e: Event, p: nat)
    requires Inv(s) && Admissible(s, e) && s.pc.KillEach? && p in s.pc.ids && !e.KKill?
    ensures IsChild(s, p) && IsChild(Next(s, e), p) && Next(s, e).family[p].born == s.family[p].born
  {
  }

  /** The branch of poll for a child that cannot be waited for is never taken. */
  lemma PollFindsChild(s: State)
    requires Inv(s) && s.pc.Poll? && s.code.None?
    ensures IsChild(s, s.child) && s.family[s.child].born == 0
  {
  }

  // ---------------------------------------------------------------------------------------------
  // The program as written
  // ---------------------------------------------------------------------------------------------

  lemma {:induction false} ReachesOneMore(s: State, es: seq<Event>, t: State, e: Event)
    requires Reaches(s, es, t) && Admissible(t, e)
    ensures Reaches(s, es + [e], Next(t, e))
    decreases |es|
  {
    if es == [] {
      assert Reaches(Next(t, e), [], Next(t, e));
      assert (es + [e])[1..] == [];
    } else {
      assert (es + [e])[1..] == es[1..] + [e];
      ReachesOneMore(Next(s, es[0]), es[1..], t, e);
    }
  }

  /** Some run leads from s to t. */
  ghost predicate Leads(s: State, t: State) {
    exists es :: Reaches(s, es, t)
  }

  lemma LeadsNext(s: State, t: State, e: Event)
    requires Leads(s, t) && Admissible(t, e)
    ensures Leads(s, Next(t, e))
  {
    var es :| Reaches(s, es, t);
    ReachesOneMore(s, es, t, e);
  }

  lemma LeadsKeepsInv(s: State, t: State)
    requires Inv(s) && Leads(s, t)
    ensures Inv(t) && t.strong == s.strong
  {
    var es :| Reaches(s, es, t);
    ReachesKeepsInv(s, es, t);
  }

  /** One step of the program keeps the invariant, as a run of one event. */
  lemma OneStep(s: State, e: Event)
    requires Inv(s) && Admissible(s, e)
    ensures Leads(s, Next(s, e)) && Inv(Next(s, e))
  {
    LeadsSelf(s);
    LeadsNext(s, s, e);
    NextKeepsInv(s, e);
  }

  lemma LeadsSelf(s: State)
    ensures Leads(s, s)
  {
    assert Reaches(s, [], s);
  }

  /** The supervisor's variables and the processes its system calls act on. Its loops run here without
      the kernel in between; each iteration is a step of the interleaved program above. */
  lemma LastReceipt(s: State, code: Option<int>)
    requires Inv(s) && s.receipts == [Exited(code)]
    ensures s.strong && s.family == map[] && s.firstExit.Some? && s.firstExit == code
  {
    assert s.receipts[0] in s.receipts;
  }

  class Supervisor {
    const strong: bool
    var family: map<nat, Process>
    var ticks: nat
    var firstExit: Option<int>
    var pc: Pc
    var child: nat
    var stopping: bool
    var code: Option<int>
    var deadline: bool
    var receipts: seq<Receipt>

    constructor (strong: bool)
      ensures View() == Initial(strong)
    {
      this.strong := strong;
      family, ticks, firstExit, pc, child := map[], 0, None, Pc.Admit, 0;
      stopping, code, deadline, receipts := false, None, false, [];
    }

    ghost function View(): State
      reads this
    {
      State(strong, family, ticks, firstExit, pc, child, stopping, code, deadline, receipts)
    }

    method Write(r: Receipt)
      modifies this
      ensures View() == Send(old(View()), r)
    {
      receipts := receipts + [r];
      pc := Ended;
    }

    /** admitted: the host is still the parent; spawned: the child Popen made, if it could. */
    method Admit(admitted: bool, spawned: Option<nat>)
      requires pc.Admit? && Inv(View()) && (spawned.Some? ==> FreshPid(View(), spawned.value))
      modifies this
      ensures View() == DoAdmit(old(View()), if admitted then spawned else None)
      ensures Leads(old(View()), View()) && Inv(View())
      ensures if admitted && spawned.Some? then receipts == [] && IsAlive(View(), child) && IsChild(View(), child)
              else receipts == [NotStarted] && family == map[]
    {
      OneStep(View(), SAdmit(if admitted then spawned else None));
      if !admitted || spawned.None? {
        Write(NotStarted);
        return;
      }
      family := family[spawned.value := Process(SELF, true, 0, ticks)];
      ticks := ticks + 1;
      child := spawned.value;
      pc := Pc.CheckOwner;
    }

    method CheckOwner(gone: bool)
      requires pc.CheckOwner? && Inv(View())
      modifies this
      ensures View() == DoCheckOwner(old(View()), gone)
      ensures Leads(old(View()), View()) && Inv(View())
      ensures family == old(family) && code == old(code) && deadline == old(deadline)
      ensures stopping == (old(stopping) || gone)
    {
      OneStep(View(), SCheckOwner(gone));
      if gone {
        stopping := true;
      }
      pc := Pc.Poll;
    }

    /** Afterwards the code known is the one the child ended with, if it has ended. */
    method Poll()
      requires pc.Poll? && Inv(View())
      modifies this
      ensures View() == DoPoll(old(View()))
      ensures Leads(old(View()), View()) && Inv(View())
      ensures code == firstExit == old(firstExit)
      ensures code != old(code) ==> stopping && family == old(family) - {child}
      ensures code == old(code) ==> family == old(family) && stopping == old(stopping)
    {
      OneStep(View(), SPoll);
      if code.None? {
        PollFindsChild(View());
        if child !in family || family[child].parent != SELF {
          assert false;  // poll would take the code for 0
        } else if !family[child].alive {
          code, stopping := Some(family[child].code), true;
          family := family - {child};
        }
      }
      pc := Pc.BeginStop;
    }

    method BeginStop()
      requires pc.BeginStop? && Inv(View())
      modifies this
      ensures View() == DoBeginStop(old(View()))
      ensures Leads(old(View()), View()) && Inv(View())
      ensures family == old(family) && code == old(code) && stopping == old(stopping)
      ensures deadline == (old(deadline) || stopping)
    {
      OneStep(View(), SBeginStop);
      if stopping && !deadline {
        deadline := true;
      }
      pc := Pc.KillRound;
    }

    /** The signals of a kill round; killed lists them. A SIGKILL to the own group ends the supervisor. */
    method KillRound(late: bool, listed: bool) returns (killed: set<nat>)
      requires pc.KillRound? && Inv(View())
      modifies this
      ensures Leads(old(View()), View()) && Inv(View())
      ensures killed == if deadline && late && strong && listed then set p | p in old(family) && IsChild(old(View()), p) else {}
      ensures View() == if deadline && late && !(strong && listed) then Die(old(View())) else old(View()).(pc := Pc.Drain)
    {
      LeadsSelf(View());
      LeadsNext(old(View()), View(), SKillRound(late, listed));
      killed := {};
      if !deadline || !late {
        pc := Pc.Drain;
      } else if !strong || !listed {
        family := map q | q in family :: if family[q].parent == SELF then family[q].(parent := OUTSIDE) else family[q];
        pc := Killed;
      } else {
        var ids := set p | p in family && family[p].parent == SELF;
        assert ids == set p | p in family && IsChild(View(), p);
        pc := KillEach(ids);
        KillListed(old(View()), ids);
        killed := ids;
      }
      LeadsKeepsInv(old(View()), View());
    }

    method KillListed(ghost before: State, listed: set<nat>)
      requires pc == KillEach(listed) && Leads(before, View())
      modifies this
      ensures View() == old(View()).(pc := Pc.Drain) && Leads(before, View())
    {
      var ids := listed;
      while ids != {}
        invariant View() == old(View()).(pc := KillEach(ids)) && Leads(before, View())
        decreases |ids|
      {
        var value :| value in ids;
        LeadsNext(before, View(), SKillOne(value));
        ids := ids - {value};
        pc := KillEach(ids);
      }
      LeadsNext(before, View(), SKillDone);
      pc := Pc.Drain;
    }

    /** Reaps every exited child, and writes the receipt when no child is left. */
    method Drain()
      requires pc.Drain? && Inv(View())
      modifies this
      ensures Leads(old(View()), View()) && Inv(View())
      ensures receipts == [] || (strong && family == map[] && firstExit.Some? && receipts == [Exited(firstExit)])
      ensures if !stopping || !strong then View() == old(View()).(pc := Pc.Sleep)
              else
                var s := WithoutExited(old(View()));
                View() == if exists q <- s.family :: IsChild(s, q) then s.(pc := Pc.Sleep) else Send(s, Exited(s.code))
    {
      LeadsSelf(View());
      if stopping && strong {
        ReapExited();
      }
      Decide(old(View()));
      LeadsKeepsInv(old(View()), View());
      if receipts != [] {
        LastReceipt(View(), code);
      }
    }

    /** The waitpid that finds no exited child: sleep, or write the receipt when there is no child at all. */
    method Decide(ghost before: State)
      requires pc.Drain? && Leads(before, View())
      requires stopping && strong ==> ExitedChildren(View()) == {}
      modifies this
      ensures Leads(before, View())
      ensures View() == if !stopping || !strong || exists q <- old(family) :: IsChild(old(View()), q) then old(View()).(pc := Pc.Sleep)
                        else Send(old(View()), Exited(code))
    {
      assert forall q <- family :: IsChild(View(), q) ==> q !in ExitedChildren(View()) || !stopping || !strong;
      LeadsNext(before, View(), SWait(0));
      if !stopping || !strong {
        pc := Pc.Sleep;
      } else if exists q <- family :: family[q].parent == SELF {
        assert exists q <- family :: IsChild(View(), q);
        pc := Pc.Sleep;
      } else {
        Write(Exited(code));
      }
    }

    method ReapExited()
      requires pc.Drain? && stopping && strong
      modifies this
      ensures View() == WithoutExited(old(View()))
      ensures Leads(old(View()), View())
    {
      LeadsSelf(View());
      ghost var exited := ExitedChildren(View());
      var waitable := set p | p in family && family[p].parent == SELF && !family[p].alive;
      assert waitable == exited;
      while waitable != {}
        invariant waitable <= exited && family == old(family) - (exited - waitable)
        invariant code == if old(code).None? && child in exited - waitable then Some(old(family)[child].code) else old(code)
        invariant View() == old(View()).(family := family, code := code)
        invariant Leads(old(View()), View())
        decreases |waitable|
      {
        var pid :| pid in waitable;
        Wait(old(View()), pid);
        waitable := waitable - {pid};
      }
      assert family == old(family) - exited;
    }

    /** One waitpid that finds pid exited. */
    method Wait(ghost before: State, pid: nat)
      requires pc.Drain? && stopping && strong && pid in ExitedChildren(View()) && Leads(before, View())
      modifies this
      ensures View() == old(View()).(family := family, code := code) && family == old(family) - {pid}
      ensures code == if pid == child && old(code).None? then Some(old(family)[pid].code) else old(code)
      ensures Leads(before, View())
    {
      LeadsNext(before, View(), SWait(pid));
      if pid == child && code.None? {
        code := Some(family[pid].code);
      }
      family := family - {pid};
    }
  }

  function ExitedChildren(s: State): set<nat> {
    set p | p in s.family && IsChild(s, p) && !s.family[p].alive
  }

  /** What is left when every exited child has been reaped. */
  function WithoutExited(s: State): State {
    var exited := ExitedChildren(s);
    s.(family := s.family - exited,
       code := if s.code.None? && s.child in exited then Some(s.family[s.child].code) else s.code)
  }
}
