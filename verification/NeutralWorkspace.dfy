/** The crash-safe single-writer protocol of the neutral workspace adapter.

    Every operation owns one durable marker file; all operations share one guard file. A call is a
    sequence of atomic file steps, so it is modelled as a program counter over the disk. Calls of
    different operations interleave freely, and any call can vanish (crash or I/O error) between two
    steps. Exclusive creation is two steps, open and write: a crash in between leaves a torn file.
  */
module NeutralWorkspace {

  datatype Identity = Identity(owner: string, operationId: string)
  datatype MarkerState = Pending | Succeeded | Cancelled
  datatype Marker = Marker(id: Identity, state: MarkerState)

  /** What a reader finds at a path. Torn: opened exclusively, but nothing written yet. */
  datatype File = Absent | Torn | Whole(marker: Marker)

  datatype Disk = Disk(guard: File, markers: map<Identity, File>) {
    function MarkerOf(x: Identity): File {
      if x in markers then markers[x] else Absent
    }

    /** The guard file names operation x. */
    predicate Holds(x: Identity) {
      guard.Whole? && guard.marker.id == x
    }

    predicate IsPending(x: Identity) {
      MarkerOf(x) == Whole(Marker(x, Pending))
    }

    predicate HasEnded(x: Identity, s: MarkerState) {
      s != Pending && MarkerOf(x) == Whole(Marker(x, s))
    }

    function WithMarker(x: Identity, f: File): Disk {
      this.(markers := markers[x := f])
    }
  }

  datatype Error = OwnerMismatch | WriterCollision | Unreadable | Missing
  datatype Outcome = Unknown | StillPending | Ended(state: MarkerState) | Failed(error: Error)

  /** The three entry points; recover is the mode parameter of execute. */
  datatype Entry = Execute(recover: bool) | Inspect | Cancel

  datatype Pc =
    | ExecuteRead(recover: bool)
    | GuardOpen(recover: bool)
    | GuardWrite(recover: bool)
    | GuardRead(recover: bool)
    | MarkerOpen(recover: bool)
    | MarkerWrite(recover: bool)
    | MarkerRead(recover: bool)
    | InspectRead
    | FinishRead(target: MarkerState)
    | FinishGuard(target: MarkerState, marker: Marker)
    | FinishTemporary(target: MarkerState, marker: Marker)
    | FinishRename(target: MarkerState, marker: Marker)
    | ReleaseRead(state: MarkerState)
    | ReleaseUnlink(state: MarkerState)
    | Done(outcome: Outcome)

  function EntryPc(e: Entry): Pc {
    match e
    case Execute(recover) => ExecuteRead(recover)
    case Inspect => InspectRead
    case Cancel => FinishRead(Cancelled)
  }

  function Started(recover: bool): Outcome {
    if recover then Unknown else StillPending
  }

  /** One atomic file step of a call of operation x. due: the finish time has passed. */
  function Act(d: Disk, x: Identity, pc: Pc, due: bool): (Disk, Pc) {
    match pc
    case ExecuteRead(recover) => (
      match d.MarkerOf(x)
      case Absent => (d, GuardOpen(recover))
      case Torn => (d, Done(Failed(Unreadable)))
      case Whole(m) =>
        if m.id != x then (d, Done(Failed(OwnerMismatch)))
        else if m.state != Pending then (d, InspectRead)
        else (d, GuardOpen(recover)))
    case GuardOpen(recover) =>
      if d.guard.Absent? then (d.(guard := Torn), GuardWrite(recover)) else (d, GuardRead(recover))
    case GuardWrite(recover) =>
      (d.(guard := Whole(Marker(x, Pending))), MarkerOpen(recover))
    case GuardRead(recover) => (
      match d.guard
      case Absent => (d, Done(Failed(Missing)))
      case Torn => (d, Done(Failed(Unreadable)))
      case Whole(g) =>
        if g.id != x then (d, Done(Failed(WriterCollision))) else (d, MarkerOpen(recover)))
    case MarkerOpen(recover) =>
      if d.MarkerOf(x).Absent? then (d.WithMarker(x, Torn), MarkerWrite(recover))
      else (d, MarkerRead(recover))
    case MarkerWrite(recover) =>
      (d.WithMarker(x, Whole(Marker(x, Pending))), Done(Started(recover)))
    case MarkerRead(recover) => (
      match d.MarkerOf(x)
      case Absent => (d, Done(Failed(Missing)))
      case Torn => (d, Done(Failed(Unreadable)))
      case Whole(m) =>
        if m.id != x then (d, Done(Failed(OwnerMismatch))) else (d, Done(Started(recover))))
    case InspectRead => (
      match d.MarkerOf(x)
      case Absent => (d, Done(Unknown))
      case Torn => (d, Done(Failed(Unreadable)))
      case Whole(m) =>
        if m.id != x then (d, Done(Failed(OwnerMismatch)))
        else if m.state != Pending then (d, ReleaseRead(m.state))
        else if !due then (d, Done(StillPending))
        else (d, FinishRead(Succeeded)))
    case FinishRead(target) => (
      match d.MarkerOf(x)
      case Absent => (d, Done(Failed(Missing)))
      case Torn => (d, Done(Failed(Unreadable)))
      case Whole(m) =>
        if m.state != Pending then (d, InspectRead) else (d, FinishGuard(target, m)))
    case FinishGuard(target, m) => (
      match d.guard
      case Absent => (d, Done(Failed(Missing)))
      case Torn => (d, Done(Failed(Unreadable)))
      case Whole(g) =>
        if m.id != x || g.id != x then (d, Done(Failed(OwnerMismatch)))
        else (d, FinishTemporary(target, m)))
    case FinishTemporary(target, m) =>
      (d, FinishRename(target, m))  // a fresh random name: no other call can see this file
    case FinishRename(target, m) =>
      (d.WithMarker(x, Whole(m.(state := target))), ReleaseRead(target))
    case ReleaseRead(s) => (
      match d.guard
      case Absent => (d, Done(Ended(s)))
      case Torn => (d, Done(Failed(Unreadable)))
      case Whole(g) => if g.id == x then (d, ReleaseUnlink(s)) else (d, Done(Ended(s))))
    case ReleaseUnlink(s) =>
      if d.guard.Absent? then (d, Done(Failed(Missing)))
      else (d.(guard := Absent), Done(Ended(s)))
    case Done(_) => (d, pc)
  }

  // ---------------------------------------------------------------------------------------------
  // Interleaving
  // ---------------------------------------------------------------------------------------------

  datatype Call = Call(op: Identity, entry: Entry, due: bool, pc: Pc)
  datatype Receipt = Receipt(op: Identity, entry: Entry, outcome: Outcome)
  datatype World = World(disk: Disk, calls: map<nat, Call>, log: seq<Receipt>)
  /** due is the one clock reading a call may take: whether the finish time has passed. */
  datatype Event = Begin(call: nat, op: Identity, entry: Entry, due: bool) | Advance(call: nat) | Crash(call: nat)

  const INITIAL := World(Disk(Absent, map[]), map[], [])

  function Next(w: World, e: Event): World {
    match e
    case Begin(c, x, entry, due) =>
      if c in w.calls then w else w.(calls := w.calls[c := Call(x, entry, due, EntryPc(entry))])
    case Advance(c) =>
      if c !in w.calls then w
      else
        var call := w.calls[c];
        var (d, pc) := Act(w.disk, call.op, call.pc, call.due);
        if pc.Done? then
          World(d, w.calls - {c}, w.log + [Receipt(call.op, call.entry, pc.outcome)])
        else
          World(d, w.calls[c := call.(pc := pc)], w.log)
    case Crash(c) => w.(calls := w.calls - {c})
  }

  function Run(w: World, es: seq<Event>): World
    decreases |es|
  {
    if es == [] then w else Run(Next(w, es[0]), es[1..])
  }

  /** The host's obligation: calls of one operation do not overlap. */
  predicate Admissible(w: World, e: Event) {
    e.Begin? ==> forall c <- w.calls :: w.calls[c].op != e.op
  }

  predicate Admitted(w: World, es: seq<Event>)
    decreases |es|
  {
    es == [] || (Admissible(w, es[0]) && Admitted(Next(w, es[0]), es[1..]))
  }

  // ---------------------------------------------------------------------------------------------
  // The inductive invariant
  // ---------------------------------------------------------------------------------------------

  /** What a call of x may rely on at each program counter. */
  predicate Relies(d: Disk, x: Identity, pc: Pc) {
    match pc
    case ExecuteRead(_) => true
    case GuardOpen(_) => d.MarkerOf(x) == Absent || d.MarkerOf(x) == Torn || d.IsPending(x)
    case GuardWrite(_) => d.guard == Torn && d.MarkerOf(x) == Absent
    case GuardRead(_) => d.MarkerOf(x) == Absent || d.MarkerOf(x) == Torn || d.IsPending(x)
    case MarkerOpen(_) => d.Holds(x) && (d.MarkerOf(x) == Absent || d.MarkerOf(x) == Torn || d.IsPending(x))
    case MarkerWrite(_) => d.Holds(x) && d.MarkerOf(x) == Torn
    case MarkerRead(_) => d.Holds(x) && (d.MarkerOf(x) == Torn || d.IsPending(x))
    case InspectRead => true
    case FinishRead(target) => target != Pending
    case FinishGuard(target, m) => target != Pending && m == Marker(x, Pending) && d.IsPending(x)
    case FinishTemporary(target, m) => target != Pending && m == Marker(x, Pending) && d.IsPending(x)
    case FinishRename(target, m) => target != Pending && m == Marker(x, Pending) && d.IsPending(x)
    case ReleaseRead(s) => d.HasEnded(x, s)
    case ReleaseUnlink(s) => d.HasEnded(x, s) && d.Holds(x)
    case Done(_) => false
  }

  ghost predicate DiskOk(d: Disk) {
    && (forall x <- d.markers :: d.MarkerOf(x).Whole? ==> d.MarkerOf(x).marker.id == x)
    && (forall x <- d.markers :: d.IsPending(x) || d.MarkerOf(x) == Torn ==> d.Holds(x))
  }

  ghost predicate CallsOk(w: World) {
    && (forall c <- w.calls :: Relies(w.disk, w.calls[c].op, w.calls[c].pc))
    && (forall c, k | c in w.calls && k in w.calls && w.calls[c].op == w.calls[k].op :: c == k)
    && (forall c, k | c in w.calls && k in w.calls && w.calls[c].pc.GuardWrite? && w.calls[k].pc.GuardWrite? :: c == k)
  }

  /** Every receipt ever handed out is still true: an ended operation stays ended that way and never
      holds the guard again, and no operation ever sees a foreign identity in its own files. */
  ghost predicate ReceiptOk(d: Disk, r: Receipt) {
    && r.outcome != Failed(OwnerMismatch)
    && (r.outcome.Ended? ==> d.HasEnded(r.op, r.outcome.state) && !d.Holds(r.op))
  }

  ghost predicate LogOk(w: World) {
    forall i | 0 <= i < |w.log| :: ReceiptOk(w.disk, w.log[i])
  }

  ghost predicate Inv(w: World) {
    DiskOk(w.disk) && CallsOk(w) && LogOk(w)
  }

  /** One file step keeps the disk consistent and leaves the caller with what its next step relies on. */
  lemma ActKeepsDisk(d: Disk, x: Identity, pc: Pc, due: bool)
    requires DiskOk(d) && Relies(d, x, pc)
    ensures var (d', pc') := Act(d, x, pc, due); DiskOk(d') && (pc'.Done? || Relies(d', x, pc'))
  {
    var (d', pc') := Act(d, x, pc, due);
    forall y <- d'.markers
      ensures d'.MarkerOf(y).Whole? ==> d'.MarkerOf(y).marker.id == y
      ensures d'.IsPending(y) || d'.MarkerOf(y) == Torn ==> d'.Holds(y)
    {
      assert y != x ==> d'.MarkerOf(y) == d.MarkerOf(y);
      assert y in d.markers || y == x;
    }
    assert x in d.markers || d.MarkerOf(x) == Absent;
  }

  /** A step of x never takes away what a call of another operation relies on. */
  lemma ActKeepsOthers(d: Disk, x: Identity, pc: Pc, due: bool, y: Identity, other: Pc)
    requires DiskOk(d) && Relies(d, x, pc) && Relies(d, y, other) && x != y
    requires !(pc.GuardWrite? && other.GuardWrite?)
    ensures Relies(Act(d, x, pc, due).0, y, other)
  {
  }

  /** Receipts stay true, and the receipt a call returns is true. */
  lemma ActKeepsReceipts(d: Disk, x: Identity, entry: Entry, pc: Pc, due: bool, r: Receipt)
    requires DiskOk(d) && Relies(d, x, pc)
    ensures ReceiptOk(d, r) ==> ReceiptOk(Act(d, x, pc, due).0, r)
    ensures var (d', pc') := Act(d, x, pc, due); pc'.Done? ==> ReceiptOk(d', Receipt(x, entry, pc'.outcome))
  {
  }

  lemma NextKeepsInv(w: World, e: Event)
    requires Inv(w) && Admissible(w, e)
    ensures Inv(Next(w, e))
  {
    if e.Advance? && e.call in w.calls {
      var call := w.calls[e.call];
      var (d', pc') := Act(w.disk, call.op, call.pc, call.due);
      ActKeepsDisk(w.disk, call.op, call.pc, call.due);
      AdvanceKeepsCalls(w, e.call);
      var w' := Next(w, e);
      forall i | 0 <= i < |w'.log|
        ensures ReceiptOk(d', w'.log[i])
      {
        ActKeepsReceipts(w.disk, call.op, call.entry, call.pc, call.due, w'.log[i]);
      }
    }
  }

  lemma AdvanceKeepsCalls(w: World, c: nat)
    requires Inv(w) && c in w.calls
    ensures CallsOk(Next(w, Advance(c)))
  {
    var call := w.calls[c];
    var w' := Next(w, Advance(c));
    ActKeepsDisk(w.disk, call.op, call.pc, call.due);
    forall k <- w'.calls
      ensures Relies(w'.disk, w'.calls[k].op, w'.calls[k].pc)
    {
      if k != c {
        ActKeepsOthers(w.disk, call.op, call.pc, call.due, w.calls[k].op, w.calls[k].pc);
      }
    }
    var (d', pc') := Act(w.disk, call.op, call.pc, call.due);
    assert pc'.GuardWrite? ==> w.disk.guard.Absent?;
  }

  lemma {:induction false} RunKeepsInv(w: World, es: seq<Event>)
    requires Inv(w) && Admitted(w, es)
    ensures Inv(Run(w, es))
    decreases |es|
  {
    if es != [] {
      NextKeepsInv(w, es[0]);
      RunKeepsInv(Next(w, es[0]), es[1..]);
    }
  }

  // ---------------------------------------------------------------------------------------------
  // Safety over whole runs
  // ---------------------------------------------------------------------------------------------

  /** In every run a pending operation is the one the guard names, so at most one is pending. */
  lemma SingleWriter(es: seq<Event>, x: Identity, y: Identity)
    requires Admitted(INITIAL, es)
    ensures var d := Run(INITIAL, es).disk;
            (d.IsPending(x) ==> d.Holds(x)) && (d.IsPending(x) && d.IsPending(y) ==> x == y)
  {
    RunKeepsInv(INITIAL, es);
  }

  /** Once ended, an operation stays ended the same way, whatever runs next, and every later receipt
      of any entry point says so. The one failure left is meeting another operation's torn guard. */
  lemma {:induction false} EndedIsPermanent(w: World, es: seq<Event>, x: Identity, s: MarkerState)
    requires Inv(w) && Admitted(w, es) && w.disk.HasEnded(x, s)
    ensures var w' := Run(w, es);
            && w'.disk.HasEnded(x, s)
            && (!w.disk.Holds(x) ==> !w'.disk.Holds(x))
            && w.log <= w'.log
            && forall i | |w.log| <= i < |w'.log| && w'.log[i].op == x ::
                 w'.log[i].outcome in {Ended(s), Failed(Unreadable)}
    decreases |es|
  {
    if es != [] {
      var w1 := Next(w, es[0]);
      NextKeepsInv(w, es[0]);
      EndedStep(w, es[0], x, s);
      EndedIsPermanent(w1, es[1..], x, s);
    }
  }

  lemma EndedStep(w: World, e: Event, x: Identity, s: MarkerState)
    requires Inv(w) && w.disk.HasEnded(x, s)
    ensures var w' := Next(w, e);
            && w'.disk.HasEnded(x, s)
            && (!w.disk.Holds(x) ==> !w'.disk.Holds(x))
            && w.log <= w'.log <= w'.log[..|w.log|] + w'.log[|w.log|..]
            && forall i | |w.log| <= i < |w'.log| && w'.log[i].op == x ::
                 w'.log[i].outcome in {Ended(s), Failed(Unreadable)}
  {
    if e.Advance? && e.call in w.calls {
      var call := w.calls[e.call];
      assert Relies(w.disk, call.op, call.pc);
      assert call.op != x ==> Act(w.disk, call.op, call.pc, call.due).0.MarkerOf(x) == w.disk.MarkerOf(x);
    }
  }

  /** A crash between opening and writing the guard is never repaired: the guard stays torn in every
      continuation, so no operation becomes pending that was not, and none ever ends again. */
  lemma {:induction false} TornGuardIsForever(w: World, es: seq<Event>, x: Identity)
    requires Inv(w) && Admitted(w, es) && w.disk.guard.Torn?
    requires forall c <- w.calls :: !w.calls[c].pc.GuardWrite?
    ensures var w' := Run(w, es); w'.disk.guard.Torn? && w'.disk.MarkerOf(x) == w.disk.MarkerOf(x)
    decreases |es|
  {
    if es != [] {
      var w1 := Next(w, es[0]);
      NextKeepsInv(w, es[0]);
      if es[0].Advance? && es[0].call in w.calls {
        var call := w.calls[es[0].call];
        assert Relies(w.disk, call.op, call.pc);
        var (d', pc') := Act(w.disk, call.op, call.pc, call.due);
        assert call.op in w.disk.markers || w.disk.MarkerOf(call.op) == Absent;
        assert d' == w.disk && !pc'.GuardWrite?;
      }
      TornGuardIsForever(w1, es[1..], x);
    }
  }

  /** Likewise a marker torn by a crash keeps its operation's hold on the guard in every continuation. */
  lemma {:induction false} TornMarkerIsForever(w: World, es: seq<Event>, x: Identity)
    requires Inv(w) && Admitted(w, es) && w.disk.MarkerOf(x) == Torn
    requires forall c <- w.calls :: w.calls[c].op == x ==> !w.calls[c].pc.MarkerWrite?
    ensures Run(w, es).disk.MarkerOf(x) == Torn && Run(w, es).disk.Holds(x)
    decreases |es|
  {
    assert x in w.disk.markers;
    if es != [] {
      var w1 := Next(w, es[0]);
      NextKeepsInv(w, es[0]);
      if es[0].Advance? && es[0].call in w.calls {
        var call := w.calls[es[0].call];
        assert Relies(w.disk, call.op, call.pc);
        assert w1.disk.MarkerOf(x) == Torn;
      }
      TornMarkerIsForever(w1, es[1..], x);
    }
  }

  // ---------------------------------------------------------------------------------------------
  // Every call returns, and an operation that holds the guard runs as if alone
  // ---------------------------------------------------------------------------------------------

  /** Own steps a call still needs. Other operations never raise it. */
  function Rank(d: Disk, x: Identity, pc: Pc): nat {
    var pending := d.MarkerOf(x).Whole? && d.MarkerOf(x).marker.state == Pending;
    match pc
    case ExecuteRead(_) => 8
    case GuardOpen(_) => 4
    case GuardWrite(_) => 3
    case GuardRead(_) => 3
    case MarkerOpen(_) => 2
    case MarkerWrite(_) => 1
    case MarkerRead(_) => 1
    case InspectRead => if pending then 7 else 3
    case FinishRead(_) => if pending then 6 else 4
    case FinishGuard(_, _) => 5
    case FinishTemporary(_, _) => 4
    case FinishRename(_, _) => 3
    case ReleaseRead(_) => 2
    case ReleaseUnlink(_) => 1
    case Done(_) => 0
  }

  /** A call that runs alone, to its end. */
  function Solo(d: Disk, x: Identity, pc: Pc, due: bool): (Disk, Outcome)
    decreases Rank(d, x, pc)
  {
    if pc.Done? then (d, pc.outcome)
    else
      var (d', pc') := Act(d, x, pc, due);
      Solo(d', x, pc', due)
  }

  /** A call that runs alone for n steps. */
  function Steps(d: Disk, x: Identity, pc: Pc, due: bool, n: nat): (Disk, Pc)
    decreases n
  {
    if n == 0 then (d, pc)
    else
      var (d', pc') := Act(d, x, pc, due);
      Steps(d', x, pc', due, n - 1)
  }

  lemma {:induction false} StepsReachSolo(d: Disk, x: Identity, pc: Pc, due: bool, n: nat)
    requires Rank(d, x, pc) <= n
    ensures var (d', r) := Solo(d, x, pc, due); Steps(d, x, pc, due, n) == (d', Done(r))
    decreases n
  {
    if n != 0 {
      var (d', pc') := Act(d, x, pc, due);
      StepsReachSolo(d', x, pc', due, n - 1);
    }
  }

  /** The part of the disk a call of x ever looks at. */
  ghost predicate SameView(d: Disk, e: Disk, x: Identity) {
    d.guard == e.guard && d.MarkerOf(x) == e.MarkerOf(x)
  }

  lemma {:induction false} StepsByView(d: Disk, e: Disk, x: Identity, pc: Pc, due: bool, n: nat)
    requires SameView(d, e, x)
    ensures SameView(Steps(d, x, pc, due, n).0, Steps(e, x, pc, due, n).0, x)
    ensures Steps(d, x, pc, due, n).1 == Steps(e, x, pc, due, n).1
    decreases n
  {
    if n != 0 {
      var (d', pc') := Act(d, x, pc, due);
      var (e', pe') := Act(e, x, pc, due);
      assert pc' == pe' && SameView(d', e', x);
      StepsByView(d', e', x, pc', due, n - 1);
    }
  }

  /** How often the schedule lets call c take a step. */
  function Turns(es: seq<Event>, c: nat): nat
    decreases |es|
  {
    if es == [] then 0 else (if es[0] == Advance(c) then 1 else 0) + Turns(es[1..], c)
  }

  predicate NeverCrashes(es: seq<Event>, c: nat) {
    forall i | 0 <= i < |es| :: es[i] != Crash(c)
  }

  /** The guard between a read and an unlink is stable: only the operation it names ever changes it,
      and only an operation ever changes its own marker. */
  lemma OthersCannotDisturb(w: World, e: Event, x: Identity)
    requires Inv(w) && w.disk.Holds(x)
    requires e.Advance? && e.call in w.calls ==> w.calls[e.call].op != x
    ensures SameView(w.disk, Next(w, e).disk, x)
  {
  }

  lemma {:induction false} LogGrows(w: World, es: seq<Event>)
    ensures w.log <= Run(w, es).log
    decreases |es|
  {
    if es != [] {
      LogGrows(Next(w, es[0]), es[1..]);
    }
  }

  predicate NoneLive(w: World, x: Identity) {
    forall c <- w.calls :: w.calls[c].op != x
  }

  predicate NeverBegins(es: seq<Event>, x: Identity) {
    forall i | 0 <= i < |es| :: !(es[i].Begin? && es[i].op == x)
  }

  /** An operation that holds the guard and has no live call keeps both its files until its next call. */
  lemma {:induction false} HeldStays(w: World, es: seq<Event>, x: Identity)
    requires Inv(w) && Admitted(w, es) && w.disk.Holds(x) && NoneLive(w, x) && NeverBegins(es, x)
    ensures SameView(w.disk, Run(w, es).disk, x) && NoneLive(Run(w, es), x)
    decreases |es|
  {
    if es != [] {
      var w1 := Next(w, es[0]);
      NextKeepsInv(w, es[0]);
      OthersCannotDisturb(w, es[0], x);
      assert NeverBegins(es[1..], x);
      HeldStays(w1, es[1..], x);
    }
  }

  /** Where call c is after a schedule: where n of its own steps alone would have brought it, or it has
      returned their outcome, and the guard it still holds then is undisturbed until its next call. */
  ghost predicate AsIfAlone(w: World, es: seq<Event>, c: nat, n: nat, w': World)
    requires c in w.calls
  {
    var call := w.calls[c];
    var (d, pc) := Steps(w.disk, call.op, call.pc, call.due, n);
    if pc.Done? then
      && Receipt(call.op, call.entry, pc.outcome) in w'.log
      && (d.Holds(call.op) && NeverBegins(es, call.op) ==> SameView(w'.disk, d, call.op) && NoneLive(w', call.op))
    else c in w'.calls && w'.calls[c] == call.(pc := pc) && SameView(w'.disk, d, call.op)
  }

  /** The call's own last step. */
  lemma LastStep(w: World, es: seq<Event>, c: nat)
    requires Inv(w) && c in w.calls && Act(w.disk, w.calls[c].op, w.calls[c].pc, w.calls[c].due).1.Done?
    requires Admitted(Next(w, Advance(c)), es)
    ensures AsIfAlone(w, es, c, Turns(es, c) + 1, Run(Next(w, Advance(c)), es))
  {
    var call := w.calls[c];
    var w1 := Next(w, Advance(c));
    var (d1, pc1) := Act(w.disk, call.op, call.pc, call.due);
    StepsReachSolo(d1, call.op, pc1, call.due, Turns(es, c));
    assert w1.log[|w.log|] == Receipt(call.op, call.entry, pc1.outcome);
    LogGrows(w1, es);
    NextKeepsInv(w, Advance(c));
    if d1.Holds(call.op) && NeverBegins(es, call.op) {
      HeldStays(w1, es, call.op);
    }
  }

  /** A step of the call that is not its last. */
  lemma OwnStep(w: World, es: seq<Event>, c: nat, n: nat, w': World)
    requires Inv(w) && c in w.calls && !Act(w.disk, w.calls[c].op, w.calls[c].pc, w.calls[c].due).1.Done?
    requires es != [] && AsIfAlone(Next(w, Advance(c)), es[1..], c, n, w')
    ensures AsIfAlone(w, es, c, n + 1, w')
  {
    assert NeverBegins(es, w.calls[c].op) ==> NeverBegins(es[1..], w.calls[c].op);
  }

  /** A step of another call. */
  lemma OthersStep(w: World, w1: World, es: seq<Event>, c: nat, n: nat, w': World)
    requires c in w.calls && c in w1.calls && w1.calls[c] == w.calls[c] && SameView(w.disk, w1.disk, w.calls[c].op)
    requires es != [] && AsIfAlone(w1, es[1..], c, n, w')
    ensures AsIfAlone(w, es, c, n, w')
  {
    var call := w.calls[c];
    StepsByView(w.disk, w1.disk, call.op, call.pc, call.due, n);
    assert NeverBegins(es, call.op) ==> NeverBegins(es[1..], call.op);
  }

  /** A call whose operation holds the guard cannot tell an interleaved run from running alone. */
  lemma {:induction false} RunsAsIfAlone(w: World, es: seq<Event>, c: nat)
    requires Inv(w) && Admitted(w, es) && c in w.calls && w.disk.Holds(w.calls[c].op)
    requires NeverCrashes(es, c)
    ensures AsIfAlone(w, es, c, Turns(es, c), Run(w, es))
    decreases |es|
  {
    if es != [] {
      var e := es[0];
      var call := w.calls[c];
      var w1 := Next(w, e);
      NextKeepsInv(w, e);
      assert Relies(w.disk, call.op, call.pc);
      assert NeverCrashes(es[1..], c);
      if e != Advance(c) {
        OthersCannotDisturb(w, e, call.op);
        RunsAsIfAlone(w1, es[1..], c);
        OthersStep(w, w1, es, c, Turns(es[1..], c), Run(w, es));
      } else if c in w1.calls {
        RunsAsIfAlone(w1, es[1..], c);
        OwnStep(w, es, c, Turns(es[1..], c), Run(w, es));
      } else {
        LastStep(w, es[1..], c);
        assert NeverBegins(es, call.op) ==> NeverBegins(es[1..], call.op);
      }
    }
  }

  /** So with at most eight own steps it returns the outcome it would return alone. */
  lemma ReturnsAsIfAlone(w: World, es: seq<Event>, c: nat)
    requires Inv(w) && Admitted(w, es) && c in w.calls && w.disk.Holds(w.calls[c].op)
    requires NeverCrashes(es, c) && 8 <= Turns(es, c)
    ensures var call := w.calls[c];
            Receipt(call.op, call.entry, Solo(w.disk, call.op, call.pc, call.due).1) in Run(w, es).log
  {
    var call := w.calls[c];
    RunsAsIfAlone(w, es, c);
    StepsReachSolo(w.disk, call.op, call.pc, call.due, Turns(es, c));
  }

  // ---------------------------------------------------------------------------------------------
  // Recovery
  // ---------------------------------------------------------------------------------------------

  /** What a crashed operation that holds the guard left in its own marker decides its recovery:
      replaying execute and then cancel frees the guard if and only if the marker file is not torn.
      Neither call fails then, and the final receipt is the outcome already recorded, if any. */
  lemma RecoveryExact(d: Disk, x: Identity, recover: bool, due: bool, due': bool)
    requires DiskOk(d) && d.Holds(x)
    ensures var (d1, r1) := Solo(d, x, ExecuteRead(recover), due);
            var (d2, r2) := Solo(d1, x, FinishRead(Cancelled), due');
            && (d2.guard.Absent? <==> d.MarkerOf(x) != Torn)
            && (d.MarkerOf(x) == Torn ==> d2 == d && r1 == r2 == Failed(Unreadable))
            && (d.MarkerOf(x) == Absent || d.IsPending(x) ==> r1 == Started(recover) && r2 == Ended(Cancelled))
            && (forall s | d.HasEnded(x, s) :: r1 == r2 == Ended(s))
  {
    assert x in d.markers || d.MarkerOf(x) == Absent;
    var (d1, r1) := Solo(d, x, ExecuteRead(recover), due);
    match d.MarkerOf(x)
    case Torn =>
    case Absent =>
      ExecuteAlone(d, x, recover, due);
      CancelAlone(d1, x, due');
    case Whole(m) =>
      if m.state == Pending {
        ExecuteAlone(d, x, recover, due);
        CancelAlone(d1, x, due');
      } else {
        InspectAlone(d, x, due, m.state);
        InspectAlone(d1, x, due', m.state);
        assert Solo(d1, x, FinishRead(Cancelled), due') == Solo(d1, x, InspectRead, due');
      }
  }

  /** Replaying execute never collides with the operation's own guard or marker. */
  lemma ExecuteAlone(d: Disk, x: Identity, recover: bool, due: bool)
    requires d.Holds(x) && (d.MarkerOf(x) == Absent || d.IsPending(x))
    ensures var (d', r) := Solo(d, x, ExecuteRead(recover), due);
            d'.Holds(x) && d'.IsPending(x) && r == Started(recover)
  {
    calc {
      Solo(d, x, ExecuteRead(recover), due);
      Solo(d, x, GuardOpen(recover), due);
      Solo(d, x, GuardRead(recover), due);
      Solo(d, x, MarkerOpen(recover), due);
    }
    if d.IsPending(x) {
      assert Solo(d, x, MarkerRead(recover), due) == (d, Started(recover));
    } else {
      var torn := d.WithMarker(x, Torn);
      var whole := torn.WithMarker(x, Whole(Marker(x, Pending)));
      assert Solo(torn, x, MarkerWrite(recover), due) == (whole, Started(recover));
    }
  }

  lemma CancelAlone(d: Disk, x: Identity, due: bool)
    requires d.IsPending(x) && d.Holds(x)
    ensures var (d', r) := Solo(d, x, FinishRead(Cancelled), due);
            d'.guard.Absent? && r == Ended(Cancelled) && d'.HasEnded(x, Cancelled)
  {
    var m := Marker(x, Pending);
    var d1 := d.WithMarker(x, Whole(m.(state := Cancelled)));
    calc {
      Solo(d, x, FinishRead(Cancelled), due);
      Solo(d, x, FinishGuard(Cancelled, m), due);
      Solo(d, x, FinishTemporary(Cancelled, m), due);
      Solo(d, x, FinishRename(Cancelled, m), due);
      Solo(d1, x, ReleaseRead(Cancelled), due);
    }
    ReleaseAlone(d1, x, due, Cancelled);
  }

  lemma ReleaseAlone(d: Disk, x: Identity, due: bool, s: MarkerState)
    requires !d.guard.Torn?
    ensures Solo(d, x, ReleaseRead(s), due) == (if d.Holds(x) then d.(guard := Absent) else d, Ended(s))
  {
    if d.Holds(x) {
      assert Solo(d, x, ReleaseUnlink(s), due) == (d.(guard := Absent), Ended(s));
    }
  }

  /** One inspect after a crash between the rename and the unlink finishes the cleanup. */
  lemma InspectAlone(d: Disk, x: Identity, due: bool, s: MarkerState)
    requires d.HasEnded(x, s) && !d.guard.Torn?
    ensures var (d', r) := Solo(d, x, InspectRead, due);
            && r == Ended(s) && d' == (if d.Holds(x) then d.(guard := Absent) else d)
            && (forall recover :: Solo(d, x, ExecuteRead(recover), due) == (d', r))
  {
    assert Solo(d, x, InspectRead, due) == Solo(d, x, ReleaseRead(s), due);
    ReleaseAlone(d, x, due, s);
    forall recover
      ensures Solo(d, x, ExecuteRead(recover), due) == Solo(d, x, InspectRead, due)
    {
    }
  }

  // What each call does on any disk, run alone, with every failure

  lemma ExecuteOutcomes(d: Disk, x: Identity, recover: bool, due: bool)
    ensures var (d', r) := Solo(d, x, ExecuteRead(recover), due);
            && (d.MarkerOf(x) == Torn ==> d' == d && r == Failed(Unreadable))
            && (d.MarkerOf(x).Whole? && d.MarkerOf(x).marker.id != x ==> d' == d && r == Failed(OwnerMismatch))
            && (d.MarkerOf(x) == Absent || d.IsPending(x) ==>
                  match d.guard
                  case Torn => d' == d && r == Failed(Unreadable)
                  case Absent =>
                    && d' == Disk(Whole(Marker(x, Pending)), d.markers[x := Whole(Marker(x, Pending))])
                    && r == if recover then Unknown else StillPending
                  case Whole(g) =>
                    if g.id != x then d' == d && r == Failed(WriterCollision)
                    else && d' == Disk(d.guard, d.markers[x := Whole(Marker(x, Pending))])
                         && r == if recover then Unknown else StillPending)
            && (forall s | d.HasEnded(x, s) :: (d', r) == Solo(d, x, InspectRead, due))
  {
    if d.MarkerOf(x) == Absent || d.IsPending(x) {
      assert Solo(d, x, ExecuteRead(recover), due) == Solo(d, x, GuardOpen(recover), due);
      match d.guard
      case Torn =>
        assert Solo(d, x, GuardOpen(recover), due) == Solo(d, x, GuardRead(recover), due);
        Returns(d, x, GuardRead(recover), due);
      case Absent =>
        var held := d.(guard := Whole(Marker(x, Pending)));
        assert Solo(d, x, GuardOpen(recover), due) == Solo(d.(guard := Torn), x, GuardWrite(recover), due);
        assert Solo(d.(guard := Torn), x, GuardWrite(recover), due) == Solo(held, x, MarkerOpen(recover), due);
        MarkOutcome(held, x, recover, due);
      case Whole(g) =>
        assert Solo(d, x, GuardOpen(recover), due) == Solo(d, x, GuardRead(recover), due);
        Returns(d, x, GuardRead(recover), due);
        if g.id == x {
          assert Solo(d, x, GuardRead(recover), due) == Solo(d, x, MarkerOpen(recover), due);
          MarkOutcome(d, x, recover, due);
        }
    }
  }

  lemma MarkOutcome(d: Disk, x: Identity, recover: bool, due: bool)
    requires d.MarkerOf(x) == Absent || d.IsPending(x)
    ensures Solo(d, x, MarkerOpen(recover), due)
         == (Disk(d.guard, d.markers[x := Whole(Marker(x, Pending))]), if recover then Unknown else StillPending)
  {
    if d.IsPending(x) {
      assert Solo(d, x, MarkerOpen(recover), due) == Solo(d, x, MarkerRead(recover), due);
      Returns(d, x, MarkerRead(recover), due);
      assert d.markers[x := Whole(Marker(x, Pending))] == d.markers;
    } else {
      var torn := d.WithMarker(x, Torn);
      assert Solo(d, x, MarkerOpen(recover), due) == Solo(torn, x, MarkerWrite(recover), due);
      Returns(torn, x, MarkerWrite(recover), due);
      assert torn.markers[x := Whole(Marker(x, Pending))] == d.markers[x := Whole(Marker(x, Pending))];
    }
  }

  lemma InspectOutcomes(d: Disk, x: Identity, due: bool)
    ensures var (d', r) := Solo(d, x, InspectRead, due);
            && (d.MarkerOf(x) == Absent ==> d' == d && r == Unknown)
            && (d.MarkerOf(x) == Torn ==> d' == d && r == Failed(Unreadable))
            && (d.MarkerOf(x).Whole? && d.MarkerOf(x).marker.id != x ==> d' == d && r == Failed(OwnerMismatch))
            && (d.IsPending(x) && !due ==> d' == d && r == StillPending)
            && (d.IsPending(x) && due ==>
                  match d.guard
                  case Absent => d' == d && r == Failed(Missing)
                  case Torn => d' == d && r == Failed(Unreadable)
                  case Whole(g) =>
                    if g.id != x then d' == d && r == Failed(OwnerMismatch)
                    else d' == Disk(Absent, d.markers[x := Whole(Marker(x, Succeeded))]) && r == Ended(Succeeded))
            && (forall s | d.HasEnded(x, s) ::
                  match d.guard
                  case Absent => d' == d && r == Ended(s)
                  case Torn => d' == d && r == Failed(Unreadable)
                  case Whole(g) => d' == (if g.id == x then Disk(Absent, d.markers) else d) && r == Ended(s))
  {
    if d.IsPending(x) && due {
      assert Solo(d, x, InspectRead, due) == Solo(d, x, FinishRead(Succeeded), due);
      FinishOutcome(d, x, Succeeded, due);
    }
    forall s | d.HasEnded(x, s)
      ensures Solo(d, x, InspectRead, due) == Solo(d, x, ReleaseRead(s), due)
    {
    }
    if d.MarkerOf(x).Whole? && d.MarkerOf(x).marker.state != Pending {
      Returns(d, x, ReleaseRead(d.MarkerOf(x).marker.state), due);
      if !d.guard.Torn? {
        ReleaseAlone(d, x, due, d.MarkerOf(x).marker.state);
      }
    }
  }

  lemma FinishOutcome(d: Disk, x: Identity, target: MarkerState, due: bool)
    requires d.IsPending(x)
    ensures var (d', r) := Solo(d, x, FinishRead(target), due);
            match d.guard
            case Absent => d' == d && r == Failed(Missing)
            case Torn => d' == d && r == Failed(Unreadable)
            case Whole(g) =>
              if g.id != x then d' == d && r == Failed(OwnerMismatch)
              else d' == Disk(Absent, d.markers[x := Whole(Marker(x, target))]) && r == Ended(target)
  {
    var m := Marker(x, Pending);
    assert Solo(d, x, FinishRead(target), due) == Solo(d, x, FinishGuard(target, m), due);
    Returns(d, x, FinishGuard(target, m), due);
    if d.Holds(x) {
      var d1 := d.WithMarker(x, Whole(m.(state := target)));
      calc {
        Solo(d, x, FinishGuard(target, m), due);
        Solo(d, x, FinishTemporary(target, m), due);
        Solo(d, x, FinishRename(target, m), due);
        Solo(d1, x, ReleaseRead(target), due);
      }
      ReleaseAlone(d1, x, due, target);
    }
  }

  lemma CancelOutcomes(d: Disk, x: Identity, due: bool)
    ensures var (d', r) := Solo(d, x, FinishRead(Cancelled), due);
            && (d.MarkerOf(x) == Absent ==> d' == d && r == Failed(Missing))
            && (d.MarkerOf(x) == Torn ==> d' == d && r == Failed(Unreadable))
            && (d.IsPending(x) ==>
                  match d.guard
                  case Absent => d' == d && r == Failed(Missing)
                  case Torn => d' == d && r == Failed(Unreadable)
                  case Whole(g) =>
                    if g.id != x then d' == d && r == Failed(OwnerMismatch)
                    else d' == Disk(Absent, d.markers[x := Whole(Marker(x, Cancelled))]) && r == Ended(Cancelled))
            && (forall s | d.HasEnded(x, s) :: (d', r) == Solo(d, x, InspectRead, due))
  {
    if d.IsPending(x) {
      FinishOutcome(d, x, Cancelled, due);
    }
  }

  /** A due inspect ends a pending operation as succeeded, under any interleaving; one that is not due
      reports it pending and leaves it so. */
  lemma InspectSucceeds(w: World, es: seq<Event>, c: nat)
    requires Inv(w) && Admitted(w, es) && c in w.calls
    requires w.calls[c].pc == InspectRead && w.disk.IsPending(w.calls[c].op)
    requires NeverCrashes(es, c) && 8 <= Turns(es, c)
    ensures var call, v := w.calls[c], Run(w, es);
            if call.due then
              && Receipt(call.op, call.entry, Ended(Succeeded)) in v.log
              && v.disk.HasEnded(call.op, Succeeded) && !v.disk.Holds(call.op)
            else
              && Receipt(call.op, call.entry, StillPending) in v.log
              && (NeverBegins(es, call.op) ==> v.disk.IsPending(call.op) && v.disk.Holds(call.op))
  {
    var call := w.calls[c];
    assert call.op in w.disk.markers;
    InspectOutcomes(w.disk, call.op, call.due);
    RunsAsIfAlone(w, es, c);
    StepsReachSolo(w.disk, call.op, call.pc, call.due, Turns(es, c));
    if call.due {
      RunKeepsInv(w, es);
      var v := Run(w, es);
      var i :| 0 <= i < |v.log| && v.log[i] == Receipt(call.op, call.entry, Ended(Succeeded));
      assert ReceiptOk(v.disk, v.log[i]);
    }
  }

  // Whose call ends an operation

  /** What a call is about to do is what its entry point asks for. */
  predicate Means(d: Disk, call: Call) {
    match call.pc
    case ExecuteRead(recover) => call.entry == Execute(recover)
    case GuardOpen(recover) => call.entry == Execute(recover)
    case GuardWrite(recover) => call.entry == Execute(recover)
    case GuardRead(recover) => call.entry == Execute(recover)
    case MarkerOpen(recover) => call.entry == Execute(recover)
    case MarkerWrite(recover) => call.entry == Execute(recover)
    case MarkerRead(recover) => call.entry == Execute(recover)
    case InspectRead => call.entry == Inspect || d.HasEnded(call.op, Succeeded) || d.HasEnded(call.op, Cancelled)
    case FinishRead(target) => Asked(call, target)
    case FinishGuard(target, _) => Asked(call, target)
    case FinishTemporary(target, _) => Asked(call, target)
    case FinishRename(target, _) => Asked(call, target)
    case ReleaseRead(_) => true
    case ReleaseUnlink(_) => true
    case Done(_) => false
  }

  predicate Asked(call: Call, target: MarkerState) {
    (target == Cancelled && call.entry == Cancel) || (target == Succeeded && call.entry == Inspect && call.due)
  }

  ghost predicate AllMean(w: World) {
    forall c <- w.calls :: Means(w.disk, w.calls[c])
  }

  lemma ActKeepsMeaning(d: Disk, call: Call)
    requires DiskOk(d) && Means(d, call) && Relies(d, call.op, call.pc)
    ensures var (d', pc') := Act(d, call.op, call.pc, call.due); pc'.Done? || Means(d', call.(pc := pc'))
  {
    assert call.op in d.markers || d.MarkerOf(call.op) == Absent;
  }

  lemma NextKeepsMeaning(w: World, e: Event)
    requires Inv(w) && Admissible(w, e) && AllMean(w)
    ensures AllMean(Next(w, e))
  {
    var w' := Next(w, e);
    forall c <- w'.calls
      ensures Means(w'.disk, w'.calls[c])
    {
      if e == Advance(c) {
        ActKeepsMeaning(w.disk, w.calls[c]);
      } else if c in w.calls {
        OthersKeepMarker(w, e, w.calls[c].op);
      }
    }
  }

  lemma {:induction false} RunKeepsMeaning(w: World, es: seq<Event>)
    requires Inv(w) && Admitted(w, es) && AllMean(w)
    ensures AllMean(Run(w, es))
    decreases |es|
  {
    if es != [] {
      NextKeepsInv(w, es[0]);
      NextKeepsMeaning(w, es[0]);
      RunKeepsMeaning(Next(w, es[0]), es[1..]);
    }
  }

  /** In every run a marker changes only by a step of a call of its own operation: it is made by an
      execute, it becomes pending by that execute, cancelled by a cancel, and succeeded by an inspect
      that is due. */
  lemma MarkersChangeOnlyByTheirCalls(es: seq<Event>, e: Event, x: Identity)
    requires Admitted(INITIAL, es + [e])
    ensures var w, w' := Run(INITIAL, es), Run(INITIAL, es + [e]);
            w'.disk.MarkerOf(x) != w.disk.MarkerOf(x) ==>
              && e.Advance? && e.call in w.calls && w.calls[e.call].op == x
              && var call := w.calls[e.call];
                 match w'.disk.MarkerOf(x)
                 case Absent => false
                 case Torn => w.disk.MarkerOf(x) == Absent && call.entry.Execute?
                 case Whole(m) =>
                   match m.state
                   case Pending => w.disk.MarkerOf(x) == Torn && call.entry.Execute?
                   case Cancelled => w.disk.IsPending(x) && call.entry == Cancel
                   case Succeeded => w.disk.IsPending(x) && call.entry == Inspect && call.due
  {
    RunAppend(INITIAL, es, [e]);
    var w := Run(INITIAL, es);
    assert Run(w, [e]) == Next(w, e);
    RunKeepsInv(INITIAL, es);
    RunKeepsMeaning(INITIAL, es);
    if e.Advance? && e.call in w.calls && w.calls[e.call].op == x {
      assert Relies(w.disk, x, w.calls[e.call].pc) && Means(w.disk, w.calls[e.call]);
    } else {
      OthersKeepMarker(w, e, x);
    }
  }

  /** The same under any interleaving: a cancel of a pending operation returns cancelled, and from then
      on the guard never names that operation again. */
  lemma CancelFreesGuard(w: World, es: seq<Event>, c: nat)
    requires Inv(w) && Admitted(w, es) && c in w.calls
    requires w.calls[c].pc == FinishRead(Cancelled) && w.disk.IsPending(w.calls[c].op)
    requires NeverCrashes(es, c) && 8 <= Turns(es, c)
    ensures Receipt(w.calls[c].op, w.calls[c].entry, Ended(Cancelled)) in Run(w, es).log
    ensures !Run(w, es).disk.Holds(w.calls[c].op)
  {
    var x := w.calls[c].op;
    CancelAlone(w.disk, x, w.calls[c].due);
    ReturnsAsIfAlone(w, es, c);
    RunKeepsInv(w, es);
    var w' := Run(w, es);
    var i :| 0 <= i < |w'.log| && w'.log[i] == Receipt(x, w.calls[c].entry, Ended(Cancelled));
    assert ReceiptOk(w'.disk, w'.log[i]);
  }

  /** Whoever holds the guard, a call returns within eight own steps under any interleaving. */
  lemma EveryCallReturns(w: World, es: seq<Event>, c: nat) returns (i: nat)
    requires Inv(w) && Admitted(w, es) && c in w.calls && NeverCrashes(es, c) && 8 <= Turns(es, c)
    ensures |w.log| <= i < |Run(w, es).log|
    ensures var r := Run(w, es).log[i]; r.op == w.calls[c].op && r.entry == w.calls[c].entry
  {
    i := ReturnsInTime(w, es, c);
  }

  lemma {:induction false} ReturnsInTime(w: World, es: seq<Event>, c: nat) returns (i: nat)
    requires Inv(w) && Admitted(w, es) && c in w.calls && NeverCrashes(es, c)
    requires Rank(w.disk, w.calls[c].op, w.calls[c].pc) <= Turns(es, c)
    ensures |w.log| <= i < |Run(w, es).log|
    ensures var r := Run(w, es).log[i]; r.op == w.calls[c].op && r.entry == w.calls[c].entry
    decreases |es|
  {
    var call := w.calls[c];
    assert Relies(w.disk, call.op, call.pc);
    var w1 := Next(w, es[0]);
    NextKeepsInv(w, es[0]);
    assert NeverCrashes(es[1..], c);
    if c in w1.calls {
      OthersKeepRank(w, es[0], c);
      i := ReturnsInTime(w1, es[1..], c);
    } else {
      i := |w.log|;
    }
    LogGrows(w1, es[1..]);
  }

  lemma OwnStepLowersRank(d: Disk, x: Identity, pc: Pc, due: bool)
    requires !pc.Done?
    ensures var (d', pc') := Act(d, x, pc, due); pc'.Done? || Rank(d', x, pc') < Rank(d, x, pc)
  {
  }

  lemma OthersKeepMarker(w: World, e: Event, x: Identity)
    requires Inv(w) && (e.Advance? && e.call in w.calls ==> w.calls[e.call].op != x)
    ensures Next(w, e).disk.MarkerOf(x) == w.disk.MarkerOf(x)
  {
    if e.Advance? && e.call in w.calls {
      assert Relies(w.disk, w.calls[e.call].op, w.calls[e.call].pc);
    }
  }

  lemma OthersKeepRank(w: World, e: Event, c: nat)
    requires Inv(w) && c in w.calls && c in Next(w, e).calls && e != Crash(c)
    ensures var call, call' := w.calls[c], Next(w, e).calls[c];
            && call'.op == call.op && call'.entry == call.entry
            && Rank(Next(w, e).disk, call.op, call'.pc) <= Rank(w.disk, call.op, call.pc) - if e == Advance(c) then 1 else 0
  {
    var call := w.calls[c];
    if e == Advance(c) {
      assert Relies(w.disk, call.op, call.pc);
      OwnStepLowersRank(w.disk, call.op, call.pc, call.due);
    } else {
      OthersKeepMarker(w, e, call.op);
    }
  }

  /** The replayed execute, interleaved with other operations. */
  lemma ReplayedExecute(w: World, es: seq<Event>, c: nat, x: Identity, recover: bool)
    requires Inv(w) && Admitted(w, es) && c in w.calls && w.disk.Holds(x) && w.disk.MarkerOf(x) != Torn
    requires w.calls[c].op == x && w.calls[c].entry == Execute(recover) && w.calls[c].pc == ExecuteRead(recover)
    requires NeverBegins(es, x) && NeverCrashes(es, c) && 8 <= Turns(es, c)
    ensures var v := Run(w, es);
            && (w.disk.MarkerOf(x) == Absent || w.disk.IsPending(x) ==>
                  v.disk.IsPending(x) && v.disk.Holds(x) && Receipt(x, Execute(recover), Started(recover)) in v.log)
            && forall s | w.disk.HasEnded(x, s) ::
                 v.disk.HasEnded(x, s) && !v.disk.Holds(x) && Receipt(x, Execute(recover), Ended(s)) in v.log
  {
    var call := w.calls[c];
    RunsAsIfAlone(w, es, c);
    StepsReachSolo(w.disk, x, call.pc, call.due, Turns(es, c));
    if w.disk.MarkerOf(x) == Absent || w.disk.IsPending(x) {
      ExecuteAlone(w.disk, x, recover, call.due);
    }
    forall s | w.disk.HasEnded(x, s)
      ensures var v := Run(w, es);
              v.disk.HasEnded(x, s) && !v.disk.Holds(x) && Receipt(x, Execute(recover), Ended(s)) in v.log
    {
      InspectAlone(w.disk, x, call.due, s);
      EndedIsPermanent(w, es, x, s);
      RunKeepsInv(w, es);
      var v := Run(w, es);
      var i :| 0 <= i < |v.log| && v.log[i] == Receipt(x, Execute(recover), Ended(s));
      assert ReceiptOk(v.disk, v.log[i]);
    }
  }

  /** Recovery among other operations: x holds the guard and has no live call; execute is replayed and
      returns, and later cancel is called and returns, with any steps of others between all of theirs.
      The guard stops naming x if and only if the marker was not torn, and the receipts are those of the
      calls run alone, except that cancel may meet a guard another operation is just creating. */
  lemma RecoversAmongOthers(w: World, x: Identity, c: nat, recover: bool, due: bool, es: seq<Event>,
                            k: nat, due': bool, fs: seq<Event>)
    requires Inv(w) && w.disk.Holds(x) && NoneLive(w, x) && c !in w.calls
    requires var w1 := Next(w, Begin(c, x, Execute(recover), due));
             && Admitted(w1, es) && NeverBegins(es, x) && NeverCrashes(es, c) && 8 <= Turns(es, c)
             && var w2 := Run(w1, es);
                && k !in w2.calls && NoneLive(w2, x)
                && Admitted(Next(w2, Begin(k, x, Cancel, due')), fs) && NeverCrashes(fs, k) && 8 <= Turns(fs, k)
    ensures var w2 := Run(Next(w, Begin(c, x, Execute(recover), due)), es);
            var w4 := Run(Next(w2, Begin(k, x, Cancel, due')), fs);
            && (!w4.disk.Holds(x) <==> w.disk.MarkerOf(x) != Torn)
            && (w.disk.MarkerOf(x) == Absent || w.disk.IsPending(x) ==>
                  && Receipt(x, Execute(recover), Started(recover)) in w4.log
                  && Receipt(x, Cancel, Ended(Cancelled)) in w4.log && w4.disk.HasEnded(x, Cancelled))
            && forall s | w.disk.HasEnded(x, s) ::
                  && Receipt(x, Execute(recover), Ended(s)) in w4.log && w4.disk.HasEnded(x, s)
                  && (Receipt(x, Cancel, Ended(s)) in w4.log || Receipt(x, Cancel, Failed(Unreadable)) in w4.log)
  {
    var w1 := Next(w, Begin(c, x, Execute(recover), due));
    NextKeepsInv(w, Begin(c, x, Execute(recover), due));
    RunKeepsInv(w1, es);
    var w2 := Run(w1, es);
    var w3 := Next(w2, Begin(k, x, Cancel, due'));
    NextKeepsInv(w2, Begin(k, x, Cancel, due'));
    LogGrows(w3, fs);
    if w.disk.MarkerOf(x) == Torn {
      TornMarkerIsForever(w1, es, x);
      TornMarkerIsForever(w3, fs, x);
    } else {
      assert x in w.disk.markers || w.disk.MarkerOf(x) == Absent;
      ReplayedExecute(w1, es, c, x, recover);
      if w.disk.MarkerOf(x) == Absent || w.disk.IsPending(x) {
        CancelFreesGuard(w3, fs, k);
        CancelIsRecorded(w3, fs, x);
      } else {
        CancelAfterEnd(w3, fs, k, w.disk.MarkerOf(x).marker.state);
      }
    }
  }

  lemma CancelIsRecorded(w: World, es: seq<Event>, x: Identity)
    requires Inv(w) && Admitted(w, es) && Receipt(x, Cancel, Ended(Cancelled)) in Run(w, es).log
    ensures Run(w, es).disk.HasEnded(x, Cancelled)
  {
    RunKeepsInv(w, es);
    var v := Run(w, es);
    var i :| 0 <= i < |v.log| && v.log[i] == Receipt(x, Cancel, Ended(Cancelled));
    assert ReceiptOk(v.disk, v.log[i]);
  }

  lemma CancelAfterEnd(w: World, es: seq<Event>, c: nat, s: MarkerState)
    requires Inv(w) && Admitted(w, es) && c in w.calls && NeverCrashes(es, c) && 8 <= Turns(es, c)
    requires w.calls[c].entry == Cancel && w.disk.HasEnded(w.calls[c].op, s) && !w.disk.Holds(w.calls[c].op)
    ensures var x, v := w.calls[c].op, Run(w, es);
            && v.disk.HasEnded(x, s) && !v.disk.Holds(x)
            && (Receipt(x, Cancel, Ended(s)) in v.log || Receipt(x, Cancel, Failed(Unreadable)) in v.log)
  {
    EndedIsPermanent(w, es, w.calls[c].op, s);
    var i := EveryCallReturns(w, es, c);
    var v := Run(w, es);
    assert v.log[i].outcome in {Ended(s), Failed(Unreadable)};
    assert v.log[i] in v.log;
    assert v.log[i] == Receipt(w.calls[c].op, Cancel, v.log[i].outcome);
  }

  // ---------------------------------------------------------------------------------------------
  // Why calls of one operation must not overlap
  // ---------------------------------------------------------------------------------------------

  lemma {:induction false} RunAppend(w: World, es: seq<Event>, fs: seq<Event>)
    ensures Run(w, es + fs) == Run(Run(w, es), fs)
    ensures Admitted(w, es + fs) <==> Admitted(w, es) && Admitted(Run(w, es), fs)
    decreases |es|
  {
    if es == [] {
      assert es + fs == fs;
    } else {
      assert (es + fs)[0] == es[0] && (es + fs)[1..] == es[1..] + fs;
      RunAppend(Next(w, es[0]), es[1..], fs);
    }
  }

  /** Some admitted schedule leads from w to v. */
  ghost predicate Reaches(w: World, v: World) {
    exists es :: Admitted(w, es) && Run(w, es) == v
  }

  lemma ReachesNext(w: World, v: World, e: Event)
    requires Reaches(w, v) && Admissible(v, e)
    ensures Reaches(w, Next(v, e))
  {
    var es :| Admitted(w, es) && Run(w, es) == v;
    RunAppend(w, es, [e]);
    assert Run(v, [e]) == Next(v, e);
  }

  lemma ReachesSelf(w: World)
    ensures Reaches(w, w)
  {
    assert Admitted(w, []) && Run(w, []) == w;
  }

  /** w, but with disk d and with call c of x at pc. */
  function At(w: World, d: Disk, c: nat, x: Identity, entry: Entry, pc: Pc): World {
    World(d, w.calls[c := Call(x, entry, true, pc)], w.log)
  }

  /** The call's next step, when it is not its last. */
  lemma ReachesPc(w: World, v: World, c: nat, x: Identity, entry: Entry, d: Disk, pc: Pc, d': Disk, pc': Pc)
    requires Reaches(w, At(v, d, c, x, entry, pc))
    requires Act(d, x, pc, true) == (d', pc') && !pc'.Done?
    ensures Reaches(w, At(v, d', c, x, entry, pc'))
  {
    ReachesNext(w, At(v, d, c, x, entry, pc), Advance(c));
    var calls := v.calls[c := Call(x, entry, true, pc)];
    assert calls[c := Call(x, entry, true, pc')] == v.calls[c := Call(x, entry, true, pc')];
  }

  /** The call's last step. */
  lemma ReachesReturn(w: World, v: World, c: nat, x: Identity, entry: Entry, d: Disk, pc: Pc, d': Disk, r: Outcome)
    requires Reaches(w, At(v, d, c, x, entry, pc)) && c !in v.calls
    requires Act(d, x, pc, true) == (d', Done(r))
    ensures Reaches(w, World(d', v.calls, v.log + [Receipt(x, entry, r)]))
  {
    ReachesNext(w, At(v, d, c, x, entry, pc), Advance(c));
    assert v.calls[c := Call(x, entry, true, pc)] - {c} == v.calls;
  }

  function AfterExecute(v: World, x: Identity): World {
    World(v.disk.(guard := Whole(Marker(x, Pending))).WithMarker(x, Whole(Marker(x, Pending))),
          v.calls, v.log + [Receipt(x, Execute(false), StillPending)])
  }

  lemma ReachesPending(w: World, v: World, c: nat, x: Identity)
    requires Reaches(w, v) && c !in v.calls && Admissible(v, Begin(c, x, Execute(false), true))
    requires v.disk.guard == Absent && v.disk.MarkerOf(x) == Absent
    ensures Reaches(w, AfterExecute(v, x))
  {
    var entry := Execute(false);
    var d := v.disk;
    var held := d.(guard := Whole(Marker(x, Pending)));
    ReachesNext(w, v, Begin(c, x, entry, true));
    ReachesPc(w, v, c, x, entry, d, ExecuteRead(false), d, GuardOpen(false));
    ReachesPc(w, v, c, x, entry, d, GuardOpen(false), d.(guard := Torn), GuardWrite(false));
    ReachesPc(w, v, c, x, entry, d.(guard := Torn), GuardWrite(false), held, MarkerOpen(false));
    ReachesPc(w, v, c, x, entry, held, MarkerOpen(false), held.WithMarker(x, Torn), MarkerWrite(false));
    var done := held.WithMarker(x, Whole(Marker(x, Pending)));
    assert done == held.WithMarker(x, Torn).WithMarker(x, Whole(Marker(x, Pending)));
    ReachesReturn(w, v, c, x, entry, held.WithMarker(x, Torn), MarkerWrite(false), done, StillPending);
  }

  lemma ReachesRename(w: World, v: World, c: nat, x: Identity)
    requires Reaches(w, v) && c !in v.calls && Admissible(v, Begin(c, x, Cancel, true))
    requires v.disk.Holds(x) && v.disk.IsPending(x)
    ensures Reaches(w, At(v, v.disk, c, x, Cancel, FinishRename(Cancelled, Marker(x, Pending))))
  {
    var d := v.disk;
    var m := Marker(x, Pending);
    ReachesNext(w, v, Begin(c, x, Cancel, true));
    ReachesPc(w, v, c, x, Cancel, d, FinishRead(Cancelled), d, FinishGuard(Cancelled, m));
    ReachesPc(w, v, c, x, Cancel, d, FinishGuard(Cancelled, m), d, FinishTemporary(Cancelled, m));
    ReachesPc(w, v, c, x, Cancel, d, FinishTemporary(Cancelled, m), d, FinishRename(Cancelled, m));
  }

  lemma ReachesUnlink(w: World, v: World, c: nat, x: Identity)
    requires Reaches(w, v) && c !in v.calls && Admissible(v, Begin(c, x, Cancel, true))
    requires v.disk.Holds(x) && v.disk.IsPending(x)
    ensures Reaches(w, At(v, v.disk.WithMarker(x, Whole(Marker(x, Cancelled))), c, x, Cancel, ReleaseUnlink(Cancelled)))
  {
    var d := v.disk;
    var ended := d.WithMarker(x, Whole(Marker(x, Cancelled)));
    ReachesRename(w, v, c, x);
    ReachesPc(w, v, c, x, Cancel, d, FinishRename(Cancelled, Marker(x, Pending)), ended, ReleaseRead(Cancelled));
    ReachesPc(w, v, c, x, Cancel, ended, ReleaseRead(Cancelled), ended, ReleaseUnlink(Cancelled));
  }

  lemma ReachesReleased(v: World, c: nat, x: Identity)
    requires c !in v.calls && v.disk.Holds(x) && v.disk.HasEnded(x, Cancelled)
    ensures Reaches(Next(v, Begin(c, x, Inspect, true)),
                    World(v.disk.(guard := Absent), v.calls, v.log + [Receipt(x, Inspect, Ended(Cancelled))]))
  {
    var w := Next(v, Begin(c, x, Inspect, true));
    var d := v.disk;
    ReachesSelf(w);
    ReachesPc(w, v, c, x, Inspect, d, InspectRead, d, ReleaseRead(Cancelled));
    ReachesPc(w, v, c, x, Inspect, d, ReleaseRead(Cancelled), d, ReleaseUnlink(Cancelled));
    ReachesReturn(w, v, c, x, Inspect, d, ReleaseUnlink(Cancelled), d.(guard := Absent), Ended(Cancelled));
  }

  lemma ReachesTornGuard(x: Identity)
    ensures Reaches(INITIAL, At(INITIAL, Disk(Torn, map[]), 0, x, Execute(false), GuardWrite(false)))
  {
    var entry, d := Execute(false), INITIAL.disk;
    ReachesSelf(INITIAL);
    ReachesNext(INITIAL, INITIAL, Begin(0, x, entry, true));
    ReachesPc(INITIAL, INITIAL, 0, x, entry, d, ExecuteRead(false), d, GuardOpen(false));
    ReachesPc(INITIAL, INITIAL, 0, x, entry, d, GuardOpen(false), Disk(Torn, map[]), GuardWrite(false));
  }

  /** One crash after an open is enough for a torn guard with no live call. */
  lemma TornGuardHappens(x: Identity) returns (v: World)
    ensures Reaches(INITIAL, v) && v.disk.guard.Torn? && v.calls == map[]
  {
    ReachesTornGuard(x);
    var cut := At(INITIAL, Disk(Torn, map[]), 0, x, Execute(false), GuardWrite(false));
    ReachesNext(INITIAL, cut, Crash(0));
    v := Next(cut, Crash(0));
  }

  /** Likewise for a torn marker, whose operation holds the guard. */
  lemma TornMarkerHappens(x: Identity) returns (v: World)
    ensures Reaches(INITIAL, v) && v.disk.MarkerOf(x) == Torn && v.disk.Holds(x) && v.calls == map[]
  {
    ReachesTornGuard(x);
    var entry := Execute(false);
    var torn, held := Disk(Torn, map[]), Disk(Whole(Marker(x, Pending)), map[]);
    var cut := held.WithMarker(x, Torn);
    ReachesPc(INITIAL, INITIAL, 0, x, entry, torn, GuardWrite(false), held, MarkerOpen(false));
    ReachesPc(INITIAL, INITIAL, 0, x, entry, held, MarkerOpen(false), cut, MarkerWrite(false));
    ReachesNext(INITIAL, At(INITIAL, cut, 0, x, entry, MarkerWrite(false)), Crash(0));
    v := Next(At(INITIAL, cut, 0, x, entry, MarkerWrite(false)), Crash(0));
  }

  /** With two overlapping calls of x, the second release unlinks a guard that names y by then: y is
      pending, the guard is free, and z becomes pending beside it. The one event the host must not
      allow is the inspect of x begun while the cancel of x is live. */
  lemma OverlapBreaksSingleWriter(x: Identity, y: Identity, z: Identity) returns (before: World, after: World)
    requires x != y && y != z && x != z
    ensures Reaches(INITIAL, before) && !Admissible(before, Begin(1, x, Inspect, true))
    ensures Reaches(Next(before, Begin(1, x, Inspect, true)), after)
    ensures after.disk.IsPending(y) && after.disk.IsPending(z)
  {
    ReachesSelf(INITIAL);
    ReachesPending(INITIAL, INITIAL, 0, x);
    var executed := AfterExecute(INITIAL, x);
    ReachesUnlink(INITIAL, executed, 0, x);
    before := At(executed, executed.disk.WithMarker(x, Whole(Marker(x, Cancelled))), 0, x, Cancel, ReleaseUnlink(Cancelled));
    assert 0 in before.calls && before.calls[0].op == x;
    ReachesReleased(before, 1, x);
    var overlap := Next(before, Begin(1, x, Inspect, true));
    var released := World(before.disk.(guard := Absent), before.calls, before.log + [Receipt(x, Inspect, Ended(Cancelled))]);
    after := OverlapEnds(overlap, released, x, y, z);
  }

  lemma OverlapEnds(w: World, v: World, x: Identity, y: Identity, z: Identity) returns (after: World)
    requires x != y && y != z && x != z
    requires Reaches(w, v) && v.calls == map[0 := Call(x, Cancel, true, ReleaseUnlink(Cancelled))]
    requires v.disk.guard == Absent && v.disk.MarkerOf(y) == Absent && v.disk.MarkerOf(z) == Absent
    ensures Reaches(w, after) && after.disk.IsPending(y) && after.disk.IsPending(z)
  {
    ReachesPending(w, v, 1, y);
    var held := AfterExecute(v, y);
    var free := Next(held, Advance(0));
    ReachesNext(w, held, Advance(0));
    assert free.disk == held.disk.(guard := Absent) && free.calls == map[];
    ReachesPending(w, free, 1, z);
    after := AfterExecute(free, z);
  }

  // ---------------------------------------------------------------------------------------------
  // The calls as written, run without interleaving
  // ---------------------------------------------------------------------------------------------

  lemma Returns(d: Disk, x: Identity, pc: Pc, due: bool)
    ensures var (d', pc') := Act(d, x, pc, due); pc'.Done? ==> Solo(d, x, pc, due) == (d', pc'.outcome)
  {
  }

  class NeutralWorkspaceOperation {
    var guard: File
    var markers: map<Identity, File>

    constructor ()
      ensures Files() == INITIAL.disk
    {
      guard, markers := Absent, map[];
    }

    function Files(): Disk
      reads this
    {
      Disk(guard, markers)
    }

    /** Exclusive creation: false when the file exists. */
    method CreateGuard(marker: Marker) returns (created: bool)
      modifies this
      ensures created <==> old(guard).Absent?
      ensures Files() == if created then old(Files()).(guard := Whole(marker)) else old(Files())
    {
      created := guard.Absent?;
      if created {
        guard := Torn;
        guard := Whole(marker);
      }
    }

    method CreateMarker(x: Identity, marker: Marker) returns (created: bool)
      modifies this
      ensures created <==> old(Files()).MarkerOf(x).Absent?
      ensures Files() == if created then old(Files()).WithMarker(x, Torn).WithMarker(x, Whole(marker)) else old(Files())
    {
      created := x !in markers || markers[x].Absent?;
      if created {
        markers := markers[x := Torn];
        markers := markers[x := Whole(marker)];
      }
    }

    method Execute(x: Identity, recover: bool, due: bool) returns (r: Outcome)
      modifies this
      ensures (Files(), r) == Solo(old(Files()), x, ExecuteRead(recover), due)
      ensures old(Files().MarkerOf(x).Absent? && guard.Whole? && !Files().Holds(x)) ==>
                Files() == old(Files()) && r == Failed(WriterCollision)
      ensures old(Files().MarkerOf(x).Absent? && (guard.Absent? || Files().Holds(x))) ==>
                Files().IsPending(x) && Files().Holds(x) && r == if recover then Unknown else StillPending
    {
      ghost var d := Files();
      ExecuteOutcomes(d, x, recover, due);
      var marker := Marker(x, Pending);
      var existing := Files().MarkerOf(x);
      if existing.Torn? {
        return Failed(Unreadable);
      }
      if existing.Whole? {
        if existing.marker.id != x {
          return Failed(OwnerMismatch);
        }
        if existing.marker.state != Pending {
          r := Inspect(x, due);
          return;
        }
      }
      assert Solo(d, x, ExecuteRead(recover), due) == Solo(d, x, GuardOpen(recover), due);
      var locked := CreateGuard(marker);
      if !locked {
        var held := guard;
        assert Solo(d, x, GuardOpen(recover), due) == Solo(d, x, GuardRead(recover), due);
        Returns(d, x, GuardRead(recover), due);
        if held.Torn? {
          return Failed(Unreadable);
        }
        if held.marker.id != x {
          return Failed(WriterCollision);
        }
        assert Solo(d, x, GuardRead(recover), due) == Solo(Files(), x, MarkerOpen(recover), due);
      } else {
        assert Solo(d, x, GuardOpen(recover), due) == Solo(d.(guard := Torn), x, GuardWrite(recover), due);
        assert Solo(d.(guard := Torn), x, GuardWrite(recover), due) == Solo(Files(), x, MarkerOpen(recover), due);
      }
      r := Mark(x, recover, due);
    }

    method Mark(x: Identity, recover: bool, due: bool) returns (r: Outcome)
      modifies this
      ensures (Files(), r) == Solo(old(Files()), x, MarkerOpen(recover), due)
    {
      ghost var d := Files();
      var created := CreateMarker(x, Marker(x, Pending));
      if !created {
        var previous := Files().MarkerOf(x);
        assert Solo(d, x, MarkerOpen(recover), due) == Solo(d, x, MarkerRead(recover), due);
        Returns(d, x, MarkerRead(recover), due);
        if previous.Torn? {
          return Failed(Unreadable);
        }
        if previous.marker.id != x {
          return Failed(OwnerMismatch);
        }
      } else {
        assert Solo(d.WithMarker(x, Torn), x, MarkerWrite(recover), due) == (Files(), Started(recover));
      }
      r := Started(recover);
    }

    method Inspect(x: Identity, due: bool) returns (r: Outcome)
      modifies this
      ensures (Files(), r) == Solo(old(Files()), x, InspectRead, due)
      ensures old(Files().IsPending(x) && Files().Holds(x)) ==>
                if due then Files().HasEnded(x, Succeeded) && guard == Absent && r == Ended(Succeeded)
                else Files() == old(Files()) && r == StillPending
      decreases Rank(Files(), x, InspectRead)
    {
      InspectOutcomes(Files(), x, due);
      var file := Files().MarkerOf(x);
      match file
      case Absent => r := Unknown;
      case Torn => r := Failed(Unreadable);
      case Whole(marker) =>
        if marker.id != x {
          r := Failed(OwnerMismatch);
        } else if marker.state != Pending {
          assert Solo(Files(), x, InspectRead, due) == Solo(Files(), x, ReleaseRead(marker.state), due);
          r := ReleaseGuard(x, marker.state, due);
        } else if !due {
          r := StillPending;
        } else {
          r := Finish(x, Succeeded, due);
        }
    }

    method Cancel(x: Identity, due: bool) returns (r: Outcome)
      modifies this
      ensures (Files(), r) == Solo(old(Files()), x, FinishRead(Cancelled), due)
      ensures old(Files().IsPending(x) && Files().Holds(x)) ==>
                Files().HasEnded(x, Cancelled) && guard == Absent && r == Ended(Cancelled)
    {
      CancelOutcomes(Files(), x, due);
      r := Finish(x, Cancelled, due);
    }

    method Finish(x: Identity, state: MarkerState, due: bool) returns (r: Outcome)
      modifies this
      ensures (Files(), r) == Solo(old(Files()), x, FinishRead(state), due)
      decreases Rank(Files(), x, FinishRead(state))
    {
      ghost var d := Files();
      var file := Files().MarkerOf(x);
      if file.Absent? {
        return Failed(Missing);
      }
      if file.Torn? {
        return Failed(Unreadable);
      }
      var marker := file.marker;
      if marker.state != Pending {
        r := Inspect(x, due);
        return;
      }
      assert Solo(d, x, FinishRead(state), due) == Solo(d, x, FinishGuard(state, marker), due);
      Returns(d, x, FinishGuard(state, marker), due);
      if guard.Absent? {
        return Failed(Missing);
      }
      if guard.Torn? {
        return Failed(Unreadable);
      }
      if marker.id != x || guard.marker.id != x {
        return Failed(OwnerMismatch);
      }
      assert Solo(d, x, FinishGuard(state, marker), due) == Solo(d, x, FinishTemporary(state, marker), due);
      var temporary := Whole(marker.(state := state));
      markers := markers[x := temporary];
      assert Solo(d, x, FinishTemporary(state, marker), due) == Solo(d, x, FinishRename(state, marker), due);
      assert Solo(d, x, FinishRename(state, marker), due) == Solo(Files(), x, ReleaseRead(state), due);
      r := ReleaseGuard(x, state, due);
    }

    method ReleaseGuard(x: Identity, state: MarkerState, due: bool) returns (r: Outcome)
      modifies this
      ensures (Files(), r) == Solo(old(Files()), x, ReleaseRead(state), due)
    {
      ghost var d := Files();
      var held := guard;
      if held.Torn? {
        return Failed(Unreadable);
      }
      if held.Whole? && held.marker.id == x {
        guard := Absent;
        assert Solo(d, x, ReleaseUnlink(state), due) == (Files(), Ended(state));
      }
      r := Ended(state);
    }
  }
}
