/** The idempotent installation client.

    A client is created for one scope (workspace and template) and talks to an unreliable transport:
    a request may be handled and its reply lost. Its storage entry survives the client. Each function
    of the source is a step here; an awaited request splits it in two, and the clients' environment
    (server, transport, user, page reloads) chooses which step runs next.
  */
module InstallationClient {
  import opened Basics
  import opened InstallationStorage

  datatype Status = Running | Interrupted | Failed | Succeeded
  datatype Operation = Operation(id: string, templateId: string, workspaceId: string, status: Status, retryable: bool)
  datatype Page = Page(items: seq<Operation>, total: int)
  datatype Scope = Scope(workspaceId: string, templateId: string)
  datatype Problem = NoProblem | ScopeChanged | StorageFailed | TransportFailed
  datatype Request = Create(input: Intent) | Fetch(id: string) | Retry(id: string)

  datatype Client = Client(
    operation: Option<Operation>, history: seq<Operation>, hasMore: bool, busy: bool, uncertain: bool, error: Problem,
    saved: Option<Saved>, disposed: bool, generation: nat, offset: nat,
    flights: map<nat, Request>,  // requests awaited, each under the generation it was sent in
    timer: nat, alarms: set<nat>  // the last timer handle issued, and the handles still ticking
  )

  /** One client and the storage entry under its key. */
  datatype Local = Local(client: Client, storage: Option<Saved>)

  const FRESH := Client(None, [], false, false, false, NoProblem, None, false, 0, 0, map[], 0, {})

  // ---------------------------------------------------------------------------------------------
  // The steps
  // ---------------------------------------------------------------------------------------------

  predicate InScope(scope: Scope, templateId: string, workspaceId: string) {
    workspaceId == scope.workspaceId && templateId == scope.templateId
  }

  function Stop(c: Client): Client {
    c.(alarms := c.alarms - {c.timer}, generation := c.generation + 1)
  }

  function Persist(l: Local, value: Saved): Local {
    Local(l.client.(saved := Some(value)), Some(value))
  }

  predicate HoldsIntent(s: Option<Saved>) {
    s.Some? && s.value.SavedIntent?
  }

  function Others(history: seq<Operation>, id: string): seq<Operation> {
    if history == [] then []
    else (if history[0].id != id then [history[0]] else []) + Others(history[1..], id)
  }

  /** Take an operation as the current one; writable says whether setItem succeeds. */
  function Accept(scope: Scope, l: Local, op: Operation, writable: bool): (Local, Problem) {
    if !InScope(scope, op.templateId, op.workspaceId) then (l, ScopeChanged)
    else if !writable then (l, StorageFailed)
    else
      var p := Persist(l, SavedOperation(op.id));
      var c := p.client;
      var shown := if c.disposed then c
                   else c.(operation := Some(op), uncertain := false, error := NoProblem,
                           history := [op] + Others(c.history, op.id));
      var timed := if op.status.Running? then shown.(timer := c.timer + 1, alarms := c.alarms + {c.timer + 1}) else shown;
      (p.(client := timed), NoProblem)
  }

  /** run, up to the await. */
  function Send(l: Local, request: Request): Local {
    var c := l.client;
    if c.busy || c.disposed then l
    else
      var s := Stop(c);
      l.(client := s.(flights := s.flights[s.generation := request], busy := true, error := NoProblem))
  }

  /** run, from the reply on; no reply stands for a failed request. */
  function Settle(scope: Scope, l: Local, version: nat, reply: Option<Operation>, writable: bool): Local {
    var landed := l.(client := l.client.(flights := l.client.flights - {version}));
    if l.client.disposed || version != l.client.generation then landed
    else
      var (accepted, problem) := if reply.Some? then Accept(scope, landed, reply.value, writable) else (landed, TransportFailed);
      accepted.(client := Conclude(accepted.client, problem))
  }

  /** The catch and finally of run. */
  function Conclude(c: Client, problem: Problem): Client {
    var judged := if problem == NoProblem then c else c.(error := problem, uncertain := HoldsIntent(c.saved));
    judged.(busy := false)
  }

  function Refresh(l: Local): Local {
    match l.client.saved
    case None => l
    case Some(SavedOperation(id)) => Send(l, Fetch(id))
    case Some(SavedIntent(input)) => Send(l, Create(input))
  }

  /** What a client of this scope takes from storage, by ReadSavedInvertsPersist. */
  function Recall(scope: Scope, storage: Option<Saved>): Option<Saved> {
    var read := if storage.None? then None else ReadBack(storage.value);
    if HoldsIntent(read) && !InScope(scope, read.value.input.templateId, read.value.input.workspaceId) then None else read
  }

  function Fail(c: Client, problem: Problem): Client {
    if c.disposed then c else c.(error := problem)
  }

  function Restore(scope: Scope, l: Local, readable: bool): Local {
    if !readable then
      l.(client := if l.client.disposed then l.client else l.client.(error := StorageFailed, uncertain := true))
    else Refresh(l.(client := l.client.(saved := Recall(scope, l.storage))))
  }

  function Start(scope: Scope, l: Local, input: Intent, writable: bool): Local {
    if l.client.busy || l.client.saved.Some? || l.client.disposed then l
    else if !InScope(scope, input.templateId, input.workspaceId) then l.(client := Fail(l.client, ScopeChanged))
    else if !writable then l.(client := Fail(l.client, StorageFailed))
    else Refresh(Persist(l, SavedIntent(input)))
  }

  function Select(scope: Scope, l: Local, op: Operation, writable: bool): Local {
    if l.client.busy || l.client.uncertain || l.client.disposed then l
    else
      var (accepted, problem) := Accept(scope, l.(client := Stop(l.client)), op, writable);
      if problem == NoProblem then Refresh(accepted) else accepted
  }

  function RetryOperation(l: Local): Local {
    if l.client.operation.Some? && l.client.operation.value.retryable then Send(l, Retry(l.client.operation.value.id)) else l
  }

  function NewInstance(l: Local, writable: bool): Local {
    var c := l.client;
    if c.busy || c.uncertain || (c.operation.Some? && c.operation.value.status.Running?) || c.disposed then l
    else if !writable then l.(client := Fail(Stop(c), StorageFailed))
    else Local(Stop(c).(saved := None, operation := None, error := NoProblem), None)
  }

  function Dispose(l: Local): Local {
    l.(client := Stop(l.client.(disposed := true)))
  }

  function Alarm(l: Local, handle: nat): Local {
    if handle in l.client.alarms then Refresh(l.(client := l.client.(alarms := l.client.alarms - {handle}))) else l
  }

  // History paging

  function Insert(items: seq<Operation>, item: Operation): seq<Operation> {
    if items == [] then [item]
    else if items[0].id == item.id then [item] + items[1..]
    else [items[0]] + Insert(items[1..], item)
  }

  /** new Map by id: the place of the first occurrence, the value of the last. */
  function Distinct(items: seq<Operation>): seq<Operation>
    decreases |items|
  {
    if items == [] then [] else Insert(Distinct(items[..|items| - 1]), items[|items| - 1])
  }

  function OfTemplate(scope: Scope, items: seq<Operation>): seq<Operation> {
    if items == [] then []
    else (if items[0].templateId == scope.templateId then [items[0]] else []) + OfTemplate(scope, items[1..])
  }

  function ShowPage(scope: Scope, c: Client, version: nat, more: bool, page: Option<Page>): Client {
    if c.disposed || version != c.generation then c
    else if page.None? then c.(error := TransportFailed)
    else
      var offset := (if more then c.offset else 0) + |page.value.items|;
      var items := OfTemplate(scope, page.value.items);
      c.(offset := offset, hasMore := offset < page.value.total,
         history := Distinct(if more then c.history + items else items))
  }

  // ---------------------------------------------------------------------------------------------
  // The world around one storage entry
  // ---------------------------------------------------------------------------------------------

  /** The server is keyed: it handles every create at most once per idempotency key. */
  datatype World = World(
    local: Local,
    mounted: bool,  // restore has been called on this client
    started: map<string, Intent>,  // accepted starts, by key
    sent: set<Intent>,  // creates any client has sent
    server: map<string, string>,  // operation made for a key
    acked: set<string>  // keys whose operation a client has recorded
  )

  datatype Event =
    | DoRestore(readable: bool)
    | DoStart(input: Intent, writable: bool)
    | DoRefresh
    | DoSelect(op: Operation, writable: bool)
    | DoRetry
    | DoNewInstance(writable: bool)
    | DoDispose
    | DoAlarm(handle: nat)
    | DoPage(version: nat, more: bool, page: Option<Page>)
    | DoReply(version: nat, reply: Option<Operation>, writable: bool)
    | Serve(key: string, id: string)
    | DieInStart(input: Intent)  // start has persisted, and the page dies before sending
    | Reload  // the client is gone, with or without dispose; a new one is created

  const INITIAL := World(Local(FRESH, None), false, map[], {}, map[], {})

  /** The client step of an event. */
  function LocalNext(scope: Scope, l: Local, e: Event): Local {
    match e
    case DoRestore(readable) => Restore(scope, l, readable)
    case DoStart(input, writable) => Start(scope, l, input, writable)
    case DoRefresh => Refresh(l)
    case DoSelect(op, writable) => Select(scope, l, op, writable)
    case DoRetry => RetryOperation(l)
    case DoNewInstance(writable) => NewInstance(l, writable)
    case DoDispose => Dispose(l)
    case DoAlarm(handle) => Alarm(l, handle)
    case DoPage(version, more, page) => l.(client := ShowPage(scope, l.client, version, more, page))
    case DoReply(version, reply, writable) => if version in l.client.flights then Settle(scope, l, version, reply, writable) else l
    case Serve(_, _) => l
    case DieInStart(input) => Start(scope, l, input, true).(client := FRESH)
    case Reload => l.(client := FRESH)
  }

  /** The creates in flight that were not before. */
  function NewCreates(before: map<nat, Request>, after: map<nat, Request>): set<Intent> {
    set v | v in after && (v !in before || before[v] != after[v]) && after[v].Create? :: after[v].input
  }

  /** An intent is started once it is in storage. */
  function NoteStart(started: map<string, Intent>, l: Local, input: Intent): map<string, Intent> {
    if l.storage == Some(SavedIntent(input)) then started[input.key := input] else started
  }

  function Next(scope: Scope, w: World, e: Event): World {
    var l := LocalNext(scope, w.local, e);
    var sent := w.sent + NewCreates(w.local.client.flights, l.client.flights);
    match e
    case DoRestore(readable) => w.(local := l, sent := sent, mounted := true)
    case DoStart(input, _) =>
      w.(local := l, sent := sent, started := NoteStart(w.started, l, input))
    case DoReply(version, _, _) =>
      var flights := w.local.client.flights;
      var acked := version in flights && flights[version].Create? && l.storage != w.local.storage;
      w.(local := l, sent := sent, acked := if acked then w.acked + {flights[version].input.key} else w.acked)
    case Serve(key, id) =>
      if key in w.server then w else w.(server := w.server[key := id])
    case DieInStart(input) =>
      w.(local := l, started := NoteStart(w.started, l, input), mounted := false)
    case Reload => w.(local := l, mounted := false)
    case _ => w.(local := l, sent := sent)
  }

  /** What the environment guarantees. A page restores before anything else, keys are fresh random
      identifiers, the server makes one operation a key, and answers a create with that operation. */
  ghost predicate Admissible(w: World, e: Event) {
    match e
    case DoStart(input, _) => w.mounted && input.key !in w.started
    case DieInStart(input) => w.mounted && input.key !in w.started
    case DoRefresh => w.mounted
    case DoSelect(_, _) => w.mounted
    case DoRetry => w.mounted
    case DoNewInstance(_) => w.mounted
    case DoReply(version, reply, _) =>
      var flights := w.local.client.flights;
      reply.Some? && version in flights && flights[version].Create? ==>
        flights[version].input.key in w.server && reply.value.id == w.server[flights[version].input.key]
    case Serve(key, id) => (exists i <- w.sent :: i.key == key) && id !in w.server.Values
    case _ => true
  }

  predicate Accepts(scope: Scope, l: Local, input: Intent) {
    !l.client.busy && l.client.saved.None? && !l.client.disposed && InScope(scope, input.templateId, input.workspaceId)
  }

  /** The intent a start puts into storage. */
  function Stored(scope: Scope, w: World, e: Event): Option<Intent> {
    match e
    case DoStart(input, writable) => if writable && Accepts(scope, w.local, input) then Some(input) else None
    case DieInStart(input) => if Accepts(scope, w.local, input) then Some(input) else None
    case _ => None
  }

  /** What start leaves to its caller: storage holds no intent, and the new one can be read back. */
  predicate Guarded(scope: Scope, w: World, e: Event) {
    Stored(scope, w, e).Some? ==> !HoldsIntent(w.local.storage) && Readable(SavedIntent(Stored(scope, w, e).value))
  }

  /** A start, select or new instance that goes ahead while storage holds an intent. */
  predicate Overwrites(scope: Scope, w: World, e: Event) {
    var c := w.local.client;
    var open := !c.busy && !c.uncertain && !c.disposed;
    && HoldsIntent(w.local.storage)
    && match e
       case DoSelect(op, writable) => writable && open && InScope(scope, op.templateId, op.workspaceId)
       case DoNewInstance(writable) => writable && open && !(c.operation.Some? && c.operation.value.status.Running?)
       case _ => Stored(scope, w, e).Some?
  }

  // ---------------------------------------------------------------------------------------------
  // The invariant
  // ---------------------------------------------------------------------------------------------

  ghost predicate UniqueIds(items: seq<Operation>) {
    forall i, j | 0 <= i < j < |items| :: items[i].id != items[j].id
  }

  /** The request awaited is about what storage holds. */
  predicate Awaits(l: Local) {
    && l.client.generation in l.client.flights
    && match l.client.flights[l.client.generation]
       case Create(input) => l.storage == Some(SavedIntent(input))
       case _ => l.storage.Some? && l.storage.value.SavedOperation?
  }

  /** A client and its storage: what is in memory is in storage, a live client awaits one request at
      most, an idle one with an intent is uncertain, and what is displayed is what is saved. */
  ghost predicate ClientOk(l: Local) {
    var c := l.client;
    && (c.saved.Some? ==> c.saved == l.storage)
    && (!c.disposed ==> c.flights.Keys == if c.busy then {c.generation} else {})
    && (!c.disposed && c.busy ==> Awaits(l))
    && (!c.disposed && HoldsIntent(c.saved) ==> c.busy || c.uncertain)
    && (c.operation.Some? ==> c.saved == Some(SavedOperation(c.operation.value.id)))
    && c.alarms <= {c.timer}
    && (c.disposed || c.busy ==> c.alarms == {})
    && (c.alarms != {} ==> c.operation.Some? && c.operation.value.status.Running?)
    && UniqueIds(c.history)
  }

  /** Every started intent is acknowledged, or it is the one in storage. */
  ghost predicate NothingLost(w: World) {
    forall k <- w.started :: k in w.acked || w.local.storage == Some(SavedIntent(w.started[k]))
  }

  ghost predicate LedgerOk(scope: Scope, w: World) {
    && (forall k <- w.started :: w.started[k].key == k)
    && (forall i <- w.sent :: i.key in w.started && w.started[i.key] == i)
    && w.acked <= w.server.Keys <= w.started.Keys
    && (forall j, k | j in w.server && k in w.server && w.server[j] == w.server[k] :: j == k)
    && (HoldsIntent(w.local.storage) ==>
          var i := w.local.storage.value.input;
          i.key in w.started && w.started[i.key] == i && i.key !in w.acked && InScope(scope, i.templateId, i.workspaceId))
  }

  ghost predicate Inv(scope: Scope, w: World) {
    ClientOk(w.local) && LedgerOk(scope, w)
  }

  /** A live client that has been restored knows what storage holds, or shows that it does not. */
  predicate Informed(l: Local, mounted: bool) {
    var c := l.client;
    && (l.storage.Some? ==> Readable(l.storage.value))
    && (c.saved.None? && l.storage.Some? ==> !mounted || c.disposed || c.uncertain)
    && (!c.disposed && c.busy ==> c.saved.Some?)
  }

  // History ids stay unique

  lemma OthersUnique(items: seq<Operation>, id: string)
    requires UniqueIds(items)
    ensures UniqueIds(Others(items, id))
    ensures forall o :: o in Others(items, id) <==> o in items && o.id != id
  {
  }

  lemma InsertUnique(items: seq<Operation>, item: Operation)
    requires UniqueIds(items)
    ensures UniqueIds(Insert(items, item))
    ensures forall o :: o in Insert(items, item) <==> o == item || (o in items && o.id != item.id)
  {
  }

  /** Paging keeps one entry an id, the last one listed, and loses no id. */
  lemma {:induction false} DistinctUnique(items: seq<Operation>)
    ensures UniqueIds(Distinct(items))
    ensures forall o <- Distinct(items) :: o in items
    ensures forall i | 0 <= i < |items| :: (forall j | i < j < |items| :: items[j].id != items[i].id) ==> items[i] in Distinct(items)
    decreases |items|
  {
    if items != [] {
      var front := items[..|items| - 1];
      var last := items[|items| - 1];
      DistinctUnique(front);
      InsertUnique(Distinct(front), last);
      assert items == front + [last];
    }
  }

  function IdsOf(items: seq<Operation>): (ids: seq<string>)
    ensures |ids| == |items| && forall i | 0 <= i < |ids| :: ids[i] == items[i].id
  {
    seq(|items|, i requires 0 <= i < |items| => items[i].id)
  }

  /** Where an id first occurs, or the length. */
  function FirstPlace(ids: seq<string>, id: string): (k: nat)
    ensures k <= |ids| && (k < |ids| ==> ids[k] == id) && forall j | 0 <= j < k :: ids[j] != id
  {
    if ids == [] || ids[0] == id then 0 else 1 + FirstPlace(ids[1..], id)
  }

  /** Entries that occur, in the order in which they first occur. */
  ghost predicate InOrderOf(ids: seq<string>, distinct: seq<string>) {
    && (forall i | 0 <= i < |distinct| :: FirstPlace(ids, distinct[i]) < |ids|)
    && forall i, j | 0 <= i < j < |distinct| :: FirstPlace(ids, distinct[i]) < FirstPlace(ids, distinct[j])
  }

  ghost predicate AllIn(ids: seq<string>, distinct: seq<string>) {
    forall i | 0 <= i < |ids| :: ids[i] in distinct
  }

  lemma {:induction false} InsertIds(items: seq<Operation>, item: Operation)
    ensures IdsOf(Insert(items, item)) == if item.id in IdsOf(items) then IdsOf(items) else IdsOf(items) + [item.id]
  {
    if items == [] {
    } else if items[0].id == item.id {
      assert IdsOf(items)[0] == item.id;
    } else {
      var rest := IdsOf(items[1..]);
      InsertIds(items[1..], item);
      assert IdsOf(items) == [items[0].id] + rest;
      assert IdsOf(Insert(items, item)) == [items[0].id] + IdsOf(Insert(items[1..], item));
      assert item.id in IdsOf(items) <==> item.id in rest;
      assert [items[0].id] + (rest + [item.id]) == [items[0].id] + rest + [item.id];
    }
  }

  lemma FirstPlaceStays(ids: seq<string>, more: string, id: string)
    ensures FirstPlace(ids + [more], id)
         == if FirstPlace(ids, id) < |ids| then FirstPlace(ids, id) else if more == id then |ids| else |ids| + 1
  {
    var k, h := FirstPlace(ids, id), FirstPlace(ids + [more], id);
    assert forall j | 0 <= j < |ids| :: (ids + [more])[j] == ids[j];
    assert (ids + [more])[|ids|] == more;
  }

  lemma InOrderStep(ids: seq<string>, distinct: seq<string>, id: string)
    requires InOrderOf(ids, distinct)
    ensures InOrderOf(ids + [id], distinct)
    ensures FirstPlace(ids, id) == |ids| ==> InOrderOf(ids + [id], distinct + [id])
  {
    forall i | 0 <= i < |distinct|
      ensures FirstPlace(ids + [id], distinct[i]) == FirstPlace(ids, distinct[i])
    {
      FirstPlaceStays(ids, id, distinct[i]);
    }
    FirstPlaceStays(ids, id, id);
  }

  lemma NewId(ids: seq<string>, distinct: seq<string>, id: string)
    requires AllIn(ids, distinct) && id !in distinct
    ensures FirstPlace(ids, id) == |ids|
  {
  }

  lemma AllInStep(ids: seq<string>, distinct: seq<string>, id: string)
    requires AllIn(ids, distinct)
    ensures AllIn(ids + [id], if id in distinct then distinct else distinct + [id])
  {
  }

  /** Each id once, at its first place. */
  function Once(ids: seq<string>): seq<string> {
    if ids == [] then []
    else
      var front, last := Once(ids[..|ids| - 1]), ids[|ids| - 1];
      if last in front then front else front + [last]
  }

  lemma {:induction false} OnceHasAll(ids: seq<string>)
    ensures AllIn(ids, Once(ids))
  {
    if ids != [] {
      var front, last := ids[..|ids| - 1], ids[|ids| - 1];
      OnceHasAll(front);
      AllInStep(front, Once(front), last);
      assert ids == front + [last];
    }
  }

  lemma {:induction false} OnceIsInOrder(ids: seq<string>)
    ensures InOrderOf(ids, Once(ids))
  {
    if ids != [] {
      var front, last := ids[..|ids| - 1], ids[|ids| - 1];
      OnceIsInOrder(front);
      InOrderStep(front, Once(front), last);
      if last !in Once(front) {
        OnceHasAll(front);
        NewId(front, Once(front), last);
      }
      assert ids == front + [last];
    }
  }

  lemma {:induction false} DistinctIds(items: seq<Operation>)
    ensures IdsOf(Distinct(items)) == Once(IdsOf(items))
    decreases |items|
  {
    if items != [] {
      var front, last := items[..|items| - 1], items[|items| - 1];
      DistinctIds(front);
      InsertIds(Distinct(front), last);
      assert IdsOf(items)[..|items| - 1] == IdsOf(front);
    }
  }

  /** The entries are in the order in which their ids first occur. */
  lemma DistinctPlaces(items: seq<Operation>)
    ensures InOrderOf(IdsOf(items), IdsOf(Distinct(items)))
  {
    DistinctIds(items);
    OnceIsInOrder(IdsOf(items));
  }

  // The invariant is inductive

  lemma RecallAgrees(scope: Scope, storage: Option<Saved>)
    ensures Recall(scope, storage) == None || Recall(scope, storage) == storage
    ensures storage.Some? && Readable(storage.value)
            && (HoldsIntent(storage) ==> InScope(scope, storage.value.input.templateId, storage.value.input.workspaceId))
            ==> Recall(scope, storage) == storage
    ensures storage.Some? && storage.value.SavedOperation? ==> Recall(scope, storage) == storage
  {
  }

  /** Refresh, also from an idle client that has just read an intent. */
  lemma RefreshKeepsClient(l: Local)
    requires ClientOk(l.(client := l.client.(uncertain := true)))
    ensures ClientOk(Refresh(l))
  {
  }

  lemma RestoreKeepsClient(scope: Scope, l: Local, readable: bool)
    requires ClientOk(l)
    ensures ClientOk(Restore(scope, l, readable))
  {
    RecallAgrees(scope, l.storage);
    RefreshKeepsClient(l.(client := l.client.(saved := Recall(scope, l.storage))));
  }

  lemma PageKeepsClient(scope: Scope, l: Local, version: nat, more: bool, page: Option<Page>)
    requires ClientOk(l)
    ensures ClientOk(l.(client := ShowPage(scope, l.client, version, more, page)))
  {
    if page.Some? {
      var items := OfTemplate(scope, page.value.items);
      DistinctUnique(if more then l.client.history + items else items);
    }
  }

  lemma SendKeepsClient(l: Local, request: Request)
    requires ClientOk(l)
    requires match request
             case Create(input) => l.storage == Some(SavedIntent(input))
             case _ => l.storage.Some? && l.storage.value.SavedOperation?
    ensures ClientOk(Send(l, request))
  {
  }

  lemma NewInstanceKeepsClient(l: Local, writable: bool)
    requires ClientOk(l)
    ensures ClientOk(NewInstance(l, writable))
  {
  }

  lemma AcceptKeepsClient(scope: Scope, l: Local, op: Operation, writable: bool)
    requires UniqueIds(l.client.history)
    requires l.client.alarms == {} && !l.client.disposed
    ensures var (a, problem) := Accept(scope, l, op, writable);
            && (problem != NoProblem ==> a == l)
            && (problem == NoProblem ==>
                  && a.storage == a.client.saved == Some(SavedOperation(op.id))
                  && a.client.operation == Some(op) && !a.client.uncertain
                  && UniqueIds(a.client.history) && a.client.alarms <= {a.client.timer}
                  && (a.client.alarms != {} ==> op.status.Running?)
                  && a.client.flights == l.client.flights && a.client.generation == l.client.generation
                  && a.client.busy == l.client.busy && !a.client.disposed)
  {
    OthersUnique(l.client.history, op.id);
    var rest := Others(l.client.history, op.id);
    assert forall i | 0 <= i < |rest| :: rest[i] in rest;
  }

  lemma StartKeepsClient(scope: Scope, l: Local, input: Intent, writable: bool)
    requires ClientOk(l)
    ensures ClientOk(Start(scope, l, input, writable))
  {
  }

  lemma SelectKeepsClient(scope: Scope, l: Local, op: Operation, writable: bool)
    requires ClientOk(l)
    ensures ClientOk(Select(scope, l, op, writable))
  {
    if !(l.client.busy || l.client.uncertain || l.client.disposed) {
      var stopped := l.(client := Stop(l.client));
      AcceptKeepsClient(scope, stopped, op, writable);
      RefreshKeepsClient(Accept(scope, stopped, op, writable).0);
    }
  }

  lemma SettleKeepsClient(scope: Scope, l: Local, version: nat, reply: Option<Operation>, writable: bool)
    requires ClientOk(l) && version in l.client.flights
    ensures ClientOk(Settle(scope, l, version, reply, writable))
  {
    var landed := l.(client := l.client.(flights := l.client.flights - {version}));
    if !l.client.disposed && reply.Some? {
      AcceptKeepsClient(scope, landed, reply.value, writable);
    }
  }

  lemma AlarmKeepsClient(l: Local, handle: nat)
    requires ClientOk(l)
    ensures ClientOk(Alarm(l, handle))
  {
    RefreshKeepsClient(l.(client := l.client.(alarms := l.client.alarms - {handle})));
  }

  lemma StepKeepsClient(scope: Scope, l: Local, e: Event)
    requires ClientOk(l)
    ensures ClientOk(LocalNext(scope, l, e))
  {
    match e
    case DoRestore(readable) => RestoreKeepsClient(scope, l, readable);
    case DoStart(input, writable) => StartKeepsClient(scope, l, input, writable);
    case DoRefresh => RefreshKeepsClient(l);
    case DoSelect(op, writable) => SelectKeepsClient(scope, l, op, writable);
    case DoRetry =>
      if l.client.operation.Some? {
        SendKeepsClient(l, Retry(l.client.operation.value.id));
      }
    case DoNewInstance(writable) => NewInstanceKeepsClient(l, writable);
    case DoDispose =>
    case DoAlarm(handle) => AlarmKeepsClient(l, handle);
    case DoPage(version, more, page) => PageKeepsClient(scope, l, version, more, page);
    case DoReply(version, reply, writable) =>
      if version in l.client.flights {
        SettleKeepsClient(scope, l, version, reply, writable);
      }
    case Serve(_, _) =>
    case DieInStart(_) =>
    case Reload =>
  }

  /** The only request a step may add is from a live client, under the generation it then keeps. */
  ghost predicate SendsOnce(c: Client, c': Client) {
    forall v <- c'.flights ::
      || (v in c.flights && c'.flights[v] == c.flights[v])
      || (v == c'.generation && c'.busy && !c'.disposed)
  }

  lemma RefreshSendsOnce(c: Client, l: Local)
    requires l.client.flights == c.flights
    ensures SendsOnce(c, Refresh(l).client)
  {
  }

  lemma SelectSendsOnce(scope: Scope, l: Local, op: Operation, writable: bool)
    ensures SendsOnce(l.client, Select(scope, l, op, writable).client)
  {
  }

  lemma SettleSendsOnce(scope: Scope, l: Local, version: nat, reply: Option<Operation>, writable: bool)
    ensures SendsOnce(l.client, Settle(scope, l, version, reply, writable).client)
  {
  }

  lemma StepSendsOnce(scope: Scope, l: Local, e: Event)
    ensures SendsOnce(l.client, LocalNext(scope, l, e).client)
  {
    match e
    case DoRestore(readable) => RefreshSendsOnce(l.client, l.(client := l.client.(saved := Recall(scope, l.storage))));
    case DoStart(input, writable) => RefreshSendsOnce(l.client, Persist(l, SavedIntent(input)));
    case DoRefresh => RefreshSendsOnce(l.client, l);
    case DoSelect(op, writable) => SelectSendsOnce(scope, l, op, writable);
    case DoRetry =>
    case DoNewInstance(_) =>
    case DoDispose =>
    case DoAlarm(handle) => RefreshSendsOnce(l.client, l.(client := l.client.(alarms := l.client.alarms - {handle})));
    case DoPage(_, _, _) =>
    case DoReply(version, reply, writable) => SettleSendsOnce(scope, l, version, reply, writable);
    case Serve(_, _) =>
    case DieInStart(_) =>
    case Reload =>
  }

  /** Every create goes out while storage holds exactly the intent it carries. */
  lemma CreatesAreStored(scope: Scope, l: Local, e: Event)
    requires ClientOk(l)
    ensures var l' := LocalNext(scope, l, e);
            forall i <- NewCreates(l.client.flights, l'.client.flights) :: l'.storage == Some(SavedIntent(i))
  {
    StepSendsOnce(scope, l, e);
    StepKeepsClient(scope, l, e);
  }

  // The ledgers

  ghost predicate ServerChanges(w: World, w': World) {
    || w'.server == w.server
    || exists key <- w'.server ::
         && w'.server == w.server[key := w'.server[key]] && w'.server[key] !in w.server.Values
         && exists i <- w.sent :: i.key == key
  }

  lemma ServerStep(scope: Scope, w: World, e: Event)
    requires Admissible(w, e)
    ensures ServerChanges(w, Next(scope, w, e))
  {
  }

  /** How one step may change storage: a start puts in an intent of its own, an accepted reply replaces
      the intent it answers, and nothing but an overwriting step replaces another intent. */
  ghost predicate StorageChanges(scope: Scope, w: World, w': World, over: bool) {
    var before, after := w.local.storage, w'.local.storage;
    || (before == after && w'.started == w.started && w'.acked == w.acked && !over)
    || (!HoldsIntent(before) && !HoldsIntent(after) && w'.started == w.started && w'.acked == w.acked)
    || (HoldsIntent(after) && over == HoldsIntent(before)
        && var i := after.value.input;
           InScope(scope, i.templateId, i.workspaceId) && i.key !in w.started
           && w'.started == w.started[i.key := i] && w'.acked == w.acked)
    || (HoldsIntent(before) && after.Some? && after.value.SavedOperation? && w'.started == w.started && !over
        && before.value.input.key in w.server
        && w'.acked == w.acked + {before.value.input.key})
    || (HoldsIntent(before) && !HoldsIntent(after) && over && w'.started == w.started && w'.acked == w.acked)
  }

  lemma StorageStep(scope: Scope, w: World, e: Event)
    requires Inv(scope, w) && Admissible(w, e)
    ensures StorageChanges(scope, w, Next(scope, w, e), Overwrites(scope, w, e))
  {
  }

  lemma LedgerStep(scope: Scope, w: World, w': World, over: bool)
    requires LedgerOk(scope, w)
    requires forall i <- w'.sent - w.sent :: w'.local.storage == Some(SavedIntent(i))
    requires StorageChanges(scope, w, w', over) && ServerChanges(w, w')
    ensures LedgerOk(scope, w')
  {
    forall i <- w'.sent
      ensures i.key in w'.started && w'.started[i.key] == i
    {
      if i !in w.sent {
        assert i in w'.sent - w.sent;
      }
    }
  }

  lemma SentStep(scope: Scope, w: World, e: Event)
    ensures var w' := Next(scope, w, e);
            w'.sent - w.sent <= NewCreates(w.local.client.flights, LocalNext(scope, w.local, e).client.flights)
  {
  }

  lemma NextKeepsInv(scope: Scope, w: World, e: Event)
    requires Inv(scope, w) && Admissible(w, e)
    ensures Inv(scope, Next(scope, w, e))
  {
    StepKeepsClient(scope, w.local, e);
    CreatesAreStored(scope, w.local, e);
    SentStep(scope, w, e);
    StorageStep(scope, w, e);
    ServerStep(scope, w, e);
    LedgerStep(scope, w, Next(scope, w, e), Overwrites(scope, w, e));
  }

  // ---------------------------------------------------------------------------------------------
  // Whole runs, whatever the callers do
  // ---------------------------------------------------------------------------------------------

  function Run(scope: Scope, w: World, es: seq<Event>): World
    decreases |es|
  {
    if es == [] then w else Run(scope, Next(scope, w, es[0]), es[1..])
  }

  ghost predicate Admitted(scope: Scope, w: World, es: seq<Event>)
    decreases |es|
  {
    es == [] || (Admissible(w, es[0]) && Admitted(scope, Next(scope, w, es[0]), es[1..]))
  }

  lemma {:induction false} RunKeepsInv(scope: Scope, w: World, es: seq<Event>)
    requires Inv(scope, w) && Admitted(scope, w, es)
    ensures Inv(scope, Run(scope, w, es))
    decreases |es|
  {
    if es != [] {
      NextKeepsInv(scope, w, es[0]);
      RunKeepsInv(scope, Next(scope, w, es[0]), es[1..]);
    }
  }

  /** One intent makes one Assistant. Over every run, with lost replies, failing writes and reads, reloads
      and disposal in mid-request, and with starts at any time: creates with one key are one intent, a
      started one, and the server makes at most one operation for each accepted start. */
  lemma OneOperationEachStart(scope: Scope, es: seq<Event>)
    requires Admitted(scope, INITIAL, es)
    ensures var w := Run(scope, INITIAL, es);
            && (forall i, j | i in w.sent && j in w.sent && i.key == j.key :: i == j)
            && (forall i <- w.sent :: i.key in w.started && w.started[i.key] == i)
            && w.acked <= w.server.Keys <= w.started.Keys && |w.server| <= |w.started|
            && (forall j, k | j in w.server && k in w.server && w.server[j] == w.server[k] :: j == k)
  {
    RunKeepsInv(scope, INITIAL, es);
    var w := Run(scope, INITIAL, es);
    SmallerSet(w.server.Keys, w.started.Keys);
  }

  /** The operation the server makes first for a key is the one it keeps: whatever happens then, every
      reply to a create of that key names it. */
  lemma {:induction false} FirstOperationStands(scope: Scope, w: World, key: string, id: string, es: seq<Event>, e: Event)
    requires key !in w.server && Admitted(scope, Next(scope, w, Serve(key, id)), es + [e])
    ensures var v := Run(scope, Next(scope, w, Serve(key, id)), es);
            && key in v.server && v.server[key] == id
            && (e.DoReply? && e.reply.Some? && e.version in v.local.client.flights
                && v.local.client.flights[e.version].Create? && v.local.client.flights[e.version].input.key == key
                ==> e.reply.value.id == id)
  {
    var w1 := Next(scope, w, Serve(key, id));
    assert w1.server == w.server[key := id];
    ServerKeeps(scope, w1, key, es, e);
  }

  lemma {:induction false} ServerKeeps(scope: Scope, w: World, key: string, es: seq<Event>, e: Event)
    requires key in w.server && Admitted(scope, w, es + [e])
    ensures var v := Run(scope, w, es);
            key in v.server && v.server[key] == w.server[key] && Admissible(v, e)
    decreases |es|
  {
    if es == [] {
      assert (es + [e])[0] == e;
    } else {
      assert (es + [e])[0] == es[0] && (es + [e])[1..] == es[1..] + [e];
      ServerKeeps(scope, Next(scope, w, es[0]), key, es[1..], e);
    }
  }

  /** The records of a run are complete: each create that enters flight is recorded as sent, and each
      intent that a start puts into storage as started. A page that dies leaves a fresh client. */
  lemma RecordsAreComplete(scope: Scope, w: World, e: Event)
    requires Inv(scope, w) && Admissible(w, e)
    ensures var w' := Next(scope, w, e);
            && w'.sent == w.sent + NewCreates(w.local.client.flights, w'.local.client.flights)
            && w'.started == (if w'.local.storage != w.local.storage && HoldsIntent(w'.local.storage)
                              then w.started[w'.local.storage.value.input.key := w'.local.storage.value.input] else w.started)
            && (e.DieInStart? || e.Reload? ==> w'.local.client == FRESH && !w'.mounted)
  {
    StorageStep(scope, w, e);
  }

  /** A key is acknowledged exactly when storage goes from its intent to the operation a reply names. */
  lemma AcknowledgedExactly(scope: Scope, w: World, e: Event)
    requires Inv(scope, w) && Admissible(w, e)
    ensures var w' := Next(scope, w, e);
            if e.DoReply? && e.reply.Some? && HoldsIntent(w.local.storage) && w'.local.storage == Some(SavedOperation(e.reply.value.id)) then
              w'.acked == w.acked + {w.local.storage.value.input.key} && w.local.storage.value.input.key !in w.acked
            else w'.acked == w.acked
  {
    StorageStep(scope, w, e);
  }

  /** A displayed operation is the one in memory and in storage; a saved intent shows as busy or uncertain
      and never beside an operation; history has one entry an id; at most one poll timer ticks, and only
      for a running operation that is displayed and not being asked about. */
  lemma DisplayAgreesWithStorage(scope: Scope, es: seq<Event>)
    requires Admitted(scope, INITIAL, es)
    ensures var l := Run(scope, INITIAL, es).local;
            var c := l.client;
            && (c.operation.Some? ==> c.saved == l.storage == Some(SavedOperation(c.operation.value.id)))
            && (HoldsIntent(c.saved) ==> c.operation.None? && c.saved == l.storage && (c.disposed || c.busy || c.uncertain))
            && UniqueIds(c.history)
            && (c.alarms == {} || (c.alarms == {c.timer} && !c.busy && !c.disposed && c.operation.Some? && c.operation.value.status.Running?))
  {
    RunKeepsInv(scope, INITIAL, es);
    var c := Run(scope, INITIAL, es).local.client;
    if c.alarms != {} {
      assert c.timer in c.alarms;
    }
  }

  // ---------------------------------------------------------------------------------------------
  // When an unacknowledged intent is lost
  // ---------------------------------------------------------------------------------------------

  /** One step loses an intent exactly when it overwrites. */
  lemma StepLosesExactly(scope: Scope, w: World, e: Event)
    requires Inv(scope, w) && Admissible(w, e) && NothingLost(w)
    ensures NothingLost(Next(scope, w, e)) <==> !Overwrites(scope, w, e)
  {
    var w' := Next(scope, w, e);
    StorageStep(scope, w, e);
    if Overwrites(scope, w, e) {
      var k := w.local.storage.value.input.key;
      assert k in w'.started && k !in w'.acked && w'.started[k] == w.local.storage.value.input;
    }
  }

  /** A lost intent stays lost: it is neither acknowledged nor stored again. */
  lemma LostStaysLost(scope: Scope, w: World, e: Event)
    requires Inv(scope, w) && Admissible(w, e) && !NothingLost(w)
    ensures !NothingLost(Next(scope, w, e))
  {
    var w' := Next(scope, w, e);
    StorageStep(scope, w, e);
    var k :| k in w.started && k !in w.acked && w.local.storage != Some(SavedIntent(w.started[k]));
    assert k in w'.started && w'.started[k] == w.started[k];
    assert k !in w'.acked;
  }

  predicate NeverOverwrites(scope: Scope, w: World, es: seq<Event>)
    decreases |es|
  {
    es == [] || (!Overwrites(scope, w, es[0]) && NeverOverwrites(scope, Next(scope, w, es[0]), es[1..]))
  }

  lemma {:induction false} RunLosesExactly(scope: Scope, w: World, es: seq<Event>)
    requires Inv(scope, w) && Admitted(scope, w, es)
    ensures NothingLost(Run(scope, w, es)) <==> NothingLost(w) && NeverOverwrites(scope, w, es)
    decreases |es|
  {
    if es != [] {
      var w' := Next(scope, w, es[0]);
      NextKeepsInv(scope, w, es[0]);
      RunLosesExactly(scope, w', es[1..]);
      if NothingLost(w) {
        StepLosesExactly(scope, w, es[0]);
      } else {
        LostStaysLost(scope, w, es[0]);
      }
    }
  }

  /** After any run: every unacknowledged intent is the one in storage, so there is at most one, if and
      only if no step of the run overwrote a stored intent. */
  lemma IntentsSurviveExactly(scope: Scope, es: seq<Event>)
    requires Admitted(scope, INITIAL, es)
    ensures var w := Run(scope, INITIAL, es);
            && ((forall k <- w.started.Keys - w.acked :: w.local.storage == Some(SavedIntent(w.started[k])))
                <==> NeverOverwrites(scope, INITIAL, es))
            && (NeverOverwrites(scope, INITIAL, es) ==>
                  forall j, k | j in w.started.Keys - w.acked && k in w.started.Keys - w.acked :: j == k)
  {
    RunKeepsInv(scope, INITIAL, es);
    RunLosesExactly(scope, INITIAL, es);
    var w := Run(scope, INITIAL, es);
    assert NothingLost(w) <==> forall k <- w.started.Keys - w.acked :: w.local.storage == Some(SavedIntent(w.started[k]));
  }

  // ---------------------------------------------------------------------------------------------
  // Whole runs, when starts are guarded
  // ---------------------------------------------------------------------------------------------

  /** Select and new instance stop where they would overwrite, because an informed client is busy or
      uncertain there. */
  lemma GuardedKeepsIntent(scope: Scope, w: World, e: Event)
    requires Inv(scope, w) && Informed(w.local, w.mounted) && Admissible(w, e) && Guarded(scope, w, e)
    ensures !Overwrites(scope, w, e)
  {
  }

  lemma SettleKeepsInformed(scope: Scope, l: Local, mounted: bool, version: nat, reply: Option<Operation>, writable: bool)
    requires ClientOk(l) && Informed(l, mounted) && version in l.client.flights
    ensures Informed(Settle(scope, l, version, reply, writable), mounted)
  {
  }

  lemma RestoreKeepsInformed(scope: Scope, l: Local, mounted: bool, readable: bool)
    requires ClientOk(l) && Informed(l, mounted)
    requires HoldsIntent(l.storage) ==> InScope(scope, l.storage.value.input.templateId, l.storage.value.input.workspaceId)
    ensures Informed(Restore(scope, l, readable), true)
  {
    RecallAgrees(scope, l.storage);
  }

  lemma StartKeepsInformed(scope: Scope, l: Local, mounted: bool, input: Intent, writable: bool)
    requires ClientOk(l) && Informed(l, mounted) && (writable && Accepts(scope, l, input) ==> Readable(SavedIntent(input)))
    ensures Informed(Start(scope, l, input, writable), mounted)
  {
  }

  lemma SelectKeepsInformed(scope: Scope, l: Local, mounted: bool, op: Operation, writable: bool)
    requires ClientOk(l) && Informed(l, mounted)
    ensures Informed(Select(scope, l, op, writable), mounted)
  {
  }

  lemma NewInstanceKeepsInformed(l: Local, mounted: bool, writable: bool)
    requires ClientOk(l) && Informed(l, mounted)
    ensures Informed(NewInstance(l, writable), mounted)
  {
  }

  lemma RefreshKeepsInformed(l: Local, mounted: bool)
    requires Informed(l, mounted)
    ensures Informed(Refresh(l), mounted)
  {
  }

  /** Restore leaves a live client informed when storage is readable, and no other step takes that away. */
  lemma StepKeepsInformed(scope: Scope, l: Local, mounted: bool, e: Event)
    requires ClientOk(l) && Informed(l, mounted)
    requires HoldsIntent(l.storage) ==> InScope(scope, l.storage.value.input.templateId, l.storage.value.input.workspaceId)
    requires e.DoStart? && e.writable && Accepts(scope, l, e.input) ==> Readable(SavedIntent(e.input))
    requires !e.DieInStart? && !e.Reload?
    ensures Informed(LocalNext(scope, l, e), mounted || e.DoRestore?)
  {
    match e
    case DoRestore(readable) => RestoreKeepsInformed(scope, l, mounted, readable);
    case DoStart(input, writable) => StartKeepsInformed(scope, l, mounted, input, writable);
    case DoRefresh => RefreshKeepsInformed(l, mounted);
    case DoSelect(op, writable) => SelectKeepsInformed(scope, l, mounted, op, writable);
    case DoRetry =>
    case DoNewInstance(writable) => NewInstanceKeepsInformed(l, mounted, writable);
    case DoDispose =>
    case DoAlarm(handle) => RefreshKeepsInformed(l.(client := l.client.(alarms := l.client.alarms - {handle})), mounted);
    case DoPage(_, _, _) =>
    case DoReply(version, reply, writable) =>
      if version in l.client.flights {
        SettleKeepsInformed(scope, l, mounted, version, reply, writable);
      }
    case Serve(_, _) =>
  }

  lemma GuardedStep(scope: Scope, w: World, e: Event)
    requires Inv(scope, w) && Informed(w.local, w.mounted) && Guarded(scope, w, e)
    ensures Informed(Next(scope, w, e).local, Next(scope, w, e).mounted)
  {
    match e
    case DieInStart(input) => StartKeepsInformed(scope, w.local, w.mounted, input, true);
    case Reload =>
    case _ => StepKeepsInformed(scope, w.local, w.mounted, e);
  }

  ghost predicate AllGuarded(scope: Scope, w: World, es: seq<Event>)
    decreases |es|
  {
    es == [] || (Guarded(scope, w, es[0]) && AllGuarded(scope, Next(scope, w, es[0]), es[1..]))
  }

  lemma {:induction false} GuardedRunsKeepIntents(scope: Scope, w: World, es: seq<Event>)
    requires Inv(scope, w) && Informed(w.local, w.mounted) && Admitted(scope, w, es) && AllGuarded(scope, w, es)
    ensures NeverOverwrites(scope, w, es) && Informed(Run(scope, w, es).local, Run(scope, w, es).mounted)
    decreases |es|
  {
    if es != [] {
      NextKeepsInv(scope, w, es[0]);
      GuardedStep(scope, w, es[0]);
      GuardedKeepsIntent(scope, w, es[0]);
      GuardedRunsKeepIntents(scope, Next(scope, w, es[0]), es[1..]);
    }
  }

  /** If each start that is stored is of a readable intent and finds no intent in storage, then at every
      time at most one key is unacknowledged, storage holds its intent, and a live restored client that
      does not show it is uncertain. */
  lemma NoDuplicateInstallation(scope: Scope, es: seq<Event>)
    requires Admitted(scope, INITIAL, es) && AllGuarded(scope, INITIAL, es)
    ensures var w := Run(scope, INITIAL, es);
            && (forall j, k | j in w.started.Keys - w.acked && k in w.started.Keys - w.acked :: j == k)
            && (forall k <- w.started.Keys - w.acked :: w.local.storage == Some(SavedIntent(w.started[k])))
            && (w.started.Keys - w.acked != {} && w.mounted && !w.local.client.disposed ==>
                  w.local.client.busy || w.local.client.uncertain)
  {
    RunKeepsInv(scope, INITIAL, es);
    GuardedRunsKeepIntents(scope, INITIAL, es);
    RunLosesExactly(scope, INITIAL, es);
    var w := Run(scope, INITIAL, es);
    assert NothingLost(w);
    forall k <- w.started.Keys - w.acked
      ensures w.local.storage == Some(SavedIntent(w.started[k])) && w.started[k].key == k
    {
      assert k in w.started;
    }
  }

  /** A page that reloads with a readable intent in storage sends that very intent again, key included. */
  lemma ReloadReplaysIntent(scope: Scope, w: World)
    requires Inv(scope, w) && HoldsIntent(w.local.storage) && Readable(w.local.storage.value)
    ensures var w' := Next(scope, Next(scope, w, Reload), DoRestore(true));
            && w'.local.client.busy
            && w'.local.client.flights[w'.local.client.generation] == Create(w.local.storage.value.input)
            && w'.started == w.started
  {
  }

  lemma SettleClearsBusy(scope: Scope, l: Local, version: nat, reply: Option<Operation>, writable: bool)
    requires ClientOk(l) && l.client.busy && !l.client.disposed && version in l.client.flights
    ensures var c := Settle(scope, l, version, reply, writable).client; c.generation == l.client.generation && !c.busy
  {
  }

  /** The generation does not move while a request is awaited, unless the client is disposed; so its
      reply, whatever it is, is not taken for a stale one and busy is cleared. */
  lemma BusyIsCleared(scope: Scope, l: Local, e: Event)
    requires ClientOk(l) && l.client.busy && !l.client.disposed
    ensures var c, c' := l.client, LocalNext(scope, l, e).client;
            && (!e.DoDispose? && !e.Reload? && !e.DieInStart? ==> c'.generation == c.generation)
            && (e.DoReply? && e.version in c.flights ==> !c'.busy)
  {
    if e.DoReply? && e.version in l.client.flights {
      SettleClearsBusy(scope, l, e.version, e.reply, e.writable);
    }
  }

  /** A disposed client never writes its storage entry and never asks the server to install, fetch or
      retry anything. */
  lemma DisposedIsSilent(scope: Scope, l: Local, e: Event)
    requires l.client.disposed && !e.Reload? && !e.DieInStart?
    ensures var l' := LocalNext(scope, l, e);
            && l'.client.disposed && l'.storage == l.storage
            && NewCreates(l.client.flights, l'.client.flights) == {}
            && forall v <- l'.client.flights :: v in l.client.flights && l'.client.flights[v] == l.client.flights[v]
  {
    StepSendsOnce(scope, l, e);
    DisposedStays(scope, l, e);
  }

  lemma DisposedStays(scope: Scope, l: Local, e: Event)
    requires l.client.disposed && !e.Reload? && !e.DieInStart?
    ensures LocalNext(scope, l, e).client.disposed && LocalNext(scope, l, e).storage == l.storage
  {
  }

  /** The request under the current generation. */
  predicate Asks(c: Client, request: Request) {
    c.generation in c.flights && c.flights[c.generation] == request
  }

  /** What every call keeps to: the client stays consistent, a new create is in storage, a disposed client
      is silent, and an intent in memory is replaced only by the operation that answers its create. */
  ghost predicate Disciplined(l: Local, l': Local) {
    && ClientOk(l')
    && (forall i <- NewCreates(l.client.flights, l'.client.flights) :: l'.storage == Some(SavedIntent(i)))
    && (l.client.disposed ==>
          && l'.client.disposed && l'.storage == l.storage
          && forall v <- l'.client.flights :: v in l.client.flights && l'.client.flights[v] == l.client.flights[v])
    && (HoldsIntent(l.client.saved) && l'.storage != l.storage ==>
          && l.client.busy && Asks(l.client, Create(l.client.saved.value.input))
          && l'.storage.Some? && l'.storage.value.SavedOperation?)
  }

  lemma StepIsDisciplined(scope: Scope, l: Local, e: Event)
    requires ClientOk(l) && !e.Reload? && !e.DieInStart?
    ensures Disciplined(l, LocalNext(scope, l, e))
  {
    StepKeepsClient(scope, l, e);
    CreatesAreStored(scope, l, e);
    if l.client.disposed {
      DisposedIsSilent(scope, l, e);
    } else {
      SavedIntentIsKept(scope, l, e);
    }
  }

  lemma SavedIntentIsKept(scope: Scope, l: Local, e: Event)
    requires ClientOk(l) && !l.client.disposed && !e.Reload? && !e.DieInStart?
    ensures var l' := LocalNext(scope, l, e);
            HoldsIntent(l.client.saved) && l'.storage != l.storage ==>
              && l.client.busy && Asks(l.client, Create(l.client.saved.value.input))
              && l'.storage.Some? && l'.storage.value.SavedOperation?
  {
  }

  // What each call leaves, in every case

  /** The operation in front, then the entries of other ids; see OthersMeans. */
  predicate PutFirst(op: Operation, history: seq<Operation>, after: seq<Operation>) {
    after == [op] + Others(history, op.id)
  }

  /** A request has gone out under a new generation, the timer is stopped, and nothing else changed. */
  predicate Asked(c: Client, request: Request, c': Client) {
    c' == c.(busy := true, error := NoProblem, generation := c.generation + 1, alarms := {},
             flights := map[c.generation + 1 := request])
  }

  /** A reply that is stale, or comes to a disposed client, is dropped. One that can be stored is displayed,
      saved, put first in history, and polled again exactly if it is running; any other leaves all that
      and says why. */
  ghost predicate ReplyOutcome(scope: Scope, l: Local, version: nat, reply: Option<Operation>, writable: bool, l': Local) {
    var c, c' := l.client, l'.client;
    if c.disposed || version != c.generation then l' == l.(client := c.(flights := c.flights - {version}))
    else if reply.Some? && reply.value.workspaceId == scope.workspaceId && reply.value.templateId == scope.templateId && writable then
      var op := reply.value;
      && l'.storage == c'.saved == Some(SavedOperation(op.id)) && c'.operation == Some(op)
      && !c'.busy && !c'.uncertain && c'.error == NoProblem && c'.flights == map[]
      && PutFirst(op, c.history, c'.history)
      && (op.status.Running? <==> c'.alarms != {})
      && (op.status.Running? ==> c'.alarms == {c'.timer} && c'.timer == c.timer + 1)
    else
      && l' == Local(c.(busy := false, flights := map[], uncertain := c'.uncertain, error := c'.error), l.storage)
      && (c'.uncertain <==> c.saved.Some? && c.saved.value.SavedIntent?)
      && c'.error == if reply.None? then TransportFailed
                     else if reply.value.workspaceId == scope.workspaceId && reply.value.templateId == scope.templateId then StorageFailed
                     else ScopeChanged
  }

  lemma AcceptedReply(scope: Scope, l: Local, version: nat, op: Operation)
    requires ClientOk(l) && version in l.client.flights && !l.client.disposed && version == l.client.generation
    requires InScope(scope, op.templateId, op.workspaceId)
    ensures ReplyOutcome(scope, l, version, Some(op), true, Settle(scope, l, version, Some(op), true))
  {
    assert l.client.flights - {version} == map[];
  }

  lemma OtherReply(scope: Scope, l: Local, version: nat, reply: Option<Operation>, writable: bool)
    requires ClientOk(l) && version in l.client.flights
    requires l.client.disposed || version != l.client.generation || reply.None? || !writable
             || !InScope(scope, reply.value.templateId, reply.value.workspaceId)
    ensures ReplyOutcome(scope, l, version, reply, writable, Settle(scope, l, version, reply, writable))
  {
    if !l.client.disposed && version == l.client.generation {
      assert l.client.flights - {version} == map[];
    }
  }

  lemma ReplyMeans(scope: Scope, l: Local, version: nat, reply: Option<Operation>, writable: bool)
    requires ClientOk(l) && version in l.client.flights
    ensures var l' := Settle(scope, l, version, reply, writable);
            Disciplined(l, l') && ReplyOutcome(scope, l, version, reply, writable, l')
  {
    StepIsDisciplined(scope, l, DoReply(version, reply, writable));
    if l.client.disposed || version != l.client.generation || reply.None? || !writable
       || !InScope(scope, reply.value.templateId, reply.value.workspaceId) {
      OtherReply(scope, l, version, reply, writable);
    } else {
      AcceptedReply(scope, l, version, reply.value);
    }
  }

  function Without(ids: seq<string>, id: string): seq<string> {
    if ids == [] then []
    else
      var front, last := Without(ids[..|ids| - 1], id), ids[|ids| - 1];
      if last == id then front else front + [last]
  }

  lemma {:induction false} OthersConcat(a: seq<Operation>, o: Operation, id: string)
    ensures Others(a + [o], id) == if o.id == id then Others(a, id) else Others(a, id) + [o]
  {
    if a == [] {
      assert a + [o] == [o];
    } else {
      var rest := a[1..];
      OthersConcat(rest, o, id);
      var all := a + [o];
      assert all[0] == a[0] && all[1..] == rest + [o];
      var first := if a[0].id != id then [a[0]] else [];
      assert Others(a, id) == first + Others(rest, id);
      assert Others(all, id) == first + Others(rest + [o], id);
    }
  }

  lemma {:induction false} OthersIds(history: seq<Operation>, id: string)
    ensures IdsOf(Others(history, id)) == Without(IdsOf(history), id)
  {
    if history != [] {
      var front, last := history[..|history| - 1], history[|history| - 1];
      OthersIds(front, id);
      OthersConcat(front, last, id);
      assert history == front + [last];
      assert IdsOf(history)[..|history| - 1] == IdsOf(front);
      var rest := Others(front, id);
      assert IdsOf(rest + [last]) == IdsOf(rest) + [last.id];
    }
  }

  lemma {:induction false} WithoutInOrder(ids: seq<string>, id: string)
    requires NoDuplicates(ids)
    ensures InOrderOf(ids, Without(ids, id))
  {
    if ids != [] {
      var front, last := ids[..|ids| - 1], ids[|ids| - 1];
      WithoutInOrder(front, id);
      NewAtEnd(ids);
      InOrderStep(front, Without(front, id), last);
      assert ids == front + [last];
    }
  }

  lemma NewAtEnd(ids: seq<string>)
    requires ids != [] && NoDuplicates(ids)
    ensures FirstPlace(ids[..|ids| - 1], ids[|ids| - 1]) == |ids| - 1
  {
    var front := ids[..|ids| - 1];
    assert forall i | 0 <= i < |front| :: front[i] == ids[i];
  }

  lemma OthersInOrder(history: seq<Operation>, id: string)
    requires UniqueIds(history)
    ensures InOrderOf(IdsOf(history), IdsOf(Others(history, id)))
  {
    OthersIds(history, id);
    WithoutInOrder(IdsOf(history), id);
  }

  /** The entries of other ids, each once, in their order. */
  lemma OthersMeans(history: seq<Operation>, id: string)
    requires UniqueIds(history)
    ensures UniqueIds(Others(history, id)) && InOrderOf(IdsOf(history), IdsOf(Others(history, id)))
    ensures forall o :: o in Others(history, id) <==> o in history && o.id != id
  {
    OthersUnique(history, id);
    OthersInOrder(history, id);
  }

  /** A live idle client asks for what it has saved; any other does nothing. */
  predicate RefreshOutcome(l: Local, l': Local) {
    var c := l.client;
    if c.busy || c.disposed || c.saved.None? then l' == l
    else
      && l'.storage == l.storage
      && match c.saved.value
         case SavedOperation(id) => Asked(c, Fetch(id), l'.client)
         case SavedIntent(input) => Asked(c, Create(input), l'.client)
  }

  lemma RefreshMeans(l: Local)
    requires ClientOk(l.(client := l.client.(uncertain := true)))
    ensures RefreshOutcome(l, Refresh(l))
  {
    if !l.client.busy && !l.client.disposed {
      assert l.client.flights == map[];
      assert l.client.flights[l.client.generation + 1 := Fetch("")] == map[l.client.generation + 1 := Fetch("")];
    }
  }

  /** A read that fails is shown and makes the client uncertain. Otherwise what storage holds is taken, if
      it can be read back and is not another scope's intent, and asked for. */
  ghost predicate RestoreOutcome(scope: Scope, l: Local, readable: bool, l': Local) {
    var c := l.client;
    if !readable then
      l' == if c.disposed then l else l.(client := c.(error := StorageFailed, uncertain := true))
    else
      var mine := l.storage.Some? && Readable(l.storage.value)
                  && (l.storage.value.SavedIntent? ==>
                        && l.storage.value.input.workspaceId == scope.workspaceId
                        && l.storage.value.input.templateId == scope.templateId);
      RefreshOutcome(l.(client := c.(saved := if mine then l.storage else None)), l')
  }

  lemma RestoreMeans(scope: Scope, l: Local, readable: bool)
    requires ClientOk(l)
    ensures Disciplined(l, Restore(scope, l, readable)) && RestoreOutcome(scope, l, readable, Restore(scope, l, readable))
  {
    StepIsDisciplined(scope, l, DoRestore(readable));
    RecallAgrees(scope, l.storage);
    if readable {
      RefreshMeans(l.(client := l.client.(saved := Recall(scope, l.storage))));
    }
  }

  /** Ignored while busy, disposed or with something saved. A failure is shown and changes nothing else;
      otherwise the intent is in storage and in memory, and asked for. */
  ghost predicate StartOutcome(scope: Scope, l: Local, input: Intent, writable: bool, l': Local) {
    var c := l.client;
    if c.busy || c.saved.Some? || c.disposed then l' == l
    else if input.workspaceId != scope.workspaceId || input.templateId != scope.templateId then
      l' == l.(client := c.(error := ScopeChanged))
    else if !writable then l' == l.(client := c.(error := StorageFailed))
    else
      && l'.storage == Some(SavedIntent(input))
      && Asked(c.(saved := Some(SavedIntent(input))), Create(input), l'.client)
  }

  lemma StartMeans(scope: Scope, l: Local, input: Intent, writable: bool)
    requires ClientOk(l)
    ensures var l' := Start(scope, l, input, writable); Disciplined(l, l') && StartOutcome(scope, l, input, writable, l')
  {
    StepIsDisciplined(scope, l, DoStart(input, writable));
    if !l.client.busy && !l.client.disposed {
      assert l.client.flights == map[];
      assert map[][l.client.generation + 1 := Create(input)] == map[l.client.generation + 1 := Create(input)];
    }
  }

  /** Ignored while busy, uncertain or disposed. An operation that cannot be stored only stops the timer;
      any other is displayed, saved, put first in history and fetched. */
  ghost predicate SelectOutcome(scope: Scope, l: Local, op: Operation, writable: bool, l': Local) {
    var c, c' := l.client, l'.client;
    if c.busy || c.uncertain || c.disposed then l' == l
    else if op.workspaceId != scope.workspaceId || op.templateId != scope.templateId || !writable then
      l' == l.(client := c.(generation := c.generation + 1, alarms := {}))
    else
      && l'.storage == c'.saved == Some(SavedOperation(op.id)) && c'.operation == Some(op)
      && c'.busy && !c'.uncertain && c'.error == NoProblem && c'.alarms == {}
      && c'.flights == map[c'.generation := Fetch(op.id)] && c'.generation > c.generation
      && PutFirst(op, c.history, c'.history)
  }

  lemma SelectMeans(scope: Scope, l: Local, op: Operation, writable: bool)
    requires ClientOk(l)
    ensures var l' := Select(scope, l, op, writable); Disciplined(l, l') && SelectOutcome(scope, l, op, writable, l')
  {
    StepIsDisciplined(scope, l, DoSelect(op, writable));
    if !l.client.busy && !l.client.uncertain && !l.client.disposed {
      var stopped := l.(client := Stop(l.client));
      assert l.client.flights == map[] && stopped.client.alarms == {};
      AcceptKeepsClient(scope, stopped, op, writable);
      RefreshMeans(Accept(scope, stopped, op, writable).0);
    }
  }

  /** The displayed operation is retried exactly if it is retryable and the client is live and idle. */
  predicate RetryOutcome(l: Local, l': Local) {
    var c := l.client;
    if c.operation.Some? && c.operation.value.retryable && !c.busy && !c.disposed then
      l'.storage == l.storage && Asked(c, Retry(c.operation.value.id), l'.client)
    else l' == l
  }

  lemma RetryMeans(l: Local)
    requires ClientOk(l)
    ensures Disciplined(l, RetryOperation(l)) && RetryOutcome(l, RetryOperation(l))
  {
    StepIsDisciplined(Scope("", ""), l, DoRetry);
    if !l.client.busy && !l.client.disposed {
      assert l.client.flights == map[];
      assert map[][l.client.generation + 1 := Fetch("")] == map[l.client.generation + 1 := Fetch("")];
    }
  }

  /** Ignored while busy, uncertain, disposed or displaying a running operation; otherwise storage, memory
      and display are cleared, or all kept when storage cannot be. */
  predicate NewInstanceOutcome(l: Local, writable: bool, l': Local) {
    var c := l.client;
    if c.busy || c.uncertain || c.disposed || (c.operation.Some? && c.operation.value.status == Running) then l' == l
    else
      var stopped := c.(generation := c.generation + 1, alarms := {});
      l' == if writable then Local(stopped.(saved := None, operation := None, error := NoProblem), None)
            else Local(stopped.(error := StorageFailed), l.storage)
  }

  lemma NewInstanceMeans(l: Local, writable: bool)
    requires ClientOk(l)
    ensures Disciplined(l, NewInstance(l, writable)) && NewInstanceOutcome(l, writable, NewInstance(l, writable))
  {
    StepIsDisciplined(Scope("", ""), l, DoNewInstance(writable));
    assert l.client.alarms - {l.client.timer} == {};
  }

  lemma DisposeMeans(l: Local)
    requires ClientOk(l)
    ensures Disciplined(l, Dispose(l))
    ensures Dispose(l) == l.(client := l.client.(disposed := true, generation := l.client.generation + 1, alarms := {}))
  {
    StepIsDisciplined(Scope("", ""), l, DoDispose);
    assert l.client.alarms - {l.client.timer} == {};
  }

  /** A timer that ticks asks for the displayed operation; one that does not has no effect. */
  predicate AlarmOutcome(l: Local, handle: nat, l': Local) {
    if handle !in l.client.alarms then l' == l
    else
      && l.client.operation.Some? && l'.storage == l.storage
      && Asked(l.client, Fetch(l.client.operation.value.id), l'.client)
  }

  lemma AlarmMeans(l: Local, handle: nat)
    requires ClientOk(l)
    ensures Disciplined(l, Alarm(l, handle)) && AlarmOutcome(l, handle, Alarm(l, handle))
  {
    StepIsDisciplined(Scope("", ""), l, DoAlarm(handle));
    if handle in l.client.alarms {
      var rung := l.(client := l.client.(alarms := l.client.alarms - {handle}));
      assert rung.client.alarms == {};
      RefreshMeans(rung);
    }
  }

  /** A page that is stale or comes to a disposed client is dropped, and a failure is shown. Otherwise the
      offset moves on by the size of the page, and history is what it was, or nothing, and the page's items
      of the template, one entry an id; see DistinctUnique and DistinctPlaces. */
  ghost predicate PageOutcome(scope: Scope, c: Client, version: nat, more: bool, page: Option<Page>, c': Client) {
    if c.disposed || version != c.generation then c' == c
    else if page.None? then c' == c.(error := TransportFailed)
    else
      var listed := (if more then c.history else []) + OfTemplate(scope, page.value.items);
      && c' == c.(offset := c'.offset, hasMore := c'.hasMore, history := c'.history)
      && c'.offset == (if more then c.offset else 0) + |page.value.items|
      && (c'.hasMore <==> c'.offset < page.value.total)
      && c'.history == Distinct(listed)
  }

  /** The items of the template, in their order. */
  lemma {:induction false} OfTemplateMeans(scope: Scope, a: seq<Operation>, b: seq<Operation>, o: Operation)
    ensures OfTemplate(scope, a + b) == OfTemplate(scope, a) + OfTemplate(scope, b)
    ensures OfTemplate(scope, [o]) == if o.templateId == scope.templateId then [o] else []
  {
    if a == [] {
      assert a + b == b;
    } else {
      assert (a + b)[1..] == a[1..] + b;
      OfTemplateMeans(scope, a[1..], b, o);
    }
  }

  lemma PageMeans(scope: Scope, l: Local, version: nat, more: bool, page: Option<Page>)
    requires ClientOk(l)
    ensures var l' := l.(client := ShowPage(scope, l.client, version, more, page));
            Disciplined(l, l') && PageOutcome(scope, l.client, version, more, page, l'.client)
  {
    StepIsDisciplined(scope, l, DoPage(version, more, page));
    if page.Some? {
      var items := OfTemplate(scope, page.value.items);
      assert [] + items == items;
    }
  }

  /** A poll that has been set is not lost: a live timer ticks on until it fires, or until the client is
      stopped by a request, a selection, a new instance, disposal or a reload. */
  lemma TimerTicksOn(scope: Scope, l: Local, e: Event)
    requires ClientOk(l) && l.client.alarms != {}
    ensures var c, c' := l.client, LocalNext(scope, l, e).client;
            c'.alarms == c.alarms || c'.generation != c.generation || e.Reload? || e.DieInStart?
  {
    var handle :| handle in l.client.alarms;
    if e.DoAlarm? && e.handle in l.client.alarms {
      AlarmMeans(l, e.handle);
    }
  }

  // ---------------------------------------------------------------------------------------------
  // Where start needs its caller
  // ---------------------------------------------------------------------------------------------

  /** Unlike select and newInstance, start does not look at the uncertain flag. Of an informed client it
      loses an intent exactly when it is accepted while storage holds one, and the flag is up then. */
  lemma StartLosesIntentExactly(scope: Scope, w: World, input: Intent)
    requires Inv(scope, w) && Informed(w.local, w.mounted) && NothingLost(w) && Admissible(w, DoStart(input, true))
    ensures var w' := Next(scope, w, DoStart(input, true));
            && (!NothingLost(w') <==> Accepts(scope, w.local, input) && HoldsIntent(w.local.storage))
            && (!NothingLost(w') ==> w.local.client.uncertain)
  {
    StepLosesExactly(scope, w, DoStart(input, true));
  }

  /** A started intent survives a reload exactly when readSaved accepts its model choice. */
  lemma ReloadKeepsIntentExactly(scope: Scope, w: World, input: Intent)
    requires Accepts(scope, w.local, input)
    ensures var started := Next(scope, w, DoStart(input, true));
            var w' := Next(scope, Next(scope, started, Reload), DoRestore(true));
            && (w'.local.client.saved == Some(SavedIntent(input)) <==> Readable(SavedIntent(input)))
            && (!Readable(SavedIntent(input)) ==> w'.local.client == FRESH)
  {
  }

  /** A run in which the second start is made while uncertain, after a read that failed: two keys, two
      creates sent, neither acknowledged. */
  lemma UncertainStartDuplicates(scope: Scope, a: Intent, b: Intent)
    requires a.key != b.key && Readable(SavedIntent(a)) && Readable(SavedIntent(b))
    requires InScope(scope, a.templateId, a.workspaceId) && InScope(scope, b.templateId, b.workspaceId)
    ensures var w1 := Next(scope, Next(scope, INITIAL, DoRestore(true)), DoStart(a, true));
            var w2 := Next(scope, Next(scope, w1, Reload), DoRestore(false));
            var w3 := Next(scope, w2, DoStart(b, true));
            && Admissible(w2, DoStart(b, true)) && w2.local.client.uncertain
            && w3.sent == {a, b} && w3.started.Keys == {a.key, b.key} && w3.acked == {}
  {
    var w0 := Next(scope, INITIAL, DoRestore(true));
    FirstStart(scope, w0, a);
    var w1 := Next(scope, w0, DoStart(a, true));
    var w2 := Next(scope, Next(scope, w1, Reload), DoRestore(false));
    assert NewCreates(map[], w2.local.client.flights) == {};
    FirstStart(scope, w2, b);
  }

  /** The same without any failure, when the first intent names another model type than "llm": after
      the reload the client is not even uncertain. */
  lemma UnreadableIntentDuplicates(scope: Scope, a: Intent, b: Intent)
    requires a.key != b.key && !Readable(SavedIntent(a))
    requires InScope(scope, a.templateId, a.workspaceId) && InScope(scope, b.templateId, b.workspaceId)
    ensures var w1 := Next(scope, Next(scope, INITIAL, DoRestore(true)), DoStart(a, true));
            var w2 := Next(scope, Next(scope, w1, Reload), DoRestore(true));
            var w3 := Next(scope, w2, DoStart(b, true));
            && Admissible(w2, DoStart(b, true)) && !w2.local.client.uncertain
            && w3.sent == {a, b} && w3.started.Keys == {a.key, b.key} && w3.acked == {}
  {
    var w0 := Next(scope, INITIAL, DoRestore(true));
    FirstStart(scope, w0, a);
    var w1 := Next(scope, w0, DoStart(a, true));
    var w2 := Next(scope, Next(scope, w1, Reload), DoRestore(true));
    assert NewCreates(map[], w2.local.client.flights) == {};
    FirstStart(scope, w2, b);
  }

  lemma FirstStart(scope: Scope, w: World, input: Intent)
    requires Accepts(scope, w.local, input) && w.local.client.flights == map[]
    ensures var w' := Next(scope, w, DoStart(input, true));
            && w'.sent == w.sent + {input} && w'.started == w.started[input.key := input] && w'.acked == w.acked
            && w'.local.storage == Some(SavedIntent(input))
  {
    var flights := Start(scope, w.local, input, true).client.flights;
    var v := w.local.client.generation + 1;
    assert flights == map[v := Create(input)];
    assert v in flights && v !in w.local.client.flights && flights[v].Create?;
    assert NewCreates(map[], flights) == {input};
  }

  // ---------------------------------------------------------------------------------------------
  // The client as written
  // ---------------------------------------------------------------------------------------------

  class Storage {
    var entry: Option<Saved>

    constructor ()
      ensures entry == None
    {
      entry := None;
    }
  }

  /** The closure of createInstallationClient. A method that awaits ends at the await and leaves its
      continuation in flights; Reply is that continuation. */
  class Installation {
    const storage: Storage
    const scope: Scope
    var operation: Option<Operation>
    var history: seq<Operation>
    var hasMore: bool
    var busy: bool
    var uncertain: bool
    var error: Problem
    var saved: Option<Saved>
    var disposed: bool
    var generation: nat
    var offset: nat
    var flights: map<nat, Request>
    var timer: nat
    var alarms: set<nat>

    constructor (storage: Storage, scope: Scope)
      ensures this.storage == storage && this.scope == scope
      ensures View() == Local(FRESH, storage.entry)
    {
      this.storage, this.scope := storage, scope;
      operation, history, hasMore, busy, uncertain, error := None, [], false, false, false, NoProblem;
      saved, disposed, generation, offset := None, false, 0, 0;
      flights, timer, alarms := map[], 0, {};
    }

    ghost function View(): Local
      reads this, storage
    {
      Local(Client(operation, history, hasMore, busy, uncertain, error, saved, disposed, generation, offset,
                         flights, timer, alarms), storage.entry)
    }

    method StopPolling()
      modifies this
      ensures View() == old(View()).(client := Stop(old(View()).client))
    {
      alarms := alarms - {timer};
      generation := generation + 1;
    }

    method PersistValue(value: Saved)
      modifies this, storage
      ensures View() == Persist(old(View()), value)
    {
      storage.entry := Some(value);
      saved := Some(value);
    }

    method AcceptOperation(op: Operation, writable: bool) returns (problem: Problem)
      modifies this, storage
      ensures (View(), problem) == Accept(scope, old(View()), op, writable)
    {
      if op.workspaceId != scope.workspaceId || op.templateId != scope.templateId {
        return ScopeChanged;
      }
      if !writable {
        return StorageFailed;
      }
      PersistValue(SavedOperation(op.id));
      if !disposed {
        operation, uncertain, error := Some(op), false, NoProblem;
        history := [op] + Others(history, op.id);
      }
      if op.status == Running {
        timer := timer + 1;
        alarms := alarms + {timer};
      }
      problem := NoProblem;
    }

    method SendRequest(request: Request)
      modifies this
      ensures View() == Send(old(View()), request)
    {
      if busy || disposed {
        return;
      }
      StopPolling();
      busy, error := true, NoProblem;
      flights := flights[generation := request];
    }

    method Reply(version: nat, reply: Option<Operation>, writable: bool)
      requires version in flights
      requires ClientOk(View())
      modifies this, storage
      ensures View() == Settle(scope, old(View()), version, reply, writable)
      ensures Disciplined(old(View()), View())
      ensures ReplyOutcome(scope, old(View()), version, reply, writable, View())
    {
      ghost var was := View();
      ReplyMeans(scope, was, version, reply, writable);
      flights := flights - {version};
      if disposed || version != generation {
        return;
      }
      var problem := TransportFailed;
      if reply.Some? {
        problem := AcceptOperation(reply.value, writable);
      }
      EndRequest(problem);
    }

    method EndRequest(problem: Problem)
      modifies this
      ensures View() == old(View()).(client := Conclude(old(View().client), problem))
    {
      if problem != NoProblem {
        error := problem;
        uncertain := saved.Some? && saved.value.SavedIntent?;
      }
      busy := false;
    }

    method RefreshSaved()
      modifies this
      ensures View() == Refresh(old(View()))
      ensures old(ClientOk(View())) ==> Disciplined(old(View()), View()) && RefreshOutcome(old(View()), View())
    {
      ghost var was := View();
      if ClientOk(was) {
        StepIsDisciplined(scope, was, DoRefresh);
        RefreshMeans(was);
      }
      if saved.Some? {
        match saved.value
        case SavedOperation(id) => SendRequest(Fetch(id));
        case SavedIntent(input) => SendRequest(Create(input));
      }
    }

    method RestoreSaved(readable: bool)
      requires ClientOk(View())
      modifies this
      ensures View() == Restore(scope, old(View()), readable)
      ensures Disciplined(old(View()), View())
      ensures RestoreOutcome(scope, old(View()), readable, View())
    {
      ghost var was := View();
      RestoreMeans(scope, was, readable);
      if !readable {
        if !disposed {
          error, uncertain := StorageFailed, true;
        }
        return;
      }
      RecallSaved();
      RefreshSaved();
    }

    method RecallSaved()
      modifies this
      ensures View() == old(View()).(client := old(View().client).(saved := Recall(scope, storage.entry)))
    {
      saved := None;
      if storage.entry.Some? {
        ReadSavedInvertsPersist(storage.entry.value);
        saved := ReadSaved(Encode(storage.entry.value));
      }
      if saved.Some? && saved.value.SavedIntent? {
        var input := saved.value.input;
        if input.workspaceId != scope.workspaceId || input.templateId != scope.templateId {
          saved := None;
        }
      }
    }

    method StartInstallation(input: Intent, writable: bool)
      requires ClientOk(View())
      modifies this, storage
      ensures View() == Start(scope, old(View()), input, writable)
      ensures Disciplined(old(View()), View())
      ensures StartOutcome(scope, old(View()), input, writable, View())
    {
      ghost var was := View();
      StartMeans(scope, was, input, writable);
      if busy || saved.Some? || disposed {
        return;
      }
      if input.workspaceId != scope.workspaceId || input.templateId != scope.templateId {
        error := ScopeChanged;
        return;
      }
      if !writable {
        error := StorageFailed;
        return;
      }
      PersistValue(SavedIntent(input));
      RefreshSaved();
    }

    method SelectOperation(op: Operation, writable: bool)
      requires ClientOk(View())
      modifies this, storage
      ensures View() == Select(scope, old(View()), op, writable)
      ensures Disciplined(old(View()), View())
      ensures SelectOutcome(scope, old(View()), op, writable, View())
    {
      ghost var was := View();
      SelectMeans(scope, was, op, writable);
      if busy || uncertain || disposed {
        return;
      }
      StopPolling();
      var problem := AcceptOperation(op, writable);
      if problem == NoProblem {
        RefreshSaved();
      }
    }

    method RetryFailed()
      requires ClientOk(View())
      modifies this
      ensures View() == RetryOperation(old(View()))
      ensures Disciplined(old(View()), View())
      ensures RetryOutcome(old(View()), View())
    {
      ghost var was := View();
      RetryMeans(was);
      if operation.Some? && operation.value.retryable {
        SendRequest(Retry(operation.value.id));
      }
    }

    method StartOver(writable: bool)
      requires ClientOk(View())
      modifies this, storage
      ensures View() == NewInstance(old(View()), writable)
      ensures Disciplined(old(View()), View())
      ensures NewInstanceOutcome(old(View()), writable, View())
    {
      ghost var was := View();
      NewInstanceMeans(was, writable);
      if busy || uncertain || (operation.Some? && operation.value.status == Running) || disposed {
        return;
      }
      StopPolling();
      if !writable {
        error := StorageFailed;
        return;
      }
      storage.entry := None;
      saved, operation, error := None, None, NoProblem;
    }

    method DisposeClient()
      requires ClientOk(View())
      modifies this
      ensures View() == Dispose(old(View()))
      ensures Disciplined(old(View()), View())
      ensures disposed && alarms == {} && storage.entry == old(storage.entry) && flights == old(flights)
    {
      ghost var was := View();
      DisposeMeans(was);
      disposed := true;
      StopPolling();
    }

    method FireTimer(handle: nat)
      requires ClientOk(View())
      modifies this
      ensures View() == Alarm(old(View()), handle)
      ensures Disciplined(old(View()), View())
      ensures AlarmOutcome(old(View()), handle, View())
    {
      ghost var was := View();
      AlarmMeans(was, handle);
      if handle in alarms {
        alarms := alarms - {handle};
        RefreshSaved();
      }
    }

    method ShowHistory(version: nat, more: bool, page: Option<Page>)
      requires ClientOk(View())
      modifies this
      ensures View() == old(View()).(client := ShowPage(scope, old(View()).client, version, more, page))
      ensures Disciplined(old(View()), View())
      ensures PageOutcome(scope, old(View()).client, version, more, page, View().client) && storage.entry == old(storage.entry)
    {
      ghost var was := View();
      PageMeans(scope, was, version, more, page);
      if disposed || version != generation {
        return;
      }
      if page.None? {
        error := TransportFailed;
        return;
      }
      offset := (if more then offset else 0) + |page.value.items|;
      var items := OfTemplate(scope, page.value.items);
      hasMore := offset < page.value.total;
      MergeHistory(if more then history + items else items);
    }

    method MergeHistory(items: seq<Operation>)
      modifies this`history
      ensures history == Distinct(items)
    {
      history := KeepLast(items);
    }
  }

  method KeepLast(items: seq<Operation>) returns (distinct: seq<Operation>)
    ensures distinct == Distinct(items)
    ensures UniqueIds(distinct) && InOrderOf(IdsOf(items), IdsOf(distinct))
    ensures forall i | 0 <= i < |items| :: (forall j | i < j < |items| :: items[j].id != items[i].id) ==> items[i] in distinct
  {
    distinct := [];
    for i := 0 to |items|
      invariant distinct == Distinct(items[..i])
    {
      assert items[..i + 1][..i] == items[..i];
      distinct := Insert(distinct, items[i]);
    }
    assert items[..|items|] == items;
    DistinctUnique(items);
    DistinctPlaces(items);
  }
}
