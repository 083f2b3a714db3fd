/**
 * The optimistic transaction protocol: any number of server processes, each with any number of
 * threads, sharing one versioned row per customer.  One step is one call into the mutex, one row
 * read, one limit decision, one conditional write, or one return.  Reads and writes may fail, and a
 * write whose reply was lost may still be carried out by the database at any later time, or never.
 *
 * `log`, `answers`, `calls`, `retries`, `landings` and `faults` are specification state: no step's
 * effect on rows, mutexes, threads or requests in flight depends on them.
 */
module TransactionProtocol {
  import opened Ledger

  datatype Thread = Thread(process: nat, index: nat)

  datatype Operation = Execute(transaction: Transaction) | Get

  datatype Outcome = NotFound | LimitExceeded(customer: Customer) | Success(customer: Customer)

  /** One request.  `number` and `begin` (the log length at invocation) identify it in the specification. */
  datatype Call = Call(number: nat, begin: nat, thread: Thread, id: int, operation: Operation)

  /** Where a thread stands inside `MariaDbExecuteTransaction` or `MariaDbGetCustomer`. */
  datatype Position =
    | Idle
    | Locking(call: Call)
    | Reading(call: Call)
    | Checking(call: Call, snapshot: Customer, version: int)
    | Writing(call: Call, updated: Customer, version: int)
    | Unlocking(call: Call, outcome: Outcome)
    | Fetching(call: Call)
    | Returning(call: Call, outcome: Outcome)

  datatype Row = Row(customer: Customer, version: int)

  /** A point at which a call takes effect. */
  datatype Entry = Entry(call: Call, outcome: Outcome)

  /** What became of a conditional write, as the thread sees it. */
  datatype Reply =
    | Counted   // the number of modified rows came back
    | Rejected  // an error code came back, and no row was changed
    | Lost      // the request went out and no reply came: the connection ended or the wait ran out
    | Unsent    // the request never went out whole

  /** A request sent whose reply nobody waits for any more. */
  datatype Flight = Flight(call: Call, updated: Customer, version: int)

  /** Why a call was answered without a confirmed point of effect. */
  datatype Fault = ReadFailed | WriteRejected | ReplyLost

  /** An answer given to the client, with the log length at that moment. */
  datatype Answered = Answered(call: Call, outcome: Outcome, end: nat)

  datatype State = State(
    rows: seq<Row>,
    mutexes: map<(nat, int), Thread>,
    threads: map<Thread, Position>,
    log: seq<Entry>,
    answers: seq<Answered>,
    calls: nat,
    inFlight: map<nat, Flight>,
    retries: map<(nat, int), nat>,
    landings: map<(nat, int), nat>,
    faults: map<nat, Fault>)

  /** `Land` is the database's: it carries out the request in flight of call `number`. */
  datatype Step =
    | Invoke(thread: Thread, id: int, operation: Operation)
    | Lock(thread: Thread)
    | Read(thread: Thread, found: bool)
    | Check(thread: Thread)
    | Write(thread: Thread, reply: Reply)
    | Unlock(thread: Thread)
    | Answer(thread: Thread)
    | Land(number: nat)

  const INITIAL_VERSION := 1

  function Initial(): State {
    State(seq(CUSTOMERS, k requires 0 <= k < CUSTOMERS => Row(Opened(INITIAL_LIMITS[k]), INITIAL_VERSION)),
          map[], map[], [], [], 0, map[], map[], map[], map[])
  }

  predicate Known(id: int) {
    1 <= id <= CUSTOMERS
  }

  function At(s: State, t: Thread): Position {
    if t in s.threads then s.threads[t] else Idle
  }

  /** Requests of this process for this customer that were carried out after their reply was lost. */
  function Landings(s: State, process: nat, key: int): nat {
    if (process, key) in s.landings then s.landings[(process, key)] else 0
  }

  function Retries(s: State, process: nat, key: int): nat {
    if (process, key) in s.retries then s.retries[(process, key)] else 0
  }

  function Mutex(call: Call): (nat, int) {
    (call.thread.process, call.id - 1)
  }

  predicate ShapeOk(s: State) {
    && |s.rows| == CUSTOMERS
    && (forall k :: 0 <= k < CUSTOMERS ==> WellFormed(s.rows[k].customer))
    && (forall t <- s.threads :: PositionShape(t, s.threads[t]))
    && (forall n <- s.inFlight :: FlightShape(s.inFlight[n]))
  }

  predicate PositionShape(t: Thread, p: Position) {
    match p
    case Idle => true
    case Locking(call) => Executes(t, call)
    case Reading(call) => Executes(t, call)
    case Checking(call, snapshot, _) => Executes(t, call) && WellFormed(snapshot)
    case Writing(call, updated, _) => Executes(t, call) && WellFormed(updated)
    case Unlocking(call, _) => Executes(t, call)
    case Fetching(call) => call.thread == t && Known(call.id) && call.operation.Get?
    case Returning(call, _) => call.thread == t
  }

  predicate FlightShape(f: Flight) {
    Known(f.call.id) && f.call.operation.Execute? && WellFormed(f.updated)
  }

  predicate Executes(t: Thread, call: Call) {
    call.thread == t && Known(call.id) && call.operation.Execute?
  }

  predicate Enabled(s: State, step: Step)
    requires ShapeOk(s)
  {
    match step
    case Invoke(t, _, _) => At(s, t).Idle?
    case Lock(t) => At(s, t).Locking? && Mutex(At(s, t).call) !in s.mutexes
    case Read(t, _) => At(s, t).Reading? || At(s, t).Fetching?
    case Check(t) => At(s, t).Checking?
    case Write(t, _) => At(s, t).Writing?
    case Unlock(t) => At(s, t).Unlocking?
    case Answer(t) => At(s, t).Returning?
    case Land(number) => number in s.inFlight
  }

  /** The effect of one step. */
  function Take(s: State, step: Step): State
    requires ShapeOk(s) && Enabled(s, step)
  {
    match step
    case Invoke(t, id, operation) => TakeInvoke(s, t, id, operation)
    case Lock(t) =>
      var call := At(s, t).call;
      s.(threads := s.threads[t := Reading(call)], mutexes := s.mutexes[Mutex(call) := t])
    case Read(t, found) => if found then TakeRead(s, t) else TakeFailedRead(s, t)
    case Check(t) => TakeCheck(s, t)
    case Write(t, reply) => if reply.Counted? then TakeWrite(s, t) else TakeFailedWrite(s, t, reply)
    case Unlock(t) =>
      var p := At(s, t);
      s.(threads := s.threads[t := Returning(p.call, p.outcome)], mutexes := s.mutexes - {Mutex(p.call)})
    case Answer(t) =>
      var p := At(s, t);
      s.(threads := s.threads[t := Idle], answers := s.answers + [Answered(p.call, p.outcome, |s.log|)])
    case Land(number) => TakeLand(s, number)
  }

  function TakeInvoke(s: State, t: Thread, id: int, operation: Operation): State {
    var call := Call(s.calls, |s.log|, t, id, operation);
    if Known(id) then
      s.(calls := s.calls + 1, threads := s.threads[t := if operation.Get? then Fetching(call) else Locking(call)])
    else
      s.(calls := s.calls + 1, threads := s.threads[t := Returning(call, NotFound)],
         log := s.log + [Entry(call, NotFound)])
  }

  /** Reads data and version together.  A snapshot over the limit settles the call here. */
  function TakeRead(s: State, t: Thread): State
    requires ShapeOk(s) && Enabled(s, Read(t, true))
  {
    var p := At(s, t);
    var row := s.rows[p.call.id - 1];
    if p.Fetching? then
      s.(threads := s.threads[t := Returning(p.call, Success(row.customer))],
         log := s.log + [Entry(p.call, Success(row.customer))])
    else
      s.(threads := s.threads[t := Checking(p.call, row.customer, row.version)],
         log := if Exceeds(row.customer, p.call.operation.transaction)
                then s.log + [Entry(p.call, LimitExceeded(row.customer))] else s.log)
  }

  /** A transaction tries again; a statement is answered as if the customer did not exist. */
  function TakeFailedRead(s: State, t: Thread): State
    requires ShapeOk(s) && Enabled(s, Read(t, false))
  {
    var p := At(s, t);
    if p.Reading? then s
    else s.(threads := s.threads[t := Returning(p.call, NotFound)], faults := s.faults[p.call.number := ReadFailed])
  }

  function TakeCheck(s: State, t: Thread): State
    requires ShapeOk(s) && Enabled(s, Check(t))
  {
    var p := At(s, t);
    var transaction := p.call.operation.transaction;
    s.(threads := s.threads[t := if Exceeds(p.snapshot, transaction)
                                 then Unlocking(p.call, LimitExceeded(p.snapshot))
                                 else Writing(p.call, Apply(p.snapshot, transaction), p.version)])
  }

  /** The update is keyed on (id, version); zero modified rows sends the thread round its loop again. */
  function TakeWrite(s: State, t: Thread): State
    requires ShapeOk(s) && Enabled(s, Write(t, Counted))
  {
    var p := At(s, t);
    var key := p.call.id - 1;
    if s.rows[key].version == p.version then
      s.(threads := s.threads[t := Unlocking(p.call, Success(p.updated))],
         rows := s.rows[key := Row(p.updated, p.version + 1)],
         log := s.log + [Entry(p.call, Success(p.updated))])
    else
      s.(threads := s.threads[t := Reading(p.call)],
         retries := s.retries[Mutex(p.call) := Retries(s, p.call.thread.process, key) + 1])
  }

  /** An error code and a lost reply both read as success; an unsent request is tried again. */
  function TakeFailedWrite(s: State, t: Thread, reply: Reply): State
    requires ShapeOk(s) && Enabled(s, Write(t, reply)) && !reply.Counted?
  {
    var p := At(s, t);
    var done := s.threads[t := Unlocking(p.call, Success(p.updated))];
    match reply
    case Rejected => s.(threads := done, faults := s.faults[p.call.number := WriteRejected])
    case Lost =>
      s.(threads := done, faults := s.faults[p.call.number := ReplyLost],
         inFlight := s.inFlight[p.call.number := Flight(p.call, p.updated, p.version)])
    case Unsent => s.(threads := s.threads[t := Reading(p.call)])
  }

  /** The request in flight still finds its version, or changes nothing. */
  predicate Lands(s: State, number: nat)
    requires ShapeOk(s) && number in s.inFlight
  {
    s.rows[s.inFlight[number].call.id - 1].version == s.inFlight[number].version
  }

  function TakeLand(s: State, number: nat): State
    requires ShapeOk(s) && number in s.inFlight
  {
    var f := s.inFlight[number];
    var key := f.call.id - 1;
    if Lands(s, number) then
      s.(inFlight := s.inFlight - {number},
         rows := s.rows[key := Row(f.updated, f.version + 1)],
         log := s.log + [Entry(f.call, Success(f.updated))],
         landings := s.landings[Mutex(f.call) := Landings(s, f.call.thread.process, key) + 1])
    else s.(inFlight := s.inFlight - {number})
  }

  // ----- The sequential ledger the protocol has to look like -----

  predicate Commits(e: Entry, key: int) {
    e.call.id - 1 == key && e.call.operation.Execute? && e.outcome.Success?
  }

  /** The transactions committed for one customer, oldest first. */
  function History(log: seq<Entry>, key: int): seq<Transaction> {
    if log == [] then []
    else
      var rest := History(log[..|log| - 1], key);
      var last := log[|log| - 1];
      if Commits(last, key) then rest + [last.call.operation.transaction] else rest
  }

  function Replay(log: seq<Entry>, key: int): (c: Customer)
    requires 0 <= key < CUSTOMERS
    ensures WellFormed(c)
  {
    Fold(Opened(INITIAL_LIMITS[key]), History(log, key))
  }

  /** What a single-threaded ledger in the state left by `log` answers. */
  function Expected(log: seq<Entry>, id: int, operation: Operation): Outcome {
    if !Known(id) then NotFound
    else
      var c := Replay(log, id - 1);
      match operation
      case Get => Success(c)
      case Execute(transaction) =>
        if Exceeds(c, transaction) then LimitExceeded(c) else Success(Apply(c, transaction))
  }

  ghost predicate Sequential(log: seq<Entry>) {
    forall i :: 0 <= i < |log| ==> log[i].outcome == Expected(log[..i], log[i].call.id, log[i].call.operation)
  }

  /** The call took effect at one point after its invocation, with this outcome. */
  ghost predicate Effective(log: seq<Entry>, call: Call, outcome: Outcome) {
    exists i :: call.begin <= i < |log| && log[i] == Entry(call, outcome)
  }

  ghost predicate Unused(log: seq<Entry>, number: nat) {
    forall i :: 0 <= i < |log| ==> log[i].call.number != number
  }

  /** Commits on `key` by threads of other processes. */
  function ForeignCommits(log: seq<Entry>, process: nat, key: int): nat {
    if log == [] then 0
    else
      var last := log[|log| - 1];
      ForeignCommits(log[..|log| - 1], process, key)
      + (if Commits(last, key) && last.call.thread.process != process then 1 else 0)
  }
}
